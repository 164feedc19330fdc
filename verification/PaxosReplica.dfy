/** One libpaxos replica: the three roles behind one packet loop, the in-order execution of the
    committed log and the set of values still to be retried. */
module PaxosReplica {
  import opened Options
  import opened PaxosMessages
  import C = PaxosCoordinator
  import L = PaxosLearner
  import A = PaxosAcceptor
  import Codec

  /** `executed` is the list of tagged commands handed to the client, in order. */
  datatype State = State(self: Addr, nodepos: int, c: C.State, l: L.State, a: A.State,
                         highestLearnt: int, lastCommandExecuted: int,
                         unsentValues: map<Value, Packet>, executeHistory: set<Value>,
                         executed: seq<Value>, proposeCounter: nat)

  /** Messages broadcast to every replica, and packets queued for this replica itself. */
  datatype Output = Output(sent: seq<Msg>, queued: set<Packet>)

  function Init(self: Addr, nodepos: int, nodes: C.Nodes, quorum: int): State {
    State(self, nodepos, C.Init(nodepos, nodes, quorum), L.State(quorum, map[]), A.State(map[]),
          0, 0, map[], {}, [], 0)
  }

  function LearnPacket(self: Addr, instance: int): Packet {
    Packet(Msg(LEARN, 0, "", instance), self)
  }

  function EpochPacket(self: Addr): Packet {
    Packet(Msg(EPOCH, 0, "", 0), self)
  }

  /** A Go map read: "" when the key is missing. */
  function At(history: map<int, Value>, i: int): Value {
    if i in history then history[i] else ""
  }

  /** One command handed to the client unless it was handed over before. */
  function Execute(s: State, v: Value): State {
    if v in s.executeHistory then s
    else s.(executeHistory := s.executeHistory + {v}, executed := s.executed + [v])
  }

  function ExecuteRange(s: State, history: map<int, Value>, first: int, last: int): State
    decreases last - first
  {
    if first > last then s else ExecuteRange(Execute(s, At(history, first)), history, first + 1, last)
  }

  function Missing(self: Addr, history: map<int, Value>, high: int): set<Packet> {
    set i | 1 <= i < high && i !in history :: LearnPacket(self, i)
  }

  /** A newly learnt instance beyond all known ones also moves the coordinator's instance counter,
      possibly backwards. */
  function NoteLearnt(s: State, learnt: int): State {
    if learnt > s.highestLearnt then s.(highestLearnt := learnt, c := s.c.(instance := learnt)) else s
  }

  /** Executes when the log has no gap, asks for the missing instances otherwise. */
  function CatchUp(s: State): (State, set<Packet>) {
    var history := L.History(s.l);
    if |history| == s.highestLearnt then
      (ExecuteRange(s, history, s.lastCommandExecuted + 1, s.highestLearnt).(
         lastCommandExecuted := s.highestLearnt), {})
    else
      (s, Missing(s.self, history, s.highestLearnt))
  }

  /** Everything handleOperate does once the learner reports an instance. */
  function Learned(s: State, learnt: int, value: Value): (State, set<Packet>) {
    var (s1, queued) := CatchUp(NoteLearnt(s, learnt));
    (s1.(unsentValues := s1.unsentValues - {value}), queued)
  }

  function Remember(s: State, p: Packet): State {
    if p.msg.typ == PROPOSE then s.(unsentValues := s.unsentValues[p.msg.value := p]) else s
  }

  function Retried(s: State, p: Packet): set<Packet> {
    if p.msg.typ == EPOCH then s.unsentValues.Values else {}
  }

  /** The learner's part of handleOperate. */
  function LearnerPart(s: State, p: Packet): (State, Output) {
    var (l1, r) := L.Step(s.l, p);
    var s1 := s.(l := l1);
    if r.learnt > 0 then
      var (s2, queued) := Learned(s1, r.learnt, r.value);
      (s2, Output(ToSeq(r.reply), queued))
    else
      (s1, Output(ToSeq(r.reply), {}))
  }

  function Step(s: State, p: Packet): (State, Output) {
    var s0 := Remember(s, p);
    var (c1, m1) := C.Step(s0.c, p);
    var (s2, o) := LearnerPart(s0.(c := c1), p);
    var (a1, m3) := A.Step(s2.a, p);
    (s2.(a := a1), Output(ToSeq(m1) + o.sent + ToSeq(m3), Retried(s, p) + o.queued))
  }

  /** The packet ProposeCommand queues. */
  function Proposal(s: State, command: string): Packet {
    Packet(Msg(PROPOSE, 0, Codec.ModifiedValue(s.nodepos, s.proposeCounter, command), 0), s.self)
  }

  function Propose(s: State, command: string): (State, Packet) {
    (s.(proposeCounter := s.proposeCounter + 1), Proposal(s, command))
  }

  lemma {:induction false} ExecuteRangeFrame(s: State, history: map<int, Value>, first: int, last: int)
    ensures ExecuteRange(s, history, first, last) ==
            s.(executeHistory := ExecuteRange(s, history, first, last).executeHistory,
               executed := ExecuteRange(s, history, first, last).executed)
    decreases last - first
  {
    if first <= last {
      ExecuteRangeFrame(Execute(s, At(history, first)), history, first + 1, last);
    }
  }

  lemma CatchUpFrame(s: State)
    ensures var (t, queued) := CatchUp(s);
            && t == s.(lastCommandExecuted := t.lastCommandExecuted,
                       executeHistory := t.executeHistory, executed := t.executed)
            && forall q :: q in queued ==> q.msg.typ == LEARN && q.from == s.self
  {
    ExecuteRangeFrame(s, L.History(s.l), s.lastCommandExecuted + 1, s.highestLearnt);
  }

  /** Executing and recovering leave the learner, the acceptor and the ballots alone. */
  lemma LearnedFrame(s: State, learnt: int, value: Value)
    ensures var (t, queued) := Learned(s, learnt, value);
            && t == s.(c := s.c.(instance := NoteLearnt(s, learnt).c.instance),
                       highestLearnt := NoteLearnt(s, learnt).highestLearnt,
                       lastCommandExecuted := t.lastCommandExecuted,
                       unsentValues := s.unsentValues - {value},
                       executeHistory := t.executeHistory, executed := t.executed)
            && forall q :: q in queued ==> q.msg.typ == LEARN && q.from == s.self
  {
    CatchUpFrame(NoteLearnt(s, learnt));
  }

  /** How a packet shows in the parts of the state. */
  lemma StepParts(s: State, p: Packet)
    ensures var (t, o) := Step(s, p);
            var r := L.Step(s.l, p).1;
            && t.self == s.self && t.nodepos == s.nodepos && t.proposeCounter == s.proposeCounter
            && t.l == L.Step(s.l, p).0
            && t.a == A.Step(s.a, p).0
            && t.c == C.Step(s.c, p).0.(instance := t.c.instance)
            && t.c.instance == (if r.learnt > 0 && r.learnt > s.highestLearnt then r.learnt
                                else C.Step(s.c, p).0.instance)
            && t.unsentValues == (if r.learnt > 0 then Remember(s, p).unsentValues - {r.value}
                                  else Remember(s, p).unsentValues)
            && o.sent == ToSeq(C.Step(s.c, p).1) + ToSeq(r.reply) + ToSeq(A.Step(s.a, p).1)
            && forall q :: q in o.queued ==> q in Retried(s, p) || (q.msg.typ == LEARN && q.from == s.self)
  {
    var s0 := Remember(s, p);
    var s1 := s0.(c := C.Step(s0.c, p).0, l := L.Step(s0.l, p).0);
    var r := L.Step(s.l, p).1;
    LearnedFrame(s1, r.learnt, r.value);
  }

  lemma StepRoles(s: State, p: Packet)
    ensures Step(s, p).0.l == L.Step(s.l, p).0
    ensures Step(s, p).0.a == A.Step(s.a, p).0
    ensures Step(s, p).0.c.proto == C.Step(s.c, p).0.proto
  {
    StepParts(s, p);
  }

  /** What a step sends and queues, and who is named as the sender. */
  lemma StepOutput(s: State, p: Packet)
    ensures Step(s, p).1.sent == ToSeq(C.Step(s.c, p).1) + ToSeq(L.Step(s.l, p).1.reply) + ToSeq(A.Step(s.a, p).1)
    ensures forall q :: q in Step(s, p).1.queued ==> q in Retried(s, p) || (q.msg.typ == LEARN && q.from == s.self)
  {
    StepParts(s, p);
  }

  class Libpaxos {
    const self: Addr
    const nodepos: int
    const c: C.Coordinator
    const l: L.Learner
    const a: A.Acceptor
    var highestLearnt: int
    var lastCommandExecuted: int
    var unsentValues: map<Value, Packet>
    var executeHistory: set<Value>
    var executed: seq<Value>
    var proposeCounter: nat

    ghost predicate Valid()
      reads this, c, l, a
    {
      c.Valid() && l.Valid() && a.Valid()
    }

    ghost function Abs(): State
      reads this, c, l, a, c.proto.Values, l.proto.Values, a.proto.Values
    {
      State(self, nodepos, c.Abs(), l.Abs(), a.Abs(), highestLearnt, lastCommandExecuted,
            unsentValues, executeHistory, executed, proposeCounter)
    }

    constructor (self: Addr, replicas: seq<Addr>, q: int, nodepos: int)
      requires replicas != []
      ensures Valid()
      ensures Abs() == Init(self, nodepos, |replicas|, q)
    {
      this.self, this.nodepos := self, nodepos;
      c := new C.Coordinator(nodepos, |replicas|, q);
      l := new L.Learner(q);
      a := new A.Acceptor();
      highestLearnt, lastCommandExecuted, proposeCounter := 0, 0, 0;
      unsentValues, executeHistory, executed := map[], {}, [];
    }

    method ProposeCommand(command: string) returns (queued: Packet)
      requires Valid()
      modifies this
      ensures Valid()
      ensures Abs() == Propose(old(Abs()), command).0 && queued == Propose(old(Abs()), command).1
    {
      queued := Packet(Msg(PROPOSE, 0, Codec.ModifiedValue(nodepos, proposeCounter, command), 0), self);
      proposeCounter := proposeCounter + 1;
    }

    method ExecuteCommand(v: Value)
      modifies `executeHistory, `executed
      ensures executeHistory == old(executeHistory) + {v}
      ensures executed == if v in old(executeHistory) then old(executed) else old(executed) + [v]
    {
      if v !in executeHistory {
        executeHistory := executeHistory + {v};
        executed := executed + [v];
      }
    }

    /** The loop over a log without gaps. */
    method ExecuteLog(history: map<int, Value>)
      requires Valid()
      modifies `executeHistory, `executed, `lastCommandExecuted
      ensures Valid()
      ensures Abs() == ExecuteRange(old(Abs()), history, old(lastCommandExecuted) + 1, highestLearnt).(
                         lastCommandExecuted := highestLearnt)
    {
      var i := lastCommandExecuted + 1;
      ghost var start := Abs();
      ghost var s := start;
      ghost var whole := ExecuteRange(start, history, i, highestLearnt);
      while i <= highestLearnt
        invariant s == start.(executeHistory := executeHistory, executed := executed)
        invariant ExecuteRange(s, history, i, highestLearnt) == whole
        decreases highestLearnt - i
      {
        ExecuteCommand(At(history, i));
        s := Execute(s, At(history, i));
        i := i + 1;
      }
      assert s == whole;
      lastCommandExecuted := highestLearnt;
    }

    /** The loop that asks for the missing instances. */
    method Recover(history: map<int, Value>) returns (queued: set<Packet>)
      ensures queued == Missing(self, history, highestLearnt)
    {
      queued := {};
      var i := 1;
      while i < highestLearnt
        invariant 1 <= i && (i <= highestLearnt || i == 1)
        invariant queued == set j | 1 <= j < i && j !in history :: LearnPacket(self, j)
      {
        if i !in history {
          queued := queued + {LearnPacket(self, i)};
        }
        i := i + 1;
      }
    }

    method Note(learnt: int)
      requires Valid()
      modifies `highestLearnt, c`instance
      ensures Valid()
      ensures Abs() == NoteLearnt(old(Abs()), learnt)
    {
      if learnt > highestLearnt {
        highestLearnt := learnt;
        c.instance := highestLearnt;
      }
    }

    method ExecuteOrRecover() returns (queued: set<Packet>)
      requires Valid()
      modifies `executeHistory, `executed, `lastCommandExecuted
      ensures Valid()
      ensures Abs() == CatchUp(old(Abs())).0 && queued == CatchUp(old(Abs())).1
    {
      queued := {};
      var history := l.GetHistory();
      if |history| == highestLearnt {
        ExecuteLog(history);
      } else {
        queued := Recover(history);
      }
    }

    method DropUnsent(value: Value)
      requires Valid()
      modifies `unsentValues
      ensures Valid()
      ensures Abs() == old(Abs()).(unsentValues := old(unsentValues) - {value})
    {
      assert value !in unsentValues ==> unsentValues == unsentValues - {value};
      if value in unsentValues {
        unsentValues := unsentValues - {value};
      }
    }

    /** The part of handleOperate guarded by learnt > 0. */
    method HandleLearnt(learnt: int, value: Value) returns (queued: set<Packet>)
      requires Valid()
      modifies this, c`instance
      ensures Valid()
      ensures Abs() == Learned(old(Abs()), learnt, value).0
      ensures queued == Learned(old(Abs()), learnt, value).1
    {
      Note(learnt);
      queued := ExecuteOrRecover();
      DropUnsent(value);
    }

    method Learn(p: Packet) returns (sent: seq<Msg>, queued: set<Packet>)
      requires Valid()
      modifies this, c`instance, l, l.proto.Values
      ensures Valid() && fresh(l.proto.Values - old(l.proto.Values))
      ensures Abs() == LearnerPart(old(Abs()), p).0
      ensures Output(sent, queued) == LearnerPart(old(Abs()), p).1
    {
      queued := {};
      var r := l.Operate(p);
      assert Abs() == old(Abs()).(l := L.Step(old(Abs()).l, p).0);
      sent := ToSeq(r.reply);
      if r.learnt > 0 {
        queued := HandleLearnt(r.learnt, r.value);
      }
    }

    /** The PROPOSE and EPOCH cases at the top of handleOperate. */
    method Bookkeeping(p: Packet) returns (queued: set<Packet>)
      requires Valid()
      modifies `unsentValues
      ensures Valid()
      ensures Abs() == Remember(old(Abs()), p) && queued == Retried(old(Abs()), p)
    {
      queued := {};
      if p.msg.typ == PROPOSE {
        unsentValues := unsentValues[p.msg.value := p];
      } else if p.msg.typ == EPOCH {
        queued := RetryAll();
      }
    }

    method Coordinate(p: Packet) returns (reply: Option<Msg>)
      requires Valid()
      modifies c, c.proto.Values
      ensures Valid() && fresh(c.proto.Values - old(c.proto.Values))
      ensures Abs() == old(Abs()).(c := C.Step(old(Abs()).c, p).0)
      ensures reply == C.Step(old(Abs()).c, p).1
    {
      reply := c.Operate(p);
    }

    method Vote(p: Packet) returns (reply: Option<Msg>)
      requires Valid()
      modifies a, a.proto.Values
      ensures Valid() && fresh(a.proto.Values - old(a.proto.Values))
      ensures Abs() == old(Abs()).(a := A.Step(old(Abs()).a, p).0)
      ensures reply == A.Step(old(Abs()).a, p).1
    {
      reply := a.Operate(p);
    }

    /** One packet through all three roles; `sent` is what gets broadcast, in order. */
    method HandleOperate(p: Packet) returns (sent: seq<Msg>, queued: set<Packet>)
      requires Valid()
      modifies this, c, l, a, c.proto.Values, l.proto.Values, a.proto.Values
      ensures Valid()
      ensures Abs() == Step(old(Abs()), p).0
      ensures Output(sent, queued) == Step(old(Abs()), p).1
    {
      queued := Bookkeeping(p);
      var reply := Coordinate(p);
      sent := ToSeq(reply);
      var fromLearner, recovery := Learn(p);
      sent := sent + fromLearner;
      queued := queued + recovery;
      reply := Vote(p);
      sent := sent + ToSeq(reply);
    }

    /** The loop over the values that are not known to be committed. */
    method RetryAll() returns (queued: set<Packet>)
      ensures queued == unsentValues.Values
    {
      queued := {};
      var rest := unsentValues.Keys;
      while rest != {}
        invariant rest <= unsentValues.Keys
        invariant queued == set v | v in unsentValues && v !in rest :: unsentValues[v]
        decreases |rest|
      {
        var v := Any(rest);
        rest := rest - {v};
        queued := queued + {unsentValues[v]};
      }
    }
  }
}
