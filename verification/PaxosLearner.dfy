/** The learner: counts votes of the highest ballot seen and commits on a quorum. */
module PaxosLearner {
  import opened Options
  import opened PaxosMessages

  datatype Entry = Entry(responses: set<Addr>, valueCounts: map<Value, nat>, proposal: int,
                         value: Value, commit: bool)

  datatype State = State(quorum: int, proto: map<int, Entry>)

  /** What an operation tells the replica: a message to send, and the instance and value learnt
      (instance 0 when nothing was learnt). */
  datatype Result = Result(reply: Option<Msg>, learnt: int, value: Value)

  const NOTHING: Result := Result(None, 0, "")

  const FRESH: Entry := Entry({}, map[], 0, "", false)

  function Get(s: State, i: int): Entry {
    if i in s.proto then s.proto[i] else FRESH
  }

  function Votes(e: Entry, v: Value): nat {
    if v in e.valueCounts then e.valueCounts[v] else 0
  }

  /** The committed part of the log. */
  function History(s: State): map<int, Value> {
    map i | i in s.proto && s.proto[i].commit :: s.proto[i].value
  }

  /** A vote for a higher ballot than seen so far forgets the votes counted before. */
  function Raise(e: Entry, proposal: int): Entry {
    if proposal > e.proposal then e.(proposal := proposal, responses := {}, valueCounts := map[]) else e
  }

  function CountVote(e: Entry, from: Addr, v: Value): Entry {
    e.(responses := e.responses + {from}, valueCounts := e.valueCounts[v := Votes(e, v) + 1])
  }

  function Commit(e: Entry, v: Value): Entry {
    e.(commit := true, value := v)
  }

  /** The ACCEPT_OK arm: the new record and whether it has just been committed. */
  function AfterVote(e: Entry, p: Packet, quorum: int): (Entry, bool) {
    if p.msg.proposal < e.proposal then (e, false)
    else
      var e1 := Raise(e, p.msg.proposal);
      if p.from in e1.responses then (e1, false)
      else
        var e2 := CountVote(e1, p.from, p.msg.value);
        if Votes(e2, p.msg.value) >= quorum then (Commit(e2, p.msg.value), true) else (e2, false)
  }

  function Step(s: State, p: Packet): (State, Result) {
    var i := p.msg.instance;
    var e := Get(s, i);
    var s1 := s.(proto := s.proto[i := e]);
    if e.commit then
      (s1, if p.msg.typ == NOP then Result(Some(Msg(COMMIT, e.proposal, e.value, i)), 0, "") else NOTHING)
    else
      match p.msg.typ
      case ACCEPT_OK =>
        var (e1, done) := AfterVote(e, p, s.quorum);
        (s.(proto := s.proto[i := e1]),
         if done then Result(Some(Msg(COMMIT, p.msg.proposal, p.msg.value, i)), i, p.msg.value) else NOTHING)
      case COMMIT =>
        (s.(proto := s.proto[i := Commit(e, p.msg.value)]), Result(None, i, p.msg.value))
      case _ =>
        (s1, NOTHING)
  }

  /** A committed record is never touched again. */
  lemma CommitStays(s: State, p: Packet, i: int)
    requires i in s.proto && s.proto[i].commit
    ensures i in Step(s, p).0.proto && Step(s, p).0.proto[i] == s.proto[i]
  {
  }

  lemma ReplyType(s: State, p: Packet)
    ensures Step(s, p).1.reply.Some? ==> Step(s, p).1.reply.value.typ == COMMIT
  {
  }

  class LearnerProtocol {
    var responses: set<Addr>
    var valueCounts: map<Value, nat>
    var proposal: int
    var value: Value
    var commit: bool

    constructor ()
      ensures View() == FRESH
    {
      responses, valueCounts, proposal, value, commit := {}, map[], 0, "", false;
    }

    function View(): Entry
      reads this
    {
      Entry(responses, valueCounts, proposal, value, commit)
    }
  }

  class Learner {
    var quorum: int
    var proto: map<int, LearnerProtocol>

    /** No two instances share a record. */
    ghost predicate Valid()
      reads this
    {
      forall i, j :: i in proto && j in proto && i != j ==> proto[i] != proto[j]
    }

    ghost function Abs(): State
      reads this, proto.Values
    {
      State(quorum, map i | i in proto :: proto[i].View())
    }

    constructor (quorum: int)
      ensures Valid() && proto.Values == {}
      ensures Abs() == State(quorum, map[])
    {
      this.quorum := quorum;
      proto := map[];
    }

    /** Writing to the record of instance i shows up as one map update. */
    twostate lemma OneEntryChanged(i: int)
      requires old(Valid()) && Valid() && proto == old(proto) && i in proto
      requires forall j :: j in proto && j != i ==> unchanged(proto[j])
      ensures Abs().proto == old(Abs().proto)[i := proto[i].View()]
    {
      assert Abs().proto.Keys == old(Abs().proto).Keys;
      forall j | j in proto && j != i
        ensures Abs().proto[j] == old(Abs().proto)[j]
      {
        assert proto[j].View() == old(proto[j].View());
        assert old(Abs()).proto[j] == old(proto[j].View());
      }
    }

    /** Looks the record of an instance up, creating it on first use. */
    method Lookup(i: int) returns (e: LearnerProtocol)
      requires Valid()
      modifies `proto
      ensures Valid() && fresh(proto.Values - old(proto.Values))
      ensures i in proto && proto[i] == e && e.View() == Get(old(Abs()), i)
      ensures Abs() == State(quorum, old(Abs()).proto[i := e.View()])
    {
      if i !in proto {
        e := new LearnerProtocol();
        proto := proto[i := e];
      } else {
        e := proto[i];
      }
      assert Abs().proto == old(Abs()).proto[i := e.View()];
    }

    method GetHistory() returns (h: map<int, Value>)
      ensures h == History(Abs())
    {
      h := map[];
      var rest := proto.Keys;
      while rest != {}
        invariant rest <= proto.Keys
        invariant h == map i | i in proto && i !in rest && proto[i].commit :: proto[i].value
        decreases |rest|
      {
        var i := Any(rest);
        rest := rest - {i};
        if proto[i].commit {
          h := h[i := proto[i].value];
        }
      }
      assert forall i :: i in proto ==> Abs().proto[i] == proto[i].View();
      assert h.Keys == History(Abs()).Keys;
    }

    /** The ACCEPT_OK arm on the record of one instance. */
    method TakeVote(e: LearnerProtocol, p: Packet) returns (done: bool)
      modifies e
      ensures (e.View(), done) == AfterVote(old(e.View()), p, quorum)
    {
      var msg := p.msg;
      if msg.proposal >= e.proposal {
        if msg.proposal > e.proposal {
          e.proposal := msg.proposal;
          e.responses := {};
          e.valueCounts := map[];
        }
        if p.from !in e.responses {
          var counted := if msg.value in e.valueCounts then e.valueCounts[msg.value] else 0;
          e.valueCounts := e.valueCounts[msg.value := counted + 1];
          e.responses := e.responses + {p.from};
          if e.valueCounts[msg.value] >= quorum {
            e.commit := true;
            e.value := msg.value;
            return true;
          }
        }
      }
      return false;
    }

    /** The ACCEPT_OK and COMMIT arms on a record that is not committed yet. */
    method Advance(e: LearnerProtocol, p: Packet) returns (r: Result)
      requires Valid() && p.msg.instance in proto && proto[p.msg.instance] == e && !e.commit
      modifies e
      ensures Valid()
      ensures Abs() == Step(old(Abs()), p).0
      ensures r == Step(old(Abs()), p).1
    {
      var msg := p.msg;
      assert old(Abs()).proto[msg.instance] == old(e.View());
      if msg.typ == ACCEPT_OK {
        var done := TakeVote(e, p);
        OneEntryChanged(msg.instance);
        if done {
          return Result(Some(Msg(COMMIT, msg.proposal, msg.value, msg.instance)), msg.instance, msg.value);
        }
        return NOTHING;
      } else if msg.typ == COMMIT {
        e.commit := true;
        e.value := msg.value;
        OneEntryChanged(msg.instance);
        return Result(None, msg.instance, msg.value);
      }
      OneEntryChanged(msg.instance);
      return NOTHING;
    }

    method Operate(p: Packet) returns (r: Result)
      requires Valid()
      modifies this, proto.Values
      ensures Valid() && fresh(proto.Values - old(proto.Values))
      ensures Abs() == Step(old(Abs()), p).0
      ensures r == Step(old(Abs()), p).1
    {
      var e := Lookup(p.msg.instance);
      if e.commit {
        // a replica that missed the commit is told the value
        if p.msg.typ == NOP {
          return Result(Some(Msg(COMMIT, e.proposal, e.value, p.msg.instance)), 0, "");
        }
        return NOTHING;
      }
      r := Advance(e, p);
    }
  }
}
