/** The proposer: ballot numbers, instance numbers and the choice of the value to propose. */
module PaxosCoordinator {
  import opened Options
  import opened PaxosMessages

  /** How many replicas there are: at least the one running this code. */
  type Nodes = n: int | n > 0 witness 1

  /** What the coordinator remembers about the instance it is proposing in. */
  datatype Entry = Entry(pvalue: Value, aproposal: int, avalue: Value, nvalue: Value,
                         responses: set<Addr>, proposal: int)

  datatype State = State(nodepos: int, nodes: Nodes, quorum: int, proto: map<int, Entry>,
                         instance: int, nextproposal: int, highproposal: int)

  function Init(nodepos: int, nodes: Nodes, quorum: int): State {
    State(nodepos, nodes, quorum, map[], 0, nodepos, 0)
  }

  /** The ballot after `next` once everything below `high` has been skipped. */
  function SkipBelow(next: int, nodes: Nodes, high: int): int
    decreases high - next
  {
    if next < high then SkipBelow(next + nodes, nodes, high) else next
  }

  function NewEntry(value: Value, proposal: int): Entry {
    Entry(value, 0, "", "", {}, proposal)
  }

  /** One PREPARE_OK counted: the highest accepted pair seen so far and the set of responders. */
  function Count(e: Entry, p: Packet): Entry {
    var e1 := if p.msg.proposal > e.aproposal
              then e.(aproposal := p.msg.proposal, avalue := p.msg.value) else e;
    e1.(responses := e1.responses + {p.from})
  }

  function Choice(e: Entry): Value {
    if e.aproposal > 0 then e.avalue else e.pvalue
  }

  /** True when a PREPARE_OK delivered to s would be counted rather than ignored. */
  predicate Counts(s: State, p: Packet) {
    p.msg.typ == PREPARE_OK && p.msg.instance in s.proto && s.proto[p.msg.instance].nvalue == ""
  }

  function Step(s: State, p: Packet): (State, Option<Msg>) {
    match p.msg.typ
    case PROPOSE =>
      var i := s.instance + 1;
      (s.(instance := i,
          nextproposal := SkipBelow(s.nextproposal + s.nodes, s.nodes, s.highproposal),
          proto := s.proto[i := NewEntry(p.msg.value, s.nextproposal)]),
       Some(Msg(PREPARE, s.nextproposal, "", i)))
    case LEARN =>
      (s, Some(Msg(NOP, 0, "", p.msg.instance)))
    case PREPARE_OK =>
      if !Counts(s, p) then (s, None)
      else
        var i := p.msg.instance;
        var e := Count(s.proto[i], p);
        if |e.responses| >= s.quorum then
          (s.(proto := s.proto[i := e.(nvalue := Choice(e))]),
           Some(Msg(ACCEPT, e.proposal, Choice(e), i)))
        else
          (s.(proto := s.proto[i := e]), None)
    case PREPARE_REJECT =>
      (s.(highproposal := p.msg.proposal), None)
    case _ =>
      (s, None)
  }

  lemma ReplyType(s: State, p: Packet)
    ensures Step(s, p).1.Some? ==> Step(s, p).1.value.typ in {PREPARE, ACCEPT, NOP}
  {
  }

  /** A record that differs after a step is new, is done, or has just counted an answer. */
  lemma ChangedEntry(s: State, p: Packet, i: int)
    requires i in Step(s, p).0.proto
    ensures var after := Step(s, p).0.proto[i];
            || (i in s.proto && after == s.proto[i])
            || (after.responses == {} && after.aproposal == 0)
            || after.nvalue != ""
            || (Counts(s, p) && i == p.msg.instance && after == Count(s.proto[i], p))
  {
  }

  /** Skipping only moves upwards and stays in the residue class of the node position. */
  lemma {:induction false} SkipBelowKeepsResidue(next: int, nodes: Nodes, high: int)
    ensures SkipBelow(next, nodes, high) >= next
    ensures SkipBelow(next, nodes, high) >= high
    ensures SkipBelow(next, nodes, high) % nodes == next % nodes
    decreases high - next
  {
    if next < high {
      SkipBelowKeepsResidue(next + nodes, nodes, high);
      AddModulus(next, nodes);
    }
  }

  /** No stride is taken in vain. */
  lemma {:induction false} SkipBelowStopsFirst(next: int, nodes: Nodes, high: int)
    ensures SkipBelow(next, nodes, high) == next || SkipBelow(next, nodes, high) - nodes < high
    decreases high - next
  {
    if next < high {
      SkipBelowStopsFirst(next + nodes, nodes, high);
    }
  }

  lemma AddModulus(x: int, n: Nodes)
    ensures (x + n) % n == x % n
  {
    QuotientUnique((x + n) / n, (x + n) % n, x / n + 1, x % n, n);
  }

  lemma QuotientUnique(q: int, r: int, q': int, r': int, n: int)
    requires 0 <= r < n && 0 <= r' < n
    requires q * n + r == q' * n + r'
    ensures r == r'
  {
    Scale(q - q', n);
    assert (q - q') * n == r' - r;
  }

  lemma Scale(d: int, n: int)
    requires n > 0
    ensures d >= 1 ==> d * n >= n
    ensures d <= -1 ==> d * n <= -n
    ensures d == 0 ==> d * n == 0
  {
    if d >= 1 {
      assert (d - 1) * n >= 0;
    } else if d <= -1 {
      assert (-d - 1) * n >= 0;
    }
  }

  class CoordinatorProtocol {
    var pvalue: Value
    var aproposal: int
    var avalue: Value
    var nvalue: Value
    var responses: set<Addr>
    var proposal: int

    constructor ()
      ensures View() == NewEntry("", 0)
    {
      pvalue, nvalue, responses, proposal, aproposal, avalue := "", "", {}, 0, 0, "";
    }

    function View(): Entry
      reads this
    {
      Entry(pvalue, aproposal, avalue, nvalue, responses, proposal)
    }
  }

  class Coordinator {
    var nodepos: int
    var nodes: Nodes
    var quorum: int
    var proto: map<int, CoordinatorProtocol>
    var instance: int
    var nextproposal: int
    var highproposal: int

    /** No two instances share a record. */
    ghost predicate Valid()
      reads this
    {
      forall i, j :: i in proto && j in proto && i != j ==> proto[i] != proto[j]
    }

    ghost function Abs(): State
      reads this, proto.Values
    {
      State(nodepos, nodes, quorum, map i | i in proto :: proto[i].View(),
            instance, nextproposal, highproposal)
    }

    constructor (nodepos: int, nodes: Nodes, quorum: int)
      ensures Valid() && proto.Values == {}
      ensures Abs() == Init(nodepos, nodes, quorum)
    {
      this.nodepos, this.nodes, this.quorum := nodepos, nodes, quorum;
      proto, instance, nextproposal, highproposal := map[], 0, nodepos, 0;
    }

    /** Writing to the record of instance i shows up as one map update. */
    twostate lemma OneEntryChanged(i: int)
      requires old(Valid()) && Valid() && proto == old(proto) && i in proto
      requires forall j :: j in proto && j != i ==> unchanged(proto[j])
      ensures Abs().proto == old(Abs().proto)[i := proto[i].View()]
    {
      assert Abs().proto.Keys == old(Abs().proto).Keys;
      forall j | j in proto && j != i ensures Abs().proto[j] == old(Abs().proto)[j] {
        assert proto[j].View() == old(proto[j].View());
        assert old(Abs()).proto[j] == old(proto[j].View());
        assert Abs().proto[j] == proto[j].View();
      }
    }

    method NewProposalNumber() returns (p: int)
      requires Valid()
      modifies `nextproposal
      ensures p == old(nextproposal)
      ensures nextproposal == SkipBelow(p + nodes, nodes, highproposal)
      ensures Abs() == old(Abs()).(nextproposal := nextproposal)
    {
      p := nextproposal;
      nextproposal := nextproposal + nodes;
      while nextproposal < highproposal
        invariant SkipBelow(nextproposal, nodes, highproposal) == SkipBelow(p + nodes, nodes, highproposal)
        decreases highproposal - nextproposal
      {
        nextproposal := nextproposal + nodes;
      }
    }

    method NewInstanceNumber() returns (i: int)
      modifies `instance
      ensures i == instance == old(instance) + 1
      ensures Abs() == old(Abs()).(instance := i)
    {
      instance := instance + 1;
      return instance;
    }

    /** The PREPARE_OK arm of Operate. */
    method CountPrepareOk(p: Packet) returns (reply: Option<Msg>)
      requires Valid() && p.msg.typ == PREPARE_OK
      modifies proto.Values
      ensures Valid()
      ensures Abs() == Step(old(Abs()), p).0
      ensures reply == Step(old(Abs()), p).1
    {
      var msg := p.msg;
      if msg.instance !in proto {
        return None;
      }
      var e := proto[msg.instance];
      // later answers to a finished round change nothing
      if e.nvalue != "" {
        return None;
      }
      if msg.proposal > e.aproposal {
        e.aproposal := msg.proposal;
        e.avalue := msg.value;
      }
      e.responses := e.responses + {p.from};
      assert e.View() == Count(old(e.View()), p);
      if |e.responses| < quorum {
        OneEntryChanged(msg.instance);
        return None;
      }
      if e.aproposal > 0 {
        e.nvalue := e.avalue;
      } else {
        e.nvalue := e.pvalue;
      }
      OneEntryChanged(msg.instance);
      return Some(Msg(ACCEPT, e.proposal, e.nvalue, msg.instance));
    }

    method Add(i: int, cp: CoordinatorProtocol)
      requires Valid() && cp !in proto.Values
      modifies `proto
      ensures Valid() && proto == old(proto)[i := cp]
      ensures Abs() == old(Abs()).(proto := old(Abs()).proto[i := cp.View()])
    {
      proto := proto[i := cp];
      assert Abs().proto == old(Abs()).proto[i := cp.View()];
    }

    /** The PROPOSE arm of Operate. */
    method OpenInstance(p: Packet) returns (reply: Option<Msg>)
      requires Valid() && p.msg.typ == PROPOSE
      modifies this
      ensures Valid() && fresh(proto.Values - old(proto.Values))
      ensures Abs() == Step(old(Abs()), p).0
      ensures reply == Step(old(Abs()), p).1
    {
      var cp := new CoordinatorProtocol();
      cp.pvalue := p.msg.value;
      cp.proposal := NewProposalNumber();
      var i := NewInstanceNumber();
      Add(i, cp);
      return Some(Msg(PREPARE, cp.proposal, "", i));
    }

    method Operate(p: Packet) returns (reply: Option<Msg>)
      requires Valid()
      modifies this, proto.Values
      ensures Valid() && fresh(proto.Values - old(proto.Values))
      ensures Abs() == Step(old(Abs()), p).0
      ensures reply == Step(old(Abs()), p).1
    {
      var msg := p.msg;
      match msg.typ
      case PROPOSE =>
        reply := OpenInstance(p);
      case LEARN =>
        return Some(Msg(NOP, 0, "", msg.instance));
      case PREPARE_OK =>
        reply := CountPrepareOk(p);
      case PREPARE_REJECT =>
        highproposal := msg.proposal;
        return None;
      case _ =>
        return None;
    }
  }
}
