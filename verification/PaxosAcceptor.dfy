/** The acceptor: promises and votes, one record per instance. */
module PaxosAcceptor {
  import opened Options
  import opened PaxosMessages

  /** Highest ballot promised, and the last vote cast (ballot 0 before the first vote). */
  datatype Entry = Entry(proposal: int, value: Value, proposalAccepted: int)

  datatype State = State(proto: map<int, Entry>)

  const FRESH: Entry := Entry(0, "", 0)

  function Get(s: State, i: int): Entry {
    if i in s.proto then s.proto[i] else FRESH
  }

  function Step(s: State, p: Packet): (State, Option<Msg>) {
    var i := p.msg.instance;
    var e := Get(s, i);
    var s1 := State(s.proto[i := e]);
    match p.msg.typ
    case PREPARE =>
      if p.msg.proposal > e.proposal then
        (State(s.proto[i := e.(proposal := p.msg.proposal)]),
         Some(Msg(PREPARE_OK, e.proposalAccepted, e.value, i)))
      else
        (s1, Some(Msg(PREPARE_REJECT, e.proposal, "", i)))
    case ACCEPT =>
      if p.msg.proposal >= e.proposal && p.msg.proposal != e.proposalAccepted then
        (State(s.proto[i := Entry(p.msg.proposal, p.msg.value, p.msg.proposal)]),
         Some(Msg(ACCEPT_OK, p.msg.proposal, p.msg.value, i)))
      else if p.msg.proposal < e.proposal then
        (s1, Some(Msg(ACCEPT_REJECT, 0, "", 0)))
      else
        (s1, None)
    case _ =>
      (s1, None)
  }

  lemma ReplyType(s: State, p: Packet)
    ensures Step(s, p).1.Some? ==> Step(s, p).1.value.typ in {PREPARE_OK, PREPARE_REJECT, ACCEPT_OK, ACCEPT_REJECT}
  {
  }

  /** A vote is never below the promise. */
  lemma VoteAbovePromise(s: State, p: Packet)
    requires Step(s, p).1.Some? && Step(s, p).1.value.typ == ACCEPT_OK
    ensures Step(s, p).1.value.instance == p.msg.instance
    ensures Step(s, p).1.value.proposal >= Get(s, p.msg.instance).proposal
  {
  }

  class AcceptorProtocol {
    var proposal: int
    var value: Value
    var proposalAccepted: int

    constructor ()
      ensures View() == FRESH
    {
      proposal, value, proposalAccepted := 0, "", 0;
    }

    function View(): Entry
      reads this
    {
      Entry(proposal, value, proposalAccepted)
    }
  }

  class Acceptor {
    var proto: map<int, AcceptorProtocol>

    /** No two instances share a record. */
    ghost predicate Valid()
      reads this
    {
      forall i, j :: i in proto && j in proto && i != j ==> proto[i] != proto[j]
    }

    ghost function Abs(): State
      reads this, proto.Values
    {
      State(map i | i in proto :: proto[i].View())
    }

    constructor ()
      ensures Valid() && proto.Values == {}
      ensures Abs() == State(map[])
    {
      proto := map[];
    }

    /** Writing to the record of instance i shows up as one map update. */
    twostate lemma OneEntryChanged(i: int)
      requires old(Valid()) && Valid() && proto == old(proto) && i in proto
      requires forall j :: j in proto && j != i ==> unchanged(proto[j])
      ensures Abs().proto == old(Abs().proto)[i := proto[i].View()]
    {
      assert Abs().proto.Keys == old(Abs().proto).Keys;
      forall j | j in proto && j != i
        ensures Abs().proto[j] == old(Abs().proto)[j]
      {
        assert proto[j].View() == old(proto[j].View());
        assert old(Abs()).proto[j] == old(proto[j].View());
      }
    }

    /** Looks the record of an instance up, creating it on first use. */
    method Lookup(i: int) returns (e: AcceptorProtocol)
      requires Valid()
      modifies this
      ensures Valid() && fresh(proto.Values - old(proto.Values))
      ensures i in proto && proto[i] == e && e.View() == Get(old(Abs()), i)
      ensures Abs() == State(old(Abs()).proto[i := e.View()])
    {
      if i !in proto {
        e := new AcceptorProtocol();
        proto := proto[i := e];
      } else {
        e := proto[i];
      }
      assert Abs().proto == old(Abs()).proto[i := e.View()];
    }

    method Operate(p: Packet) returns (reply: Option<Msg>)
      requires Valid()
      modifies this, proto.Values
      ensures Valid() && fresh(proto.Values - old(proto.Values))
      ensures Abs() == Step(old(Abs()), p).0
      ensures reply == Step(old(Abs()), p).1
    {
      var msg := p.msg;
      var e := Lookup(msg.instance);
      label found:
      match msg.typ
      case PREPARE =>
        if msg.proposal > e.proposal {
          e.proposal := msg.proposal;
          OneEntryChanged@found(msg.instance);
          return Some(Msg(PREPARE_OK, e.proposalAccepted, e.value, msg.instance));
        } else {
          return Some(Msg(PREPARE_REJECT, e.proposal, "", msg.instance));
        }
      case ACCEPT =>
        if msg.proposal >= e.proposal && msg.proposal != e.proposalAccepted {
          e.proposal := msg.proposal;
          e.proposalAccepted := msg.proposal;
          e.value := msg.value;
          OneEntryChanged@found(msg.instance);
          return Some(Msg(ACCEPT_OK, msg.proposal, msg.value, msg.instance));
        } else if msg.proposal < e.proposal {
          return Some(Msg(ACCEPT_REJECT, 0, "", 0));
        }
        return None;
      case _ =>
        return None;
    }
  }
}
