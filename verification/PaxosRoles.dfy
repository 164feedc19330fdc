/** What acceptors and learners know and answer, said over the packets delivered to them so far. */
module PaxosRoles {
  import opened Options
  import opened PaxosMessages
  import opened PaxosSystem
  import opened PaxosInvariants
  import opened PaxosSafety
  import C = PaxosCoordinator
  import L = PaxosLearner
  import A = PaxosAcceptor
  import R = PaxosReplica

  /** The packet of type t for instance i that an event delivers to r. */
  predicate Gets(e: Event, r: Addr, t: MsgType, i: int) {
    e.Deliver? && e.r == r && e.sent.packet.msg.typ == t && e.sent.packet.msg.instance == i
  }

  function BallotOf(e: Event): int
    requires e.Deliver?
  {
    e.sent.packet.msg.proposal
  }

  // ---- acceptors ----

  /** The highest ballot x has been asked to promise or to vote for in the instance; 0 at first. */
  function HighestAsked(es: seq<Event>, n: nat, x: Addr, i: int): int
    requires n <= |es|
  {
    if n == 0 then 0
    else
      var h := HighestAsked(es, n - 1, x, i);
      var e := es[n - 1];
      if (Gets(e, x, PREPARE, i) || Gets(e, x, ACCEPT, i)) && BallotOf(e) > h then BallotOf(e) else h
  }

  /** x votes: it is asked to accept, and has heard of no higher ballot. */
  predicate VotesAt(es: seq<Event>, m: nat, x: Addr, i: int)
    requires m < |es|
  {
    Gets(es[m], x, ACCEPT, i) && BallotOf(es[m]) >= HighestAsked(es, m, x, i) && BallotOf(es[m]) > 0
  }

  /** Ballot and value of the last vote of x in the instance; (0, "") at first. */
  function LastVote(es: seq<Event>, n: nat, x: Addr, i: int): (int, Value)
    requires n <= |es|
  {
    if n == 0 then (0, "")
    else if VotesAt(es, n - 1, x, i) then (BallotOf(es[n - 1]), es[n - 1].sent.packet.msg.value)
    else LastVote(es, n - 1, x, i)
  }

  ghost predicate Remembers(w: World, es: seq<Event>, n: nat, x: Addr, i: int)
    requires n <= |es|
  {
    x in w.reps &&
    A.Get(w.reps[x].a, i) == A.Entry(HighestAsked(es, n, x, i), LastVote(es, n, x, i).1, LastVote(es, n, x, i).0)
  }

  lemma AcceptorStep(s: A.State, p: Packet, i: int)
    ensures i != p.msg.instance ==> A.Get(A.Step(s, p).0, i) == A.Get(s, i)
    ensures p.msg.typ !in {PREPARE, ACCEPT} ==> A.Get(A.Step(s, p).0, i) == A.Get(s, i)
  {
  }

  lemma {:induction false} LastVoteBelow(es: seq<Event>, n: nat, x: Addr, i: int)
    requires n <= |es|
    ensures 0 <= LastVote(es, n, x, i).0 <= HighestAsked(es, n, x, i)
  {
    if n > 0 {
      LastVoteBelow(es, n - 1, x, i);
    }
  }

  /** A second vote at one ballot would be for the same value. */
  lemma SameVoteAgain(cfg: Config, w: World, x: Addr, s: Sent)
    requires Inv(cfg, w) && x in cfg.pos && s in w.net && s.packet.msg.typ == ACCEPT
    requires var e := A.Get(w.reps[x].a, s.packet.msg.instance);
             e.proposalAccepted == s.packet.msg.proposal > 0
    ensures A.Get(w.reps[x].a, s.packet.msg.instance).value == s.packet.msg.value
    ensures Sends(w.net, x, Msg(ACCEPT_OK, s.packet.msg.proposal, s.packet.msg.value, s.packet.msg.instance))
  {
    var i := s.packet.msg.instance;
    assert ReplicaOk(cfg, x, w.reps[x], w.net, w.proposed);
    assert AcceptorEntryOk(x, i, w.reps[x].a.proto[i], w.net);
    var e := w.reps[x].a.proto[i];
    var v := Sent(Packet(Msg(ACCEPT_OK, e.proposalAccepted, e.value, i), x), 0);
    var a := AcceptBehind(cfg, w, v);
    assert SameRound(a.packet.msg, s.packet.msg);
  }

  /** The record after a packet for its instance. */
  lemma EntryStep(s: A.State, p: Packet)
    ensures var e, e' := A.Get(s, p.msg.instance), A.Get(A.Step(s, p).0, p.msg.instance);
            && (p.msg.typ == PREPARE ==>
                  e' == if p.msg.proposal > e.proposal then e.(proposal := p.msg.proposal) else e)
            && (p.msg.typ == ACCEPT ==>
                  e' == if p.msg.proposal >= e.proposal && p.msg.proposal != e.proposalAccepted
                        then A.Entry(p.msg.proposal, p.msg.value, p.msg.proposal) else e)
  {
  }

  lemma StillRemembers(w: World, w': World, es: seq<Event>, n: nat, x: Addr, i: int)
    requires n < |es| && Remembers(w, es, n, x, i) && !Gets(es[n], x, PREPARE, i) && !Gets(es[n], x, ACCEPT, i)
    requires x in w'.reps && A.Get(w'.reps[x].a, i) == A.Get(w.reps[x].a, i)
    ensures Remembers(w', es, n + 1, x, i)
  {
  }

  lemma AskedRemembers(cfg: Config, w: World, es: seq<Event>, n: nat, x: Addr, i: int)
    requires Inv(cfg, w) && n < |es| && Enabled(w, es[n]) && x in cfg.pos && Remembers(w, es, n, x, i)
    requires Gets(es[n], x, PREPARE, i) || Gets(es[n], x, ACCEPT, i)
    ensures Remembers(Next(w, es[n]), es, n + 1, x, i)
  {
    var p := es[n].sent.packet;
    LastVoteBelow(es, n, x, i);
    R.StepRoles(w.reps[x], p);
    EntryStep(w.reps[x].a, p);
    if p.msg.typ == ACCEPT && p.msg.proposal == A.Get(w.reps[x].a, i).proposalAccepted > 0 {
      SameVoteAgain(cfg, w, x, es[n].sent);
    }
  }

  lemma RemembersStep(cfg: Config, w: World, es: seq<Event>, n: nat, x: Addr, i: int)
    requires Inv(cfg, w) && n < |es| && Enabled(w, es[n]) && x in cfg.pos && Remembers(w, es, n, x, i)
    ensures Remembers(Next(w, es[n]), es, n + 1, x, i)
  {
    var e := es[n];
    if Gets(e, x, PREPARE, i) || Gets(e, x, ACCEPT, i) {
      AskedRemembers(cfg, w, es, n, x, i);
    } else {
      if e.Deliver? && e.r == x {
        R.StepRoles(w.reps[x], e.sent.packet);
        AcceptorStep(w.reps[x].a, e.sent.packet, i);
      }
      StillRemembers(w, Next(w, e), es, n, x, i);
    }
  }

  lemma RemembersAt(cfg: Config, ws: seq<World>, es: seq<Event>, m: nat, x: Addr, i: int)
    requires WellFormed(cfg) && Run(cfg, ws, es) && m < |es| && x in cfg.pos && Remembers(ws[m], es, m, x, i)
    ensures Remembers(ws[m + 1], es, m + 1, x, i)
  {
    RunInv(cfg, ws, es, m);
    StepAt(cfg, ws, es, m);
    RemembersStep(cfg, ws[m], es, m, x, i);
  }

  /** In every run an acceptor's record is the highest ballot it has been asked for and its last vote. */
  lemma {:induction false} AcceptorRemembers(cfg: Config, ws: seq<World>, es: seq<Event>, n: nat, x: Addr, i: int)
    requires WellFormed(cfg) && Run(cfg, ws, es) && n <= |es| && x in cfg.pos
    ensures Remembers(ws[n], es, n, x, i)
  {
    if n > 0 {
      AcceptorRemembers(cfg, ws, es, n - 1, x, i);
      RemembersAt(cfg, ws, es, n - 1, x, i);
    }
  }

  lemma AcceptorSends(w: World, e: Event, m: Msg)
    requires Enabled(w, e) && e.Deliver? && A.Step(w.reps[e.r].a, e.sent.packet).1 == Some(m)
    ensures Label(e.r, e.sent.packet, m) in Next(w, e).net
  {
    var p := e.sent.packet;
    var o := R.Step(w.reps[e.r], p).1;
    R.StepOutput(w.reps[e.r], p);
    assert m in ToSeq(A.Step(w.reps[e.r].a, p).1);
    assert m in o.sent;
  }

  /** In every run a PREPARE above everything asked before is promised, with the last vote reported,
      and any other is rejected with the ballot that stands above it. */
  lemma PrepareAnswered(cfg: Config, ws: seq<World>, es: seq<Event>, n: nat, x: Addr, i: int)
    requires WellFormed(cfg) && Run(cfg, ws, es) && n < |es| && x in cfg.pos && Gets(es[n], x, PREPARE, i)
    ensures var h, v := HighestAsked(es, n, x, i), LastVote(es, n, x, i);
            if BallotOf(es[n]) > h then
              Sent(Packet(Msg(PREPARE_OK, v.0, v.1, i), x), BallotOf(es[n])) in ws[n + 1].net
            else Sends(ws[n + 1].net, x, Msg(PREPARE_REJECT, h, "", i))
  {
    AcceptorRemembers(cfg, ws, es, n, x, i);
    StepAt(cfg, ws, es, n);
    AcceptorSends(ws[n], es[n], A.Step(ws[n].reps[x].a, es[n].sent.packet).1.value);
  }

  /** In every run a proposal is voted for, unless the acceptor has heard of a higher ballot: then it
      is rejected. */
  lemma AcceptAnswered(cfg: Config, ws: seq<World>, es: seq<Event>, n: nat, x: Addr, i: int)
    requires WellFormed(cfg) && Run(cfg, ws, es) && n < |es| && x in cfg.pos && Gets(es[n], x, ACCEPT, i)
    ensures VotesAt(es, n, x, i) ==>
              Sends(ws[n + 1].net, x, Msg(ACCEPT_OK, BallotOf(es[n]), es[n].sent.packet.msg.value, i))
    ensures BallotOf(es[n]) < HighestAsked(es, n, x, i) ==> Sends(ws[n + 1].net, x, Msg(ACCEPT_REJECT, 0, "", 0))
  {
    AcceptorRemembers(cfg, ws, es, n, x, i);
    RunInv(cfg, ws, es, n);
    StepAt(cfg, ws, es, n);
    LastVoteBelow(es, n, x, i);
    AcceptReplies(cfg, ws[n], es[n]);
  }

  lemma AcceptReplies(cfg: Config, w: World, e: Event)
    requires Inv(cfg, w) && Enabled(w, e) && e.Deliver? && e.r in cfg.pos && e.sent.packet.msg.typ == ACCEPT
    ensures var m := e.sent.packet.msg; var a := A.Get(w.reps[e.r].a, m.instance);
            && (m.proposal >= a.proposal && m.proposal > 0 ==>
                  Sends(Next(w, e).net, e.r, Msg(ACCEPT_OK, m.proposal, m.value, m.instance)))
            && (m.proposal < a.proposal ==> Sends(Next(w, e).net, e.r, Msg(ACCEPT_REJECT, 0, "", 0)))
  {
    var m := e.sent.packet.msg;
    var o := A.Step(w.reps[e.r].a, e.sent.packet).1;
    if o.Some? {
      AcceptorSends(w, e, o.value);
    } else if m.proposal > 0 {
      SameVoteAgain(cfg, w, e.r, e.sent);
    }
  }

  // ---- rejections and ballots ----

  lemma RejectMeans(s: A.State, p: Packet)
    requires A.Step(s, p).1.Some? && A.Step(s, p).1.value.typ == PREPARE_REJECT
    ensures p.msg.typ == PREPARE && p.msg.instance == A.Step(s, p).1.value.instance
    ensures p.msg.proposal <= A.Step(s, p).1.value.proposal == A.Get(s, p.msg.instance).proposal
  {
  }

  lemma RejectSent(w: World, e: Event, s: Sent)
    requires Enabled(w, e) && s !in w.net && s in Next(w, e).net && s.packet.msg.typ == PREPARE_REJECT
    requires forall r, v :: r in w.reps && v in w.reps[r].unsentValues ==> w.reps[r].unsentValues[v].msg.typ == PROPOSE
    ensures Gets(e, s.packet.from, PREPARE, s.packet.msg.instance) && s.packet.from in w.reps
    ensures BallotOf(e) <= s.packet.msg.proposal == A.Get(w.reps[e.r].a, s.packet.msg.instance).proposal
  {
    if e.Deliver? {
      var p := e.sent.packet;
      R.StepOutput(w.reps[e.r], p);
      C.ReplyType(w.reps[e.r].c, p);
      L.ReplyType(w.reps[e.r].l, p);
      assert A.Step(w.reps[e.r].a, p).1 == Some(s.packet.msg);
      RejectMeans(w.reps[e.r].a, p);
    }
  }

  lemma UnsentPropose(cfg: Config, w: World)
    requires Inv(cfg, w)
    ensures forall r, v :: r in w.reps && v in w.reps[r].unsentValues ==> w.reps[r].unsentValues[v].msg.typ == PROPOSE
  {
    forall r, v | r in w.reps && v in w.reps[r].unsentValues
      ensures w.reps[r].unsentValues[v].msg.typ == PROPOSE
    {
      assert ReplicaOk(cfg, r, w.reps[r], w.net, w.proposed);
    }
  }

  lemma RejectSentAt(cfg: Config, ws: seq<World>, es: seq<Event>, m: nat, s: Sent)
    requires WellFormed(cfg) && Run(cfg, ws, es) && m < |es|
    requires s !in ws[m].net && s in ws[m + 1].net && s.packet.msg.typ == PREPARE_REJECT
    ensures var x, b := s.packet.from, s.packet.msg;
            && x in cfg.pos && x in ws[m].reps && Gets(es[m], x, PREPARE, b.instance)
            && BallotOf(es[m]) <= b.proposal == A.Get(ws[m].reps[x].a, b.instance).proposal
  {
    RunInv(cfg, ws, es, m);
    StepAt(cfg, ws, es, m);
    UnsentPropose(cfg, ws[m]);
    RejectSent(ws[m], es[m], s);
  }

  /** In every run a rejection names what the rejecting acceptor had been asked for when it sent it. */
  lemma {:induction false} RejectNamesPromise(cfg: Config, ws: seq<World>, es: seq<Event>, n: nat, s: Sent)
    returns (m: nat)
    requires WellFormed(cfg) && Run(cfg, ws, es) && n <= |es|
    requires s in ws[n].net && s.packet.msg.typ == PREPARE_REJECT
    ensures m < n && Gets(es[m], s.packet.from, PREPARE, s.packet.msg.instance)
    ensures BallotOf(es[m]) <= s.packet.msg.proposal ==
            HighestAsked(es, m, s.packet.from, s.packet.msg.instance)
    decreases n
  {
    if s in ws[n - 1].net {
      m := RejectNamesPromise(cfg, ws, es, n - 1, s);
    } else {
      m := n - 1;
      RejectSentAt(cfg, ws, es, m, s);
      AcceptorRemembers(cfg, ws, es, m, s.packet.from, s.packet.msg.instance);
    }
  }

  predicate Rejects(e: Event, r: Addr) {
    e.Deliver? && e.r == r && e.sent.packet.msg.typ == PREPARE_REJECT
  }

  predicate Opens(e: Event, r: Addr) {
    e.Deliver? && e.r == r && e.sent.packet.msg.typ == PROPOSE
  }

  /** How the ballots of a coordinator move: a rejection is noted, and taking a ballot skips to it. */
  ghost predicate BallotsMove(c: C.State, c': C.State, e: Event, r: Addr) {
    && c'.highproposal == (if Rejects(e, r) then BallotOf(e) else c.highproposal)
    && c'.nextproposal >= c.nextproposal
    && (Opens(e, r) ==> c'.nextproposal >= c.highproposal)
  }

  lemma CoordinatorBallots(c: C.State, e: Event, r: Addr)
    requires e.Deliver? && e.r == r
    ensures BallotsMove(c, C.Step(c, e.sent.packet).0, e, r)
  {
    C.SkipBelowKeepsResidue(c.nextproposal + c.nodes, c.nodes, c.highproposal);
  }

  lemma BallotStep(w: World, e: Event, r: Addr)
    requires Enabled(w, e) && r in w.reps
    ensures r in Next(w, e).reps && BallotsMove(w.reps[r].c, Next(w, e).reps[r].c, e, r)
  {
    if e.Deliver? && e.r == r {
      R.StepParts(w.reps[r], e.sent.packet);
      CoordinatorBallots(w.reps[r].c, e, r);
    }
  }

  lemma BallotAt(cfg: Config, ws: seq<World>, es: seq<Event>, m: nat, r: Addr)
    requires Run(cfg, ws, es) && m < |es| && r in ws[m].reps
    ensures r in ws[m + 1].reps && BallotsMove(ws[m].reps[r].c, ws[m + 1].reps[r].c, es[m], r)
  {
    StepAt(cfg, ws, es, m);
    BallotStep(ws[m], es[m], r);
  }

  lemma RunsAt(cfg: Config, ws: seq<World>, es: seq<Event>, m: nat, r: Addr)
    requires Run(cfg, ws, es) && m < |es| && es[m].Deliver? && es[m].r == r
    ensures r in ws[m].reps && r in ws[m + 1].reps && es[m].sent in ws[m].net
  {
    StepAt(cfg, ws, es, m);
  }

  lemma {:induction false} BallotsGrow(cfg: Config, ws: seq<World>, es: seq<Event>, k: nat, n: nat, r: Addr)
    requires Run(cfg, ws, es) && k <= n <= |es| && r in ws[k].reps
    ensures r in ws[n].reps && ws[n].reps[r].c.nextproposal >= ws[k].reps[r].c.nextproposal
    ensures (forall m :: k <= m < n ==> !Rejects(es[m], r)) ==>
              ws[n].reps[r].c.highproposal == ws[k].reps[r].c.highproposal
    decreases n
  {
    if k < n {
      BallotsGrow(cfg, ws, es, k, n - 1, r);
      BallotAt(cfg, ws, es, n - 1, r);
    }
  }

  lemma OpensWith(w: World, e: Event, r: Addr)
    requires Enabled(w, e) && Opens(e, r)
    ensures Sends(Next(w, e).net, r, Msg(PREPARE, w.reps[r].c.nextproposal, "", w.reps[r].c.instance + 1))
  {
    var m := Msg(PREPARE, w.reps[r].c.nextproposal, "", w.reps[r].c.instance + 1);
    R.StepOutput(w.reps[r], e.sent.packet);
    assert m in ToSeq(C.Step(w.reps[r].c, e.sent.packet).1);
    assert m in R.Step(w.reps[r], e.sent.packet).1.sent;
    assert Label(r, e.sent.packet, m) in Next(w, e).net;
  }

  lemma OpensAt(cfg: Config, ws: seq<World>, es: seq<Event>, n: nat, r: Addr)
    requires Run(cfg, ws, es) && n < |es| && Opens(es[n], r)
    ensures r in ws[n].reps
    ensures var c := ws[n].reps[r].c; Sends(ws[n + 1].net, r, Msg(PREPARE, c.nextproposal, "", c.instance + 1))
  {
    StepAt(cfg, ws, es, n);
    OpensWith(ws[n], es[n], r);
  }

  /** The ballot taken after a rejection skips what was rejected. */
  lemma SkipsRejected(cfg: Config, ws: seq<World>, es: seq<Event>, k: nat, m: nat, r: Addr)
    requires Run(cfg, ws, es) && k < m < |es| && Rejects(es[k], r) && Opens(es[m], r)
    requires forall j :: k < j < m ==> !Rejects(es[j], r)
    ensures r in ws[m + 1].reps && ws[m + 1].reps[r].c.nextproposal >= BallotOf(es[k])
  {
    RunsAt(cfg, ws, es, k, r);
    BallotAt(cfg, ws, es, k, r);
    BallotsGrow(cfg, ws, es, k + 1, m, r);
    BallotAt(cfg, ws, es, m, r);
  }

  /** In every run, once r has handled a rejection at k and, before any other, opened an instance at m,
      each instance it opens later gets a ballot no lower than what the rejecting acceptor x had been
      asked for. */
  lemma BallotsPassRejection(cfg: Config, ws: seq<World>, es: seq<Event>, k: nat, m: nat, n: nat, r: Addr)
    returns (b: int, at: nat)
    requires WellFormed(cfg) && Run(cfg, ws, es) && k < m < n < |es| && r in cfg.pos
    requires Rejects(es[k], r) && Opens(es[m], r) && Opens(es[n], r)
    requires forall j :: k < j < m ==> !Rejects(es[j], r)
    ensures r in ws[n].reps
    ensures Sends(ws[n + 1].net, r, Msg(PREPARE, b, "", ws[n].reps[r].c.instance + 1))
    ensures var x, i := es[k].sent.packet.from, es[k].sent.packet.msg.instance;
            at < k && Gets(es[at], x, PREPARE, i) && BallotOf(es[at]) <= HighestAsked(es, at, x, i) <= b
  {
    RunsAt(cfg, ws, es, k, r);
    at := RejectNamesPromise(cfg, ws, es, k, es[k].sent);
    SkipsRejected(cfg, ws, es, k, m, r);
    BallotsGrow(cfg, ws, es, m + 1, n, r);
    b := ws[n].reps[r].c.nextproposal;
    OpensAt(cfg, ws, es, n, r);
  }

  // ---- which ballot comes next ----

  /** The ballot named by the last rejection r has handled; 0 at first. */
  function LastRejection(es: seq<Event>, n: nat, r: Addr): int
    requires n <= |es|
  {
    if n == 0 then 0 else if Rejects(es[n - 1], r) then BallotOf(es[n - 1]) else LastRejection(es, n - 1, r)
  }

  lemma {:induction false} RejectionNoted(cfg: Config, ws: seq<World>, es: seq<Event>, n: nat, r: Addr)
    requires Run(cfg, ws, es) && n <= |es| && r in cfg.pos
    ensures r in ws[n].reps && ws[n].reps[r].c.highproposal == LastRejection(es, n, r)
    ensures ws[n].reps[r].c.nodes == |cfg.pos|
  {
    if n > 0 {
      RejectionNoted(cfg, ws, es, n - 1, r);
      BallotAt(cfg, ws, es, n - 1, r);
      NodesAt(cfg, ws, es, n - 1, r);
    }
  }

  lemma NodesStay(c: C.State, p: Packet)
    ensures C.Step(c, p).0.nodes == c.nodes
  {
  }

  lemma NodesAt(cfg: Config, ws: seq<World>, es: seq<Event>, m: nat, r: Addr)
    requires Run(cfg, ws, es) && m < |es| && r in ws[m].reps
    ensures r in ws[m + 1].reps && ws[m + 1].reps[r].c.nodes == ws[m].reps[r].c.nodes
  {
    StepAt(cfg, ws, es, m);
    if es[m].Deliver? && es[m].r == r {
      R.StepParts(ws[m].reps[r], es[m].sent.packet);
      NodesStay(ws[m].reps[r].c, es[m].sent.packet);
    }
  }

  /** b follows a: as few whole strides of n ahead as are needed to reach the bound, but at least one. */
  predicate Follows(a: int, b: int, n: C.Nodes, bound: int) {
    b % n == a % n && b >= a + n && b >= bound && (b == a + n || b - n < bound)
  }

  lemma TakesBallot(c: C.State, p: Packet)
    ensures C.Step(c, p).0.nextproposal == c.nextproposal || p.msg.typ == PROPOSE
    ensures p.msg.typ == PROPOSE ==>
              Follows(c.nextproposal, C.Step(c, p).0.nextproposal, c.nodes, c.highproposal)
  {
    C.SkipBelowKeepsResidue(c.nextproposal + c.nodes, c.nodes, c.highproposal);
    C.SkipBelowStopsFirst(c.nextproposal + c.nodes, c.nodes, c.highproposal);
    C.AddModulus(c.nextproposal, c.nodes);
  }

  lemma TakesBallotAt(w: World, e: Event, r: Addr)
    requires Enabled(w, e) && r in w.reps
    ensures r in Next(w, e).reps
    ensures var c, c' := w.reps[r].c, Next(w, e).reps[r].c;
            if Opens(e, r) then Follows(c.nextproposal, c'.nextproposal, c.nodes, c.highproposal)
            else c'.nextproposal == c.nextproposal
  {
    if e.Deliver? && e.r == r {
      R.StepParts(w.reps[r], e.sent.packet);
      TakesBallot(w.reps[r].c, e.sent.packet);
    }
  }

  /** In every run a replica opens an instance with its current ballot, and goes on to the first ballot of
      its own that is later and not below its last rejection; it keeps its ballot otherwise. */
  lemma BallotTaken(cfg: Config, ws: seq<World>, es: seq<Event>, n: nat, r: Addr)
    requires Run(cfg, ws, es) && n < |es| && r in cfg.pos
    ensures r in ws[n].reps && r in ws[n + 1].reps
    ensures var b, b' := ws[n].reps[r].c.nextproposal, ws[n + 1].reps[r].c.nextproposal;
            if Opens(es[n], r) then
              && Follows(b, b', |cfg.pos|, LastRejection(es, n, r))
              && Sends(ws[n + 1].net, r, Msg(PREPARE, b, "", ws[n].reps[r].c.instance + 1))
            else b' == b
  {
    RejectionNoted(cfg, ws, es, n, r);
    StepAt(cfg, ws, es, n);
    TakesBallotAt(ws[n], es[n], r);
    if Opens(es[n], r) {
      OpensAt(cfg, ws, es, n, r);
    }
  }
}
