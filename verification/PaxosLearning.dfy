/** When a replica learns, said over the packets delivered to it: exactly on the first quorum of votes
    for the highest ballot it has heard of, or when somebody tells it. */
module PaxosLearning {
  import opened PaxosMessages
  import opened PaxosSystem
  import opened PaxosInvariants
  import opened PaxosSafety
  import opened PaxosRoles
  import L = PaxosLearner
  import R = PaxosReplica

  /** The highest ballot of a vote in the instance that r has received; 0 at first. */
  function HighestVote(es: seq<Event>, n: nat, r: Addr, i: int): int
    requires n <= |es|
  {
    if n == 0 then 0
    else
      var h := HighestVote(es, n - 1, r, i);
      if Gets(es[n - 1], r, ACCEPT_OK, i) && BallotOf(es[n - 1]) > h then BallotOf(es[n - 1]) else h
  }

  /** Whose votes at that ballot r has received. */
  function VotersHeard(es: seq<Event>, n: nat, r: Addr, i: int, b: int): set<Addr>
    requires n <= |es|
  {
    set m | 0 <= m < n && Gets(es[m], r, ACCEPT_OK, i) && BallotOf(es[m]) == b :: es[m].sent.packet.from
  }

  predicate QuorumHeard(cfg: Config, es: seq<Event>, n: nat, r: Addr, i: int)
    requires n <= |es|
  {
    |VotersHeard(es, n, r, i, HighestVote(es, n, r, i))| >= cfg.quorum
  }

  /** This event is enough for r to learn the instance. */
  predicate Teaches(cfg: Config, es: seq<Event>, m: nat, r: Addr, i: int)
    requires m < |es|
  {
    Gets(es[m], r, COMMIT, i) || (Gets(es[m], r, ACCEPT_OK, i) && QuorumHeard(cfg, es, m + 1, r, i))
  }

  ghost predicate Taught(cfg: Config, es: seq<Event>, n: nat, r: Addr, i: int)
    requires n <= |es|
  {
    exists m :: 0 <= m < n && Teaches(cfg, es, m, r, i)
  }

  /** The votes counted, and that all of them are for one value. */
  ghost predicate CountOk(e: L.Entry, es: seq<Event>, n: nat, r: Addr, i: int)
    requires n <= |es|
  {
    && e.proposal == HighestVote(es, n, r, i) >= 0
    && e.responses == VotersHeard(es, n, r, i, e.proposal)
    && (e.responses == {} ==> forall v :: L.Votes(e, v) == 0)
    && forall m :: 0 <= m < n && Gets(es[m], r, ACCEPT_OK, i) && BallotOf(es[m]) == e.proposal ==>
                     L.Votes(e, es[m].sent.packet.msg.value) == |e.responses|
  }

  ghost predicate EntryLearns(cfg: Config, e: L.Entry, es: seq<Event>, n: nat, r: Addr, i: int)
    requires n <= |es|
  {
    && (e.commit <==> Taught(cfg, es, n, r, i))
    && (!e.commit ==> CountOk(e, es, n, r, i) && |e.responses| < cfg.quorum)
  }

  ghost predicate LearningOk(cfg: Config, w: World, es: seq<Event>, n: nat, r: Addr, i: int)
    requires n <= |es|
  {
    && r in w.reps && w.reps[r].l.quorum == cfg.quorum
    && EntryLearns(cfg, L.Get(w.reps[r].l, i), es, n, r, i)
  }

  /** Every vote delivered so far is on the network. */
  ghost predicate Delivered(w: World, es: seq<Event>, n: nat)
    requires n <= |es|
  {
    forall m :: 0 <= m < n && es[m].Deliver? ==> es[m].sent in w.net
  }

  lemma TaughtStep(cfg: Config, es: seq<Event>, n: nat, r: Addr, i: int)
    requires n < |es|
    ensures Taught(cfg, es, n + 1, r, i) <==> Taught(cfg, es, n, r, i) || Teaches(cfg, es, n, r, i)
  {
    if Taught(cfg, es, n + 1, r, i) {
      var m :| 0 <= m < n + 1 && Teaches(cfg, es, m, r, i);
      assert m < n ==> Taught(cfg, es, n, r, i);
    }
  }

  lemma VotersStep(es: seq<Event>, n: nat, r: Addr, i: int, b: int)
    requires n < |es|
    ensures VotersHeard(es, n + 1, r, i, b) ==
            if Gets(es[n], r, ACCEPT_OK, i) && BallotOf(es[n]) == b
            then VotersHeard(es, n, r, i, b) + {es[n].sent.packet.from} else VotersHeard(es, n, r, i, b)
  {
  }

  lemma {:induction false} NoVoteAbove(es: seq<Event>, n: nat, r: Addr, i: int, b: int)
    requires n <= |es| && b > HighestVote(es, n, r, i)
    ensures VotersHeard(es, n, r, i, b) == {}
    ensures forall m :: 0 <= m < n && Gets(es[m], r, ACCEPT_OK, i) ==> BallotOf(es[m]) != b
  {
    if n > 0 {
      NoVoteAbove(es, n - 1, r, i, b);
      VotersStep(es, n - 1, r, i, b);
    }
  }

  /** Votes of one ballot in one instance are for one value. */
  lemma OneValue(cfg: Config, w: World, s: Sent, t: Sent)
    requires Inv(cfg, w) && s in w.net && t in w.net
    requires s.packet.msg.typ == t.packet.msg.typ == ACCEPT_OK
    requires s.packet.msg.proposal == t.packet.msg.proposal && s.packet.msg.instance == t.packet.msg.instance
    ensures s.packet.msg.value == t.packet.msg.value
  {
    var a := AcceptBehind(cfg, w, s);
    var b := AcceptBehind(cfg, w, t);
    assert SameRound(a.packet.msg, b.packet.msg);
  }

  lemma VoteIsPositive(cfg: Config, w: World, s: Sent)
    requires Inv(cfg, w) && s in w.net && s.packet.msg.typ == ACCEPT_OK
    ensures s.packet.msg.proposal > 0
  {
    assert SentOk(cfg, w, s);
  }

  /** A vote below the highest ballot, or from a voter counted before, changes nothing. */
  lemma OldVote(e: L.Entry, es: seq<Event>, n: nat, r: Addr, i: int)
    requires n < |es| && CountOk(e, es, n, r, i) && Gets(es[n], r, ACCEPT_OK, i)
    requires BallotOf(es[n]) < e.proposal || (BallotOf(es[n]) == e.proposal && es[n].sent.packet.from in e.responses)
    requires BallotOf(es[n]) == e.proposal ==> L.Votes(e, es[n].sent.packet.msg.value) == |e.responses|
    ensures CountOk(e, es, n + 1, r, i)
  {
    VotersStep(es, n, r, i, e.proposal);
  }

  /** A further vote at the highest ballot. */
  lemma FurtherVote(e: L.Entry, es: seq<Event>, n: nat, r: Addr, i: int)
    requires n < |es| && CountOk(e, es, n, r, i) && Gets(es[n], r, ACCEPT_OK, i) && BallotOf(es[n]) == e.proposal
    requires es[n].sent.packet.from !in e.responses
    requires forall m :: 0 <= m < n && Gets(es[m], r, ACCEPT_OK, i) && BallotOf(es[m]) == e.proposal ==>
                           es[m].sent.packet.msg.value == es[n].sent.packet.msg.value
    requires L.Votes(e, es[n].sent.packet.msg.value) == |e.responses|
    ensures var e' := L.CountVote(e, es[n].sent.packet.from, es[n].sent.packet.msg.value);
            CountOk(e', es, n + 1, r, i) && L.Votes(e', es[n].sent.packet.msg.value) == |e'.responses|
  {
    VotersStep(es, n, r, i, e.proposal);
  }

  /** The first vote at a higher ballot. */
  lemma HigherVote(e: L.Entry, es: seq<Event>, n: nat, r: Addr, i: int)
    requires n < |es| && CountOk(e, es, n, r, i) && Gets(es[n], r, ACCEPT_OK, i) && BallotOf(es[n]) > e.proposal
    ensures var e1 := L.Raise(e, BallotOf(es[n]));
            var e' := L.CountVote(e1, es[n].sent.packet.from, es[n].sent.packet.msg.value);
            && e1.responses == {} && CountOk(e', es, n + 1, r, i)
            && L.Votes(e', es[n].sent.packet.msg.value) == |e'.responses| == 1
  {
    NoVoteAbove(es, n, r, i, BallotOf(es[n]));
    VotersStep(es, n, r, i, BallotOf(es[n]));
  }

  /** All votes at this event's ballot so far agree with it. */
  ghost predicate Agrees(es: seq<Event>, n: nat, r: Addr, i: int)
    requires n < |es| && es[n].Deliver?
  {
    forall m :: 0 <= m < n && Gets(es[m], r, ACCEPT_OK, i) && BallotOf(es[m]) == BallotOf(es[n]) ==>
                  es[m].sent.packet.msg.value == es[n].sent.packet.msg.value
  }

  lemma VotesSoFar(e: L.Entry, es: seq<Event>, n: nat, r: Addr, i: int)
    requires n < |es| && CountOk(e, es, n, r, i) && Gets(es[n], r, ACCEPT_OK, i) && Agrees(es, n, r, i)
    requires BallotOf(es[n]) == e.proposal
    ensures L.Votes(e, es[n].sent.packet.msg.value) == |e.responses|
  {
    if e.responses != {} {
      var x :| x in e.responses;
      var m :| 0 <= m < n && Gets(es[m], r, ACCEPT_OK, i) && BallotOf(es[m]) == e.proposal &&
        es[m].sent.packet.from == x;
      assert es[m].sent.packet.msg.value == es[n].sent.packet.msg.value;
    }
  }

  lemma HigherCounts(e: L.Entry, es: seq<Event>, n: nat, r: Addr, i: int, quorum: int)
    requires n < |es| && CountOk(e, es, n, r, i) && |e.responses| < quorum && !e.commit
    requires Gets(es[n], r, ACCEPT_OK, i) && BallotOf(es[n]) > e.proposal
    ensures VoteDone(e, es, n, r, i, quorum)
  {
    HigherVote(e, es, n, r, i);
  }

  lemma OldCounts(e: L.Entry, es: seq<Event>, n: nat, r: Addr, i: int, quorum: int)
    requires n < |es| && CountOk(e, es, n, r, i) && |e.responses| < quorum && !e.commit
    requires Gets(es[n], r, ACCEPT_OK, i) && Agrees(es, n, r, i)
    requires BallotOf(es[n]) < e.proposal || (BallotOf(es[n]) == e.proposal && es[n].sent.packet.from in e.responses)
    ensures VoteDone(e, es, n, r, i, quorum)
  {
    if BallotOf(es[n]) == e.proposal {
      VotesSoFar(e, es, n, r, i);
    }
    OldVote(e, es, n, r, i);
  }

  lemma FurtherCounts(e: L.Entry, es: seq<Event>, n: nat, r: Addr, i: int, quorum: int)
    requires n < |es| && CountOk(e, es, n, r, i) && |e.responses| < quorum && !e.commit
    requires Gets(es[n], r, ACCEPT_OK, i) && Agrees(es, n, r, i)
    requires BallotOf(es[n]) == e.proposal && es[n].sent.packet.from !in e.responses
    ensures VoteDone(e, es, n, r, i, quorum)
  {
    VotesSoFar(e, es, n, r, i);
    FurtherVote(e, es, n, r, i);
  }

  /** The vote commits exactly if it completes a quorum, and is counted otherwise. */
  ghost predicate VoteDone(e: L.Entry, es: seq<Event>, n: nat, r: Addr, i: int, quorum: int)
    requires n < |es| && es[n].Deliver?
  {
    var (e', done) := L.AfterVote(e, es[n].sent.packet, quorum);
    && e'.commit == done
    && (done <==> |VotersHeard(es, n + 1, r, i, HighestVote(es, n + 1, r, i))| >= quorum)
    && (!done ==> CountOk(e', es, n + 1, r, i) && |e'.responses| < quorum)
  }

  lemma VoteCounts(e: L.Entry, es: seq<Event>, n: nat, r: Addr, i: int, quorum: int)
    requires n < |es| && CountOk(e, es, n, r, i) && |e.responses| < quorum && !e.commit
    requires Gets(es[n], r, ACCEPT_OK, i) && Agrees(es, n, r, i)
    ensures VoteDone(e, es, n, r, i, quorum)
  {
    if BallotOf(es[n]) > e.proposal {
      HigherCounts(e, es, n, r, i, quorum);
    } else if BallotOf(es[n]) == e.proposal && es[n].sent.packet.from !in e.responses {
      FurtherCounts(e, es, n, r, i, quorum);
    } else {
      OldCounts(e, es, n, r, i, quorum);
    }
  }

  /** How the record of the instance moves. */
  ghost predicate RecordMoves(e: L.Entry, e': L.Entry, ev: Event, r: Addr, i: int, quorum: int) {
    if !e.commit && Gets(ev, r, ACCEPT_OK, i) then e' == L.AfterVote(e, ev.sent.packet, quorum).0
    else if !e.commit && Gets(ev, r, COMMIT, i) then e'.commit
    else e' == e
  }

  lemma RecordAfter(s: L.State, ev: Event, r: Addr, i: int)
    requires ev.Deliver? && ev.r == r
    ensures L.Step(s, ev.sent.packet).0.quorum == s.quorum
    ensures RecordMoves(L.Get(s, i), L.Get(L.Step(s, ev.sent.packet).0, i), ev, r, i, s.quorum)
  {
  }

  lemma RecordNext(w: World, ev: Event, r: Addr, i: int)
    requires Enabled(w, ev) && r in w.reps
    ensures r in Next(w, ev).reps && Next(w, ev).reps[r].l.quorum == w.reps[r].l.quorum
    ensures RecordMoves(L.Get(w.reps[r].l, i), L.Get(Next(w, ev).reps[r].l, i), ev, r, i, w.reps[r].l.quorum)
  {
    if ev.Deliver? && ev.r == r {
      R.StepRoles(w.reps[r], ev.sent.packet);
      RecordAfter(w.reps[r].l, ev, r, i);
    }
  }

  lemma NothingHeard(e: L.Entry, es: seq<Event>, n: nat, r: Addr, i: int)
    requires n < |es| && CountOk(e, es, n, r, i) && !Gets(es[n], r, ACCEPT_OK, i)
    ensures CountOk(e, es, n + 1, r, i)
  {
    VotersStep(es, n, r, i, e.proposal);
  }

  lemma EarlierAgree(cfg: Config, w: World, es: seq<Event>, n: nat, r: Addr, i: int)
    requires Inv(cfg, w) && n < |es| && Enabled(w, es[n]) && Delivered(w, es, n) && Gets(es[n], r, ACCEPT_OK, i)
    ensures Agrees(es, n, r, i)
  {
    forall m | 0 <= m < n && Gets(es[m], r, ACCEPT_OK, i) && BallotOf(es[m]) == BallotOf(es[n])
      ensures es[m].sent.packet.msg.value == es[n].sent.packet.msg.value
    {
      OneValue(cfg, w, es[m].sent, es[n].sent);
    }
  }

  lemma EntryLearnsStep(cfg: Config, e: L.Entry, e': L.Entry, es: seq<Event>, n: nat, r: Addr, i: int)
    requires n < |es| && EntryLearns(cfg, e, es, n, r, i) && RecordMoves(e, e', es[n], r, i, cfg.quorum)
    requires !e.commit && Gets(es[n], r, ACCEPT_OK, i) ==> Agrees(es, n, r, i)
    ensures EntryLearns(cfg, e', es, n + 1, r, i)
  {
    TaughtStep(cfg, es, n, r, i);
    if !e.commit {
      if Gets(es[n], r, ACCEPT_OK, i) {
        VoteCounts(e, es, n, r, i, cfg.quorum);
      } else {
        NothingHeard(e, es, n, r, i);
      }
    }
  }

  lemma LearningStep(cfg: Config, w: World, es: seq<Event>, n: nat, r: Addr, i: int)
    requires Inv(cfg, w) && n < |es| && Enabled(w, es[n]) && Delivered(w, es, n)
    requires LearningOk(cfg, w, es, n, r, i)
    ensures LearningOk(cfg, Next(w, es[n]), es, n + 1, r, i)
  {
    var e := L.Get(w.reps[r].l, i);
    RecordNext(w, es[n], r, i);
    if !e.commit && Gets(es[n], r, ACCEPT_OK, i) {
      EarlierAgree(cfg, w, es, n, r, i);
    }
    EntryLearnsStep(cfg, e, L.Get(Next(w, es[n]).reps[r].l, i), es, n, r, i);
  }

  lemma DeliveredStep(w: World, es: seq<Event>, n: nat)
    requires n < |es| && Enabled(w, es[n]) && Delivered(w, es, n)
    ensures Delivered(Next(w, es[n]), es, n + 1)
  {
  }

  lemma LearningAt(cfg: Config, ws: seq<World>, es: seq<Event>, m: nat, r: Addr, i: int)
    requires WellFormed(cfg) && Run(cfg, ws, es) && m < |es|
    requires Delivered(ws[m], es, m) && LearningOk(cfg, ws[m], es, m, r, i)
    ensures Delivered(ws[m + 1], es, m + 1) && LearningOk(cfg, ws[m + 1], es, m + 1, r, i)
  {
    RunInv(cfg, ws, es, m);
    StepAt(cfg, ws, es, m);
    DeliveredStep(ws[m], es, m);
    LearningStep(cfg, ws[m], es, m, r, i);
  }

  lemma {:induction false} RunLearning(cfg: Config, ws: seq<World>, es: seq<Event>, n: nat, r: Addr, i: int)
    requires WellFormed(cfg) && Run(cfg, ws, es) && n <= |es| && r in cfg.pos && cfg.quorum > 0
    ensures Delivered(ws[n], es, n) && LearningOk(cfg, ws[n], es, n, r, i)
  {
    if n > 0 {
      RunLearning(cfg, ws, es, n - 1, r, i);
      LearningAt(cfg, ws, es, n - 1, r, i);
    }
  }

  /** In every run a replica has committed an instance exactly if it has been sent a COMMIT for it, or
      has at some point heard votes of a quorum of different replicas for the highest ballot it had
      heard of. */
  lemma LearnsIff(cfg: Config, ws: seq<World>, es: seq<Event>, n: nat, r: Addr, i: int)
    requires WellFormed(cfg) && Run(cfg, ws, es) && n <= |es| && r in cfg.pos && cfg.quorum > 0
    ensures (exists v :: Committed(ws[n], r, i, v)) <==> Taught(cfg, es, n, r, i)
  {
    RunLearning(cfg, ws, es, n, r, i);
    var l := ws[n].reps[r].l;
    if L.Get(l, i).commit {
      assert Committed(ws[n], r, i, l.proto[i].value);
    }
  }
}
