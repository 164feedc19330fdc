/** What counting only current answers adds to the invariant, kept by every step of a disciplined run.
    A coordinator's answers come from acceptors that have promised its ballot and reported their last
    vote below it. So between the ballot of the vote it adopts and its own, none of them has voted or
    ever will: any value proposed at a higher ballot agrees with what a majority may have chosen at a
    lower one. */
module PaxosPromises {
  import opened PaxosMessages
  import opened PaxosSystem
  import opened PaxosInvariants
  import opened PaxosSteps
  import opened PaxosSafety
  import opened PaxosQuorums
  import C = PaxosCoordinator
  import A = PaxosAcceptor
  import R = PaxosReplica

  ghost predicate Majority(cfg: Config) {
    2 * cfg.quorum > |cfg.pos|
  }

  // ---- what counting only current answers adds to the invariant ----

  /** x answered this very ballot and had cast no vote above the highest pair seen. */
  ghost predicate Promised(net: set<Sent>, i: int, e: C.Entry, x: Addr) {
    exists s :: s in net && s.packet.from == x && s.packet.msg.typ == PREPARE_OK && s.packet.msg.instance == i &&
                s.answers == e.proposal && s.packet.msg.proposal <= e.aproposal
  }

  ghost predicate EntryPromised(net: set<Sent>, i: int, e: C.Entry) {
    e.nvalue == "" ==>
      && (forall x :: x in e.responses ==> Promised(net, i, e, x))
      && (e.aproposal > 0 ==>
            e.aproposal < e.proposal && SomeoneSends(net, Msg(ACCEPT, e.aproposal, e.avalue, i)))
  }

  ghost predicate CoordinatorsPromised(w: World) {
    forall r :: r in w.reps ==> forall i :: i in w.reps[r].c.proto ==> EntryPromised(w.net, i, w.reps[r].c.proto[i])
  }

  /** Replica x will not vote below b in instance i any more, and has not voted between low and b. */
  ghost predicate Bound(w: World, x: Addr, i: int, low: int, b: int) {
    && x in w.reps && i in w.reps[x].a.proto && w.reps[x].a.proto[i].proposal >= b
    && NoVoteBetween(w.net, x, i, low, b)
  }

  /** A quorum is bound up to ballot b, and v is the value of the last ballot it may have voted in. */
  ghost predicate Safe(cfg: Config, w: World, b: int, v: Value, i: int, quorum: set<Addr>, low: int) {
    && quorum <= cfg.pos.Keys && |quorum| >= cfg.quorum
    && 0 <= low < b
    && (forall x :: x in quorum ==> Bound(w, x, i, low, b))
    && (low > 0 ==> SomeoneSends(w.net, Msg(ACCEPT, low, v, i)))
  }

  ghost predicate AcceptSafe(cfg: Config, w: World, m: Msg) {
    exists quorum, low :: Safe(cfg, w, m.proposal, m.value, m.instance, quorum, low)
  }

  ghost predicate AcceptsSafe(cfg: Config, w: World) {
    forall s :: s in w.net && s.packet.msg.typ == ACCEPT ==> AcceptSafe(cfg, w, s.packet.msg)
  }

  ghost predicate AgreementInv(cfg: Config, w: World) {
    Inv(cfg, w) && Majority(cfg) && CoordinatorsPromised(w) && AcceptsSafe(cfg, w)
  }

  // ---- the invariant implies agreement ----

  /** Once v is chosen at ballot b, every proposal from b on carries v. */
  lemma {:induction false} ChosenBlocksOthers(cfg: Config, w: World, b: int, v: Value, m: Msg)
    requires AgreementInv(cfg, w) && SomeoneSends(w.net, m) && m.typ == ACCEPT && m.proposal >= b > 0
    requires Chosen(cfg, w.net, b, v, m.instance)
    ensures m.value == v
    decreases m.proposal - b
  {
    var i := m.instance;
    var r :| Sends(w.net, r, m);
    assert AcceptSafe(cfg, w, m);
    var quorum, low :| Safe(cfg, w, m.proposal, m.value, i, quorum, low);
    var voters := Voters(w.net, b, v, i);
    QuorumsMeet(cfg.pos.Keys, quorum, voters, cfg.quorum);
    var x :| x in quorum * voters;
    var vote :| vote in w.net && vote.packet.msg == Msg(ACCEPT_OK, b, v, i) && vote.packet.from == x;
    if m.proposal == b {
      var a := AcceptBehind(cfg, w, vote);
      assert SameRound(a.packet.msg, m);
    } else {
      assert Bound(w, x, i, low, m.proposal);
      assert low >= b;
      ChosenBlocksOthers(cfg, w, b, v, Msg(ACCEPT, low, m.value, i));
    }
  }

  lemma ChosenHasAccept(cfg: Config, w: World, b: int, v: Value, i: int)
    requires AgreementInv(cfg, w) && Chosen(cfg, w.net, b, v, i)
    ensures b > 0 && SomeoneSends(w.net, Msg(ACCEPT, b, v, i))
  {
    assert Voters(w.net, b, v, i) != {};
    var x :| x in Voters(w.net, b, v, i);
    var vote :| vote in w.net && vote.packet.msg == Msg(ACCEPT_OK, b, v, i) && vote.packet.from == x;
    assert SentOk(cfg, w, vote);
  }

  lemma OneChosenValue(cfg: Config, w: World, i: int, v: Value, v': Value)
    requires AgreementInv(cfg, w) && IsChosen(cfg, w.net, v, i) && IsChosen(cfg, w.net, v', i)
    ensures v == v'
  {
    var b :| Chosen(cfg, w.net, b, v, i);
    var b' :| Chosen(cfg, w.net, b', v', i);
    ChosenHasAccept(cfg, w, b, v, i);
    ChosenHasAccept(cfg, w, b', v', i);
    if b <= b' {
      ChosenBlocksOthers(cfg, w, b, v, Msg(ACCEPT, b', v', i));
    } else {
      ChosenBlocksOthers(cfg, w, b', v', Msg(ACCEPT, b, v, i));
    }
  }

  lemma OneCommittedValue(cfg: Config, w: World, r: Addr, r': Addr, i: int, v: Value, v': Value)
    requires AgreementInv(cfg, w) && Committed(w, r, i, v) && Committed(w, r', i, v')
    ensures v == v'
  {
    assert ReplicaOk(cfg, r, w.reps[r], w.net, w.proposed);
    assert ReplicaOk(cfg, r', w.reps[r'], w.net, w.proposed);
    assert LearnerEntryOk(cfg, i, w.reps[r].l.proto[i], w.net, w.proposed);
    assert LearnerEntryOk(cfg, i, w.reps[r'].l.proto[i], w.net, w.proposed);
    OneChosenValue(cfg, w, i, v, v');
  }

  // ---- the invariant is kept ----

  lemma InitAgreement(cfg: Config)
    requires WellFormed(cfg) && Majority(cfg)
    ensures AgreementInv(cfg, Init(cfg))
  {
    InitInv(cfg);
  }

  lemma PromisesGrow(w: World, e: Event, x: Addr, i: int)
    requires Enabled(w, e) && x in w.reps && i in w.reps[x].a.proto
    ensures i in Next(w, e).reps[x].a.proto
    ensures Next(w, e).reps[x].a.proto[i].proposal >= w.reps[x].a.proto[i].proposal
  {
    if e.Deliver? && e.r == x {
      R.StepRoles(w.reps[x], e.sent.packet);
    }
  }

  /** An acceptor never votes below its promise, so a bound replica stays bound. */
  lemma BoundKept(cfg: Config, w: World, e: Event, x: Addr, i: int, low: int, b: int)
    requires Inv(cfg, w) && Enabled(w, e) && Bound(w, x, i, low, b)
    ensures Bound(Next(w, e), x, i, low, b)
  {
    PromisesGrow(w, e, x, i);
    forall s | s in Next(w, e).net && s.packet.from == x && s.packet.msg.typ == ACCEPT_OK && s.packet.msg.instance == i
      ensures s.packet.msg.proposal <= low || s.packet.msg.proposal >= b
    {
      if s !in w.net {
        NewVote(cfg, w, e, s);
      }
    }
  }

  lemma NewVote(cfg: Config, w: World, e: Event, s: Sent)
    requires Inv(cfg, w) && Enabled(w, e) && s in Next(w, e).net - w.net && s.packet.msg.typ == ACCEPT_OK
    ensures e.Deliver? && s.packet.from == e.r && s.packet.msg.instance == e.sent.packet.msg.instance
    ensures s.packet.msg.proposal >= A.Get(w.reps[e.r].a, s.packet.msg.instance).proposal
  {
    assert e.Deliver?;
    NewVoteFromAcceptor(cfg, w, e, s);
    A.VoteAbovePromise(w.reps[e.r].a, e.sent.packet);
  }

  lemma SomeoneStillSends(net: set<Sent>, net': set<Sent>, m: Msg)
    requires net <= net' && SomeoneSends(net, m)
    ensures SomeoneSends(net', m)
  {
    var r :| Sends(net, r, m);
    assert Sends(net', r, m);
  }

  lemma SafeKept(cfg: Config, w: World, e: Event, m: Msg)
    requires Inv(cfg, w) && Enabled(w, e) && AcceptSafe(cfg, w, m)
    ensures AcceptSafe(cfg, Next(w, e), m)
  {
    var w' := Next(w, e);
    var quorum, low :| Safe(cfg, w, m.proposal, m.value, m.instance, quorum, low);
    forall x | x in quorum
      ensures Bound(w', x, m.instance, low, m.proposal)
    {
      BoundKept(cfg, w, e, x, m.instance, low, m.proposal);
    }
    if low > 0 {
      SomeoneStillSends(w.net, w'.net, Msg(ACCEPT, low, m.value, m.instance));
    }
    assert Safe(cfg, w', m.proposal, m.value, m.instance, quorum, low);
  }

  lemma PromisedGrows(net: set<Sent>, net': set<Sent>, i: int, e: C.Entry)
    requires net <= net' && EntryPromised(net, i, e)
    ensures EntryPromised(net', i, e)
  {
    if e.nvalue == "" {
      forall x | x in e.responses
        ensures Promised(net', i, e, x)
      {
        var s :| s in net && s.packet.from == x && s.packet.msg.typ == PREPARE_OK && s.packet.msg.instance == i &&
                 s.answers == e.proposal && s.packet.msg.proposal <= e.aproposal;
        assert s in net';
      }
      if e.aproposal > 0 {
        SomeoneStillSends(net, net', Msg(ACCEPT, e.aproposal, e.avalue, i));
      }
    }
  }

  /** A promise reports a vote, and a vote follows an ACCEPT. */
  lemma ReportedVote(cfg: Config, w: World, s: Sent)
    requires Inv(cfg, w) && s in w.net && s.packet.msg.typ == PREPARE_OK && s.packet.msg.proposal > 0
    ensures s.packet.msg.proposal < s.answers
    ensures SomeoneSends(w.net, Msg(ACCEPT, s.packet.msg.proposal, s.packet.msg.value, s.packet.msg.instance))
  {
    var m := s.packet.msg;
    assert SentOk(cfg, w, s);
    var vote := Sent(Packet(Msg(ACCEPT_OK, m.proposal, m.value, m.instance), s.packet.from), 0);
    assert SentOk(cfg, w, vote);
  }

  lemma CountedPromise(net: set<Sent>, i: int, before: C.Entry, s: Sent)
    requires EntryPromised(net, i, before) && before.nvalue == "" && s in net && s.answers == before.proposal
    requires s.packet.msg.typ == PREPARE_OK && s.packet.msg.instance == i
    requires s.packet.msg.proposal > 0 ==> SomeoneSends(net, Msg(ACCEPT, s.packet.msg.proposal, s.packet.msg.value, i))
    requires s.packet.msg.proposal > 0 ==> s.packet.msg.proposal < before.proposal
    ensures EntryPromised(net, i, C.Count(before, s.packet))
  {
    var after := C.Count(before, s.packet);
    forall x | x in after.responses
      ensures Promised(net, i, after, x)
    {
      if x == s.packet.from {
        assert s in net && s.answers == after.proposal;
      }
    }
  }

  /** Counting a current answer keeps the account of promises exact. */
  lemma CountKeepsPromises(cfg: Config, w: World, e: Event)
    requires AgreementInv(cfg, w) && e.Deliver? && Enabled(w, e) && AnswersCurrentBallot(w, e)
    requires C.Counts(w.reps[e.r].c, e.sent.packet)
    ensures var i := e.sent.packet.msg.instance;
            EntryPromised(w.net, i, C.Count(w.reps[e.r].c.proto[i], e.sent.packet))
  {
    var i := e.sent.packet.msg.instance;
    var before := w.reps[e.r].c.proto[i];
    assert EntryPromised(w.net, i, before);
    if e.sent.packet.msg.proposal > 0 {
      ReportedVote(cfg, w, e.sent);
    }
    CountedPromise(w.net, i, before, e.sent);
  }

  lemma PromiseBinds(cfg: Config, w: World, i: int, n: C.Entry, x: Addr)
    requires Inv(cfg, w) && Promised(w.net, i, n, x)
    ensures Bound(w, x, i, n.aproposal, n.proposal)
  {
    var s :| s in w.net && s.packet.from == x && s.packet.msg.typ == PREPARE_OK && s.packet.msg.instance == i &&
             s.answers == n.proposal && s.packet.msg.proposal <= n.aproposal;
    assert SentOk(cfg, w, s);
  }

  /** A quorum of current answers makes the chosen value safe to propose. */
  lemma NewAcceptSafe(cfg: Config, w: World, e: Event)
    requires AgreementInv(cfg, w) && e.Deliver? && Enabled(w, e) && AnswersCurrentBallot(w, e)
    requires C.Counts(w.reps[e.r].c, e.sent.packet)
    requires var i := e.sent.packet.msg.instance;
             |C.Count(w.reps[e.r].c.proto[i], e.sent.packet).responses| >= cfg.quorum
    ensures var i := e.sent.packet.msg.instance;
            var n := C.Count(w.reps[e.r].c.proto[i], e.sent.packet);
            AcceptSafe(cfg, w, Msg(ACCEPT, n.proposal, C.Choice(n), i))
  {
    var p, i := e.sent.packet, e.sent.packet.msg.instance;
    var n := C.Count(w.reps[e.r].c.proto[i], p);
    CountKeepsPromises(cfg, w, e);
    assert SentOk(cfg, w, e.sent);
    assert ReplicaOk(cfg, e.r, w.reps[e.r], w.net, w.proposed);
    assert EntryOk(cfg, e.r, i, w.reps[e.r].c.proto[i], w.reps[e.r].c.nextproposal, w.net, w.proposed);
    forall x | x in n.responses
      ensures Bound(w, x, i, n.aproposal, n.proposal)
    {
      PromiseBinds(cfg, w, i, n, x);
    }
    assert Safe(cfg, w, n.proposal, C.Choice(n), i, n.responses, n.aproposal);
  }

  /** A record that differs after a step is new, is done, or has just counted an answer. */
  lemma ChangedEntry(w: World, e: Event, r: Addr, i: int)
    requires Enabled(w, e) && r in w.reps && i in Next(w, e).reps[r].c.proto
    ensures var after := Next(w, e).reps[r].c.proto[i];
            || (i in w.reps[r].c.proto && after == w.reps[r].c.proto[i])
            || (after.responses == {} && after.aproposal == 0)
            || after.nvalue != ""
            || (e.Deliver? && e.r == r && C.Counts(w.reps[r].c, e.sent.packet) && i == e.sent.packet.msg.instance &&
                after == C.Count(w.reps[r].c.proto[i], e.sent.packet))
  {
    if e.Deliver? && e.r == r {
      R.StepRoles(w.reps[r], e.sent.packet);
      C.ChangedEntry(w.reps[r].c, e.sent.packet, i);
    }
  }

  lemma CoordinatorsStayPromised(cfg: Config, w: World, e: Event)
    requires AgreementInv(cfg, w) && Enabled(w, e) && AnswersCurrentBallot(w, e)
    ensures CoordinatorsPromised(Next(w, e))
  {
    var w' := Next(w, e);
    forall r, i | r in w'.reps && i in w'.reps[r].c.proto
      ensures EntryPromised(w'.net, i, w'.reps[r].c.proto[i])
    {
      var after := w'.reps[r].c.proto[i];
      ChangedEntry(w, e, r, i);
      if i in w.reps[r].c.proto && after == w.reps[r].c.proto[i] {
        PromisedGrows(w.net, w'.net, i, after);
      } else if after.nvalue == "" && after.responses != {} {
        CountKeepsPromises(cfg, w, e);
        PromisedGrows(w.net, w'.net, i, after);
      }
    }
  }

  /** A new ACCEPT follows from counting the last answer of a quorum. */
  lemma NewAcceptCounted(cfg: Config, w: World, e: Event, s: Sent)
    requires AgreementInv(cfg, w) && Enabled(w, e)
    requires s in Next(w, e).net - w.net && s.packet.msg.typ == ACCEPT
    ensures e.Deliver? && C.Counts(w.reps[e.r].c, e.sent.packet)
    ensures var i := e.sent.packet.msg.instance;
            var n := C.Count(w.reps[e.r].c.proto[i], e.sent.packet);
            |n.responses| >= cfg.quorum && s.packet.msg == Msg(ACCEPT, n.proposal, C.Choice(n), i)
  {
    assert e.Deliver?;
    NewRoundFromCoordinator(cfg, w, e, s);
    assert ReplicaOk(cfg, e.r, w.reps[e.r], w.net, w.proposed);
  }

  lemma AcceptsStaySafe(cfg: Config, w: World, e: Event)
    requires AgreementInv(cfg, w) && Enabled(w, e) && AnswersCurrentBallot(w, e)
    ensures AcceptsSafe(cfg, Next(w, e))
  {
    forall s | s in Next(w, e).net && s.packet.msg.typ == ACCEPT
      ensures AcceptSafe(cfg, Next(w, e), s.packet.msg)
    {
      if s !in w.net {
        NewAcceptCounted(cfg, w, e, s);
        NewAcceptSafe(cfg, w, e);
      }
      SafeKept(cfg, w, e, s.packet.msg);
    }
  }
}
