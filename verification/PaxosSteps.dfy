/** Every step of the replicas keeps the invariant. A command that is proposed adds one packet with a
    value never used before. A packet that is delivered passes through coordinator, learner and
    acceptor, and whatever they send satisfies what the invariant says about packets of its kind;
    a new ballot or vote is the only new fact that the packets already sent have to agree with. */
module PaxosSteps {
  import opened Options
  import opened PaxosMessages
  import opened PaxosSystem
  import opened PaxosInvariants
  import C = PaxosCoordinator
  import L = PaxosLearner
  import A = PaxosAcceptor
  import R = PaxosReplica

  lemma InitInv(cfg: Config)
    requires WellFormed(cfg)
    ensures Inv(cfg, Init(cfg))
  {
  }

  lemma SentGrows(cfg: Config, w: World, w': World, s: Sent)
    requires SentOk(cfg, w, s)
    requires w.net <= w'.net && w.proposed <= w'.proposed
    requires VotersAreReplicas(cfg, w'.net)
    requires s.packet.from in w'.reps
    requires CoordinatorSentOk(cfg, w'.reps[s.packet.from].c, w'.net, w'.proposed, s)
    requires AcceptorSentOk(w'.reps[s.packet.from].a, w'.net, w'.proposed, s)
    ensures SentOk(cfg, w', s)
  {
    var m := s.packet.msg;
    if m.typ == COMMIT {
      IsChosenGrows(cfg, w.net, w'.net, m.value, m.instance);
    }
  }

  lemma ProposeInv(cfg: Config, w: World, e: Event)
    requires Inv(cfg, w) && e.Propose? && Enabled(w, e)
    ensures Inv(cfg, Next(w, e))
  {
    var (s, q) := R.Propose(w.reps[e.r], e.command);
    var w' := WithProposal(w, e.r, s.proposeCounter, q.msg.value);
    assert w' == Next(w, e);
    ProposalReplicas(cfg, w, e.r, s.proposeCounter, q.msg.value);
    ProposalNetwork(cfg, w, e.r, s.proposeCounter, q.msg.value);
    NoNewRounds(w.net, w'.net);
  }

  function WithProposal(w: World, r: Addr, count: nat, v: Value): World
    requires r in w.reps
  {
    w.(reps := w.reps[r := w.reps[r].(proposeCounter := count)],
       net := w.net + {Sent(Packet(Msg(PROPOSE, 0, v, 0), r), 0)},
       proposed := w.proposed + {v})
  }

  lemma SendersKnown(cfg: Config, w: World)
    requires NetworkOk(cfg, w)
    ensures VotersAreReplicas(cfg, w.net)
  {
    forall s | s in w.net
      ensures s.packet.from in cfg.pos
    {
      assert SentOk(cfg, w, s);
    }
  }

  lemma ProposalReplicas(cfg: Config, w: World, r: Addr, count: nat, v: Value)
    requires Inv(cfg, w) && r in w.reps
    ensures ReplicasOk(cfg, WithProposal(w, r, count, v))
  {
    var w' := WithProposal(w, r, count, v);
    SendersKnown(cfg, w);
    forall q | q in cfg.pos
      ensures ReplicaOk(cfg, q, w'.reps[q], w'.net, w'.proposed)
    {
      ReplicaGrows(cfg, q, w.reps[q], w.net, w'.net, w.proposed, w'.proposed);
    }
  }

  lemma ProposalPacketOk(cfg: Config, w: World, r: Addr, count: nat, v: Value, s: Sent)
    requires Inv(cfg, w) && r in w.reps && v != "" && s in w.net && s.packet.from in w.reps
    ensures SentOk(cfg, WithProposal(w, r, count, v), s)
  {
    var w' := WithProposal(w, r, count, v);
    assert SentOk(cfg, w, s);
    StillTrue(w.reps[s.packet.from].a, w.net, w'.net, w.proposed, w'.proposed, s);
    SentGrows(cfg, w, w', s);
  }

  lemma ProposalNetwork(cfg: Config, w: World, r: Addr, count: nat, v: Value)
    requires Inv(cfg, w) && r in w.reps && v != ""
    ensures NetworkOk(cfg, WithProposal(w, r, count, v))
  {
    var w' := WithProposal(w, r, count, v);
    SendersKnown(cfg, w);
    forall s | s in w'.net
      ensures SentOk(cfg, w', s)
    {
      if s in w.net {
        ProposalPacketOk(cfg, w, r, count, v, s);
      }
    }
  }

  lemma NoNewRounds(net: set<Sent>, net': set<Sent>)
    requires BallotsUnique(net) && OneValuePerBallot(net)
    requires forall s :: s in net' - net ==> s.packet.msg.typ != PREPARE && s.packet.msg.typ != ACCEPT
    ensures BallotsUnique(net') && OneValuePerBallot(net')
  {
    forall s, t | s in net' && t in net' && SamePrepare(s.packet.msg, t.packet.msg)
      ensures s == t
    {
      assert s in net && t in net;
    }
    forall s, t | s in net' && t in net' && SameRound(s.packet.msg, t.packet.msg)
      ensures s.packet.msg.value == t.packet.msg.value
    {
      assert s in net && t in net;
    }
  }

  /** Packets from others than the acceptor leave its statements true. */
  lemma StillTrue(a: A.State, net: set<Sent>, net': set<Sent>, proposed: set<Value>, proposed': set<Value>, s: Sent)
    requires AcceptorSentOk(a, net, proposed, s) && net <= net' && proposed <= proposed'
    requires forall t :: t in net' - net && t.packet.from == s.packet.from ==> t.packet.msg.typ != ACCEPT_OK
    ensures AcceptorSentOk(a, net', proposed', s)
  {
    var m := s.packet.msg;
    if m.typ == ACCEPT_OK {
      var q :| Sends(net, q, Msg(ACCEPT, m.proposal, m.value, m.instance));
      assert Sends(net', q, Msg(ACCEPT, m.proposal, m.value, m.instance));
    }
  }

  /** A packet taken from the network satisfies what each role relies on. */
  lemma InputsOk(cfg: Config, w: World, e: Event)
    requires Inv(cfg, w) && e.Deliver? && Enabled(w, e)
    ensures var p := e.sent.packet;
            && CoordinatorInput(cfg, p, w.proposed)
            && LearnerInput(cfg, p, w.net, w.proposed)
            && (p.msg.typ == PREPARE ==> p.msg.instance >= 1)
            && (p.msg.typ == ACCEPT ==>
                  p.msg.instance >= 1 && Known(w.proposed, p.msg.value) && SomeoneSends(w.net, p.msg))
  {
    var p := e.sent.packet;
    var m := p.msg;
    assert SentOk(cfg, w, e.sent);
    if m.typ != PREPARE_OK {
      assert Sends(w.net, p.from, m);
    } else if m.proposal > 0 {
      var vote := Sent(Packet(Msg(ACCEPT_OK, m.proposal, m.value, m.instance), p.from), 0);
      assert SentOk(cfg, w, vote);
    }
  }

  /** Where an emitted packet comes from. */
  ghost predicate FromCoordinator(w: World, e: Event, s: Sent)
    requires e.Deliver? && e.r in w.reps
  {
    C.Step(w.reps[e.r].c, e.sent.packet).1 == Some(s.packet.msg) && s == Sent(Packet(s.packet.msg, e.r), 0)
  }

  ghost predicate FromLearner(w: World, e: Event, s: Sent)
    requires e.Deliver? && e.r in w.reps
  {
    L.Step(w.reps[e.r].l, e.sent.packet).1.reply == Some(s.packet.msg) && s == Sent(Packet(s.packet.msg, e.r), 0)
  }

  ghost predicate FromAcceptor(w: World, e: Event, s: Sent)
    requires e.Deliver? && e.r in w.reps
  {
    A.Step(w.reps[e.r].a, e.sent.packet).1 == Some(s.packet.msg) && s == Label(e.r, e.sent.packet, s.packet.msg)
  }

  predicate Recovery(e: Event, s: Sent) {
    s.packet.msg.typ == LEARN && s.packet.from == e.r && s.answers == 0
  }

  lemma ReplyTypes(w: World, e: Event)
    requires e.Deliver? && Enabled(w, e)
    ensures var p := e.sent.packet;
            var m1, m2, m3 := C.Step(w.reps[e.r].c, p).1, L.Step(w.reps[e.r].l, p).1.reply, A.Step(w.reps[e.r].a, p).1;
            && (m1.Some? ==> m1.value.typ in {PREPARE, ACCEPT, NOP})
            && (m2.Some? ==> m2.value.typ == COMMIT)
            && (m3.Some? ==> m3.value.typ in {PREPARE_OK, PREPARE_REJECT, ACCEPT_OK, ACCEPT_REJECT})
  {
    C.ReplyType(w.reps[e.r].c, e.sent.packet);
    L.ReplyType(w.reps[e.r].l, e.sent.packet);
    A.ReplyType(w.reps[e.r].a, e.sent.packet);
  }

  lemma QueuedKinds(cfg: Config, w: World, e: Event, q: Packet)
    requires Inv(cfg, w) && e.Deliver? && Enabled(w, e)
    requires q in R.Step(w.reps[e.r], e.sent.packet).1.queued
    ensures Sent(q, 0) in w.net || Recovery(e, Sent(q, 0))
  {
    var rep := w.reps[e.r];
    R.StepOutput(rep, e.sent.packet);
    assert ReplicaOk(cfg, e.r, rep, w.net, w.proposed);
  }

  /** A message sent comes from one of the roles. */
  lemma SentKinds(w: World, e: Event, s: Sent)
    requires e.Deliver? && Enabled(w, e)
    requires s == Label(e.r, e.sent.packet, s.packet.msg) && s.packet.msg in R.Step(w.reps[e.r], e.sent.packet).1.sent
    ensures FromCoordinator(w, e, s) || FromLearner(w, e, s) || FromAcceptor(w, e, s)
  {
    R.StepOutput(w.reps[e.r], e.sent.packet);
    ReplyTypes(w, e);
  }

  /** Everything new on the network was sent by one of the roles, or asks for recovery. */
  lemma NewPacket(cfg: Config, w: World, e: Event, s: Sent)
    requires Inv(cfg, w) && e.Deliver? && Enabled(w, e) && s in Next(w, e).net - w.net
    ensures FromCoordinator(w, e, s) || FromLearner(w, e, s) || FromAcceptor(w, e, s) || Recovery(e, s)
    ensures s.packet.from == e.r
  {
    var p, rep := e.sent.packet, w.reps[e.r];
    if s == Label(e.r, p, s.packet.msg) && s.packet.msg in R.Step(rep, p).1.sent {
      SentKinds(w, e, s);
    } else {
      QueuedKinds(cfg, w, e, s.packet);
    }
  }

  lemma RolePacketsSent(w: World, e: Event)
    requires e.Deliver? && Enabled(w, e)
    ensures forall s :: FromCoordinator(w, e, s) || FromLearner(w, e, s) || FromAcceptor(w, e, s) ==>
                          s in Next(w, e).net
  {
    var p, rep := e.sent.packet, w.reps[e.r];
    var o := R.Step(rep, p).1;
    R.StepOutput(rep, p);
    ReplyTypes(w, e);
    forall s | FromCoordinator(w, e, s) || FromLearner(w, e, s) || FromAcceptor(w, e, s)
      ensures s in Next(w, e).net
    {
      assert s.packet.msg in o.sent;
      assert s == Label(e.r, p, s.packet.msg);
      assert s in Emitted(e.r, p, o);
    }
  }

  lemma NewSenders(cfg: Config, w: World, e: Event)
    requires Inv(cfg, w) && e.Deliver? && Enabled(w, e)
    ensures VotersAreReplicas(cfg, Next(w, e).net)
    ensures AcceptorAdds(e.r, w.reps[e.r].a, e.sent.packet, w.net, Next(w, e).net)
    ensures forall s :: s in Next(w, e).net - w.net ==> s.packet.from == e.r
  {
    ReplyTypes(w, e);
    SendersKnown(cfg, w);
    forall s | s in Next(w, e).net - w.net
      ensures s.packet.from == e.r
      ensures s.packet.msg.typ in {PREPARE_OK, ACCEPT_OK} ==> FromAcceptor(w, e, s)
    {
      NewPacket(cfg, w, e, s);
    }
  }

  lemma DeliverCoordinator(cfg: Config, w: World, e: Event)
    requires Inv(cfg, w) && e.Deliver? && Enabled(w, e)
    ensures CoordinatorOk(cfg, e.r, C.Step(w.reps[e.r].c, e.sent.packet).0, Next(w, e).net, w.proposed)
  {
    var p, r, rep, net' := e.sent.packet, e.r, w.reps[e.r], Next(w, e).net;
    InputsOk(cfg, w, e);
    RolePacketsSent(w, e);
    C.ReplyType(rep.c, p);
    assert ReplicaOk(cfg, r, rep, w.net, w.proposed);
    forall m | m in ToSeq(C.Step(rep.c, p).1)
      ensures Sends(net', r, m)
    {
      assert FromCoordinator(w, e, Sent(Packet(m, r), 0));
    }
    CoordinatorStep(cfg, r, rep.c, p, w.net, net', w.proposed);
  }

  lemma DeliverAcceptor(cfg: Config, w: World, e: Event)
    requires Inv(cfg, w) && e.Deliver? && Enabled(w, e)
    ensures AcceptorOk(e.r, A.Step(w.reps[e.r].a, e.sent.packet).0, Next(w, e).net)
  {
    var p, r, rep, net' := e.sent.packet, e.r, w.reps[e.r], Next(w, e).net;
    RolePacketsSent(w, e);
    assert ReplicaOk(cfg, r, rep, w.net, w.proposed);
    forall m | m in ToSeq(A.Step(rep.a, p).1) && m.typ != PREPARE_OK
      ensures Sends(net', r, m)
    {
      assert FromAcceptor(w, e, Sent(Packet(m, r), 0));
    }
    AcceptorStep(r, rep.a, p, w.net, net');
  }

  lemma DeliverLearner(cfg: Config, w: World, e: Event)
    requires Inv(cfg, w) && e.Deliver? && Enabled(w, e)
    ensures LearnerOk(cfg, L.Step(w.reps[e.r].l, e.sent.packet).0, Next(w, e).net, w.proposed)
    ensures L.Step(w.reps[e.r].l, e.sent.packet).1.learnt >= 0
  {
    var p, rep := e.sent.packet, w.reps[e.r];
    InputsOk(cfg, w, e);
    NewSenders(cfg, w, e);
    SendersKnown(cfg, w);
    assert ReplicaOk(cfg, e.r, rep, w.net, w.proposed);
    LearnerStep(cfg, rep.l, p, w.net, w.proposed);
    LearnerGrows(cfg, L.Step(rep.l, p).0, w.net, Next(w, e).net, w.proposed, w.proposed);
  }

  lemma DeliverSelf(cfg: Config, w: World, e: Event)
    requires Inv(cfg, w) && e.Deliver? && Enabled(w, e)
    ensures ReplicaOk(cfg, e.r, Next(w, e).reps[e.r], Next(w, e).net, w.proposed)
  {
    DeliverCoordinator(cfg, w, e);
    DeliverAcceptor(cfg, w, e);
    DeliverLearner(cfg, w, e);
    RememberOk(cfg, w, e);
    R.StepParts(w.reps[e.r], e.sent.packet);
    assert ReplicaOk(cfg, e.r, w.reps[e.r], w.net, w.proposed);
  }

  lemma RememberOk(cfg: Config, w: World, e: Event)
    requires Inv(cfg, w) && e.Deliver? && Enabled(w, e)
    ensures UnsentOk(e.r, R.Remember(w.reps[e.r], e.sent.packet).unsentValues, w.net)
  {
    assert SentOk(cfg, w, e.sent);
    assert ReplicaOk(cfg, e.r, w.reps[e.r], w.net, w.proposed);
  }

  lemma DeliverReplicas(cfg: Config, w: World, e: Event)
    requires Inv(cfg, w) && e.Deliver? && Enabled(w, e)
    ensures ReplicasOk(cfg, Next(w, e))
  {
    var w' := Next(w, e);
    NewSenders(cfg, w, e);
    forall q | q in cfg.pos
      ensures ReplicaOk(cfg, q, w'.reps[q], w'.net, w'.proposed)
    {
      if q == e.r {
        DeliverSelf(cfg, w, e);
      } else {
        ReplicaGrows(cfg, q, w.reps[q], w.net, w'.net, w.proposed, w'.proposed);
      }
    }
  }

  lemma OldPacketsOk(cfg: Config, w: World, e: Event, s: Sent)
    requires Inv(cfg, w) && e.Deliver? && Enabled(w, e) && s in w.net
    ensures SentOk(cfg, Next(w, e), s)
  {
    var w' := Next(w, e);
    var p, rep := e.sent.packet, w.reps[e.r];
    NewSenders(cfg, w, e);
    R.StepParts(rep, p);
    assert SentOk(cfg, w, s);
    if s.packet.from == e.r {
      assert ReplicaOk(cfg, e.r, rep, w.net, w.proposed);
      CoordinatorHistory(cfg, e.r, rep.c, p, w.net, w'.net, w.proposed, s);
      AcceptorHistory(e.r, rep.a, p, w.net, w'.net, w.proposed, s);
    } else {
      StillTrue(w.reps[s.packet.from].a, w.net, w'.net, w.proposed, w'.proposed, s);
    }
    SentGrows(cfg, w, w', s);
  }

  lemma NewPacketsOk(cfg: Config, w: World, e: Event, s: Sent)
    requires Inv(cfg, w) && e.Deliver? && Enabled(w, e) && s in Next(w, e).net - w.net
    ensures SentOk(cfg, Next(w, e), s)
  {
    var w' := Next(w, e);
    var p, rep := e.sent.packet, w.reps[e.r];
    InputsOk(cfg, w, e);
    NewPacket(cfg, w, e, s);
    NewSenders(cfg, w, e);
    ReplyTypes(w, e);
    R.StepParts(rep, p);
    assert ReplicaOk(cfg, e.r, rep, w.net, w.proposed);
    if FromCoordinator(w, e, s) {
      CoordinatorSends(cfg, e.r, rep.c, p, w.net, w'.net, w.proposed, s);
    } else if FromLearner(w, e, s) {
      SendersKnown(cfg, w);
      LearnerStep(cfg, rep.l, p, w.net, w.proposed);
      IsChosenGrows(cfg, w.net, w'.net, s.packet.msg.value, s.packet.msg.instance);
    } else if FromAcceptor(w, e, s) {
      forall t | t in w.net && t.packet.from == e.r
        ensures AcceptorSentOk(rep.a, w.net, w.proposed, t)
      {
        assert SentOk(cfg, w, t);
      }
      AcceptorSends(cfg, e.r, rep.a, p, w.net, w'.net, w.proposed, s);
    }
  }

  /** A new PREPARE or ACCEPT is the first of its ballot: ballots of different replicas differ
      modulo the number of replicas, and a replica never goes back to a ballot. */
  lemma NewRoundIsFresh(cfg: Config, w: World, e: Event, s: Sent, t: Sent)
    requires Inv(cfg, w) && e.Deliver? && Enabled(w, e)
    requires s in Next(w, e).net - w.net && t in w.net
    ensures !SamePrepare(s.packet.msg, t.packet.msg) && !SameRound(s.packet.msg, t.packet.msg)
  {
    var p, rep := e.sent.packet, w.reps[e.r];
    NewPacket(cfg, w, e, s);
    ReplyTypes(w, e);
    InputsOk(cfg, w, e);
    assert ReplicaOk(cfg, e.r, rep, w.net, w.proposed);
    assert SentOk(cfg, w, t);
    if FromCoordinator(w, e, s) {
      CoordinatorSends(cfg, e.r, rep.c, p, w.net, w.net, w.proposed, s);
      if s.packet.msg.typ == ACCEPT {
        assert EntryOk(cfg, e.r, p.msg.instance, rep.c.proto[p.msg.instance], rep.c.nextproposal, w.net, w.proposed);
      }
    }
  }

  lemma NewRoundFromCoordinator(cfg: Config, w: World, e: Event, s: Sent)
    requires Inv(cfg, w) && e.Deliver? && Enabled(w, e)
    requires s in Next(w, e).net - w.net && s.packet.msg.typ in {PREPARE, ACCEPT}
    ensures FromCoordinator(w, e, s)
  {
    NewPacket(cfg, w, e, s);
    ReplyTypes(w, e);
  }

  lemma NewVoteFromAcceptor(cfg: Config, w: World, e: Event, s: Sent)
    requires Inv(cfg, w) && e.Deliver? && Enabled(w, e)
    requires s in Next(w, e).net - w.net && s.packet.msg.typ == ACCEPT_OK
    ensures FromAcceptor(w, e, s)
  {
    NewPacket(cfg, w, e, s);
    ReplyTypes(w, e);
  }

  lemma DeliverRounds(cfg: Config, w: World, e: Event)
    requires Inv(cfg, w) && e.Deliver? && Enabled(w, e)
    ensures BallotsUnique(Next(w, e).net) && OneValuePerBallot(Next(w, e).net)
  {
    var net' := Next(w, e).net;
    forall s, t | s in net' && t in net' &&
                  (SamePrepare(s.packet.msg, t.packet.msg) || SameRound(s.packet.msg, t.packet.msg))
      ensures (s in w.net && t in w.net) || s == t
    {
      if s in w.net && t !in w.net {
        NewRoundIsFresh(cfg, w, e, t, s);
      } else if s !in w.net && t in w.net {
        NewRoundIsFresh(cfg, w, e, s, t);
      } else if s !in w.net {
        NewRoundFromCoordinator(cfg, w, e, s);
        NewRoundFromCoordinator(cfg, w, e, t);
      }
    }
  }

  lemma NextInv(cfg: Config, w: World, e: Event)
    requires Inv(cfg, w) && Enabled(w, e)
    ensures Inv(cfg, Next(w, e))
  {
    if e.Propose? {
      ProposeInv(cfg, w, e);
    } else {
      DeliverReplicas(cfg, w, e);
      DeliverRounds(cfg, w, e);
      forall s | s in Next(w, e).net
        ensures SentOk(cfg, Next(w, e), s)
      {
        if s in w.net {
          OldPacketsOk(cfg, w, e, s);
        } else {
          NewPacketsOk(cfg, w, e, s);
        }
      }
    }
  }
}
