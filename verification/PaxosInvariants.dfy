/** What every run keeps, without any assumption on which PREPARE_OKs are counted: coordinators use a
    ballot once and propose one value with it, acceptors report their latest vote when they promise a
    ballot and have sent a message for every vote, learners only count votes that were sent, and every
    value on the network was proposed by some replica. All of it is said of one replica or one packet
    at a time, so that a step has to be looked at only where it changes something. */
module PaxosInvariants {
  import opened Options
  import opened PaxosMessages
  import opened PaxosSystem
  import opened PaxosQuorums
  import L = PaxosLearner
  import A = PaxosAcceptor
  import C = PaxosCoordinator
  import R = PaxosReplica

  // ---- facts about the network ----

  /** Replica r has broadcast m (a message other than PREPARE_OK). */
  predicate Sends(net: set<Sent>, r: Addr, m: Msg) {
    Sent(Packet(m, r), 0) in net
  }

  ghost predicate SomeoneSends(net: set<Sent>, m: Msg) {
    exists r :: Sends(net, r, m)
  }

  /** The acceptors that voted for v at ballot b. */
  function Voters(net: set<Sent>, b: int, v: Value, i: int): set<Addr> {
    set s | s in net && s.packet.msg == Msg(ACCEPT_OK, b, v, i) :: s.packet.from
  }

  /** v was accepted at one ballot by a quorum of distinct acceptors. */
  ghost predicate Chosen(cfg: Config, net: set<Sent>, b: int, v: Value, i: int) {
    Voters(net, b, v, i) <= cfg.pos.Keys && |Voters(net, b, v, i)| >= cfg.quorum
  }

  ghost predicate IsChosen(cfg: Config, net: set<Sent>, v: Value, i: int) {
    exists b :: Chosen(cfg, net, b, v, i)
  }

  predicate Known(proposed: set<Value>, v: Value) {
    v != "" && v in proposed
  }

  /** Ballot b belongs to replica r. */
  predicate Owns(cfg: Config, r: Addr, b: int)
    requires r in cfg.pos
  {
    b % |cfg.pos| == cfg.pos[r] % |cfg.pos|
  }

  // ---- role invariants ----

  ghost predicate EntryOk(cfg: Config, r: Addr, i: int, e: C.Entry, next: int, net: set<Sent>, proposed: set<Value>)
    requires r in cfg.pos
  {
    && i >= 1
    && Owns(cfg, r, e.proposal) && e.proposal < next
    && Sends(net, r, Msg(PREPARE, e.proposal, "", i))
    && Known(proposed, e.pvalue)
    && e.aproposal >= 0 && (e.aproposal > 0 ==> Known(proposed, e.avalue))
    && e.responses <= cfg.pos.Keys
  }

  ghost predicate CoordinatorOk(cfg: Config, r: Addr, c: C.State, net: set<Sent>, proposed: set<Value>)
    requires r in cfg.pos
  {
    && c.nodes == |cfg.pos| && c.quorum == cfg.quorum
    && c.instance >= 0
    && Owns(cfg, r, c.nextproposal)
    && forall i :: i in c.proto ==> EntryOk(cfg, r, i, c.proto[i], c.nextproposal, net, proposed)
  }

  ghost predicate AcceptorEntryOk(r: Addr, i: int, e: A.Entry, net: set<Sent>) {
    && 0 <= e.proposalAccepted <= e.proposal
    && (e.proposalAccepted > 0 ==> Sends(net, r, Msg(ACCEPT_OK, e.proposalAccepted, e.value, i)))
  }

  ghost predicate AcceptorOk(r: Addr, a: A.State, net: set<Sent>) {
    forall i :: i in a.proto ==> AcceptorEntryOk(r, i, a.proto[i], net)
  }

  ghost predicate LearnerEntryOk(cfg: Config, i: int, e: L.Entry, net: set<Sent>, proposed: set<Value>) {
    if e.commit then i >= 1 && Known(proposed, e.value) && IsChosen(cfg, net, e.value, i)
    else CountsBacked(e, e.proposal, i, net)
  }

  /** No value has more votes counted than different acceptors that really voted so at ballot b. */
  ghost predicate CountsBacked(e: L.Entry, b: int, i: int, net: set<Sent>) {
    forall v :: L.Votes(e, v) <= |Voters(net, b, v, i) * e.responses|
  }

  ghost predicate LearnerOk(cfg: Config, l: L.State, net: set<Sent>, proposed: set<Value>) {
    && l.quorum == cfg.quorum
    && forall i :: i in l.proto ==> LearnerEntryOk(cfg, i, l.proto[i], net, proposed)
  }

  // ---- what a packet on the network says about its sender ----

  ghost predicate CoordinatorSentOk(cfg: Config, c: C.State, net: set<Sent>, proposed: set<Value>, s: Sent)
    requires s.packet.from in cfg.pos
  {
    var m, r := s.packet.msg, s.packet.from;
    match m.typ
    case PREPARE =>
      m.value == "" && m.instance >= 1 && Owns(cfg, r, m.proposal) && m.proposal < c.nextproposal
    case ACCEPT =>
      && m.instance >= 1 && Known(proposed, m.value)
      && Owns(cfg, r, m.proposal)
      && Sends(net, r, Msg(PREPARE, m.proposal, "", m.instance))
      && m.proposal < c.nextproposal
      && (m.instance in c.proto && c.proto[m.instance].proposal == m.proposal ==>
            c.proto[m.instance].nvalue == m.value)
    case _ => true
  }

  /** No vote of r in instance i lies strictly between two ballots. */
  ghost predicate NoVoteBetween(net: set<Sent>, r: Addr, i: int, low: int, high: int) {
    forall s :: s in net && s.packet.from == r && s.packet.msg.typ == ACCEPT_OK && s.packet.msg.instance == i ==>
                  s.packet.msg.proposal <= low || s.packet.msg.proposal >= high
  }

  ghost predicate AcceptorSentOk(a: A.State, net: set<Sent>, proposed: set<Value>, s: Sent) {
    var m, r := s.packet.msg, s.packet.from;
    match m.typ
    case PREPARE_OK =>
      && m.instance >= 1 && m.instance in a.proto
      && s.answers <= a.proto[m.instance].proposal
      && 0 <= m.proposal < s.answers
      && (m.proposal > 0 ==> Sends(net, r, Msg(ACCEPT_OK, m.proposal, m.value, m.instance)))
      && NoVoteBetween(net, r, m.instance, m.proposal, s.answers)
    case ACCEPT_OK =>
      && m.instance >= 1 && Known(proposed, m.value)
      && m.instance in a.proto
      && 0 < m.proposal <= a.proto[m.instance].proposalAccepted
      && SomeoneSends(net, Msg(ACCEPT, m.proposal, m.value, m.instance))
    case _ => true
  }

  ghost predicate LearnerSentOk(cfg: Config, net: set<Sent>, proposed: set<Value>, s: Sent) {
    var m := s.packet.msg;
    match m.typ
    case COMMIT => m.instance >= 1 && Known(proposed, m.value) && IsChosen(cfg, net, m.value, m.instance)
    case PROPOSE => Known(proposed, m.value) && m == Msg(PROPOSE, 0, m.value, 0)
    case _ => true
  }

  ghost predicate SentOk(cfg: Config, w: World, s: Sent) {
    && s.packet.from in cfg.pos && s.packet.from in w.reps
    && (s.packet.msg.typ != PREPARE_OK ==> s.answers == 0)
    && CoordinatorSentOk(cfg, w.reps[s.packet.from].c, w.net, w.proposed, s)
    && AcceptorSentOk(w.reps[s.packet.from].a, w.net, w.proposed, s)
    && LearnerSentOk(cfg, w.net, w.proposed, s)
  }

  ghost predicate UnsentOk(r: Addr, unsent: map<Value, Packet>, net: set<Sent>) {
    forall v :: v in unsent ==> unsent[v] == Packet(Msg(PROPOSE, 0, v, 0), r) && Sent(unsent[v], 0) in net
  }

  ghost predicate ReplicaOk(cfg: Config, r: Addr, s: R.State, net: set<Sent>, proposed: set<Value>)
    requires r in cfg.pos
  {
    && s.self == r && s.nodepos == cfg.pos[r]
    && CoordinatorOk(cfg, r, s.c, net, proposed)
    && AcceptorOk(r, s.a, net)
    && LearnerOk(cfg, s.l, net, proposed)
    && UnsentOk(r, s.unsentValues, net)
  }

  predicate SamePrepare(m: Msg, m': Msg) {
    m.typ == m'.typ == PREPARE && m.proposal == m'.proposal
  }

  /** A ballot is prepared at most once in the whole cluster. */
  ghost predicate BallotsUnique(net: set<Sent>) {
    forall s, t :: s in net && t in net && SamePrepare(s.packet.msg, t.packet.msg) ==> s == t
  }

  predicate SameRound(m: Msg, m': Msg) {
    m.typ == m'.typ == ACCEPT && m.proposal == m'.proposal && m.instance == m'.instance
  }

  /** All ACCEPTs of one ballot in one instance carry one value. */
  ghost predicate OneValuePerBallot(net: set<Sent>) {
    forall s, t :: s in net && t in net && SameRound(s.packet.msg, t.packet.msg) ==>
                     s.packet.msg.value == t.packet.msg.value
  }

  ghost predicate ReplicasOk(cfg: Config, w: World) {
    forall r :: r in cfg.pos ==> r in w.reps && ReplicaOk(cfg, r, w.reps[r], w.net, w.proposed)
  }

  ghost predicate NetworkOk(cfg: Config, w: World) {
    forall s :: s in w.net ==> SentOk(cfg, w, s)
  }

  ghost predicate Inv(cfg: Config, w: World) {
    && WellFormed(cfg)
    && w.reps.Keys == cfg.pos.Keys
    && ReplicasOk(cfg, w)
    && NetworkOk(cfg, w)
    && BallotsUnique(w.net)
    && OneValuePerBallot(w.net)
  }

  // ---- facts survive when the network grows ----

  /** Votes are only cast by replicas. */
  ghost predicate VotersAreReplicas(cfg: Config, net: set<Sent>) {
    forall s :: s in net ==> s.packet.from in cfg.pos
  }

  lemma IsChosenGrows(cfg: Config, net: set<Sent>, net': set<Sent>, v: Value, i: int)
    requires net <= net' && VotersAreReplicas(cfg, net') && IsChosen(cfg, net, v, i)
    ensures IsChosen(cfg, net', v, i)
  {
    var b :| Chosen(cfg, net, b, v, i);
    SubsetSize(Voters(net, b, v, i), Voters(net', b, v, i));
    assert Chosen(cfg, net', b, v, i);
  }

  lemma LearnerGrows(cfg: Config, l: L.State, net: set<Sent>, net': set<Sent>, proposed: set<Value>,
                     proposed': set<Value>)
    requires LearnerOk(cfg, l, net, proposed)
    requires net <= net' && proposed <= proposed' && VotersAreReplicas(cfg, net')
    ensures LearnerOk(cfg, l, net', proposed')
  {
    forall i | i in l.proto
      ensures LearnerEntryOk(cfg, i, l.proto[i], net', proposed')
    {
      LearnerEntryGrows(cfg, i, l.proto[i], net, net', proposed, proposed');
    }
  }

  lemma LearnerEntryGrows(cfg: Config, i: int, e: L.Entry, net: set<Sent>, net': set<Sent>,
                          proposed: set<Value>, proposed': set<Value>)
    requires LearnerEntryOk(cfg, i, e, net, proposed)
    requires net <= net' && proposed <= proposed' && VotersAreReplicas(cfg, net')
    ensures LearnerEntryOk(cfg, i, e, net', proposed')
  {
    if e.commit {
      IsChosenGrows(cfg, net, net', e.value, i);
    } else {
      forall v
        ensures L.Votes(e, v) <= |Voters(net', e.proposal, v, i) * e.responses|
      {
        SubsetSize(Voters(net, e.proposal, v, i) * e.responses, Voters(net', e.proposal, v, i) * e.responses);
      }
    }
  }

  lemma ReplicaGrows(cfg: Config, r: Addr, s: R.State, net: set<Sent>, net': set<Sent>,
                     proposed: set<Value>, proposed': set<Value>)
    requires r in cfg.pos && ReplicaOk(cfg, r, s, net, proposed)
    requires net <= net' && proposed <= proposed' && VotersAreReplicas(cfg, net')
    ensures ReplicaOk(cfg, r, s, net', proposed')
  {
    LearnerGrows(cfg, s.l, net, net', proposed, proposed');
  }

  // ---- the coordinator ----

  /** What a coordinator may rely on in an incoming packet. */
  ghost predicate CoordinatorInput(cfg: Config, p: Packet, proposed: set<Value>) {
    && (p.msg.typ == PROPOSE ==> Known(proposed, p.msg.value))
    && (p.msg.typ == PREPARE_OK ==>
          p.from in cfg.pos && p.msg.proposal >= 0 && (p.msg.proposal > 0 ==> Known(proposed, p.msg.value)))
  }

  lemma NextBallotOwned(cfg: Config, r: Addr, c: C.State)
    requires WellFormed(cfg) && r in cfg.pos && c.nodes == |cfg.pos| && Owns(cfg, r, c.nextproposal)
    ensures var next := C.SkipBelow(c.nextproposal + c.nodes, c.nodes, c.highproposal);
            next > c.nextproposal && Owns(cfg, r, next)
  {
    C.SkipBelowKeepsResidue(c.nextproposal + c.nodes, c.nodes, c.highproposal);
    C.AddModulus(c.nextproposal, c.nodes);
  }

  lemma CoordinatorStep(cfg: Config, r: Addr, c: C.State, p: Packet, net: set<Sent>, net': set<Sent>,
                        proposed: set<Value>)
    requires WellFormed(cfg) && r in cfg.pos && CoordinatorOk(cfg, r, c, net, proposed)
    requires CoordinatorInput(cfg, p, proposed) && net <= net'
    requires forall m :: m in ToSeq(C.Step(c, p).1) ==> Sends(net', r, m)
    ensures CoordinatorOk(cfg, r, C.Step(c, p).0, net', proposed)
    ensures C.Step(c, p).0.nextproposal >= c.nextproposal
  {
    var (c', m) := C.Step(c, p);
    NextBallotOwned(cfg, r, c);
    if p.msg.typ == PROPOSE {
      assert m.value in ToSeq(m);
    }
    forall i | i in c'.proto
      ensures EntryOk(cfg, r, i, c'.proto[i], c'.nextproposal, net', proposed)
    {
      if i in c.proto && c'.proto[i] == c.proto[i] {
        assert EntryOk(cfg, r, i, c.proto[i], c.nextproposal, net, proposed);
      }
    }
  }

  /** Earlier messages of the coordinator stay truthful. */
  lemma CoordinatorHistory(cfg: Config, r: Addr, c: C.State, p: Packet, net: set<Sent>, net': set<Sent>,
                           proposed: set<Value>, s: Sent)
    requires WellFormed(cfg) && r in cfg.pos && CoordinatorOk(cfg, r, c, net, proposed)
    requires s in net && s.packet.from == r && net <= net'
    requires CoordinatorSentOk(cfg, c, net, proposed, s)
    ensures CoordinatorSentOk(cfg, C.Step(c, p).0, net', proposed, s)
  {
    NextBallotOwned(cfg, r, c);
  }

  /** And what it sends now is truthful too; an ACCEPT is the first of its ballot. */
  lemma CoordinatorSends(cfg: Config, r: Addr, c: C.State, p: Packet, net: set<Sent>, net': set<Sent>,
                         proposed: set<Value>, s: Sent)
    requires WellFormed(cfg) && r in cfg.pos && CoordinatorOk(cfg, r, c, net, proposed)
    requires CoordinatorInput(cfg, p, proposed) && net <= net'
    requires C.Step(c, p).1 == Some(s.packet.msg) && s.packet.from == r && s.answers == 0
    ensures CoordinatorSentOk(cfg, C.Step(c, p).0, net', proposed, s)
    ensures s.packet.msg.typ in {PREPARE, ACCEPT, NOP}
    ensures s.packet.msg.typ == PREPARE ==> s.packet.msg.proposal == c.nextproposal
    ensures s.packet.msg.typ == ACCEPT ==>
              p.msg.typ == PREPARE_OK && C.Counts(c, p) && s.packet.msg.instance == p.msg.instance &&
              s.packet.msg.proposal == c.proto[p.msg.instance].proposal
  {
    NextBallotOwned(cfg, r, c);
    if p.msg.typ == PREPARE_OK {
      assert EntryOk(cfg, r, p.msg.instance, c.proto[p.msg.instance], c.nextproposal, net, proposed);
    }
  }

  // ---- the acceptor ----

  lemma AcceptorStep(r: Addr, a: A.State, p: Packet, net: set<Sent>, net': set<Sent>)
    requires AcceptorOk(r, a, net) && net <= net'
    requires forall m :: m in ToSeq(A.Step(a, p).1) && m.typ != PREPARE_OK ==> Sends(net', r, m)
    ensures AcceptorOk(r, A.Step(a, p).0, net')
  {
    var (a', m) := A.Step(a, p);
    var i := p.msg.instance;
    assert AcceptorEntryOk(r, i, A.Get(a, i), net);
    if m.Some? {
      assert m.value in ToSeq(m);
    }
    forall j | j in a'.proto
      ensures AcceptorEntryOk(r, j, a'.proto[j], net')
    {
      if j != i {
        assert AcceptorEntryOk(r, j, a.proto[j], net);
      }
    }
  }

  /** The only vote and the only promise a step can add to the network. */
  ghost predicate AcceptorAdds(r: Addr, a: A.State, p: Packet, net: set<Sent>, net': set<Sent>) {
    && net <= net'
    && forall s :: s in net' - net && s.packet.from == r && s.packet.msg.typ in {PREPARE_OK, ACCEPT_OK} ==>
                     A.Step(a, p).1 == Some(s.packet.msg) && s == Label(r, p, s.packet.msg)
  }

  /** Promises keep: a new vote is at or above everything promised before. */
  lemma AcceptorHistory(r: Addr, a: A.State, p: Packet, net: set<Sent>, net': set<Sent>, proposed: set<Value>, s: Sent)
    requires AcceptorOk(r, a, net) && AcceptorAdds(r, a, p, net, net')
    requires s in net && s.packet.from == r && AcceptorSentOk(a, net, proposed, s)
    ensures AcceptorSentOk(A.Step(a, p).0, net', proposed, s)
  {
    var m := s.packet.msg;
    var a' := A.Step(a, p).0;
    assert AcceptorEntryOk(r, p.msg.instance, A.Get(a, p.msg.instance), net);
    if m.typ == ACCEPT_OK {
      var q :| Sends(net, q, Msg(ACCEPT, m.proposal, m.value, m.instance));
      assert Sends(net', q, Msg(ACCEPT, m.proposal, m.value, m.instance));
    }
  }

  /** What an acceptor sends now is truthful: a promise reports its highest vote. */
  lemma AcceptorSends(cfg: Config, r: Addr, a: A.State, p: Packet, net: set<Sent>, net': set<Sent>,
                      proposed: set<Value>, s: Sent)
    requires AcceptorOk(r, a, net) && AcceptorAdds(r, a, p, net, net')
    requires forall t :: t in net && t.packet.from == r ==> AcceptorSentOk(a, net, proposed, t)
    requires p.msg.typ == PREPARE ==> p.msg.instance >= 1
    requires p.msg.typ == ACCEPT ==> p.msg.instance >= 1 && Known(proposed, p.msg.value) && SomeoneSends(net, p.msg)
    requires A.Step(a, p).1 == Some(s.packet.msg) && s == Label(r, p, s.packet.msg)
    ensures AcceptorSentOk(A.Step(a, p).0, net', proposed, s)
    ensures s.packet.msg.typ in {PREPARE_OK, PREPARE_REJECT, ACCEPT_OK, ACCEPT_REJECT}
  {
    var m, i := s.packet.msg, p.msg.instance;
    var e := A.Get(a, i);
    assert AcceptorEntryOk(r, i, e, net);
    if m.typ == PREPARE_OK {
      forall t | t in net' && t.packet.from == r && t.packet.msg.typ == ACCEPT_OK && t.packet.msg.instance == i
        ensures t.packet.msg.proposal <= m.proposal
      {
        assert t in net;
        assert AcceptorSentOk(a, net, proposed, t);
      }
    } else if m.typ == ACCEPT_OK {
      assert m == Msg(ACCEPT_OK, p.msg.proposal, p.msg.value, i);
      assert p.msg == Msg(ACCEPT, m.proposal, m.value, m.instance);
      var q :| Sends(net, q, p.msg);
      assert Sends(net', q, p.msg);
    }
  }

  // ---- the learner ----

  ghost predicate LearnerInput(cfg: Config, p: Packet, net: set<Sent>, proposed: set<Value>) {
    && (p.msg.typ == ACCEPT_OK ==> Sends(net, p.from, p.msg) && p.msg.instance >= 1 && Known(proposed, p.msg.value))
    && (p.msg.typ == COMMIT ==>
          p.msg.instance >= 1 && Known(proposed, p.msg.value) && IsChosen(cfg, net, p.msg.value, p.msg.instance))
  }

  /** Every vote counted belongs to a different acceptor that really voted so. */
  lemma OneMoreVote(e: L.Entry, b: int, i: int, from: Addr, v: Value, net: set<Sent>)
    requires CountsBacked(e, b, i, net)
    requires from !in e.responses && from in Voters(net, b, v, i)
    ensures CountsBacked(L.CountVote(e, from, v), b, i, net)
  {
    var e' := L.CountVote(e, from, v);
    forall u
      ensures L.Votes(e', u) <= |Voters(net, b, u, i) * e'.responses|
    {
      var before, after := Voters(net, b, u, i) * e.responses, Voters(net, b, u, i) * e'.responses;
      SubsetSize(before, after);
      if u == v {
        assert after == before + {from};
      }
    }
  }

  /** A quorum of counted votes is a quorum of acceptors. */
  lemma QuorumOfVoters(cfg: Config, e: L.Entry, b: int, i: int, v: Value, net: set<Sent>)
    requires VotersAreReplicas(cfg, net) && CountsBacked(e, b, i, net) && L.Votes(e, v) >= cfg.quorum
    ensures Chosen(cfg, net, b, v, i)
  {
    SubsetSize(Voters(net, b, v, i) * e.responses, Voters(net, b, v, i));
  }

  lemma RaiseBacked(e: L.Entry, b: int, i: int, net: set<Sent>)
    requires CountsBacked(e, e.proposal, i, net) && b >= e.proposal
    ensures CountsBacked(L.Raise(e, b), b, i, net) && L.Raise(e, b).proposal == b
  {
  }

  lemma VoteCounted(cfg: Config, i: int, e: L.Entry, p: Packet, net: set<Sent>, proposed: set<Value>)
    requires VotersAreReplicas(cfg, net)
    requires !e.commit && LearnerEntryOk(cfg, i, e, net, proposed)
    requires p.msg.typ == ACCEPT_OK && p.msg.instance == i && LearnerInput(cfg, p, net, proposed)
    ensures LearnerEntryOk(cfg, i, L.AfterVote(e, p, cfg.quorum).0, net, proposed)
    ensures L.AfterVote(e, p, cfg.quorum).1 ==> Chosen(cfg, net, p.msg.proposal, p.msg.value, i)
  {
    var b, v := p.msg.proposal, p.msg.value;
    if b >= e.proposal {
      var e1 := L.Raise(e, b);
      RaiseBacked(e, b, i, net);
      if p.from !in e1.responses {
        assert p.msg == Msg(ACCEPT_OK, b, v, i);
        OneMoreVote(e1, b, i, p.from, v, net);
        if L.Votes(L.CountVote(e1, p.from, v), v) >= cfg.quorum {
          QuorumOfVoters(cfg, L.CountVote(e1, p.from, v), b, i, v, net);
        }
      }
    }
  }

  lemma LearnerStep(cfg: Config, l: L.State, p: Packet, net: set<Sent>, proposed: set<Value>)
    requires VotersAreReplicas(cfg, net)
    requires LearnerOk(cfg, l, net, proposed) && LearnerInput(cfg, p, net, proposed)
    ensures LearnerOk(cfg, L.Step(l, p).0, net, proposed)
    ensures var r := L.Step(l, p).1;
            && (r.reply.Some? ==> r.reply.value.typ == COMMIT && r.reply.value.instance >= 1 &&
                                  Known(proposed, r.reply.value.value) &&
                                  IsChosen(cfg, net, r.reply.value.value, r.reply.value.instance))
            && r.learnt >= 0
  {
    var i := p.msg.instance;
    var e := L.Get(l, i);
    assert LearnerEntryOk(cfg, i, e, net, proposed);
    if p.msg.typ == ACCEPT_OK && !e.commit {
      VoteCounted(cfg, i, e, p, net, proposed);
    }
    var l' := L.Step(l, p).0;
    forall j | j in l'.proto
      ensures LearnerEntryOk(cfg, j, l'.proto[j], net, proposed)
    {
      if j != i {
        assert LearnerEntryOk(cfg, j, l.proto[j], net, proposed);
      }
    }
  }
}
