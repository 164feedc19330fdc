/** The invariant holds in every run; its consequences for ballots, values and commits. */
module PaxosSafety {
  import opened PaxosMessages
  import opened PaxosSystem
  import opened PaxosInvariants
  import opened PaxosSteps
  import L = PaxosLearner
  import R = PaxosReplica

  lemma RunInv(cfg: Config, ws: seq<World>, es: seq<Event>, n: nat)
    requires WellFormed(cfg) && Run(cfg, ws, es) && n <= |es|
    ensures Inv(cfg, ws[n])
  {
    InitInv(cfg);
    forall w, e | Enabled(w, e) && Inv(cfg, w)
      ensures Inv(cfg, Next(w, e))
    {
      NextInv(cfg, w, e);
    }
    Kept(cfg, ws, es, 0, n, w => Inv(cfg, w), false);
  }

  ghost predicate Committed(w: World, r: Addr, i: int, v: Value) {
    r in w.reps && i in w.reps[r].l.proto && w.reps[r].l.proto[i].commit && w.reps[r].l.proto[i].value == v
  }

  /** No ballot is prepared twice, by anyone, in any instance. */
  lemma BallotNeverReused(cfg: Config, ws: seq<World>, es: seq<Event>, n: nat, s: Sent, t: Sent)
    requires WellFormed(cfg) && Run(cfg, ws, es) && n <= |es|
    requires s in ws[n].net && t in ws[n].net
    requires s.packet.msg.typ == t.packet.msg.typ == PREPARE && s.packet.msg.proposal == t.packet.msg.proposal
    ensures s == t
  {
    RunInv(cfg, ws, es, n);
    assert SamePrepare(s.packet.msg, t.packet.msg);
  }

  /** All proposals and votes of one ballot in one instance carry one value. */
  lemma BallotHasOneValue(cfg: Config, ws: seq<World>, es: seq<Event>, n: nat, s: Sent, t: Sent)
    requires WellFormed(cfg) && Run(cfg, ws, es) && n <= |es|
    requires s in ws[n].net && t in ws[n].net
    requires s.packet.msg.typ in {ACCEPT, ACCEPT_OK} && t.packet.msg.typ in {ACCEPT, ACCEPT_OK}
    requires s.packet.msg.proposal == t.packet.msg.proposal && s.packet.msg.instance == t.packet.msg.instance
    ensures s.packet.msg.value == t.packet.msg.value
  {
    RunInv(cfg, ws, es, n);
    var a := AcceptBehind(cfg, ws[n], s);
    var b := AcceptBehind(cfg, ws[n], t);
    assert SameRound(a.packet.msg, b.packet.msg);
  }

  lemma AcceptBehind(cfg: Config, w: World, s: Sent) returns (a: Sent)
    requires Inv(cfg, w) && s in w.net && s.packet.msg.typ in {ACCEPT, ACCEPT_OK}
    ensures a in w.net && a.packet.msg == s.packet.msg.(typ := ACCEPT)
  {
    assert SentOk(cfg, w, s);
    var m := s.packet.msg;
    if m.typ == ACCEPT {
      a := s;
    } else {
      var r :| Sends(w.net, r, Msg(ACCEPT, m.proposal, m.value, m.instance));
      a := Sent(Packet(Msg(ACCEPT, m.proposal, m.value, m.instance), r), 0);
    }
  }

  /** Whatever a learner commits was proposed by some replica, and a quorum of different replicas voted
      for it at a single ballot. (With a quorum of zero or less that is no condition on the votes.) */
  lemma CommittedIsChosenAndProposed(cfg: Config, ws: seq<World>, es: seq<Event>, n: nat, r: Addr, i: int, v: Value)
    requires WellFormed(cfg) && Run(cfg, ws, es) && n <= |es|
    requires Committed(ws[n], r, i, v)
    ensures i >= 1 && v in ws[n].proposed
    ensures exists b :: Voters(ws[n].net, b, v, i) <= cfg.pos.Keys && |Voters(ws[n].net, b, v, i)| >= cfg.quorum
  {
    RunInv(cfg, ws, es, n);
    var w := ws[n];
    assert ReplicaOk(cfg, r, w.reps[r], w.net, w.proposed);
    assert LearnerEntryOk(cfg, i, w.reps[r].l.proto[i], w.net, w.proposed);
    var b :| Chosen(cfg, w.net, b, v, i);
  }

  lemma CommitKept(w: World, e: Event, r: Addr, i: int, v: Value)
    requires Enabled(w, e) && Committed(w, r, i, v)
    ensures Committed(Next(w, e), r, i, v)
  {
    if e.Deliver? && e.r == r {
      R.StepRoles(w.reps[r], e.sent.packet);
      L.CommitStays(w.reps[r].l, e.sent.packet, i);
    }
  }

  /** A committed value never changes, however the run goes on. */
  lemma CommittedForever(cfg: Config, ws: seq<World>, es: seq<Event>, k: nat, n: nat, r: Addr, i: int, v: Value)
    requires Run(cfg, ws, es) && k <= n <= |es| && Committed(ws[k], r, i, v)
    ensures Committed(ws[n], r, i, v)
  {
    forall w, e | Enabled(w, e) && Committed(w, r, i, v)
      ensures Committed(Next(w, e), r, i, v)
    {
      CommitKept(w, e, r, i, v);
    }
    Kept(cfg, ws, es, k, n, w => Committed(w, r, i, v), false);
  }
}
