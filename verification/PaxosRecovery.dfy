/** How a replica that has missed an instance gets it, and what else follows from learning one. */
module PaxosRecovery {
  import opened Options
  import opened PaxosMessages
  import opened PaxosSystem
  import opened PaxosInvariants
  import opened PaxosSafety
  import opened PaxosRoles
  import C = PaxosCoordinator
  import L = PaxosLearner
  import R = PaxosReplica

  /** r has told everybody the value of the instance. */
  ghost predicate Tells(net: set<Sent>, r: Addr, i: int, v: Value) {
    exists b :: Sends(net, r, Msg(COMMIT, b, v, i))
  }

  lemma LearnerSends(w: World, e: Event, m: Msg)
    requires Enabled(w, e) && e.Deliver? && L.Step(w.reps[e.r].l, e.sent.packet).1.reply == Some(m)
    requires m.typ == COMMIT
    ensures Sends(Next(w, e).net, e.r, m)
  {
    R.StepOutput(w.reps[e.r], e.sent.packet);
    assert m in ToSeq(L.Step(w.reps[e.r].l, e.sent.packet).1.reply);
    assert m in R.Step(w.reps[e.r], e.sent.packet).1.sent;
    assert Label(e.r, e.sent.packet, m) in Next(w, e).net;
  }

  lemma CoordinatorAsks(w: World, e: Event, i: int)
    requires Enabled(w, e) && Gets(e, e.r, LEARN, i)
    ensures Sends(Next(w, e).net, e.r, Msg(NOP, 0, "", i))
  {
    var m := Msg(NOP, 0, "", i);
    R.StepOutput(w.reps[e.r], e.sent.packet);
    assert m in ToSeq(C.Step(w.reps[e.r].c, e.sent.packet).1);
    assert m in R.Step(w.reps[e.r], e.sent.packet).1.sent;
    assert Label(e.r, e.sent.packet, m) in Next(w, e).net;
  }

  lemma NopAnswer(w: World, e: Event, r: Addr, i: int, v: Value)
    requires Enabled(w, e) && Gets(e, r, NOP, i) && Committed(w, r, i, v)
    ensures Tells(Next(w, e).net, r, i, v)
  {
    LearnerSends(w, e, Msg(COMMIT, w.reps[r].l.proto[i].proposal, v, i));
  }

  /** What a learner reports when it commits. */
  lemma ReportsCommit(l: L.State, p: Packet, i: int)
    requires !L.Get(l, i).commit && L.Get(L.Step(l, p).0, i).commit
    ensures p.msg.instance == i && p.msg.typ in {ACCEPT_OK, COMMIT}
    ensures L.Get(L.Step(l, p).0, i).value == p.msg.value
    ensures L.Step(l, p).1.learnt == i && L.Step(l, p).1.value == p.msg.value
  {
  }

  lemma NotCommitted(w: World, r: Addr, i: int)
    requires r in w.reps && forall v :: !Committed(w, r, i, v)
    ensures !L.Get(w.reps[r].l, i).commit
  {
    if i in w.reps[r].l.proto {
      assert !Committed(w, r, i, w.reps[r].l.proto[i].value);
    }
  }

  lemma TakesCommit(l: L.State, p: Packet, i: int)
    requires !L.Get(l, i).commit && p.msg.typ == COMMIT && p.msg.instance == i
    ensures var l' := L.Step(l, p).0; i in l'.proto && l'.proto[i].commit && l'.proto[i].value == p.msg.value
  {
  }

  lemma CommitLearnt(w: World, e: Event, r: Addr, i: int)
    requires Enabled(w, e) && Gets(e, r, COMMIT, i) && (forall v :: !Committed(w, r, i, v))
    ensures Committed(Next(w, e), r, i, e.sent.packet.msg.value)
  {
    NotCommitted(w, r, i);
    R.StepRoles(w.reps[r], e.sent.packet);
    TakesCommit(w.reps[r].l, e.sent.packet, i);
  }

  /** In every run a replica that has committed an instance tells everybody its value when it is asked. */
  lemma RecoveryAnswered(cfg: Config, ws: seq<World>, es: seq<Event>, n: nat, r: Addr, i: int, v: Value)
    requires Run(cfg, ws, es) && n < |es| && Gets(es[n], r, NOP, i) && Committed(ws[n], r, i, v)
    ensures Tells(ws[n + 1].net, r, i, v)
  {
    StepAt(cfg, ws, es, n);
    NopAnswer(ws[n], es[n], r, i, v);
  }

  /** In every run a replica asks everybody for the instance it has queued a LEARN for. */
  lemma MissingAsked(cfg: Config, ws: seq<World>, es: seq<Event>, n: nat, r: Addr, i: int)
    requires Run(cfg, ws, es) && n < |es| && Gets(es[n], r, LEARN, i)
    ensures Sends(ws[n + 1].net, r, Msg(NOP, 0, "", i))
  {
    StepAt(cfg, ws, es, n);
    CoordinatorAsks(ws[n], es[n], i);
  }

  /** In every run a replica commits what it is told, unless it has committed the instance already. */
  lemma CommitTaken(cfg: Config, ws: seq<World>, es: seq<Event>, n: nat, r: Addr, i: int)
    requires Run(cfg, ws, es) && n < |es| && Gets(es[n], r, COMMIT, i) && (forall v :: !Committed(ws[n], r, i, v))
    ensures Committed(ws[n + 1], r, i, es[n].sent.packet.msg.value)
  {
    StepAt(cfg, ws, es, n);
    CommitLearnt(ws[n], es[n], r, i);
  }

  /** The run goes on with this event. */
  lemma Extend(cfg: Config, ws: seq<World>, es: seq<Event>, e: Event) returns (ws': seq<World>, es': seq<Event>)
    requires Run(cfg, ws, es) && Enabled(ws[|es|], e)
    ensures Run(cfg, ws', es') && es' == es + [e] && ws' == ws + [Next(ws[|es|], e)]
  {
    OneMoreStep(cfg, ws, es, e);
    ws', es' := ws + [Next(ws[|es|], e)], es + [e];
  }

  lemma NothingLearnt(w: World, e: Event, r: Addr, i: int)
    requires Enabled(w, e) && e.Deliver? && e.sent.packet.msg.typ in {LEARN, NOP} && r in w.reps
    requires forall v :: !Committed(w, r, i, v)
    ensures forall v :: !Committed(Next(w, e), r, i, v)
  {
    if e.r == r {
      R.StepRoles(w.reps[r], e.sent.packet);
    }
    forall v | Committed(Next(w, e), r, i, v)
      ensures Committed(w, r, i, v)
    {
    }
  }

  /** The gap can always be closed: whenever r misses an instance that it has queued a LEARN for and x has
      committed, three deliveries leave r with the value of x. */
  lemma GapCanBeClosed(cfg: Config, ws: seq<World>, es: seq<Event>, r: Addr, x: Addr, i: int, v: Value)
    returns (ws': seq<World>, es': seq<Event>)
    requires Run(cfg, ws, es) && r in ws[|es|].reps && Sent(R.LearnPacket(r, i), 0) in ws[|es|].net
    requires Committed(ws[|es|], x, i, v) && forall u :: !Committed(ws[|es|], r, i, u)
    ensures Run(cfg, ws', es') && ws <= ws' && |es'| == |es| + 3
    ensures Committed(ws'[|es'|], r, i, v)
  {
    var e1 := Deliver(r, Sent(R.LearnPacket(r, i), 0));
    var ws1, es1 := Extend(cfg, ws, es, e1);
    CoordinatorAsks(ws[|es|], e1, i);
    NothingLearnt(ws[|es|], e1, r, i);
    CommitKept(ws[|es|], e1, x, i, v);
    var e2 := Deliver(x, Sent(Packet(Msg(NOP, 0, "", i), r), 0));
    ws', es' := Answered(cfg, ws1, es1, r, x, i, v, e2);
  }

  lemma Answered(cfg: Config, ws: seq<World>, es: seq<Event>, r: Addr, x: Addr, i: int, v: Value, e: Event)
    returns (ws': seq<World>, es': seq<Event>)
    requires Run(cfg, ws, es) && r in ws[|es|].reps && Enabled(ws[|es|], e) && Gets(e, x, NOP, i)
    requires Committed(ws[|es|], x, i, v) && forall u :: !Committed(ws[|es|], r, i, u)
    ensures Run(cfg, ws', es') && ws <= ws' && |es'| == |es| + 2
    ensures Committed(ws'[|es'|], r, i, v)
  {
    var ws1, es1 := Extend(cfg, ws, es, e);
    NopAnswer(ws[|es|], e, x, i, v);
    NothingLearnt(ws[|es|], e, r, i);
    var b :| Sends(ws1[|es1|].net, x, Msg(COMMIT, b, v, i));
    var e' := Deliver(r, Sent(Packet(Msg(COMMIT, b, v, i), x), 0));
    ws', es' := Extend(cfg, ws1, es1, e');
    CommitLearnt(ws1[|es1|], e', r, i);
  }

  /** r commits the instance with this event. */
  ghost predicate Learns(w: World, w': World, r: Addr, i: int, v: Value) {
    Committed(w', r, i, v) && forall u :: !Committed(w, r, i, u)
  }

  lemma LearnsResult(w: World, e: Event, r: Addr, i: int, v: Value)
    requires Enabled(w, e) && r in w.reps && Learns(w, Next(w, e), r, i, v)
    ensures e.Deliver? && e.r == r && e.sent.packet.msg.instance == i
    ensures e.sent.packet.msg.typ in {ACCEPT_OK, COMMIT} && e.sent.packet.msg.value == v
    ensures L.Step(w.reps[r].l, e.sent.packet).1.learnt == i && L.Step(w.reps[r].l, e.sent.packet).1.value == v
  {
    NotCommitted(w, r, i);
    if e.Deliver? && e.r == r {
      R.StepRoles(w.reps[r], e.sent.packet);
      ReportsCommit(w.reps[r].l, e.sent.packet, i);
    }
  }

  /** In every run a replica that learns an instance from votes tells everybody, stops retrying the value,
      and opens its next instance behind it if it knows of no later one. */
  lemma LearningTells(cfg: Config, ws: seq<World>, es: seq<Event>, n: nat, r: Addr, i: int, v: Value)
    requires WellFormed(cfg) && Run(cfg, ws, es) && n < |es| && r in cfg.pos && r in ws[n].reps
    requires Learns(ws[n], ws[n + 1], r, i, v)
    ensures es[n].Deliver? && (es[n].sent.packet.msg.typ == ACCEPT_OK ==> Tells(ws[n + 1].net, r, i, v))
    ensures r in ws[n + 1].reps && v !in ws[n + 1].reps[r].unsentValues
    ensures i > ws[n].reps[r].highestLearnt ==> ws[n + 1].reps[r].c.instance == i
  {
    RunInv(cfg, ws, es, n + 1);
    StepAt(cfg, ws, es, n);
    CommittedIsChosenAndProposed(cfg, ws, es, n + 1, r, i, v);
    LearnsResult(ws[n], es[n], r, i, v);
    LearnsEffect(ws[n], es[n], r, i, v);
  }

  lemma LearnsEffect(w: World, e: Event, r: Addr, i: int, v: Value)
    requires Enabled(w, e) && e.Deliver? && e.r == r && e.sent.packet.msg.instance == i >= 1
    requires L.Step(w.reps[r].l, e.sent.packet).1.learnt == i && L.Step(w.reps[r].l, e.sent.packet).1.value == v
    ensures e.sent.packet.msg.typ == ACCEPT_OK ==> Tells(Next(w, e).net, r, i, v)
    ensures r in Next(w, e).reps && v !in Next(w, e).reps[r].unsentValues
    ensures i > w.reps[r].highestLearnt ==> Next(w, e).reps[r].c.instance == i
  {
    R.StepParts(w.reps[r], e.sent.packet);
    if e.sent.packet.msg.typ == ACCEPT_OK {
      LearnerSends(w, e, Msg(COMMIT, e.sent.packet.msg.proposal, v, i));
    }
  }
}
