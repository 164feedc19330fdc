/** In-order execution of the log: no gaps, no repetitions, one order for all replicas, and no
    proposal that gets lost. */
module PaxosReplication {
  import opened PaxosMessages
  import opened PaxosSystem
  import opened PaxosInvariants
  import opened PaxosSteps
  import opened PaxosSafety
  import opened PaxosQuorums
  import opened PaxosAgreement
  import opened PaxosExecution
  import Codec
  import L = PaxosLearner
  import R = PaxosReplica

  /** A history of instances from 1..h has no gap exactly when it has h entries. */
  lemma GapFreeIffFull(history: map<int, Value>, h: nat)
    requires forall i :: i in history ==> 1 <= i <= h
    ensures |history| == h <==> NoGap(history, h)
  {
    FullSet(history.Keys, h);
    assert |history| == |history.Keys|;
    if NoGap(history, h) {
      assert history.Keys == Instances(h);
    } else {
      var i :| 1 <= i <= h && i !in history;
      assert i in Instances(h);
    }
  }

  // ---- one replica ----

  /** Execution starts only on a log without gaps, and then runs through all of it. */
  lemma CatchUpExecution(s: R.State)
    requires ExecutionOk(s)
    ensures ExecutionOk(R.CatchUp(s).0)
    ensures s.executed <= R.CatchUp(s).0.executed
    ensures R.CatchUp(s).0.lastCommandExecuted != s.lastCommandExecuted ==> NoGap(L.History(s.l), s.highestLearnt)
  {
    var history := L.History(s.l);
    GapFreeIffFull(history, s.highestLearnt);
    if |history| == s.highestLearnt {
      R.ExecuteRangeFrame(s, history, s.lastCommandExecuted + 1, s.highestLearnt);
      ExecuteRangeIsFirsts(s, history, s.lastCommandExecuted + 1, s.highestLearnt);
      LongerLogExtends(history, s.lastCommandExecuted, s.highestLearnt);
    }
  }

  /** The learnt > 0 branch keeps execution and log in step. */
  lemma LearnedExecution(s: R.State, before: map<int, Value>, learnt: int, value: Value)
    requires learnt > 0 && L.History(s.l) == before[learnt := value]
    requires forall i :: i in before ==> i in L.History(s.l) && L.History(s.l)[i] == before[i]
    requires forall i :: i in before ==> 1 <= i <= s.highestLearnt
    requires s.highestLearnt > 0 ==> s.highestLearnt in before
    requires 0 <= s.lastCommandExecuted <= s.highestLearnt
    requires NoGap(before, s.lastCommandExecuted)
    requires ExecutedUpTo(s, before, s.lastCommandExecuted)
    ensures ExecutionOk(R.Learned(s, learnt, value).0)
    ensures s.executed <= R.Learned(s, learnt, value).0.executed
  {
    var s1 := R.NoteLearnt(s, learnt);
    SameLog(before, L.History(s.l), s.lastCommandExecuted);
    assert ExecutionOk(s1);
    CatchUpExecution(s1);
  }

  /** The part of a step that the execution invariant looks at. */
  lemma StepExecution(s: R.State, p: Packet)
    requires ExecutionOk(s)
    requires p.msg.typ in {ACCEPT_OK, COMMIT} ==> p.msg.instance >= 1
    ensures ExecutionOk(R.Step(s, p).0)
    ensures s.executed <= R.Step(s, p).0.executed
  {
    LearnerHistory(s.l, p);
    var s0 := R.Remember(s, p);
    var s1 := s0.(c := R.C.Step(s0.c, p).0);
    var (l1, r) := L.Step(s1.l, p);
    var s2 := s1.(l := l1);
    if r.learnt > 0 {
      LearnedExecution(s2, L.History(s.l), r.learnt, r.value);
    } else {
      SameLog(L.History(s.l), L.History(l1), s.lastCommandExecuted);
    }
  }

  lemma CatchUpOutcome(s: R.State)
    requires ExecutionOk(s) && s.highestLearnt > 0
    ensures CaughtUpOrAsking(R.CatchUp(s).0, R.CatchUp(s).1)
  {
    var history := L.History(s.l);
    GapFreeIffFull(history, s.highestLearnt);
    if |history| == s.highestLearnt {
      R.ExecuteRangeFrame(s, history, s.lastCommandExecuted + 1, s.highestLearnt);
    } else {
      var i :| 1 <= i <= s.highestLearnt && i !in history;
    }
  }

  lemma LearnedOutcome(s: R.State, learnt: int, value: Value)
    requires ExecutionOk(R.NoteLearnt(s, learnt)) && learnt > 0
    ensures CaughtUpOrAsking(R.Learned(s, learnt, value).0, R.Learned(s, learnt, value).1)
  {
    CatchUpOutcome(R.NoteLearnt(s, learnt));
  }

  lemma StepOutcome(s: R.State, p: Packet)
    requires ExecutionOk(s) && L.Step(s.l, p).1.learnt > 0
    requires p.msg.typ in {ACCEPT_OK, COMMIT} ==> p.msg.instance >= 1
    ensures CaughtUpOrAsking(R.Step(s, p).0, R.Step(s, p).1.queued)
  {
    var s0 := R.Remember(s, p);
    var s1 := s0.(c := R.C.Step(s0.c, p).0);
    NoteExecution(s1, p);
    var r := L.Step(s.l, p).1;
    LearnedOutcome(s1.(l := L.Step(s.l, p).0), r.learnt, r.value);
  }

  // ---- runs ----

  /** In every run, at every replica: committed instances lie in 1..highestLearnt, everything up to
      lastCommandExecuted is committed, and the commands handed to the client are the first
      occurrences in that part of the log. */
  lemma GapFreeExecution(cfg: Config, ws: seq<World>, es: seq<Event>, n: nat, r: Addr)
    requires WellFormed(cfg) && Run(cfg, ws, es) && n <= |es| && r in cfg.pos
    ensures r in ws[n].reps && ExecutionOk(ws[n].reps[r])
  {
    InitInv(cfg);
    assert L.History(Init(cfg).reps[r].l) == map[];
    Executing(cfg, ws, es, 0, n, r, []);
  }

  lemma Executing(cfg: Config, ws: seq<World>, es: seq<Event>, k: nat, n: nat, r: Addr, done: seq<Value>)
    requires WellFormed(cfg) && Run(cfg, ws, es) && k <= n <= |es| && InOrderSince(cfg, ws[k], r, done)
    ensures InOrderSince(cfg, ws[n], r, done)
  {
    forall w, e | Enabled(w, e) && InOrderSince(cfg, w, r, done)
      ensures InOrderSince(cfg, Next(w, e), r, done)
    {
      NextInv(cfg, w, e);
      ExecutionKept(cfg, w, e, r);
    }
    Kept(cfg, ws, es, k, n, w => InOrderSince(cfg, w, r, done), false);
  }

  lemma ExecutionKept(cfg: Config, w: World, e: Event, r: Addr)
    requires Inv(cfg, w) && Enabled(w, e) && r in w.reps && ExecutionOk(w.reps[r])
    ensures ExecutionOk(Next(w, e).reps[r]) && w.reps[r].executed <= Next(w, e).reps[r].executed
  {
    if e.Deliver? && e.r == r {
      InputsOk(cfg, w, e);
      StepExecution(w.reps[r], e.sent.packet);
    }
  }

  /** What a replica has executed is never taken back. */
  lemma ExecutedGrows(cfg: Config, ws: seq<World>, es: seq<Event>, k: nat, n: nat, r: Addr)
    requires WellFormed(cfg) && Run(cfg, ws, es) && k <= n <= |es| && r in cfg.pos
    ensures r in ws[k].reps && r in ws[n].reps && ws[k].reps[r].executed <= ws[n].reps[r].executed
  {
    RunInv(cfg, ws, es, k);
    GapFreeExecution(cfg, ws, es, k, r);
    Executing(cfg, ws, es, k, n, r, ws[k].reps[r].executed);
  }

  /** State machine replication: in every disciplined run of an odd number of replicas, of the
      command sequences any two replicas have executed one is a prefix of the other, and neither
      has a command twice although retries commit values repeatedly. */
  lemma ReplicasExecuteInOneOrder(cfg: Config, ws: seq<World>, es: seq<Event>, n: nat, r: Addr, r': Addr)
    requires WellFormed(cfg) && Run(cfg, ws, es) && Disciplined(ws, es) && n <= |es|
    requires |cfg.pos| % 2 == 1 && cfg.quorum == Quorum(|cfg.pos|)
    requires r in cfg.pos && r' in cfg.pos
    ensures r in ws[n].reps && r' in ws[n].reps
    ensures var x, x' := ws[n].reps[r].executed, ws[n].reps[r'].executed;
            PrefixOrdered(x, x') && PrefixOrdered(Commands(x), Commands(x')) && NoDuplicates(x) && NoDuplicates(x')
  {
    var w := ws[n];
    RunAgreement(cfg, ws, es, n);
    GapFreeExecution(cfg, ws, es, n, r);
    GapFreeExecution(cfg, ws, es, n, r');
    OrdersAgree(cfg, w, r, r');
    ExecutedOnce(w.reps[r]);
    ExecutedOnce(w.reps[r']);
  }

  // ---- different proposals stay different ----

  /** Equal values in the log are retries of one ProposeCommand call: two calls, even with the same
      command, never produce equal values, so duplicate suppression drops retries only. */
  lemma DifferentCallsDifferentValues(cfg: Config, ws: seq<World>, es: seq<Event>, j: nat, k: nat)
    requires WellFormed(cfg) && Run(cfg, ws, es) && j < k < |es| && es[j].Propose? && es[k].Propose?
    ensures es[j].r in ws[j].reps && es[k].r in ws[k].reps && ProposedAt(ws, es, j) != ProposedAt(ws, es, k)
  {
    ProposerKnown(cfg, ws, es, j);
    ProposerKnown(cfg, ws, es, k);
    var r, r' := es[j].r, es[k].r;
    if r == r' {
      CounterGrows(cfg, ws, es, j, k, r);
    }
    Codec.ModifiedInjective(cfg.pos[r], ws[j].reps[r].proposeCounter, es[j].command,
                            cfg.pos[r'], ws[k].reps[r'].proposeCounter, es[k].command);
  }

  // ---- no proposal is lost ----

  /** A proposal a replica has taken in is kept for retry until it is in the replica's own log. */
  lemma NoProposalLost(cfg: Config, ws: seq<World>, es: seq<Event>, n: nat, r: Addr, v: Value)
    requires Run(cfg, ws, es) && n <= |es| && (r, v) in ws[n].handled
    ensures NotLost(ws[n], r, v)
  {
    forall w: World, e | Enabled(w, e) && ((r, v) in w.handled ==> NotLost(w, r, v)) && (r, v) in Next(w, e).handled
      ensures NotLost(Next(w, e), r, v)
    {
      if (r, v) in w.handled {
        NotLostKept(w, e, r, v);
      } else {
        JustHandled(w, e);
      }
    }
    Kept(cfg, ws, es, 0, n, (w: World) => (r, v) in w.handled ==> NotLost(w, r, v), false);
  }

  // ---- what keeps the cluster going ----

  /** In every run, a replica that learns an instance has then executed everything it knows of, or
      asks for every instance it misses below the highest one. */
  lemma LearningCatchesUp(cfg: Config, ws: seq<World>, es: seq<Event>, n: nat, r: Addr, sent: Sent)
    requires WellFormed(cfg) && Run(cfg, ws, es) && n < |es| && es[n] == Deliver(r, sent) && r in cfg.pos
    requires r in ws[n].reps && L.Step(ws[n].reps[r].l, sent.packet).1.learnt > 0
    ensures r in ws[n + 1].reps
    ensures CaughtUpOrAsking(ws[n + 1].reps[r], R.Step(ws[n].reps[r], sent.packet).1.queued)
  {
    RunInv(cfg, ws, es, n);
    GapFreeExecution(cfg, ws, es, n, r);
    StepAt(cfg, ws, es, n);
    InputsOk(cfg, ws[n], es[n]);
    StepOutcome(ws[n].reps[r], sent.packet);
  }

  /** In every run, an epoch at a replica proposes again every value it has taken in that is not in
      its own log. */
  lemma EpochRetries(cfg: Config, ws: seq<World>, es: seq<Event>, n: nat, r: Addr, v: Value, sent: Sent)
    requires WellFormed(cfg) && Run(cfg, ws, es) && n < |es| && es[n] == Deliver(r, sent)
    requires sent.packet.msg.typ == EPOCH && (r, v) in ws[n].handled && forall i :: !Committed(ws[n], r, i, v)
    ensures r in ws[n].reps
    ensures exists q :: q in R.Step(ws[n].reps[r], sent.packet).1.queued && q.msg.typ == PROPOSE && q.msg.value == v
  {
    NoProposalLost(cfg, ws, es, n, r, v);
    RunInv(cfg, ws, es, n);
    var s := ws[n].reps[r];
    assert ReplicaOk(cfg, r, s, ws[n].net, ws[n].proposed);
    var q := s.unsentValues[v];
    assert q in R.Retried(s, sent.packet);
  }
}
