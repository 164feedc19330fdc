/** What a replica has executed is determined by its log. The execution loop and the duplicate check
    together produce the first occurrences of the values in the part of the log that has no gap; a
    learner's report changes the log by one instance; and two logs that agree where both are defined
    give lists of which one extends the other. */
module PaxosExecution {
  import opened Options
  import opened PaxosMessages
  import opened PaxosSystem
  import opened PaxosInvariants
  import opened PaxosSafety
  import opened PaxosPromises
  import Codec
  import L = PaxosLearner
  import R = PaxosReplica

  /** Every element once, in the order of first occurrence. */
  function Firsts<T(==,!new)>(s: seq<T>): (r: seq<T>)
    ensures forall x :: x in r <==> x in s
  {
    if s == [] then []
    else
      var k := |s| - 1;
      var r := Firsts(s[..k]);
      assert s == s[..k] + [s[k]];
      if s[k] in r then r else r + [s[k]]
  }

  ghost predicate NoDuplicates<T>(s: seq<T>) {
    forall i, j :: 0 <= i < j < |s| ==> s[i] != s[j]
  }

  lemma {:induction false} FirstsHaveNoDuplicates<T(!new)>(s: seq<T>)
    ensures NoDuplicates(Firsts(s))
  {
    if s != [] {
      FirstsHaveNoDuplicates(s[..|s| - 1]);
    }
  }

  lemma {:induction false} FirstsOfPrefix<T(!new)>(s: seq<T>, k: nat)
    requires k <= |s|
    ensures Firsts(s[..k]) <= Firsts(s)
    decreases |s|
  {
    if k < |s| {
      assert s[..|s| - 1][..k] == s[..k];
      FirstsOfPrefix(s[..|s| - 1], k);
    } else {
      assert s[..k] == s;
    }
  }

  /** Log entries 1..k, read the way the execution loop reads them. */
  function Log(history: map<int, Value>, k: nat): seq<Value> {
    seq(k, j => R.At(history, j + 1))
  }

  /** The instances 1..h. */
  function Instances(h: nat): (r: set<int>)
    ensures |r| == h && forall i :: i in r <==> 1 <= i <= h
  {
    if h == 0 then {} else Instances(h - 1) + {h}
  }

  ghost predicate NoGap(history: map<int, Value>, h: int) {
    forall i :: 1 <= i <= h ==> i in history
  }

  lemma SameSize<T>(a: set<T>, b: set<T>)
    requires a <= b && |a| == |b|
    ensures a == b
  {
    assert |b - a| == |b| - |a|;
  }

  lemma FullSet(s: set<int>, h: nat)
    requires forall i :: i in s ==> 1 <= i <= h
    ensures |s| == h <==> s == Instances(h)
  {
    var all := Instances(h);
    assert s <= all;
    if |s| == h {
      SameSize(s, all);
    }
  }

  // ---- one replica ----

  ghost predicate ExecutionOk(s: R.State) {
    var history := L.History(s.l);
    && (forall i :: i in history ==> 1 <= i <= s.highestLearnt)
    && (s.highestLearnt > 0 ==> s.highestLearnt in history)
    && 0 <= s.lastCommandExecuted <= s.highestLearnt
    && NoGap(history, s.lastCommandExecuted)
    && ExecutedUpTo(s, history, s.lastCommandExecuted)
  }

  function Elements<T>(s: seq<T>): set<T> {
    set x | x in s
  }

  /** The commands handed over are the first occurrences in log entries 1..k. */
  ghost predicate ExecutedUpTo(s: R.State, history: map<int, Value>, k: nat) {
    s.executed == Firsts(Log(history, k)) && s.executeHistory == Elements(s.executed)
  }

  lemma LogOneMore(history: map<int, Value>, k: nat)
    requires k > 0
    ensures Log(history, k) == Log(history, k - 1) + [R.At(history, k)]
  {
  }

  lemma ExecuteOne(s: R.State, history: map<int, Value>, k: nat)
    requires k > 0 && ExecutedUpTo(s, history, k - 1)
    ensures ExecutedUpTo(R.Execute(s, R.At(history, k)), history, k)
  {
    var v := R.At(history, k);
    LogOneMore(history, k);
  }

  /** Executing one more log entry extends the list of first occurrences by it. */
  lemma {:induction false} ExecuteRangeIsFirsts(s: R.State, history: map<int, Value>, first: int, last: nat)
    requires 1 <= first <= last + 1
    requires ExecutedUpTo(s, history, first - 1)
    ensures ExecutedUpTo(R.ExecuteRange(s, history, first, last), history, last)
    decreases last - first
  {
    if first <= last {
      ExecuteOne(s, history, first);
      ExecuteRangeIsFirsts(R.Execute(s, R.At(history, first)), history, first + 1, last);
    }
  }

  /** The learner keeps what is committed, adds at most the learnt instance, and reports it. */
  lemma LearnerHistory(l: L.State, p: Packet)
    requires p.msg.typ in {ACCEPT_OK, COMMIT} ==> p.msg.instance >= 1
    ensures var (t, r) := L.Step(l, p);
            && (r.learnt > 0 ==> r.learnt !in L.History(l) && L.History(t) == L.History(l)[r.learnt := r.value])
            && (r.learnt <= 0 ==> L.History(t) == L.History(l))
  {
    var i := p.msg.instance;
    var e := L.Get(l, i);
    if e.commit {
      assert L.Step(l, p).0.proto == l.proto;
    }
  }

  lemma SameLog(history: map<int, Value>, history': map<int, Value>, k: nat)
    requires forall i :: i in history ==> i in history' && history'[i] == history[i]
    requires NoGap(history, k)
    ensures Log(history', k) == Log(history, k)
  {
  }

  lemma LongerLogExtends(history: map<int, Value>, k: nat, n: nat)
    requires k <= n
    ensures Firsts(Log(history, k)) <= Firsts(Log(history, n))
  {
    FirstsOfPrefix(Log(history, n), k);
    assert Log(history, n)[..k] == Log(history, k);
  }

  /** A replica that has just learnt something is up to date, or asks for all that it misses. */
  ghost predicate CaughtUpOrAsking(s: R.State, queued: set<Packet>) {
    var history := L.History(s.l);
    if NoGap(history, s.highestLearnt) then s.lastCommandExecuted == s.highestLearnt
    else
      && (exists i :: 1 <= i < s.highestLearnt && i !in history)
      && forall i :: 1 <= i < s.highestLearnt && i !in history ==> R.LearnPacket(s.self, i) in queued
  }

  lemma NoteExecution(s: R.State, p: Packet)
    requires ExecutionOk(s) && L.Step(s.l, p).1.learnt > 0
    requires p.msg.typ in {ACCEPT_OK, COMMIT} ==> p.msg.instance >= 1
    ensures var s1 := s.(l := L.Step(s.l, p).0);
            ExecutionOk(R.NoteLearnt(s1, L.Step(s.l, p).1.learnt))
  {
    LearnerHistory(s.l, p);
    SameLog(L.History(s.l), L.History(L.Step(s.l, p).0), s.lastCommandExecuted);
  }

  // ---- runs ----

  /** Execution is in order, and has handed over at least `done`. */
  ghost predicate InOrderSince(cfg: Config, w: World, r: Addr, done: seq<Value>) {
    Inv(cfg, w) && r in w.reps && ExecutionOk(w.reps[r]) && done <= w.reps[r].executed
  }

  /** The commands the client sees, with the tags removed. */
  function Commands(values: seq<Value>): seq<Option<string>> {
    seq(|values|, k requires 0 <= k < |values| => Codec.FromModifiedValue(values[k]))
  }

  ghost predicate PrefixOrdered<T>(a: seq<T>, b: seq<T>) {
    a <= b || b <= a
  }

  lemma SameEntry(cfg: Config, w: World, r: Addr, r': Addr, i: int)
    requires AgreementInv(cfg, w) && r in w.reps && r' in w.reps
    requires i in L.History(w.reps[r].l) && i in L.History(w.reps[r'].l)
    ensures L.History(w.reps[r].l)[i] == L.History(w.reps[r'].l)[i]
  {
    OneCommittedValue(cfg, w, r, r', i, L.History(w.reps[r].l)[i], L.History(w.reps[r'].l)[i]);
  }

  lemma EqualLogs(h: map<int, Value>, h': map<int, Value>, k: nat)
    requires NoGap(h, k) && NoGap(h', k)
    requires forall i :: i in h && i in h' ==> h[i] == h'[i]
    ensures Log(h, k) == Log(h', k)
  {
    forall j | 0 <= j < k
      ensures Log(h, k)[j] == Log(h', k)[j]
    {
      assert j + 1 in h && j + 1 in h';
    }
  }

  lemma LogsAgree(cfg: Config, w: World, r: Addr, r': Addr, k: nat)
    requires AgreementInv(cfg, w) && r in w.reps && r' in w.reps
    requires NoGap(L.History(w.reps[r].l), k) && NoGap(L.History(w.reps[r'].l), k)
    ensures Log(L.History(w.reps[r].l), k) == Log(L.History(w.reps[r'].l), k)
  {
    var h, h' := L.History(w.reps[r].l), L.History(w.reps[r'].l);
    forall i | i in h && i in h'
      ensures h[i] == h'[i]
    {
      SameEntry(cfg, w, r, r', i);
    }
    EqualLogs(h, h', k);
  }

  lemma ShorterFirst(cfg: Config, w: World, r: Addr, r': Addr)
    requires AgreementInv(cfg, w) && r in w.reps && r' in w.reps
    requires ExecutionOk(w.reps[r]) && ExecutionOk(w.reps[r'])
    requires w.reps[r].lastCommandExecuted <= w.reps[r'].lastCommandExecuted
    ensures w.reps[r].executed <= w.reps[r'].executed
  {
    var s, s' := w.reps[r], w.reps[r'];
    LogsAgree(cfg, w, r, r', s.lastCommandExecuted);
    LongerLogExtends(L.History(s'.l), s.lastCommandExecuted, s'.lastCommandExecuted);
  }

  lemma OrdersAgree(cfg: Config, w: World, r: Addr, r': Addr)
    requires AgreementInv(cfg, w) && r in w.reps && r' in w.reps
    requires ExecutionOk(w.reps[r]) && ExecutionOk(w.reps[r'])
    ensures PrefixOrdered(w.reps[r].executed, w.reps[r'].executed)
  {
    if w.reps[r].lastCommandExecuted <= w.reps[r'].lastCommandExecuted {
      ShorterFirst(cfg, w, r, r');
    } else {
      ShorterFirst(cfg, w, r', r);
    }
  }

  lemma ExecutedOnce(s: R.State)
    requires ExecutionOk(s)
    ensures NoDuplicates(s.executed)
  {
    FirstsHaveNoDuplicates(Log(L.History(s.l), s.lastCommandExecuted));
  }

  // ---- different proposals stay different ----

  lemma RunHasReplica(cfg: Config, ws: seq<World>, es: seq<Event>, n: nat, r: Addr)
    requires WellFormed(cfg) && Run(cfg, ws, es) && n <= |es| && r in cfg.pos
    ensures r in ws[n].reps && ws[n].reps[r].nodepos == cfg.pos[r]
  {
    RunInv(cfg, ws, es, n);
    assert ReplicaOk(cfg, r, ws[n].reps[r], ws[n].net, ws[n].proposed);
  }

  lemma CounterStep(w: World, e: Event, r: Addr)
    requires Enabled(w, e) && r in w.reps
    ensures Next(w, e).reps[r].proposeCounter ==
            w.reps[r].proposeCounter + (if e.Propose? && e.r == r then 1 else 0)
  {
    if e.Deliver? && e.r == r {
      R.StepParts(w.reps[r], e.sent.packet);
    }
  }

  /** The tagged value the ProposeCommand call at position k of a run puts into circulation. */
  ghost function ProposedAt(ws: seq<World>, es: seq<Event>, k: nat): Value
    requires k < |es| && k < |ws| && es[k].Propose? && es[k].r in ws[k].reps
  {
    R.Proposal(ws[k].reps[es[k].r], es[k].command).msg.value
  }

  lemma CounterAt(cfg: Config, ws: seq<World>, es: seq<Event>, m: nat, r: Addr)
    requires WellFormed(cfg) && Run(cfg, ws, es) && m < |es| && r in cfg.pos
    ensures r in ws[m].reps && r in ws[m + 1].reps
    ensures ws[m + 1].reps[r].proposeCounter ==
            ws[m].reps[r].proposeCounter + (if es[m].Propose? && es[m].r == r then 1 else 0)
  {
    RunHasReplica(cfg, ws, es, m, r);
    StepAt(cfg, ws, es, m);
    CounterStep(ws[m], es[m], r);
  }

  lemma {:induction false} CounterGrows(cfg: Config, ws: seq<World>, es: seq<Event>, k: nat, n: nat, r: Addr)
    requires WellFormed(cfg) && Run(cfg, ws, es) && k < n <= |es|
    requires es[k].Propose? && es[k].r == r && r in cfg.pos
    ensures r in ws[k].reps && r in ws[n].reps && ws[k].reps[r].proposeCounter < ws[n].reps[r].proposeCounter
    decreases n
  {
    CounterAt(cfg, ws, es, n - 1, r);
    if k < n - 1 {
      CounterGrows(cfg, ws, es, k, n - 1, r);
    }
  }

  lemma ProposerKnown(cfg: Config, ws: seq<World>, es: seq<Event>, k: nat)
    requires WellFormed(cfg) && Run(cfg, ws, es) && k < |es| && es[k].Propose?
    ensures es[k].r in cfg.pos && es[k].r in ws[k].reps && ws[k].reps[es[k].r].nodepos == cfg.pos[es[k].r]
  {
    RunInv(cfg, ws, es, k);
    StepAt(cfg, ws, es, k);
    RunHasReplica(cfg, ws, es, k, es[k].r);
  }

  // ---- no proposal is lost ----

  /** Still waiting to be retried, or committed in the replica's own log. */
  ghost predicate NotLost(w: World, r: Addr, v: Value) {
    r in w.reps && (v in w.reps[r].unsentValues || exists i :: Committed(w, r, i, v))
  }

  lemma LearntIsCommitted(l: L.State, p: Packet)
    ensures var (t, r) := L.Step(l, p);
            r.learnt > 0 ==> r.learnt in t.proto && t.proto[r.learnt].commit && t.proto[r.learnt].value == r.value
  {
  }

  lemma NotLostKept(w: World, e: Event, r: Addr, v: Value)
    requires Enabled(w, e) && NotLost(w, r, v)
    ensures NotLost(Next(w, e), r, v)
  {
    var w' := Next(w, e);
    if i :| Committed(w, r, i, v) {
      CommitKept(w, e, r, i, v);
    } else if e.Deliver? && e.r == r {
      R.StepParts(w.reps[r], e.sent.packet);
      LearntIsCommitted(w.reps[r].l, e.sent.packet);
      if v !in w'.reps[r].unsentValues {
        assert Committed(w', r, L.Step(w.reps[r].l, e.sent.packet).1.learnt, v);
      }
    }
  }

  lemma JustHandled(w: World, e: Event)
    requires Enabled(w, e) && e.Deliver? && e.sent.packet.msg.typ == PROPOSE
    ensures NotLost(Next(w, e), e.r, e.sent.packet.msg.value)
  {
    var v := e.sent.packet.msg.value;
    R.StepParts(w.reps[e.r], e.sent.packet);
    LearntIsCommitted(w.reps[e.r].l, e.sent.packet);
    assert v in R.Remember(w.reps[e.r], e.sent.packet).unsentValues;
  }
}
