/** How long a deferred write waits: exactly until every lease that was out on its key is taken back. */
module StorageDrain {
  import opened StorageServer
  import opened StorageRuns
  import opened StorageConsistency
  import opened StorageRefinement

  /** The event ends a lease on the key. */
  predicate Takes(w: World, e: Event, k: string) {
    match e
    case Arrive(call) => call.RevokeLease? && call.key == k && call.client in Holders(w.s, k)
    case TimeOut(_) => false
    case Deliver(t) => t in w.timers && w.timers[t].key == k
  }

  /** How many leases on the key end from event `i` up to event `j`. */
  ghost function Taken(ws: seq<World>, es: seq<Event>, i: nat, j: nat, k: string): nat
    requires Run(ws, es) && i <= j <= |es|
    decreases j
  {
    if i == j then 0
    else Taken(ws, es, i, j - 1, k) + if Takes(ws[j - 1], es[j - 1], k) then 1 else 0
  }

  ghost predicate Answered(w: World, q: seq<Deferred>) {
    forall n :: 0 <= n < |q| ==> q[n].id in Ids(w)
  }

  lemma FlushAnswers(w: World, call: Call)
    ensures Answered(Receive(w, call), Flushed(w.s, call))
  {
    IdsAfter(w, call);
    var f := Flushed(w.s, call);
    forall n | 0 <= n < |f|
      ensures f[n].id in Ids(Receive(w, call))
    {
      assert QueueIds(f)[n] == f[n].id;
    }
  }

  predicate TakesCall(s: State, call: Call, k: string) {
    (call.RevokeLease? || call.Expired?) && call.key == k && call.client in Holders(s, k)
  }

  /** While a key is banned, a request shrinks its leases by the one it takes, and nothing else. */
  lemma BannedLeases(s: State, r: Request, k: string)
    requires k in s.bans
    ensures |Holders(Step(s, r).0, k)| == |Holders(s, k)| - (if TakesCall(s, r.call, k) then 1 else 0)
    ensures Holders(Step(s, r).0, k).Keys <= Holders(s, k).Keys
  {
    HoldersAfter(s, r, k);
    var h := Holders(s, k);
    if !r.call.Data? && !r.call.PutLease? && r.call.key == k {
      var left := h - {r.call.client};
      assert left.Keys == h.Keys - {r.call.client};
      if r.call.client !in h {
        assert left == h;
      }
    }
  }

  lemma LastIsOnly(h: map<Client, TimerId>, c: Client)
    requires c in h
    ensures h - {c} == map[] <==> |h| == 1
  {
    assert (h - {c}).Keys == h.Keys - {c};
    if |h| == 1 {
      assert |(h - {c}).Keys| == 0;
    }
  }

  /** The queue of a banned key only grows, until the last lease is taken and all of it is answered. */
  lemma BannedQueue(w: World, call: Call, k: string)
    requires QueuesOk(w.s) && k in w.s.bans
    requires call.Expired? ==> call.client in Holders(w.s, call.key)
    ensures var w' := Receive(w, call);
            if TakesCall(w.s, call, k) && |Holders(w.s, k)| == 1 then Answered(w', Queue(w.s, k))
            else Queue(w.s, k) <= Queue(w'.s, k)
  {
    QueueShape(w.s, Request(call, |w.arrived|), k);
    FlushAnswers(w, call);
    if TakesCall(w.s, call, k) {
      LastIsOnly(Holders(w.s, k), call.client);
    }
  }

  lemma BannedStep(w: World, e: Event, k: string)
    requires QueuesOk(w.s) && TimersOk(w) && Enabled(w, e) && k in w.s.bans
    ensures var w' := Next(w, e); var n := if Takes(w, e, k) then 1 else 0;
            && |Holders(w'.s, k)| == |Holders(w.s, k)| - n
            && if |Holders(w.s, k)| == n then Answered(w', Queue(w.s, k)) else Queue(w.s, k) <= Queue(w'.s, k)
  {
    assert KeyOk(w.s, k) && |Holders(w.s, k)| > 0;
    match e
    case Arrive(call) =>
      BannedLeases(w.s, Request(call, |w.arrived|), k);
      BannedQueue(w, call, k);
    case TimeOut(_) =>
    case Deliver(t) =>
      assert TimerLeased(w, t);
      BannedLeases(w.s, Request(Expiry(w, t), |w.arrived|), k);
      BannedQueue(w.(timers := SetPhase(w.timers, t, Done)), Expiry(w, t), k);
  }

  lemma AnsweredStays(ws: seq<World>, es: seq<Event>, i: nat, j: nat, q: seq<Deferred>)
    requires Run(ws, es) && i <= j <= |es| && Answered(ws[i], q)
    ensures Answered(ws[j], q)
  {
    AnswersKept(ws, es, i, j);
    forall n | 0 <= n < |q|
      ensures q[n].id in Ids(ws[j])
    {
      assert q[n].id in Ids(ws[i]);
      var x :| 0 <= x < |Ids(ws[i])| && Ids(ws[i])[x] == q[n].id;
      assert Ids(ws[j])[x] == q[n].id;
    }
  }

  /** Where the writes that waited in `w0` stand in `w`, after `n` leases on the key have ended. */
  ghost predicate Progress(w0: World, w: World, k: string, n: nat) {
    var q, h := Queue(w0.s, k), |Holders(w0.s, k)|;
    if n >= h then Answered(w, q)
    else q <= Queue(w.s, k) && |Holders(w.s, k)| == h - n
  }

  lemma MoreProgress(w0: World, w: World, e: Event, k: string, n: nat)
    requires QueuesOk(w.s) && TimersOk(w) && Enabled(w, e)
    requires Queue(w0.s, k) != [] && Progress(w0, w, k, n) && n < |Holders(w0.s, k)|
    ensures Progress(w0, Next(w, e), k, n + if Takes(w, e, k) then 1 else 0)
  {
    assert KeyOk(w.s, k);
    BannedStep(w, e, k);
  }

  lemma NextProgress(ws: seq<World>, es: seq<Event>, w0: World, j: nat, k: string, n: nat)
    requires Run(ws, es) && j < |es|
    requires Queue(w0.s, k) != [] && Progress(w0, ws[j], k, n) && n < |Holders(w0.s, k)|
    ensures Progress(w0, ws[j + 1], k, n + if Takes(ws[j], es[j], k) then 1 else 0)
  {
    RunQueues(ws, es, j);
    TimerPerLease(ws, es, j);
    StepAt(ws, es, j);
    MoreProgress(w0, ws[j], es[j], k, n);
  }

  lemma NoProgressYet(w: World, k: string)
    requires QueuesOk(w.s) && Queue(w.s, k) != []
    ensures Progress(w, w, k, 0)
  {
    assert KeyOk(w.s, k);
  }

  lemma ProgressStep(ws: seq<World>, es: seq<Event>, w0: World, j: nat, k: string, n: nat)
    requires Run(ws, es) && j < |es| && Queue(w0.s, k) != []
    requires Progress(w0, ws[j], k, n)
    ensures Progress(w0, ws[j + 1], k, n + if Takes(ws[j], es[j], k) then 1 else 0)
  {
    if n >= |Holders(w0.s, k)| {
      AnsweredStays(ws, es, j, j + 1, Queue(w0.s, k));
    } else {
      NextProgress(ws, es, w0, j, k, n);
    }
  }

  lemma {:induction false} DrainProgress(ws: seq<World>, es: seq<Event>, i: nat, j: nat, k: string) returns (n: nat)
    requires Run(ws, es) && i <= j <= |es| && Queue(ws[i].s, k) != []
    ensures n == Taken(ws, es, i, j, k) && Progress(ws[i], ws[j], k, n)
    decreases j
  {
    if i == j {
      RunQueues(ws, es, i);
      NoProgressYet(ws[i], k);
      n := 0;
    } else {
      var m := DrainProgress(ws, es, i, j - 1, k);
      n := m + if Takes(ws[j - 1], es[j - 1], k) then 1 else 0;
      ProgressStep(ws, es, ws[i], j - 1, k, m);
    }
  }

  /** A write waiting on a key is answered as soon as, and no sooner than, as many leases on the key
      have ended as were out: no new lease can delay it. */
  lemma DeferredWritesDrain(ws: seq<World>, es: seq<Event>, i: nat, j: nat, k: string, n: nat)
    requires Run(ws, es) && i <= j <= |es| && n < |Queue(ws[i].s, k)|
    ensures Queue(ws[i].s, k)[n].id in Ids(ws[j]) <==> Taken(ws, es, i, j, k) >= |Holders(ws[i].s, k)|
  {
    var taken := DrainProgress(ws, es, i, j, k);
    RunConsistent(ws, es, j);
    var q' := Queue(ws[j].s, k);
    if Taken(ws, es, i, j, k) < |Holders(ws[i].s, k)| {
      assert QueueIdsOk(ws[j], k);
      assert EntryOk(ws[j], q'[n]);
    }
  }
}
