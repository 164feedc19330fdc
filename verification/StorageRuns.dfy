/** The storage server with its lease timers: every run of requests, timeouts and expiries. */
module StorageRuns {
  import opened Options
  import opened SimpleStore
  import opened StorageServer

  /** A timer sleeps, then offers its expiry request; it ends when the request is taken or when it is
      told to stop. */
  datatype Phase = Waiting | Offering | Done

  datatype Timer = Timer(key: string, client: Client, phase: Phase)

  /** `arrived[id]` is the request with reply channel `id`; `answers` are all replies in order;
      `passed` are the writes that the pre-check did not answer. The loop is `stuck` when it signals
      a timer that no longer listens. */
  datatype World = World(s: State, timers: map<TimerId, Timer>, stuck: bool,
                         arrived: seq<Call>, answers: seq<Answer>, passed: set<nat>)

  const INIT: World := World(START, map[], false, [], [], {})

  datatype Event =
    | Arrive(call: Call)
    | TimeOut(t: TimerId)
    | Deliver(t: TimerId)

  predicate Live(w: World, t: TimerId) {
    t in w.timers && w.timers[t].phase != Done
  }

  predicate Enabled(w: World, e: Event) {
    match e
    case Arrive(call) => !w.stuck && !call.Expired?
    case TimeOut(t) => t in w.timers && w.timers[t].phase == Waiting
    case Deliver(t) => !w.stuck && t in w.timers && w.timers[t].phase == Offering
  }

  function SetPhase(timers: map<TimerId, Timer>, t: TimerId, p: Phase): map<TimerId, Timer>
    requires t in timers
  {
    timers[t := timers[t].(phase := p)]
  }

  function Stop(w: World, cancelled: Option<TimerId>): World {
    if cancelled.None? then w
    else if Live(w, cancelled.value) then w.(timers := SetPhase(w.timers, cancelled.value, Done))
    else w.(stuck := true)
  }

  function Begin(w: World, call: Call, started: Option<TimerId>): World {
    if started.Some? && call.PutLease?
    then w.(timers := w.timers[started.value := Timer(call.key, call.client, Waiting)])
    else w
  }

  predicate Passes(s: State, call: Call) {
    call.Data? && IsWrite(call.op) && PreCheck(s.cache, call.op).None?
  }

  function Receive(w: World, call: Call): World {
    var id := |w.arrived|;
    var (s, o) := Step(w.s, Request(call, id));
    var w1 := Begin(Stop(w, o.cancelled), call, o.started);
    World(s, w1.timers, w1.stuck, w.arrived + [call], w.answers + o.answers,
          if Passes(w.s, call) then w.passed + {id} else w.passed)
  }

  /** The request a timer offers. */
  function Expiry(w: World, t: TimerId): Call
    requires t in w.timers
  {
    Expired(w.timers[t].key, w.timers[t].client)
  }

  function Next(w: World, e: Event): World
    requires Enabled(w, e)
  {
    match e
    case Arrive(call) => Receive(w, call)
    case TimeOut(t) => w.(timers := SetPhase(w.timers, t, Offering))
    case Deliver(t) => Receive(w.(timers := SetPhase(w.timers, t, Done)), Expiry(w, t))
  }

  /** The worlds of a run, one before each event and one at the end. */
  ghost predicate Run(ws: seq<World>, es: seq<Event>) {
    && |ws| == |es| + 1 && ws[0] == INIT
    && forall m :: 0 <= m < |es| ==> StepOk(ws, es, m)
  }

  ghost predicate StepOk(ws: seq<World>, es: seq<Event>, m: nat)
    requires |ws| == |es| + 1 && m < |es|
  {
    Enabled(ws[m], es[m]) && ws[m + 1] == Next(ws[m], es[m])
  }

  lemma StepAt(ws: seq<World>, es: seq<Event>, m: nat)
    requires Run(ws, es) && m < |es|
    ensures Enabled(ws[m], es[m]) && ws[m + 1] == Next(ws[m], es[m])
  {
    assert StepOk(ws, es, m);
  }

  // ---- queues, bans and leases ----

  /** A ban counts the deferred writes of its key, which all wait for a lease on it to end. */
  ghost predicate KeyOk(s: State, k: string) {
    && (k in s.bans <==> Queue(s, k) != [])
    && (k in s.bans ==> s.bans[k] == |Queue(s, k)| && k in s.leases)
    && (k in s.leases ==> s.leases[k] != map[])
  }

  ghost predicate QueuesOk(s: State) {
    && (forall k :: KeyOk(s, k))
    && (forall k, i :: 0 <= i < |Queue(s, k)| ==> Queue(s, k)[i].op.key == k)
  }

  /** What a step does to the key it is about; every other key keeps lease, ban and queue. */
  predicate SameKey(s: State, s': State, k: string) {
    && Queue(s', k) == Queue(s, k)
    && (k in s'.bans <==> k in s.bans) && (k in s.bans ==> s'.bans[k] == s.bans[k])
    && (k in s'.leases <==> k in s.leases) && (k in s.leases ==> s'.leases[k] == s.leases[k])
  }

  function KeyOf(call: Call): string {
    if call.Data? then call.op.key else call.key
  }

  lemma ReleaseOther(s: State, key: string, client: Client, k: string)
    requires key in s.leases && k != key
    ensures SameKey(s, Release(s, key, client).0, k)
  {
  }

  lemma OtherKeys(s: State, r: Request, k: string)
    requires k != KeyOf(r.call)
    ensures SameKey(s, Step(s, r).0, k)
  {
    match r.call
    case Data(op) =>
    case PutLease(key, client) =>
    case RevokeLease(key, client) =>
      if client in Holders(s, key) {
        ReleaseOther(s, key, client, k);
      }
    case Expired(key, client) =>
      if key in s.leases {
        ReleaseOther(s, key, client, k);
      }
  }

  lemma ReleaseOwn(s: State, key: string, client: Client)
    requires key in s.leases && KeyOk(s, key)
    ensures KeyOk(Release(s, key, client).0, key)
  {
  }

  lemma OwnKey(s: State, r: Request)
    requires KeyOk(s, KeyOf(r.call))
    ensures KeyOk(Step(s, r).0, KeyOf(r.call))
  {
    match r.call
    case Data(op) =>
    case PutLease(key, client) =>
    case RevokeLease(key, client) =>
      if client in Holders(s, key) {
        ReleaseOwn(s, key, client);
      }
    case Expired(key, client) =>
      if key in s.leases {
        ReleaseOwn(s, key, client);
      }
  }

  lemma QueuesKept(s: State, r: Request)
    requires QueuesOk(s)
    ensures QueuesOk(Step(s, r).0)
  {
    var s' := Step(s, r).0;
    OwnKey(s, r);
    forall k
      ensures KeyOk(s', k)
    {
      if k != KeyOf(r.call) {
        OtherKeys(s, r, k);
        assert KeyOk(s, k);
      }
    }
    forall k, i | 0 <= i < |Queue(s', k)|
      ensures Queue(s', k)[i].op.key == k
    {
      if k != KeyOf(r.call) {
        OtherKeys(s, r, k);
      }
    }
  }

  lemma NextQueues(w: World, e: Event)
    requires QueuesOk(w.s) && Enabled(w, e)
    ensures QueuesOk(Next(w, e).s)
  {
    match e
    case Arrive(call) => QueuesKept(w.s, Request(call, |w.arrived|));
    case TimeOut(_) =>
    case Deliver(t) => QueuesKept(w.s, Request(Expiry(w, t), |w.arrived|));
  }

  lemma {:induction false} RunQueues(ws: seq<World>, es: seq<Event>, i: nat)
    requires Run(ws, es) && i <= |es|
    ensures QueuesOk(ws[i].s)
  {
    if i > 0 {
      RunQueues(ws, es, i - 1);
      StepAt(ws, es, i - 1);
      NextQueues(ws[i - 1], es[i - 1]);
    }
  }

  // ---- timers ----

  ghost predicate LeaseTimed(w: World, k: string, c: Client)
    requires c in Holders(w.s, k)
  {
    var t := Holders(w.s, k)[c];
    Live(w, t) && w.timers[t].key == k && w.timers[t].client == c
  }

  ghost predicate TimerLeased(w: World, t: TimerId)
    requires t in w.timers
  {
    var h := Holders(w.s, w.timers[t].key);
    w.timers[t].client in h && h[w.timers[t].client] == t
  }

  /** Leases and live timers correspond one to one. */
  ghost predicate TimersOk(w: World) {
    && !w.stuck
    && (forall t :: t in w.timers ==> t < w.s.nextTimer)
    && (forall k, c :: c in Holders(w.s, k) ==> LeaseTimed(w, k, c))
    && (forall t :: Live(w, t) ==> TimerLeased(w, t))
  }

  function HoldersOf(s: State, call: Call, k: string): map<Client, TimerId> {
    var h := Holders(s, k);
    match call
    case Data(_) => h
    case PutLease(key, client) => if k == key && key !in s.bans then h[client := s.nextTimer] else h
    case RevokeLease(key, client) => if k == key then h - {client} else h
    case Expired(key, client) => if k == key then h - {client} else h
  }

  lemma ReleaseHolders(s: State, key: string, client: Client, k: string)
    requires key in s.leases
    ensures Holders(Release(s, key, client).0, k) == if k == key then Holders(s, k) - {client} else Holders(s, k)
  {
  }

  /** The leases after a request. */
  lemma HoldersAfter(s: State, r: Request, k: string)
    ensures Holders(Step(s, r).0, k) == HoldersOf(s, r.call, k)
  {
    match r.call
    case Data(op) =>
    case PutLease(key, client) =>
    case RevokeLease(key, client) =>
      if client in Holders(s, key) {
        ReleaseHolders(s, key, client, k);
      }
    case Expired(key, client) =>
      if key in s.leases {
        ReleaseHolders(s, key, client, k);
      }
  }

  lemma SignalsOf(s: State, r: Request)
    ensures var (s', o) := Step(s, r);
            && (o.started.Some? <==> r.call.PutLease? && r.call.key !in s.bans)
            && (o.started.Some? ==> o.started.value == s.nextTimer)
            && s'.nextTimer == s.nextTimer + (if o.started.Some? then 1 else 0)
            && (o.cancelled.Some? <==>
                  (r.call.RevokeLease? || o.started.Some?) && r.call.client in Holders(s, r.call.key))
            && (o.cancelled.Some? ==> o.cancelled.value == Holders(s, r.call.key)[r.call.client])
  {
  }

  function CancelledBy(w: World, call: Call): Option<TimerId> {
    Step(w.s, Request(call, |w.arrived|)).1.cancelled
  }

  function StartedBy(w: World, call: Call): Option<TimerId> {
    Step(w.s, Request(call, |w.arrived|)).1.started
  }

  /** A signalled timer listens, so the loop goes on. */
  ghost predicate Listens(w: World, call: Call) {
    CancelledBy(w, call).Some? ==> Live(w, CancelledBy(w, call).value)
  }

  lemma TimersAfter(w: World, call: Call, t: TimerId)
    requires Listens(w, call)
    requires StartedBy(w, call).Some? ==> call.PutLease?
    ensures var w' := Receive(w, call);
            && w'.stuck == w.stuck
            && (Live(w', t) <==> StartedBy(w, call) == Some(t) || (Live(w, t) && CancelledBy(w, call) != Some(t)))
            && (StartedBy(w, call) == Some(t) ==> w'.timers[t] == Timer(call.key, call.client, Waiting))
            && (StartedBy(w, call) != Some(t) && t in w'.timers ==>
                  t in w.timers && w'.timers[t].key == w.timers[t].key && w'.timers[t].client == w.timers[t].client)
  {
  }

  /** Everything matches, except that a delivered timer has already ended. */
  ghost predicate TimersReady(w: World, call: Call) {
    && !w.stuck
    && (forall t :: t in w.timers ==> t < w.s.nextTimer)
    && (forall k, c :: c in Holders(w.s, k) && call != Expired(k, c) ==> LeaseTimed(w, k, c))
    && (forall t :: Live(w, t) ==> TimerLeased(w, t) && call != Expiry(w, t))
  }

  lemma LeaseStaysTimed(w: World, call: Call, k: string, c: Client)
    requires TimersReady(w, call) && c in Holders(Receive(w, call).s, k)
    ensures LeaseTimed(Receive(w, call), k, c)
  {
    var r := Request(call, |w.arrived|);
    SignalsOf(w.s, r);
    HoldersAfter(w.s, r, k);
    var t := Holders(Receive(w, call).s, k)[c];
    TimersAfter(w, call, t);
    if StartedBy(w, call) != Some(t) {
      assert LeaseTimed(w, k, c);
    }
  }

  lemma TimerStaysLeased(w: World, call: Call, t: TimerId)
    requires TimersReady(w, call) && Live(Receive(w, call), t)
    ensures TimerLeased(Receive(w, call), t)
  {
    var r := Request(call, |w.arrived|);
    SignalsOf(w.s, r);
    TimersAfter(w, call, t);
    HoldersAfter(w.s, r, Receive(w, call).timers[t].key);
    if StartedBy(w, call) != Some(t) {
      assert TimerLeased(w, t);
    }
  }

  lemma ReceiveTimers(w: World, call: Call)
    requires TimersReady(w, call)
    ensures TimersOk(Receive(w, call))
  {
    var w' := Receive(w, call);
    SignalsOf(w.s, Request(call, |w.arrived|));
    TimersAfter(w, call, 0);
    forall t | t in w'.timers
      ensures t < w'.s.nextTimer
    {
      TimersAfter(w, call, t);
    }
    forall k, c | c in Holders(w'.s, k)
      ensures LeaseTimed(w', k, c)
    {
      LeaseStaysTimed(w, call, k, c);
    }
    forall t | Live(w', t)
      ensures TimerLeased(w', t)
    {
      TimerStaysLeased(w, call, t);
    }
  }

  lemma DeliverReady(w: World, t: TimerId)
    requires TimersOk(w) && Live(w, t)
    ensures TimersReady(w.(timers := SetPhase(w.timers, t, Done)), Expiry(w, t))
  {
    var w1 := w.(timers := SetPhase(w.timers, t, Done));
    assert TimerLeased(w, t);
    forall k, c | c in Holders(w1.s, k) && Expiry(w, t) != Expired(k, c)
      ensures LeaseTimed(w1, k, c)
    {
      assert LeaseTimed(w, k, c);
    }
    forall u | Live(w1, u)
      ensures TimerLeased(w1, u) && Expiry(w, t) != Expiry(w1, u)
    {
      assert TimerLeased(w, u);
    }
  }

  lemma TimeOutTimers(w: World, t: TimerId)
    requires TimersOk(w) && Live(w, t)
    ensures TimersOk(w.(timers := SetPhase(w.timers, t, Offering)))
  {
    var w1 := w.(timers := SetPhase(w.timers, t, Offering));
    forall k, c | c in Holders(w1.s, k)
      ensures LeaseTimed(w1, k, c)
    {
      assert LeaseTimed(w, k, c);
    }
    forall u | Live(w1, u)
      ensures TimerLeased(w1, u)
    {
      assert TimerLeased(w, u);
    }
  }

  lemma NextTimers(w: World, e: Event)
    requires TimersOk(w) && Enabled(w, e)
    ensures TimersOk(Next(w, e))
  {
    match e
    case Arrive(call) =>
      assert TimersReady(w, call);
      ReceiveTimers(w, call);
    case TimeOut(t) =>
      TimeOutTimers(w, t);
    case Deliver(t) =>
      DeliverReady(w, t);
      ReceiveTimers(w.(timers := SetPhase(w.timers, t, Done)), Expiry(w, t));
  }

  /** In every run each lease has exactly one live timer, each live timer has its lease, and the loop
      never signals a timer that has stopped listening. */
  lemma {:induction false} TimerPerLease(ws: seq<World>, es: seq<Event>, i: nat)
    requires Run(ws, es) && i <= |es|
    ensures TimersOk(ws[i])
  {
    if i > 0 {
      TimerPerLease(ws, es, i - 1);
      StepAt(ws, es, i - 1);
      NextTimers(ws[i - 1], es[i - 1]);
    }
  }

  lemma DoneStays(w: World, e: Event, t: TimerId)
    requires TimersOk(w) && Enabled(w, e) && t in w.timers && w.timers[t].phase == Done
    ensures t in Next(w, e).timers && Next(w, e).timers[t].phase == Done
  {
    match e
    case Arrive(call) =>
      SignalsOf(w.s, Request(call, |w.arrived|));
    case TimeOut(_) =>
    case Deliver(u) =>
      SignalsOf(w.s, Request(Expiry(w, u), |w.arrived|));
  }

  /** A timer that was told to stop, or that delivered its expiry, never delivers one again. */
  lemma {:induction false} StoppedTimerStaysSilent(ws: seq<World>, es: seq<Event>, i: nat, j: nat, t: TimerId)
    requires Run(ws, es) && i <= j < |es|
    requires t in ws[i].timers && ws[i].timers[t].phase == Done
    ensures t in ws[j].timers && ws[j].timers[t].phase == Done && es[j] != Deliver(t)
    decreases j
  {
    StepAt(ws, es, j);
    if i < j {
      StoppedTimerStaysSilent(ws, es, i, j - 1, t);
      StepAt(ws, es, j - 1);
      TimerPerLease(ws, es, j - 1);
      DoneStays(ws[j - 1], es[j - 1], t);
    }
  }

  /** The expiry a timer delivers ends the very lease the timer was started for. */
  lemma ExpiryEndsOwnLease(ws: seq<World>, es: seq<Event>, i: nat, t: TimerId)
    requires Run(ws, es) && i < |es| && es[i] == Deliver(t)
    ensures t in ws[i].timers
    ensures var w := ws[i]; var tm := w.timers[t];
            && tm.client in Holders(w.s, tm.key) && Holders(w.s, tm.key)[tm.client] == t
            && tm.client !in Holders(ws[i + 1].s, tm.key)
  {
    StepAt(ws, es, i);
    TimerPerLease(ws, es, i);
    var w := ws[i];
    assert TimerLeased(w, t);
    HoldersAfter(w.s, Request(Expiry(w, t), |w.arrived|), w.timers[t].key);
  }

  // ---- lease safety ----

  lemma {:induction false} DrainTouches(c: Cache, q: seq<Deferred>, key: string, k: string)
    requires k != key && forall i :: 0 <= i < |q| ==> q[i].op.key == key
    ensures Lookup(Drain(c, q).0, k) == Lookup(c, k)
    decreases |q|
  {
    if q != [] {
      DrainTouches(c, q[..|q| - 1], key, k);
    }
  }

  /** The value of a key that is leased after a step is the value it had before the step. */
  lemma LeasedKeepsValue(s: State, r: Request, k: string)
    requires QueuesOk(s) && k in Step(s, r).0.leases
    ensures Lookup(Step(s, r).0.cache, k) == Lookup(s.cache, k)
  {
    if !r.call.Data? && r.call.key in s.leases && k != r.call.key {
      DrainTouches(s.cache, Queue(s, r.call.key), r.call.key, k);
    }
  }

  lemma NextKeepsLeasedValue(w: World, e: Event, k: string)
    requires QueuesOk(w.s) && Enabled(w, e) && k in Next(w, e).s.leases
    ensures Lookup(Next(w, e).s.cache, k) == Lookup(w.s.cache, k)
  {
    match e
    case Arrive(call) => LeasedKeepsValue(w.s, Request(call, |w.arrived|), k);
    case TimeOut(_) =>
    case Deliver(t) => LeasedKeepsValue(w.s, Request(Expiry(w, t), |w.arrived|), k);
  }

  /** From the step that grants a lease until the last lease on the key is gone, the stored value does
      not change. */
  lemma {:induction false} LeaseSafety(ws: seq<World>, es: seq<Event>, i: nat, j: nat, k: string)
    requires Run(ws, es) && i <= j <= |es|
    requires forall m :: i < m <= j ==> k in ws[m].s.leases
    ensures Lookup(ws[j].s.cache, k) == Lookup(ws[i].s.cache, k)
    decreases j
  {
    if i < j {
      LeaseSafety(ws, es, i, j - 1, k);
      RunQueues(ws, es, j - 1);
      StepAt(ws, es, j - 1);
      NextKeepsLeasedValue(ws[j - 1], es[j - 1], k);
    }
  }

  lemma ReceiveOne(w: World, call: Call, ws: seq<World>, es: seq<Event>)
    requires Run(ws, es) && ws[|es|] == w && Enabled(w, Arrive(call))
    ensures Run(ws + [Receive(w, call)], es + [Arrive(call)])
  {
    var ws', es' := ws + [Receive(w, call)], es + [Arrive(call)];
    forall m | 0 <= m < |es'|
      ensures StepOk(ws', es', m)
    {
      if m < |es| {
        assert StepOk(ws, es, m);
      }
    }
  }

  /** The value a lease protects need not be the one its client has just read: the read and the lease
      are separate requests, and a write may come between them. */
  lemma LeaseMayFollowWrite(k: string, c: Client) returns (ws: seq<World>, es: seq<Event>)
    ensures Run(ws, es) && |es| == 4 && es[1] == Arrive(Data(Get(k))) && es[3] == Arrive(PutLease(k, c))
    ensures Answer(1, Found(Text("a"))) in ws[2].answers
    ensures c in Holders(ws[4].s, k) && Lookup(ws[4].s.cache, k) == Some(Text("b"))
  {
    var w1 := Receive(INIT, Data(Put(k, "a")));
    assert w1.s.cache == map[k := Text("a")] && w1.s.leases == map[] && w1.s.bans == map[];
    var w2 := Receive(w1, Data(Get(k)));
    assert w2.answers == w1.answers + [Answer(1, Found(Text("a")))];
    assert w2.s == w1.s;
    var w3 := Receive(w2, Data(Put(k, "b")));
    assert "a" != "b";
    assert w3.s.cache[k] == Text("b") && w3.s.leases == map[] && w3.s.bans == map[];
    var w4 := Receive(w3, PutLease(k, c));
    ReceiveOne(INIT, Data(Put(k, "a")), [INIT], []);
    ReceiveOne(w1, Data(Get(k)), [INIT, w1], [Arrive(Data(Put(k, "a")))]);
    ReceiveOne(w2, Data(Put(k, "b")), [INIT, w1, w2], [Arrive(Data(Put(k, "a"))), Arrive(Data(Get(k)))]);
    ws := [INIT, w1, w2, w3];
    es := [Arrive(Data(Put(k, "a"))), Arrive(Data(Get(k))), Arrive(Data(Put(k, "b")))];
    ReceiveOne(w3, PutLease(k, c), ws, es);
    ws, es := ws + [w4], es + [Arrive(PutLease(k, c))];
  }
}
