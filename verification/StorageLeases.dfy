/** A read and the lease that follows it are two requests: what the lease covers is what the writes in
    between have made of the value read. */
module StorageLeases {
  import opened Options
  import opened SimpleStore
  import opened StorageServer
  import opened StorageRuns
  import opened StorageConsistency

  lemma {:induction false} EffectsPrefix(arrived: seq<Call>, a: seq<Answer>, b: seq<Answer>)
    ensures Effects(arrived, a) <= Effects(arrived, a + b)
    decreases |b|
  {
    if b == [] {
      assert a + b == a;
    } else {
      var n := |b| - 1;
      EffectsPrefix(arrived, a, b[..n]);
      OneEffect(arrived, a + b[..n], b[n]);
      assert a + b == (a + b[..n]) + [b[n]];
    }
  }

  lemma ReceiveHistory(w: World, call: Call)
    requires AnsweredOk(w)
    ensures History(w) <= History(Receive(w, call))
  {
    forall x | 0 <= x < |w.answers|
      ensures w.answers[x].id < |w.arrived|
    {
      assert Ids(w)[x] == w.answers[x].id;
    }
    LaterArrivals(w.arrived, call, w.answers);
    EffectsPrefix(w.arrived + [call], w.answers, Step(w.s, Request(call, |w.arrived|)).1.answers);
  }

  lemma NextHistory(w: World, e: Event)
    requires AnsweredOk(w) && Enabled(w, e)
    ensures History(w) <= History(Next(w, e))
  {
    match e
    case Arrive(call) => ReceiveHistory(w, call);
    case TimeOut(_) =>
    case Deliver(t) => ReceiveHistory(w.(timers := SetPhase(w.timers, t, Done)), Expiry(w, t));
  }

  lemma {:induction false} HistoryGrows(ws: seq<World>, es: seq<Event>, i: nat, j: nat)
    requires Run(ws, es) && i <= j <= |es|
    ensures History(ws[i]) <= History(ws[j])
    decreases j
  {
    if i < j {
      HistoryGrows(ws, es, i, j - 1);
      HistoryStep(ws, es, j - 1);
    }
  }

  lemma HistoryStep(ws: seq<World>, es: seq<Event>, m: nat)
    requires Run(ws, es) && m < |es|
    ensures History(ws[m]) <= History(ws[m + 1])
  {
    RunConsistent(ws, es, m);
    StepAt(ws, es, m);
    NextHistory(ws[m], es[m]);
  }

  /** The data requests answered between two points of a run. */
  ghost function Between(ws: seq<World>, es: seq<Event>, i: nat, j: nat): seq<Effect>
    requires Run(ws, es) && i <= j <= |es|
  {
    HistoryGrows(ws, es, i, j);
    History(ws[j])[|History(ws[i])|..]
  }

  /** In every run, a key's value at a later point is what the requests on it that were answered in
      between make of the earlier value. */
  lemma ValueFollowsAnswers(ws: seq<World>, es: seq<Event>, i: nat, j: nat, k: string)
    requires Run(ws, es) && i <= j <= |es|
    ensures Lookup(ws[j].s.cache, k) == ValueAfterAll(Lookup(ws[i].s.cache, k), Between(ws, es, i, j), k)
  {
    HistoryGrows(ws, es, i, j);
    RunConsistent(ws, es, i);
    RunConsistent(ws, es, j);
    var h, g := History(ws[i]), Between(ws, es, i, j);
    assert History(ws[j]) == h + g;
    KeyHistory(h, g, k);
  }

  /** The request at step i is answered at once, with this reply. */
  predicate RepliesAt(ws: seq<World>, es: seq<Event>, i: nat, call: Call, reply: Reply)
    requires i < |es| && i < |ws|
  {
    && es[i] == Arrive(call)
    && Step(ws[i].s, Request(call, |ws[i].arrived|)).1.answers == [Answer(|ws[i].arrived|, reply)]
  }

  lemma ReadsValue(ws: seq<World>, es: seq<Event>, i: nat, k: string, v: Value)
    requires Run(ws, es) && i < |es| && RepliesAt(ws, es, i, Data(Get(k)), Found(v))
    ensures Lookup(ws[i].s.cache, k) == Some(v) && Lookup(ws[i + 1].s.cache, k) == Some(v)
  {
    StepAt(ws, es, i);
    assert Answer(|ws[i].arrived|, Found(v)).reply == Apply(ws[i].s.cache, Get(k)).1;
  }

  lemma GrantsLease(ws: seq<World>, es: seq<Event>, j: nat, k: string, c: Client)
    requires Run(ws, es) && j < |es| && RepliesAt(ws, es, j, PutLease(k, c), Status(true))
    ensures c in Holders(ws[j + 1].s, k) && ws[j + 1].s.cache == ws[j].s.cache
  {
    StepAt(ws, es, j);
    HoldersAfter(ws[j].s, Request(PutLease(k, c), |ws[j].arrived|), k);
  }

  /** In every run in which a client reads v and is later granted a lease on the key, the leased value
      is v exactly if the writes on the key that were answered in between, in their order, leave v as
      it is; so it is v whenever there were none. */
  lemma LeaseCoversReadIff(ws: seq<World>, es: seq<Event>, i: nat, j: nat, k: string, c: Client, v: Value)
    requires Run(ws, es) && i < j < |es|
    requires RepliesAt(ws, es, i, Data(Get(k)), Found(v)) && RepliesAt(ws, es, j, PutLease(k, c), Status(true))
    ensures c in Holders(ws[j + 1].s, k)
    ensures Lookup(ws[j + 1].s.cache, k) == Some(v) <==>
            ValueAfterAll(Some(v), Between(ws, es, i + 1, j), k) == Some(v)
    ensures Lookup(ws[j + 1].s.cache, k) != Some(v) ==>
              exists e :: e in Between(ws, es, i + 1, j) && e.op.key == k && IsWrite(e.op)
  {
    ReadsValue(ws, es, i, k, v);
    GrantsLease(ws, es, j, k, c);
    ValueFollowsAnswers(ws, es, i + 1, j, k);
    var h := Between(ws, es, i + 1, j);
    if forall x :: 0 <= x < |h| ==> h[x].op.key != k || !IsWrite(h[x].op) {
      NoWritesNoChange(Some(v), h, k);
    } else {
      var x :| 0 <= x < |h| && h[x].op.key == k && IsWrite(h[x].op);
      assert h[x] in h;
    }
  }

  /** Client c holds a lease on k after n events: it has been granted one, when no write waited on the key,
      and has neither given it back nor let its timer run out since. */
  ghost predicate Held(ws: seq<World>, es: seq<Event>, n: nat, k: string, c: Client)
    requires n <= |es| && |ws| == |es| + 1
  {
    n > 0 &&
    match es[n - 1]
    case Arrive(PutLease(key, client)) =>
      Held(ws, es, n - 1, k, c) || (key == k && client == c && Queue(ws[n - 1].s, k) == [])
    case Arrive(RevokeLease(key, client)) => Held(ws, es, n - 1, k, c) && !(key == k && client == c)
    case Deliver(t) =>
      Held(ws, es, n - 1, k, c) &&
      !(t in ws[n - 1].timers && ws[n - 1].timers[t].key == k && ws[n - 1].timers[t].client == c)
    case _ => Held(ws, es, n - 1, k, c)
  }

  lemma HolderStep(w: World, call: Call, k: string, c: Client)
    requires KeyOk(w.s, k)
    ensures c in Holders(Receive(w, call).s, k) <==>
            if call.PutLease? && call.key == k && call.client == c then
              c in Holders(w.s, k) || Queue(w.s, k) == []
            else if (call.RevokeLease? || call.Expired?) && call.key == k && call.client == c then false
            else c in Holders(w.s, k)
  {
    HoldersAfter(w.s, Request(call, |w.arrived|), k);
  }

  /** In every run the holders of a lease are exactly these clients. */
  lemma {:induction false} LeaseHeldIff(ws: seq<World>, es: seq<Event>, n: nat, k: string, c: Client)
    requires Run(ws, es) && n <= |es|
    ensures c in Holders(ws[n].s, k) <==> Held(ws, es, n, k, c)
  {
    if n > 0 {
      LeaseHeldIff(ws, es, n - 1, k, c);
      RunQueues(ws, es, n - 1);
      assert KeyOk(ws[n - 1].s, k);
      StepAt(ws, es, n - 1);
      match es[n - 1]
      case Arrive(call) => HolderStep(ws[n - 1], call, k, c);
      case TimeOut(_) =>
      case Deliver(t) =>
        var w := ws[n - 1];
        HolderStep(w.(timers := SetPhase(w.timers, t, Done)), Expiry(w, t), k, c);
    }
  }

  /** Giving a lease back, and its running out, are always answered at once and with success. */
  lemma EndingAnswered(w: World, call: Call)
    requires call.RevokeLease? || call.Expired?
    ensures var answers := Receive(w, call).answers;
            answers != [] && answers[|answers| - 1] == Answer(|w.arrived|, Status(true))
  {
  }
}
