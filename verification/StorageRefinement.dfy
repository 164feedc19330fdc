/** Every run of the storage server looks like one sequential store: each request is answered once,
    in an order that respects arrival, with the replies the sequential store gives. */
module StorageRefinement {
  import opened HashList
  import opened SimpleStore
  import opened StorageServer
  import opened StorageRuns
  import opened StorageConsistency

  /** Every run is a legal history of the sequential store: the data requests, in the order of their
      answers, get the replies that store gives and leave its contents. */
  lemma SequentialStore(ws: seq<World>, es: seq<Event>)
    requires Run(ws, es)
    ensures Legal(History(ws[|es|])) && StoreAfter(History(ws[|es|])) == ws[|es|].s.cache
    ensures ListsDistinct(ws[|es|].s.cache)
  {
    RunConsistent(ws, es, |es|);
    HistoryKeepsDistinct(History(ws[|es|]));
  }

  /** No request is answered twice, and one is unanswered exactly while it is a write that waits for
      the leases on its key. */
  lemma AnsweredExactlyOnce(ws: seq<World>, es: seq<Event>, id: nat)
    requires Run(ws, es) && id < |ws[|es|].arrived|
    ensures NoDup(Ids(ws[|es|]))
    ensures id in Ids(ws[|es|]) <==> !Waits(ws[|es|], id)
    ensures Waits(ws[|es|], id) ==> IsWrite(ws[|es|].arrived[id].op) && ws[|es|].arrived[id].op.key in ws[|es|].s.leases
  {
    RunConsistent(ws, es, |es|);
    var w := ws[|es|];
    if Waits(w, id) {
      var k := w.arrived[id].op.key;
      assert QueueIdsOk(w, k) && KeyOk(w.s, k);
      var i :| 0 <= i < |Queue(w.s, k)| && QueueIds(Queue(w.s, k))[i] == id;
      assert EntryOk(w, Queue(w.s, k)[i]);
    }
  }

  /** Writes on one key that change something take effect in the order in which they arrived, whether
      they were deferred or not. */
  lemma WritesInArrivalOrder(ws: seq<World>, es: seq<Event>, k: string, x: nat, y: nat)
    requires Run(ws, es)
    requires var w := ws[|es|]; x < y < |Ids(w)| && PassedOn(w, Ids(w)[x], k) && PassedOn(w, Ids(w)[y], k)
    ensures Ids(ws[|es|])[x] < Ids(ws[|es|])[y]
  {
    RunConsistent(ws, es, |es|);
    assert InOrder(ws[|es|], k);
  }

  lemma AnswersGrow(ws: seq<World>, es: seq<Event>, i: nat)
    requires Run(ws, es) && i < |es|
    ensures Ids(ws[i]) <= Ids(ws[i + 1]) && |ws[i].arrived| <= |ws[i + 1].arrived|
  {
    StepAt(ws, es, i);
    var w := ws[i];
    match es[i]
    case Arrive(call) => IdsAfter(w, call);
    case TimeOut(_) =>
    case Deliver(t) => IdsAfter(w.(timers := SetPhase(w.timers, t, Done)), Expiry(w, t));
  }

  lemma {:induction false} AnswersKept(ws: seq<World>, es: seq<Event>, i: nat, j: nat)
    requires Run(ws, es) && i <= j <= |es|
    ensures Ids(ws[i]) <= Ids(ws[j]) && |ws[i].arrived| <= |ws[j].arrived|
    decreases j
  {
    if i < j {
      AnswersKept(ws, es, i, j - 1);
      AnswersGrow(ws, es, j - 1);
    }
  }

  /** The sequential order respects real time: a request answered before another one arrives comes
      first in it. */
  lemma RealTimeOrder(ws: seq<World>, es: seq<Event>, i: nat, x: nat, y: nat)
    requires Run(ws, es) && i <= |es|
    requires x < |Ids(ws[|es|])| && y < |Ids(ws[|es|])|
    requires Ids(ws[|es|])[x] in Ids(ws[i]) && Ids(ws[|es|])[y] >= |ws[i].arrived|
    ensures x < y
  {
    AnswersKept(ws, es, i, |es|);
    RunConsistent(ws, es, i);
    RunConsistent(ws, es, |es|);
    var early := Ids(ws[i]);
    var z :| 0 <= z < |early| && early[z] == Ids(ws[|es|])[x];
    assert Ids(ws[|es|])[z] == early[z];
  }

  /** A lease is refused exactly while a write waits on its key. */
  lemma LeaseRefusedIffWriteWaits(ws: seq<World>, es: seq<Event>, key: string, client: Client, id: nat)
    requires Run(ws, es)
    ensures Step(ws[|es|].s, Request(PutLease(key, client), id)).1.answers ==
              [Answer(id, Status(Queue(ws[|es|].s, key) == []))]
  {
    RunConsistent(ws, es, |es|);
    assert KeyOk(ws[|es|].s, key);
  }

  /** The pre-check lets a request through to the deferring check exactly when it would change the
      store. */
  lemma PassesIffChanges(c: Cache, op: Op)
    requires ListsDistinct(c)
    ensures Apply(c, op).0 != c <==> IsWrite(op) && PreCheck(c, op).None?
  {
    if PreCheck(c, op).Some? {
      PreCheckAgrees(c, op);
    } else if IsWrite(op) {
      var c' := Apply(c, op).0;
      assert op.key in c';
      if op.Remove? {
        WithoutElements(c[op.key].list, op.value);
        assert op.value !in c'[op.key].list;
      } else if op.Append? && HasList(c, op.key) {
        assert |c'[op.key].list| > |c[op.key].list|;
      }
    }
  }

  /** In every run, a data request is kept waiting exactly when it would change a leased key, and then
      every client with a lease on the key is asked for it. */
  lemma WaitsIffChangesLeased(ws: seq<World>, es: seq<Event>, op: Op, id: nat)
    requires Run(ws, es)
    ensures var s := ws[|es|].s; var o := Step(s, Request(Data(op), id)).1;
            && (o.answers == [] <==> op.key in s.leases && Apply(s.cache, op).0 != s.cache)
            && (o.answers == [] ==> o.revoked == Holders(s, op.key).Keys != {})
  {
    SequentialStore(ws, es);
    RunQueues(ws, es, |es|);
    assert KeyOk(ws[|es|].s, op.key);
    PassesIffChanges(ws[|es|].s.cache, op);
  }
}
