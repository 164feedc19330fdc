/** Every step of the storage server keeps its answers a legal history of the sequential store. A
    request answers itself, puts itself in its key's queue, or empties that queue; so the answers grow
    by the deferred writes of one key, in their order, and at most one more, each with the reply that
    the sequential store gives at that point. */
module StorageConsistency {
  import opened SimpleStore
  import opened StorageServer
  import opened StorageRuns

  // ---- the shape of a step ----

  predicate Defers(s: State, call: Call) {
    Passes(s, call) && call.op.key in s.leases
  }

  predicate LastLease(s: State, call: Call) {
    match call
    case RevokeLease(key, client) => client in Holders(s, key) && Holders(s, key) - {client} == map[]
    case Expired(key, client) => key in s.leases && s.leases[key] - {client} == map[]
    case _ => false
  }

  /** The deferred writes a request lets through. */
  function Flushed(s: State, call: Call): seq<Deferred> {
    if LastLease(s, call) then Queue(s, call.key) else []
  }

  function OwnReply(s: State, call: Call): Reply {
    match call
    case Data(op) => Apply(s.cache, op).1
    case PutLease(key, _) => Status(key !in s.bans)
    case _ => Status(true)
  }

  function OwnAnswer(s: State, r: Request): seq<Answer> {
    if Defers(s, r.call) then [] else [Answer(r.id, OwnReply(s, r.call))]
  }

  lemma AnswersShape(s: State, r: Request)
    ensures Step(s, r).1.answers == Drain(s.cache, Flushed(s, r.call)).1 + OwnAnswer(s, r)
    ensures !r.call.Data? ==> Step(s, r).0.cache == Drain(s.cache, Flushed(s, r.call)).0
  {
    if r.call.Data? && PreCheck(s.cache, r.call.op).Some? {
      PreCheckAgrees(s.cache, r.call.op);
    }
  }

  lemma DataShape(s: State, op: Op, id: nat)
    ensures var s' := Step(s, Request(Data(op), id)).0;
            s'.cache == if Defers(s, Data(op)) then s.cache else Apply(s.cache, op).0
  {
    if PreCheck(s.cache, op).Some? {
      PreCheckAgrees(s.cache, op);
    }
  }

  lemma QueueShape(s: State, r: Request, k: string)
    ensures Queue(Step(s, r).0, k) ==
              if k != KeyOf(r.call) then Queue(s, k)
              else if Defers(s, r.call) then Queue(s, k) + [Deferred(r.call.op, r.id)]
              else if LastLease(s, r.call) then []
              else Queue(s, k)
  {
    if k != KeyOf(r.call) {
      OtherKeys(s, r, k);
    }
  }

  // ---- reply channels ----

  function AnswerIds(answers: seq<Answer>): seq<nat> {
    seq(|answers|, i requires 0 <= i < |answers| => answers[i].id)
  }

  function QueueIds(q: seq<Deferred>): seq<nat> {
    seq(|q|, i requires 0 <= i < |q| => q[i].id)
  }

  function Ids(w: World): seq<nat> {
    AnswerIds(w.answers)
  }

  lemma {:induction false} DrainIds(c: Cache, q: seq<Deferred>)
    ensures AnswerIds(Drain(c, q).1) == QueueIds(q)
  {
    if q != [] {
      DrainIds(c, q[..|q| - 1]);
      assert QueueIds(q) == QueueIds(q[..|q| - 1]) + [q[|q| - 1].id];
    }
  }

  function OwnId(w: World, call: Call): seq<nat> {
    if Defers(w.s, call) then [] else [|w.arrived|]
  }

  lemma IdsConcat(a: seq<Answer>, b: seq<Answer>)
    ensures AnswerIds(a + b) == AnswerIds(a) + AnswerIds(b)
  {
  }

  lemma IdsAfter(w: World, call: Call)
    ensures Ids(Receive(w, call)) == Ids(w) + QueueIds(Flushed(w.s, call)) + OwnId(w, call)
  {
    var r := Request(call, |w.arrived|);
    AnswersShape(w.s, r);
    var d, own := Drain(w.s.cache, Flushed(w.s, call)).1, OwnAnswer(w.s, r);
    DrainIds(w.s.cache, Flushed(w.s, call));
    IdsConcat(w.answers, d + own);
    IdsConcat(d, own);
    assert AnswerIds(own) == OwnId(w, call);
  }

  // ---- each request is answered once ----

  ghost predicate NoDup(ids: seq<nat>) {
    forall x, y :: 0 <= x < y < |ids| ==> ids[x] != ids[y]
  }

  ghost predicate IsData(w: World, id: nat) {
    id < |w.arrived| && w.arrived[id].Data?
  }

  /** The request sits in the queue of its key. */
  ghost predicate Waits(w: World, id: nat) {
    IsData(w, id) && id in QueueIds(Queue(w.s, w.arrived[id].op.key))
  }

  /** A queued entry is the write that arrived under its id, and is unanswered. */
  ghost predicate EntryOk(w: World, d: Deferred) {
    d.id < |w.arrived| && w.arrived[d.id] == Data(d.op) && d.id in w.passed && d.id !in Ids(w)
  }

  ghost predicate Ascending(q: seq<Deferred>) {
    forall i, j :: 0 <= i < j < |q| ==> q[i].id < q[j].id
  }

  ghost predicate QueueIdsOk(w: World, k: string) {
    Ascending(Queue(w.s, k)) && forall i :: 0 <= i < |Queue(w.s, k)| ==> EntryOk(w, Queue(w.s, k)[i])
  }

  ghost predicate AnsweredOk(w: World) {
    NoDup(Ids(w)) && forall x :: 0 <= x < |Ids(w)| ==> Ids(w)[x] < |w.arrived|
  }

  /** Each request has its answer or waits in a queue, never both. */
  ghost predicate Accounted(w: World) {
    && AnsweredOk(w)
    && (forall id :: id in w.passed ==> id < |w.arrived|)
    && (forall k :: QueueIdsOk(w, k))
    && (forall id :: 0 <= id < |w.arrived| ==> (id in Ids(w) <==> !Waits(w, id)))
  }

  lemma NoDupConcat(a: seq<nat>, b: seq<nat>)
    requires NoDup(a) && NoDup(b) && forall x :: 0 <= x < |b| ==> b[x] !in a
    ensures NoDup(a + b)
  {
    forall x, y | 0 <= x < y < |a + b|
      ensures (a + b)[x] != (a + b)[y]
    {
      if x < |a| <= y {
        assert b[y - |a|] !in a;
      }
    }
  }

  lemma ReceiveAnswered(w: World, call: Call)
    requires Accounted(w)
    ensures AnsweredOk(Receive(w, call))
  {
    var f := Flushed(w.s, call);
    IdsAfter(w, call);
    assert f != [] ==> QueueIdsOk(w, call.key);
    forall x | 0 <= x < |f|
      ensures f[x].id < |w.arrived| && QueueIds(f)[x] !in Ids(w)
    {
      assert EntryOk(w, f[x]);
    }
    NoDupConcat(Ids(w), QueueIds(f));
    forall x | 0 <= x < |OwnId(w, call)|
      ensures OwnId(w, call)[x] !in Ids(w) + QueueIds(f)
    {
    }
    NoDupConcat(Ids(w) + QueueIds(f), OwnId(w, call));
  }

  lemma EntryKept(w: World, call: Call, d: Deferred)
    requires AnsweredOk(w) && EntryOk(w, d)
    requires forall x :: 0 <= x < |Flushed(w.s, call)| ==> Flushed(w.s, call)[x].id != d.id
    ensures EntryOk(Receive(w, call), d)
  {
    IdsAfter(w, call);
  }

  lemma OldEntryKept(w: World, call: Call, k: string, i: nat)
    requires Accounted(w) && QueuesOk(w.s) && i < |Queue(w.s, k)|
    requires LastLease(w.s, call) ==> k != KeyOf(call)
    ensures EntryOk(Receive(w, call), Queue(w.s, k)[i])
  {
    assert QueueIdsOk(w, k) && EntryOk(w, Queue(w.s, k)[i]);
    var f := Flushed(w.s, call);
    forall x | 0 <= x < |f|
      ensures f[x].id != Queue(w.s, k)[i].id
    {
      assert QueueIdsOk(w, call.key);
    }
    EntryKept(w, call, Queue(w.s, k)[i]);
  }

  lemma NewEntryOk(w: World, call: Call)
    requires AnsweredOk(w) && Defers(w.s, call)
    ensures EntryOk(Receive(w, call), Deferred(call.op, |w.arrived|))
  {
    IdsAfter(w, call);
  }

  lemma ReceiveQueueIds(w: World, call: Call, k: string)
    requires Accounted(w) && QueuesOk(w.s)
    ensures QueueIdsOk(Receive(w, call), k)
  {
    QueueShape(w.s, Request(call, |w.arrived|), k);
    var w' := Receive(w, call);
    var q, q' := Queue(w.s, k), Queue(w'.s, k);
    assert QueueIdsOk(w, k);
    forall i | 0 <= i < |q'|
      ensures EntryOk(w', q'[i])
    {
      if i < |q| {
        OldEntryKept(w, call, k, i);
      } else {
        NewEntryOk(w, call);
      }
    }
    forall i, j | 0 <= i < j < |q'|
      ensures q'[i].id < q'[j].id
    {
      assert EntryOk(w, q[i]);
    }
  }

  lemma FlushedHasKey(w: World, call: Call, id: nat)
    requires Accounted(w) && QueuesOk(w.s) && id in QueueIds(Flushed(w.s, call))
    ensures IsData(w, id) && w.arrived[id].op.key == call.key && Waits(w, id)
  {
    var q := Queue(w.s, call.key);
    var i :| 0 <= i < |q| && q[i].id == id;
    assert QueueIdsOk(w, call.key);
    assert EntryOk(w, q[i]) && q[i].op.key == call.key;
    assert QueueIds(q)[i] == id;
  }

  lemma OldAccounted(w: World, call: Call, id: nat)
    requires Accounted(w) && QueuesOk(w.s) && id < |w.arrived|
    ensures id in Ids(Receive(w, call)) <==> !Waits(Receive(w, call), id)
  {
    var w' := Receive(w, call);
    var f := QueueIds(Flushed(w.s, call));
    IdsAfter(w, call);
    assert id in Ids(w') <==> id in Ids(w) || id in f;
    if id in f {
      FlushedHasKey(w, call, id);
      QueueShape(w.s, Request(call, |w.arrived|), call.key);
    } else if IsData(w, id) {
      var k := w.arrived[id].op.key;
      QueueShape(w.s, Request(call, |w.arrived|), k);
      StillWaits(Queue(w.s, k), Deferred(if Defers(w.s, call) then call.op else Put("", ""), |w.arrived|), id);
    }
  }

  lemma StillWaits(q: seq<Deferred>, d: Deferred, id: nat)
    requires d.id != id
    ensures id in QueueIds(q + [d]) <==> id in QueueIds(q)
  {
    assert QueueIds(q + [d]) == QueueIds(q) + [d.id];
  }

  lemma NewAccounted(w: World, call: Call)
    requires Accounted(w) && QueuesOk(w.s)
    ensures |w.arrived| in Ids(Receive(w, call)) <==> !Waits(Receive(w, call), |w.arrived|)
  {
    var id := |w.arrived|;
    var w' := Receive(w, call);
    IdsAfter(w, call);
    assert id in OwnId(w, call) <==> !Defers(w.s, call);
    assert id !in Ids(w);
    assert id !in QueueIds(Flushed(w.s, call)) by {
      if id in QueueIds(Flushed(w.s, call)) {
        FlushedHasKey(w, call, id);
      }
    }
    if call.Data? {
      var q := Queue(w.s, call.op.key);
      QueueShape(w.s, Request(call, id), call.op.key);
      assert id !in QueueIds(q) by {
        assert QueueIdsOk(w, call.op.key);
        assert forall i :: 0 <= i < |q| ==> EntryOk(w, q[i]);
      }
      if Defers(w.s, call) {
        assert QueueIds(Queue(w'.s, call.op.key))[|q|] == id;
      }
    }
  }

  lemma ReceiveAccounted(w: World, call: Call)
    requires Accounted(w) && QueuesOk(w.s)
    ensures Accounted(Receive(w, call))
  {
    ReceiveAnswered(w, call);
    forall k
      ensures QueueIdsOk(Receive(w, call), k)
    {
      ReceiveQueueIds(w, call, k);
    }
    forall id | 0 <= id < |Receive(w, call).arrived|
      ensures id in Ids(Receive(w, call)) <==> !Waits(Receive(w, call), id)
    {
      if id < |w.arrived| {
        OldAccounted(w, call, id);
      } else {
        NewAccounted(w, call);
      }
    }
  }

  // ---- writes on a key take effect in the order they arrive ----

  /** A write on the key that the pre-check did not answer. */
  ghost predicate PassedOn(w: World, id: nat, k: string) {
    id in w.passed && IsData(w, id) && w.arrived[id].op.key == k
  }

  ghost predicate BeforeQueue(w: World, k: string) {
    forall a: nat, i :: PassedOn(w, a, k) && a in Ids(w) && 0 <= i < |Queue(w.s, k)| ==> a < Queue(w.s, k)[i].id
  }

  ghost predicate InOrder(w: World, k: string) {
    forall x, y :: 0 <= x < y < |Ids(w)| && PassedOn(w, Ids(w)[x], k) && PassedOn(w, Ids(w)[y], k) ==>
                     Ids(w)[x] < Ids(w)[y]
  }

  lemma PassedAfter(w: World, call: Call, a: nat, k: string)
    requires Accounted(w) && PassedOn(Receive(w, call), a, k)
    ensures PassedOn(w, a, k) || (a == |w.arrived| && Passes(w.s, call) && call.op.key == k)
  {
  }

  lemma ReceiveBeforeQueue(w: World, call: Call, k: string, a: nat, i: nat)
    requires Accounted(w) && QueuesOk(w.s) && BeforeQueue(w, k)
    requires var w' := Receive(w, call);
             PassedOn(w', a, k) && a in Ids(w') && i < |Queue(w'.s, k)|
    ensures a < Queue(Receive(w, call).s, k)[i].id
  {
    var id := |w.arrived|;
    PassedAfter(w, call, a, k);
    IdsAfter(w, call);
    QueueShape(w.s, Request(call, id), k);
    assert KeyOk(w.s, k) && QueueIdsOk(w, k);
    NotFlushed(w, call, k, a);
    if i < |Queue(w.s, k)| {
    } else {
      assert a in Ids(w) || a in OwnId(w, call);
      assert |w.arrived| !in Ids(w);
      assert Queue(Receive(w, call).s, k)[i].id == |w.arrived|;
    }
  }

  /** A queue that is not empty after a step was not flushed by it. */
  lemma NotFlushed(w: World, call: Call, k: string, a: nat)
    requires Accounted(w) && QueuesOk(w.s) && PassedOn(Receive(w, call), a, k)
    requires Queue(Receive(w, call).s, k) != []
    ensures a !in QueueIds(Flushed(w.s, call))
  {
    QueueShape(w.s, Request(call, |w.arrived|), k);
    if a in QueueIds(Flushed(w.s, call)) {
      FlushedHasKey(w, call, a);
    }
  }

  lemma ReceiveInOrder(w: World, call: Call, k: string, x: nat, y: nat)
    requires Accounted(w) && QueuesOk(w.s) && BeforeQueue(w, k) && InOrder(w, k)
    requires var w' := Receive(w, call);
             x < y < |Ids(w')| && PassedOn(w', Ids(w')[x], k) && PassedOn(w', Ids(w')[y], k)
    ensures Ids(Receive(w, call))[x] < Ids(Receive(w, call))[y]
  {
    var n, f := |Ids(w)|, Flushed(w.s, call);
    IdsAfter(w, call);
    var a, b := Ids(Receive(w, call))[x], Ids(Receive(w, call))[y];
    PassedAfter(w, call, a, k);
    PassedAfter(w, call, b, k);
    if y < n {
      assert PassedOn(w, Ids(w)[x], k) && PassedOn(w, Ids(w)[y], k);
    } else if y < n + |f| {
      assert x >= n ==> QueueIds(f[..y - n])[x - n] == a;
      FlushedInOrder(w, call, k, a, y - n);
    }
  }

  lemma FlushedInOrder(w: World, call: Call, k: string, a: nat, j: nat)
    requires Accounted(w) && QueuesOk(w.s) && BeforeQueue(w, k) && j < |Flushed(w.s, call)|
    requires PassedOn(w, Flushed(w.s, call)[j].id, k) || Flushed(w.s, call)[j].id == |w.arrived|
    requires (a in Ids(w) && (PassedOn(w, a, k) || a == |w.arrived|)) || a in QueueIds(Flushed(w.s, call)[..j])
    ensures a < Flushed(w.s, call)[j].id
  {
    var f := Flushed(w.s, call);
    assert QueueIdsOk(w, call.key) && EntryOk(w, f[j]);
    if a in QueueIds(f[..j]) {
      var i :| 0 <= i < j && f[..j][i].id == a;
    } else {
      assert a != |w.arrived|;
    }
  }

  // ---- the answers are a legal sequential history ----

  /** The data requests in the order they were answered. */
  ghost function Effects(arrived: seq<Call>, answers: seq<Answer>): seq<Effect> {
    if answers == [] then []
    else
      var n := |answers| - 1;
      var h := Effects(arrived, answers[..n]);
      if answers[n].id < |arrived| && arrived[answers[n].id].Data?
      then h + [Effect(arrived[answers[n].id].op, answers[n].reply)] else h
  }

  ghost function History(w: World): seq<Effect> {
    Effects(w.arrived, w.answers)
  }

  /** The history so far is legal and leaves the store with the server's contents. */
  ghost predicate Explained(w: World) {
    Legal(History(w)) && StoreAfter(History(w)) == w.s.cache
  }

  lemma {:induction false} LaterArrivals(arrived: seq<Call>, call: Call, answers: seq<Answer>)
    requires forall x :: 0 <= x < |answers| ==> answers[x].id < |arrived|
    ensures Effects(arrived + [call], answers) == Effects(arrived, answers)
  {
    if answers != [] {
      LaterArrivals(arrived, call, answers[..|answers| - 1]);
    }
  }

  lemma OneEffect(arrived: seq<Call>, answers: seq<Answer>, a: Answer)
    ensures Effects(arrived, answers + [a]) ==
              Effects(arrived, answers) +
              if a.id < |arrived| && arrived[a.id].Data? then [Effect(arrived[a.id].op, a.reply)] else []
  {
    assert (answers + [a])[..|answers|] == answers;
  }

  lemma {:induction false} DrainExplained(arrived: seq<Call>, answers: seq<Answer>, c: Cache, q: seq<Deferred>)
    requires Legal(Effects(arrived, answers)) && StoreAfter(Effects(arrived, answers)) == c
    requires forall i :: 0 <= i < |q| ==> q[i].id < |arrived| && arrived[q[i].id] == Data(q[i].op)
    ensures var h := Effects(arrived, answers + Drain(c, q).1);
            Legal(h) && StoreAfter(h) == Drain(c, q).0
  {
    if q == [] {
      assert answers + Drain(c, q).1 == answers;
    } else {
      var n := |q| - 1;
      var (c1, a1) := Drain(c, q[..n]);
      DrainExplained(arrived, answers, c, q[..n]);
      var a := Answer(q[n].id, Apply(c1, q[n].op).1);
      OneEffect(arrived, answers + a1, a);
      OneMore(Effects(arrived, answers + a1), q[n].op);
      assert answers + (a1 + [a]) == (answers + a1) + [a];
    }
  }

  lemma FlushExplained(w: World, call: Call)
    requires Explained(w) && Accounted(w)
    ensures var (c, answers) := Drain(w.s.cache, Flushed(w.s, call));
            var h := Effects(w.arrived + [call], w.answers + answers);
            Legal(h) && StoreAfter(h) == c
  {
    forall x | 0 <= x < |w.answers|
      ensures w.answers[x].id < |w.arrived|
    {
      assert Ids(w)[x] == w.answers[x].id;
    }
    LaterArrivals(w.arrived, call, w.answers);
    var f := Flushed(w.s, call);
    assert f != [] ==> QueueIdsOk(w, call.key);
    forall i | 0 <= i < |f|
      ensures f[i].id < |w.arrived| && (w.arrived + [call])[f[i].id] == Data(f[i].op)
    {
      assert EntryOk(w, f[i]);
    }
    DrainExplained(w.arrived + [call], w.answers, w.s.cache, f);
  }

  lemma DataExplained(w: World, call: Call)
    requires Explained(w) && Accounted(w) && call.Data?
    ensures Explained(Receive(w, call))
  {
    var r := Request(call, |w.arrived|);
    var own := OwnAnswer(w.s, r);
    AnswersShape(w.s, r);
    DataShape(w.s, call.op, r.id);
    FlushExplained(w, call);
    assert w.answers + [] == w.answers;
    assert Receive(w, call).answers == w.answers + own by {
      assert [] + own == own;
    }
    if own != [] {
      OneMore(Effects(w.arrived + [call], w.answers), call.op);
      OneEffect(w.arrived + [call], w.answers, own[0]);
    }
  }

  lemma LeaseAnswer(arrived: seq<Call>, answers: seq<Answer>, d: seq<Answer>, a: Answer)
    requires a.id < |arrived| && !arrived[a.id].Data?
    ensures Effects(arrived, answers + (d + [a])) == Effects(arrived, answers + d)
  {
    OneEffect(arrived, answers + d, a);
    assert answers + (d + [a]) == (answers + d) + [a];
  }

  lemma LeaseExplained(w: World, call: Call)
    requires Explained(w) && Accounted(w) && !call.Data?
    ensures Explained(Receive(w, call))
  {
    var r := Request(call, |w.arrived|);
    AnswersShape(w.s, r);
    FlushExplained(w, call);
    LeaseAnswer(w.arrived + [call], w.answers, Drain(w.s.cache, Flushed(w.s, call)).1,
                Answer(r.id, OwnReply(w.s, call)));
  }

  // ---- every run ----

  ghost predicate Consistent(w: World) {
    && QueuesOk(w.s) && Accounted(w) && Explained(w)
    && forall k :: BeforeQueue(w, k) && InOrder(w, k)
  }

  lemma ReceiveConsistent(w: World, call: Call)
    requires Consistent(w)
    ensures Consistent(Receive(w, call))
  {
    var w' := Receive(w, call);
    QueuesKept(w.s, Request(call, |w.arrived|));
    ReceiveAccounted(w, call);
    if call.Data? {
      DataExplained(w, call);
    } else {
      LeaseExplained(w, call);
    }
    forall k
      ensures BeforeQueue(w', k)
    {
      forall a: nat, i | PassedOn(w', a, k) && a in Ids(w') && 0 <= i < |Queue(w'.s, k)|
        ensures a < Queue(w'.s, k)[i].id
      {
        ReceiveBeforeQueue(w, call, k, a, i);
      }
    }
    forall k
      ensures InOrder(w', k)
    {
      forall x, y | 0 <= x < y < |Ids(w')| && PassedOn(w', Ids(w')[x], k) && PassedOn(w', Ids(w')[y], k)
        ensures Ids(w')[x] < Ids(w')[y]
      {
        ReceiveInOrder(w, call, k, x, y);
      }
    }
  }

  lemma TimersIrrelevant(w: World, timers: map<TimerId, Timer>)
    requires Consistent(w)
    ensures Consistent(w.(timers := timers))
  {
    var w1 := w.(timers := timers);
    forall k
      ensures QueueIdsOk(w1, k) && BeforeQueue(w1, k) && InOrder(w1, k)
    {
      assert QueueIdsOk(w, k) && BeforeQueue(w, k) && InOrder(w, k);
      assert forall i :: 0 <= i < |Queue(w.s, k)| ==> EntryOk(w, Queue(w.s, k)[i]);
      assert forall id: nat :: PassedOn(w1, id, k) ==> PassedOn(w, id, k);
    }
    forall id | 0 <= id < |w.arrived|
      ensures id in Ids(w1) <==> !Waits(w1, id)
    {
      assert Waits(w1, id) <==> Waits(w, id);
    }
  }

  lemma NextConsistent(w: World, e: Event)
    requires Consistent(w) && Enabled(w, e)
    ensures Consistent(Next(w, e))
  {
    match e
    case Arrive(call) => ReceiveConsistent(w, call);
    case TimeOut(t) => TimersIrrelevant(w, SetPhase(w.timers, t, Offering));
    case Deliver(t) =>
      var timers := SetPhase(w.timers, t, Done);
      TimersIrrelevant(w, timers);
      ReceiveConsistent(w.(timers := timers), Expiry(w, t));
  }

  lemma {:induction false} RunConsistent(ws: seq<World>, es: seq<Event>, i: nat)
    requires Run(ws, es) && i <= |es|
    ensures Consistent(ws[i])
  {
    if i == 0 {
    } else {
      RunConsistent(ws, es, i - 1);
      ConsistentStep(ws, es, i - 1);
    }
  }

  lemma ConsistentStep(ws: seq<World>, es: seq<Event>, m: nat)
    requires Run(ws, es) && m < |es| && Consistent(ws[m])
    ensures Consistent(ws[m + 1])
  {
    StepAt(ws, es, m);
    NextConsistent(ws[m], es[m]);
  }
}
