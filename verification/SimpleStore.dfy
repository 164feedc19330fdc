/** The sequential key-value store that the lease-granting storage server has to look like. */
module SimpleStore {
  import opened Options
  import opened HashList

  datatype Value = Text(s: string) | Items(list: seq<string>)

  datatype Op =
    | Put(key: string, value: string)
    | Get(key: string)
    | Append(key: string, value: string)
    | GetList(key: string)
    | Remove(key: string, value: string)

  datatype Reply = Status(ok: bool) | Found(value: Value) | Nil

  type Cache = map<string, Value>

  predicate IsWrite(op: Op) {
    op.Put? || op.Append? || op.Remove?
  }

  /** The items a write to a list starts from; a string counts as no list. */
  predicate HasList(c: Cache, key: string) {
    key in c && c[key].Items?
  }

  function Apply(c: Cache, op: Op): (Cache, Reply) {
    match op
    case Put(key, value) => (c[key := Text(value)], Status(true))
    case Get(key) =>
      (c, if key in c && c[key].Text? then Found(c[key]) else Nil)
    case Append(key, value) =>
      if !HasList(c, key) then (c[key := Items([value])], Status(true))
      else if value in c[key].list then (c, Status(false))
      else (c[key := Items(c[key].list + [value])], Status(true))
    case GetList(key) =>
      (c, if key !in c then Nil else Found(if c[key].Items? then c[key] else Items([])))
    case Remove(key, value) =>
      if HasList(c, key) && value in c[key].list then
        (c[key := Items(Without(c[key].list, value))], Status(true))
      else (c, Status(false))
  }

  /** An operation that took effect, with the reply it got. */
  datatype Effect = Effect(op: Op, reply: Reply)

  /** The store after a history, which starts empty. */
  function StoreAfter(h: seq<Effect>): Cache {
    if h == [] then map[] else Apply(StoreAfter(h[..|h| - 1]), h[|h| - 1].op).0
  }

  /** Every operation got the reply that the sequential store gives at that point. */
  ghost predicate Legal(h: seq<Effect>) {
    h != [] ==>
      var n := |h| - 1;
      Legal(h[..n]) && h[n].reply == Apply(StoreAfter(h[..n]), h[n].op).1
  }

  lemma OneMore(h: seq<Effect>, op: Op)
    requires Legal(h)
    ensures var (c, reply) := Apply(StoreAfter(h), op);
            Legal(h + [Effect(op, reply)]) && StoreAfter(h + [Effect(op, reply)]) == c
  {
    var h' := h + [Effect(op, Apply(StoreAfter(h), op).1)];
    assert h'[..|h|] == h;
  }

  /** Lists never hold a value twice. */
  ghost predicate ListsDistinct(c: Cache) {
    forall k :: HasList(c, k) ==> Distinct(c[k].list)
  }

  lemma ApplyKeepsDistinct(c: Cache, op: Op)
    requires ListsDistinct(c)
    ensures ListsDistinct(Apply(c, op).0)
  {
    if op.Remove? && HasList(c, op.key) {
      WithoutElements(c[op.key].list, op.value);
    }
  }

  /** After any history no list holds a value twice, which is what Insert of a hash list asks for. */
  lemma {:induction false} HistoryKeepsDistinct(h: seq<Effect>)
    ensures ListsDistinct(StoreAfter(h))
  {
    if h != [] {
      HistoryKeepsDistinct(h[..|h| - 1]);
      ApplyKeepsDistinct(StoreAfter(h[..|h| - 1]), h[|h| - 1].op);
    }
  }

  function Lookup(c: Cache, k: string): Option<Value> {
    if k in c then Some(c[k]) else None
  }

  /** What an operation on its key makes of the value there. */
  function ValueAfter(v: Option<Value>, op: Op): Option<Value> {
    match op
    case Put(_, value) => Some(Text(value))
    case Append(_, value) =>
      if v.None? || v.value.Text? then Some(Items([value]))
      else if value in v.value.list then v
      else Some(Items(v.value.list + [value]))
    case Remove(_, value) =>
      if v.Some? && v.value.Items? && value in v.value.list then Some(Items(Without(v.value.list, value))) else v
    case _ => v
  }

  lemma LookupApply(c: Cache, op: Op, k: string)
    ensures Lookup(Apply(c, op).0, k) == if op.key == k then ValueAfter(Lookup(c, k), op) else Lookup(c, k)
  {
  }

  /** What the operations on k in a history make of a value. */
  function ValueAfterAll(v: Option<Value>, h: seq<Effect>, k: string): Option<Value> {
    if h == [] then v
    else
      var n := |h| - 1;
      var u := ValueAfterAll(v, h[..n], k);
      if h[n].op.key == k then ValueAfter(u, h[n].op) else u
  }

  /** The value of a key is moved by the operations on that key only. */
  lemma {:induction false} KeyHistory(h: seq<Effect>, g: seq<Effect>, k: string)
    ensures Lookup(StoreAfter(h + g), k) == ValueAfterAll(Lookup(StoreAfter(h), k), g, k)
    decreases |g|
  {
    if g == [] {
      assert h + g == h;
    } else {
      var n := |g| - 1;
      assert (h + g)[..|h + g| - 1] == h + g[..n];
      KeyHistory(h, g[..n], k);
      LookupApply(StoreAfter(h + g[..n]), g[n].op, k);
    }
  }

  lemma {:induction false} NoWritesNoChange(v: Option<Value>, h: seq<Effect>, k: string)
    requires forall x :: 0 <= x < |h| ==> h[x].op.key != k || !IsWrite(h[x].op)
    ensures ValueAfterAll(v, h, k) == v
    decreases |h|
  {
    if h != [] {
      NoWritesNoChange(v, h[..|h| - 1], k);
    }
  }
}
