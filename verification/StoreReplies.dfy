/** What each answer of the storage server tells, said over the earlier answers alone. */
module StoreReplies {
  import opened Options
  import opened HashList
  import opened SimpleStore
  import opened StorageRuns
  import opened StorageConsistency
  import R = StorageRefinement

  predicate Succeeded(e: Effect) {
    e.reply == Status(true)
  }

  /** Something has been written under the key. */
  ghost predicate Known(h: seq<Effect>, k: string) {
    exists x :: 0 <= x < |h| && h[x].op.key == k && (h[x].op.Put? || h[x].op.Append?) && Succeeded(h[x])
  }

  /** The position of the Append that put the item on the key's list, if nothing has taken it away since:
      neither a Remove nor a Put; -1 otherwise. */
  function Added(h: seq<Effect>, k: string, item: string): int {
    if h == [] then -1
    else
      var n := |h| - 1;
      match h[n].op
      case Put(key, _) => if key == k then -1 else Added(h[..n], k, item)
      case Append(key, value) =>
        if key == k && value == item && Succeeded(h[n]) then n else Added(h[..n], k, item)
      case Remove(key, value) =>
        if key == k && value == item && Succeeded(h[n]) then -1 else Added(h[..n], k, item)
      case _ => Added(h[..n], k, item)
  }

  /** The last string put under the key, if no Append has made a list of it since. */
  function LastPut(h: seq<Effect>, k: string): Option<string> {
    if h == [] then None
    else
      var n := |h| - 1;
      match h[n].op
      case Put(key, value) => if key == k then Some(value) else LastPut(h[..n], k)
      case Append(key, _) => if key == k && Succeeded(h[n]) then None else LastPut(h[..n], k)
      case _ => LastPut(h[..n], k)
  }

  ghost predicate Ordered(h: seq<Effect>, k: string, list: seq<string>) {
    forall i, j :: 0 <= i < j < |list| ==> Added(h, k, list[i]) < Added(h, k, list[j])
  }

  /** The items are those that have been added and not taken away, in the order in which they came. */
  ghost predicate Listed(h: seq<Effect>, k: string, list: seq<string>) {
    && (forall item :: item in list <==> Added(h, k, item) >= 0)
    && Ordered(h, k, list)
  }

  ghost predicate KeyTold(h: seq<Effect>, k: string) {
    match Lookup(StoreAfter(h), k)
    case None => !Known(h, k) && LastPut(h, k) == None && Listed(h, k, [])
    case Some(Text(s)) => Known(h, k) && LastPut(h, k) == Some(s) && Listed(h, k, [])
    case Some(Items(list)) => Known(h, k) && LastPut(h, k) == None && Listed(h, k, list)
  }

  lemma {:induction false} AddedBefore(h: seq<Effect>, k: string, item: string)
    ensures -1 <= Added(h, k, item) < |h|
  {
    if h != [] {
      AddedBefore(h[..|h| - 1], k, item);
    }
  }

  lemma KnownStep(h: seq<Effect>, k: string)
    requires h != []
    ensures var n := |h| - 1;
            Known(h, k) <==>
            Known(h[..n], k) || (h[n].op.key == k && (h[n].op.Put? || h[n].op.Append?) && Succeeded(h[n]))
  {
    var n := |h| - 1;
    var front := h[..n];
    if Known(front, k) {
      var x :| 0 <= x < |front| && front[x].op.key == k && (front[x].op.Put? || front[x].op.Append?) &&
        Succeeded(front[x]);
      assert h[x] == front[x];
    }
    if Known(h, k) {
      var x :| 0 <= x < |h| && h[x].op.key == k && (h[x].op.Put? || h[x].op.Append?) && Succeeded(h[x]);
      assert x < n ==> front[x] == h[x];
    }
  }

  /** Removal cuts one place out of the list, if any. */
  lemma {:induction false} WithoutCuts(list: seq<string>, v: string) returns (k: nat)
    ensures v !in list ==> Without(list, v) == list
    ensures v in list ==> k < |list| && list[k] == v && Without(list, v) == list[..k] + list[k + 1..]
    decreases |list|
  {
    if list == [] || list[0] == v {
      k := 0;
    } else {
      var j := WithoutCuts(list[1..], v);
      assert list == [list[0]] + list[1..];
      k := j + 1;
      if v in list {
        assert list[..k] == [list[0]] + list[1..][..j];
        assert list[k + 1..] == list[1..][j + 1..];
        assert [list[0]] + (list[1..][..j] + list[1..][j + 1..]) == list[..k] + list[k + 1..];
      }
    }
  }

  lemma CutMembers(list: seq<string>, n: nat)
    requires n < |list| && Distinct(list)
    ensures forall x :: x in list[..n] + list[n + 1..] <==> x in list && x != list[n]
  {
    var rest := list[..n] + list[n + 1..];
    forall i | 0 <= i < |list| && i != n
      ensures list[i] in rest && list[i] != list[n]
    {
      assert rest[if i < n then i else i - 1] == list[i];
    }
  }

  lemma OrderedDistinct(h: seq<Effect>, k: string, list: seq<string>)
    requires Ordered(h, k, list)
    ensures Distinct(list)
  {
  }

  lemma CutOrdered(h: seq<Effect>, k: string, list: seq<string>, n: nat)
    requires n < |list| && Ordered(h, k, list)
    ensures Ordered(h, k, list[..n] + list[n + 1..])
  {
    var rest := list[..n] + list[n + 1..];
    assert forall i :: 0 <= i < |rest| ==> rest[i] == list[if i < n then i else i + 1];
  }

  /** Taking an item off a list keeps the others in order. */
  lemma WithoutOrdered(h: seq<Effect>, k: string, list: seq<string>, v: string)
    requires Ordered(h, k, list)
    ensures Ordered(h, k, Without(list, v)) && forall x :: x in Without(list, v) <==> x in list && x != v
  {
    var n := WithoutCuts(list, v);
    if v in list {
      OrderedDistinct(h, k, list);
      CutMembers(list, n);
      CutOrdered(h, k, list, n);
    }
  }

  /** Operations on other keys, and those that change nothing, leave a key's story as it was. */
  lemma Unmoved(h: seq<Effect>, k: string)
    requires h != [] && KeyTold(h[..|h| - 1], k)
    requires var n := |h| - 1;
             Lookup(StoreAfter(h), k) == Lookup(StoreAfter(h[..n]), k) && LastPut(h, k) == LastPut(h[..n], k)
    requires Known(h, k) <==> Known(h[..|h| - 1], k)
    requires forall item :: Added(h, k, item) == Added(h[..|h| - 1], k, item)
    ensures KeyTold(h, k)
  {
  }

  lemma Appended(h: seq<Effect>, k: string, list: seq<string>, item: string)
    requires h != [] && h[|h| - 1] == Effect(Append(k, item), Status(true)) && Listed(h[..|h| - 1], k, list)
    requires item !in list
    ensures Listed(h, k, list + [item])
  {
    var n := |h| - 1;
    forall x | x in list
      ensures Added(h, k, x) == Added(h[..n], k, x) < n
    {
      AddedBefore(h[..n], k, x);
    }
  }

  lemma Removed(h: seq<Effect>, k: string, list: seq<string>, item: string)
    requires h != [] && h[|h| - 1] == Effect(Remove(k, item), Status(true)) && Listed(h[..|h| - 1], k, list)
    ensures Listed(h, k, Without(list, item))
  {
    var n := |h| - 1;
    WithoutOrdered(h[..n], k, list, item);
    forall x | x in Without(list, item)
      ensures Added(h, k, x) == Added(h[..n], k, x)
    {
    }
  }

  lemma AppendTold(h: seq<Effect>, k: string, item: string)
    requires Legal(h) && h != [] && h[|h| - 1].op == Append(k, item) && KeyTold(h[..|h| - 1], k)
    ensures KeyTold(h, k)
  {
    var n := |h| - 1;
    KnownStep(h, k);
    var v := Lookup(StoreAfter(h[..n]), k);
    var list := if v.Some? && v.value.Items? then v.value.list else [];
    if item !in list {
      Appended(h, k, list, item);
      assert list == [] ==> list + [item] == [item];
    }
  }

  lemma RemoveTold(h: seq<Effect>, k: string, item: string)
    requires Legal(h) && h != [] && h[|h| - 1].op == Remove(k, item) && KeyTold(h[..|h| - 1], k)
    ensures KeyTold(h, k)
  {
    var n := |h| - 1;
    KnownStep(h, k);
    var v := Lookup(StoreAfter(h[..n]), k);
    if v.Some? && v.value.Items? && item in v.value.list {
      Removed(h, k, v.value.list, item);
    }
  }

  lemma {:induction false} HistoryTold(h: seq<Effect>, k: string)
    requires Legal(h)
    ensures KeyTold(h, k)
    decreases |h|
  {
    if h != [] {
      var n := |h| - 1;
      HistoryTold(h[..n], k);
      KnownStep(h, k);
      if h[n].op.Append? && h[n].op.key == k {
        AppendTold(h, k, h[n].op.value);
      } else if h[n].op.Remove? && h[n].op.key == k {
        RemoveTold(h, k, h[n].op.value);
      } else if h[n].op.Put? && h[n].op.key == k {
      } else {
        Unmoved(h, k);
      }
    }
  }

  /** What an answer has to be after these answers. */
  ghost predicate Told(h: seq<Effect>, op: Op, reply: Reply) {
    var k := op.key;
    match op
    case Put(_, _) => reply == Status(true)
    case Append(_, item) => reply == Status(Added(h, k, item) < 0)
    case Remove(_, item) => reply == Status(Added(h, k, item) >= 0)
    case Get(_) => reply == if LastPut(h, k).Some? then Found(Text(LastPut(h, k).value)) else Nil
    case GetList(_) =>
      if Known(h, k) then reply.Found? && reply.value.Items? && Listed(h, k, reply.value.list)
      else reply == Nil
  }

  lemma {:induction false} LegalPrefix(h: seq<Effect>, n: nat)
    requires Legal(h) && n < |h|
    ensures Legal(h[..n]) && h[n].reply == Apply(StoreAfter(h[..n]), h[n].op).1
    decreases |h|
  {
    if n < |h| - 1 {
      LegalPrefix(h[..|h| - 1], n);
      assert h[..|h| - 1][..n] == h[..n];
    }
  }

  /** In every run each data request is answered as the earlier answers say: an Append succeeds exactly if
      the item is not listed, a Remove exactly if it is, and a Put always; a Get finds the last string
      put, unless a list has replaced it; a GetList finds the items added and not taken away, in
      their order, exactly if something has been written under the key. */
  lemma AnswersTell(ws: seq<World>, es: seq<Event>, n: nat)
    requires Run(ws, es) && n < |History(ws[|es|])|
    ensures var h := History(ws[|es|]); Told(h[..n], h[n].op, h[n].reply)
  {
    R.SequentialStore(ws, es);
    var h := History(ws[|es|]);
    LegalPrefix(h, n);
    HistoryTold(h[..n], h[n].op.key);
  }
}
