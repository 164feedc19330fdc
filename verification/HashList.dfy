/** The doubly linked, hash-indexed list behind list values of the storage server. */
module HashList {

  function Without(s: seq<string>, v: string): seq<string> {
    if s == [] then [] else if s[0] == v then s[1..] else [s[0]] + Without(s[1..], v)
  }

  class HlEle {
    const val: string
    var next: HlEle?
    var before: HlEle?

    constructor (val: string)
      ensures this.val == val && next == null && before == null
    {
      this.val := val;
      next, before := null, null;
    }
  }

  function Vals(ns: seq<HlEle>): seq<string> {
    seq(|ns|, i requires 0 <= i < |ns| => ns[i].val)
  }

  /** Values that are all different. */
  ghost predicate Distinct(s: seq<string>) {
    forall i, j :: 0 <= i < j < |s| ==> s[i] != s[j]
  }

  ghost predicate Finds(ns: seq<HlEle>, m: map<string, HlEle>) {
    forall i :: 0 <= i < |ns| ==> ns[i].val in m && m[ns[i].val] == ns[i]
  }

  ghost predicate Leads(ns: seq<HlEle>, m: map<string, HlEle>) {
    forall v :: v in m ==> m[v] in ns && m[v].val == v
  }

  /** The map finds exactly the nodes, by values that are all different. */
  ghost predicate IndexOk(ns: seq<HlEle>, m: map<string, HlEle>) {
    Distinct(Vals(ns)) && Finds(ns, m) && Leads(ns, m)
  }

  function Cut<T>(s: seq<T>, k: nat): (r: seq<T>)
    requires k < |s|
    ensures |r| == |s| - 1
    ensures forall i :: 0 <= i < |r| ==> r[i] == s[if i < k then i else i + 1]
  {
    s[..k] + s[k + 1..]
  }

  lemma ValsCut(ns: seq<HlEle>, k: nat)
    requires k < |ns|
    ensures Vals(Cut(ns, k)) == Cut(Vals(ns), k)
  {
  }

  lemma DistinctCut(s: seq<string>, k: nat)
    requires k < |s| && Distinct(s)
    ensures Distinct(Cut(s, k)) && s[k] !in s[..k] && s[k] !in Cut(s, k)
  {
  }

  lemma FindsCut(ns: seq<HlEle>, m: map<string, HlEle>, k: nat)
    requires k < |ns| && Distinct(Vals(ns)) && Finds(ns, m)
    ensures Finds(Cut(ns, k), m - {ns[k].val})
  {
    forall i | 0 <= i < |ns| - 1
      ensures Cut(ns, k)[i].val != ns[k].val
    {
      var j := if i < k then i else i + 1;
      assert Vals(ns)[j] != Vals(ns)[k];
    }
  }

  lemma IndexCut(ns: seq<HlEle>, m: map<string, HlEle>, k: nat)
    requires IndexOk(ns, m) && k < |ns|
    ensures IndexOk(Cut(ns, k), m - {ns[k].val})
    ensures Vals(Cut(ns, k)) == Cut(Vals(ns), k)
    ensures ns[k].val !in Vals(ns)[..k]
  {
    ValsCut(ns, k);
    DistinctCut(Vals(ns), k);
    FindsCut(ns, m, k);
  }

  class HashList {
    var head: HlEle?
    var tail: HlEle?
    var listMap: map<string, HlEle>
    var cnt: int
    ghost var nodes: seq<HlEle>

    /** The nodes in order, distinct and linked in both directions. */
    ghost predicate Chained()
      reads this, nodes
    {
      && head == (if nodes == [] then null else nodes[0])
      && tail == (if nodes == [] then null else nodes[|nodes| - 1])
      && (forall i {:trigger nodes[i].next} :: 0 <= i < |nodes| - 1 ==> nodes[i].next == nodes[i + 1])
      && (nodes != [] ==> nodes[|nodes| - 1].next == null)
      && (forall i {:trigger nodes[i].before} :: 0 < i < |nodes| ==> nodes[i].before == nodes[i - 1])
      && (nodes != [] ==> nodes[0].before == null)
      && (forall i, j :: 0 <= i < j < |nodes| ==> nodes[i] != nodes[j])
    }

    ghost predicate Indexed()
      reads this
    {
      cnt == |nodes| && IndexOk(nodes, listMap)
    }

    ghost predicate Valid()
      reads this, nodes
    {
      Chained() && Indexed()
    }

    ghost function Contents(): seq<string>
      reads this
    {
      Vals(nodes)
    }

    constructor ()
      ensures Valid() && Contents() == [] && nodes == []
    {
      head, tail, listMap, cnt, nodes := null, null, map[], 0, [];
    }

    /** Appends a value that is not in the list yet. */
    method Insert(val: string)
      requires Valid() && val !in Contents()
      modifies this, nodes
      ensures Valid() && |nodes| > 0 && fresh(nodes[|nodes| - 1]) && nodes == old(nodes) + [nodes[|nodes| - 1]]
      ensures Contents() == old(Contents()) + [val]
    {
      NotListed(val);
      var ele := new HlEle(val);
      Add(val, ele);
    }

    method Add(val: string, ele: HlEle)
      requires Chained() && ele !in nodes && ele.next == null && ele.before == null
      modifies this, nodes, ele
      ensures Chained() && nodes == old(nodes) + [ele]
      ensures listMap == old(listMap)[val := ele] && cnt == old(cnt) + 1
    {
      Link(ele);
      listMap := listMap[val := ele];
      cnt := cnt + 1;
    }

    method Link(ele: HlEle)
      requires Chained() && ele !in nodes && ele.next == null && ele.before == null
      modifies `head, `tail, `nodes, nodes, ele
      ensures Chained() && nodes == old(nodes) + [ele]
    {
      if head == null {
        head := ele;
      } else {
        tail.next := ele;
        ele.before := tail;
      }
      tail := ele;
      nodes := nodes + [ele];
    }

    lemma NotListed(val: string)
      requires Valid()
      ensures val in listMap <==> val in Contents()
    {
      if val in listMap {
        var i :| 0 <= i < |nodes| && nodes[i] == listMap[val];
        assert Contents()[i] == val;
      }
    }

    /** Unlinks the value, if present, and keeps the order of the others. */
    method Remove(val: string)
      requires Valid()
      modifies this, nodes
      ensures Valid() && (forall n :: n in nodes ==> n in old(nodes))
      ensures Contents() == Without(old(Contents()), val)
    {
      NotListed(val);
      if val in listMap {
        ghost var k :| 0 <= k < |nodes| && nodes[k] == listMap[val];
        IndexCut(nodes, listMap, k);
        WithoutAt(Contents(), val, k);
        Drop(val, k);
      } else {
        WithoutAbsent(Contents(), val);
      }
    }

    method Drop(val: string, ghost k: nat)
      requires Chained() && val in listMap && k < |nodes| && nodes[k] == listMap[val]
      modifies this, nodes
      ensures Chained() && nodes == Cut(old(nodes), k)
      ensures listMap == old(listMap) - {val} && cnt == old(cnt) - 1
    {
      var e := listMap[val];
      Unlink(e, k);
      listMap := listMap - {val};
      cnt := cnt - 1;
    }

    method Unlink(e: HlEle, ghost k: nat)
      requires Chained() && k < |nodes| && nodes[k] == e
      modifies `head, `tail, `nodes, nodes
      ensures Chained() && nodes == Cut(old(nodes), k)
    {
      ghost var was := nodes;
      assert k > 0 ==> e.before == was[k - 1] && was[k - 1] != e;
      assert k + 1 < |was| ==> e.next == was[k + 1] && was[k + 1] != e;
      if e.before != null {
        e.before.next := e.next;
      }
      assert k + 1 < |was| ==> e.next == was[k + 1];
      if e.next != null {
        e.next.before := e.before;
      }
      if head == e {
        head := e.next;
      }
      if tail == e {
        tail := e.before;
      }
      nodes := Cut(nodes, k);
      ghost var n := |nodes|;
      forall i | 0 <= i < n
        ensures nodes[i].next == if i == n - 1 then null else nodes[i + 1]
      {
        assert nodes[i] == was[if i < k then i else i + 1];
      }
      forall i | 0 <= i < n
        ensures nodes[i].before == if i == 0 then null else nodes[i - 1]
      {
        assert nodes[i] == was[if i < k then i else i + 1];
      }
    }

    method Exist(val: string) returns (found: bool)
      requires Valid()
      ensures found <==> val in Contents()
    {
      NotListed(val);
      found := val in listMap;
    }

    /** The whole list, in order of insertion. */
    method List() returns (list: array<string>)
      requires Valid()
      ensures fresh(list) && list[..] == Contents()
    {
      list := new string[cnt](i => "");
      var lp := head;
      for i := 0 to cnt
        invariant lp == if i < |nodes| then nodes[i] else null
        invariant forall j :: 0 <= j < i ==> list[j] == nodes[j].val
      {
        list[i] := lp.val;
        lp := lp.next;
      }
    }
  }

  lemma {:induction false} WithoutAt(s: seq<string>, v: string, k: nat)
    requires k < |s| && s[k] == v && v !in s[..k]
    ensures Without(s, v) == s[..k] + s[k + 1..]
  {
    if k > 0 {
      var t := s[1..];
      assert s[0] == s[..k][0];
      assert t[..k - 1] == s[..k][1..];
      WithoutAt(t, v, k - 1);
      assert s[..k] == [s[0]] + t[..k - 1];
      assert s[k + 1..] == t[k..];
    }
  }

  lemma {:induction false} WithoutAbsent(s: seq<string>, v: string)
    requires v !in s
    ensures Without(s, v) == s
  {
    if s != [] {
      WithoutAbsent(s[1..], v);
    }
  }

  /** Removal takes exactly that value out and leaves the others distinct. */
  lemma {:induction false} WithoutElements(s: seq<string>, v: string)
    requires Distinct(s)
    ensures v !in Without(s, v) && Distinct(Without(s, v))
    ensures forall x :: x != v ==> (x in Without(s, v) <==> x in s)
    ensures |Without(s, v)| == |s| - (if v in s then 1 else 0)
  {
    if s != [] {
      assert s == [s[0]] + s[1..];
      assert s[0] !in s[1..];
      if s[0] != v {
        WithoutElements(s[1..], v);
      }
    }
  }

  /** Inserting a new value and removing it again changes nothing. */
  lemma InsertRemove(s: seq<string>, v: string)
    requires v !in s
    ensures Without(s + [v], v) == s
  {
    WithoutAt(s + [v], v, |s|);
  }
}
