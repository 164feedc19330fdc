/** The unbounded linked FIFO used for deferred writes and prepared logs. */
module Buf {
  import opened Options

  class BufEle<T> {
    const val: T
    var next: BufEle?<T>

    constructor (val: T)
      ensures this.val == val && next == null
    {
      this.val := val;
      next := null;
    }
  }

  function Vals<T>(ns: seq<BufEle<T>>): seq<T> {
    seq(|ns|, i requires 0 <= i < |ns| => ns[i].val)
  }

  class Buf<T> {
    var head: BufEle?<T>
    var tail: BufEle?<T>
    ghost var nodes: seq<BufEle<T>>

    ghost predicate Valid()
      reads this, nodes
    {
      && head == (if nodes == [] then null else nodes[0])
      && tail == (if nodes == [] then null else nodes[|nodes| - 1])
      && (forall i {:trigger nodes[i].next} :: 0 <= i < |nodes| - 1 ==> nodes[i].next == nodes[i + 1])
      && (nodes != [] ==> nodes[|nodes| - 1].next == null)
      && (forall i, j :: 0 <= i < j < |nodes| ==> nodes[i] != nodes[j])
    }

    ghost function Contents(): seq<T>
      reads this
    {
      Vals(nodes)
    }

    constructor ()
      ensures Valid() && Contents() == [] && nodes == []
    {
      head, tail, nodes := null, null, [];
    }

    method Insert(val: T)
      requires Valid()
      modifies this, nodes
      ensures Valid() && |nodes| > 0 && fresh(nodes[|nodes| - 1]) && nodes == old(nodes) + [nodes[|nodes| - 1]]
      ensures Contents() == old(Contents()) + [val]
    {
      var ele := new BufEle(val);
      if head == null {
        head := ele;
      } else {
        tail.next := ele;
      }
      tail := ele;
      nodes := nodes + [ele];
    }

    method Front() returns (val: Option<T>)
      requires Valid()
      ensures val == if Contents() == [] then None else Some(Contents()[0])
    {
      if head == null {
        return None;
      }
      return Some(head.val);
    }

    method Remove() returns (val: Option<T>)
      requires Valid()
      modifies this
      ensures Valid() && (forall n :: n in nodes ==> n in old(nodes))
      ensures old(Contents()) == [] ==> val == None && Contents() == []
      ensures old(Contents()) != [] ==> val == Some(old(Contents())[0]) && Contents() == old(Contents())[1..]
    {
      var e := head;
      if e == null {
        return None;
      }
      assert |nodes| > 1 ==> nodes[0] != nodes[|nodes| - 1];
      head := e.next;
      if e == tail {
        tail := null;
      }
      nodes := nodes[1..];
      return Some(e.val);
    }

    method Empty() returns (empty: bool)
      requires Valid()
      ensures empty <==> Contents() == []
    {
      empty := head == null;
    }

    method Flush()
      modifies this
      ensures Valid() && Contents() == []
    {
      head, tail, nodes := null, null, [];
    }
  }
}
