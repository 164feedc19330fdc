/** Which storage server owns a key: the scan that clients and servers both run. */
module ConsistentHash {
  import Strings

  /** Node ids and key hashes are 32-bit numbers on a ring. */
  const RING: nat := 0x1_0000_0000

  type Id = i: nat | i < RING

  datatype Node = Node(hostPort: string, id: Id)

  /** How far clockwise the id lies from the key. */
  function Distance(key: Id, id: Id): nat {
    (id - key) % RING
  }

  /** No server lies closer clockwise: the server at `m` is the cyclic successor of the key. */
  ghost predicate Closest(servers: seq<Node>, key: Id, m: nat)
    requires m < |servers|
  {
    forall j :: 0 <= j < |servers| ==> Distance(key, servers[m].id) <= Distance(key, servers[j].id)
  }

  ghost predicate DistinctIds(servers: seq<Node>) {
    forall i, j :: 0 <= i < j < |servers| ==> servers[i].id != servers[j].id
  }

  lemma DistanceCases(key: Id, id: Id)
    ensures Distance(key, id) == if id >= key then id - key else id - key + RING
  {
  }

  function KeyId(hash: string -> Id, key: string): Id {
    hash(Strings.Split(key, ":")[0])
  }

  /** The text before the first ':' of the key, or the whole key. */
  predicate IsHead(head: string, key: string) {
    ':' !in head && head <= key && (key == head || key[|head|] == ':')
  }

  lemma KeyIdIs(hash: string -> Id, key: string, head: string)
    requires IsHead(head, key)
    ensures KeyId(hash, key) == hash(head)
  {
    if key == head {
      Strings.SplitSingle(head, ':');
    } else {
      var tail := key[|head| + 1..];
      assert key == head + ":" + tail;
      Strings.SplitFirst(head, ":", tail);
    }
  }

  /** Keys are placed by their heads alone: with one head they have one id, whatever follows, and with
      different heads different ids, if the hash does not collide on the two. */
  lemma PlacedByHead(hash: string -> Id, key: string, head: string, key': string, head': string)
    requires IsHead(head, key) && IsHead(head', key')
    requires hash(head) == hash(head') ==> head == head'
    ensures KeyId(hash, key) == KeyId(hash, key') <==> head == head'
  {
    KeyIdIs(hash, key, head);
    KeyIdIs(hash, key', head');
  }

  // ---- the client ----

  class Libstore {
    var nodelist: seq<Node>

    constructor (nodelist: seq<Node>)
      ensures this.nodelist == nodelist
    {
      this.nodelist := nodelist;
    }

    /** The index of the server to ask for the key. */
    method GetServer(hash: string -> Id, key: string) returns (currentMachine: nat)
      requires nodelist != []
      ensures currentMachine < |nodelist| && Closest(nodelist, KeyId(hash, key), currentMachine)
    {
      var precolon := Strings.Split(key, ":")[0];
      var keyid := hash(precolon);
      var largeHash := false;
      currentMachine := 0;
      for i := 0 to |nodelist|
        invariant currentMachine < |nodelist|
        invariant largeHash ==> nodelist[currentMachine].id >= keyid
        invariant !largeHash ==> forall j :: 0 <= j < i ==> nodelist[j].id < keyid
      {
        if nodelist[i].id >= keyid {
          currentMachine := i;
          largeHash := true;
        }
      }
      if largeHash {
        for i := 0 to |nodelist|
          invariant currentMachine < |nodelist| && nodelist[currentMachine].id >= keyid
          invariant forall j :: 0 <= j < i && nodelist[j].id >= keyid ==>
                                  nodelist[currentMachine].id <= nodelist[j].id
        {
          if nodelist[i].id >= keyid && nodelist[i].id < nodelist[currentMachine].id {
            currentMachine := i;
          }
        }
      } else {
        for i := 0 to |nodelist|
          invariant currentMachine < |nodelist|
          invariant forall j :: 0 <= j < i ==> nodelist[currentMachine].id <= nodelist[j].id
        {
          if nodelist[i].id < nodelist[currentMachine].id {
            currentMachine := i;
          }
        }
      }
      forall j | 0 <= j < |nodelist|
        ensures Distance(keyid, nodelist[currentMachine].id) <= Distance(keyid, nodelist[j].id)
      {
        DistanceCases(keyid, nodelist[currentMachine].id);
        DistanceCases(keyid, nodelist[j].id);
      }
    }
  }

  // ---- the server ----

  /** The server that runs the same scan and finds its own id. */
  ghost predicate Owns(servers: seq<Node>, key: Id, nodeid: Id) {
    exists m :: 0 <= m < |servers| && servers[m].id == nodeid && Closest(servers, key, m)
  }

  class Storageserver {
    var servers: seq<Node>
    var nodeid: Id

    constructor (servers: seq<Node>, nodeid: Id)
      ensures this.servers == servers && this.nodeid == nodeid
    {
      this.servers, this.nodeid := servers, nodeid;
    }

    method IsKeyInRange(hash: string -> Id, key: string) returns (inRange: bool)
      requires servers != []
      ensures inRange <==> Owns(servers, KeyId(hash, key), nodeid)
    {
      var precolon := Strings.Split(key, ":")[0];
      var keyid := hash(precolon);
      var largeHash := false;
      var currentMachine := 0;
      for i := 0 to |servers|
        invariant 0 <= currentMachine < |servers|
        invariant largeHash ==> servers[currentMachine].id >= keyid
        invariant !largeHash ==> forall j :: 0 <= j < i ==> servers[j].id < keyid
      {
        if servers[i].id >= keyid {
          currentMachine := i;
          largeHash := true;
        }
      }
      if largeHash {
        for i := 0 to |servers|
          invariant 0 <= currentMachine < |servers| && servers[currentMachine].id >= keyid
          invariant forall j :: 0 <= j < i && servers[j].id >= keyid ==> servers[currentMachine].id <= servers[j].id
        {
          if servers[i].id >= keyid && servers[i].id < servers[currentMachine].id {
            currentMachine := i;
          }
        }
      } else {
        for i := 0 to |servers|
          invariant 0 <= currentMachine < |servers|
          invariant forall j :: 0 <= j < i ==> servers[currentMachine].id <= servers[j].id
        {
          if servers[i].id < servers[currentMachine].id {
            currentMachine := i;
          }
        }
      }
      forall j | 0 <= j < |servers|
        ensures Distance(keyid, servers[currentMachine].id) <= Distance(keyid, servers[j].id)
      {
        DistanceCases(keyid, servers[currentMachine].id);
        DistanceCases(keyid, servers[j].id);
      }
      inRange := servers[currentMachine].id == nodeid;
      ClosestId(servers, servers, keyid, currentMachine);
    }
  }

  // ---- what the two scans agree on ----

  /** Keys with one head belong to one server. */
  lemma OneHeadOneOwner(hash: string -> Id, servers: seq<Node>, key: string, key': string, head: string, nodeid: Id)
    requires IsHead(head, key) && IsHead(head, key')
    ensures Owns(servers, KeyId(hash, key), nodeid) <==> Owns(servers, KeyId(hash, key'), nodeid)
  {
    KeyIdIs(hash, key, head);
    KeyIdIs(hash, key', head);
  }

  lemma SameDistance(key: Id, a: Id, b: Id)
    requires Distance(key, a) == Distance(key, b)
    ensures a == b
  {
    DistanceCases(key, a);
    DistanceCases(key, b);
  }

  /** The successor's id depends on the set of servers only, not on the order of the list. */
  lemma ClosestId(servers: seq<Node>, others: seq<Node>, key: Id, m: nat)
    requires m < |servers| && Closest(servers, key, m)
    requires forall n :: n in others <==> n in servers
    ensures forall k :: 0 <= k < |others| && Closest(others, key, k) ==> others[k].id == servers[m].id
    ensures exists k :: 0 <= k < |others| && others[k] == servers[m] && Closest(others, key, k)
  {
    assert servers[m] in others;
    var i :| 0 <= i < |others| && others[i] == servers[m];
    forall j | 0 <= j < |others|
      ensures Distance(key, others[i].id) <= Distance(key, others[j].id)
    {
      assert others[j] in servers;
    }
    forall k | 0 <= k < |others| && Closest(others, key, k)
      ensures others[k].id == servers[m].id
    {
      SameDistance(key, others[k].id, others[i].id);
    }
  }

  /** With distinct ids exactly one server accepts the key: the one a client picks, from a list in
      any order. */
  lemma OneServerAccepts(nodelist: seq<Node>, servers: seq<Node>, key: Id, m: nat, j: nat)
    requires DistinctIds(servers) && (forall n :: n in servers <==> n in nodelist)
    requires m < |nodelist| && Closest(nodelist, key, m) && j < |servers|
    ensures Owns(servers, key, servers[j].id) <==> servers[j] == nodelist[m]
  {
    ClosestId(nodelist, servers, key, m);
  }

  /** A new server takes over exactly the keys that lie closer to it; all others stay. */
  lemma AddServer(servers: seq<Node>, n: Node, key: Id, m: nat, k: nat)
    requires m < |servers| && Closest(servers, key, m)
    requires k <= |servers| && Closest(servers + [n], key, k) && DistinctIds(servers + [n])
    ensures k == if Distance(key, n.id) < Distance(key, servers[m].id) then |servers| else m
  {
    var all := servers + [n];
    assert all[m] == servers[m] && all[|servers|] == n;
    assert k < |servers| ==> all[k] == servers[k];
    if k == |servers| {
      if Distance(key, n.id) == Distance(key, servers[m].id) {
        SameDistance(key, n.id, servers[m].id);
      }
    } else {
      SameDistance(key, servers[k].id, servers[m].id);
    }
  }
}
