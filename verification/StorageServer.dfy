/** The storage server's event loop: one handler over the cache, the leases, the deferred writes and
    the bans on new leases. */
module StorageServer {
  import opened Options
  import opened HashList
  import opened SimpleStore

  type Client = string
  type TimerId = nat

  /** What arrives on the request channel. `Expired` is the request of a lease timer. */
  datatype Call =
    | Data(op: Op)
    | PutLease(key: string, client: Client)
    | RevokeLease(key: string, client: Client)
    | Expired(key: string, client: Client)

  /** `id` stands for the reply channel the request carries. */
  datatype Request = Request(call: Call, id: nat)

  datatype Answer = Answer(id: nat, reply: Reply)

  /** Besides its replies, a step may ask clients to give their lease back, start a lease timer
      and signal another one to stop. */
  datatype Output = Output(answers: seq<Answer>, revoked: set<Client>,
                           started: Option<TimerId>, cancelled: Option<TimerId>)

  /** Only writes are ever deferred. */
  type Write = op: Op | IsWrite(op) witness Put("", "")

  datatype Deferred = Deferred(op: Write, id: nat)

  datatype State = State(cache: Cache,
                         leases: map<string, map<Client, TimerId>>,
                         deferred: map<string, seq<Deferred>>,
                         bans: map<string, int>,
                         nextTimer: TimerId)

  const START: State := State(map[], map[], map[], map[], 0)

  function Reply1(answer: Answer): Output {
    Output([answer], {}, None, None)
  }

  /** Writes whose outcome is known without touching anything are answered at once. */
  function PreCheck(c: Cache, op: Op): Option<Reply> {
    match op
    case Put(key, value) =>
      if key in c && c[key] == Text(value) then Some(Status(true)) else None
    case Append(key, value) =>
      if HasList(c, key) && value in c[key].list then Some(Status(false)) else None
    case Remove(key, value) =>
      if HasList(c, key) && value in c[key].list then None else Some(Status(false))
    case _ => None
  }

  /** An answer before the deferring check is the one the write would get now, without effect. */
  lemma PreCheckAgrees(c: Cache, op: Op)
    requires PreCheck(c, op).Some?
    ensures Apply(c, op) == (c, PreCheck(c, op).value)
  {
    assert Apply(c, op).0 == c;
  }

  // ---- deferring ----

  function Queue(s: State, key: string): seq<Deferred> {
    if key in s.deferred then s.deferred[key] else []
  }

  function Defer(s: State, op: Write, id: nat): State {
    var count := if op.key in s.bans then s.bans[op.key] else 0;
    s.(bans := s.bans[op.key := count + 1],
       deferred := s.deferred[op.key := Queue(s, op.key) + [Deferred(op, id)]])
  }

  function Operate(s: State, op: Op, id: nat): (State, Output) {
    var early := PreCheck(s.cache, op);
    if early.Some? then (s, Reply1(Answer(id, early.value)))
    else if IsWrite(op) && op.key in s.leases then
      (Defer(s, op, id), Output([], s.leases[op.key].Keys, None, None))
    else
      var (c, reply) := Apply(s.cache, op);
      (s.(cache := c), Reply1(Answer(id, reply)))
  }

  // ---- leases ----

  function Holders(s: State, key: string): map<Client, TimerId> {
    if key in s.leases then s.leases[key] else map[]
  }

  function Grant(s: State, key: string, client: Client, id: nat): (State, Output) {
    if key in s.bans then (s, Reply1(Answer(id, Status(false))))
    else
      var t := s.nextTimer;
      var h := Holders(s, key);
      (s.(leases := s.leases[key := h[client := t]], nextTimer := t + 1),
       Output([Answer(id, Status(true))], {}, Some(t),
              if client in h then Some(h[client]) else None))
  }

  /** The deferred writes in order, and their replies. */
  function Drain(c: Cache, q: seq<Deferred>): (Cache, seq<Answer>) {
    if q == [] then (c, [])
    else
      var n := |q| - 1;
      var (c1, answers) := Drain(c, q[..n]);
      var (c2, reply) := Apply(c1, q[n].op);
      (c2, answers + [Answer(q[n].id, reply)])
  }

  /** Without leases on the key, its deferred writes go through. */
  function Unleased(s: State, key: string): (State, seq<Answer>) {
    var s1 := s.(leases := s.leases - {key});
    if key !in s.deferred then (s1, [])
    else
      var (c, answers) := Drain(s.cache, s.deferred[key]);
      (s1.(cache := c, bans := s.bans - {key}, deferred := s.deferred[key := []]), answers)
  }

  lemma UnleasedForgets(s: State, key: string, h: map<Client, TimerId>)
    ensures Unleased(s.(leases := s.leases[key := h]), key) == Unleased(s, key)
  {
    assert s.leases[key := h] - {key} == s.leases - {key};
  }

  function Release(s: State, key: string, client: Client): (State, seq<Answer>)
    requires key in s.leases
  {
    var left := s.leases[key] - {client};
    if left != map[] then (s.(leases := s.leases[key := left]), [])
    else Unleased(s, key)
  }

  function Revoke(s: State, key: string, client: Client, id: nat): (State, Output) {
    if client in Holders(s, key) then
      var (s', answers) := Release(s, key, client);
      (s', Output(answers + [Answer(id, Status(true))], {}, None, Some(s.leases[key][client])))
    else (s, Reply1(Answer(id, Status(true))))
  }

  function Expire(s: State, key: string, client: Client, id: nat): (State, Output) {
    if key in s.leases then
      var (s', answers) := Release(s, key, client);
      (s', Output(answers + [Answer(id, Status(true))], {}, None, None))
    else (s, Reply1(Answer(id, Status(true))))
  }

  function Step(s: State, r: Request): (State, Output) {
    match r.call
    case Data(op) => Operate(s, op, r.id)
    case PutLease(key, client) => Grant(s, key, client, r.id)
    case RevokeLease(key, client) => Revoke(s, key, client, r.id)
    case Expired(key, client) => Expire(s, key, client, r.id)
  }

  // ---- the handler ----

  /** The four maps of the loop, updated in place. */
  class AppHandler {
    var cacheMap: Cache
    var leaseMap: map<string, map<Client, TimerId>>
    var defReqMap: map<string, seq<Deferred>>
    var banLeaseMap: map<string, int>
    var nextTimer: TimerId

    function Abs(): State
      reads this
    {
      State(cacheMap, leaseMap, defReqMap, banLeaseMap, nextTimer)
    }

    constructor ()
      ensures Abs() == START
    {
      cacheMap, leaseMap, defReqMap, banLeaseMap, nextTimer := map[], map[], map[], map[], 0;
    }

    method Handle(r: Request) returns (o: Output)
      modifies this
      ensures Abs() == Step(old(Abs()), r).0
      ensures o == Step(old(Abs()), r).1
    {
      match r.call {
        case Data(op) => o := HandleData(op, r.id);
        case PutLease(key, client) => o := HandlePutLease(key, client, r.id);
        case RevokeLease(key, client) => o := HandleRevoke(key, client, r.id);
        case Expired(key, client) => o := HandleExpired(key, client, r.id);
      }
    }

    // -- data requests --

    method HandleData(op: Op, id: nat) returns (o: Output)
      modifies this
      ensures Abs() == Operate(old(Abs()), op, id).0
      ensures o == Operate(old(Abs()), op, id).1
    {
      var early := Check(op);
      if early.Some? {
        return Reply1(Answer(id, early.value));
      }
      if (op.Put? || op.Append? || op.Remove?) && op.key in leaseMap {
        var leaseList := leaseMap[op.key];
        Postpone(op, id);
        return Output([], leaseList.Keys, None, None);
      }
      var reply := Process(op);
      return Reply1(Answer(id, reply));
    }

    method Check(op: Op) returns (early: Option<Reply>)
      ensures early == PreCheck(cacheMap, op)
    {
      early := None;
      match op {
        case Put(key, value) =>
          if key in cacheMap && cacheMap[key] == Text(value) {
            early := Some(Status(true));
          }
        case Append(key, value) =>
          if key in cacheMap {
            match cacheMap[key] {
              case Items(hl) =>
                if value in hl {
                  early := Some(Status(false));
                }
              case Text(_) =>
            }
          }
        case Remove(key, value) =>
          if key in cacheMap {
            match cacheMap[key] {
              case Items(hl) =>
                if value !in hl {
                  early := Some(Status(false));
                }
              case Text(_) =>
                early := Some(Status(false));
            }
          } else {
            early := Some(Status(false));
          }
        case Get(_) =>
        case GetList(_) =>
      }
    }

    method Postpone(op: Write, id: nat)
      modifies `defReqMap, `banLeaseMap
      ensures Abs() == Defer(old(Abs()), op, id)
    {
      if op.key in banLeaseMap {
        banLeaseMap := banLeaseMap[op.key := banLeaseMap[op.key] + 1];
      } else {
        banLeaseMap := banLeaseMap[op.key := 1];
      }
      if op.key in defReqMap {
        defReqMap := defReqMap[op.key := defReqMap[op.key] + [Deferred(op, id)]];
      } else {
        var defReqList := [];
        defReqList := defReqList + [Deferred(op, id)];
        defReqMap := defReqMap[op.key := defReqList];
      }
    }

    /** Reads, and writes on keys without a lease. */
    method Process(op: Op) returns (reply: Reply)
      modifies `cacheMap
      ensures cacheMap == Apply(old(cacheMap), op).0
      ensures reply == Apply(old(cacheMap), op).1
    {
      match op {
        case Put(key, value) =>
          cacheMap := cacheMap[key := Text(value)];
          return Status(true);
        case Get(key) =>
          if key in cacheMap && cacheMap[key].Text? {
            return Found(cacheMap[key]);
          }
          return Nil;
        case Append(key, value) =>
          if key in cacheMap && cacheMap[key].Items? {
            var hl := cacheMap[key].list;
            if value in hl {
              return Status(false);
            }
            cacheMap := cacheMap[key := Items(hl + [value])];
            return Status(true);
          }
          cacheMap := cacheMap[key := Items([value])];
          return Status(true);
        case GetList(key) =>
          if key in cacheMap {
            match cacheMap[key] {
              case Items(hl) => return Found(Items(hl));
              case Text(_) => return Found(Items([]));
            }
          }
          return Nil;
        case Remove(key, value) =>
          if key in cacheMap {
            match cacheMap[key] {
              case Items(hl) =>
                if value in hl {
                  cacheMap := cacheMap[key := Items(Without(hl, value))];
                  return Status(true);
                }
                return Status(false);
              case Text(_) => return Status(false);
            }
          }
          return Status(false);
      }
    }

    // -- leases --

    method HandlePutLease(key: string, client: Client, id: nat) returns (o: Output)
      modifies `leaseMap, `nextTimer
      ensures Abs() == Grant(old(Abs()), key, client, id).0
      ensures o == Grant(old(Abs()), key, client, id).1
    {
      if key in banLeaseMap {
        return Reply1(Answer(id, Status(false)));
      }
      var leaseTimerChan := nextTimer;
      var cancelled := None;
      nextTimer := nextTimer + 1;
      if key in leaseMap {
        var leaseList := leaseMap[key];
        if client in leaseList {
          cancelled := Some(leaseList[client]);
        }
        leaseMap := leaseMap[key := leaseList[client := leaseTimerChan]];
      } else {
        var leaseList := map[];
        leaseList := leaseList[client := leaseTimerChan];
        leaseMap := leaseMap[key := leaseList];
      }
      return Output([Answer(id, Status(true))], {}, Some(leaseTimerChan), cancelled);
    }

    method HandleRevoke(key: string, client: Client, id: nat) returns (o: Output)
      modifies this
      ensures Abs() == Revoke(old(Abs()), key, client, id).0
      ensures o == Revoke(old(Abs()), key, client, id).1
    {
      var answers := [];
      var cancelled := None;
      if key in leaseMap {
        var leaseList := leaseMap[key];
        if client in leaseList {
          cancelled := Some(leaseList[client]);
          leaseList := leaseList - {client};
          leaseMap := leaseMap[key := leaseList];
          UnleasedForgets(old(Abs()), key, leaseList);
          if |leaseList| == 0 {
            answers := LastRevoked(key);
          }
        }
      }
      o := Output(answers + [Answer(id, Status(true))], {}, None, cancelled);
    }

    method HandleExpired(key: string, client: Client, id: nat) returns (o: Output)
      modifies this
      ensures Abs() == Expire(old(Abs()), key, client, id).0
      ensures o == Expire(old(Abs()), key, client, id).1
    {
      var answers := [];
      if key in leaseMap {
        var leaseList := leaseMap[key] - {client};
        leaseMap := leaseMap[key := leaseList];
        UnleasedForgets(old(Abs()), key, leaseList);
        if |leaseList| == 0 {
          answers := LastExpired(key);
        }
      }
      o := Output(answers + [Answer(id, Status(true))], {}, None, None);
    }

    // -- deferred writes, after a revocation and after an expiry --

    method DrainRevoked(key: string) returns (answers: seq<Answer>)
      requires key in defReqMap
      modifies `cacheMap, `defReqMap
      ensures cacheMap == Drain(old(cacheMap), old(defReqMap)[key]).0
      ensures answers == Drain(old(cacheMap), old(defReqMap)[key]).1
      ensures defReqMap == old(defReqMap)[key := []]
    {
      var defReqList := defReqMap[key];
      ghost var q := defReqList;
      ghost var n := 0;
      answers := [];
      while defReqList != []
        invariant defReqMap == old(defReqMap)
        invariant n <= |q| && defReqList == q[n..]
        invariant cacheMap == Drain(old(cacheMap), q[..n]).0
        invariant answers == Drain(old(cacheMap), q[..n]).1
        decreases |defReqList|
      {
        var request := defReqList[0];
        defReqList := defReqList[1..];
        var reply := WriteRevoked(request.op);
        answers := answers + [Answer(request.id, reply)];
        assert q[..n + 1][..n] == q[..n];
        n := n + 1;
      }
      assert q[..n] == q;
      defReqMap := defReqMap[key := defReqList];
    }

    method LastRevoked(key: string) returns (answers: seq<Answer>)
      modifies this
      ensures Abs() == Unleased(old(Abs()), key).0
      ensures answers == Unleased(old(Abs()), key).1
    {
      leaseMap := leaseMap - {key};
      answers := [];
      if key in defReqMap {
        banLeaseMap := banLeaseMap - {key};
        answers := DrainRevoked(key);
      }
    }

    method WriteRevoked(op: Write) returns (reply: Reply)
      modifies `cacheMap
      ensures cacheMap == Apply(old(cacheMap), op).0
      ensures reply == Apply(old(cacheMap), op).1
    {
      match op {
        case Put(key, value) =>
          cacheMap := cacheMap[key := Text(value)];
          return Status(true);
        case Append(key, value) =>
          if key in cacheMap {
            match cacheMap[key] {
              case Items(hl) =>
                if value in hl {
                  return Status(false);
                } else {
                  cacheMap := cacheMap[key := Items(hl + [value])];
                  return Status(true);
                }
              case Text(_) =>
            }
          }
          cacheMap := cacheMap[key := Items([value])];
          return Status(true);
        case Remove(key, value) =>
          if key in cacheMap {
            match cacheMap[key] {
              case Items(hl) =>
                if value in hl {
                  cacheMap := cacheMap[key := Items(Without(hl, value))];
                  return Status(true);
                } else {
                  return Status(false);
                }
              case Text(_) =>
                return Status(false);
            }
          } else {
            return Status(false);
          }
      }
    }

    method DrainExpired(key: string) returns (answers: seq<Answer>)
      requires key in defReqMap
      modifies `cacheMap, `defReqMap
      ensures cacheMap == Drain(old(cacheMap), old(defReqMap)[key]).0
      ensures answers == Drain(old(cacheMap), old(defReqMap)[key]).1
      ensures defReqMap == old(defReqMap)[key := []]
    {
      var defReqList := defReqMap[key];
      ghost var q := defReqList;
      ghost var n := 0;
      answers := [];
      while defReqList != []
        invariant defReqMap == old(defReqMap)
        invariant n <= |q| && defReqList == q[n..]
        invariant cacheMap == Drain(old(cacheMap), q[..n]).0
        invariant answers == Drain(old(cacheMap), q[..n]).1
        decreases |defReqList|
      {
        var request := defReqList[0];
        defReqList := defReqList[1..];
        var reply := WriteExpired(request.op);
        answers := answers + [Answer(request.id, reply)];
        assert q[..n + 1][..n] == q[..n];
        n := n + 1;
      }
      assert q[..n] == q;
      defReqMap := defReqMap[key := defReqList];
    }

    method LastExpired(key: string) returns (answers: seq<Answer>)
      modifies this
      ensures Abs() == Unleased(old(Abs()), key).0
      ensures answers == Unleased(old(Abs()), key).1
    {
      leaseMap := leaseMap - {key};
      answers := [];
      if key in defReqMap {
        banLeaseMap := banLeaseMap - {key};
        answers := DrainExpired(key);
      }
    }

    method WriteExpired(op: Write) returns (reply: Reply)
      modifies `cacheMap
      ensures cacheMap == Apply(old(cacheMap), op).0
      ensures reply == Apply(old(cacheMap), op).1
    {
      match op {
        case Put(key, value) =>
          cacheMap := cacheMap[key := Text(value)];
          reply := Status(true);
        case Append(key, value) =>
          if key in cacheMap {
            match cacheMap[key] {
              case Items(hl) =>
                if value in hl {
                  return Status(false);
                } else {
                  cacheMap := cacheMap[key := Items(hl + [value])];
                  return Status(true);
                }
              case Text(_) =>
            }
          }
          cacheMap := cacheMap[key := Items([value])];
          reply := Status(true);
        case Remove(key, value) =>
          if key in cacheMap {
            match cacheMap[key] {
              case Items(hl) =>
                if value in hl {
                  cacheMap := cacheMap[key := Items(Without(hl, value))];
                  reply := Status(true);
                } else {
                  reply := Status(false);
                }
              case Text(_) =>
                reply := Status(false);
            }
          } else {
            reply := Status(false);
          }
      }
    }
  }
}
