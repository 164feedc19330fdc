/** What any sequence of requests leaves true at one airline: prepared logs stay valid, seats are
    conserved, nothing is oversold, nothing is applied twice. */
module SeatLedger {
  import opened Transactions
  import opened AirlineParticipant
  import Strings

  datatype Request =
    | Create(flight: FlightId, slot: int)
    | Prepare(tran: TranId, flightID: string, amount: int)
    | Decide(tran: TranId, outcome: Vote)

  /** A participant with its history: slots at creation, committed records in order, and how often
      each transaction was prepared and applied. */
  datatype Ledger = Ledger(s: State, initial: map<FlightId, int>, committed: seq<TransLog>,
                           prepared: multiset<TranId>, applied: multiset<TranId>)

  const EMPTY: Ledger := Ledger(START, map[], [], multiset{}, multiset{})

  function Next(l: Ledger, r: Request): Ledger {
    match r
    case Create(f, slot) =>
      l.(s := CreateFlight(l.s, f, slot).0,
         initial := if f in l.s.slots then l.initial else l.initial[f := slot])
    case Prepare(t, flightID, amount) =>
      var (s', vote) := InitTrans(l.s, t, flightID, amount);
      l.(s := s', prepared := if vote == COMMIT then l.prepared + multiset{t} else l.prepared)
    case Decide(t, outcome) =>
      var applies := t in l.s.logBuf && outcome == COMMIT;
      l.(s := ResponseTrans(l.s, t, outcome),
         committed := if applies then l.committed + l.s.logBuf[t] else l.committed,
         applied := if applies then l.applied + multiset{t} else l.applied)
  }

  function Exec(rs: seq<Request>): Ledger {
    if rs == [] then EMPTY else Next(Exec(rs[..|rs| - 1]), rs[|rs| - 1])
  }

  /** Seats the given records take from a flight (negative amounts give seats back). */
  function Taken(logs: seq<TransLog>, f: FlightId): int
    decreases |logs|
  {
    if logs == [] then 0
    else
      var last := logs[|logs| - 1];
      Taken(logs[..|logs| - 1], f) + if last.flight == f then last.before - last.after else 0
  }

  // ---- the invariant ----

  /** A prepared record: its flight is locked, still has the slots recorded, and ends non-negative. */
  ghost predicate RecordOk(s: State, t: TranId, e: TransLog) {
    && e.tran == t && e.flight in s.slots && e.flight in s.locks
    && s.slots[e.flight] == e.before && e.after >= 0
  }

  ghost predicate LogOk(s: State, t: TranId, logs: seq<TransLog>) {
    && (forall k :: 0 <= k < |logs| ==> RecordOk(s, t, logs[k]))
    && (forall j, k :: 0 <= j < k < |logs| ==> logs[j].flight != logs[k].flight)
  }

  /** Outstanding logs of different transactions have no flight in common. */
  ghost predicate LogsApart(s: State) {
    forall t, u, j, k :: t in s.logBuf && u in s.logBuf && t != u &&
                         0 <= j < |s.logBuf[t]| && 0 <= k < |s.logBuf[u]| ==>
                           s.logBuf[t][j].flight != s.logBuf[u][k].flight
  }

  ghost predicate ParticipantOk(s: State) {
    && (forall t :: t in s.logBuf ==> LogOk(s, t, s.logBuf[t]))
    && LogsApart(s)
  }

  ghost predicate SeatsOk(l: Ledger) {
    && l.initial.Keys == l.s.slots.Keys
    && (forall f :: f in l.s.slots ==> l.s.slots[f] == l.initial[f] - Taken(l.committed, f))
    && (forall f :: f in l.s.slots && l.initial[f] >= 0 ==> l.s.slots[f] >= 0)
  }

  ghost predicate AppliedOnce(l: Ledger) {
    forall t :: l.applied[t] + (if t in l.s.logBuf then 1 else 0) <= l.prepared[t]
  }

  /** Only existing flights have committed records. */
  ghost predicate CommittedKnown(l: Ledger) {
    forall k :: 0 <= k < |l.committed| ==> l.committed[k].flight in l.s.slots
  }

  ghost predicate Inv(l: Ledger) {
    ParticipantOk(l.s) && SeatsOk(l) && CommittedKnown(l) && AppliedOnce(l)
  }

  // ---- preparing ----

  /** Records written so far cover different flights, all newly locked. */
  ghost predicate ProgressOk(s: State, tran: TranId, locks: set<FlightId>, p: Progress) {
    && locks <= p.locks
    && (forall k :: 0 <= k < |p.logs| ==>
                      && p.logs[k].tran == tran && p.logs[k].flight in s.slots
                      && p.logs[k].flight in p.locks && p.logs[k].flight !in locks
                      && s.slots[p.logs[k].flight] == p.logs[k].before && p.logs[k].after >= 0)
    && (forall j, k :: 0 <= j < k < |p.logs| ==> p.logs[j].flight != p.logs[k].flight)
  }

  lemma {:induction false} PrepareProgress(s: State, tran: TranId, flights: seq<FlightId>, amount: int,
                                           locks: set<FlightId>, p: Progress)
    requires ProgressOk(s, tran, locks, p)
    ensures ProgressOk(s, tran, locks, AirlineParticipant.Prepare(s.slots, tran, flights, amount, p))
    decreases |flights|
  {
    if flights != [] {
      var f := flights[0];
      if f in s.slots && s.slots[f] >= amount && f !in p.locks {
        var p1 := Progress(p.locks + {f}, p.logs + [TransLog(tran, f, s.slots[f], s.slots[f] - amount)], true);
        assert ProgressOk(s, tran, locks, p1);
        PrepareProgress(s, tran, flights[1..], amount, locks, p1);
      }
    }
  }

  lemma PrepareKeeps(s: State, tran: TranId, flightID: string, amount: int)
    requires ParticipantOk(s)
    ensures ParticipantOk(InitTrans(s, tran, flightID, amount).0)
  {
    var p0 := Progress(s.locks, [], true);
    var p := AirlineParticipant.Prepare(s.slots, tran, Strings.Split(flightID, ":"), amount, p0);
    PrepareProgress(s, tran, Strings.Split(flightID, ":"), amount, s.locks, p0);
    var s' := InitTrans(s, tran, flightID, amount).0;
    forall t | t in s'.logBuf
      ensures LogOk(s', t, s'.logBuf[t])
    {
      if t != tran || !p.ok {
        assert LogOk(s, t, s.logBuf[t]);
      }
    }
    forall t, u, j, k | t in s'.logBuf && u in s'.logBuf && t != u && 0 <= j < |s'.logBuf[t]| && 0 <= k < |s'.logBuf[u]|
      ensures s'.logBuf[t][j].flight != s'.logBuf[u][k].flight
    {
    }
  }

  // ---- deciding ----

  /** Writing a valid log moves each of its flights from `before` to `after` and no other. */
  lemma {:induction false} WriteMoves(slots: map<FlightId, int>, logs: seq<TransLog>, f: FlightId)
    requires forall k :: 0 <= k < |logs| ==> logs[k].flight in slots && slots[logs[k].flight] == logs[k].before
    requires forall j, k :: 0 <= j < k < |logs| ==> logs[j].flight != logs[k].flight
    requires f in slots
    ensures Write(slots, logs).Keys == slots.Keys
    ensures Write(slots, logs)[f] == slots[f] - Taken(logs, f)
    ensures f in Flights(logs) ==>
              exists k :: 0 <= k < |logs| && logs[k].flight == f && Write(slots, logs)[f] == logs[k].after
    ensures f !in Flights(logs) ==> Write(slots, logs)[f] == slots[f]
    decreases |logs|
  {
    if logs != [] {
      var head, rest := logs[0], logs[1..];
      var slots1 := slots[head.flight := head.after];
      WriteMoves(slots1, rest, f);
      TakenFirst(logs, f);
      if f in Flights(rest) {
        var k :| 0 <= k < |rest| && rest[k].flight == f && Write(slots1, rest)[f] == rest[k].after;
        assert logs[k + 1] == rest[k];
      }
    }
  }

  lemma {:induction false} TakenFirst(logs: seq<TransLog>, f: FlightId)
    requires logs != []
    ensures Taken(logs, f) == (if logs[0].flight == f then logs[0].before - logs[0].after else 0) + Taken(logs[1..], f)
    decreases |logs|
  {
    if |logs| > 1 {
      var front := logs[..|logs| - 1];
      TakenFirst(front, f);
      assert front[1..] == logs[1..][..|logs| - 2];
    }
  }

  lemma {:induction false} TakenAppend(a: seq<TransLog>, b: seq<TransLog>, f: FlightId)
    ensures Taken(a + b, f) == Taken(a, f) + Taken(b, f)
    decreases |b|
  {
    if b == [] {
      assert a + b == a;
    } else {
      assert (a + b)[..|a + b| - 1] == a + b[..|b| - 1];
      TakenAppend(a, b[..|b| - 1], f);
    }
  }

  /** The decided transaction leaves all other prepared logs valid. */
  lemma DecideKeeps(s: State, tran: TranId, outcome: Vote)
    requires ParticipantOk(s)
    ensures ParticipantOk(ResponseTrans(s, tran, outcome))
  {
    if tran in s.logBuf {
      var s' := ResponseTrans(s, tran, outcome);
      var logs := s.logBuf[tran];
      assert LogOk(s, tran, logs);
      forall t | t in s'.logBuf
        ensures LogOk(s', t, s'.logBuf[t])
      {
        assert LogOk(s, t, s.logBuf[t]);
        forall k | 0 <= k < |s.logBuf[t]|
          ensures RecordOk(s', t, s.logBuf[t][k])
        {
          assert RecordOk(s, t, s.logBuf[t][k]);
          var f := s.logBuf[t][k].flight;
          assert f !in Flights(logs);
          WriteMoves(s.slots, logs, f);
        }
      }
    }
  }

  lemma DecideSeats(l: Ledger, tran: TranId, outcome: Vote)
    requires Inv(l)
    ensures SeatsOk(Next(l, Decide(tran, outcome)))
  {
    var l' := Next(l, Decide(tran, outcome));
    if tran in l.s.logBuf && outcome == COMMIT {
      var logs := l.s.logBuf[tran];
      assert LogOk(l.s, tran, logs);
      WriteKeys(l.s.slots, logs);
      forall f | f in l.s.slots
        ensures l'.s.slots[f] == l'.initial[f] - Taken(l'.committed, f)
        ensures l.initial[f] >= 0 ==> l'.s.slots[f] >= 0
      {
        WriteMoves(l.s.slots, logs, f);
        TakenAppend(l.committed, logs, f);
        if f in Flights(logs) {
          var k :| 0 <= k < |logs| && logs[k].flight == f && Write(l.s.slots, logs)[f] == logs[k].after;
          assert RecordOk(l.s, tran, logs[k]);
        }
      }
    }
  }

  lemma {:induction false} WriteKeys(slots: map<FlightId, int>, logs: seq<TransLog>)
    requires forall k :: 0 <= k < |logs| ==> logs[k].flight in slots
    ensures Write(slots, logs).Keys == slots.Keys
    decreases |logs|
  {
    if logs != [] {
      WriteKeys(slots[logs[0].flight := logs[0].after], logs[1..]);
    }
  }

  lemma CreateKeeps(l: Ledger, f: FlightId, slot: int)
    requires Inv(l)
    ensures Inv(Next(l, Create(f, slot)))
  {
    var l' := Next(l, Create(f, slot));
    forall t | t in l'.s.logBuf
      ensures LogOk(l'.s, t, l'.s.logBuf[t])
    {
      assert LogOk(l.s, t, l.s.logBuf[t]);
    }
    if f !in l.s.slots {
      NothingTaken(l.committed, f);
    }
  }

  lemma {:induction false} NothingTaken(logs: seq<TransLog>, f: FlightId)
    requires forall k :: 0 <= k < |logs| ==> logs[k].flight != f
    ensures Taken(logs, f) == 0
    decreases |logs|
  {
    if logs != [] {
      NothingTaken(logs[..|logs| - 1], f);
    }
  }

  lemma NextInv(l: Ledger, r: Request)
    requires Inv(l)
    ensures Inv(Next(l, r))
  {
    match r
    case Create(f, slot) =>
      CreateKeeps(l, f, slot);
    case Prepare(t, flightID, amount) =>
      PrepareKeeps(l.s, t, flightID, amount);
    case Decide(t, outcome) =>
      DecideInv(l, t, outcome);
  }

  lemma DecideInv(l: Ledger, t: TranId, outcome: Vote)
    requires Inv(l)
    ensures Inv(Next(l, Decide(t, outcome)))
  {
    DecideKeeps(l.s, t, outcome);
    DecideSeats(l, t, outcome);
    if t in l.s.logBuf {
      assert LogOk(l.s, t, l.s.logBuf[t]);
      WriteKeys(l.s.slots, l.s.logBuf[t]);
    }
  }

  lemma {:induction false} RunInv(rs: seq<Request>)
    ensures Inv(Exec(rs))
    decreases |rs|
  {
    if rs != [] {
      RunInv(rs[..|rs| - 1]);
      NextInv(Exec(rs[..|rs| - 1]), rs[|rs| - 1]);
    }
  }

  // ---- the promises ----

  /** Seats are conserved: slots are what was created minus what committed records took. */
  lemma SeatsConserved(rs: seq<Request>, f: FlightId)
    requires f in Exec(rs).s.slots
    ensures f in Exec(rs).initial
    ensures Exec(rs).s.slots[f] == Exec(rs).initial[f] - Taken(Exec(rs).committed, f)
  {
    RunInv(rs);
  }

  /** No flight that was created with room is ever sold below zero, also with negative amounts. */
  lemma NeverOverbooked(rs: seq<Request>, f: FlightId)
    requires f in Exec(rs).initial && Exec(rs).initial[f] >= 0
    ensures f in Exec(rs).s.slots && Exec(rs).s.slots[f] >= 0
  {
    RunInv(rs);
  }

  /** The absolute slot number in a prepared record is, whenever it is written, exactly the intended
      decrement: the flight is locked for it, in no other outstanding record, and unchanged. */
  lemma PreparedRecordsStayValid(rs: seq<Request>, t: TranId, k: nat)
    requires t in Exec(rs).s.logBuf && k < |Exec(rs).s.logBuf[t]|
    ensures var s := Exec(rs).s;
            var e := s.logBuf[t][k];
            && e.flight in s.locks && e.flight in s.slots && s.slots[e.flight] == e.before && e.after >= 0
            && forall u, j :: u in s.logBuf && 0 <= j < |s.logBuf[u]| && s.logBuf[u][j].flight == e.flight ==>
                                u == t && j == k
  {
    RunInv(rs);
    var s := Exec(rs).s;
    assert LogOk(s, t, s.logBuf[t]);
    assert RecordOk(s, t, s.logBuf[t][k]);
  }

  /** A transaction is applied at most as often as it was prepared, and an outstanding log has not
      been applied yet. */
  lemma {:induction false} AppliedAtMostOnce(rs: seq<Request>, t: TranId)
    ensures Exec(rs).applied[t] <= Exec(rs).prepared[t]
    ensures t in Exec(rs).s.logBuf ==> Exec(rs).applied[t] < Exec(rs).prepared[t]
  {
    RunInv(rs);
  }

  // ---- locks that nobody will release ----

  /** Locked, but no outstanding record will ever release it. */
  ghost predicate Stranded(s: State, f: FlightId) {
    && f in s.slots && f in s.locks
    && forall t, k :: t in s.logBuf && 0 <= k < |s.logBuf[t]| ==> s.logBuf[t][k].flight != f
  }

  lemma {:induction false} LocksOfProgress(slots: map<FlightId, int>, tran: TranId, flights: seq<FlightId>, amount: int,
                                           locks: set<FlightId>, p: Progress)
    requires p.locks == locks + Flights(p.logs)
    ensures var q := AirlineParticipant.Prepare(slots, tran, flights, amount, p);
            q.locks == locks + Flights(q.logs) && p.locks <= q.locks
    decreases |flights|
  {
    if flights != [] {
      var f := flights[0];
      if f in slots && slots[f] >= amount && f !in p.locks {
        var logs := p.logs + [TransLog(tran, f, slots[f], slots[f] - amount)];
        FlightsOneMore(logs, |p.logs|);
        assert logs[..|p.logs| + 1] == logs && logs[..|p.logs|] == p.logs;
        LocksOfProgress(slots, tran, flights[1..], amount, locks, Progress(p.locks + {f}, logs, true));
      }
    }
  }

  lemma CommitStrandsNone(s: State, tran: TranId, flightID: string, amount: int, f: FlightId)
    requires InitTrans(s, tran, flightID, amount).1 == COMMIT && f !in s.locks
    ensures !Stranded(InitTrans(s, tran, flightID, amount).0, f)
  {
    var flights := Strings.Split(flightID, ":");
    var p0 := Progress(s.locks, [], true);
    var p := AirlineParticipant.Prepare(s.slots, tran, flights, amount, p0);
    LocksOfProgress(s.slots, tran, flights, amount, s.locks, p0);
    var s' := InitTrans(s, tran, flightID, amount).0;
    if f in s'.locks {
      var k :| 0 <= k < |p.logs| && p.logs[k].flight == f;
      assert s'.logBuf[tran][k].flight == f;
    }
  }

  lemma FirstLockStays(s: State, tran: TranId, flightID: string, amount: int)
    requires var first := Strings.Split(flightID, ":")[0];
             first in s.slots && s.slots[first] >= amount && first !in s.locks
    ensures Strings.Split(flightID, ":")[0] in InitTrans(s, tran, flightID, amount).0.locks
  {
    var flights := Strings.Split(flightID, ":");
    var first := flights[0];
    var p1 := Progress(s.locks + {first}, [TransLog(tran, first, s.slots[first], s.slots[first] - amount)], true);
    FlightsOneMore(p1.logs, 0);
    assert p1.logs[..1] == p1.logs;
    assert Progress(s.locks, [], true).logs + p1.logs == p1.logs;
    LocksOfProgress(s.slots, tran, flights[1..], amount, s.locks, p1);
  }

  /** A prepare strands a flight that was free exactly when it fails after locking its first flight. */
  lemma AbortStrandsIff(s: State, tran: TranId, flightID: string, amount: int)
    requires ParticipantOk(s)
    ensures var (s', vote) := InitTrans(s, tran, flightID, amount);
            var first := Strings.Split(flightID, ":")[0];
            (exists f :: f !in s.locks && Stranded(s', f)) <==>
            (vote == ABORT && first in s.slots && s.slots[first] >= amount && first !in s.locks)
  {
    var first := Strings.Split(flightID, ":")[0];
    var (s', vote) := InitTrans(s, tran, flightID, amount);
    if vote == COMMIT {
      forall f | f !in s.locks
        ensures !Stranded(s', f)
      {
        CommitStrandsNone(s, tran, flightID, amount, f);
      }
    } else if first in s.slots && s.slots[first] >= amount && first !in s.locks {
      FirstLockStays(s, tran, flightID, amount);
      assert Stranded(s', first);
    }
  }

  /** A successful prepare under a transaction id that already has a log overwrites that log, and no
      record is left to release its flights. */
  lemma OverwriteStrands(s: State, tran: TranId, flightID: string, amount: int)
    requires ParticipantOk(s) && InitTrans(s, tran, flightID, amount).1 == COMMIT
    requires tran in s.logBuf && s.logBuf[tran] != []
    ensures !Stranded(s, s.logBuf[tran][0].flight)
    ensures Stranded(InitTrans(s, tran, flightID, amount).0, s.logBuf[tran][0].flight)
  {
    var s' := InitTrans(s, tran, flightID, amount).0;
    var f := s.logBuf[tran][0].flight;
    assert LogOk(s, tran, s.logBuf[tran]) && RecordOk(s, tran, s.logBuf[tran][0]);
    PrepareProgress(s, tran, Strings.Split(flightID, ":"), amount, s.locks, Progress(s.locks, [], true));
    forall t, k | t in s'.logBuf && 0 <= k < |s'.logBuf[t]|
      ensures s'.logBuf[t][k].flight != f
    {
    }
  }

  lemma CommitKeepsLogged(s: State, tran: TranId, flightID: string, amount: int, f: FlightId)
    requires InitTrans(s, tran, flightID, amount).1 == COMMIT && f in s.locks && !Stranded(s, f)
    requires tran !in s.logBuf || s.logBuf[tran] == []
    ensures !Stranded(InitTrans(s, tran, flightID, amount).0, f)
  {
    var s' := InitTrans(s, tran, flightID, amount).0;
    if f in s.slots {
      var t, k :| t in s.logBuf && 0 <= k < |s.logBuf[t]| && s.logBuf[t][k].flight == f;
      assert s'.logBuf[t][k].flight == f;
    }
  }

  /** A prepare strands a flight exactly when all its flights can be prepared but the transaction is
      prepared already, or not all of them can but the first one can be locked. */
  lemma PrepareStrandsIff(s: State, tran: TranId, flightID: string, amount: int)
    requires ParticipantOk(s)
    ensures var s' := InitTrans(s, tran, flightID, amount).0;
            var flights := Strings.Split(flightID, ":");
            var first := flights[0];
            (exists f :: !Stranded(s, f) && Stranded(s', f)) <==>
            if Preparable(s.slots, s.locks, flights, amount) then tran in s.logBuf && s.logBuf[tran] != []
            else first in s.slots && s.slots[first] >= amount && first !in s.locks
  {
    var (s', vote) := InitTrans(s, tran, flightID, amount);
    VotesCommitIff(s, tran, flightID, amount);
    AbortStrandsIff(s, tran, flightID, amount);
    forall f | f !in s.locks
      ensures !Stranded(s, f)
    {
    }
    if vote == ABORT {
      forall f | f in s.locks && !Stranded(s, f)
        ensures !Stranded(s', f)
      {
      }
    } else if tran in s.logBuf && s.logBuf[tran] != [] {
      OverwriteStrands(s, tran, flightID, amount);
    } else {
      forall f | f in s.locks && !Stranded(s, f)
        ensures !Stranded(s', f)
      {
        CommitKeepsLogged(s, tran, flightID, amount, f);
      }
    }
  }

  /** A stranded flight never sells again: no later request changes its slots or frees it. */
  lemma {:induction false} StrandedForever(l: Ledger, rs: seq<Request>, f: FlightId)
    requires Inv(l) && Stranded(l.s, f)
    ensures Stranded(After(l, rs).s, f) && After(l, rs).s.slots[f] == l.s.slots[f]
    decreases |rs|
  {
    if rs != [] {
      NextInv(l, rs[0]);
      StrandedStep(l, rs[0], f);
      StrandedForever(Next(l, rs[0]), rs[1..], f);
    }
  }

  function After(l: Ledger, rs: seq<Request>): Ledger
    decreases |rs|
  {
    if rs == [] then l else After(Next(l, rs[0]), rs[1..])
  }

  lemma StrandedStep(l: Ledger, r: Request, f: FlightId)
    requires Inv(l) && Stranded(l.s, f)
    ensures Stranded(Next(l, r).s, f) && Next(l, r).s.slots[f] == l.s.slots[f]
  {
    match r
    case Create(g, slot) =>
    case Prepare(t, flightID, amount) =>
      var p0 := Progress(l.s.locks, [], true);
      PrepareProgress(l.s, t, Strings.Split(flightID, ":"), amount, l.s.locks, p0);
    case Decide(t, outcome) =>
      if t in l.s.logBuf {
        var logs := l.s.logBuf[t];
        assert LogOk(l.s, t, logs);
        assert forall k :: 0 <= k < |logs| ==> RecordOk(l.s, t, logs[k]);
        WriteMoves(l.s.slots, logs, f);
      }
  }
}
