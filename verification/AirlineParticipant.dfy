/** The airline side of a booking: prepare, lock, log, and apply or drop on the decision. */
module AirlineParticipant {
  import opened Transactions
  import Strings

  /** One UPDATE record: the slot count before the booking and the one to write on commit. */
  datatype TransLog = TransLog(tran: TranId, flight: FlightId, before: int, after: int)

  datatype State = State(slots: map<FlightId, int>, locks: set<FlightId>,
                         logBuf: map<TranId, seq<TransLog>>, oldLog: map<TranId, Vote>)

  const START: State := State(map[], {}, map[], map[])

  function CreateFlight(s: State, f: FlightId, slot: int): (State, bool) {
    if f in s.slots then (s, false) else (s.(slots := s.slots[f := slot]), true)
  }

  /** Locks taken and records written so far, and whether every flight could be prepared. */
  datatype Progress = Progress(locks: set<FlightId>, logs: seq<TransLog>, ok: bool)

  /** The loop over the flights of one order; it stops at the first flight that is unknown, sold
      out or locked, and keeps the locks taken until then. */
  function Prepare(slots: map<FlightId, int>, tran: TranId, flights: seq<FlightId>, amount: int, p: Progress): Progress
    decreases |flights|
  {
    if flights == [] then p
    else
      var f := flights[0];
      if f !in slots || slots[f] < amount || f in p.locks then p.(ok := false)
      else
        Prepare(slots, tran, flights[1..], amount,
                Progress(p.locks + {f}, p.logs + [TransLog(tran, f, slots[f], slots[f] - amount)], true))
  }

  function InitTrans(s: State, tran: TranId, flightID: string, amount: int): (State, Vote) {
    var p := Prepare(s.slots, tran, Strings.Split(flightID, ":"), amount, Progress(s.locks, [], true));
    if p.ok then (s.(locks := p.locks, logBuf := s.logBuf[tran := p.logs]), COMMIT)
    else (s.(locks := p.locks), ABORT)
  }

  /** Every flight exists, has the seats and is free, and none is asked for twice. */
  predicate Preparable(slots: map<FlightId, int>, locks: set<FlightId>, flights: seq<FlightId>, amount: int) {
    && (forall k :: 0 <= k < |flights| ==>
                      flights[k] in slots && slots[flights[k]] >= amount && flights[k] !in locks)
    && (forall j, k :: 0 <= j < k < |flights| ==> flights[j] != flights[k])
  }

  /** Locking the first flight leaves the others to be prepared exactly if it does not come again. */
  lemma PreparableFirst(slots: map<FlightId, int>, locks: set<FlightId>, flights: seq<FlightId>, amount: int)
    requires flights != []
    ensures var f := flights[0];
            Preparable(slots, locks, flights, amount) <==>
            (f in slots && slots[f] >= amount && f !in locks && Preparable(slots, locks + {f}, flights[1..], amount))
  {
    var f, rest := flights[0], flights[1..];
    assert forall k :: 0 < k < |flights| ==> flights[k] == rest[k - 1];
    if f !in locks && Preparable(slots, locks + {f}, rest, amount) {
      forall j, k | 0 <= j < k < |flights|
        ensures flights[j] != flights[k]
      {
        assert flights[k] == rest[k - 1];
        if j > 0 {
          assert flights[j] == rest[j - 1];
        }
      }
    }
  }

  lemma {:induction false} PrepareOkIff(slots: map<FlightId, int>, tran: TranId, flights: seq<FlightId>, amount: int,
                                        p: Progress)
    requires p.ok
    ensures Prepare(slots, tran, flights, amount, p).ok <==> Preparable(slots, p.locks, flights, amount)
    decreases |flights|
  {
    if flights != [] {
      var f := flights[0];
      PreparableFirst(slots, p.locks, flights, amount);
      if f in slots && slots[f] >= amount && f !in p.locks {
        var log := TransLog(tran, f, slots[f], slots[f] - amount);
        PrepareOkIff(slots, tran, flights[1..], amount, Progress(p.locks + {f}, p.logs + [log], true));
      }
    }
  }

  /** An airline votes COMMIT exactly if every flight of the order exists, has the seats and is free,
      and none is named twice. */
  lemma VotesCommitIff(s: State, tran: TranId, flightID: string, amount: int)
    ensures InitTrans(s, tran, flightID, amount).1 == COMMIT <==>
            Preparable(s.slots, s.locks, Strings.Split(flightID, ":"), amount)
  {
    PrepareOkIff(s.slots, tran, Strings.Split(flightID, ":"), amount, Progress(s.locks, [], true));
  }

  /** The records of a complete preparation, one per flight. */
  function Records(slots: map<FlightId, int>, tran: TranId, flights: seq<FlightId>, amount: int): seq<TransLog>
    requires forall f :: f in flights ==> f in slots
  {
    seq(|flights|, k requires 0 <= k < |flights| =>
      TransLog(tran, flights[k], slots[flights[k]], slots[flights[k]] - amount))
  }

  lemma RecordsFirst(slots: map<FlightId, int>, tran: TranId, flights: seq<FlightId>, amount: int)
    requires flights != [] && forall f :: f in flights ==> f in slots
    ensures forall f :: f in flights[1..] ==> f in slots
    ensures var f := flights[0];
            Records(slots, tran, flights, amount) ==
            [TransLog(tran, f, slots[f], slots[f] - amount)] + Records(slots, tran, flights[1..], amount)
    ensures (set g | g in flights) == {flights[0]} + (set g | g in flights[1..])
  {
    assert flights == [flights[0]] + flights[1..];
  }

  lemma {:induction false} PrepareRecords(slots: map<FlightId, int>, tran: TranId, flights: seq<FlightId>, amount: int,
                                      p: Progress)
    requires Preparable(slots, p.locks, flights, amount) && p.ok
    ensures Prepare(slots, tran, flights, amount, p) ==
            Progress(p.locks + (set f | f in flights), p.logs + Records(slots, tran, flights, amount), true)
    decreases |flights|
  {
    if flights == [] {
      assert p.logs + [] == p.logs;
    } else {
      var f, rest := flights[0], flights[1..];
      var log := TransLog(tran, f, slots[f], slots[f] - amount);
      PreparableFirst(slots, p.locks, flights, amount);
      PrepareRecords(slots, tran, rest, amount, Progress(p.locks + {f}, p.logs + [log], true));
      RecordsFirst(slots, tran, flights, amount);
      var more := Records(slots, tran, rest, amount);
      assert p.logs + [log] + more == p.logs + ([log] + more);
      assert p.locks + {f} + (set g | g in rest) == p.locks + ({f} + (set g | g in rest));
    }
  }

  function Flights(logs: seq<TransLog>): set<FlightId> {
    set k | 0 <= k < |logs| :: logs[k].flight
  }

  function Write(slots: map<FlightId, int>, logs: seq<TransLog>): map<FlightId, int>
    decreases |logs|
  {
    if logs == [] then slots else Write(slots[logs[0].flight := logs[0].after], logs[1..])
  }

  function ResponseTrans(s: State, tran: TranId, decision: Vote): State {
    if tran !in s.logBuf then s
    else
      var logs := s.logBuf[tran];
      State(if decision == COMMIT then Write(s.slots, logs) else s.slots,
            s.locks - Flights(logs), s.logBuf - {tran}, s.oldLog[tran := decision])
  }

  class FlightInfo {
    var Slot: int

    constructor (slot: int)
      ensures Slot == slot
    {
      Slot := slot;
    }
  }

  class AirlineServer {
    var logBuf: map<TranId, seq<TransLog>>
    var flightBuf: map<FlightId, FlightInfo>
    var lockBuf: set<FlightId>
    var oldLog: map<TranId, Vote>

    /** No two flights share a record, and every prepared flight exists. */
    ghost predicate Valid()
      reads this
    {
      && (forall f, g :: f in flightBuf && g in flightBuf && f != g ==> flightBuf[f] != flightBuf[g])
      && (forall t, k :: t in logBuf && 0 <= k < |logBuf[t]| ==> logBuf[t][k].flight in flightBuf)
    }

    ghost function Slots(): map<FlightId, int>
      reads `flightBuf, flightBuf.Values
    {
      map f | f in flightBuf :: flightBuf[f].Slot
    }

    ghost function Abs(): State
      reads this, flightBuf.Values
    {
      State(Slots(), lockBuf, logBuf, oldLog)
    }

    constructor ()
      ensures Valid() && flightBuf.Values == {}
      ensures Abs() == START
    {
      logBuf, flightBuf, lockBuf, oldLog := map[], map[], {}, map[];
    }

    method NewFlight(f: FlightId, info: FlightInfo) returns (created: bool)
      requires Valid() && info !in flightBuf.Values
      modifies `flightBuf
      ensures Valid()
      ensures (Abs(), created) == CreateFlight(old(Abs()), f, info.Slot)
      ensures created <==> f !in old(flightBuf)
    {
      if f in flightBuf {
        return false;
      }
      flightBuf := flightBuf[f := info];
      assert Slots() == old(Slots())[f := info.Slot];
      return true;
    }

    /** Takes the lock unless somebody holds it. */
    method GetFlightLock(f: FlightId) returns (got: bool)
      modifies `lockBuf
      ensures got == (f !in old(lockBuf))
      ensures lockBuf == if got then old(lockBuf) + {f} else old(lockBuf)
    {
      if f in lockBuf {
        return false;
      }
      lockBuf := lockBuf + {f};
      return true;
    }

    method Init(tran: TranId, flightID: string, amount: int) returns (vote: Vote)
      requires Valid()
      modifies `lockBuf, `logBuf
      ensures Valid()
      ensures Abs() == InitTrans(old(Abs()), tran, flightID, amount).0
      ensures vote == InitTrans(old(Abs()), tran, flightID, amount).1
    {
      var flights := Strings.Split(flightID, ":");
      var logs;
      vote, logs := LockFlights(tran, flights, amount);
      if vote == COMMIT {
        logBuf := logBuf[tran := logs];
      }
    }

    /** The loop over the flights of the order. */
    method LockFlights(tran: TranId, flights: seq<FlightId>, amount: int) returns (vote: Vote, logs: seq<TransLog>)
      requires Valid()
      modifies `lockBuf
      ensures Valid() && forall k :: 0 <= k < |logs| ==> logs[k].flight in flightBuf
      ensures vote == COMMIT || vote == ABORT
      ensures var p := Prepare(Slots(), tran, flights, amount, Progress(old(lockBuf), [], true));
              lockBuf == p.locks && (vote == COMMIT <==> p.ok) && (p.ok ==> logs == p.logs)
    {
      ghost var all := Prepare(Slots(), tran, flights, amount, Progress(lockBuf, [], true));
      vote, logs := COMMIT, [];
      var i := 0;
      while i < |flights|
        invariant 0 <= i <= |flights|
        invariant forall k :: 0 <= k < |logs| ==> logs[k].flight in flightBuf
        invariant vote == COMMIT ==> Prepare(Slots(), tran, flights[i..], amount, Progress(lockBuf, logs, true)) == all
        invariant vote != COMMIT ==> vote == ABORT && !all.ok && all.locks == lockBuf
      {
        var f := flights[i];
        assert flights[i..][0] == f && flights[i..][1..] == flights[i + 1..];
        if f !in flightBuf || flightBuf[f].Slot < amount {
          vote := ABORT;
          break;
        }
        var got := GetFlightLock(f);
        if !got {
          vote := ABORT;
          break;
        }
        logs := logs + [TransLog(tran, f, flightBuf[f].Slot, flightBuf[f].Slot - amount)];
        i := i + 1;
      }
    }

    method Response(tran: TranId, decision: Vote)
      requires Valid()
      modifies `lockBuf, `logBuf, `oldLog, flightBuf.Values
      ensures Valid()
      ensures Abs() == ResponseTrans(old(Abs()), tran, decision)
    {
      if tran !in logBuf {
        return;
      }
      var logs := logBuf[tran];
      if decision == COMMIT {
        ApplyLogs(logs);
      } else {
        DropLogs(logs);
      }
      logBuf := logBuf - {tran};
      oldLog := oldLog[tran := decision];
    }

    /** The commit loop: one record at a time, slot written, lock released. */
    method ApplyLogs(logs: seq<TransLog>)
      requires Valid() && forall k :: 0 <= k < |logs| ==> logs[k].flight in flightBuf
      modifies `lockBuf, flightBuf.Values
      ensures Valid()
      ensures Slots() == Write(old(Slots()), logs) && lockBuf == old(lockBuf) - Flights(logs)
    {
      var rest := logs;
      ghost var n := 0;
      while rest != []
        invariant 0 <= n <= |logs| && rest == logs[n..] && lockBuf == old(lockBuf) - Flights(logs[..n])
        invariant Write(Slots(), rest) == Write(old(Slots()), logs)
        decreases |rest|
      {
        var log := rest[0];
        ApplyOne(log);
        rest := rest[1..];
        FlightsOneMore(logs, n);
        n := n + 1;
      }
      assert logs[..n] == logs;
    }

    method ApplyOne(log: TransLog)
      requires Valid() && log.flight in flightBuf
      modifies `lockBuf, flightBuf.Values
      ensures Valid()
      ensures Slots() == old(Slots())[log.flight := log.after] && lockBuf == old(lockBuf) - {log.flight}
    {
      flightBuf[log.flight].Slot := log.after;
      lockBuf := lockBuf - {log.flight};
      assert Slots() == old(Slots())[log.flight := log.after];
    }

    /** The abort loop: locks are released, slots stay. */
    method DropLogs(logs: seq<TransLog>)
      modifies `lockBuf
      ensures lockBuf == old(lockBuf) - Flights(logs)
    {
      var rest := logs;
      ghost var n := 0;
      while rest != []
        invariant 0 <= n <= |logs| && rest == logs[n..] && lockBuf == old(lockBuf) - Flights(logs[..n])
        decreases |rest|
      {
        lockBuf := lockBuf - {rest[0].flight};
        rest := rest[1..];
        FlightsOneMore(logs, n);
        n := n + 1;
      }
      assert logs[..n] == logs;
    }
  }

  lemma FlightsOneMore(logs: seq<TransLog>, n: nat)
    requires n < |logs|
    ensures Flights(logs[..n + 1]) == Flights(logs[..n]) + {logs[n].flight}
  {
  }
}
