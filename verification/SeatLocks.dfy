/** Who holds a lock at an airline: an outstanding log, or nobody any more. */
module SeatLocks {
  import opened Transactions
  import opened SeatLedger
  import Strings
  import A = AirlineParticipant

  /** Some outstanding record is for this flight. */
  ghost predicate Logged(s: A.State, f: FlightId) {
    exists t, k :: t in s.logBuf && 0 <= k < |s.logBuf[t]| && s.logBuf[t][k].flight == f
  }

  /** A decision on a prepared transaction frees the flights of its log and forgets the log; every other
      lock and log stays. Any other decision changes nothing. */
  lemma DecisionFreesLocks(l: Ledger, t: TranId, outcome: Vote, f: FlightId)
    requires Inv(l)
    ensures var s, s' := l.s, Next(l, Decide(t, outcome)).s;
            if t !in s.logBuf then s' == s
            else
              && s'.logBuf == s.logBuf - {t}
              && (f in s'.locks <==>
                    f in s.locks && forall k :: 0 <= k < |s.logBuf[t]| ==> s.logBuf[t][k].flight != f)
  {
    if t in l.s.logBuf {
      var logs := l.s.logBuf[t];
      assert forall k :: 0 <= k < |logs| ==> logs[k].flight in A.Flights(logs);
    }
  }

  /** A decision strands no flight. */
  lemma DecisionStrandsNone(l: Ledger, t: TranId, outcome: Vote, f: FlightId)
    requires Inv(l) && !Stranded(l.s, f)
    ensures !Stranded(Next(l, Decide(t, outcome)).s, f)
  {
    var s, s' := l.s, Next(l, Decide(t, outcome)).s;
    DecisionFreesLocks(l, t, outcome, f);
    DecideInv(l, t, outcome);
    if t in s.logBuf && f in s'.locks {
      if f in s.slots {
        var u, k :| u in s.logBuf && 0 <= k < |s.logBuf[u]| && s.logBuf[u][k].flight == f;
        assert s'.logBuf[u][k].flight == f;
      } else {
        assert LogOk(s, t, s.logBuf[t]);
        WriteKeys(s.slots, s.logBuf[t]);
      }
    }
  }

  /** Only flights that exist are locked. */
  lemma {:induction false} LocksExist(rs: seq<Request>)
    ensures Exec(rs).s.locks <= Exec(rs).s.slots.Keys
    decreases |rs|
  {
    if rs != [] {
      var l, r := Exec(rs[..|rs| - 1]), rs[|rs| - 1];
      LocksExist(rs[..|rs| - 1]);
      RunInv(rs[..|rs| - 1]);
      RunInv(rs);
      match r
      case Create(f, slot) =>
      case Prepare(t, flightID, amount) =>
        LockedExist(l.s.slots, t, Strings.Split(flightID, ":"), amount, A.Progress(l.s.locks, [], true));
      case Decide(t, outcome) =>
        if t in l.s.logBuf {
          assert LogOk(l.s, t, l.s.logBuf[t]);
          WriteKeys(l.s.slots, l.s.logBuf[t]);
        }
    }
  }

  lemma {:induction false} LockedExist(slots: map<FlightId, int>, tran: TranId, flights: seq<FlightId>, amount: int,
                                       p: A.Progress)
    requires p.locks <= slots.Keys
    ensures A.Prepare(slots, tran, flights, amount, p).locks <= slots.Keys
    decreases |flights|
  {
    if flights != [] {
      var f := flights[0];
      if f in slots && slots[f] >= amount && f !in p.locks {
        var log := A.TransLog(tran, f, slots[f], slots[f] - amount);
        LockedExist(slots, tran, flights[1..], amount, A.Progress(p.locks + {f}, p.logs + [log], true));
      }
    }
  }

  /** The request at j strands the flight. */
  ghost predicate StrandedAt(rs: seq<Request>, j: nat, f: FlightId)
    requires j < |rs|
  {
    rs[j].Prepare? && !Stranded(Exec(rs[..j]).s, f) && Stranded(Exec(rs[..j + 1]).s, f)
  }

  lemma {:induction false} StrandedSince(rs: seq<Request>, f: FlightId) returns (j: nat)
    requires Stranded(Exec(rs).s, f)
    ensures j < |rs| && StrandedAt(rs, j, f)
    decreases |rs|
  {
    var n := |rs| - 1;
    var front := rs[..n];
    RunInv(front);
    LocksExist(front);
    if Stranded(Exec(front).s, f) {
      j := StrandedSince(front, f);
      assert rs[..j] == front[..j] && rs[..j + 1] == front[..j + 1];
    } else {
      if rs[n].Decide? {
        DecisionStrandsNone(Exec(front), rs[n].tran, rs[n].outcome, f);
      }
      j := n;
      assert rs[..n + 1] == rs;
    }
  }

  /** In every run a flight is locked exactly if an outstanding log is for it, or some earlier prepare
      has stranded it. */
  lemma LockedIff(rs: seq<Request>, f: FlightId)
    ensures f in Exec(rs).s.locks <==>
            Logged(Exec(rs).s, f) || exists j: nat :: j < |rs| && StrandedAt(rs, j, f)
  {
    RunInv(rs);
    LocksExist(rs);
    var s := Exec(rs).s;
    if Logged(s, f) {
      var t, k :| t in s.logBuf && 0 <= k < |s.logBuf[t]| && s.logBuf[t][k].flight == f;
      assert LogOk(s, t, s.logBuf[t]) && RecordOk(s, t, s.logBuf[t][k]);
    } else if f in s.locks {
      var j := StrandedSince(rs, f);
    }
    if j: nat :| j < |rs| && StrandedAt(rs, j, f) {
      StaysStranded(rs, j + 1, f);
    }
  }

  lemma {:induction false} StaysStranded(rs: seq<Request>, j: nat, f: FlightId)
    requires j <= |rs| && Stranded(Exec(rs[..j]).s, f)
    ensures Stranded(Exec(rs).s, f)
    decreases |rs|
  {
    if j == |rs| {
      assert rs[..j] == rs;
    } else {
      var front := rs[..|rs| - 1];
      assert front[..j] == rs[..j];
      StaysStranded(front, j, f);
      RunInv(front);
      StrandedStep(Exec(front), rs[|rs| - 1], f);
    }
  }
}
