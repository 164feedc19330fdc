/** The seats of one booking in an airline's ledger. Before its INIT arrives the ledger has no record of the
    booking; a prepared booking has one record for each of its flights; and a decision moves all of these
    to the committed records or drops them. No other request touches them. */
module SeatAccounts {
  import opened Transactions
  import opened BookingSystem
  import opened BookingSteps
  import opened BookingAtomicity
  import S = SeatLedger
  import Strings
  import T = TranLayer
  import A = AirlineParticipant

  // ---- the seats of one transaction ----

  /** Seats that the records of one transaction take from a flight. */
  function TakenBy(logs: seq<A.TransLog>, t: TranId, f: FlightId): int
    decreases |logs|
  {
    if logs == [] then 0
    else
      var last := logs[|logs| - 1];
      TakenBy(logs[..|logs| - 1], t, f) + if last.tran == t && last.flight == f then last.before - last.after else 0
  }

  /** The records of all other transactions. */
  function Others(logs: seq<A.TransLog>, t: TranId): seq<A.TransLog>
    decreases |logs|
  {
    if logs == [] then []
    else
      var last := logs[|logs| - 1];
      Others(logs[..|logs| - 1], t) + if last.tran == t then [] else [last]
  }

  lemma {:induction false} TakenSplits(logs: seq<A.TransLog>, t: TranId, f: FlightId)
    ensures S.Taken(logs, f) == TakenBy(logs, t, f) + S.Taken(Others(logs, t), f)
    decreases |logs|
  {
    if logs != [] {
      var front, last := logs[..|logs| - 1], logs[|logs| - 1];
      TakenSplits(front, t, f);
      if last.tran != t {
        assert (Others(front, t) + [last])[..|Others(front, t)|] == Others(front, t);
      } else {
        assert Others(front, t) + [] == Others(front, t);
      }
    }
  }

  lemma {:induction false} TakenByAppend(a: seq<A.TransLog>, b: seq<A.TransLog>, t: TranId, f: FlightId)
    ensures TakenBy(a + b, t, f) == TakenBy(a, t, f) + TakenBy(b, t, f)
    decreases |b|
  {
    if b == [] {
      assert a + b == a;
    } else {
      assert (a + b)[..|a + b| - 1] == a + b[..|b| - 1];
      TakenByAppend(a, b[..|b| - 1], t, f);
    }
  }

  lemma {:induction false} NothingTakenBy(logs: seq<A.TransLog>, t: TranId, f: FlightId)
    requires forall k :: 0 <= k < |logs| ==> logs[k].tran != t || logs[k].flight != f
    ensures TakenBy(logs, t, f) == 0
    decreases |logs|
  {
    if logs != [] {
      NothingTakenBy(logs[..|logs| - 1], t, f);
    }
  }

  /** One record per flight of the order, each taking the amount. */
  ghost predicate LogIs(logs: seq<A.TransLog>, t: TranId, flights: seq<FlightId>, amount: int) {
    && |logs| == |flights|
    && forall k :: 0 <= k < |logs| ==> logs[k].tran == t && logs[k].flight == flights[k] &&
                                       logs[k].before - logs[k].after == amount
  }

  lemma {:induction false} PreparedLog(slots: map<FlightId, int>, t: TranId, all: seq<FlightId>, n: nat, amount: int,
                                       p: A.Progress)
    requires n <= |all| && LogIs(p.logs, t, all[..n], amount)
    ensures var q := A.Prepare(slots, t, all[n..], amount, p); q.ok && p.ok ==> LogIs(q.logs, t, all, amount)
    decreases |all| - n
  {
    if n == |all| {
      assert all[..n] == all;
    } else {
      var f := all[n];
      if f in slots && slots[f] >= amount && f !in p.locks {
        var p1 := A.Progress(p.locks + {f}, p.logs + [A.TransLog(t, f, slots[f], slots[f] - amount)], true);
        assert all[n..][1..] == all[n + 1..];
        PreparedLog(slots, t, all, n + 1, amount, p1);
      }
    }
  }

  lemma {:induction false} LogTakes(logs: seq<A.TransLog>, t: TranId, flights: seq<FlightId>, amount: int, f: FlightId)
    requires LogIs(logs, t, flights, amount)
    requires forall j, k :: 0 <= j < k < |logs| ==> logs[j].flight != logs[k].flight
    ensures TakenBy(logs, t, f) == if f in flights then amount else 0
    decreases |logs|
  {
    if logs != [] {
      var n := |logs| - 1;
      var front := logs[..n];
      LogTakes(front, t, flights[..n], amount, f);
      assert flights == flights[..n] + [flights[n]];
      if f in flights[..n] {
        var k :| 0 <= k < n && flights[..n][k] == f;
        assert logs[k].flight != logs[n].flight;
      }
    }
  }

  // ---- one transaction in one ledger ----

  ghost predicate Books(l: S.Ledger, t: TranId, flights: seq<FlightId>, amount: int) {
    forall f :: TakenBy(l.committed, t, f) == if f in flights then amount else 0
  }

  /** Prepared with the order's log, applied with the order's seats, or without any trace in them. */
  ghost predicate OrderOk(l: S.Ledger, t: TranId, flightID: string, amount: int) {
    var flights := Strings.Split(flightID, ":");
    if t in l.s.logBuf then LogIs(l.s.logBuf[t], t, flights, amount) && Books(l, t, flights, 0)
    else if t in l.s.oldLog && l.s.oldLog[t] == COMMIT then Books(l, t, flights, amount)
    else Books(l, t, flights, 0)
  }

  ghost predicate Untouched(l: S.Ledger, t: TranId) {
    t !in l.s.logBuf && t !in l.s.oldLog && forall f :: TakenBy(l.committed, t, f) == 0
  }

  lemma OtherRecords(l: S.Ledger, u: TranId, t: TranId, f: FlightId)
    requires S.Inv(l) && u in l.s.logBuf && u != t
    ensures TakenBy(l.committed + l.s.logBuf[u], t, f) == TakenBy(l.committed, t, f)
  {
    assert S.LogOk(l.s, u, l.s.logBuf[u]);
    forall k | 0 <= k < |l.s.logBuf[u]|
      ensures l.s.logBuf[u][k].tran == u
    {
      assert S.RecordOk(l.s, u, l.s.logBuf[u][k]);
    }
    TakenByAppend(l.committed, l.s.logBuf[u], t, f);
    NothingTakenBy(l.s.logBuf[u], t, f);
  }

  lemma OtherStep(l: S.Ledger, r: S.Request, t: TranId, f: FlightId)
    requires S.Inv(l)
    requires (r.Decide? ==> r.tran != t || r.tran !in l.s.logBuf)
    ensures TakenBy(S.Next(l, r).committed, t, f) == TakenBy(l.committed, t, f)
  {
    if r.Decide? && r.tran in l.s.logBuf && r.outcome == COMMIT {
      OtherRecords(l, r.tran, t, f);
    }
  }

  /** Requests that do not prepare t again keep its account. */
  lemma OrderKept(l: S.Ledger, r: S.Request, t: TranId, flightID: string, amount: int)
    requires S.Inv(l) && OrderOk(l, t, flightID, amount) && (r.Prepare? ==> r.tran != t)
    ensures OrderOk(S.Next(l, r), t, flightID, amount)
  {
    var l' := S.Next(l, r);
    var flights := Strings.Split(flightID, ":");
    if r.Decide? && r.tran == t && t in l.s.logBuf {
      var logs := l.s.logBuf[t];
      assert S.LogOk(l.s, t, logs);
      forall f
        ensures r.outcome == COMMIT ==> TakenBy(l'.committed, t, f) == if f in flights then amount else 0
      {
        TakenByAppend(l.committed, logs, t, f);
        LogTakes(logs, t, flights, amount, f);
      }
    } else {
      forall f
        ensures TakenBy(l'.committed, t, f) == TakenBy(l.committed, t, f)
      {
        OtherStep(l, r, t, f);
      }
    }
  }

  lemma UntouchedKept(l: S.Ledger, r: S.Request, t: TranId)
    requires S.Inv(l) && Untouched(l, t) && (r.Prepare? ==> r.tran != t)
    ensures Untouched(S.Next(l, r), t)
  {
    forall f
      ensures TakenBy(S.Next(l, r).committed, t, f) == 0
    {
      OtherStep(l, r, t, f);
    }
  }

  /** The first prepare of t opens its account. */
  lemma OrderPrepared(l: S.Ledger, t: TranId, flightID: string, amount: int)
    requires Untouched(l, t)
    ensures OrderOk(S.Next(l, S.Prepare(t, flightID, amount)), t, flightID, amount)
  {
    var flights := Strings.Split(flightID, ":");
    assert flights[0..] == flights && flights[..0] == [];
    PreparedLog(l.s.slots, t, flights, 0, amount, A.Progress(l.s.locks, [], true));
  }

  // ---- the ledger of an airline in a run ----

  /** What an event asks of airline p. */
  function RequestOf(e: Event, p: Ppt): seq<S.Request> {
    match e
    case DeliverInit(q, i) => if q == p then [S.Prepare(i.tran, i.flightID, i.amount)] else []
    case DeliverDecision(d) => if d.ppt == p then [S.Decide(d.tran, d.outcome)] else []
    case Create(q, f, slot) => if q == p then [S.Create(f, slot)] else []
    case _ => []
  }

  ghost function Requests(es: seq<Event>, n: nat, p: Ppt): seq<S.Request>
    requires n <= |es|
  {
    if n == 0 then [] else Requests(es, n - 1, p) + RequestOf(es[n - 1], p)
  }

  ghost function LedgerAt(es: seq<Event>, n: nat, p: Ppt): S.Ledger
    requires n <= |es|
  {
    S.Exec(Requests(es, n, p))
  }

  lemma LedgerStep(es: seq<Event>, m: nat, p: Ppt)
    requires m < |es|
    ensures LedgerAt(es, m + 1, p) ==
            if RequestOf(es[m], p) == [] then LedgerAt(es, m, p) else S.Next(LedgerAt(es, m, p), RequestOf(es[m], p)[0])
  {
    var rs, r := Requests(es, m, p), RequestOf(es[m], p);
    if r == [] {
      assert rs + r == rs;
    } else {
      assert (rs + r)[..|rs|] == rs;
    }
  }

  lemma AirlineStep(w: World, e: Event, p: Ppt, l: S.Ledger)
    requires Enabled(w, e) && p in w.ppts && l.s == w.ppts[p]
    ensures p in Next(w, e).ppts
    ensures Next(w, e).ppts[p] == if RequestOf(e, p) == [] then l.s else S.Next(l, RequestOf(e, p)[0]).s
  {
  }

  lemma LedgerFollows(tms: set<string>, ppts: set<Ppt>, ws: seq<World>, es: seq<Event>, m: nat, p: Ppt)
    requires Run(tms, ppts, ws, es) && m < |es| && p in ws[m].ppts && LedgerAt(es, m, p).s == ws[m].ppts[p]
    ensures p in ws[m + 1].ppts && LedgerAt(es, m + 1, p).s == ws[m + 1].ppts[p]
  {
    StepAt(tms, ppts, ws, es, m);
    LedgerStep(es, m, p);
    AirlineStep(ws[m], es[m], p, LedgerAt(es, m, p));
  }

  // ---- one transaction at one airline ----

  /** The ledger of p accounts for t exactly as ordered. */
  ghost predicate AccountOk(w: World, l: S.Ledger, t: TranId, p: Ppt) {
    if t in w.begun then
      forall k :: 0 <= k < |w.begun[t].orders| && w.begun[t].orders[k].ppt == p ==>
                    OrderOk(l, t, w.begun[t].orders[k].flightID, w.begun[t].orders[k].amount)
    else Untouched(l, t)
  }

  /** An INIT that arrives is the first one for its transaction, and carries the order. */
  lemma InitIsOrder(w: World, p: Ppt, i: Init, k: nat)
    requires InitOk(w, p, i) && TransactionOk(w, i.tran)
    requires i.tran in w.begun && k < |w.begun[i.tran].orders| && w.begun[i.tran].orders[k].ppt == p
    ensures i.flightID == w.begun[i.tran].orders[k].flightID && i.amount == w.begun[i.tran].orders[k].amount
  {
    var j :| 0 <= j < |w.begun[i.tran].orders| && (p, i) == T.InitMsg(i.tran, w.begun[i.tran].orders[j], i.tm);
    assert j == k;
  }

  lemma InitIsFirst(w: World, p: Ppt, i: Init)
    requires InitsOk(w) && ParticipantsOk(w) && Enabled(w, DeliverInit(p, i))
    ensures i.tran in w.begun && i.tran !in w.ppts[p].logBuf && i.tran !in w.ppts[p].oldLog
  {
    assert InitOk(w, p, i) && ParticipantOk(w, p, w.ppts[p]);
  }

  lemma AccountPrepared(w: World, l: S.Ledger, p: Ppt, i: Init)
    requires Inv(w) && Enabled(w, DeliverInit(p, i)) && l.s == w.ppts[p] && AccountOk(w, l, i.tran, p)
    ensures AccountOk(Next(w, DeliverInit(p, i)), S.Next(l, S.Prepare(i.tran, i.flightID, i.amount)), i.tran, p)
  {
    InitIsFirst(w, p, i);
    assert InitOk(w, p, i) && TransactionOk(w, i.tran);
    var t := i.tran;
    var orders := w.begun[t].orders;
    forall k | 0 <= k < |orders| && orders[k].ppt == p
      ensures OrderOk(S.Next(l, S.Prepare(t, i.flightID, i.amount)), t, orders[k].flightID, orders[k].amount)
    {
      InitIsOrder(w, p, i, k);
      assert OrderOk(l, t, orders[k].flightID, orders[k].amount);
      OrderPrepared(l, t, i.flightID, i.amount);
    }
  }

  lemma AccountKept(w: World, l: S.Ledger, r: S.Request, t: TranId, p: Ppt)
    requires S.Inv(l) && AccountOk(w, l, t, p) && (r.Prepare? ==> r.tran != t)
    ensures AccountOk(w, S.Next(l, r), t, p)
  {
    if t in w.begun {
      forall k | 0 <= k < |w.begun[t].orders| && w.begun[t].orders[k].ppt == p
        ensures OrderOk(S.Next(l, r), t, w.begun[t].orders[k].flightID, w.begun[t].orders[k].amount)
      {
        OrderKept(l, r, t, w.begun[t].orders[k].flightID, w.begun[t].orders[k].amount);
      }
    } else {
      UntouchedKept(l, r, t);
    }
  }

  lemma BegunStays(w: World, e: Event, t: TranId)
    requires Enabled(w, e) && (e.Book? ==> e.tran != t || e.orders == [])
    ensures t in Next(w, e).begun <==> t in w.begun
    ensures t in w.begun ==> Next(w, e).begun[t] == w.begun[t]
  {
  }

  /** Events that neither start nor prepare t. */
  lemma AccountSame(w: World, e: Event, l: S.Ledger, t: TranId, p: Ppt)
    requires Enabled(w, e) && S.Inv(l) && AccountOk(w, l, t, p)
    requires (e.Book? ==> e.tran != t) && (e.DeliverInit? && e.ppt == p ==> e.init.tran != t)
    ensures var l' := if RequestOf(e, p) == [] then l else S.Next(l, RequestOf(e, p)[0]);
            AccountOk(Next(w, e), l', t, p)
  {
    BegunStays(w, e, t);
    if RequestOf(e, p) != [] {
      AccountKept(w, l, RequestOf(e, p)[0], t, p);
    }
  }

  lemma AccountStep(w: World, e: Event, l: S.Ledger, t: TranId, p: Ppt)
    requires Inv(w) && Enabled(w, e) && p in w.ppts && l.s == w.ppts[p] && S.Inv(l) && AccountOk(w, l, t, p)
    ensures var l' := if RequestOf(e, p) == [] then l else S.Next(l, RequestOf(e, p)[0]);
            AccountOk(Next(w, e), l', t, p)
  {
    if e.Book? && e.tran == t {
    } else if e.DeliverInit? && e.ppt == p && e.init.tran == t {
      AccountPrepared(w, l, p, e.init);
    } else {
      AccountSame(w, e, l, t, p);
    }
  }

  lemma AccountStart(tms: set<string>, ppts: set<Ppt>, ws: seq<World>, es: seq<Event>, t: TranId, p: Ppt)
    requires Run(tms, ppts, ws, es)
    ensures AccountOk(ws[0], LedgerAt(es, 0, p), t, p)
  {
  }

  lemma OutcomeKnown(w: World, t: TranId, p: Ppt)
    requires Inv(w) && t in w.begun && p in w.ppts && t in w.ppts[p].oldLog
    ensures t !in w.ppts[p].logBuf && ((t, true) in w.replies ==> w.ppts[p].oldLog[t] == COMMIT)
  {
    OutcomeAgreed(w, t);
    assert ParticipantOk(w, p, w.ppts[p]);
  }
}
