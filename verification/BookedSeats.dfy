/** From bookings to seats: each airline in a run of the booking system keeps a ledger, and a booking
    the client heard to have succeeded takes exactly its seats in it. */
module BookedSeats {
  import opened Transactions
  import opened BookingSystem
  import opened BookingAtomicity
  import opened SeatAccounts
  import S = SeatLedger
  import Strings

  // ---- the ledger of an airline in a run ----

  /** Each airline in a run of the booking system goes through a run of its ledger, so whatever holds of
      ledgers holds of it. */
  lemma {:induction false} AirlineKeepsLedger(tms: set<string>, ppts: set<Ppt>, ws: seq<World>, es: seq<Event>,
                                              n: nat, p: Ppt)
    requires Run(tms, ppts, ws, es) && n <= |es| && p in ppts
    ensures p in ws[n].ppts && LedgerAt(es, n, p).s == ws[n].ppts[p]
  {
    if n == 0 {
      assert LedgerAt(es, 0, p) == S.EMPTY;
    } else {
      AirlineKeepsLedger(tms, ppts, ws, es, n - 1, p);
      LedgerFollows(tms, ppts, ws, es, n - 1, p);
    }
  }

  // ---- one transaction at one airline ----

  lemma AccountFollows(tms: set<string>, ppts: set<Ppt>, ws: seq<World>, es: seq<Event>, m: nat, t: TranId, p: Ppt)
    requires Run(tms, ppts, ws, es) && OrderlyRun(ws, es) && m < |es| && p in ppts
    requires AccountOk(ws[m], LedgerAt(es, m, p), t, p)
    ensures AccountOk(ws[m + 1], LedgerAt(es, m + 1, p), t, p)
  {
    RunInv(tms, ppts, ws, es, m);
    StepAt(tms, ppts, ws, es, m);
    AirlineKeepsLedger(tms, ppts, ws, es, m, p);
    S.RunInv(Requests(es, m, p));
    LedgerStep(es, m, p);
    AccountStep(ws[m], es[m], LedgerAt(es, m, p), t, p);
  }

  lemma {:induction false} RunAccount(tms: set<string>, ppts: set<Ppt>, ws: seq<World>, es: seq<Event>,
                                      n: nat, t: TranId, p: Ppt)
    requires Run(tms, ppts, ws, es) && OrderlyRun(ws, es) && n <= |es| && p in ppts
    ensures AccountOk(ws[n], LedgerAt(es, n, p), t, p)
  {
    if n == 0 {
      AccountStart(tms, ppts, ws, es, t, p);
    } else {
      RunAccount(tms, ppts, ws, es, n - 1, t, p);
      AccountFollows(tms, ppts, ws, es, n - 1, t, p);
    }
  }

  /** Seats follow answers: in every orderly run, once an airline knows the outcome of a booking, its
      ledger has exactly the seats of the order taken from each flight of the order if the booking
      was committed, and none otherwise; and if the client has heard that the booking succeeded, it
      was committed. The slots of the airline are what its ledger says. */
  lemma SeatsFollowAnswers(tms: set<string>, ppts: set<Ppt>, ws: seq<World>, es: seq<Event>,
                           n: nat, t: TranId, k: nat, f: FlightId)
    requires Run(tms, ppts, ws, es) && OrderlyRun(ws, es) && n <= |es|
    requires t in ws[n].begun && k < |ws[n].begun[t].orders|
    requires var p := ws[n].begun[t].orders[k].ppt; p in ppts && p in ws[n].ppts && t in ws[n].ppts[p].oldLog
    ensures var o := ws[n].begun[t].orders[k];
            var s, l := ws[n].ppts[o.ppt], LedgerAt(es, n, o.ppt);
            && TakenBy(l.committed, t, f) ==
               (if s.oldLog[t] == COMMIT && f in Strings.Split(o.flightID, ":") then o.amount else 0)
            && ((t, true) in ws[n].replies ==> s.oldLog[t] == COMMIT)
            && (f in s.slots ==>
                  f in l.initial &&
                  s.slots[f] == l.initial[f] - TakenBy(l.committed, t, f) - S.Taken(Others(l.committed, t), f))
  {
    var o := ws[n].begun[t].orders[k];
    var l := LedgerAt(es, n, o.ppt);
    RunInv(tms, ppts, ws, es, n);
    RunAccount(tms, ppts, ws, es, n, t, o.ppt);
    AirlineKeepsLedger(tms, ppts, ws, es, n, o.ppt);
    S.RunInv(Requests(es, n, o.ppt));
    TakenSplits(l.committed, t, f);
    OutcomeKnown(ws[n], t, o.ppt);
    assert OrderOk(l, t, o.flightID, o.amount);
  }
}
