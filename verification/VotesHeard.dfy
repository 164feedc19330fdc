/** When a transaction ends, with what outcome, and who is told, said over the votes delivered so far. */
module VotesHeard {
  import opened Transactions
  import opened BookingSystem
  import opened BookingSteps
  import opened ClientSteps
  import opened VotesTally
  import T = TranLayer

  // ---- what follows ----

  /** In every run, orderly or not, a transaction has ended exactly if a vote of every participant has
      reached the agency, and then it is logged as ABORT if some first vote was ABORT and as COMMIT
      otherwise. */
  lemma EndsIffAllHeard(tms: set<string>, ppts: set<Ppt>, ws: seq<World>, es: seq<Event>, n: nat, t: TranId)
    requires Run(tms, ppts, ws, es) && n <= |es| && t in ws[n].begun
    ensures Ended(ws[n], t) <==> forall p :: p in ws[n].begun[t].ppts ==> Heard(es, n, t, p)
    ensures Ended(ws[n], t) ==>
              ws[n].tms[ws[n].begun[t].tm].oldLog[t] == Verdict(es, n, t, ws[n].begun[t].ppts)
  {
    var w := ws[n];
    var b := w.begun[t];
    var group := Group(es, n, t, b.ppts);
    RunHeard(tms, ppts, ws, es, n);
    RunAnswers(tms, ppts, ws, es, n);
    assert HeardOk(w, es, n, t) && RegisteredOk(w, t);
    forall p | p in b.ppts
      ensures group[p] != NOT_DECIDED <==> Heard(es, n, t, p)
    {
      HeardFirst(tms, ppts, ws, es, n, t, p);
    }
    if t in w.tms[b.tm].active {
      T.VotedWithin(group);
      T.SomeoneMissing(group);
    } else {
      OutcomeIsVerdict(es, n, t, b.ppts);
    }
  }

  // ---- who is told ----

  /** In every run the agency speaks about a transaction when it ends, and when it expires before: the
      outcome, or what the votes heard so far come to, goes to exactly those whose first vote is COMMIT,
      and to the client unless it has left. It says nothing at any other time. */
  lemma WhoIsTold(tms: set<string>, ppts: set<Ppt>, ws: seq<World>, es: seq<Event>, n: nat, t: TranId)
    requires Run(tms, ppts, ws, es) && n < |es| && t in ws[n].begun
    ensures var w, w', b := ws[n], ws[n + 1], ws[n].begun[t];
            if !Ended(w, t) && Ended(w', t) then
              var d := Verdict(es, n + 1, t, b.ppts); Says(w, w', t, Informed(es, n + 1, t, b.ppts, d), d)
            else if !Ended(w, t) && es[n] == Expire(b.tm, t) then
              var d := Verdict(es, n, t, b.ppts); Says(w, w', t, Informed(es, n, t, b.ppts, d), d)
            else SaysNothing(w, w', t)
  {
    RunHeard(tms, ppts, ws, es, n);
    RunAnswers(tms, ppts, ws, es, n);
    StepAt(tms, ppts, ws, es, n);
    assert HeardOk(ws[n], es, n, t) && RegisteredOk(ws[n], t);
    if es[n].DeliverVote? {
      VoteSays(ws[n], es, n, t);
    } else {
      StaysOpen(ws[n], es[n], t);
      if es[n].Expire? && es[n].tran == t {
        ExpirySays(ws[n], es, n, es[n].tm, t);
      } else {
        OthersSayNothing(ws[n], es[n], t);
      }
    }
  }

  /** Booking sends every order to its participant. */
  lemma OrdersGoOut(tms: set<string>, ppts: set<Ppt>, ws: seq<World>, es: seq<Event>, n: nat, k: nat)
    requires Run(tms, ppts, ws, es) && n < |es| && es[n].Book? && k < |es[n].orders|
    ensures var o := es[n].orders[k];
            (o.ppt, Init(es[n].tran, o.flightID, o.amount, es[n].tm)) in ws[n + 1].inits
  {
    var e := es[n];
    StepAt(tms, ppts, ws, es, n);
    InitMsgsAre(e.tran, e.orders, e.tm);
    assert T.InitMsgs(e.tran, e.orders, e.tm)[k] in T.InitMsgs(e.tran, e.orders, e.tm);
  }
}
