/** What the client of a booking hears, and when an agency stops for good: for every run, also those
    with early expiries and several orders for one airline. */
module ClientAnswers {
  import opened Transactions
  import opened BookingSystem
  import opened ClientSteps

  /** In every run a client hears one answer at most, and hears one exactly if its transaction has
      expired early or ended. */
  lemma OneAnswer(tms: set<string>, ppts: set<Ppt>, ws: seq<World>, es: seq<Event>, n: nat, t: TranId)
    requires Run(tms, ppts, ws, es) && n <= |es| && t in ws[n].begun
    ensures Answered(ws[n], t) <==> t in ws[n].early || Ended(ws[n], t)
    ensures !((t, true) in ws[n].replies && (t, false) in ws[n].replies)
  {
    RunAnswers(tms, ppts, ws, es, n);
    assert AnswerOk(ws[n], t);
  }

  /** In every run an agency handles nothing any more exactly if it was given a booking without
      orders, or a transaction that had expired while it waited for votes has ended: there is nobody
      left to take the second answer. */
  lemma {:induction false} AgencyStopsIff(tms: set<string>, ppts: set<Ppt>, ws: seq<World>, es: seq<Event>,
                                          n: nat, tm: string)
    requires Run(tms, ppts, ws, es) && n <= |es|
    ensures tm in ws[n].down <==> EmptyBooked(es, n, tm) || BlockedBy(ws[n], tm)
  {
    if n == 0 {
    } else {
      AgencyStopsIff(tms, ppts, ws, es, n - 1, tm);
      RunAnswers(tms, ppts, ws, es, n - 1);
      StepAt(tms, ppts, ws, es, n - 1);
      NextBlocks(ws[n - 1], es[n - 1], tm, EmptyBooked(es, n - 1, tm));
      assert EmptyBooked(es, n, tm) <==> EmptyBooked(es, n - 1, tm) || IsEmptyBooking(es[n - 1], tm);
    }
  }
}
