/** Bookings either happen everywhere or nowhere. */
module BookingAtomicity {
  import opened Transactions
  import opened BookingSystem
  import opened BookingSteps

  lemma StartInv(tms: set<string>, ppts: set<Ppt>, ws: seq<World>, es: seq<Event>)
    requires Run(tms, ppts, ws, es)
    ensures Inv(ws[0])
  {
  }

  lemma {:induction false} RunInv(tms: set<string>, ppts: set<Ppt>, ws: seq<World>, es: seq<Event>, n: nat)
    requires Run(tms, ppts, ws, es) && OrderlyRun(ws, es) && n <= |es|
    ensures Inv(ws[n])
  {
    if n == 0 {
      StartInv(tms, ppts, ws, es);
    } else {
      RunInv(tms, ppts, ws, es, n - 1);
      InvStep(tms, ppts, ws, es, n - 1);
    }
  }

  lemma InvStep(tms: set<string>, ppts: set<Ppt>, ws: seq<World>, es: seq<Event>, m: nat)
    requires Run(tms, ppts, ws, es) && OrderlyRun(ws, es) && m < |es| && Inv(ws[m])
    ensures Inv(ws[m + 1])
  {
    StepAt(tms, ppts, ws, es, m);
    assert OrderlyAt(ws, es, m);
    NextInv(ws[m], es[m]);
  }

  /** d is what the whole world knows about t: every decision sent, every outcome applied at a
      participant and every answer to the client says d. */
  ghost predicate OneOutcome(w: World, t: TranId, d: Vote) {
    && AllSay(w, t, d)
    && forall p :: p in w.ppts && t in w.ppts[p].oldLog ==> w.ppts[p].oldLog[t] == d
  }

  /** What the invariant says about the outcome of one transaction. */
  lemma OutcomeAgreed(w: World, t: TranId)
    requires Inv(w) && t in w.begun
    ensures w.begun[t].tm in w.tms
    ensures var s := w.tms[w.begun[t].tm];
            (t in s.active || t in s.oldLog) &&
            OneOutcome(w, t, if t in s.active then ABORT else s.oldLog[t])
  {
    assert TransactionOk(w, t);
    var s := w.tms[w.begun[t].tm];
    var d := if t in s.active then ABORT else s.oldLog[t];
    forall p | p in w.ppts && t in w.ppts[p].oldLog
      ensures w.ppts[p].oldLog[t] == d
    {
      assert ParticipantOk(w, p, w.ppts[p]);
    }
  }

  /** Atomic commitment: in every orderly run, for every transaction begun, there is one outcome that
      every decision, every applied result and every client answer agrees on. Once the agency has
      logged an outcome it is that one, and the client has heard it; it is COMMIT exactly when every
      participant has voted COMMIT, and every participant that did is told. */
  lemma Atomicity(tms: set<string>, ppts: set<Ppt>, ws: seq<World>, es: seq<Event>, n: nat, t: TranId)
    requires Run(tms, ppts, ws, es) && OrderlyRun(ws, es) && n <= |es| && t in ws[n].begun
    ensures var w := ws[n];
            var b := w.begun[t];
            && b.tm in w.tms && b.ppts <= w.ppts.Keys
            && (exists d :: OneOutcome(w, t, d))
            && (t in w.tms[b.tm].oldLog ==>
                  var d := w.tms[b.tm].oldLog[t];
                  && OneOutcome(w, t, d)
                  && (d == COMMIT <==> forall p :: p in b.ppts ==> Cast(w, t, p, COMMIT))
                  && (t, d == COMMIT) in w.replies
                  && forall p :: p in b.ppts && Cast(w, t, p, COMMIT) ==> Decision(t, p, d) in w.decisions)
  {
    RunInv(tms, ppts, ws, es, n);
    OutcomeAgreed(ws[n], t);
    assert TransactionOk(ws[n], t);
  }

  /** Everywhere: in every orderly run a participant that has voted COMMIT has kept the transaction
      prepared or knows its outcome. Once the agency has one, its message is under way to the
      participant, and delivering it leaves the participant with that outcome. */
  lemma Everywhere(tms: set<string>, ppts: set<Ppt>, ws: seq<World>, es: seq<Event>, n: nat, t: TranId, p: Ppt)
    requires Run(tms, ppts, ws, es) && OrderlyRun(ws, es) && n <= |es| && t in ws[n].begun
    requires p in ws[n].begun[t].ppts && Cast(ws[n], t, p, COMMIT)
    ensures p in ws[n].ppts && (t in ws[n].ppts[p].logBuf || t in ws[n].ppts[p].oldLog)
    ensures ws[n].begun[t].tm in ws[n].tms
    ensures var s := ws[n].tms[ws[n].begun[t].tm];
            t in s.oldLog ==>
              var e := DeliverDecision(Decision(t, p, s.oldLog[t]));
              && Enabled(ws[n], e)
              && t in Next(ws[n], e).ppts[p].oldLog && Next(ws[n], e).ppts[p].oldLog[t] == s.oldLog[t]
  {
    var w := ws[n];
    RunInv(tms, ppts, ws, es, n);
    assert TransactionOk(w, t) && ParticipantOk(w, p, w.ppts[p]);
    OutcomeAgreed(w, t);
  }
}
