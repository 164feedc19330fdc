/** The agency's tally is the votes it has been sent. In every run the entry of each participant of an
    active transaction is that participant's first vote; the transaction leaves the table with the last of
    them; and what is said about it then, or by an expiry before, goes to those whose entry is COMMIT. */
module VotesTally {
  import opened Options
  import opened Transactions
  import opened BookingSystem
  import opened BookingSteps
  import opened ClientSteps
  import T = TranLayer

  predicate IsVote(e: Event, t: TranId, p: Ppt) {
    e.DeliverVote? && e.v.tran == t && e.v.ppt == p
  }

  /** The first vote of p for t among the first n events. */
  function FirstVote(es: seq<Event>, n: nat, t: TranId, p: Ppt): Vote
    requires n <= |es|
  {
    if n == 0 then NOT_DECIDED
    else if FirstVote(es, n - 1, t, p) != NOT_DECIDED then FirstVote(es, n - 1, t, p)
    else if IsVote(es[n - 1], t, p) then es[n - 1].v.vote
    else NOT_DECIDED
  }

  ghost predicate Heard(es: seq<Event>, n: nat, t: TranId, p: Ppt)
    requires n <= |es|
  {
    exists m :: 0 <= m < n && IsVote(es[m], t, p)
  }

  /** What the votes of these participants come to so far. */
  ghost function Verdict(es: seq<Event>, n: nat, t: TranId, ppts: set<Ppt>): Vote
    requires n <= |es|
  {
    if exists p :: p in ppts && FirstVote(es, n, t, p) == ABORT then ABORT
    else if exists p :: p in ppts && FirstVote(es, n, t, p) == COMMIT then COMMIT
    else NOT_DECIDED
  }

  function Group(es: seq<Event>, n: nat, t: TranId, ppts: set<Ppt>): map<Ppt, Vote>
    requires n <= |es|
  {
    map p | p in ppts :: FirstVote(es, n, t, p)
  }

  ghost predicate HeardOk(w: World, es: seq<Event>, n: nat, t: TranId)
    requires n <= |es| && t in w.begun
  {
    var b := w.begun[t];
    var group := Group(es, n, t, b.ppts);
    && b.tm in w.tms && b.ppts != {}
    && var s := w.tms[b.tm];
       if t in s.active then s.active[t].commitGrp == group && T.ActiveOk(s.active[t])
       else
         && t in s.oldLog && s.oldLog[t] == T.Outcome(group)
         && forall p :: p in group ==> group[p] != NOT_DECIDED
  }

  predicate VoteReal(w: World, v: VoteMsg) {
    v.vote != NOT_DECIDED && v.tran in w.begun
  }

  ghost predicate Unheard(es: seq<Event>, n: nat, t: TranId)
    requires n <= |es|
  {
    forall p :: FirstVote(es, n, t, p) == NOT_DECIDED
  }

  /** Votes are cast, and heard, only for transactions that have begun. */
  ghost predicate VotesReal(w: World, es: seq<Event>, n: nat)
    requires n <= |es|
  {
    && (forall v :: v in w.votes ==> VoteReal(w, v))
    && (forall t :: t !in w.begun ==> Unheard(es, n, t))
  }

  ghost predicate HeardInv(w: World, es: seq<Event>, n: nat)
    requires n <= |es|
  {
    VotesReal(w, es, n) && forall t :: t in w.begun ==> HeardOk(w, es, n, t)
  }

  // ---- one more vote ----

  lemma GroupAfterVote(es: seq<Event>, n: nat, t: TranId, ppts: set<Ppt>)
    requires n < |es| && es[n].DeliverVote?
    ensures var v := es[n].v; var g := Group(es, n, t, ppts);
            Group(es, n + 1, t, ppts) ==
            if v.tran == t && v.ppt in ppts && g[v.ppt] == NOT_DECIDED then g[v.ppt := v.vote] else g
  {
  }

  lemma GroupAfterOther(es: seq<Event>, n: nat, t: TranId, ppts: set<Ppt>)
    requires n < |es| && !es[n].DeliverVote?
    ensures Group(es, n + 1, t, ppts) == Group(es, n, t, ppts)
  {
  }

  lemma VoteHeard(w: World, es: seq<Event>, n: nat)
    requires n < |es| && es[n].DeliverVote? && Enabled(w, es[n]) && Registered(w) && VotesReal(w, es, n)
    requires es[n].v.tran in w.begun && HeardOk(w, es, n, es[n].v.tran)
    ensures HeardOk(Next(w, es[n]), es, n + 1, es[n].v.tran)
  {
    var v := es[n].v;
    var t, s := v.tran, w.tms[v.tm];
    var b := w.begun[t];
    VoteWorld(w, v);
    GroupAfterVote(es, n, t, b.ppts);
    assert b.tm == v.tm;
    if t in s.active && v.ppt in s.active[t].commitGrp && s.active[t].commitGrp[v.ppt] == NOT_DECIDED {
      T.CountKeepsTally(s.active[t], v.ppt, v.vote);
    }
  }

  lemma OtherHeard(w: World, es: seq<Event>, n: nat, t: TranId)
    requires n < |es| && es[n].DeliverVote? && Enabled(w, es[n])
    requires t in w.begun && t != es[n].v.tran && HeardOk(w, es, n, t)
    ensures t in Next(w, es[n]).begun && HeardOk(Next(w, es[n]), es, n + 1, t)
  {
    var v := es[n].v;
    VoteWorld(w, v);
    VoteShape(w, v, t);
    GroupAfterVote(es, n, t, w.begun[t].ppts);
  }

  // ---- the other events ----

  lemma BookedHeard(w: World, es: seq<Event>, n: nat)
    requires n < |es| && es[n].Book? && Enabled(w, es[n]) && es[n].orders != [] && VotesReal(w, es, n)
    ensures es[n].tran in Next(w, es[n]).begun && HeardOk(Next(w, es[n]), es, n + 1, es[n].tran)
  {
    var t, orders := es[n].tran, es[n].orders;
    NewActiveOk(orders);
    GroupAfterOther(es, n, t, T.Participants(orders));
    assert orders[0].ppt in T.Participants(orders);
    assert T.NewActive(orders).commitGrp == Group(es, n, t, T.Participants(orders));
  }

  lemma RestHeard(w: World, es: seq<Event>, n: nat, t: TranId)
    requires n < |es| && !es[n].DeliverVote? && Enabled(w, es[n])
    requires t in w.begun && HeardOk(w, es, n, t)
    ensures t in Next(w, es[n]).begun && HeardOk(Next(w, es[n]), es, n + 1, t)
  {
    GroupAfterOther(es, n, t, w.begun[t].ppts);
    if es[n].Expire? {
      ExpireWorld(w, es[n].tm, es[n].tran);
    }
  }

  lemma StaysUnheard(es: seq<Event>, n: nat, t: TranId)
    requires n < |es| && Unheard(es, n, t) && (es[n].DeliverVote? ==> es[n].v.tran != t)
    ensures Unheard(es, n + 1, t)
  {
    var m := n + 1;
    forall p
      ensures FirstVote(es, m, t, p) == NOT_DECIDED
    {
      assert FirstVote(es, n, t, p) == NOT_DECIDED;
    }
  }

  lemma VotesStayReal(w: World, es: seq<Event>, n: nat)
    requires n < |es| && Enabled(w, es[n]) && VotesReal(w, es, n) && Registered(w)
    ensures VotesReal(Next(w, es[n]), es, n + 1)
  {
    var e, w' := es[n], Next(w, es[n]);
    if e.DeliverVote? {
      VoteWorld(w, e.v);
    } else if e.Expire? {
      ExpireWorld(w, e.tm, e.tran);
    }
    forall v | v in w'.votes
      ensures VoteReal(w', v)
    {
      if v in w.votes {
        assert VoteReal(w, v);
      } else {
        assert (e.ppt, e.init) in w.inits;
      }
    }
    forall t | t !in w'.begun
      ensures Unheard(es, n + 1, t)
    {
      assert t !in w.begun && Unheard(es, n, t);
      assert e.DeliverVote? ==> VoteReal(w, e.v);
      StaysUnheard(es, n, t);
    }
  }

  lemma NextHeard(w: World, es: seq<Event>, n: nat)
    requires n < |es| && Enabled(w, es[n]) && HeardInv(w, es, n) && Registered(w)
    ensures HeardInv(Next(w, es[n]), es, n + 1)
  {
    var e, w' := es[n], Next(w, es[n]);
    VotesStayReal(w, es, n);
    forall t | t in w'.begun
      ensures HeardOk(w', es, n + 1, t)
    {
      if e.Book? && e.tran == t {
        BookedHeard(w, es, n);
      } else if !e.DeliverVote? {
        BegunBefore(w, e, t);
        RestHeard(w, es, n, t);
      } else {
        VoteWorld(w, e.v);
        if e.v.tran == t {
          VoteHeard(w, es, n);
        } else {
          OtherHeard(w, es, n, t);
        }
      }
    }
  }

  lemma BegunBefore(w: World, e: Event, t: TranId)
    requires Enabled(w, e) && t in Next(w, e).begun && (e.Book? ==> e.tran != t)
    ensures t in w.begun
  {
    if e.DeliverVote? {
      VoteWorld(w, e.v);
    } else if e.Expire? {
      ExpireWorld(w, e.tm, e.tran);
    }
  }

  lemma {:induction false} RunHeard(tms: set<string>, ppts: set<Ppt>, ws: seq<World>, es: seq<Event>, n: nat)
    requires Run(tms, ppts, ws, es) && n <= |es|
    ensures HeardInv(ws[n], es, n)
  {
    if n > 0 {
      RunHeard(tms, ppts, ws, es, n - 1);
      RunAnswers(tms, ppts, ws, es, n - 1);
      StepAt(tms, ppts, ws, es, n - 1);
      NextHeard(ws[n - 1], es, n - 1);
    }
  }

  // ---- what follows ----

  lemma {:induction false} HeardFirst(tms: set<string>, ppts: set<Ppt>, ws: seq<World>, es: seq<Event>, n: nat,
                                      t: TranId, p: Ppt)
    requires Run(tms, ppts, ws, es) && n <= |es|
    ensures FirstVote(es, n, t, p) != NOT_DECIDED <==> Heard(es, n, t, p)
  {
    if n > 0 {
      HeardFirst(tms, ppts, ws, es, n - 1, t, p);
      StepAt(tms, ppts, ws, es, n - 1);
      RunHeard(tms, ppts, ws, es, n - 1);
      assert IsVote(es[n - 1], t, p) ==> VoteReal(ws[n - 1], es[n - 1].v);
      if Heard(es, n, t, p) {
        var m :| 0 <= m < n && IsVote(es[m], t, p);
        assert m < n - 1 ==> Heard(es, n - 1, t, p);
      }
    }
  }

  lemma OutcomeIsVerdict(es: seq<Event>, n: nat, t: TranId, ppts: set<Ppt>)
    requires n <= |es| && ppts != {}
    requires forall p :: p in ppts ==> FirstVote(es, n, t, p) != NOT_DECIDED
    ensures T.Outcome(Group(es, n, t, ppts)) == Verdict(es, n, t, ppts)
  {
    var group := Group(es, n, t, ppts);
    var p :| p in ppts;
    if T.SomeAbort(group) {
      var q :| q in group && group[q] == ABORT;
      assert FirstVote(es, n, t, q) == ABORT;
    } else {
      forall q | q in ppts
        ensures FirstVote(es, n, t, q) == COMMIT
      {
        assert group[q] == FirstVote(es, n, t, q);
      }
    }
  }

  // ---- who is told ----

  /** The outcome for everyone whose first vote is COMMIT. */
  function Informed(es: seq<Event>, n: nat, t: TranId, ppts: set<Ppt>, d: Vote): set<Decision>
    requires n <= |es|
  {
    set p | p in ppts && FirstVote(es, n, t, p) == COMMIT :: Decision(t, p, d)
  }

  function DecisionsOn(w: World, t: TranId): set<Decision> {
    set d | d in w.decisions && d.tran == t
  }

  function RepliesOn(w: World, t: TranId): set<bool> {
    set b | b in {true, false} && (t, b) in w.replies
  }

  /** What the agency says about t between two worlds: d to these participants, and to the client if it
      still waits. */
  ghost predicate Says(w: World, w': World, t: TranId, told: set<Decision>, d: Vote) {
    && DecisionsOn(w', t) == DecisionsOn(w, t) + told
    && RepliesOn(w', t) == if Answered(w, t) then RepliesOn(w, t) else {d == COMMIT}
  }

  ghost predicate SaysNothing(w: World, w': World, t: TranId) {
    DecisionsOn(w', t) == DecisionsOn(w, t) && RepliesOn(w', t) == RepliesOn(w, t)
  }

  lemma DecisionVerdict(w: World, es: seq<Event>, n: nat, t: TranId)
    requires n <= |es| && t in w.begun && HeardOk(w, es, n, t) && t in w.tms[w.begun[t].tm].active
    ensures w.tms[w.begun[t].tm].active[t].decision == Verdict(es, n, t, w.begun[t].ppts)
    ensures T.Tell(t, w.tms[w.begun[t].tm].active[t].commitGrp, Verdict(es, n, t, w.begun[t].ppts)) ==
            Informed(es, n, t, w.begun[t].ppts, Verdict(es, n, t, w.begun[t].ppts))
  {
    var a := w.tms[w.begun[t].tm].active[t];
    var ppts := w.begun[t].ppts;
    assert a.commitGrp == Group(es, n, t, ppts);
    forall p | p in ppts
      ensures a.commitGrp[p] == FirstVote(es, n, t, p)
    {
    }
    if T.SomeAbort(a.commitGrp) {
      var p :| p in a.commitGrp && a.commitGrp[p] == ABORT;
      assert FirstVote(es, n, t, p) == ABORT;
    } else if T.Voted(a.commitGrp) != {} {
      var p :| p in T.Voted(a.commitGrp);
      assert FirstVote(es, n, t, p) == COMMIT;
    } else {
      assert forall p :: p in ppts ==> p !in T.Voted(a.commitGrp);
    }
  }

  lemma SaysThis(w: World, w': World, t: TranId, told: set<Decision>, d: Vote)
    requires w'.decisions == w.decisions + told && forall m :: m in told ==> m.tran == t
    requires w'.replies == if Answered(w, t) then w.replies else w.replies + {(t, d == COMMIT)}
    ensures Says(w, w', t, told, d)
  {
  }

  lemma ExpirySays(w: World, es: seq<Event>, n: nat, tm: string, t: TranId)
    requires n <= |es| && Enabled(w, Expire(tm, t)) && HeardOk(w, es, n, t) && RegisteredOk(w, t)
    ensures var ppts := w.begun[t].ppts; var d := Verdict(es, n, t, ppts);
            var w' := Next(w, Expire(tm, t));
            if Ended(w, t) then SaysNothing(w, w', t) else Says(w, w', t, Informed(es, n, t, ppts, d), d)
  {
    ExpireWorld(w, tm, t);
    if !Ended(w, t) {
      DecisionVerdict(w, es, n, t);
      var ppts := w.begun[t].ppts;
      var d := Verdict(es, n, t, ppts);
      SaysThis(w, Next(w, Expire(tm, t)), t, Informed(es, n, t, ppts, d), d);
    }
  }

  lemma VoteSays(w: World, es: seq<Event>, n: nat, t: TranId)
    requires n < |es| && es[n].DeliverVote? && Enabled(w, es[n]) && Registered(w) && t in w.begun
    requires HeardOk(w, es, n, t) && VotesReal(w, es, n)
    ensures var w' := Next(w, es[n]);
            var ppts := w.begun[t].ppts; var d := Verdict(es, n + 1, t, ppts);
            if Ended(w, t) || !Ended(w', t) then SaysNothing(w, w', t)
            else Says(w, w', t, Informed(es, n + 1, t, ppts, d), d)
  {
    var v := es[n].v;
    VoteWorld(w, v);
    assert RegisteredOk(w, t);
    if v.tran != t {
      VoteShape(w, v, t);
    } else {
      VoteMoves(w, v, t);
      if !Ended(w, t) && Ended(Next(w, es[n]), t) {
        LastVoteSays(w, es, n);
      }
    }
  }

  lemma LastVoteSays(w: World, es: seq<Event>, n: nat)
    requires n < |es| && es[n].DeliverVote? && Enabled(w, es[n]) && VotesReal(w, es, n) && Registered(w)
    requires var t := es[n].v.tran; t in w.begun && HeardOk(w, es, n, t) && Ends(w, es[n].v)
    ensures var t := es[n].v.tran; var ppts := w.begun[t].ppts; var d := Verdict(es, n + 1, t, ppts);
            Says(w, Next(w, es[n]), t, Informed(es, n + 1, t, ppts, d), d)
  {
    var v := es[n].v;
    var t, ppts := v.tran, w.begun[v.tran].ppts;
    var d := Verdict(es, n + 1, t, ppts);
    VoteWorld(w, v);
    LastTally(w, es, n);
    SaysThis(w, Next(w, es[n]), t, Informed(es, n + 1, t, ppts, d), d);
  }

  /** The tally that the last vote completes is what has been heard. */
  lemma LastTally(w: World, es: seq<Event>, n: nat)
    requires n < |es| && es[n].DeliverVote? && Enabled(w, es[n]) && VotesReal(w, es, n) && Registered(w)
    requires var t := es[n].v.tran; t in w.begun && HeardOk(w, es, n, t) && Ends(w, es[n].v)
    ensures var v := es[n].v; var ppts := w.begun[v.tran].ppts; var d := Verdict(es, n + 1, v.tran, ppts);
            var o := T.ResponseTrans(w.tms[v.tm], v.tran, v.ppt, v.vote).1;
            o.sent == Informed(es, n + 1, v.tran, ppts, d) && o.reply == Some(d == COMMIT)
  {
    var v := es[n].v;
    var t, ppts := v.tran, w.begun[v.tran].ppts;
    assert VoteReal(w, v);
    GroupAfterVote(es, n, t, ppts);
    var b := T.Count(w.tms[v.tm].active[t], v.ppt, v.vote);
    T.CountKeepsTally(w.tms[v.tm].active[t], v.ppt, v.vote);
    assert b.commitGrp == Group(es, n + 1, t, ppts);
    TellHeard(es, n + 1, t, ppts, b.commitGrp);
  }

  lemma TellHeard(es: seq<Event>, n: nat, t: TranId, ppts: set<Ppt>, group: map<Ppt, Vote>)
    requires n <= |es| && group == Group(es, n, t, ppts) && ppts != {}
    requires forall p :: p in group ==> group[p] != NOT_DECIDED
    ensures T.Outcome(group) == Verdict(es, n, t, ppts)
    ensures T.Tell(t, group, T.Outcome(group)) == Informed(es, n, t, ppts, T.Outcome(group))
  {
    forall p | p in ppts
      ensures FirstVote(es, n, t, p) == group[p]
    {
    }
    OutcomeIsVerdict(es, n, t, ppts);
  }

  lemma OthersSayNothing(w: World, e: Event, t: TranId)
    requires Enabled(w, e) && t in w.begun && !e.DeliverVote? && (e.Expire? ==> e.tran != t)
    ensures SaysNothing(w, Next(w, e), t)
  {
    if e.Expire? {
      ExpireWorld(w, e.tm, e.tran);
    }
  }

  lemma StaysOpen(w: World, e: Event, t: TranId)
    requires Enabled(w, e) && t in w.begun && !e.DeliverVote?
    ensures Ended(Next(w, e), t) ==> Ended(w, t)
  {
    if e.Expire? {
      ExpireWorld(w, e.tm, e.tran);
    }
  }
}
