/** Every step of an orderly run keeps what makes bookings atomic. A transaction that waits for votes has
    said nothing that its end could contradict: either nothing at all, or ABORT because an ABORT has been
    counted. One that has finished has said the outcome of all votes to everyone who voted COMMIT. An
    INIT on its way goes to a participant that has not voted; a participant has voted COMMIT exactly for
    what it still has prepared or has been told the outcome of. */
module BookingSteps {
  import opened Options
  import opened Transactions
  import opened BookingSystem
  import T = TranLayer
  import A = AirlineParticipant

  // ---- the invariant, one transaction at a time ----

  predicate Cast(w: World, t: TranId, p: Ppt, v: Vote)
    requires t in w.begun
  {
    VoteMsg(w.begun[t].tm, t, p, v) in w.votes
  }

  /** Everything said about t so far agrees with the outcome d. */
  ghost predicate AllSay(w: World, t: TranId, d: Vote) {
    && (forall m :: m in w.decisions && m.tran == t ==> m.outcome == d)
    && (forall r :: r in w.replies && r.0 == t ==> r.1 == (d == COMMIT))
  }

  ghost predicate Waiting(w: World, t: TranId, a: T.Active)
    requires t in w.begun
  {
    && a.commitGrp.Keys == w.begun[t].ppts
    && T.ActiveOk(a)
    && (forall p :: p in a.commitGrp && a.commitGrp[p] != NOT_DECIDED ==> Cast(w, t, p, a.commitGrp[p]))
    && AllSay(w, t, ABORT)
    && (a.decision != ABORT ==>
          (forall m :: m in w.decisions ==> m.tran != t) && forall r :: r in w.replies ==> r.0 != t)
  }

  ghost predicate Finished(w: World, t: TranId, d: Vote)
    requires t in w.begun
  {
    && d != NOT_DECIDED
    && (forall p :: p in w.begun[t].ppts ==> Cast(w, t, p, COMMIT) || Cast(w, t, p, ABORT))
    && (d == COMMIT <==> forall p :: p in w.begun[t].ppts ==> Cast(w, t, p, COMMIT))
    && AllSay(w, t, d)
    && (t, d == COMMIT) in w.replies
    && (forall p :: p in w.begun[t].ppts && Cast(w, t, p, COMMIT) ==> Decision(t, p, d) in w.decisions)
  }

  ghost predicate TransactionOk(w: World, t: TranId)
    requires t in w.begun
  {
    var b := w.begun[t];
    && b.tm in w.tms && b.ppts <= w.ppts.Keys
    && b.ppts == T.Participants(b.orders) && DistinctParticipants(b.orders)
    && var s := w.tms[b.tm];
       if t in s.active then t !in s.oldLog && Waiting(w, t, s.active[t])
       else t in s.oldLog && Finished(w, t, s.oldLog[t])
  }

  /** Agencies only know transactions of their own. */
  ghost predicate AgenciesOk(w: World) {
    forall m, t :: m in w.tms && (t in w.tms[m].active || t in w.tms[m].oldLog) ==> t in w.begun && w.begun[t].tm == m
  }

  /** The message is the INIT of one of the orders. */
  ghost predicate OfOrder(b: Begun, p: Ppt, i: Init) {
    exists k :: 0 <= k < |b.orders| && (p, i) == T.InitMsg(i.tran, b.orders[k], i.tm)
  }

  /** An INIT under way is addressed to a participant that has not voted. */
  ghost predicate InitOk(w: World, p: Ppt, i: Init) {
    && i.tran in w.begun && i.tm == w.begun[i.tran].tm && p in w.begun[i.tran].ppts
    && OfOrder(w.begun[i.tran], p, i)
    && forall v :: v in w.votes ==> v.tran != i.tran || v.ppt != p
  }

  ghost predicate InitsOk(w: World) {
    && (forall i :: i in w.inits ==> InitOk(w, i.0, i.1))
    && (forall i, j :: i in w.inits && j in w.inits && i.0 == j.0 && i.1.tran == j.1.tran ==> i == j)
  }

  ghost predicate VoteOk(w: World, v: VoteMsg) {
    && v.tran in w.begun && v.tm == w.begun[v.tran].tm && v.ppt in w.begun[v.tran].ppts
    && v.vote != NOT_DECIDED
  }

  /** A participant votes once per transaction, to the agency that asked. */
  ghost predicate VotesOk(w: World) {
    && (forall v :: v in w.votes ==> VoteOk(w, v))
    && (forall v, u :: v in w.votes && u in w.votes && v.tran == u.tran && v.ppt == u.ppt ==> v == u)
  }

  ghost predicate DecisionsOk(w: World) {
    && (forall d :: d in w.decisions ==> d.tran in w.begun)
    && (forall r :: r in w.replies ==> r.0 in w.begun)
  }

  /** A participant has voted to commit exactly the transactions that it still has prepared or has
      been told the outcome of, and an outcome it knows was sent to it. */
  ghost predicate ParticipantOk(w: World, p: Ppt, s: A.State) {
    && (forall t :: t in s.logBuf ==> t in w.begun && Cast(w, t, p, COMMIT) && t !in s.oldLog)
    && (forall t :: t in s.oldLog ==>
                      t in w.begun && Cast(w, t, p, COMMIT) && Decision(t, p, s.oldLog[t]) in w.decisions)
    && (forall t :: t in w.begun && Cast(w, t, p, COMMIT) ==> t in s.logBuf || t in s.oldLog)
  }

  ghost predicate ParticipantsOk(w: World) {
    forall p :: p in w.ppts ==> ParticipantOk(w, p, w.ppts[p])
  }

  ghost predicate Inv(w: World) {
    && (forall t :: t in w.begun ==> TransactionOk(w, t))
    && AgenciesOk(w) && InitsOk(w) && VotesOk(w) && DecisionsOk(w) && ParticipantsOk(w)
  }

  // ---- starting a transaction ----

  /** One INIT per order, in order. */
  lemma {:induction false} InitMsgsAre(tran: TranId, orders: seq<Order>, tm: string)
    ensures |T.InitMsgs(tran, orders, tm)| == |orders|
    ensures forall k :: 0 <= k < |orders| ==> T.InitMsgs(tran, orders, tm)[k] == T.InitMsg(tran, orders[k], tm)
    decreases |orders|
  {
    if orders != [] {
      InitMsgsAre(tran, orders[1..], tm);
    }
  }

  lemma BookInits(w: World, tm: string, tran: TranId, orders: seq<Order>)
    requires InitsOk(w) && VotesOk(w) && tran !in w.begun && DistinctParticipants(orders)
    requires Enabled(w, Book(tm, tran, orders)) && orders != []
    ensures InitsOk(Next(w, Book(tm, tran, orders)))
  {
    var w' := Next(w, Book(tm, tran, orders));
    forall i | i in w'.inits
      ensures InitOk(w', i.0, i.1)
    {
      if i in w.inits {
        assert InitOk(w, i.0, i.1);
      } else {
        NewInit(w, tm, tran, orders, i);
      }
    }
    forall i, j | i in w'.inits && j in w'.inits && i.0 == j.0 && i.1.tran == j.1.tran
      ensures i == j
    {
      if i !in w.inits {
        NewInit(w, tm, tran, orders, i);
      } else {
        assert InitOk(w, i.0, i.1);
      }
      if j !in w.inits {
        NewInit(w, tm, tran, orders, j);
      } else {
        assert InitOk(w, j.0, j.1);
      }
    }
  }

  lemma NewInit(w: World, tm: string, tran: TranId, orders: seq<Order>, i: (Ppt, Init))
    requires VotesOk(w) && tran !in w.begun && Enabled(w, Book(tm, tran, orders)) && orders != []
    requires i in Next(w, Book(tm, tran, orders)).inits && i !in w.inits
    ensures i.1.tran == tran && InitOk(Next(w, Book(tm, tran, orders)), i.0, i.1)
    ensures exists k :: 0 <= k < |orders| && i == T.InitMsg(tran, orders[k], tm)
  {
    InitMsgsAre(tran, orders, tm);
    var k :| 0 <= k < |orders| && T.InitMsgs(tran, orders, tm)[k] == i;
    assert i == T.InitMsg(tran, orders[k], tm);
    assert OfOrder(Next(w, Book(tm, tran, orders)).begun[tran], i.0, i.1);
    forall v | v in w.votes
      ensures v.tran != tran
    {
      assert VoteOk(w, v);
    }
  }

  lemma NewActiveOk(orders: seq<Order>)
    requires orders != []
    ensures T.ActiveOk(T.NewActive(orders))
    ensures T.NewActive(orders).commitGrp.Keys == T.Participants(orders) && T.Voted(T.NewActive(orders).commitGrp) == {}
  {
    var group := T.NewActive(orders).commitGrp;
    assert orders[0].ppt in group.Keys;
    assert T.Voted(group) == {};
    assert |group| == |group.Keys| && |group.Keys| > 0;
  }

  /** No decision or reply about t has been added. */
  ghost predicate NothingNewSaid(w: World, w': World, t: TranId) {
    && w.decisions <= w'.decisions && w.replies <= w'.replies
    && (forall d :: d in w'.decisions && d.tran == t ==> d in w.decisions)
    && (forall r :: r in w'.replies && r.0 == t ==> r in w.replies)
  }

  /** A step of other parties leaves a transaction as it was. */
  lemma TransactionFrame(w: World, w': World, t: TranId)
    requires t in w.begun && TransactionOk(w, t)
    requires t in w'.begun && w'.begun[t] == w.begun[t] && w.ppts.Keys == w'.ppts.Keys
    requires var m := w.begun[t].tm;
             && m in w'.tms
             && (t in w'.tms[m].active <==> t in w.tms[m].active)
             && (t in w.tms[m].active ==> w'.tms[m].active[t] == w.tms[m].active[t])
             && (t in w'.tms[m].oldLog <==> t in w.tms[m].oldLog)
             && (t in w.tms[m].oldLog ==> w'.tms[m].oldLog[t] == w.tms[m].oldLog[t])
    requires w'.votes == w.votes && NothingNewSaid(w, w', t)
    ensures TransactionOk(w', t)
  {
    var s := w.tms[w.begun[t].tm];
    if t in s.active {
      assert Waiting(w, t, s.active[t]);
      assert forall p, v :: Cast(w', t, p, v) == Cast(w, t, p, v);
      assert AllSay(w', t, ABORT);
    } else {
      assert Finished(w, t, s.oldLog[t]);
      assert forall p, v :: Cast(w', t, p, v) == Cast(w, t, p, v);
      assert AllSay(w', t, s.oldLog[t]);
    }
  }

  lemma BookTransaction(w: World, tm: string, tran: TranId, orders: seq<Order>)
    requires AgenciesOk(w) && DecisionsOk(w) && Enabled(w, Book(tm, tran, orders))
    requires DistinctParticipants(orders) && orders != []
    ensures TransactionOk(Next(w, Book(tm, tran, orders)), tran)
  {
    var w' := Next(w, Book(tm, tran, orders));
    NewActiveOk(orders);
    assert tran !in w.tms[tm].oldLog;
    assert w'.begun == w.begun[tran := Begun(tm, T.Participants(orders), orders)] && w'.ppts == w.ppts;
    assert w'.tms[tm] == T.InitTrans(w.tms[tm], tran, orders);
  }

  lemma BookInv(w: World, tm: string, tran: TranId, orders: seq<Order>)
    requires Inv(w) && Enabled(w, Book(tm, tran, orders)) && DistinctParticipants(orders) && orders != []
    ensures Inv(Next(w, Book(tm, tran, orders)))
  {
    var w' := Next(w, Book(tm, tran, orders));
    BookInits(w, tm, tran, orders);
    BookTransaction(w, tm, tran, orders);
    forall t | t in w'.begun && t != tran
      ensures TransactionOk(w', t)
    {
      BookOther(w, tm, tran, orders, t);
    }
    BookRest(w, tm, tran, orders);
  }

  lemma BookOther(w: World, tm: string, tran: TranId, orders: seq<Order>, t: TranId)
    requires Enabled(w, Book(tm, tran, orders)) && orders != [] && t in w.begun && TransactionOk(w, t)
    ensures t in Next(w, Book(tm, tran, orders)).begun && TransactionOk(Next(w, Book(tm, tran, orders)), t)
  {
    TransactionFrame(w, Next(w, Book(tm, tran, orders)), t);
  }

  lemma BookRest(w: World, tm: string, tran: TranId, orders: seq<Order>)
    requires Inv(w) && Enabled(w, Book(tm, tran, orders)) && orders != []
    ensures var w' := Next(w, Book(tm, tran, orders));
            AgenciesOk(w') && VotesOk(w') && DecisionsOk(w') && ParticipantsOk(w')
  {
    BookAgencies(w, tm, tran, orders);
    BookPeople(w, tm, tran, orders);
  }

  lemma BookAgencies(w: World, tm: string, tran: TranId, orders: seq<Order>)
    requires AgenciesOk(w) && DecisionsOk(w) && Enabled(w, Book(tm, tran, orders)) && orders != []
    ensures var w' := Next(w, Book(tm, tran, orders)); AgenciesOk(w') && DecisionsOk(w')
  {
  }

  /** Messages and transactions have only been added, and p has cast no new COMMIT. */
  ghost predicate NothingNewCast(w: World, w': World, p: Ppt) {
    && w.votes <= w'.votes && w.decisions <= w'.decisions
    && (forall t :: t in w.begun ==> t in w'.begun && w'.begun[t] == w.begun[t])
    && (forall t :: t in w'.begun && Cast(w', t, p, COMMIT) ==> t in w.begun && Cast(w, t, p, COMMIT))
  }

  lemma SamePeople(w: World, w': World)
    requires ParticipantsOk(w) && w'.ppts == w.ppts
    requires w'.votes == w.votes && w'.begun == w.begun && w.decisions <= w'.decisions
    ensures ParticipantsOk(w')
  {
    forall p | p in w'.ppts
      ensures ParticipantOk(w', p, w'.ppts[p])
    {
      assert ParticipantOk(w, p, w.ppts[p]);
      ParticipantFrame(w, w', p, w.ppts[p]);
    }
  }

  lemma BookCasts(w: World, tm: string, tran: TranId, orders: seq<Order>, p: Ppt)
    requires VotesOk(w) && Enabled(w, Book(tm, tran, orders)) && orders != []
    ensures NothingNewCast(w, Next(w, Book(tm, tran, orders)), p)
  {
    assert forall v :: v in w.votes ==> VoteOk(w, v);
  }

  lemma BookPeople(w: World, tm: string, tran: TranId, orders: seq<Order>)
    requires ParticipantsOk(w) && VotesOk(w) && Enabled(w, Book(tm, tran, orders)) && orders != []
    ensures ParticipantsOk(Next(w, Book(tm, tran, orders)))
  {
    var w' := Next(w, Book(tm, tran, orders));
    forall p | p in w'.ppts
      ensures ParticipantOk(w', p, w'.ppts[p])
    {
      assert ParticipantOk(w, p, w.ppts[p]);
      BookCasts(w, tm, tran, orders, p);
      ParticipantFrame(w, w', p, w.ppts[p]);
    }
  }

  lemma ParticipantFrame(w: World, w': World, p: Ppt, s: A.State)
    requires ParticipantOk(w, p, s) && NothingNewCast(w, w', p)
    ensures ParticipantOk(w', p, s)
  {
    forall t | t in s.logBuf || t in s.oldLog
      ensures t in w'.begun && Cast(w', t, p, COMMIT)
    {
      assert Cast(w, t, p, COMMIT);
    }
  }

  // ---- delivering INIT ----

  ghost predicate VoteAdded(w: World, w': World, v: VoteMsg) {
    && w'.tms == w.tms && w'.begun == w.begun && w'.decisions == w.decisions && w'.replies == w.replies
    && w'.ppts.Keys == w.ppts.Keys && w'.votes == w.votes + {v}
    && forall u :: u in w.votes ==> u.tran != v.tran || u.ppt != v.ppt
  }

  lemma InitVoteAdded(w: World, p: Ppt, i: Init)
    requires InitsOk(w) && Enabled(w, DeliverInit(p, i))
    ensures var (s, vote) := A.InitTrans(w.ppts[p], i.tran, i.flightID, i.amount);
            VoteAdded(w, Next(w, DeliverInit(p, i)), VoteMsg(i.tm, i.tran, p, vote))
  {
  }

  lemma InitVotes(w: World, w': World, v: VoteMsg)
    requires VotesOk(w) && VoteAdded(w, w', v) && VoteOk(w, v)
    ensures VotesOk(w')
  {
    forall u | u in w'.votes
      ensures VoteOk(w', u)
    {
      assert u == v || VoteOk(w, u);
    }
  }

  /** The delivered INIT is gone, so the participant gets no second one. */
  lemma InitInits(w: World, w': World, p: Ppt, i: Init, v: VoteMsg)
    requires InitsOk(w) && VoteAdded(w, w', v) && (p, i) in w.inits && w'.inits == w.inits - {(p, i)}
    requires v.tran == i.tran && v.ppt == p
    ensures InitsOk(w')
  {
    forall j | j in w'.inits
      ensures InitOk(w', j.0, j.1)
    {
      assert InitOk(w, j.0, j.1);
      assert j.0 == p && j.1.tran == i.tran ==> j == (p, i);
    }
  }

  lemma InitParticipants(w: World, p: Ppt, i: Init)
    requires InitsOk(w) && ParticipantsOk(w) && Enabled(w, DeliverInit(p, i))
    ensures ParticipantsOk(Next(w, DeliverInit(p, i)))
  {
    var w' := Next(w, DeliverInit(p, i));
    forall q | q in w'.ppts
      ensures ParticipantOk(w', q, w'.ppts[q])
    {
      assert ParticipantOk(w, q, w.ppts[q]);
      if q == p {
        InitParticipant(w, p, i);
      } else {
        OtherParticipant(w, p, i, q);
      }
    }
  }

  lemma OtherParticipant(w: World, p: Ppt, i: Init, q: Ppt)
    requires Enabled(w, DeliverInit(p, i)) && q in w.ppts && q != p && ParticipantOk(w, q, w.ppts[q])
    ensures var w' := Next(w, DeliverInit(p, i)); ParticipantOk(w', q, w'.ppts[q])
  {
    ParticipantFrame(w, Next(w, DeliverInit(p, i)), q, w.ppts[q]);
  }

  /** The participant that votes had not voted, so the transaction is in none of its logs. */
  lemma InitParticipant(w: World, p: Ppt, i: Init)
    requires InitsOk(w) && Enabled(w, DeliverInit(p, i)) && ParticipantOk(w, p, w.ppts[p])
    ensures var w' := Next(w, DeliverInit(p, i)); ParticipantOk(w', p, w'.ppts[p])
  {
    var s := w.ppts[p];
    assert InitOk(w, p, i);
    var (s', vote) := A.InitTrans(s, i.tran, i.flightID, i.amount);
  }

  /** One more vote, of a participant that had not voted, does not disturb other facts. */
  lemma InitInv(w: World, p: Ppt, i: Init)
    requires Inv(w) && Enabled(w, DeliverInit(p, i))
    ensures Inv(Next(w, DeliverInit(p, i)))
  {
    var w' := Next(w, DeliverInit(p, i));
    var v := VoteMsg(i.tm, i.tran, p, A.InitTrans(w.ppts[p], i.tran, i.flightID, i.amount).1);
    assert InitOk(w, p, i);
    InitVoteAdded(w, p, i);
    InitVotes(w, w', v);
    InitInits(w, w', p, i, v);
    InitParticipants(w, p, i);
    InitTransactions(w, w', v);
    SameAgencies(w, w');
  }

  lemma SameAgencies(w: World, w': World)
    requires AgenciesOk(w) && DecisionsOk(w)
    requires w'.tms == w.tms && w'.begun == w.begun && w'.decisions == w.decisions && w'.replies == w.replies
    ensures AgenciesOk(w') && DecisionsOk(w')
  {
  }

  lemma InitTransactions(w: World, w': World, v: VoteMsg)
    requires (forall t :: t in w.begun ==> TransactionOk(w, t)) && VoteAdded(w, w', v)
    ensures forall t :: t in w'.begun ==> TransactionOk(w', t)
  {
    forall t | t in w'.begun
      ensures TransactionOk(w', t)
    {
      assert TransactionOk(w, t);
    }
  }

  // ---- delivering a vote ----

  /** What a reply to the client changes. */
  lemma ReplyShape(w: World, tm: string, tran: TranId, reply: Option<bool>)
    ensures var w' := Reply(w, tm, tran, reply);
            && w' == w.(replies := w'.replies, down := w'.down)
            && w'.replies == (if reply.None? || Answered(w, tran) then w.replies else w.replies + {(tran, reply.value)})
  {
  }

  /** What a vote changes. */
  lemma VoteWorld(w: World, v: VoteMsg)
    requires Enabled(w, DeliverVote(v))
    ensures var (s, o) := T.ResponseTrans(w.tms[v.tm], v.tran, v.ppt, v.vote); var w' := Next(w, DeliverVote(v));
            && w' == w.(tms := w.tms[v.tm := s], decisions := w.decisions + o.sent, replies := w'.replies,
                        down := w'.down)
            && w'.replies == (if o.reply.None? || Answered(w, v.tran) then w.replies
                              else w.replies + {(v.tran, o.reply.value)})
  {
    var (s, o) := T.ResponseTrans(w.tms[v.tm], v.tran, v.ppt, v.vote);
    ReplyShape(w.(tms := w.tms[v.tm := s], decisions := w.decisions + o.sent), v.tm, v.tran, o.reply);
  }

  /** The other transactions, and what is said about them, stay as they are. */
  lemma VoteShape(w: World, v: VoteMsg, t: TranId)
    requires Enabled(w, DeliverVote(v)) && t != v.tran
    ensures NothingNewSaid(w, Next(w, DeliverVote(v)), t)
    ensures var s, s' := w.tms[v.tm], Next(w, DeliverVote(v)).tms[v.tm];
            && (t in s'.active <==> t in s.active) && (t in s.active ==> s'.active[t] == s.active[t])
            && (t in s'.oldLog <==> t in s.oldLog) && (t in s.oldLog ==> s'.oldLog[t] == s.oldLog[t])
  {
    VoteWorld(w, v);
  }

  /** A counted vote that is not the last one. */
  lemma EarlyVote(w: World, v: VoteMsg)
    requires Enabled(w, DeliverVote(v)) && v.tran in w.tms[v.tm].active
    requires VoteOk(w, v) && TransactionOk(w, v.tran)
    requires v.tran in T.ResponseTrans(w.tms[v.tm], v.tran, v.ppt, v.vote).0.active
    ensures TransactionOk(Next(w, DeliverVote(v)), v.tran)
  {
    var t := v.tran;
    var s := w.tms[v.tm];
    var a := s.active[t];
    var w' := w.(tms := w.tms[v.tm := T.ResponseTrans(s, t, v.ppt, v.vote).0]);
    assert w' == Next(w, DeliverVote(v));
    if v.ppt in a.commitGrp && a.commitGrp[v.ppt] == NOT_DECIDED {
      StillWaiting(w, w', v, a);
    } else {
      TransactionFrame(w, w', t);
    }
  }

  lemma StillWaiting(w: World, w': World, v: VoteMsg, a: T.Active)
    requires VoteOk(w, v) && v in w.votes && Waiting(w, v.tran, a)
    requires v.ppt in a.commitGrp && a.commitGrp[v.ppt] == NOT_DECIDED
    requires T.Count(a, v.ppt, v.vote).finished < |T.Count(a, v.ppt, v.vote).commitGrp|
    requires w'.votes == w.votes && w'.decisions == w.decisions && w'.replies == w.replies && w'.begun == w.begun
    ensures Waiting(w', v.tran, T.Count(a, v.ppt, v.vote))
  {
    T.CountKeepsTally(a, v.ppt, v.vote);
    var b := T.Count(a, v.ppt, v.vote);
    forall p | p in b.commitGrp && b.commitGrp[p] != NOT_DECIDED
      ensures Cast(w', v.tran, p, b.commitGrp[p])
    {
      if p != v.ppt {
        assert Cast(w, v.tran, p, a.commitGrp[p]);
      }
    }
  }

  /** The last vote: the outcome is sent, and it is COMMIT exactly if all voted so. */
  lemma LastVote(w: World, v: VoteMsg)
    requires VotesOk(w) && VoteOk(w, v) && TransactionOk(w, v.tran)
    requires Enabled(w, DeliverVote(v)) && v.tran in w.tms[v.tm].active
    requires v.tran !in T.ResponseTrans(w.tms[v.tm], v.tran, v.ppt, v.vote).0.active
    ensures TransactionOk(Next(w, DeliverVote(v)), v.tran)
  {
    var t := v.tran;
    var s := w.tms[v.tm];
    var b := T.Count(s.active[t], v.ppt, v.vote);
    var w' := Next(w, DeliverVote(v));
    VoteWorld(w, v);
    TallyComplete(w, v);
    OutcomeOfVotes(w, t, b.commitGrp, b.decision);
    OutcomeSent(w, w', t, b.commitGrp, b.decision, s.active[t].decision);
  }

  lemma TallyComplete(w: World, v: VoteMsg)
    requires VoteOk(w, v) && v in w.votes && v.tm in w.tms && v.tran in w.tms[v.tm].active
    requires Waiting(w, v.tran, w.tms[v.tm].active[v.tran])
    requires var a := w.tms[v.tm].active[v.tran];
             v.ppt in a.commitGrp && a.commitGrp[v.ppt] == NOT_DECIDED &&
             T.Count(a, v.ppt, v.vote).finished >= |T.Count(a, v.ppt, v.vote).commitGrp|
    ensures var a := w.tms[v.tm].active[v.tran];
            var b := T.Count(a, v.ppt, v.vote);
            && b.decision == T.Outcome(b.commitGrp) && (a.decision == ABORT ==> b.decision == ABORT)
            && b.commitGrp.Keys == w.begun[v.tran].ppts
            && forall p :: p in b.commitGrp ==> b.commitGrp[p] != NOT_DECIDED && Cast(w, v.tran, p, b.commitGrp[p])
  {
    var a := w.tms[v.tm].active[v.tran];
    var b := T.Count(a, v.ppt, v.vote);
    T.CountKeepsTally(a, v.ppt, v.vote);
    forall p | p in b.commitGrp
      ensures Cast(w, v.tran, p, b.commitGrp[p])
    {
      if p != v.ppt {
        assert Cast(w, v.tran, p, a.commitGrp[p]);
      }
    }
  }

  /** Sending the outcome to everyone who voted to commit completes the transaction. */
  lemma OutcomeSent(w: World, w': World, t: TranId, group: map<Ppt, Vote>, d: Vote, before: Vote)
    requires t in w.begun && w'.begun == w.begun && w'.votes == w.votes && group.Keys == w.begun[t].ppts
    requires w'.decisions == w.decisions + T.Tell(t, group, d)
    requires w'.replies == if Answered(w, t) then w.replies else w.replies + {(t, d == COMMIT)}
    requires AllSay(w, t, ABORT) && (before == ABORT ==> d == ABORT)
    requires before != ABORT ==> forall m :: m in w.decisions ==> m.tran != t
    requires before != ABORT ==> forall r :: r in w.replies ==> r.0 != t
    requires d == T.Outcome(group)
    requires d == COMMIT <==> forall p :: p in w.begun[t].ppts ==> Cast(w, t, p, COMMIT)
    requires forall p :: p in w.begun[t].ppts ==> Cast(w, t, p, COMMIT) || Cast(w, t, p, ABORT)
    requires forall p :: p in w.begun[t].ppts && Cast(w, t, p, COMMIT) ==> group[p] == COMMIT
    ensures Finished(w', t, d)
  {
    assert Answered(w, t) ==> before == ABORT && (t, false) in w.replies;
    assert AllSay(w', t, d);
    assert forall p, u :: Cast(w', t, p, u) == Cast(w, t, p, u);
  }

  lemma OutcomeOfVotes(w: World, t: TranId, group: map<Ppt, Vote>, d: Vote)
    requires VotesOk(w) && t in w.begun && group.Keys == w.begun[t].ppts && d == T.Outcome(group)
    requires forall p :: p in group ==> group[p] != NOT_DECIDED && Cast(w, t, p, group[p])
    ensures d == COMMIT <==> forall p :: p in w.begun[t].ppts ==> Cast(w, t, p, COMMIT)
    ensures forall p :: p in w.begun[t].ppts ==> Cast(w, t, p, COMMIT) || Cast(w, t, p, ABORT)
    ensures forall p :: p in w.begun[t].ppts && Cast(w, t, p, COMMIT) ==> group[p] == COMMIT
  {
    forall p | p in w.begun[t].ppts
      ensures Cast(w, t, p, COMMIT) <==> group[p] == COMMIT
      ensures Cast(w, t, p, ABORT) <==> group[p] == ABORT
    {
    }
  }

  lemma VoteOther(w: World, v: VoteMsg, t: TranId)
    requires Enabled(w, DeliverVote(v)) && t in w.begun && t != v.tran && TransactionOk(w, t)
    ensures t in Next(w, DeliverVote(v)).begun && TransactionOk(Next(w, DeliverVote(v)), t)
  {
    VoteShape(w, v, t);
    VoteWorld(w, v);
    TransactionFrame(w, Next(w, DeliverVote(v)), t);
  }

  lemma VoteTransaction(w: World, v: VoteMsg)
    requires VotesOk(w) && VoteOk(w, v) && TransactionOk(w, v.tran) && Enabled(w, DeliverVote(v))
    ensures v.tran in Next(w, DeliverVote(v)).begun && TransactionOk(Next(w, DeliverVote(v)), v.tran)
  {
    VoteWorld(w, v);
    if v.tran !in w.tms[v.tm].active {
    } else if v.tran in T.ResponseTrans(w.tms[v.tm], v.tran, v.ppt, v.vote).0.active {
      EarlyVote(w, v);
    } else {
      LastVote(w, v);
    }
  }

  lemma VoteTransactions(w: World, v: VoteMsg)
    requires VotesOk(w) && Enabled(w, DeliverVote(v)) && forall t :: t in w.begun ==> TransactionOk(w, t)
    ensures var w' := Next(w, DeliverVote(v)); forall t :: t in w'.begun ==> TransactionOk(w', t)
  {
    var w' := Next(w, DeliverVote(v));
    VoteWorld(w, v);
    assert VoteOk(w, v);
    forall t | t in w'.begun
      ensures TransactionOk(w', t)
    {
      if t != v.tran {
        VoteOther(w, v, t);
      } else {
        VoteTransaction(w, v);
      }
    }
  }

  lemma VoteRest(w: World, v: VoteMsg)
    requires AgenciesOk(w) && InitsOk(w) && VotesOk(w) && DecisionsOk(w) && ParticipantsOk(w)
    requires Enabled(w, DeliverVote(v))
    ensures var w' := Next(w, DeliverVote(v));
            AgenciesOk(w') && InitsOk(w') && VotesOk(w') && DecisionsOk(w') && ParticipantsOk(w')
  {
    var w' := Next(w, DeliverVote(v));
    assert VoteOk(w, v);
    VoteWorld(w, v);
    VoteAgencies(w, v);
    SamePeople(w, w');
  }

  lemma VoteAgencies(w: World, v: VoteMsg)
    requires AgenciesOk(w) && DecisionsOk(w) && Enabled(w, DeliverVote(v))
    requires v.tran in w.begun && v.tm == w.begun[v.tran].tm
    ensures AgenciesOk(Next(w, DeliverVote(v))) && DecisionsOk(Next(w, DeliverVote(v)))
  {
    VoteWorld(w, v);
  }

  // ---- the other steps ----

  /** The transactions and messages stay when only participants change. */
  lemma SameTransactions(w: World, w': World)
    requires forall t :: t in w.begun ==> TransactionOk(w, t)
    requires AgenciesOk(w) && InitsOk(w) && VotesOk(w) && DecisionsOk(w)
    requires w' == w.(ppts := w'.ppts, down := w'.down) && w'.ppts.Keys == w.ppts.Keys
    ensures (forall t :: t in w'.begun ==> TransactionOk(w', t))
    ensures AgenciesOk(w') && InitsOk(w') && VotesOk(w') && DecisionsOk(w')
  {
    forall t | t in w'.begun
      ensures TransactionOk(w', t)
    {
      assert TransactionOk(w, t);
      TransactionFrame(w, w', t);
    }
    SameAgencies(w, w');
  }

  lemma DecisionInv(w: World, d: Decision)
    requires Inv(w) && Enabled(w, DeliverDecision(d))
    ensures Inv(Next(w, DeliverDecision(d)))
  {
    SameTransactions(w, Next(w, DeliverDecision(d)));
    DecisionPeople(w, d);
  }

  lemma DecisionPeople(w: World, d: Decision)
    requires ParticipantsOk(w) && Enabled(w, DeliverDecision(d))
    ensures ParticipantsOk(Next(w, DeliverDecision(d)))
  {
    var w' := Next(w, DeliverDecision(d));
    forall p | p in w'.ppts
      ensures ParticipantOk(w', p, w'.ppts[p])
    {
      assert ParticipantOk(w, p, w.ppts[p]);
      ParticipantFrame(w, w', p, w.ppts[p]);
      if p == d.ppt {
        Told(w', d, w.ppts[p]);
      }
    }
  }

  /** A prepared participant that is told the outcome moves the transaction to its old log. */
  lemma Told(w: World, d: Decision, s: A.State)
    requires ParticipantOk(w, d.ppt, s) && d in w.decisions
    ensures ParticipantOk(w, d.ppt, A.ResponseTrans(s, d.tran, d.outcome))
  {
  }

  lemma CreateInv(w: World, p: Ppt, f: FlightId, slot: int)
    requires Inv(w) && Enabled(w, Create(p, f, slot))
    ensures Inv(Next(w, Create(p, f, slot)))
  {
    SameTransactions(w, Next(w, Create(p, f, slot)));
    CreatePeople(w, p, f, slot);
  }

  lemma CreatePeople(w: World, p: Ppt, f: FlightId, slot: int)
    requires ParticipantsOk(w) && Enabled(w, Create(p, f, slot))
    ensures ParticipantsOk(Next(w, Create(p, f, slot)))
  {
    var w' := Next(w, Create(p, f, slot));
    forall q | q in w'.ppts
      ensures ParticipantOk(w', q, w'.ppts[q])
    {
      assert ParticipantOk(w, q, w.ppts[q]);
      ParticipantFrame(w, w', q, w.ppts[q]);
    }
  }

  /** What an expiry changes. */
  lemma ExpireWorld(w: World, tm: string, tran: TranId)
    requires Enabled(w, Expire(tm, tran))
    ensures var o := T.ExpireTrans(w.tms[tm], tran); var w' := Next(w, Expire(tm, tran));
            && w' == w.(decisions := w.decisions + o.sent, replies := w'.replies, timedOut := w.timedOut + {tran},
                        early := w'.early, down := w'.down)
            && w'.replies == (if o.reply.None? || Answered(w, tran) then w.replies
                              else w.replies + {(tran, o.reply.value)})
  {
    var o := T.ExpireTrans(w.tms[tm], tran);
    ReplyShape(w.(decisions := w.decisions + o.sent, timedOut := w.timedOut + {tran},
                  early := if tran in w.tms[tm].active then w.early + {tran} else w.early), tm, tran, o.reply);
  }

  /** An expiry repeats the ABORT the transaction is bound to end with. */
  lemma ExpireInv(w: World, tm: string, tran: TranId)
    requires Inv(w) && Enabled(w, Expire(tm, tran)) && Orderly(w, Expire(tm, tran))
    ensures Inv(Next(w, Expire(tm, tran)))
  {
    ExpireTransactions(w, tm, tran);
    ExpireRest(w, tm, tran);
  }

  lemma ExpireRest(w: World, tm: string, tran: TranId)
    requires AgenciesOk(w) && InitsOk(w) && VotesOk(w) && DecisionsOk(w) && ParticipantsOk(w)
    requires Enabled(w, Expire(tm, tran))
    ensures var w' := Next(w, Expire(tm, tran));
            AgenciesOk(w') && InitsOk(w') && VotesOk(w') && DecisionsOk(w') && ParticipantsOk(w')
  {
    ExpireWorld(w, tm, tran);
    SamePeople(w, Next(w, Expire(tm, tran)));
  }

  lemma ExpireTransactions(w: World, tm: string, tran: TranId)
    requires (forall t :: t in w.begun ==> TransactionOk(w, t))
    requires Enabled(w, Expire(tm, tran)) && Orderly(w, Expire(tm, tran))
    ensures var w' := Next(w, Expire(tm, tran)); forall t :: t in w'.begun ==> TransactionOk(w', t)
  {
    var w' := Next(w, Expire(tm, tran));
    ExpireWorld(w, tm, tran);
    forall t | t in w'.begun
      ensures TransactionOk(w', t)
    {
      assert TransactionOk(w, t);
      if t == tran && t in w.tms[tm].active {
      } else {
        ExpireOther(w, tm, tran, t);
      }
    }
  }

  lemma ExpireOther(w: World, tm: string, tran: TranId, t: TranId)
    requires Enabled(w, Expire(tm, tran)) && t in w.begun && TransactionOk(w, t)
    requires t == tran ==> t !in w.tms[tm].active
    ensures t in Next(w, Expire(tm, tran)).begun && TransactionOk(Next(w, Expire(tm, tran)), t)
  {
    ExpireWorld(w, tm, tran);
    TransactionFrame(w, Next(w, Expire(tm, tran)), t);
  }

  lemma OnlyDown(w: World, w': World)
    requires Inv(w) && w' == w.(down := w'.down)
    ensures Inv(w')
  {
    SameTransactions(w, w');
    SamePeople(w, w');
  }

  lemma NextInv(w: World, e: Event)
    requires Inv(w) && Enabled(w, e) && Orderly(w, e)
    ensures Inv(Next(w, e))
  {
    match e
    case Book(tm, tran, orders) =>
      if orders != [] {
        BookInv(w, tm, tran, orders);
      } else {
        OnlyDown(w, Next(w, e));
      }
    case DeliverInit(p, i) => InitInv(w, p, i);
    case DeliverVote(v) =>
      VoteTransactions(w, v);
      VoteRest(w, v);
    case DeliverDecision(d) => DecisionInv(w, d);
    case Expire(tm, tran) => ExpireInv(w, tm, tran);
    case Create(p, f, slot) => CreateInv(w, p, f, slot);
  }
}
