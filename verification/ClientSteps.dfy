/** Every step keeps the account of what clients have heard. A transaction is either active or logged; its
    client has heard something exactly if it expired while it was active or has been logged; and an
    agency stops with the second answer to a client, or with a booking without orders. */
module ClientSteps {
  import opened Transactions
  import opened BookingSystem
  import opened BookingSteps
  import T = TranLayer

  /** The agency has logged an outcome. */
  predicate Ended(w: World, t: TranId) {
    t in w.begun && w.begun[t].tm in w.tms && t in w.tms[w.begun[t].tm].oldLog
  }

  ghost predicate RegisteredOk(w: World, t: TranId)
    requires t in w.begun
  {
    var m := w.begun[t].tm;
    m in w.tms && (t in w.tms[m].active <==> t !in w.tms[m].oldLog)
  }

  /** Messages name transactions that exist, and their agencies. */
  ghost predicate Named(w: World) {
    && (forall v :: v in w.votes ==> v.tran in w.begun && v.tm == w.begun[v.tran].tm)
    && (forall i :: i in w.inits ==> i.1.tran in w.begun && i.1.tm == w.begun[i.1.tran].tm)
  }

  /** The client has heard something exactly if an expiry came early or the transaction has ended,
      and never two different things. */
  ghost predicate AnswerOk(w: World, t: TranId)
    requires t in w.begun
  {
    && (Answered(w, t) <==> t in w.early || Ended(w, t))
    && !((t, true) in w.replies && (t, false) in w.replies)
  }

  ghost predicate Registered(w: World) {
    && (forall t :: t in w.begun ==> RegisteredOk(w, t))
    && AgenciesOk(w) && DecisionsOk(w) && Named(w)
    && w.early <= w.timedOut <= w.begun.Keys
  }

  ghost predicate AnswersOk(w: World) {
    Registered(w) && forall t :: t in w.begun ==> AnswerOk(w, t)
  }

  /** A transaction of this agency that expired while it waited for votes has ended since. */
  ghost predicate EarlyEnded(w: World, tm: string, t: TranId) {
    t in w.early && Ended(w, t) && w.begun[t].tm == tm
  }

  ghost predicate BlockedBy(w: World, tm: string) {
    exists t :: EarlyEnded(w, tm, t)
  }

  // ---- votes ----

  lemma VoteRegistered(w: World, v: VoteMsg)
    requires Registered(w) && Enabled(w, DeliverVote(v))
    ensures Registered(Next(w, DeliverVote(v)))
  {
    var w' := Next(w, DeliverVote(v));
    VoteWorld(w, v);
    VoteAgencies(w, v);
    forall t | t in w'.begun
      ensures RegisteredOk(w', t)
    {
      assert RegisteredOk(w, t);
      VoteMoves(w, v, t);
    }
  }

  /** A vote ends at most its own transaction. */
  lemma VoteMoves(w: World, v: VoteMsg, t: TranId)
    requires Enabled(w, DeliverVote(v)) && t in w.begun && RegisteredOk(w, t)
    requires v.tran in w.begun && v.tm == w.begun[v.tran].tm
    ensures RegisteredOk(Next(w, DeliverVote(v)), t)
    ensures Ended(Next(w, DeliverVote(v)), t) <==> Ended(w, t) || (t == v.tran && Ends(w, v))
  {
    VoteWorld(w, v);
  }

  predicate Ends(w: World, v: VoteMsg)
    requires v.tm in w.tms
  {
    v.tran in w.tms[v.tm].active && v.tran !in T.ResponseTrans(w.tms[v.tm], v.tran, v.ppt, v.vote).0.active
  }

  lemma VoteAnswer(w: World, v: VoteMsg, t: TranId)
    requires AnswersOk(w) && Enabled(w, DeliverVote(v)) && t in w.begun
    ensures t in Next(w, DeliverVote(v)).begun && AnswerOk(Next(w, DeliverVote(v)), t)
  {
    assert RegisteredOk(w, t) && AnswerOk(w, t);
    VoteWorld(w, v);
    VoteMoves(w, v, t);
  }

  lemma VoteDown(w: World, v: VoteMsg)
    requires Enabled(w, DeliverVote(v))
    ensures Next(w, DeliverVote(v)).down == if Ends(w, v) && Answered(w, v.tran) then w.down + {v.tm} else w.down
  {
  }

  lemma VoteBlocks(w: World, v: VoteMsg, tm: string, crashed: bool)
    requires AnswersOk(w) && Enabled(w, DeliverVote(v)) && (tm in w.down <==> crashed || BlockedBy(w, tm))
    ensures var w' := Next(w, DeliverVote(v)); tm in w'.down <==> crashed || BlockedBy(w', tm)
  {
    var w' := Next(w, DeliverVote(v));
    VoteWorld(w, v);
    VoteDown(w, v);
    assert RegisteredOk(w, v.tran) && AnswerOk(w, v.tran);
    forall t | t in w.begun
      ensures EarlyEnded(w', tm, t) <==>
              EarlyEnded(w, tm, t) || (t == v.tran && t in w.early && Ends(w, v) && tm == v.tm)
    {
      assert RegisteredOk(w, t);
      VoteMoves(w, v, t);
    }
    if Ends(w, v) && Answered(w, v.tran) && tm == v.tm {
      assert EarlyEnded(w', tm, v.tran);
    }
    if t :| EarlyEnded(w, tm, t) {
      assert EarlyEnded(w', tm, t);
    }
  }

  // ---- expiries ----

  lemma ExpireRegistered(w: World, tm: string, tran: TranId)
    requires Registered(w) && Enabled(w, Expire(tm, tran))
    ensures Registered(Next(w, Expire(tm, tran)))
  {
    var w' := Next(w, Expire(tm, tran));
    ExpireWorld(w, tm, tran);
    forall t | t in w'.begun
      ensures RegisteredOk(w', t)
    {
      assert RegisteredOk(w, t);
    }
  }

  /** The one expiry of a transaction is its first answer, if there is any. */
  lemma ExpireAnswer(w: World, tm: string, tran: TranId, t: TranId)
    requires AnswersOk(w) && Enabled(w, Expire(tm, tran)) && t in w.begun
    ensures t in Next(w, Expire(tm, tran)).begun && AnswerOk(Next(w, Expire(tm, tran)), t)
    ensures Next(w, Expire(tm, tran)).down == w.down
  {
    assert RegisteredOk(w, t) && AnswerOk(w, t);
    assert RegisteredOk(w, tran) && AnswerOk(w, tran);
    ExpireWorld(w, tm, tran);
  }

  lemma ExpireBlocks(w: World, tm: string, tran: TranId, m: string)
    requires AnswersOk(w) && Enabled(w, Expire(tm, tran))
    ensures BlockedBy(Next(w, Expire(tm, tran)), m) <==> BlockedBy(w, m)
  {
    var w' := Next(w, Expire(tm, tran));
    ExpireWorld(w, tm, tran);
    assert RegisteredOk(w, tran);
    forall t
      ensures EarlyEnded(w', m, t) <==> EarlyEnded(w, m, t)
    {
    }
  }

  // ---- the other events ----

  lemma BookRegistered(w: World, tm: string, tran: TranId, orders: seq<Order>)
    requires Registered(w) && Enabled(w, Book(tm, tran, orders)) && orders != []
    ensures Registered(Next(w, Book(tm, tran, orders)))
  {
    var w' := Next(w, Book(tm, tran, orders));
    BookAgencies(w, tm, tran, orders);
    assert tran !in w.tms[tm].oldLog;
    forall t | t in w'.begun
      ensures RegisteredOk(w', t)
    {
      if t != tran {
        assert RegisteredOk(w, t);
      }
    }
    BookNamed(w, tm, tran, orders);
  }

  lemma BookNamed(w: World, tm: string, tran: TranId, orders: seq<Order>)
    requires Named(w) && Enabled(w, Book(tm, tran, orders)) && orders != []
    ensures Named(Next(w, Book(tm, tran, orders)))
  {
    InitMsgsAre(tran, orders, tm);
    forall i | i in T.InitMsgs(tran, orders, tm)
      ensures i.1.tran == tran && i.1.tm == tm
    {
      var k :| 0 <= k < |orders| && T.InitMsgs(tran, orders, tm)[k] == i;
      assert i == T.InitMsg(tran, orders[k], tm);
    }
  }

  lemma BookAnswer(w: World, tm: string, tran: TranId, orders: seq<Order>, t: TranId)
    requires AnswersOk(w) && Enabled(w, Book(tm, tran, orders)) && orders != []
    requires t in Next(w, Book(tm, tran, orders)).begun
    ensures AnswerOk(Next(w, Book(tm, tran, orders)), t)
  {
    if t != tran {
      assert RegisteredOk(w, t) && AnswerOk(w, t);
    } else {
      assert tran !in w.tms[tm].oldLog;
    }
  }

  lemma BookBlocks(w: World, tm: string, tran: TranId, orders: seq<Order>, m: string)
    requires AnswersOk(w) && Enabled(w, Book(tm, tran, orders)) && orders != []
    ensures BlockedBy(Next(w, Book(tm, tran, orders)), m) <==> BlockedBy(w, m)
  {
    var w' := Next(w, Book(tm, tran, orders));
    forall t
      ensures EarlyEnded(w', m, t) <==> EarlyEnded(w, m, t)
    {
    }
  }

  /** Events at the airlines do not touch the agencies. */
  lemma AirlineEvent(w: World, w': World)
    requires AnswersOk(w)
    requires w' == w.(ppts := w'.ppts, inits := w'.inits, votes := w'.votes, down := w'.down)
    requires w'.inits <= w.inits
    requires forall v :: v in w'.votes ==> v in w.votes || (v.tran in w.begun && v.tm == w.begun[v.tran].tm)
    ensures AnswersOk(w') && forall m :: BlockedBy(w', m) <==> BlockedBy(w, m)
  {
    forall t | t in w'.begun
      ensures RegisteredOk(w', t) && AnswerOk(w', t)
    {
      assert RegisteredOk(w, t) && AnswerOk(w, t);
    }
    forall m, t
      ensures EarlyEnded(w', m, t) <==> EarlyEnded(w, m, t)
    {
    }
  }

  predicate IsEmptyBooking(e: Event, tm: string) {
    e.Book? && e.tm == tm && e.orders == []
  }

  lemma NextAnswers(w: World, e: Event)
    requires AnswersOk(w) && Enabled(w, e)
    ensures AnswersOk(Next(w, e))
  {
    var w' := Next(w, e);
    match e
    case Book(tm, tran, orders) =>
      if orders == [] {
        AirlineEvent(w, w');
      } else {
        BookRegistered(w, tm, tran, orders);
        forall t | t in w'.begun ensures AnswerOk(w', t) {
          BookAnswer(w, tm, tran, orders, t);
        }
      }
    case DeliverVote(v) =>
      VoteRegistered(w, v);
      VoteWorld(w, v);
      forall t | t in w'.begun ensures AnswerOk(w', t) {
        VoteAnswer(w, v, t);
      }
    case Expire(tm, tran) =>
      ExpireRegistered(w, tm, tran);
      ExpireWorld(w, tm, tran);
      forall t | t in w'.begun ensures AnswerOk(w', t) {
        ExpireAnswer(w, tm, tran, t);
      }
    case DeliverInit(_, _) => AirlineEvent(w, w');
    case DeliverDecision(_) => AirlineEvent(w, w');
    case Create(_, _, _) => AirlineEvent(w, w');
  }

  lemma NextBlocks(w: World, e: Event, tm: string, crashed: bool)
    requires AnswersOk(w) && Enabled(w, e) && (tm in w.down <==> crashed || BlockedBy(w, tm))
    ensures tm in Next(w, e).down <==> crashed || IsEmptyBooking(e, tm) || BlockedBy(Next(w, e), tm)
  {
    match e
    case Book(m, tran, orders) =>
      if orders == [] {
        AirlineEvent(w, Next(w, e));
      } else {
        BookBlocks(w, m, tran, orders, tm);
      }
    case DeliverVote(v) => VoteBlocks(w, v, tm, crashed);
    case Expire(m, tran) =>
      ExpireAnswer(w, m, tran, tran);
      ExpireBlocks(w, m, tran, tm);
    case DeliverInit(_, _) => AirlineEvent(w, Next(w, e));
    case DeliverDecision(_) => AirlineEvent(w, Next(w, e));
    case Create(_, _, _) => AirlineEvent(w, Next(w, e));
  }

  // ---- runs ----

  lemma {:induction false} RunAnswers(tms: set<string>, ppts: set<Ppt>, ws: seq<World>, es: seq<Event>, n: nat)
    requires Run(tms, ppts, ws, es) && n <= |es|
    ensures AnswersOk(ws[n])
  {
    if n == 0 {
    } else {
      RunAnswers(tms, ppts, ws, es, n - 1);
      StepAt(tms, ppts, ws, es, n - 1);
      NextAnswers(ws[n - 1], es[n - 1]);
    }
  }

  ghost predicate EmptyBooked(es: seq<Event>, n: nat, tm: string)
    requires n <= |es|
  {
    exists m :: 0 <= m < n && IsEmptyBooking(es[m], tm)
  }
}
