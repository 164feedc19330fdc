/** Agencies and airlines joined by a network. */
module BookingSystem {
  import opened Options
  import opened Transactions
  import T = TranLayer
  import A = AirlineParticipant

  /** A vote on its way to the agency that runs the transaction. */
  datatype VoteMsg = VoteMsg(tm: string, tran: TranId, ppt: Ppt, vote: Vote)

  /** Who runs a transaction, and with which participants. */
  datatype Begun = Begun(tm: string, ppts: set<Ppt>, orders: seq<Order>)

  /** INIT messages leave `inits` when they are delivered; votes and decisions may arrive any number
      of times. `replies` collects what the waiting clients have heard, `timedOut` the transactions
      whose one timer request has been handled, `early` those that still waited for votes then. An
      agency in `down` handles nothing any more. */
  datatype World = World(tms: map<string, T.State>, ppts: map<Ppt, A.State>,
                         inits: set<(Ppt, Init)>, votes: set<VoteMsg>, decisions: set<Decision>,
                         replies: set<(TranId, bool)>, begun: map<TranId, Begun>,
                         timedOut: set<TranId>, early: set<TranId>, down: set<string>)

  datatype Event =
    | Book(tm: string, tran: TranId, orders: seq<Order>)
    | DeliverInit(ppt: Ppt, init: Init)
    | DeliverVote(v: VoteMsg)
    | DeliverDecision(d: Decision)
    | Expire(tm: string, tran: TranId)
    | Create(ppt: Ppt, flight: FlightId, slot: int)

  function Start(tms: set<string>, ppts: set<Ppt>): World {
    World(map m | m in tms :: T.State(map[], map[]), map p | p in ppts :: A.START, {}, {}, {}, {}, map[], {}, {}, {})
  }

  /** A booking has a transaction id never used before and known airlines; each transaction has one
      timer. */
  predicate Enabled(w: World, e: Event) {
    match e
    case Book(tm, tran, orders) =>
      tm in w.tms && tm !in w.down && tran !in w.begun && T.Participants(orders) <= w.ppts.Keys
    case DeliverInit(p, i) => (p, i) in w.inits && p in w.ppts
    case DeliverVote(v) => v in w.votes && v.tm in w.tms && v.tm !in w.down
    case DeliverDecision(d) => d in w.decisions && d.ppt in w.ppts
    case Expire(tm, tran) =>
      tm in w.tms && tm !in w.down && tran in w.begun && w.begun[tran].tm == tm && tran !in w.timedOut
    case Create(p, f, slot) => p in w.ppts
  }

  predicate Answered(w: World, t: TranId) {
    (t, true) in w.replies || (t, false) in w.replies
  }

  /** The client takes one answer and leaves; sending another one blocks the agency for good. */
  function Reply(w: World, tm: string, tran: TranId, reply: Option<bool>): World {
    if reply.None? then w
    else if Answered(w, tran) then w.(down := w.down + {tm})
    else w.(replies := w.replies + {(tran, reply.value)})
  }

  /** A booking without orders makes the agency panic. */
  function Next(w: World, e: Event): World
    requires Enabled(w, e)
  {
    match e
    case Book(tm, tran, orders) =>
      if orders == [] then w.(down := w.down + {tm})
      else
        w.(tms := w.tms[tm := T.InitTrans(w.tms[tm], tran, orders)],
           inits := w.inits + (set m | m in T.InitMsgs(tran, orders, tm)),
           begun := w.begun[tran := Begun(tm, T.Participants(orders), orders)])
    case DeliverInit(p, i) =>
      var (s, vote) := A.InitTrans(w.ppts[p], i.tran, i.flightID, i.amount);
      w.(ppts := w.ppts[p := s], inits := w.inits - {(p, i)},
         votes := w.votes + {VoteMsg(i.tm, i.tran, p, vote)})
    case DeliverVote(v) =>
      var (s, o) := T.ResponseTrans(w.tms[v.tm], v.tran, v.ppt, v.vote);
      Reply(w.(tms := w.tms[v.tm := s], decisions := w.decisions + o.sent), v.tm, v.tran, o.reply)
    case DeliverDecision(d) =>
      w.(ppts := w.ppts[d.ppt := A.ResponseTrans(w.ppts[d.ppt], d.tran, d.outcome)])
    case Expire(tm, tran) =>
      var o := T.ExpireTrans(w.tms[tm], tran);
      Reply(w.(decisions := w.decisions + o.sent, timedOut := w.timedOut + {tran},
               early := if tran in w.tms[tm].active then w.early + {tran} else w.early),
            tm, tran, o.reply)
    case Create(p, f, slot) =>
      w.(ppts := w.ppts[p := A.CreateFlight(w.ppts[p], f, slot).0])
  }

  /** The two assumptions: one order per airline, and an expiry is handled only for a transaction
      that is finished or already bound to abort. */
  ghost predicate Orderly(w: World, e: Event)
    requires Enabled(w, e)
  {
    match e
    case Book(tm, tran, orders) => DistinctParticipants(orders)
    case Expire(tm, tran) => tran in w.tms[tm].active ==> w.tms[tm].active[tran].decision == ABORT
    case _ => true
  }

  /** The worlds of a run, one before each event and one at the end. */
  ghost predicate Run(tms: set<string>, ppts: set<Ppt>, ws: seq<World>, es: seq<Event>) {
    && |ws| == |es| + 1 && ws[0] == Start(tms, ppts)
    && forall m :: 0 <= m < |es| ==> StepOk(ws, es, m)
  }

  ghost predicate StepOk(ws: seq<World>, es: seq<Event>, m: nat)
    requires |ws| == |es| + 1 && m < |es|
  {
    Enabled(ws[m], es[m]) && ws[m + 1] == Next(ws[m], es[m])
  }

  ghost predicate OrderlyRun(ws: seq<World>, es: seq<Event>)
    requires |ws| == |es| + 1
  {
    forall m :: 0 <= m < |es| ==> OrderlyAt(ws, es, m)
  }

  ghost predicate OrderlyAt(ws: seq<World>, es: seq<Event>, m: nat)
    requires |ws| == |es| + 1 && m < |es|
  {
    Enabled(ws[m], es[m]) ==> Orderly(ws[m], es[m])
  }

  lemma StepAt(tms: set<string>, ppts: set<Ppt>, ws: seq<World>, es: seq<Event>, m: nat)
    requires Run(tms, ppts, ws, es) && m < |es|
    ensures Enabled(ws[m], es[m]) && ws[m + 1] == Next(ws[m], es[m])
  {
    assert StepOk(ws, es, m);
  }
}
