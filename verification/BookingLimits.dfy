/** Runs that show why the atomicity of bookings needs both of its assumptions. */
module BookingLimits {
  import opened Transactions
  import opened BookingSystem
  import S = SeatLedger
  import Strings
  import T = TranLayer
  import A = AirlineParticipant

  lemma OneFlight(s: A.State, tran: TranId, f: FlightId, amount: int)
    requires !Strings.Contains(f, ":")
    ensures A.InitTrans(s, tran, f, amount) ==
              if f !in s.slots || s.slots[f] < amount || f in s.locks then (s, ABORT)
              else (s.(locks := s.locks + {f},
                       logBuf := s.logBuf[tran := [A.TransLog(tran, f, s.slots[f], s.slots[f] - amount)]]), COMMIT)
  {
    if f in s.slots && s.slots[f] >= amount && f !in s.locks {
      var logs := [A.TransLog(tran, f, s.slots[f], s.slots[f] - amount)];
      assert [] + logs == logs && [f][1..] == [];
      assert A.Prepare(s.slots, tran, [], amount, A.Progress(s.locks + {f}, logs, true)).logs == logs;
    }
  }

  /** A run goes on with one more event. */
  lemma Then(tms: set<string>, ppts: set<Ppt>, ws: seq<World>, es: seq<Event>, e: Event)
    returns (ws': seq<World>, es': seq<Event>)
    requires Run(tms, ppts, ws, es) && Enabled(ws[|es|], e)
    ensures Run(tms, ppts, ws', es') && ws'[|es'|] == Next(ws[|es|], e)
  {
    ws', es' := ws + [Next(ws[|es|], e)], es + [e];
    forall m | 0 <= m < |es'|
      ensures StepOk(ws', es', m)
    {
      if m < |es| {
        assert StepOk(ws, es, m);
      }
    }
  }

  lemma TwoInits(tran: TranId, o1: Order, o2: Order, tm: string)
    ensures T.InitMsgs(tran, [o1, o2], tm) == [T.InitMsg(tran, o1, tm), T.InitMsg(tran, o2, tm)]
    ensures T.Participants([o1, o2]) == {o1.ppt, o2.ppt}
  {
    assert [o1, o2][1..] == [o2];
    assert [o2][1..] == [];
    assert T.InitMsgs(tran, [o2], tm) == [T.InitMsg(tran, o2, tm)];
    assert [o1, o2][0].ppt in T.Participants([o1, o2]) && [o1, o2][1].ppt in T.Participants([o1, o2]);
  }

  /** After some flights with one slot each were created at p. */
  lemma {:induction false} Flights(tm: string, ppts: set<Ppt>, p: Ppt, flights: seq<FlightId>)
    returns (ws: seq<World>, es: seq<Event>)
    requires p in ppts
    ensures Run({tm}, ppts, ws, es)
    ensures var w := ws[|es|];
            && w.ppts.Keys == ppts && (forall q :: q in ppts && q != p ==> w.ppts[q] == A.START)
            && w == Start({tm}, ppts).(ppts := w.ppts)
            && w.ppts[p] == A.START.(slots := w.ppts[p].slots)
            && w.ppts[p].slots.Keys == (set f | f in flights) && forall f :: f in flights ==> w.ppts[p].slots[f] == 1
    decreases |flights|
  {
    if flights == [] {
      ws, es := [Start({tm}, ppts)], [];
      assert ws[0].ppts[p].slots.Keys == {};
    } else {
      var n := |flights| - 1;
      assert flights == flights[..n] + [flights[n]];
      var ws0, es0 := Flights(tm, ppts, p, flights[..n]);
      ws, es := Then({tm}, ppts, ws0, es0, Create(p, flights[n], 1));
      assert ws[|es|].ppts[p].slots.Keys == (set f | f in flights);
    }
  }

  /** A booking of two orders, each for one seat, has just started. */
  lemma Booked(tm: string, t: TranId, o1: Order, o2: Order, ppts: set<Ppt>, flights: seq<FlightId>)
    returns (ws: seq<World>, es: seq<Event>)
    requires o1.ppt in ppts && o2.ppt in ppts
    ensures Run({tm}, ppts, ws, es)
    ensures var w := ws[|es|];
            && w.ppts.Keys == ppts && (forall q :: q in ppts && q != o1.ppt ==> w.ppts[q] == A.START)
            && w.ppts[o1.ppt] == A.START.(slots := w.ppts[o1.ppt].slots)
            && w.ppts[o1.ppt].slots.Keys == (set f | f in flights)
            && (forall f :: f in flights ==> w.ppts[o1.ppt].slots[f] == 1)
            && w.inits == {T.InitMsg(t, o1, tm), T.InitMsg(t, o2, tm)}
            && w.votes == {} && w.decisions == {} && w.replies == {} && w.timedOut == {} && w.down == {}
            && w.begun == map[t := Begun(tm, {o1.ppt, o2.ppt}, [o1, o2])]
            && w.tms == map[tm := T.State(map[t := T.Active(NOT_DECIDED, 0, map[o1.ppt := NOT_DECIDED,
                                                                              o2.ppt := NOT_DECIDED])], map[])]
  {
    var ws0, es0 := Flights(tm, ppts, o1.ppt, flights);
    TwoInits(t, o1, o2, tm);
    assert T.NewActive([o1, o2]) == T.Active(NOT_DECIDED, 0, map[o1.ppt := NOT_DECIDED, o2.ppt := NOT_DECIDED]);
    ws, es := Then({tm}, ppts, ws0, es0, Book(tm, t, [o1, o2]));
    assert ws[|es|].tms == map[tm := T.State(map[t := T.NewActive([o1, o2])], map[])];
  }

  // ---- two orders for one airline ----

  /** A COMMIT from the only airline ends the transaction. */
  lemma OnlyVote(w: World, tm: string, t: TranId, p: Ppt)
    requires Enabled(w, DeliverVote(VoteMsg(tm, t, p, COMMIT))) && !Answered(w, t)
    requires w.tms[tm] == T.State(map[t := T.Active(NOT_DECIDED, 0, map[p := NOT_DECIDED, p := NOT_DECIDED])], map[])
    ensures var w' := Next(w, DeliverVote(VoteMsg(tm, t, p, COMMIT)));
            && (t, true) in w'.replies && Decision(t, p, COMMIT) in w'.decisions
            && w'.ppts == w.ppts && w'.inits == w.inits && w'.votes == w.votes
  {
    var group := map[p := NOT_DECIDED, p := NOT_DECIDED][p := COMMIT];
    assert group.Keys == {p};
  }

  /** Its first vote decides alone: the client hears that the booking succeeded, and the airline then
      refuses the other order. */
  lemma TwoOrdersOneAirline(tm: string, t: TranId, p: Ppt, f: FlightId, g: FlightId)
    returns (ws: seq<World>, es: seq<Event>)
    requires f != g && !Strings.Contains(f, ":") && !Strings.Contains(g, ":")
    ensures Run({tm}, {p}, ws, es)
    ensures (t, true) in ws[|es|].replies && VoteMsg(tm, t, p, ABORT) in ws[|es|].votes
  {
    var i1, i2 := Init(t, f, 1, tm), Init(t, g, 1, tm);
    ws, es := Booked(tm, t, Order(f, p, 1), Order(g, p, 1), {p}, [f]);
    OneFlight(ws[|es|].ppts[p], t, f, 1);
    ws, es := Then({tm}, {p}, ws, es, DeliverInit(p, i1));
    OnlyVote(ws[|es|], tm, t, p);
    ws, es := Then({tm}, {p}, ws, es, DeliverVote(VoteMsg(tm, t, p, COMMIT)));
    OneFlight(ws[|es|].ppts[p], t, g, 1);
    ws, es := Then({tm}, {p}, ws, es, DeliverInit(p, i2));
  }

  /** If the airline accepts both orders, the second log replaces the first: the client hears that the
      booking succeeded, and the first flight is not sold and stays locked for good. */
  lemma SecondOrderReplacesFirst(tm: string, t: TranId, p: Ppt, f: FlightId, g: FlightId)
    returns (ws: seq<World>, es: seq<Event>)
    requires f != g && !Strings.Contains(f, ":") && !Strings.Contains(g, ":")
    ensures Run({tm}, {p}, ws, es)
    ensures var w := ws[|es|];
            && (t, true) in w.replies && p in w.ppts && t in w.ppts[p].oldLog && w.ppts[p].oldLog[t] == COMMIT
            && f in w.ppts[p].slots && w.ppts[p].slots[f] == 1 && S.Stranded(w.ppts[p], f)
  {
    var i1, i2 := Init(t, f, 1, tm), Init(t, g, 1, tm);
    ws, es := Booked(tm, t, Order(f, p, 1), Order(g, p, 1), {p}, [f, g]);
    OneFlight(ws[|es|].ppts[p], t, f, 1);
    ws, es := Then({tm}, {p}, ws, es, DeliverInit(p, i1));
    OneFlight(ws[|es|].ppts[p], t, g, 1);
    ws, es := Then({tm}, {p}, ws, es, DeliverInit(p, i2));
    var logs := [A.TransLog(t, g, 1, 0)];
    var s := ws[|es|].ppts[p];
    assert s.logBuf == map[t := logs] && s.locks == {f, g} && s.oldLog == map[];
    OnlyVote(ws[|es|], tm, t, p);
    ws, es := Then({tm}, {p}, ws, es, DeliverVote(VoteMsg(tm, t, p, COMMIT)));
    LastRecordOnly(s, t, f, g);
    ws, es := Then({tm}, {p}, ws, es, DeliverDecision(Decision(t, p, COMMIT)));
  }

  lemma LastRecordOnly(s: A.State, t: TranId, f: FlightId, g: FlightId)
    requires f != g && f in s.slots && s.slots[f] == 1 && f in s.locks
    requires s.logBuf == map[t := [A.TransLog(t, g, 1, 0)]]
    ensures var s' := A.ResponseTrans(s, t, COMMIT);
            && t in s'.oldLog && s'.oldLog[t] == COMMIT
            && f in s'.slots && s'.slots[f] == 1 && S.Stranded(s', f)
  {
    var logs := [A.TransLog(t, g, 1, 0)];
    assert logs[1..] == [];
    assert A.Write(s.slots, logs) == A.Write(s.slots[g := 0], []);
    assert A.Flights(logs) == {g} by {
      assert logs[0].flight in A.Flights(logs);
    }
    assert A.ResponseTrans(s, t, COMMIT).logBuf == map[];
  }

  // ---- an early expiry ----

  /** The first vote of two is a COMMIT. */
  lemma FirstCommit(w: World, tm: string, t: TranId, p: Ppt, q: Ppt)
    requires Enabled(w, DeliverVote(VoteMsg(tm, t, p, COMMIT))) && p != q
    requires w.tms == map[tm := T.State(map[t := T.Active(NOT_DECIDED, 0, map[p := NOT_DECIDED, q := NOT_DECIDED])],
                                        map[])]
    ensures var w' := Next(w, DeliverVote(VoteMsg(tm, t, p, COMMIT)));
            w' == w.(tms := map[tm := T.State(map[t := T.Active(COMMIT, 1, map[p := COMMIT, q := NOT_DECIDED])],
                                              map[])])
  {
    var group := map[p := NOT_DECIDED, q := NOT_DECIDED];
    assert group[p := COMMIT] == map[p := COMMIT, q := NOT_DECIDED];
    assert group[p := COMMIT].Keys == {p, q};
    assert w.tms[tm].active[t := T.Active(COMMIT, 1, group[p := COMMIT])] ==
           map[t := T.Active(COMMIT, 1, group[p := COMMIT])];
    var s := T.State(map[t := T.Active(COMMIT, 1, group[p := COMMIT])], map[]);
    assert w.tms[tm := s] == map[tm := s];
    assert w.decisions + {} == w.decisions;
  }

  /** The expiry then tells the participant to commit. */
  lemma ExpiredEarly(w: World, tm: string, t: TranId, p: Ppt, q: Ppt)
    requires Enabled(w, Expire(tm, t)) && p != q && w.replies == {} && w.decisions == {}
    requires w.tms[tm] == T.State(map[t := T.Active(COMMIT, 1, map[p := COMMIT, q := NOT_DECIDED])], map[])
    ensures var w' := Next(w, Expire(tm, t));
            && w'.decisions == {Decision(t, p, COMMIT)} && w'.replies == {(t, true)}
            && w' == w.(decisions := w'.decisions, replies := w'.replies, timedOut := w'.timedOut, early := w'.early)
  {
  }

  /** The other participant aborts: now the first one is told to abort, and nobody takes the answer. */
  lemma AbortedLate(w: World, tm: string, t: TranId, p: Ppt, q: Ppt)
    requires Enabled(w, DeliverVote(VoteMsg(tm, t, q, ABORT))) && p != q && (t, true) in w.replies
    requires w.tms[tm] == T.State(map[t := T.Active(COMMIT, 1, map[p := COMMIT, q := NOT_DECIDED])], map[])
    ensures var w' := Next(w, DeliverVote(VoteMsg(tm, t, q, ABORT)));
            && Decision(t, p, ABORT) in w'.decisions && w.decisions <= w'.decisions
            && w'.replies == w.replies && tm in w'.down
  {
    var group := map[p := COMMIT, q := ABORT];
    assert map[p := COMMIT, q := NOT_DECIDED][q := ABORT] == group;
    assert group.Keys == {p, q};
  }

  /** The run up to the first of two votes. */
  lemma OneVoteIn(tm: string, t: TranId, p: Ppt, q: Ppt, f: FlightId)
    returns (ws: seq<World>, es: seq<Event>)
    requires p != q && !Strings.Contains(f, ":")
    ensures Run({tm}, {p, q}, ws, es)
    ensures var w := ws[|es|];
            && w.tms == map[tm := T.State(map[t := T.Active(COMMIT, 1, map[p := COMMIT, q := NOT_DECIDED])], map[])]
            && q in w.ppts && w.ppts[q] == A.START && (q, Init(t, f, 1, tm)) in w.inits
            && w.decisions == {} && w.replies == {} && w.timedOut == {} && w.down == {}
            && t in w.begun && w.begun[t].tm == tm
  {
    var i := Init(t, f, 1, tm);
    ws, es := Booked(tm, t, Order(f, p, 1), Order(f, q, 1), {p, q}, [f]);
    OneFlight(ws[|es|].ppts[p], t, f, 1);
    ws, es := Then({tm}, {p, q}, ws, es, DeliverInit(p, i));
    FirstCommit(ws[|es|], tm, t, p, q);
    ws, es := Then({tm}, {p, q}, ws, es, DeliverVote(VoteMsg(tm, t, p, COMMIT)));
  }

  /** An expiry while a vote is missing can tell one participant to commit and then to abort, after the
      client has heard that the booking succeeded, and stop the agency. */
  lemma EarlyExpirySplits(tm: string, t: TranId, p: Ppt, q: Ppt, f: FlightId)
    returns (ws: seq<World>, es: seq<Event>)
    requires p != q && !Strings.Contains(f, ":")
    ensures Run({tm}, {p, q}, ws, es)
    ensures var w := ws[|es|];
            && Decision(t, p, COMMIT) in w.decisions && Decision(t, p, ABORT) in w.decisions
            && w.replies == {(t, true)} && tm in w.down
  {
    ws, es := OneVoteIn(tm, t, p, q, f);
    ExpiredEarly(ws[|es|], tm, t, p, q);
    ws, es := Then({tm}, {p, q}, ws, es, Expire(tm, t));
    OneFlight(ws[|es|].ppts[q], t, f, 1);
    ws, es := Then({tm}, {p, q}, ws, es, DeliverInit(q, Init(t, f, 1, tm)));
    AbortedLate(ws[|es|], tm, t, p, q);
    ws, es := Then({tm}, {p, q}, ws, es, DeliverVote(VoteMsg(tm, t, q, ABORT)));
  }
}
