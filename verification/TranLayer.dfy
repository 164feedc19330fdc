/** The agency side of a booking: starts transactions, tallies votes, sends decisions. */
module TranLayer {
  import opened Options
  import opened Transactions

  /** A transaction that still waits for votes. `commitGrp` has one entry per participant. */
  datatype Active = Active(decision: Vote, finished: int, commitGrp: map<Ppt, Vote>)

  datatype State = State(active: map<TranId, Active>, oldLog: map<TranId, Vote>)

  /** Decisions sent, and what is put on the channel the client waits on. */
  datatype Output = Output(sent: set<Decision>, reply: Option<bool>)

  const SILENT: Output := Output({}, None)

  function Participants(orders: seq<Order>): set<Ppt> {
    set k | 0 <= k < |orders| :: orders[k].ppt
  }

  function NewActive(orders: seq<Order>): Active {
    Active(NOT_DECIDED, 0, map p | p in Participants(orders) :: NOT_DECIDED)
  }

  function InitTrans(s: State, tran: TranId, orders: seq<Order>): State {
    s.(active := s.active[tran := NewActive(orders)])
  }

  /** The message of one order, addressed to its participant. */
  function InitMsg(tran: TranId, o: Order, tm: string): (Ppt, Init) {
    (o.ppt, Init(tran, o.flightID, o.amount, tm))
  }

  function InitMsgs(tran: TranId, orders: seq<Order>, tm: string): seq<(Ppt, Init)> {
    if orders == [] then [] else [InitMsg(tran, orders[0], tm)] + InitMsgs(tran, orders[1..], tm)
  }

  /** Everyone who voted to commit is told the outcome. */
  function Tell(tran: TranId, group: map<Ppt, Vote>, outcome: Vote): set<Decision> {
    set p | p in group && group[p] == COMMIT :: Decision(tran, p, outcome)
  }

  function Count(a: Active, p: Ppt, vote: Vote): Active {
    Active(if a.decision != ABORT then vote else a.decision, a.finished + 1, a.commitGrp[p := vote])
  }

  /** A vote for a transaction that is not active is dropped, also for a finished one: the answer the
      handler then prepares goes to the agency's own address, where nothing takes it. */
  function ResponseTrans(s: State, tran: TranId, p: Ppt, vote: Vote): (State, Output) {
    if tran !in s.active then (s, SILENT)
    else
      var a := s.active[tran];
      if p !in a.commitGrp || a.commitGrp[p] != NOT_DECIDED then (s, SILENT)
      else
        var b := Count(a, p, vote);
        if b.finished < |b.commitGrp| then (s.(active := s.active[tran := b]), SILENT)
        else
          (State(s.active - {tran}, s.oldLog[tran := b.decision]),
           Output(Tell(tran, b.commitGrp, b.decision), Some(b.decision == COMMIT)))
  }

  /** Whatever has been decided so far is sent; the transaction stays active. */
  function ExpireTrans(s: State, tran: TranId): Output {
    if tran !in s.active then SILENT
    else
      var a := s.active[tran];
      Output(Tell(tran, a.commitGrp, a.decision), Some(a.decision == COMMIT))
  }

  class ActiveTrans {
    var decision: Vote
    var finished: int
    var commitGrp: map<Ppt, Vote>

    constructor (group: map<Ppt, Vote>)
      ensures View() == Active(NOT_DECIDED, 0, group)
    {
      decision, finished, commitGrp := NOT_DECIDED, 0, group;
    }

    function View(): Active
      reads this
    {
      Active(decision, finished, commitGrp)
    }
  }

  class Agency {
    const myhostport: string
    var activeTransMap: map<TranId, ActiveTrans>
    var oldTransactionMap: map<TranId, seq<Order>>
    var oldLog: map<TranId, Vote>

    /** No two transactions share a record, and all INIT messages have been sent. */
    ghost predicate Valid()
      reads this
    {
      && (forall t, u :: t in activeTransMap && u in activeTransMap && t != u ==>
                           activeTransMap[t] != activeTransMap[u])
      && oldTransactionMap == map[]
    }

    ghost function Table(): map<TranId, Active>
      reads `activeTransMap, activeTransMap.Values
    {
      map t | t in activeTransMap :: activeTransMap[t].View()
    }

    ghost function Abs(): State
      reads `activeTransMap, `oldLog, activeTransMap.Values
    {
      State(Table(), oldLog)
    }

    constructor (myhostport: string)
      ensures Valid() && activeTransMap.Values == {}
      ensures Abs() == State(map[], map[])
    {
      this.myhostport := myhostport;
      activeTransMap, oldTransactionMap, oldLog := map[], map[], map[];
    }

    /** One pass of the request loop on INIT_TRANS: the transaction is recorded, and every order goes
        out to its participant before any other request is looked at. None stands for the panic of
        the loop on a booking without orders. */
    method Begin(tran: TranId, orders: seq<Order>) returns (sent: Option<seq<(Ppt, Init)>>)
      requires Valid()
      modifies this
      ensures orders != [] ==> Valid()
      ensures fresh(activeTransMap.Values - old(activeTransMap.Values))
      ensures Abs() == InitTrans(old(Abs()), tran, orders)
      ensures sent == if orders == [] then None else Some(InitMsgs(tran, orders, myhostport))
    {
      Activate(tran, orders);
      oldTransactionMap := map[tran := orders];
      assert oldTransactionMap.Keys == {tran};
      sent := SendRemaining(tran);
    }

    method Activate(tran: TranId, orders: seq<Order>)
      requires Valid()
      modifies `activeTransMap
      ensures Valid()
      ensures fresh(activeTransMap.Values - old(activeTransMap.Values))
      ensures Abs() == InitTrans(old(Abs()), tran, orders)
    {
      var group := GroupOf(orders);
      var a := new ActiveTrans(group);
      Record(tran, a);
    }

    method Record(tran: TranId, a: ActiveTrans)
      requires Valid() && a !in activeTransMap.Values
      modifies `activeTransMap
      ensures Valid() && activeTransMap == old(activeTransMap)[tran := a]
      ensures Abs() == old(Abs()).(active := old(Abs()).active[tran := a.View()])
    {
      activeTransMap := activeTransMap[tran := a];
      assert Table() == old(Table())[tran := a.View()];
    }

    method GroupOf(orders: seq<Order>) returns (group: map<Ppt, Vote>)
      ensures group == NewActive(orders).commitGrp
    {
      group := map[];
      for i := 0 to |orders|
        invariant group == NewActive(orders[..i]).commitGrp
      {
        group := group[orders[i].ppt := NOT_DECIDED];
        assert Participants(orders[..i + 1]) == Participants(orders[..i]) + {orders[i].ppt};
      }
      assert orders[..|orders|] == orders;
    }

    /** The draining loop at the top of requestHandler. */
    method SendRemaining(tran: TranId) returns (sent: Option<seq<(Ppt, Init)>>)
      requires oldTransactionMap.Keys == {tran}
      modifies `oldTransactionMap
      ensures sent == if old(oldTransactionMap[tran]) == [] then None
                      else Some(InitMsgs(tran, old(oldTransactionMap[tran]), myhostport))
      ensures sent.Some? ==> oldTransactionMap == map[]
    {
      var done := [];
      ghost var list := oldTransactionMap[tran];
      while oldTransactionMap != map[]
        invariant oldTransactionMap.Keys <= {tran}
        invariant tran in oldTransactionMap ==>
                    (oldTransactionMap[tran] == [] ==> list == []) &&
                    done + InitMsgs(tran, oldTransactionMap[tran], myhostport) == InitMsgs(tran, list, myhostport)
        invariant tran !in oldTransactionMap ==> list != [] && done == InitMsgs(tran, list, myhostport)
        decreases if tran in oldTransactionMap then |oldTransactionMap[tran]| + 1 else 0
      {
        assert oldTransactionMap.Keys != {};
        var t := Any(oldTransactionMap.Keys);
        var m := SendOne(t);
        if m.None? {
          return None;
        }
        done := done + [m.value];
      }
      return Some(done);
    }

    /** The first order of a transaction goes out; the transaction leaves the map with its last one.
        Taking an order from an empty list panics. */
    method SendOne(t: TranId) returns (m: Option<(Ppt, Init)>)
      requires t in oldTransactionMap
      modifies `oldTransactionMap
      ensures var list := old(oldTransactionMap[t]);
              if list == [] then m == None && oldTransactionMap == old(oldTransactionMap)
              else
                && m == Some(InitMsg(t, list[0], myhostport))
                && oldTransactionMap == (if |list| == 1 then old(oldTransactionMap) - {t}
                                         else old(oldTransactionMap)[t := list[1..]])
    {
      var list := oldTransactionMap[t];
      if list == [] {
        return None;
      }
      m := Some(InitMsg(t, list[0], myhostport));
      if |list| == 1 {
        oldTransactionMap := oldTransactionMap - {t};
      } else {
        oldTransactionMap := oldTransactionMap[t := list[1..]];
      }
    }

    /** The loop that tells everyone who voted to commit. */
    method SendDecision(tran: TranId, group: map<Ppt, Vote>, outcome: Vote) returns (sent: set<Decision>)
      ensures sent == Tell(tran, group, outcome)
    {
      sent := {};
      var rest := group.Keys;
      while rest != {}
        invariant rest <= group.Keys
        invariant sent == set p | p in group && p !in rest && group[p] == COMMIT :: Decision(tran, p, outcome)
        decreases |rest|
      {
        var p := Any(rest);
        rest := rest - {p};
        if group[p] == COMMIT {
          sent := sent + {Decision(tran, p, outcome)};
        }
      }
    }

    method Response(tran: TranId, p: Ppt, vote: Vote) returns (o: Output)
      requires Valid()
      modifies this, activeTransMap.Values
      ensures Valid()
      ensures Abs() == ResponseTrans(old(Abs()), tran, p, vote).0
      ensures o == ResponseTrans(old(Abs()), tran, p, vote).1
    {
      if tran !in activeTransMap {
        // the logged decision of a finished transaction is sent to the agency itself
        return SILENT;
      }
      var a := activeTransMap[tran];
      if p !in a.commitGrp || a.commitGrp[p] != NOT_DECIDED {
        return SILENT;
      }
      o := TakeVote(tran, a, p, vote);
    }

    /** A first vote of a known participant. */
    method TakeVote(tran: TranId, a: ActiveTrans, p: Ppt, vote: Vote) returns (o: Output)
      requires Valid() && tran in activeTransMap && activeTransMap[tran] == a
      requires p in a.commitGrp && a.commitGrp[p] == NOT_DECIDED
      modifies this, a
      ensures Valid()
      ensures Abs() == ResponseTrans(old(Abs()), tran, p, vote).0
      ensures o == ResponseTrans(old(Abs()), tran, p, vote).1
    {
      Tally(tran, a, p, vote);
      if a.finished < |a.commitGrp| {
        return SILENT;
      }
      o := Finish(tran, a);
    }

    method Tally(tran: TranId, a: ActiveTrans, p: Ppt, vote: Vote)
      requires Valid() && tran in activeTransMap && activeTransMap[tran] == a && p in a.commitGrp
      modifies a
      ensures Valid() && a.View() == Count(old(a.View()), p, vote)
      ensures Abs() == old(Abs()).(active := old(Abs()).active[tran := a.View()])
    {
      a.commitGrp := a.commitGrp[p := vote];
      if a.decision != ABORT {
        a.decision := vote;
      }
      a.finished := a.finished + 1;
      OneChanged(tran);
    }

    /** The last vote is in: everyone who voted to commit, and the client, hear the decision. */
    method Finish(tran: TranId, a: ActiveTrans) returns (o: Output)
      requires Valid() && tran in activeTransMap && activeTransMap[tran] == a
      modifies `activeTransMap, `oldLog
      ensures Valid()
      ensures Abs() == State(old(Abs()).active - {tran}, old(oldLog)[tran := a.decision])
      ensures o == Output(Tell(tran, a.commitGrp, a.decision), Some(a.decision == COMMIT))
    {
      Retire(tran);
      var sent := SendDecision(tran, a.commitGrp, a.decision);
      oldLog := oldLog[tran := a.decision];
      return Output(sent, Some(a.decision == COMMIT));
    }

    method Retire(tran: TranId)
      requires Valid()
      modifies `activeTransMap
      ensures Valid() && Table() == old(Table()) - {tran}
      ensures activeTransMap == old(activeTransMap) - {tran}
    {
      activeTransMap := activeTransMap - {tran};
      assert Table() == old(Table()) - {tran};
    }

    /** Writing to the record of one transaction shows up as one map update. */
    twostate lemma OneChanged(tran: TranId)
      requires old(Valid()) && activeTransMap == old(activeTransMap) && tran in activeTransMap
      requires forall t :: t in activeTransMap && t != tran ==> unchanged(activeTransMap[t])
      ensures Table() == old(Table())[tran := activeTransMap[tran].View()]
    {
      forall t | t in activeTransMap && t != tran
        ensures Table()[t] == old(Table())[t]
      {
        assert activeTransMap[t].View() == old(activeTransMap[t].View());
        assert old(Table())[t] == old(activeTransMap[t].View());
      }
    }

    method Expire(tran: TranId) returns (o: Output)
      requires Valid()
      ensures o == ExpireTrans(Abs(), tran)
    {
      if tran !in activeTransMap {
        return SILENT;
      }
      var a := activeTransMap[tran];
      var sent := SendDecision(tran, a.commitGrp, a.decision);
      return Output(sent, Some(a.decision == COMMIT));
    }
  }

  // ---- one entry per participant ----

  lemma ParticipantsLast(orders: seq<Order>, last: Order)
    ensures Participants(orders + [last]) == Participants(orders) + {last.ppt}
  {
    var all := orders + [last];
    forall k | 0 <= k < |orders|
      ensures orders[k].ppt in Participants(all)
    {
      assert all[k] == orders[k];
    }
    assert all[|orders|] == last;
  }

  lemma {:induction false} ParticipantCount(orders: seq<Order>)
    ensures |Participants(orders)| <= |orders|
    ensures |Participants(orders)| == |orders| <==> DistinctParticipants(orders)
    decreases |orders|
  {
    if orders == [] {
      assert Participants(orders) == {};
    } else {
      var rest, last := orders[..|orders| - 1], orders[|orders| - 1];
      assert orders == rest + [last];
      ParticipantCount(rest);
      ParticipantsLast(rest, last);
    }
  }

  /** The tally waits for as many votes as there are orders exactly when no airline has two of them. */
  lemma TallyMatchesOrders(orders: seq<Order>)
    ensures |NewActive(orders).commitGrp| == |orders| <==> DistinctParticipants(orders)
  {
    ParticipantCount(orders);
    assert NewActive(orders).commitGrp.Keys == Participants(orders);
  }

  // ---- the tally ----

  ghost predicate SomeAbort(group: map<Ppt, Vote>) {
    exists p :: p in group && group[p] == ABORT
  }

  /** The outcome once everybody has voted. */
  ghost function Outcome(group: map<Ppt, Vote>): Vote {
    if SomeAbort(group) then ABORT else COMMIT
  }

  function Voted(group: map<Ppt, Vote>): set<Ppt> {
    set p | p in group && group[p] != NOT_DECIDED
  }

  /** An active record counts the votes it has, and its decision is the verdict so far. */
  ghost predicate ActiveOk(a: Active) {
    && a.finished == |Voted(a.commitGrp)| < |a.commitGrp|
    && a.decision == (if SomeAbort(a.commitGrp) then ABORT
                      else if Voted(a.commitGrp) == {} then NOT_DECIDED else COMMIT)
  }

  /** Counting a first vote keeps the tally; the last vote yields the outcome of all votes. */
  lemma CountKeepsTally(a: Active, p: Ppt, vote: Vote)
    requires ActiveOk(a) && p in a.commitGrp && a.commitGrp[p] == NOT_DECIDED && vote != NOT_DECIDED
    ensures var b := Count(a, p, vote);
            && b.finished == |Voted(b.commitGrp)| <= |b.commitGrp|
            && b.decision == Outcome(b.commitGrp)
            && (b.finished < |b.commitGrp| ==> ActiveOk(b))
            && (b.finished == |b.commitGrp| ==> forall q :: q in b.commitGrp ==> b.commitGrp[q] != NOT_DECIDED)
  {
    OneMoreVoted(a.commitGrp, p, vote);
    VerdictOfMore(a.commitGrp, p, vote);
  }

  lemma OneMoreVoted(group: map<Ppt, Vote>, p: Ppt, vote: Vote)
    requires p in group && group[p] == NOT_DECIDED && vote != NOT_DECIDED
    ensures var more := group[p := vote];
            && |more| == |group| && |Voted(more)| == |Voted(group)| + 1 <= |more| && Voted(more) != {}
            && (|Voted(more)| == |more| ==> forall q :: q in more ==> more[q] != NOT_DECIDED)
  {
    var more := group[p := vote];
    assert Voted(more) == Voted(group) + {p};
    assert more.Keys == group.Keys;
    VotedWithin(more);
  }

  /** Somebody has voted to abort exactly if the new vote or an old one says so. */
  lemma VerdictOfMore(group: map<Ppt, Vote>, p: Ppt, vote: Vote)
    requires p in group && group[p] == NOT_DECIDED
    ensures SomeAbort(group[p := vote]) <==> vote == ABORT || SomeAbort(group)
  {
    var more := group[p := vote];
    assert more[p] == vote;
    assert forall q :: q in group && group[q] == ABORT ==> more[q] == ABORT;
    assert forall q :: q in more && more[q] == ABORT && q != p ==> group[q] == ABORT;
  }

  lemma VotedWithin(group: map<Ppt, Vote>)
    ensures |Voted(group)| <= |group|
    ensures |Voted(group)| == |group| ==> forall q :: q in group ==> group[q] != NOT_DECIDED
  {
    var v := Voted(group);
    assert v <= group.Keys;
    assert |group.Keys - v| == |group| - |v|;
    assert forall q :: q in group && group[q] == NOT_DECIDED ==> q in group.Keys - v;
  }

  // ---- expiry of a transaction that still waits for votes ----

  /** A way the missing votes may still come in. */
  ghost predicate Completes(group: map<Ppt, Vote>, full: map<Ppt, Vote>) {
    && full.Keys == group.Keys
    && forall p :: p in group ==> full[p] != NOT_DECIDED && (group[p] != NOT_DECIDED ==> full[p] == group[p])
  }

  /** What expireTrans tells the client and the participants is what the transaction will end with. */
  ghost predicate ExpiryKept(s: State, tran: TranId, outcome: Vote) {
    var o := ExpireTrans(s, tran);
    && o.reply == Some(outcome == COMMIT)
    && forall d :: d in o.sent ==> d.outcome == outcome
  }

  /** What the expiry of an active transaction says is what the transaction ends with, however its
      missing votes turn out, exactly when an ABORT vote has been counted already. */
  lemma ExpirySafeIff(s: State, tran: TranId)
    requires tran in s.active && ActiveOk(s.active[tran])
    ensures (forall full :: Completes(s.active[tran].commitGrp, full) ==> ExpiryKept(s, tran, Outcome(full))) <==>
            s.active[tran].decision == ABORT
  {
    var a := s.active[tran];
    var group := a.commitGrp;
    if a.decision == ABORT {
      var q :| q in group && group[q] == ABORT;
      forall full | Completes(group, full)
        ensures ExpiryKept(s, tran, Outcome(full))
      {
        assert full[q] == ABORT;
      }
    } else {
      var loser := if a.decision == COMMIT then ABORT else COMMIT;
      var full := map p | p in group :: if group[p] == NOT_DECIDED then loser else group[p];
      assert Completes(group, full);
      if a.decision == COMMIT {
        VotedWithin(group);
        SomeoneMissing(group);
        var q :| q in group && group[q] == NOT_DECIDED;
        assert full[q] == ABORT;
      }
      assert !ExpiryKept(s, tran, Outcome(full));
    }
  }

  lemma SomeoneMissing(group: map<Ppt, Vote>)
    requires |Voted(group)| < |group|
    ensures exists q :: q in group && group[q] == NOT_DECIDED
  {
    assert |group.Keys - Voted(group)| == |group| - |Voted(group)|;
    var q :| q in group.Keys - Voted(group);
  }
}
