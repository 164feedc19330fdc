/** The replicas of one airline hold one ledger: what a replica knows depends only on how many commands
    it has executed, not on which replica it is or when it executed them. */
module ReplicatedAirline {
  import opened Options
  import opened Transactions
  import opened PaxosMessages
  import opened PaxosSystem
  import opened PaxosQuorums
  import opened PaxosExecution
  import opened PaxosReplication
  import Codec
  import Strings
  import A = AirlineParticipant
  import S = SeatLedger
  import SeatLocks

  datatype TranType = TRANS_INIT | TRANS_RESPONSE | TRANS_OLD | TRANS_OLD_RESPONSE

  datatype PutArgs = PutArgs(flightID: FlightId, slot: int)

  datatype TranArgs = TranArgs(tranType: TranType, tranID: TranId, flightID: string, amount: int, vote: Vote)

  /** How JSON texts are read: any function. */
  datatype Json = Json(put: string -> PutArgs, tran: string -> TranArgs)

  /** PaxosResponse: what a command asks of the airline's ledger, if anything. */
  function RequestOf(json: Json, c: Codec.Command): Option<S.Request> {
    if c.op == "CF" then
      var args := json.put(c.payload);
      Some(S.Create(args.flightID, args.slot))
    else if c.op == "TA" then
      var args := json.tran(c.payload);
      match args.tranType
      case TRANS_INIT => Some(S.Prepare(args.tranID, args.flightID, args.amount))
      case TRANS_RESPONSE => Some(S.Decide(args.tranID, args.vote))
      case _ => None
    else None
  }

  /** The same for a value of the replicated log: its tag is removed and its fields are taken apart. */
  function RequestIn(json: Json, v: Value): seq<S.Request> {
    match Codec.FromModifiedValue(v)
    case None => []
    case Some(cmd) =>
      match Codec.Decode(cmd)
      case None => []
      case Some(c) => if RequestOf(json, c).Some? then [RequestOf(json, c).value] else []
  }

  function Requests(json: Json, values: seq<Value>): seq<S.Request>
    decreases |values|
  {
    if values == [] then [] else Requests(json, values[..|values| - 1]) + RequestIn(json, values[|values| - 1])
  }

  /** The ledger of a replica that has executed these values. */
  function LedgerOf(json: Json, values: seq<Value>): S.Ledger {
    S.Exec(Requests(json, values))
  }

  lemma {:induction false} RequestsAppend(json: Json, a: seq<Value>, b: seq<Value>)
    ensures Requests(json, a + b) == Requests(json, a) + Requests(json, b)
    decreases |b|
  {
    if b == [] {
      assert a + b == a;
    } else {
      var n := |b| - 1;
      assert (a + b)[..|a + b| - 1] == a + b[..n];
      RequestsAppend(json, a, b[..n]);
    }
  }

  lemma {:induction false} AfterAppend(l: S.Ledger, rs: seq<S.Request>, r: S.Request)
    ensures S.After(l, rs + [r]) == S.Next(S.After(l, rs), r)
    decreases |rs|
  {
    if rs == [] {
      assert rs + [r] == [r] && [r][1..] == [];
    } else {
      assert (rs + [r])[1..] == rs[1..] + [r];
      AfterAppend(S.Next(l, rs[0]), rs[1..], r);
    }
  }

  lemma {:induction false} ExecAppend(a: seq<S.Request>, b: seq<S.Request>)
    ensures S.Exec(a + b) == S.After(S.Exec(a), b)
    decreases |b|
  {
    if b == [] {
      assert a + b == a;
    } else {
      var n := |b| - 1;
      assert (a + b)[..|a + b| - 1] == a + b[..n];
      ExecAppend(a, b[..n]);
      assert b == b[..n] + [b[n]];
      AfterAppend(S.Exec(a), b[..n], b[n]);
    }
  }

  lemma PrefixesOfOne(a: seq<Value>, b: seq<Value>, a': seq<Value>, b': seq<Value>)
    requires a <= a' && b <= b' && PrefixOrdered(a', b') && |a| <= |b|
    ensures a <= b
  {
  }

  /** In every disciplined run of an odd number of replicas, of two replicas at any two moments the one
      that has executed more commands holds the ledger that the other one's becomes by the commands
      it has yet to execute; so with equally many commands they hold the same. */
  lemma ReplicasHoldOneLedger(cfg: Config, ws: seq<World>, es: seq<Event>, k: nat, n: nat, r: Addr, r': Addr,
                              json: Json)
    requires WellFormed(cfg) && Run(cfg, ws, es) && Disciplined(ws, es) && k <= |es| && n <= |es|
    requires |cfg.pos| % 2 == 1 && cfg.quorum == Quorum(|cfg.pos|)
    requires r in cfg.pos && r' in cfg.pos
    ensures r in ws[k].reps && r' in ws[n].reps
    ensures var x, x' := ws[k].reps[r].executed, ws[n].reps[r'].executed;
            && (|x| <= |x'| ==>
                  LedgerOf(json, x') == S.After(LedgerOf(json, x), Requests(json, x'[|x|..])))
            && (|x| == |x'| ==> LedgerOf(json, x) == LedgerOf(json, x'))
  {
    var m := if k <= n then n else k;
    ExecutedGrows(cfg, ws, es, k, m, r);
    ExecutedGrows(cfg, ws, es, n, m, r');
    ReplicasExecuteInOneOrder(cfg, ws, es, m, r, r');
    var x, x' := ws[k].reps[r].executed, ws[n].reps[r'].executed;
    if |x| <= |x'| {
      PrefixesOfOne(x, x', ws[m].reps[r].executed, ws[m].reps[r'].executed);
      assert x' == x + x'[|x|..];
      RequestsAppend(json, x, x'[|x|..]);
      ExecAppend(Requests(json, x), Requests(json, x'[|x|..]));
    }
  }

  /** The value is the tagged encoding of a command that no separator cuts. */
  ghost predicate Carries(v: Value, c: Codec.Command) {
    && c.op in Codec.OPERATIONS && Codec.Clean(c.host) && Codec.Clean(c.payload)
    && exists p: int, n: nat :: v == Codec.ModifiedValue(p, n, Codec.Encode(c))
  }

  /** The airline after its first k commands. */
  function StateAt(json: Json, x: seq<Value>, k: nat): A.State
    requires k <= |x|
  {
    LedgerOf(json, x[..k]).s
  }

  lemma OneMoreRequest(rs: seq<S.Request>, r: seq<S.Request>)
    requires |r| <= 1
    ensures S.Exec(rs + r) == if r == [] then S.Exec(rs) else S.Next(S.Exec(rs), r[0])
  {
    if r == [] {
      assert rs + r == rs;
    } else {
      assert (rs + r)[..|rs + r| - 1] == rs;
    }
  }

  lemma RequestsLast(json: Json, x: seq<Value>, k: nat)
    requires k < |x|
    ensures Requests(json, x[..k + 1]) == Requests(json, x[..k]) + RequestIn(json, x[k])
  {
    assert x[..k + 1][..k] == x[..k];
  }

  lemma Understood(json: Json, v: Value, c: Codec.Command)
    requires Carries(v, c)
    ensures RequestIn(json, v) == if RequestOf(json, c).Some? then [RequestOf(json, c).value] else []
  {
    var p: int, n: nat :| v == Codec.ModifiedValue(p, n, Codec.Encode(c));
    Codec.DeliveredUnchanged(p, n, c);
  }

  lemma Executed(json: Json, x: seq<Value>, k: nat, c: Codec.Command)
    requires k < |x| && Carries(x[k], c)
    ensures StateAt(json, x, k + 1) ==
            match RequestOf(json, c)
            case None => StateAt(json, x, k)
            case Some(r) => S.Next(LedgerOf(json, x[..k]), r).s
  {
    Understood(json, x[k], c);
    RequestsLast(json, x, k);
    OneMoreRequest(Requests(json, x[..k]), RequestIn(json, x[k]));
  }

  /** CF creates the flight with its slots, unless there is one of that name. */
  lemma FlightCreated(json: Json, x: seq<Value>, k: nat, c: Codec.Command)
    requires k < |x| && Carries(x[k], c) && c.op == "CF"
    ensures var args := json.put(c.payload);
            var s := StateAt(json, x, k);
            StateAt(json, x, k + 1) ==
            if args.flightID in s.slots then s else s.(slots := s.slots[args.flightID := args.slot])
  {
    Executed(json, x, k, c);
  }

  lemma OrderLogged(s: A.State, t: TranId, flightID: string, amount: int)
    ensures var fs := Strings.Split(flightID, ":");
            var s' := A.InitTrans(s, t, flightID, amount).0;
            && s'.slots == s.slots && s'.oldLog == s.oldLog && s.locks <= s'.locks
            && if A.Preparable(s.slots, s.locks, fs, amount) then
                 && s'.locks == s.locks + (set f | f in fs)
                 && s'.logBuf == s.logBuf[t := A.Records(s.slots, t, fs, amount)]
               else s'.logBuf == s.logBuf
  {
    var fs := Strings.Split(flightID, ":");
    var p := A.Progress(s.locks, [], true);
    A.VotesCommitIff(s, t, flightID, amount);
    if A.Preparable(s.slots, s.locks, fs, amount) {
      A.PrepareRecords(s.slots, t, fs, amount, p);
      assert [] + A.Records(s.slots, t, fs, amount) == A.Records(s.slots, t, fs, amount);
    } else {
      S.LocksOfProgress(s.slots, t, fs, amount, s.locks, p);
    }
  }

  /** TRANS_INIT locks the flights of an order that can be prepared and logs one record per flight;
      any other order leaves slots and logs as they were. */
  lemma OrderPrepared(json: Json, x: seq<Value>, k: nat, c: Codec.Command)
    requires k < |x| && Carries(x[k], c) && c.op == "TA" && json.tran(c.payload).tranType == TRANS_INIT
    ensures var args := json.tran(c.payload);
            var fs := Strings.Split(args.flightID, ":");
            var s, s' := StateAt(json, x, k), StateAt(json, x, k + 1);
            && s'.slots == s.slots && s'.oldLog == s.oldLog && s.locks <= s'.locks
            && if A.Preparable(s.slots, s.locks, fs, args.amount) then
                 && s'.locks == s.locks + (set f | f in fs)
                 && args.tranID in s'.logBuf && |s'.logBuf[args.tranID]| == |fs|
                 && (forall i :: 0 <= i < |fs| ==>
                       s'.logBuf[args.tranID][i] ==
                       A.TransLog(args.tranID, fs[i], s.slots[fs[i]], s.slots[fs[i]] - args.amount))
                 && forall t :: t != args.tranID ==>
                      (t in s'.logBuf <==> t in s.logBuf) && (t in s.logBuf ==> s'.logBuf[t] == s.logBuf[t])
               else s'.logBuf == s.logBuf
  {
    var args := json.tran(c.payload);
    Executed(json, x, k, c);
    OrderLogged(StateAt(json, x, k), args.tranID, args.flightID, args.amount);
  }

  /** TRANS_RESPONSE on a prepared transaction takes each record's seats from its flight, for COMMIT only,
      frees the flights of the log and remembers the vote; on any other it does nothing. */
  lemma DecisionApplied(json: Json, x: seq<Value>, k: nat, c: Codec.Command, f: FlightId)
    requires k < |x| && Carries(x[k], c) && c.op == "TA" && json.tran(c.payload).tranType == TRANS_RESPONSE
    ensures var t, vote := json.tran(c.payload).tranID, json.tran(c.payload).vote;
            var s, s' := StateAt(json, x, k), StateAt(json, x, k + 1);
            if t !in s.logBuf then s' == s
            else
              var logs := s.logBuf[t];
              && s'.logBuf == s.logBuf - {t} && s'.oldLog == s.oldLog[t := vote]
              && s'.slots.Keys == s.slots.Keys
              && (f in s'.locks <==> f in s.locks && forall i :: 0 <= i < |logs| ==> logs[i].flight != f)
              && (forall i :: 0 <= i < |logs| && logs[i].flight == f && vote == Vote.COMMIT ==>
                    f in s.slots && s'.slots[f] == s.slots[f] - (logs[i].before - logs[i].after))
              && (f in s.slots && (vote != Vote.COMMIT || forall i :: 0 <= i < |logs| ==> logs[i].flight != f) ==>
                    s'.slots[f] == s.slots[f])
  {
    var t, vote := json.tran(c.payload).tranID, json.tran(c.payload).vote;
    var l := LedgerOf(json, x[..k]);
    Executed(json, x, k, c);
    S.RunInv(Requests(json, x[..k]));
    SeatLocks.DecisionFreesLocks(l, t, vote, f);
    if t in l.s.logBuf && vote == Vote.COMMIT {
      SeatsTaken(l.s, t, f);
    }
  }

  lemma SeatsTaken(s: A.State, t: TranId, f: FlightId)
    requires S.ParticipantOk(s) && t in s.logBuf
    ensures var logs := s.logBuf[t]; var slots := A.Write(s.slots, logs);
            && slots.Keys == s.slots.Keys
            && (forall i :: 0 <= i < |logs| && logs[i].flight == f ==>
                  f in s.slots && slots[f] == s.slots[f] - (logs[i].before - logs[i].after))
            && (f in s.slots && (forall i :: 0 <= i < |logs| ==> logs[i].flight != f) ==> slots[f] == s.slots[f])
  {
    var logs := s.logBuf[t];
    assert S.LogOk(s, t, logs);
    assert forall i :: 0 <= i < |logs| ==> S.RecordOk(s, t, logs[i]);
    S.WriteKeys(s.slots, logs);
    if f in s.slots {
      S.WriteMoves(s.slots, logs, f);
      assert forall i :: 0 <= i < |logs| && logs[i].flight == f ==> f in A.Flights(logs);
    }
  }

  /** All other commands leave the airline as it is. */
  lemma OthersAsk(json: Json, x: seq<Value>, k: nat, c: Codec.Command)
    requires k < |x| && Carries(x[k], c) && c.op != "CF"
    requires c.op == "TA" ==> json.tran(c.payload).tranType in {TRANS_OLD, TRANS_OLD_RESPONSE}
    ensures StateAt(json, x, k + 1) == StateAt(json, x, k)
  {
    Executed(json, x, k, c);
  }
}
