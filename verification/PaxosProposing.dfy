/** When a coordinator proposes, and what, said over the answers delivered to it. */
module PaxosProposing {
  import opened Options
  import opened PaxosMessages
  import opened PaxosSystem
  import opened PaxosInvariants
  import opened PaxosSafety
  import opened PaxosRoles
  import C = PaxosCoordinator
  import R = PaxosReplica

  /** Who has answered in the instance between events k and n. */
  function Responders(es: seq<Event>, k: nat, n: nat, r: Addr, i: int): set<Addr>
    requires n <= |es|
  {
    set m | k < m < n && Gets(es[m], r, PREPARE_OK, i) :: es[m].sent.packet.from
  }

  /** The highest vote these answers report, the earliest one of several; (0, "") if none does. */
  function Best(es: seq<Event>, k: nat, n: nat, r: Addr, i: int): (int, Value)
    requires n <= |es|
    decreases n
  {
    if n <= k + 1 then (0, "")
    else
      var best := Best(es, k, n - 1, r, i);
      if Gets(es[n - 1], r, PREPARE_OK, i) && BallotOf(es[n - 1]) > best.0
      then (BallotOf(es[n - 1]), es[n - 1].sent.packet.msg.value) else best
  }

  /** r opens instance i at event k with the command v and ballot b, and does not open it again before n. */
  ghost predicate Opened(ws: seq<World>, es: seq<Event>, k: nat, n: nat, r: Addr, i: int, b: int, v: Value) {
    && k < n <= |es| && |ws| == |es| + 1 && Opens(es[k], r) && r in ws[k].reps
    && es[k].sent.packet.msg.value == v
    && ws[k].reps[r].c.instance + 1 == i && ws[k].reps[r].c.nextproposal == b
    && forall m :: k < m < n && Opens(es[m], r) ==> r in ws[m].reps && ws[m].reps[r].c.instance + 1 != i
  }

  /** The record of the instance while answers come in, and once they are enough. */
  ghost predicate Collects(c: C.State, es: seq<Event>, k: nat, n: nat, r: Addr, i: int, b: int, v: Value)
    requires n <= |es|
  {
    && i in c.proto
    && var e := c.proto[i];
       if |Responders(es, k, n, r, i)| < c.quorum then
         e == C.Entry(v, Best(es, k, n, r, i).0, Best(es, k, n, r, i).1, "", Responders(es, k, n, r, i), b)
       else e.nvalue != ""
  }

  lemma RespondersStep(es: seq<Event>, k: nat, n: nat, r: Addr, i: int)
    requires k < n < |es|
    ensures Responders(es, k, n + 1, r, i) ==
            if Gets(es[n], r, PREPARE_OK, i) then Responders(es, k, n, r, i) + {es[n].sent.packet.from}
            else Responders(es, k, n, r, i)
  {
  }

  lemma RespondersGrow(es: seq<Event>, k: nat, n: nat, r: Addr, i: int)
    requires k < n < |es|
    ensures |Responders(es, k, n, r, i)| <= |Responders(es, k, n + 1, r, i)|
  {
    RespondersStep(es, k, n, r, i);
    var a := Responders(es, k, n, r, i);
    if Gets(es[n], r, PREPARE_OK, i) && es[n].sent.packet.from in a {
      assert a + {es[n].sent.packet.from} == a;
    }
  }

  /** The choice is a value: reports of real votes and commands are never empty. */
  ghost predicate Solid(e: C.Entry) {
    e.pvalue != "" && (e.aproposal > 0 ==> e.avalue != "")
  }

  lemma CollectsAnswer(c: C.State, es: seq<Event>, k: nat, n: nat, r: Addr, i: int, b: int, v: Value)
    requires k < n < |es| && Gets(es[n], r, PREPARE_OK, i) && Collects(c, es, k, n, r, i, b, v)
    requires Solid(C.Count(c.proto[i], es[n].sent.packet))
    ensures Collects(C.Step(c, es[n].sent.packet).0, es, k, n + 1, r, i, b, v)
    ensures |Responders(es, k, n, r, i)| < c.quorum <= |Responders(es, k, n + 1, r, i)| ==>
              var best := Best(es, k, n + 1, r, i);
              C.Step(c, es[n].sent.packet).1 == Some(Msg(ACCEPT, b, if best.0 > 0 then best.1 else v, i))
  {
    RespondersStep(es, k, n, r, i);
    RespondersGrow(es, k, n, r, i);
  }

  lemma CollectsOther(c: C.State, es: seq<Event>, k: nat, n: nat, r: Addr, i: int, b: int, v: Value)
    requires k < n < |es| && !Gets(es[n], r, PREPARE_OK, i) && Collects(c, es, k, n, r, i, b, v)
    requires Opens(es[n], r) ==> c.instance + 1 != i
    requires es[n].Deliver? && es[n].r == r
    ensures Collects(C.Step(c, es[n].sent.packet).0, es, k, n + 1, r, i, b, v)
  {
    RespondersStep(es, k, n, r, i);
  }

  lemma CollectsElsewhere(c: C.State, es: seq<Event>, k: nat, n: nat, r: Addr, i: int, b: int, v: Value)
    requires k < n < |es| && Collects(c, es, k, n, r, i, b, v) && !(es[n].Deliver? && es[n].r == r)
    ensures Collects(c, es, k, n + 1, r, i, b, v)
  {
    RespondersStep(es, k, n, r, i);
  }

  /** Only the records and the quorum matter. */
  lemma SameRecords(c: C.State, c': C.State, es: seq<Event>, k: nat, n: nat, r: Addr, i: int, b: int, v: Value)
    requires n <= |es| && c'.proto == c.proto && c'.quorum == c.quorum && Collects(c, es, k, n, r, i, b, v)
    ensures Collects(c', es, k, n, r, i, b, v)
  {
  }

  lemma CountIsSolid(cfg: Config, w: World, r: Addr, s: Sent)
    requires Inv(cfg, w) && r in cfg.pos && s in w.net && s.packet.msg.typ == PREPARE_OK
    requires s.packet.msg.instance in w.reps[r].c.proto
    ensures Solid(C.Count(w.reps[r].c.proto[s.packet.msg.instance], s.packet))
  {
    var m := s.packet.msg;
    assert ReplicaOk(cfg, r, w.reps[r], w.net, w.proposed);
    assert EntryOk(cfg, r, m.instance, w.reps[r].c.proto[m.instance], w.reps[r].c.nextproposal, w.net, w.proposed);
    assert SentOk(cfg, w, s);
    if m.proposal > 0 {
      var v := Sent(Packet(Msg(ACCEPT_OK, m.proposal, m.value, m.instance), s.packet.from), 0);
      assert SentOk(cfg, w, v);
    }
  }

  ghost predicate RecordsMove(c: C.State, c': C.State, e: Event, r: Addr) {
    c'.quorum == c.quorum && c'.proto == if e.Deliver? && e.r == r then C.Step(c, e.sent.packet).0.proto else c.proto
  }

  lemma QuorumStays(c: C.State, p: Packet)
    ensures C.Step(c, p).0.quorum == c.quorum
  {
  }

  lemma ReplicaRecords(s: R.State, p: Packet)
    ensures R.Step(s, p).0.c.quorum == s.c.quorum && R.Step(s, p).0.c.proto == C.Step(s.c, p).0.proto
  {
    R.StepParts(s, p);
    QuorumStays(s.c, p);
  }

  lemma RecordsNext(w: World, e: Event, r: Addr)
    requires Enabled(w, e) && r in w.reps
    ensures r in Next(w, e).reps && RecordsMove(w.reps[r].c, Next(w, e).reps[r].c, e, r)
  {
    if e.Deliver? && e.r == r {
      ReplicaRecords(w.reps[r], e.sent.packet);
    }
  }

  lemma CollectsMoves(c: C.State, c': C.State, es: seq<Event>, k: nat, n: nat, r: Addr, i: int, b: int, v: Value)
    requires k < n < |es| && Collects(c, es, k, n, r, i, b, v) && RecordsMove(c, c', es[n], r)
    requires Gets(es[n], r, PREPARE_OK, i) ==> Solid(C.Count(c.proto[i], es[n].sent.packet))
    requires Opens(es[n], r) ==> c.instance + 1 != i
    ensures Collects(c', es, k, n + 1, r, i, b, v)
  {
    if es[n].Deliver? && es[n].r == r {
      var next := C.Step(c, es[n].sent.packet).0;
      if Gets(es[n], r, PREPARE_OK, i) {
        CollectsAnswer(c, es, k, n, r, i, b, v);
      } else {
        CollectsOther(c, es, k, n, r, i, b, v);
      }
      SameRecords(next, c', es, k, n + 1, r, i, b, v);
    } else {
      CollectsElsewhere(c, es, k, n, r, i, b, v);
      SameRecords(c, c', es, k, n + 1, r, i, b, v);
    }
  }

  lemma CollectsStep(cfg: Config, w: World, es: seq<Event>, k: nat, n: nat, r: Addr, i: int, b: int, v: Value)
    requires Inv(cfg, w) && k < n < |es| && Enabled(w, es[n]) && r in cfg.pos
    requires Collects(w.reps[r].c, es, k, n, r, i, b, v)
    requires Opens(es[n], r) ==> w.reps[r].c.instance + 1 != i
    ensures r in Next(w, es[n]).reps && Collects(Next(w, es[n]).reps[r].c, es, k, n + 1, r, i, b, v)
  {
    RecordsNext(w, es[n], r);
    if Gets(es[n], r, PREPARE_OK, i) {
      CountIsSolid(cfg, w, r, es[n].sent);
    }
    CollectsMoves(w.reps[r].c, Next(w, es[n]).reps[r].c, es, k, n, r, i, b, v);
  }

  lemma CollectsAt(cfg: Config, ws: seq<World>, es: seq<Event>, k: nat, n: nat, r: Addr, i: int, b: int, v: Value)
    requires WellFormed(cfg) && Run(cfg, ws, es) && r in cfg.pos && n < |es| && Opened(ws, es, k, n + 1, r, i, b, v)
    requires k < n && r in ws[n].reps && Collects(ws[n].reps[r].c, es, k, n, r, i, b, v)
    ensures r in ws[n + 1].reps && Collects(ws[n + 1].reps[r].c, es, k, n + 1, r, i, b, v)
  {
    RunInv(cfg, ws, es, n);
    StepAt(cfg, ws, es, n);
    CollectsStep(cfg, ws[n], es, k, n, r, i, b, v);
  }

  lemma CollectsFirst(cfg: Config, ws: seq<World>, es: seq<Event>, k: nat, r: Addr, i: int, b: int, v: Value)
    requires WellFormed(cfg) && Run(cfg, ws, es) && r in cfg.pos && cfg.quorum > 0
    requires k < |es| && Opened(ws, es, k, k + 1, r, i, b, v)
    ensures r in ws[k + 1].reps && Collects(ws[k + 1].reps[r].c, es, k, k + 1, r, i, b, v)
  {
    RunInv(cfg, ws, es, k);
    StepAt(cfg, ws, es, k);
    ReplicaRecords(ws[k].reps[r], es[k].sent.packet);
    assert ReplicaOk(cfg, r, ws[k].reps[r], ws[k].net, ws[k].proposed);
    assert Responders(es, k, k + 1, r, i) == {};
  }

  lemma {:induction false} RunCollects(cfg: Config, ws: seq<World>, es: seq<Event>, k: nat, n: nat, r: Addr, i: int,
                                       b: int, v: Value)
    requires WellFormed(cfg) && Run(cfg, ws, es) && r in cfg.pos && cfg.quorum > 0
    requires Opened(ws, es, k, n, r, i, b, v)
    ensures r in ws[n].reps && Collects(ws[n].reps[r].c, es, k, n, r, i, b, v)
    decreases n
  {
    if n == k + 1 {
      CollectsFirst(cfg, ws, es, k, r, i, b, v);
    } else {
      RunCollects(cfg, ws, es, k, n - 1, r, i, b, v);
      CollectsAt(cfg, ws, es, k, n - 1, r, i, b, v);
    }
  }

  lemma CoordinatorSends(w: World, e: Event, m: Msg)
    requires Enabled(w, e) && e.Deliver? && C.Step(w.reps[e.r].c, e.sent.packet).1 == Some(m) && m.typ != PREPARE_OK
    ensures Sends(Next(w, e).net, e.r, m)
  {
    R.StepOutput(w.reps[e.r], e.sent.packet);
    assert m in ToSeq(C.Step(w.reps[e.r].c, e.sent.packet).1);
    assert m in R.Step(w.reps[e.r], e.sent.packet).1.sent;
    assert Label(e.r, e.sent.packet, m) in Next(w, e).net;
  }

  /** In every run, when the answers since r opened the instance first come from a quorum, r proposes with
      the ballot it opened it with: the value of the highest vote they report, or the command it opened
      it for if they report none. */
  lemma ProposesOnQuorum(cfg: Config, ws: seq<World>, es: seq<Event>, k: nat, n: nat, r: Addr, i: int, b: int, v: Value)
    requires WellFormed(cfg) && Run(cfg, ws, es) && r in cfg.pos && cfg.quorum > 0 && n < |es|
    requires Opened(ws, es, k, n, r, i, b, v)
    requires |Responders(es, k, n, r, i)| < cfg.quorum <= |Responders(es, k, n + 1, r, i)|
    ensures var best := Best(es, k, n + 1, r, i);
            Sends(ws[n + 1].net, r, Msg(ACCEPT, b, if best.0 > 0 then best.1 else v, i))
  {
    RunCollects(cfg, ws, es, k, n, r, i, b, v);
    RespondersStep(es, k, n, r, i);
    QuorumProposes(cfg, ws, es, k, n, r, i, b, v);
  }

  lemma QuorumProposes(cfg: Config, ws: seq<World>, es: seq<Event>, k: nat, n: nat, r: Addr, i: int, b: int, v: Value)
    requires WellFormed(cfg) && Run(cfg, ws, es) && r in cfg.pos && k < n < |es|
    requires Gets(es[n], r, PREPARE_OK, i) && r in ws[n].reps && Collects(ws[n].reps[r].c, es, k, n, r, i, b, v)
    requires |Responders(es, k, n, r, i)| < cfg.quorum <= |Responders(es, k, n + 1, r, i)|
    ensures var best := Best(es, k, n + 1, r, i);
            Sends(ws[n + 1].net, r, Msg(ACCEPT, b, if best.0 > 0 then best.1 else v, i))
  {
    var best := Best(es, k, n + 1, r, i);
    RunInv(cfg, ws, es, n);
    StepAt(cfg, ws, es, n);
    assert ReplicaOk(cfg, r, ws[n].reps[r], ws[n].net, ws[n].proposed);
    CountIsSolid(cfg, ws[n], r, es[n].sent);
    CollectsAnswer(ws[n].reps[r].c, es, k, n, r, i, b, v);
    CoordinatorSends(ws[n], es[n], Msg(ACCEPT, b, if best.0 > 0 then best.1 else v, i));
  }
}
