/** How to drive replicas through chosen deliveries. Whatever else a run has done, a PREPARE, its answers,
    an ACCEPT and the votes for it can be delivered one after the other to any set of replicas, and each
    of these phases leaves everything else about the instance as it was. Two unanswered commands first
    bring a coordinator to a positive ballot, so that this works for node positions of any sign. */
module PaxosScenarios {
  import opened PaxosMessages
  import opened PaxosSystem
  import opened PaxosInvariants
  import opened PaxosSafety
  import Codec
  import C = PaxosCoordinator
  import L = PaxosLearner
  import A = PaxosAcceptor
  import R = PaxosReplica

  /** The instance that the runs here disagree on: whatever the node positions, the third ballot of
      every coordinator is positive. */
  const SLOT := 3

  /** What matters at a replica while that instance is being decided. */
  datatype Local = Local(self: Addr, nodepos: int, c: C.State, le: L.Entry, ae: A.Entry, votesNeeded: int)

  function LocalOf(s: R.State): Local {
    Local(s.self, s.nodepos, s.c, L.Get(s.l, SLOT), A.Get(s.a, SLOT), s.l.quorum)
  }

  function View(w: World, r: Addr): Local
    requires r in w.reps
  {
    LocalOf(w.reps[r])
  }

  /** A run that ends in w, a disciplined one if d is set. */
  ghost predicate Reaches(cfg: Config, d: bool, ws: seq<World>, es: seq<Event>, w: World) {
    Run(cfg, ws, es) && ws[|es|] == w && (d ==> Disciplined(ws, es))
  }

  ghost predicate Reachable(cfg: Config, d: bool, w: World) {
    exists ws, es :: Reaches(cfg, d, ws, es, w)
  }

  lemma ReachableStep(cfg: Config, d: bool, w: World, e: Event)
    requires cfg.pos != map[] && Reachable(cfg, d, w) && Enabled(w, e) && (d ==> AnswersCurrentBallot(w, e))
    ensures Reachable(cfg, d, Next(w, e))
  {
    var ws, es :| Reaches(cfg, d, ws, es, w);
    OneMoreStep(cfg, ws, es, e);
    assert Reaches(cfg, d, ws + [Next(w, e)], es + [e], Next(w, e));
  }

  lemma ReachableClosed(cfg: Config, d: bool)
    requires cfg.pos != map[]
    ensures Closed(w => Reachable(cfg, d, w), d)
  {
    forall w, e | Enabled(w, e) && Reachable(cfg, d, w) && (d ==> AnswersCurrentBallot(w, e))
      ensures Reachable(cfg, d, Next(w, e))
    {
      ReachableStep(cfg, d, w, e);
    }
  }

  /** Only the replicas in `changed` look different, and no packet has gone. */
  ghost predicate Grown(w: World, w': World, changed: set<Addr>) {
    && w'.reps.Keys == w.reps.Keys && w.net <= w'.net
    && forall r :: r in w.reps && r !in changed ==> View(w', r) == View(w, r)
  }

  // ---- one packet at one replica ----

  lemma ProposeStep(s: R.State, p: Packet)
    requires p.msg.typ == PROPOSE && p.msg.instance == 0
    ensures LocalOf(R.Step(s, p).0) == LocalOf(s).(c := C.Step(s.c, p).0)
    ensures Msg(PREPARE, s.c.nextproposal, "", s.c.instance + 1) in R.Step(s, p).1.sent
    ensures R.Step(s, p).0.proposeCounter == s.proposeCounter
  {
    R.StepParts(s, p);
    OthersIdle(s, p);
  }

  lemma OthersIdle(s: R.State, p: Packet)
    requires p.msg.typ == PROPOSE && p.msg.instance == 0
    ensures L.Step(s.l, p).1.learnt == 0 && L.Step(s.l, p).0.quorum == s.l.quorum
    ensures L.Get(L.Step(s.l, p).0, SLOT) == L.Get(s.l, SLOT)
    ensures A.Get(A.Step(s.a, p).0, SLOT) == A.Get(s.a, SLOT)
  {
  }

  lemma PromiseStep(s: R.State, p: Packet)
    requires p.msg == Msg(PREPARE_OK, 0, "", SLOT)
    requires SLOT in s.c.proto && s.c.proto[SLOT].nvalue == "" && s.c.proto[SLOT].aproposal == 0
    ensures var e := s.c.proto[SLOT].(responses := s.c.proto[SLOT].responses + {p.from});
            var t := R.Step(s, p);
            && LocalOf(t.0) == LocalOf(s).(c := t.0.c)
            && (|e.responses| < s.c.quorum ==> t.0.c == s.c.(proto := s.c.proto[SLOT := e]))
            && (|e.responses| >= s.c.quorum ==> Msg(ACCEPT, e.proposal, e.pvalue, SLOT) in t.1.sent)
  {
    R.StepParts(s, p);
  }

  // ---- whole phases ----

  lemma GrownTwice(w: World, w1: World, w2: World, s: set<Addr>)
    requires Grown(w, w1, s) && Grown(w1, w2, s)
    ensures Grown(w, w2, s)
  {
  }

  lemma GrownMore(w: World, w': World, s: set<Addr>, t: set<Addr>)
    requires Grown(w, w', s) && s <= t
    ensures Grown(w, w', t)
  {
  }

  lemma Elsewhere(w: World, w': World, s: set<Addr>, x: Addr)
    requires Grown(w, w', s) && x in w.reps
    ensures x in w'.reps && (x !in s ==> View(w', x) == View(w, x))
  {
  }

  lemma SentBy(w: World, e: Event, m: Msg)
    requires Enabled(w, e) && e.Deliver? && m in R.Step(w.reps[e.r], e.sent.packet).1.sent
    ensures Label(e.r, e.sent.packet, m) in Next(w, e).net
  {
    assert Label(e.r, e.sent.packet, m) in Emitted(e.r, e.sent.packet, R.Step(w.reps[e.r], e.sent.packet).1);
  }

  ghost predicate Prepared(w: World, w': World, b: int, x: Addr) {
    && x in w.reps && x in w'.reps && View(w', x) == View(w, x).(ae := A.Entry(b, "", 0))
    && Sent(Packet(Msg(PREPARE_OK, 0, "", SLOT), x), b) in w'.net
  }

  lemma PrepareOne(inv: World -> bool, d: bool, w: World, p: Addr, b: int, x: Addr)
    returns (w': World)
    requires Closed(inv, d) && inv(w) && x in w.reps
    requires Sends(w.net, p, Msg(PREPARE, b, "", SLOT)) && b > 0 && View(w, x).ae == A.FRESH
    ensures inv(w') && Grown(w, w', {x})
    ensures Prepared(w, w', b, x)
  {
    var e := Deliver(x, Sent(Packet(Msg(PREPARE, b, "", SLOT), p), 0));
    w' := Next(w, e);
    SentBy(w, e, Msg(PREPARE_OK, 0, "", SLOT));
  }

  /** PREPARE of ballot b reaches every acceptor of s. */
  lemma {:induction false} PrepareAll(inv: World -> bool, d: bool, w: World, p: Addr, b: int, s: set<Addr>)
    returns (w': World)
    requires Closed(inv, d) && inv(w) && s <= w.reps.Keys
    requires Sends(w.net, p, Msg(PREPARE, b, "", SLOT)) && b > 0
    requires forall x :: x in s ==> View(w, x).ae == A.FRESH
    ensures inv(w') && Grown(w, w', s)
    ensures forall x :: x in s ==> Prepared(w, w', b, x)
    decreases |s|
  {
    if s == {} {
      w' := w;
    } else {
      var x :| x in s;
      var v := PrepareAll(inv, d, w, p, b, s - {x});
      Elsewhere(w, v, s - {x}, x);
      w' := PrepareOne(inv, d, v, p, b, x);
      PreparedOneMore(w, v, w', b, s, x);
    }
  }

  lemma PreparedOneMore(w: World, v: World, w': World, b: int, s: set<Addr>, x: Addr)
    requires x in s && Grown(w, v, s - {x}) && (forall y :: y in s - {x} ==> Prepared(w, v, b, y))
    requires Grown(v, w', {x}) && x in w.reps && Prepared(v, w', b, x)
    ensures Grown(w, w', s) && forall y :: y in s ==> Prepared(w, w', b, y)
  {
    Elsewhere(w, v, s - {x}, x);
    GrownMore(w, v, s - {x}, s);
    GrownMore(v, w', {x}, s);
    GrownTwice(w, v, w', s);
    forall y | y in s
      ensures Prepared(w, w', b, y)
    {
      if y != x {
        assert Prepared(w, v, b, y);
        Elsewhere(v, w', {x}, y);
      }
    }
  }

  ghost predicate Voted(w: World, w': World, b: int, v: Value, x: Addr) {
    && x in w.reps && x in w'.reps && View(w', x) == View(w, x).(ae := A.Entry(b, v, b))
    && Sends(w'.net, x, Msg(ACCEPT_OK, b, v, SLOT))
  }

  lemma AcceptOne(inv: World -> bool, d: bool, w: World, p: Addr, b: int, v: Value, x: Addr)
    returns (w': World)
    requires Closed(inv, d) && inv(w) && x in w.reps
    requires Sends(w.net, p, Msg(ACCEPT, b, v, SLOT))
    requires View(w, x).ae.proposal <= b && View(w, x).ae.proposalAccepted != b
    ensures inv(w') && Grown(w, w', {x})
    ensures Voted(w, w', b, v, x)
  {
    var e := Deliver(x, Sent(Packet(Msg(ACCEPT, b, v, SLOT), p), 0));
    w' := Next(w, e);
    SentBy(w, e, Msg(ACCEPT_OK, b, v, SLOT));
  }

  /** ACCEPT of ballot b reaches every acceptor of s. */
  lemma {:induction false} AcceptAll(inv: World -> bool, d: bool, w: World, p: Addr, b: int, v: Value, s: set<Addr>)
    returns (w': World)
    requires Closed(inv, d) && inv(w) && s <= w.reps.Keys
    requires Sends(w.net, p, Msg(ACCEPT, b, v, SLOT))
    requires forall x :: x in s ==> View(w, x).ae.proposal <= b && View(w, x).ae.proposalAccepted != b
    ensures inv(w') && Grown(w, w', s)
    ensures forall x :: x in s ==> Voted(w, w', b, v, x)
    decreases |s|
  {
    if s == {} {
      w' := w;
    } else {
      var x :| x in s;
      var u := AcceptAll(inv, d, w, p, b, v, s - {x});
      Elsewhere(w, u, s - {x}, x);
      w' := AcceptOne(inv, d, u, p, b, v, x);
      VotedOneMore(w, u, w', b, v, s, x);
    }
  }

  lemma VotedOneMore(w: World, u: World, w': World, b: int, v: Value, s: set<Addr>, x: Addr)
    requires x in s && Grown(w, u, s - {x}) && (forall y :: y in s - {x} ==> Voted(w, u, b, v, y))
    requires Grown(u, w', {x}) && x in w.reps && Voted(u, w', b, v, x)
    ensures Grown(w, w', s) && forall y :: y in s ==> Voted(w, w', b, v, y)
  {
    Elsewhere(w, u, s - {x}, x);
    GrownMore(w, u, s - {x}, s);
    GrownMore(u, w', {x}, s);
    GrownTwice(w, u, w', s);
    forall y | y in s
      ensures Voted(w, w', b, v, y)
    {
      if y != x {
        assert Voted(w, u, b, v, y);
        Elsewhere(u, w', {x}, y);
      }
    }
  }

  /** p is running ballot b for v in the instance and has counted the answers of t. */
  ghost predicate Collecting(l: Local, b: int, v: Value, t: set<Addr>) {
    SLOT in l.c.proto && l.c.proto[SLOT] == C.NewEntry(v, b).(responses := t)
  }

  /** A PREPARE_OK that answers ballot a is counted towards ballot b. */
  lemma PromiseOne(inv: World -> bool, d: bool, w: World, p: Addr, b: int, v: Value, a: int, t: set<Addr>, x: Addr)
    returns (w': World)
    requires Closed(inv, d) && inv(w) && p in w.reps && (d ==> a == b)
    requires Sent(Packet(Msg(PREPARE_OK, 0, "", SLOT), x), a) in w.net
    requires Collecting(View(w, p), b, v, t)
    ensures inv(w') && Grown(w, w', {p})
    ensures View(w', p) == View(w, p).(c := View(w', p).c)
    ensures |t + {x}| < View(w, p).c.quorum ==>
              Collecting(View(w', p), b, v, t + {x}) && View(w', p).c.quorum == View(w, p).c.quorum
    ensures |t + {x}| >= View(w, p).c.quorum ==> Sends(w'.net, p, Msg(ACCEPT, b, v, SLOT))
  {
    var e := Deliver(p, Sent(Packet(Msg(PREPARE_OK, 0, "", SLOT), x), a));
    w' := Next(w, e);
    PromiseStep(w.reps[p], e.sent.packet);
    if |t + {x}| >= View(w, p).c.quorum {
      SentBy(w, e, Msg(ACCEPT, b, v, SLOT));
    }
  }

  /** The answers of s, all to ballot a, are counted by p one after the other. */
  lemma {:induction false} PromiseAll(inv: World -> bool, d: bool, w: World, p: Addr, b: int, v: Value, a: int,
                                      s: set<Addr>)
    returns (w': World)
    requires Closed(inv, d) && inv(w) && p in w.reps && (d ==> a == b)
    requires forall x :: x in s ==> Sent(Packet(Msg(PREPARE_OK, 0, "", SLOT), x), a) in w.net
    requires Collecting(View(w, p), b, v, {}) && |s| <= View(w, p).c.quorum
    ensures inv(w') && Grown(w, w', {p})
    ensures View(w', p) == View(w, p).(c := View(w', p).c)
    ensures |s| < View(w, p).c.quorum ==>
              Collecting(View(w', p), b, v, s) && View(w', p).c.quorum == View(w, p).c.quorum
    ensures |s| == View(w, p).c.quorum > 0 ==> Sends(w'.net, p, Msg(ACCEPT, b, v, SLOT))
    decreases |s|
  {
    if s == {} {
      w' := w;
    } else {
      var x :| x in s;
      var u := PromiseAll(inv, d, w, p, b, v, a, s - {x});
      assert s - {x} + {x} == s;
      w' := PromiseOne(inv, d, u, p, b, v, a, s - {x}, x);
    }
  }

  /** p's learner has counted the votes of t for v at ballot b. */
  ghost predicate Voting(l: Local, b: int, v: Value, t: set<Addr>) {
    && !l.le.commit
    && if t == {} then l.le == L.FRESH else l.le.proposal == b && l.le.responses == t && L.Votes(l.le, v) == |t|
  }

  lemma VoteOne(inv: World -> bool, d: bool, w: World, p: Addr, b: int, v: Value, t: set<Addr>, x: Addr)
    returns (w': World)
    requires Closed(inv, d) && inv(w) && p in w.reps && b > 0
    requires Sends(w.net, x, Msg(ACCEPT_OK, b, v, SLOT)) && x !in t
    requires Voting(View(w, p), b, v, t)
    ensures inv(w') && Grown(w, w', {p})
    ensures View(w', p) == View(w, p).(c := View(w', p).c, le := View(w', p).le)
    ensures |t| + 1 < View(w, p).votesNeeded ==> Voting(View(w', p), b, v, t + {x}) && View(w', p).c == View(w, p).c
    ensures |t| + 1 >= View(w, p).votesNeeded ==> Committed(w', p, SLOT, v)
  {
    var e := Deliver(p, Sent(Packet(Msg(ACCEPT_OK, b, v, SLOT), x), 0));
    w' := Next(w, e);
    R.StepParts(w.reps[p], e.sent.packet);
  }

  /** The votes of s reach p's learner. */
  lemma {:induction false} VoteAll(inv: World -> bool, d: bool, w: World, p: Addr, b: int, v: Value, s: set<Addr>)
    returns (w': World)
    requires Closed(inv, d) && inv(w) && p in w.reps && b > 0
    requires forall x :: x in s ==> Sends(w.net, x, Msg(ACCEPT_OK, b, v, SLOT))
    requires View(w, p).le == L.FRESH && |s| <= View(w, p).votesNeeded
    ensures inv(w') && Grown(w, w', {p})
    ensures View(w', p) == View(w, p).(c := View(w', p).c, le := View(w', p).le)
    ensures |s| < View(w, p).votesNeeded ==> Voting(View(w', p), b, v, s)
    ensures |s| == View(w, p).votesNeeded > 0 ==> Committed(w', p, SLOT, v)
    decreases |s|
  {
    if s == {} {
      w' := w;
    } else {
      var x :| x in s;
      var u := VoteAll(inv, d, w, p, b, v, s - {x});
      assert s - {x} + {x} == s;
      w' := VoteOne(inv, d, u, p, b, v, s - {x}, x);
    }
  }

  // ---- getting to a positive ballot ----

  function NextBallot(cfg: Config, b: int): int
    requires cfg.pos != map[]
  {
    C.SkipBelow(b + |cfg.pos|, |cfg.pos|, 0)
  }

  function ThirdBallot(cfg: Config, r: Addr): int
    requires r in cfg.pos
  {
    NextBallot(cfg, NextBallot(cfg, cfg.pos[r]))
  }

  /** The first step already reaches zero, and the second goes beyond. */
  lemma ThirdBallotOk(cfg: Config, r: Addr)
    requires r in cfg.pos
    ensures ThirdBallot(cfg, r) > 0 && ThirdBallot(cfg, r) % |cfg.pos| == cfg.pos[r] % |cfg.pos|
  {
    var n := |cfg.pos|;
    var b := NextBallot(cfg, cfg.pos[r]);
    C.SkipBelowKeepsResidue(cfg.pos[r] + n, n, 0);
    C.SkipBelowKeepsResidue(b + n, n, 0);
    C.AddModulus(cfg.pos[r], n);
    C.AddModulus(b, n);
  }

  /** The coordinator of r has opened some instances and will use ballot b next; nothing has happened
      in the instance at hand. */
  ghost predicate Ready(cfg: Config, r: Addr, l: Local, count: int, b: int)
    requires r in cfg.pos
  {
    && l.self == r && l.nodepos == cfg.pos[r]
    && l.c.instance == count && l.c.nextproposal == b && l.c.quorum == cfg.quorum
    && l.c.nodes == |cfg.pos| && l.c.highproposal == 0
    && Untouched(cfg, l)
  }

  ghost predicate Untouched(cfg: Config, l: Local) {
    l.le == L.FRESH && l.ae == A.FRESH && l.votesNeeded == cfg.quorum
  }

  lemma InitReady(cfg: Config)
    requires WellFormed(cfg)
    ensures Reachable(cfg, true, Init(cfg)) && Reachable(cfg, false, Init(cfg))
    ensures Init(cfg).reps.Keys == cfg.pos.Keys
    ensures forall r :: r in cfg.pos ==> Ready(cfg, r, View(Init(cfg), r), 0, cfg.pos[r])
  {
    assert Reaches(cfg, true, [Init(cfg)], [], Init(cfg));
    assert Reaches(cfg, false, [Init(cfg)], [], Init(cfg));
  }

  lemma OpenedInstance(cfg: Config, p: Addr, l: Local, q: Packet, count: int, b: int)
    requires p in cfg.pos && Ready(cfg, p, l, count, b) && q.msg.typ == PROPOSE
    ensures Ready(cfg, p, l.(c := C.Step(l.c, q).0), count + 1, NextBallot(cfg, b))
    ensures var c := C.Step(l.c, q).0;
            count + 1 in c.proto && c.proto[count + 1] == C.NewEntry(q.msg.value, b)
  {
  }

  /** The queued PROPOSE makes p open its next instance with its next ballot. */
  lemma HandleProposal(inv: World -> bool, d: bool, w: World, p: Addr, q: Packet) returns (w': World)
    requires Closed(inv, d) && inv(w) && p in w.reps && q.from == p && Sent(q, 0) in w.net
    requires q.msg.typ == PROPOSE && q.msg.instance == 0
    ensures inv(w') && Grown(w, w', {p})
    ensures View(w', p) == View(w, p).(c := C.Step(View(w, p).c, q).0)
    ensures Sends(w'.net, p, Msg(PREPARE, View(w, p).c.nextproposal, "", View(w, p).c.instance + 1))
  {
    var e := Deliver(p, Sent(q, 0));
    w' := Next(w, e);
    ProposeStep(w.reps[p], q);
    SentBy(w, e, Msg(PREPARE, w.reps[p].c.nextproposal, "", w.reps[p].c.instance + 1));
  }

  /** p takes a command and opens its next instance with its next ballot. */
  lemma OpenNext(cfg: Config, inv: World -> bool, d: bool, w: World, p: Addr, command: string, count: int, b: int)
    returns (w': World, v: Value)
    requires Closed(inv, d) && inv(w) && p in w.reps && p in cfg.pos && Ready(cfg, p, View(w, p), count, b)
    ensures inv(w') && Grown(w, w', {p})
    ensures View(w', p) == View(w, p).(c := View(w', p).c)
    ensures Ready(cfg, p, View(w', p), count + 1, NextBallot(cfg, b))
    ensures count + 1 in View(w', p).c.proto && View(w', p).c.proto[count + 1] == C.NewEntry(v, b)
    ensures Sends(w'.net, p, Msg(PREPARE, b, "", count + 1))
    ensures exists k: nat :: v == Codec.ModifiedValue(cfg.pos[p], k, command)
  {
    var q := R.Proposal(w.reps[p], command);
    v := q.msg.value;
    var u := TakeCommand(inv, d, w, p, command);
    w' := HandleProposal(inv, d, u, p, q);
    OpenedInstance(cfg, p, View(u, p), q, count, b);
    GrownTwice(w, u, w', {p});
  }

  lemma TakeCommand(inv: World -> bool, d: bool, w: World, p: Addr, command: string) returns (w': World)
    requires Closed(inv, d) && inv(w) && p in w.reps
    ensures inv(w') && Grown(w, w', {p}) && View(w', p) == View(w, p)
    ensures Sent(R.Proposal(w.reps[p], command), 0) in w'.net
  {
    w' := Next(w, Propose(p, command));
  }

  /** Two commands that nobody answers bring p to its third ballot. */
  lemma WarmUp(cfg: Config, inv: World -> bool, d: bool, w: World, p: Addr)
    returns (w': World)
    requires Closed(inv, d) && inv(w) && p in w.reps && p in cfg.pos && Ready(cfg, p, View(w, p), 0, cfg.pos[p])
    ensures inv(w') && Grown(w, w', {p})
    ensures View(w', p) == View(w, p).(c := View(w', p).c)
    ensures Ready(cfg, p, View(w', p), 2, ThirdBallot(cfg, p))
  {
    var w1, v1 := OpenNext(cfg, inv, d, w, p, "", 0, cfg.pos[p]);
    var w2, v2 := OpenNext(cfg, inv, d, w1, p, "", 1, NextBallot(cfg, cfg.pos[p]));
    w' := w2;
    GrownTwice(w, w1, w', {p});
  }

  // ---- rounds ----

  /** p takes a command and opens the instance with its third ballot. */
  lemma Open(cfg: Config, inv: World -> bool, d: bool, w: World, p: Addr, command: string)
    returns (w': World, v: Value)
    requires Closed(inv, d) && inv(w) && p in w.reps && p in cfg.pos && Ready(cfg, p, View(w, p), 0, cfg.pos[p])
    ensures inv(w') && Grown(w, w', {p})
    ensures View(w', p) == View(w, p).(c := View(w', p).c) && View(w', p).c.quorum == View(w, p).c.quorum
    ensures Collecting(View(w', p), ThirdBallot(cfg, p), v, {})
    ensures Sends(w'.net, p, Msg(PREPARE, ThirdBallot(cfg, p), "", SLOT))
    ensures exists k: nat :: v == Codec.ModifiedValue(cfg.pos[p], k, command)
  {
    var u := WarmUp(cfg, inv, d, w, p);
    var w1, v1 := OpenNext(cfg, inv, d, u, p, command, 2, ThirdBallot(cfg, p));
    w', v := w1, v1;
    GrownTwice(w, u, w', {p});
  }

  /** The acceptors of s answer the ballot of p, which is proposing v. */
  lemma Elect(inv: World -> bool, w: World, p: Addr, b: int, v: Value, s: set<Addr>)
    returns (w': World)
    requires Closed(inv, true) && inv(w) && p in s && s <= w.reps.Keys && b > 0
    requires Collecting(View(w, p), b, v, {}) && Sends(w.net, p, Msg(PREPARE, b, "", SLOT))
    requires |s| == View(w, p).c.quorum
    requires forall x :: x in s ==> View(w, x).ae == A.FRESH
    ensures inv(w') && Grown(w, w', s) && Sends(w'.net, p, Msg(ACCEPT, b, v, SLOT))
    ensures forall x :: x in s ==> View(w', x) == View(w, x).(c := View(w', x).c, ae := A.Entry(b, "", 0))
  {
    var u := PrepareAll(inv, true, w, p, b, s);
    assert Prepared(w, u, b, p);
    w' := PromiseAll(inv, true, u, p, b, v, b, s);
    GrownMore(u, w', {p}, s);
    GrownTwice(w, u, w', s);
    forall x | x in s
      ensures View(w', x) == View(w, x).(c := View(w', x).c, ae := A.Entry(b, "", 0))
    {
      assert Prepared(w, u, b, x);
      Elsewhere(u, w', {p}, x);
    }
  }

  /** The acceptors of s accept v at ballot b, and p's learner hears of it. */
  lemma Decide(inv: World -> bool, d: bool, w: World, p: Addr, b: int, v: Value, s: set<Addr>)
    returns (w': World)
    requires Closed(inv, d) && inv(w) && p in w.reps && s <= w.reps.Keys && b > 0
    requires Sends(w.net, p, Msg(ACCEPT, b, v, SLOT))
    requires forall x :: x in s ==> View(w, x).ae.proposal <= b && View(w, x).ae.proposalAccepted != b
    requires View(w, p).le == L.FRESH && |s| == View(w, p).votesNeeded > 0
    ensures inv(w') && Grown(w, w', s + {p}) && Committed(w', p, SLOT, v)
    ensures forall x :: x in s ==> View(w', x).ae == A.Entry(b, v, b)
    ensures forall x :: x in w.reps && x != p ==>
                          View(w', x).le == View(w, x).le && View(w', x).votesNeeded == View(w, x).votesNeeded
  {
    var u := AcceptAll(inv, d, w, p, b, v, s);
    forall x | x in s
      ensures Sends(u.net, x, Msg(ACCEPT_OK, b, v, SLOT))
    {
      assert Voted(w, u, b, v, x);
    }
    w' := VoteAll(inv, d, u, p, b, v, s);
    GrownMore(w, u, s, s + {p});
    GrownMore(u, w', {p}, s + {p});
    GrownTwice(w, u, w', s + {p});
    forall x | x in w.reps
      ensures x in s ==> View(w', x).ae == A.Entry(b, v, b)
      ensures x != p ==> View(w', x).le == View(w, x).le && View(w', x).votesNeeded == View(w, x).votesNeeded
    {
      Elsewhere(u, w', {p}, x);
    }
  }

  /** p drives its third ballot through the acceptors of s and commits. */
  lemma SoloRound(cfg: Config, inv: World -> bool, w: World, p: Addr, command: string, s: set<Addr>)
    returns (w': World, v: Value)
    requires Closed(inv, true) && inv(w) && w.reps.Keys == cfg.pos.Keys && p in s && s <= cfg.pos.Keys
    requires |s| == cfg.quorum > 0
    requires forall x :: x in s ==> Ready(cfg, x, View(w, x), 0, cfg.pos[x])
    ensures inv(w') && Grown(w, w', s) && Committed(w', p, SLOT, v)
    ensures exists k: nat :: v == Codec.ModifiedValue(cfg.pos[p], k, command)
  {
    var w1, v1 := Open(cfg, inv, true, w, p, command);
    v := v1;
    GrownMore(w, w1, {p}, s);
    forall x | x in s
      ensures View(w1, x).ae == A.FRESH && View(w1, x).le == L.FRESH && View(w1, x).votesNeeded == cfg.quorum
    {
      Elsewhere(w, w1, {p}, x);
    }
    ThirdBallotOk(cfg, p);
    w' := ElectAndDecide(inv, w1, p, ThirdBallot(cfg, p), v, s);
    GrownTwice(w, w1, w', s);
  }

  lemma ElectAndDecide(inv: World -> bool, w: World, p: Addr, b: int, v: Value, s: set<Addr>)
    returns (w': World)
    requires Closed(inv, true) && inv(w) && p in s && s <= w.reps.Keys && b > 0
    requires Collecting(View(w, p), b, v, {}) && Sends(w.net, p, Msg(PREPARE, b, "", SLOT))
    requires |s| == View(w, p).c.quorum == View(w, p).votesNeeded > 0
    requires View(w, p).le == L.FRESH
    requires forall x :: x in s ==> View(w, x).ae == A.FRESH
    ensures inv(w') && Grown(w, w', s) && Committed(w', p, SLOT, v)
  {
    var u := Elect(inv, w, p, b, v, s);
    assert s + {p} == s;
    w' := Decide(inv, true, u, p, b, v, s);
    GrownTwice(w, u, w', s);
  }

  lemma DifferentNodes(cfg: Config, r: Addr, c: string, v: Value, r': Addr, c': string, v': Value)
    requires WellFormed(cfg) && r in cfg.pos && r' in cfg.pos && r != r'
    requires exists k: nat :: v == Codec.ModifiedValue(cfg.pos[r], k, c)
    requires exists k: nat :: v' == Codec.ModifiedValue(cfg.pos[r'], k, c')
    ensures v != v'
  {
    var k: nat :| v == Codec.ModifiedValue(cfg.pos[r], k, c);
    var k': nat :| v' == Codec.ModifiedValue(cfg.pos[r'], k', c');
    Codec.ModifiedInjective(cfg.pos[r], k, c, cfg.pos[r'], k', c');
  }

  /** No two replicas have committed different values for an instance. */
  ghost predicate Agreed(w: World) {
    forall r, r', i, v, v' :: Committed(w, r, i, v) && Committed(w, r', i, v') ==> v == v'
  }

  lemma OneReplica(cfg: Config, w: World)
    requires |cfg.pos| == 1 && w.reps.Keys == cfg.pos.Keys
    ensures Agreed(w)
  {
    var a :| a in cfg.pos;
    assert |cfg.pos.Keys - {a}| == 0;
    forall r | r in w.reps
      ensures r == a
    {
      assert r !in cfg.pos.Keys - {a};
    }
  }

  /** Different replicas have different third ballots. */
  lemma TwoReplicas(cfg: Config) returns (r: Addr, r': Addr)
    requires WellFormed(cfg) && |cfg.pos| >= 2
    ensures r in cfg.pos && r' in cfg.pos && 0 < ThirdBallot(cfg, r) < ThirdBallot(cfg, r')
  {
    var a :| a in cfg.pos;
    assert |cfg.pos.Keys - {a}| >= 1;
    var b :| b in cfg.pos.Keys - {a};
    ThirdBallotOk(cfg, a);
    ThirdBallotOk(cfg, b);
    if ThirdBallot(cfg, a) < ThirdBallot(cfg, b) {
      r, r' := a, b;
    } else {
      r, r' := b, a;
    }
  }

  /** Only r asks the acceptors, but both count the answers and send an ACCEPT. */
  lemma BothPropose(cfg: Config, inv: World -> bool, w: World, r: Addr, r': Addr, s: set<Addr>)
    returns (w': World, v: Value, v': Value)
    requires Closed(inv, false) && inv(w) && w.reps.Keys == cfg.pos.Keys && s <= cfg.pos.Keys
    requires r in cfg.pos && r' in cfg.pos && r != r' && |s| == cfg.quorum > 0
    requires forall x :: x in cfg.pos ==> Ready(cfg, x, View(w, x), 0, cfg.pos[x])
    ensures inv(w') && w'.reps.Keys == cfg.pos.Keys
    ensures Sends(w'.net, r, Msg(ACCEPT, ThirdBallot(cfg, r), v, SLOT))
    ensures Sends(w'.net, r', Msg(ACCEPT, ThirdBallot(cfg, r'), v', SLOT))
    ensures forall x :: x in s ==> View(w', x).ae == A.Entry(ThirdBallot(cfg, r), "", 0)
    ensures forall x :: x in cfg.pos ==> View(w', x).le == L.FRESH && View(w', x).votesNeeded == cfg.quorum
    ensures exists k: nat :: v == Codec.ModifiedValue(cfg.pos[r], k, "x")
    ensures exists k: nat :: v' == Codec.ModifiedValue(cfg.pos[r'], k, "y")
  {
    var w1, v1 := Open(cfg, inv, false, w, r, "x");
    Elsewhere(w, w1, {r}, r');
    var w2, v2 := Open(cfg, inv, false, w1, r', "y");
    v, v' := v1, v2;
    Elsewhere(w1, w2, {r'}, r);
    forall x | x in cfg.pos
      ensures View(w2, x) == View(w, x).(c := View(w2, x).c)
    {
      OnlyCoordinates(w, w1, r, x);
      OnlyCoordinates(w1, w2, r', x);
    }
    w' := BothCount(cfg, inv, w2, r, r', v, v', s);
  }

  lemma BothCount(cfg: Config, inv: World -> bool, w: World, r: Addr, r': Addr, v: Value, v': Value, s: set<Addr>)
    returns (w': World)
    requires Closed(inv, false) && inv(w) && w.reps.Keys == cfg.pos.Keys && s <= cfg.pos.Keys
    requires r in cfg.pos && r' in cfg.pos && r != r' && |s| == cfg.quorum > 0
    requires Collecting(View(w, r), ThirdBallot(cfg, r), v, {})
    requires Sends(w.net, r, Msg(PREPARE, ThirdBallot(cfg, r), "", SLOT))
    requires Collecting(View(w, r'), ThirdBallot(cfg, r'), v', {})
    requires View(w, r).c.quorum == View(w, r').c.quorum == cfg.quorum
    requires forall x :: x in s ==> View(w, x).ae == A.FRESH
    ensures inv(w') && w'.reps.Keys == cfg.pos.Keys
    ensures Sends(w'.net, r, Msg(ACCEPT, ThirdBallot(cfg, r), v, SLOT))
    ensures Sends(w'.net, r', Msg(ACCEPT, ThirdBallot(cfg, r'), v', SLOT))
    ensures forall x :: x in s ==> View(w', x).ae == A.Entry(ThirdBallot(cfg, r), "", 0)
    ensures forall x :: x in cfg.pos ==>
                          View(w', x).le == View(w, x).le && View(w', x).votesNeeded == View(w, x).votesNeeded
  {
    var b := ThirdBallot(cfg, r);
    ThirdBallotOk(cfg, r);
    var w1 := PrepareAll(inv, false, w, r, b, s);
    AfterPreparing(w, w1, b, s, r);
    AfterPreparing(w, w1, b, s, r');
    w' := PromiseBoth(inv, w1, r, r', b, ThirdBallot(cfg, r'), v, v', s);
    forall x | x in cfg.pos
      ensures View(w', x) == View(w, x).(c := View(w', x).c, ae := View(w', x).ae)
      ensures x in s ==> View(w', x).ae == A.Entry(b, "", 0)
    {
      AfterPreparing(w, w1, b, s, x);
    }
  }

  /** The answers to ballot b count at both coordinators. */
  lemma PromiseBoth(inv: World -> bool, w: World, r: Addr, r': Addr, b: int, b': int, v: Value, v': Value, s: set<Addr>)
    returns (w': World)
    requires Closed(inv, false) && inv(w) && r in w.reps && r' in w.reps && r != r' && |s| > 0
    requires forall x :: x in s ==> Sent(Packet(Msg(PREPARE_OK, 0, "", SLOT), x), b) in w.net
    requires Collecting(View(w, r), b, v, {}) && View(w, r).c.quorum == |s|
    requires Collecting(View(w, r'), b', v', {}) && View(w, r').c.quorum == |s|
    ensures inv(w') && w'.reps.Keys == w.reps.Keys
    ensures Sends(w'.net, r, Msg(ACCEPT, b, v, SLOT)) && Sends(w'.net, r', Msg(ACCEPT, b', v', SLOT))
    ensures forall x :: x in w.reps ==> View(w', x) == View(w, x).(c := View(w', x).c)
  {
    var w1 := PromiseAll(inv, false, w, r, b, v, b, s);
    Elsewhere(w, w1, {r}, r');
    w' := PromiseAll(inv, false, w1, r', b', v', b, s);
    forall x | x in w.reps
      ensures View(w', x) == View(w, x).(c := View(w', x).c)
    {
      OnlyCoordinates(w, w1, r, x);
      OnlyCoordinates(w1, w', r', x);
    }
  }

  /** Where only r's coordinator has moved. */
  lemma OnlyCoordinates(w: World, w': World, r: Addr, x: Addr)
    requires Grown(w, w', {r}) && r in w.reps && View(w', r) == View(w, r).(c := View(w', r).c) && x in w.reps
    ensures x in w'.reps && View(w', x) == View(w, x).(c := View(w', x).c)
  {
  }

  lemma AfterPreparing(w: World, w': World, b: int, s: set<Addr>, x: Addr)
    requires Grown(w, w', s) && x in w.reps && (x in s ==> Prepared(w, w', b, x))
    ensures x in w'.reps && View(w', x) == View(w, x).(ae := View(w', x).ae)
    ensures x in s ==> View(w', x).ae == A.Entry(b, "", 0)
  {
  }

  lemma BothCommit(cfg: Config, inv: World -> bool, w: World, r: Addr, r': Addr, v: Value, v': Value, s: set<Addr>)
    returns (w': World)
    requires Closed(inv, false) && inv(w) && w.reps.Keys == cfg.pos.Keys && s <= cfg.pos.Keys
    requires r in cfg.pos && r' in cfg.pos && 0 < ThirdBallot(cfg, r) < ThirdBallot(cfg, r') && |s| == cfg.quorum > 0
    requires Sends(w.net, r, Msg(ACCEPT, ThirdBallot(cfg, r), v, SLOT))
    requires Sends(w.net, r', Msg(ACCEPT, ThirdBallot(cfg, r'), v', SLOT))
    requires forall x :: x in s ==> View(w, x).ae == A.Entry(ThirdBallot(cfg, r), "", 0)
    requires forall x :: x in cfg.pos ==> View(w, x).le == L.FRESH && View(w, x).votesNeeded == cfg.quorum
    ensures inv(w') && Committed(w', r, SLOT, v) && Committed(w', r', SLOT, v')
  {
    var u := Decide(inv, false, w, r, ThirdBallot(cfg, r), v, s);
    w' := Decide(inv, false, u, r', ThirdBallot(cfg, r'), v', s);
    assert View(w', r).le == View(u, r).le;
  }
}
