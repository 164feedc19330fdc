/** A cluster of replicas and a network that may delay, reorder, lose and repeat packets. */
module PaxosSystem {
  import opened PaxosMessages
  import C = PaxosCoordinator
  import R = PaxosReplica

  /** The replicas with their node positions, and the quorum size they were started with. */
  datatype Config = Config(pos: map<Addr, int>, quorum: int)

  ghost predicate WellFormed(cfg: Config) {
    && cfg.pos != map[]
    && forall r1, r2 :: r1 in cfg.pos && r2 in cfg.pos && r1 != r2 ==>
                          cfg.pos[r1] % |cfg.pos| != cfg.pos[r2] % |cfg.pos|
  }

  /** A packet on the network. `answers` is not part of the packet: for a PREPARE_OK it records
      the ballot of the PREPARE that was answered, which the message itself does not carry. */
  datatype Sent = Sent(packet: Packet, answers: int)

  /** `proposed` collects every tagged value given to ProposeCommand, `handled` every PROPOSE that
      a replica has taken in. */
  datatype World = World(reps: map<Addr, R.State>, net: set<Sent>,
                         proposed: set<Value>, handled: set<(Addr, Value)>)

  datatype Event =
    | Propose(r: Addr, command: string)
    | Deliver(r: Addr, sent: Sent)

  function Init(cfg: Config): World
    requires cfg.pos != map[]
  {
    World(map r | r in cfg.pos :: R.Init(r, cfg.pos[r], |cfg.pos|, cfg.quorum),
          set r | r in cfg.pos :: Sent(R.EpochPacket(r), 0),
          {}, {})
  }

  /** Packets a replica only queues for itself. */
  predicate Local(t: MsgType) {
    t == PROPOSE || t == LEARN || t == EPOCH
  }

  predicate Enabled(w: World, e: Event) {
    match e
    case Propose(r, _) => r in w.reps
    case Deliver(r, s) => r in w.reps && s in w.net && (Local(s.packet.msg.typ) ==> s.packet.from == r)
  }

  function Label(r: Addr, p: Packet, m: Msg): Sent {
    Sent(Packet(m, r), if m.typ == PREPARE_OK then p.msg.proposal else 0)
  }

  function Emitted(r: Addr, p: Packet, o: R.Output): set<Sent> {
    (set m | m in o.sent :: Label(r, p, m)) + (set q | q in o.queued :: Sent(q, 0))
  }

  function Next(w: World, e: Event): World
    requires Enabled(w, e)
  {
    match e
    case Propose(r, command) =>
      var (s, q) := R.Propose(w.reps[r], command);
      w.(reps := w.reps[r := s], net := w.net + {Sent(q, 0)}, proposed := w.proposed + {q.msg.value})
    case Deliver(r, sent) =>
      var p := sent.packet;
      var (s, o) := R.Step(w.reps[r], p);
      w.(reps := w.reps[r := s], net := w.net + Emitted(r, p, o),
         handled := if p.msg.typ == PROPOSE then w.handled + {(r, p.msg.value)} else w.handled)
  }

  /** The worlds of a run, one before each event and one at the end. */
  ghost predicate Run(cfg: Config, ws: seq<World>, es: seq<Event>) {
    && cfg.pos != map[] && |ws| == |es| + 1 && ws[0] == Init(cfg)
    && forall m :: 0 <= m < |es| ==> StepOk(ws, es, m)
  }

  ghost predicate StepOk(ws: seq<World>, es: seq<Event>, m: nat)
    requires |ws| == |es| + 1 && m < |es|
  {
    Enabled(ws[m], es[m]) && ws[m + 1] == Next(ws[m], es[m])
  }

  /** The PREPARE_OK a coordinator is about to count answers the ballot it is running. */
  predicate AnswersCurrentBallot(w: World, e: Event)
    requires Enabled(w, e)
  {
    e.Deliver? && C.Counts(w.reps[e.r].c, e.sent.packet) ==>
      e.sent.answers == w.reps[e.r].c.proto[e.sent.packet.msg.instance].proposal
  }

  /** Runs in which no coordinator counts a PREPARE_OK meant for another ballot. */
  ghost predicate Disciplined(ws: seq<World>, es: seq<Event>)
    requires |ws| == |es| + 1
  {
    forall m :: 0 <= m < |es| ==> DisciplinedAt(ws, es, m)
  }

  ghost predicate DisciplinedAt(ws: seq<World>, es: seq<Event>, m: nat)
    requires |ws| == |es| + 1 && m < |es|
  {
    Enabled(ws[m], es[m]) ==> AnswersCurrentBallot(ws[m], es[m])
  }

  lemma StepAt(cfg: Config, ws: seq<World>, es: seq<Event>, m: nat)
    requires Run(cfg, ws, es) && m < |es|
    ensures Enabled(ws[m], es[m]) && ws[m + 1] == Next(ws[m], es[m])
  {
    assert StepOk(ws, es, m);
  }

  /** A run goes on with any enabled event. */
  lemma OneMoreStep(cfg: Config, ws: seq<World>, es: seq<Event>, e: Event)
    requires Run(cfg, ws, es) && Enabled(ws[|es|], e)
    ensures Run(cfg, ws + [Next(ws[|es|], e)], es + [e])
    ensures Disciplined(ws, es) && AnswersCurrentBallot(ws[|es|], e) ==> Disciplined(ws + [Next(ws[|es|], e)], es + [e])
  {
    var ws', es' := ws + [Next(ws[|es|], e)], es + [e];
    forall m | 0 <= m < |es'|
      ensures StepOk(ws', es', m)
      ensures Disciplined(ws, es) && AnswersCurrentBallot(ws[|es|], e) ==> DisciplinedAt(ws', es', m)
    {
      if m < |es| {
        assert StepOk(ws, es, m);
        assert Disciplined(ws, es) ==> DisciplinedAt(ws, es, m);
      }
    }
  }

  /** A set of worlds that no step leaves, or no disciplined step if d is set. */
  ghost predicate Closed(inv: World -> bool, d: bool) {
    forall w, e :: Enabled(w, e) && inv(w) && (d ==> AnswersCurrentBallot(w, e)) ==> inv(Next(w, e))
  }

  lemma KeptOnce(cfg: Config, ws: seq<World>, es: seq<Event>, m: nat, inv: World -> bool, d: bool)
    requires Run(cfg, ws, es) && m < |es| && Closed(inv, d) && inv(ws[m])
    requires d ==> Disciplined(ws, es)
    ensures inv(ws[m + 1])
  {
    StepAt(cfg, ws, es, m);
    assert d ==> DisciplinedAt(ws, es, m);
  }

  /** What holds at one point of a run and is kept by every step holds from then on. */
  lemma {:induction false} Kept(cfg: Config, ws: seq<World>, es: seq<Event>, k: nat, n: nat, inv: World -> bool,
                                d: bool)
    requires Run(cfg, ws, es) && k <= n <= |es| && Closed(inv, d) && inv(ws[k])
    requires d ==> Disciplined(ws, es)
    ensures inv(ws[n])
    decreases n
  {
    if k < n {
      Kept(cfg, ws, es, k, n - 1, inv, d);
      KeptOnce(cfg, ws, es, n - 1, inv, d);
    }
  }
}
