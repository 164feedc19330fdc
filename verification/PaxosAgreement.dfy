/** Agreement: with majority quorums, and when coordinators only count PREPARE_OKs that answer
    their current ballot, no instance is ever committed with two values. */
module PaxosAgreement {
  import opened PaxosMessages
  import opened PaxosSystem
  import opened PaxosInvariants
  import opened PaxosSteps
  import opened PaxosSafety
  import opened PaxosQuorums
  import opened PaxosPromises

  lemma RunAgreement(cfg: Config, ws: seq<World>, es: seq<Event>, n: nat)
    requires WellFormed(cfg) && Majority(cfg) && Run(cfg, ws, es) && Disciplined(ws, es) && n <= |es|
    ensures AgreementInv(cfg, ws[n])
  {
    InitAgreement(cfg);
    forall w, e | Enabled(w, e) && AgreementInv(cfg, w) && AnswersCurrentBallot(w, e)
      ensures AgreementInv(cfg, Next(w, e))
    {
      NextAgreement(cfg, w, e);
    }
    Kept(cfg, ws, es, 0, n, w => AgreementInv(cfg, w), true);
  }

  lemma NextAgreement(cfg: Config, w: World, e: Event)
    requires AgreementInv(cfg, w) && Enabled(w, e) && AnswersCurrentBallot(w, e)
    ensures AgreementInv(cfg, Next(w, e))
  {
    NextInv(cfg, w, e);
    CoordinatorsStayPromised(cfg, w, e);
    AcceptsStaySafe(cfg, w, e);
  }

  /** In every disciplined run of an odd number of replicas, once a quorum has voted for v at ballot b,
      every proposal of that instance from b on carries v. */
  lemma ChosenIsFinal(cfg: Config, ws: seq<World>, es: seq<Event>, n: nat, b: int, v: Value, m: Msg)
    requires WellFormed(cfg) && Run(cfg, ws, es) && Disciplined(ws, es) && n <= |es|
    requires |cfg.pos| % 2 == 1 && cfg.quorum == Quorum(|cfg.pos|)
    requires SomeoneSends(ws[n].net, m) && m.typ == ACCEPT && m.proposal >= b > 0
    requires Chosen(cfg, ws[n].net, b, v, m.instance)
    ensures m.value == v
  {
    RunAgreement(cfg, ws, es, n);
    ChosenBlocksOthers(cfg, ws[n], b, v, m);
  }

  /** Agreement: in every disciplined run of an odd number of replicas, any two commits of an
      instance, at any replicas and any times, carry the same value. */
  lemma Agreement(cfg: Config, ws: seq<World>, es: seq<Event>, k: nat, n: nat, r: Addr, r': Addr, i: int,
                  v: Value, v': Value)
    requires WellFormed(cfg) && Run(cfg, ws, es) && Disciplined(ws, es) && k <= n <= |es|
    requires |cfg.pos| % 2 == 1 && cfg.quorum == Quorum(|cfg.pos|)
    requires Committed(ws[k], r, i, v) && Committed(ws[n], r', i, v')
    ensures v == v'
  {
    CommittedForever(cfg, ws, es, k, n, r, i, v);
    RunAgreement(cfg, ws, es, n);
    OneCommittedValue(cfg, ws[n], r, r', i, v, v');
  }
}
