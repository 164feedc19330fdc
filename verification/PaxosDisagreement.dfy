/** Both hypotheses of agreement are needed, for every cluster size: runs that commit two values
    when quorums need not meet, and when PREPARE_OKs for another ballot are counted. */
module PaxosDisagreement {
  import opened PaxosMessages
  import opened PaxosSystem
  import opened PaxosSafety
  import opened PaxosQuorums
  import opened PaxosAgreement
  import opened PaxosScenarios

  /** With an even number of replicas two disjoint quorums commit two values, although every
      PREPARE_OK counted answers the current ballot. */
  lemma EvenClusterDisagrees(cfg: Config)
    returns (ws: seq<World>, es: seq<Event>, r: Addr, r': Addr, v: Value, v': Value)
    requires WellFormed(cfg) && |cfg.pos| % 2 == 0 && cfg.quorum == Quorum(|cfg.pos|)
    ensures Run(cfg, ws, es) && Disciplined(ws, es)
    ensures Committed(ws[|es|], r, SLOT, v) && Committed(ws[|es|], r', SLOT, v') && v != v'
  {
    var inv := (w: World) => Reachable(cfg, true, w);
    ReachableClosed(cfg, true);
    InitReady(cfg);
    var s := SubsetOfSize(cfg.pos.Keys, cfg.quorum);
    var s' := cfg.pos.Keys - s;
    assert |s'| == cfg.quorum;
    r :| r in s;
    r' :| r' in s';
    var w1, v1 := SoloRound(cfg, inv, Init(cfg), r, "x", s);
    var w2, v2 := SoloRound(cfg, inv, w1, r', "y", s');
    v, v' := v1, v2;
    assert View(w2, r) == View(w1, r);
    DifferentNodes(cfg, r, "x", v, r', "y", v');
    ws, es :| Reaches(cfg, true, ws, es, w2);
  }

  /** Disciplined runs always agree exactly when the number of replicas is odd. */
  lemma AgreementIffOdd(cfg: Config)
    requires WellFormed(cfg) && cfg.quorum == Quorum(|cfg.pos|)
    ensures |cfg.pos| % 2 == 1 <==>
            (forall ws, es :: Run(cfg, ws, es) && Disciplined(ws, es) ==> Agreed(ws[|es|]))
  {
    if |cfg.pos| % 2 == 1 {
      forall ws, es | Run(cfg, ws, es) && Disciplined(ws, es)
        ensures Agreed(ws[|es|])
      {
        forall r, r', i, v, v' | Committed(ws[|es|], r, i, v) && Committed(ws[|es|], r', i, v')
          ensures v == v'
        {
          Agreement(cfg, ws, es, |es|, |es|, r, r', i, v, v');
        }
      }
    } else {
      var ws, es, r, r', v, v' := EvenClusterDisagrees(cfg);
      assert !Agreed(ws[|es|]);
    }
  }

  /** Counting PREPARE_OKs by instance alone breaks agreement in every cluster of two or more
      replicas, whatever the quorum: answers to one coordinator's ballot let another one propose
      without having asked anybody. */
  lemma StaleAnswersDisagree(cfg: Config)
    returns (ws: seq<World>, es: seq<Event>, r: Addr, r': Addr, v: Value, v': Value)
    requires WellFormed(cfg) && |cfg.pos| >= 2 && 0 < cfg.quorum <= |cfg.pos|
    ensures Run(cfg, ws, es)
    ensures Committed(ws[|es|], r, SLOT, v) && Committed(ws[|es|], r', SLOT, v') && v != v'
  {
    var inv := (w: World) => Reachable(cfg, false, w);
    ReachableClosed(cfg, false);
    InitReady(cfg);
    var s := SubsetOfSize(cfg.pos.Keys, cfg.quorum);
    r, r' := TwoReplicas(cfg);
    var w, v1, v2 := BothPropose(cfg, inv, Init(cfg), r, r', s);
    v, v' := v1, v2;
    var w' := BothCommit(cfg, inv, w, r, r', v, v', s);
    DifferentNodes(cfg, r, "x", v, r', "y", v');
    ws, es :| Reaches(cfg, false, ws, es, w');
  }

  /** Runs agree without any discipline only where there is nobody to disagree with. */
  lemma AlwaysAgreesIffAlone(cfg: Config)
    requires WellFormed(cfg) && cfg.quorum == Quorum(|cfg.pos|)
    ensures |cfg.pos| == 1 <==> forall ws, es :: Run(cfg, ws, es) ==> Agreed(ws[|es|])
  {
    if |cfg.pos| == 1 {
      forall ws, es | Run(cfg, ws, es)
        ensures Agreed(ws[|es|])
      {
        RunInv(cfg, ws, es, |es|);
        OneReplica(cfg, ws[|es|]);
      }
    } else {
      assert |cfg.pos| >= 2;
      var ws, es, r, r', v, v' := StaleAnswersDisagree(cfg);
      assert !Agreed(ws[|es|]);
    }
  }
}
