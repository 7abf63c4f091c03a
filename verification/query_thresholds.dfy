/** How long a node waits on a voted query, in every run: a zone's quorum and the majority of zones are acted on as
    soon as they have been counted. */
module QueryThresholds {
  import opened Quorum
  import opened Wrappers
  import opened Topologies
  import opened NodeSteps
  import opened QuerySteps
  import opened QueryClusters

  /** The votes a node still keeps count of are short of a quorum of its zone, and of more than half of the zones;
      nobody waits in B for followers it does not have. */
  ghost predicate Waits(t: Topology, zones: nat, x: string, s: QueryState)
    requires x in t.lead
  {
    && (s.st == ST_B ==> t.Zone(x) != {x})
    && (s.st < ST_C ==> !IsQuorum(s.k, |t.Zone(x)|))
    && (s.st == ST_C ==> s.k == 0)
    && (s.st < ST_D ==> 2 * s.l <= zones)
    && (s.st == ST_D ==> s.l == 0)
    && s.st <= ST_D
  }

  ghost predicate OnTime(t: Topology, zones: nat, c: QueryCluster)
    requires c.nodes.Keys == t.Nodes()
  {
    forall x :: x in t.lead ==> Waits(t, zones, x, c.nodes[x])
  }

  lemma {:induction false} HandlerWaits(t: Topology, zones: nat, x: string, s: QueryState, m: Query, valid: bool,
                                        res: string)
    requires x in t.lead && Waits(t, zones, x, s)
    ensures Waits(t, zones, x, HandleQuery(t, x, s, m, zones, valid, res).qs)
  {
    hide IsQuorum;
    t.ZoneQuorumIsQuorum(x, s.k + 1);
    if t.Mates(x) == {} {
      assert t.ZoneQuorum(x) == 1;
    } else {
      var f :| f in t.Mates(x);
      assert f in t.Zone(x);
    }
  }

  lemma {:induction false} LessWaits(t: Topology, zones: nat, x: string, s: QueryState, less: QueryState)
    requires x in t.lead && Waits(t, zones, x, s) && less.st == s.st && less.k <= s.k && less.l <= s.l
    ensures Waits(t, zones, x, less)
  {
    hide IsQuorum;
    MoreIsQuorum(less.k, s.k, |t.Zone(x)|);
  }

  lemma {:induction false} StepOnTime(t: Topology, zones: nat, c: QueryCluster, s: QueryStep)
    requires c.nodes.Keys == t.Nodes() && OnTime(t, zones, c) && CanStep(t, c, s)
    ensures OnTime(t, zones, Apply(t, zones, c, s))
  {
    hide Waits, HandleQuery;
    match s {
      case Deliver(msg, valid, res) => HandlerWaits(t, zones, msg.dst, c.nodes[msg.dst], msg, valid, res);
      case Cleanup(at, _, _, _) => LessWaits(t, zones, at, c.nodes[at], Apply(t, zones, c, s).nodes[at]);
      case Submit(at, _, _) => LessWaits(t, zones, at, c.nodes[at], Apply(t, zones, c, s).nodes[at]);
      case Lose(_) =>
    }
  }

  lemma {:induction false} StartWaits(t: Topology, zones: nat)
    ensures OnTime(t, zones, Start(t))
  {
  }

  /** In every run a node in a state before C has counted less than a quorum of its zone, and before D no more than
      half of the zones; a quorum or a majority is acted on at once, and the count dropped. */
  lemma {:induction false} VotesAtQuorum(t: Topology, zones: nat, steps: seq<QueryStep>, x: string)
    requires IsRun(t, zones, steps) && x in t.lead
    ensures Waits(t, zones, x, After(t, zones, steps).nodes[x])
  {
    RunsAreOnTime(t, zones, steps);
  }

  lemma {:induction false} RunsAreOnTime(t: Topology, zones: nat, steps: seq<QueryStep>)
    requires IsRun(t, zones, steps)
    ensures OnTime(t, zones, After(t, zones, steps))
    decreases |steps|
  {
    hide OnTime, Apply;
    if steps == [] {
      StartWaits(t, zones);
    } else {
      var last := |steps| - 1;
      RunsAreOnTime(t, zones, steps[..last]);
      StepOnTime(t, zones, After(t, zones, steps[..last]), steps[last]);
    }
  }

  /** A reply goes to a client that waits, who then waits no more, and only on the l vote that completes a majority. */
  lemma {:induction false} ReplyEndsTheWait(t: Topology, x: string, s: QueryState, m: Query, zones: nat, valid: bool,
                                            res: string)
    requires x in t.lead
    ensures var d := HandleQuery(t, x, s, m, zones, valid, res).qs;
            && (d.replies != s.replies <==> s.waiting && !d.waiting)
            && (d.waiting ==> s.waiting)
            && (d.replies != s.replies ==> m.kind == L && 2 * (s.l + 1) > zones && |d.replies| == |s.replies| + 1)
  {
  }

  /** A k vote at a follower, a poll at a leader and an invitation at a follower are passed over. */
  lemma {:induction false} MisaddressedIsPassedOver(t: Topology, x: string, s: QueryState, m: Query, zones: nat,
                                                    valid: bool, res: string)
    requires x in t.lead
    requires if m.kind == J then t.lead[x] == x else (m.kind == K || m.kind == I) && t.lead[x] != x
    ensures var e := HandleQuery(t, x, s, m, zones, valid, res);
            e.mail == {} && e.qs == s.(result := e.qs.result)
  {
  }
}
