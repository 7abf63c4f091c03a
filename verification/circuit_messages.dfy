/** The message bound on the circuits that nodes really build. */
module CircuitMessages {
  import opened Arith
  import opened Circuits
  import opened CircuitTheorems
  import opened Quorum
  import opened Topologies
  import opened Clusters
  import opened ClusterMessages

  lemma {:induction false} CubeAboveSquare(f: nat)
    requires f >= 3
    ensures (f + 1) * (f + 1) <= f * f * f
  {
    MulMono(f * f, 3, f);
    MulMono(f, 3, f);
    MulAssoc(f, f, f);
  }

  lemma {:induction false} SmallCube(f: nat)
    ensures f < 3 ==> (f + 1) * (f + 1) * (f + 1) <= 27
  {
  }

  /** Ten thousand nodes or more have a cube root of at least 3. */
  lemma {:induction false} LargeRoot(n: nat)
    requires n >= MAX_L2_NODES
    ensures FloorCbrt(n) >= 3
  {
    SmallCube(FloorCbrt(n));
  }

  /** The number of zones is close to the square root of the node count at most, at both levels. */
  lemma {:induction false} ZonesNearRoot(n: nat) returns (root: nat)
    requires n >= 1
    ensures root * root <= n
    ensures NumZones(n) <= root || (NumZones(n) == root + 1 && root * root < n)
  {
    if n < MAX_L2_NODES {
      root := FloorSqrt(n);
    } else {
      LargeRoot(n);
      CubeAboveSquare(FloorCbrt(n));
      root := FloorCbrt(n) + 1;
    }
  }

  lemma {:induction false} CircuitSize(c: Circuit)
    requires Circuits.Valid(c)
    ensures var t := TopologyOf(c);
            t.Valid() && |t.Nodes()| == |c.nodes| && 1 <= |t.Leaders()| <= |c.nodes|
            && |t.Leaders()| <= NumZones(|c.nodes|)
  {
    hide ZoneOf, TopologyOf, NumZones;
    var t := TopologyOf(c);
    TopologyIsValid(c);
    LeadersCountAlike(c, c.nodes[0]);
    DistinctSize(c.nodes);
    SubsetSize(t.Leaders(), t.Nodes());
  }

  /** Nodes that build the circuit of one node list and one beacon exchange at most 5n - 4 messages over one
      client request, whatever is lost, reordered, refused or cleaned up. */
  lemma {:induction false} RequestCostsFivePerNode(c: Circuit, steps: seq<Step>)
    requires Circuits.Valid(c)
    requires IsRun(TopologyOf(c), steps) && Submits(steps) == 1
    ensures After(TopologyOf(c), steps).posts <= 5 * |c.nodes| - 4
  {
    hide IsRun, After, TopologyOf, NumZones;
    var t, n := TopologyOf(c), |c.nodes|;
    CircuitSize(c);
    MessageBound(t, steps);
    var root := ZonesNearRoot(n);
    FiveMessagesPerNode(n, |t.Leaders()|, root);
  }
}
