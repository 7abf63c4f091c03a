/** What the nodes' separate computations of the circuit have in common, and the topology they amount to. */
module CircuitTheorems {
  import opened Quorum
  import opened Circuits
  import opened DynamicCircuits
  import opened Topologies

  // ----- Lists without repetition -----

  ghost function Elems(s: seq<string>): set<string> {
    set x | x in s
  }

  lemma {:induction false} DistinctSize(s: seq<string>)
    requires Distinct(s)
    ensures |Elems(s)| == |s|
    decreases |s|
  {
    if s != [] {
      var last := |s| - 1;
      DistinctSize(s[..last]);
      assert Elems(s) == Elems(s[..last]) + {s[last]};
    }
  }

  lemma {:induction false} DistinctWithout(s: seq<string>, x: string)
    requires Distinct(s)
    ensures Distinct(Without(s, x))
    ensures x !in s ==> Without(s, x) == s
    decreases |s|
  {
    if s != [] {
      var last := |s| - 1;
      DistinctWithout(s[..last], x);
      assert s[last] !in s[..last];
    }
  }

  lemma {:induction false} WithoutFirst(s: seq<string>)
    requires Distinct(s) && s != []
    ensures Without(s, s[0]) == s[1..]
    decreases |s|
  {
    if |s| > 1 {
      var last := |s| - 1;
      WithoutFirst(s[..last]);
      assert s[1..] == s[..last][1..] + [s[last]];
    } else {
      assert Without(s, s[0]) == Without(s[..0], s[0]);
    }
  }

  lemma {:induction false} DistinctNonBlank(s: seq<string>)
    requires forall i, j :: 0 <= i < j < |s| && s[i] != "" ==> s[i] != s[j]
    ensures Distinct(NonBlank(s))
    decreases |s|
  {
    if s != [] {
      var last := |s| - 1;
      DistinctNonBlank(s[..last]);
      assert s[last] != "" ==> s[last] !in s[..last];
    }
  }

  lemma {:induction false} ZoneMembersDistinct(c: Circuit, z: nat)
    requires Valid(c)
    ensures Distinct(Members(c, z))
  {
    MembersDistinct(c, z, |c.nodes|);
  }

  // ----- Leaders -----

  /** x comes before every other node of its zone in the list. */
  ghost predicate FirstInZone(c: Circuit, x: string)
    requires 0 < |c.nodes|
  {
    exists i :: 0 <= i < |c.nodes| && c.nodes[i] == x &&
                forall j :: 0 <= j < i ==> ZoneOf(c, c.nodes[j]) != ZoneOf(c, x)
  }

  lemma {:induction false} FirstMemberIsFirst(c: Circuit, z: nat, k: nat)
    requires Valid(c) && k <= |c.nodes|
    ensures var s := MembersUpTo(c, z, k);
            if s == [] then forall j :: 0 <= j < k ==> ZoneOf(c, c.nodes[j]) != z
            else exists i :: 0 <= i < k && c.nodes[i] == s[0] && ZoneOf(c, c.nodes[i]) == z &&
                             forall j :: 0 <= j < i ==> ZoneOf(c, c.nodes[j]) != z
  {
    hide ZoneOf;
    if k > 0 {
      FirstMemberIsFirst(c, z, k - 1);
    }
  }

  /** isLeader, getLeader and getZoneLeaders pick the same nodes: those first in their zone. For them
      isLeader and getOtherLeadersAndThisFollowers list the same followers in the same order. */
  lemma {:induction false} LeadersAgree(c: Circuit, x: string)
    requires Valid(c) && x in c.nodes
    ensures IsLeader(c, x) <==> FirstInZone(c, x)
    ensures IsLeader(c, x) <==> LeaderOf(c, ZoneOf(c, x)) == x
    ensures IsLeader(c, x) <==> x in ZoneLeaders(c)
    ensures IsLeader(c, x) ==> Without(Members(c, ZoneOf(c, x)), x) == Followers(c, ZoneOf(c, x))
  {
    hide ZoneOf, NumZones;
    var z := ZoneOf(c, x);
    var s := Members(c, z);
    FirstMemberIsFirst(c, z, |c.nodes|);
    ZoneHasLeader(c, x);
    assert x in s;
    if x in ZoneLeaders(c) {
      var y :| 0 <= y < |ZoneLeaders(c)| && ZoneLeaders(c)[y] == x;
      LeaderIsListed(c, y);
    }
    if IsLeader(c, x) {
      assert ZoneLeaders(c)[z] == x;
      ZoneMembersDistinct(c, z);
      WithoutFirst(s);
    }
  }

  // ----- The topology -----

  ghost function TopologyOf(c: Circuit): (t: Topology)
    requires 0 < |c.nodes|
    ensures t.Nodes() == Elems(c.nodes)
  {
    Topology(map x | x in c.nodes :: LeaderOf(c, ZoneOf(c, x)))
  }

  lemma {:induction false} TopologyIsValid(c: Circuit)
    requires Valid(c)
    ensures TopologyOf(c).Valid()
    ensures TopologyOf(c).Leaders() == LeaderSet(c)
  {
    hide ZoneOf;
    assert c.nodes[0] in TopologyOf(c).lead;
    forall x | x in c.nodes
      ensures LeaderOf(c, ZoneOf(c, x)) in c.nodes
      ensures ZoneOf(c, LeaderOf(c, ZoneOf(c, x))) == ZoneOf(c, x)
      ensures IsLeader(c, x) <==> LeaderOf(c, ZoneOf(c, x)) == x
    {
      ZoneHasLeader(c, x);
      LeaderIsListed(c, ZoneOf(c, x));
    }
  }

  lemma {:induction false} OtherLeadersAreOthers(c: Circuit, x: string)
    requires Valid(c) && x in c.nodes
    ensures Distinct(OtherLeaders(c, x))
    ensures Elems(OtherLeaders(c, x)) == TopologyOf(c).Others(x)
  {
    hide ZoneOf, OtherLeaders, LeaderSet, LeaderOf;
    var z := ZoneOf(c, x);
    TopologyIsValid(c);
    OthersAreDistinct(c, x);
    forall y
      ensures y in OtherLeaders(c, x) <==> y in LeaderSet(c) && y != LeaderOf(c, z)
    {
      OtherLeader(c, x, y);
    }
  }

  lemma {:induction false} OthersAreDistinct(c: Circuit, x: string)
    requires Valid(c) && x in c.nodes
    ensures Distinct(OtherLeaders(c, x))
  {
    hide ZoneOf, NumZones, LeaderOf;
    var zs := ZoneLeaders(c);
    forall i | 0 <= i < |zs|
      ensures zs[i] != "" ==> ZoneOf(c, zs[i]) == i
    {
      LeaderIsListed(c, i);
    }
    DistinctNonBlank(zs[ZoneOf(c, x) := ""]);
  }

  lemma {:induction false} OtherLeader(c: Circuit, x: string, y: string)
    requires Valid(c) && x in c.nodes
    ensures y in OtherLeaders(c, x) <==> y in LeaderSet(c) && y != LeaderOf(c, ZoneOf(c, x))
  {
    hide ZoneOf, NumZones;
    var zs, z := ZoneLeaders(c), ZoneOf(c, x);
    LeaderIsListed(c, z);
    if y in LeaderSet(c) && y != LeaderOf(c, z) {
      assert zs[ZoneOf(c, y)] == y;
      assert zs[z := ""][ZoneOf(c, y)] == y;
    }
    if y in OtherLeaders(c, x) {
      var i :| 0 <= i < |zs| && zs[z := ""][i] == y && y != "";
      LeaderIsListed(c, i);
    }
  }

  lemma {:induction false} ZoneMatesAreMates(c: Circuit, x: string)
    requires Valid(c) && x in c.nodes
    ensures Distinct(Without(Members(c, ZoneOf(c, x)), x))
    ensures Elems(Without(Members(c, ZoneOf(c, x)), x)) == TopologyOf(c).Mates(x)
  {
    hide ZoneOf;
    var z := ZoneOf(c, x);
    ZoneMembersDistinct(c, z);
    DistinctWithout(Members(c, z), x);
    forall y | y in c.nodes
      ensures ZoneOf(c, y) == z <==> LeaderOf(c, ZoneOf(c, y)) == LeaderOf(c, z)
    {
      ZoneHasLeader(c, x);
      ZoneHasLeader(c, y);
      LeaderIsListed(c, z);
      LeaderIsListed(c, ZoneOf(c, y));
    }
  }

  /** Every listed node counts the same number of leaders, so all leaders ask for the same quorum. */
  lemma {:induction false} LeadersCountAlike(c: Circuit, x: string)
    requires Valid(c) && x in c.nodes
    ensures |OtherLeaders(c, x)| + 1 == |LeaderSet(c)|
    ensures |LeaderSet(c)| <= NumZones(|c.nodes|)
  {
    hide ZoneOf, NumZones, OtherLeaders, LeaderSet, LeaderOf, TopologyOf;
    OtherLeadersAreOthers(c, x);
    DistinctSize(OtherLeaders(c, x));
    TopologyIsValid(c);
    var t := TopologyOf(c);
    assert t.Leaders() == t.Others(x) + {t.lead[x]};
    OthersAreFewer(c, x);
  }

  lemma {:induction false} OthersAreFewer(c: Circuit, x: string)
    requires Valid(c) && x in c.nodes
    ensures |OtherLeaders(c, x)| < NumZones(|c.nodes|)
  {
    hide ZoneOf, NumZones, LeaderOf;
    var zs := ZoneLeaders(c)[ZoneOf(c, x) := ""];
    BlankShortens(zs, ZoneOf(c, x));
  }

  lemma {:induction false} BlankShortens(s: seq<string>, i: nat)
    requires i < |s| && s[i] == ""
    ensures |NonBlank(s)| < |s|
    decreases |s|
  {
    if i < |s| - 1 {
      BlankShortens(s[..|s| - 1], i);
    }
  }

  // ----- Partition -----

  /** The first k zones laid end to end, each leader followed by its followers. */
  function Roster(c: Circuit, k: nat): seq<string>
    requires 0 < |c.nodes|
  {
    if k == 0 then []
    else
      var who := LeaderOf(c, k - 1);
      Roster(c, k - 1) + if who == "" then [] else [who] + Followers(c, k - 1)
  }

  lemma {:induction false} DistinctConcat(a: seq<string>, b: seq<string>)
    requires Distinct(a) && Distinct(b) && forall x :: x in a ==> x !in b
    ensures Distinct(a + b)
  {
    forall i, j | 0 <= i < j < |a + b| ensures (a + b)[i] != (a + b)[j] {
      if i < |a| && j >= |a| {
        assert (a + b)[i] in a && (a + b)[j] in b;
      }
    }
  }

  lemma {:induction false} RosterZone(c: Circuit, k: nat)
    requires Valid(c) && k > 0
    ensures Roster(c, k) == Roster(c, k - 1) + Members(c, k - 1)
  {
    hide ZoneOf, Members;
    LeaderIsListed(c, k - 1);
    var s := Members(c, k - 1);
    assert s != [] ==> [s[0]] + s[1..] == s;
  }

  lemma {:induction false} RosterHolds(c: Circuit, k: nat)
    requires Valid(c)
    ensures Distinct(Roster(c, k))
    ensures forall x :: x in Roster(c, k) <==> x in c.nodes && ZoneOf(c, x) < k
  {
    hide ZoneOf, Members;
    if k > 0 {
      RosterHolds(c, k - 1);
      RosterZone(c, k);
      ZoneMembersDistinct(c, k - 1);
      DistinctConcat(Roster(c, k - 1), Members(c, k - 1));
    }
  }

  /** The leaders with their followers cover the node list, no node twice. */
  lemma {:induction false} ZonesPartitionNodes(c: Circuit)
    requires Valid(c)
    ensures var all := Roster(c, NumZones(|c.nodes|));
            && Distinct(all) && |all| == |c.nodes|
            && forall x :: x in all <==> x in c.nodes
  {
    hide ZoneOf, NumZones;
    var all := Roster(c, NumZones(|c.nodes|));
    RosterHolds(c, NumZones(|c.nodes|));
    DistinctSize(all);
    DistinctSize(c.nodes);
    assert Elems(all) == Elems(c.nodes);
  }

  // ----- The lists as addresses -----

  /** hosts names each node of dsts once. */
  ghost predicate Names(hosts: seq<string>, dsts: set<string>) {
    Distinct(NonBlank(hosts)) && Elems(NonBlank(hosts)) == dsts
  }

  lemma {:induction false} NonBlankSame(s: seq<string>)
    requires forall x :: x in s ==> x != ""
    ensures NonBlank(s) == s
    decreases |s|
  {
    if s != [] {
      var last := |s| - 1;
      assert s[last] in s && forall x :: x in s[..last] ==> x in s;
      NonBlankSame(s[..last]);
      assert s == s[..last] + [s[last]];
    }
  }

  lemma {:induction false} NamesAll(s: seq<string>, dsts: set<string>)
    requires Distinct(s) && Elems(s) == dsts && "" !in dsts
    ensures Names(s, dsts) && |s| == |dsts|
  {
    assert forall x :: x in s ==> x in dsts;
    NonBlankSame(s);
    DistinctSize(s);
  }

  lemma {:induction false} OtherLeadersNamed(c: Circuit, x: string)
    requires Valid(c) && x in c.nodes
    ensures Names(OtherLeaders(c, x), TopologyOf(c).Others(x))
    ensures |OtherLeaders(c, x)| == |TopologyOf(c).Others(x)|
  {
    hide ZoneOf, NumZones;
    OtherLeadersAreOthers(c, x);
    NamesAll(OtherLeaders(c, x), TopologyOf(c).Others(x));
  }

  lemma {:induction false} MatesNamed(c: Circuit, x: string)
    requires Valid(c) && x in c.nodes
    ensures var mates := Without(Members(c, ZoneOf(c, x)), x);
            Names(mates, TopologyOf(c).Mates(x)) && |mates| == |TopologyOf(c).Mates(x)|
  {
    hide ZoneOf;
    ZoneMatesAreMates(c, x);
    NamesAll(Without(Members(c, ZoneOf(c, x)), x), TopologyOf(c).Mates(x));
  }

  lemma {:induction false} FollowersNamed(c: Circuit, x: string)
    requires Valid(c) && x in c.nodes && IsLeader(c, x)
    ensures Names(Followers(c, ZoneOf(c, x)), TopologyOf(c).Mates(x))
    ensures |Followers(c, ZoneOf(c, x))| == |TopologyOf(c).Mates(x)|
  {
    hide ZoneOf;
    LeadersAgree(c, x);
    MatesNamed(c, x);
  }

  lemma {:induction false} LeaderNamed(c: Circuit, x: string)
    requires Valid(c) && x in c.nodes
    ensures Names(NonBlank([LeaderOf(c, ZoneOf(c, x))]), {TopologyOf(c).lead[x]})
    ensures IsLeader(c, x) <==> TopologyOf(c).lead[x] == x
  {
    hide ZoneOf;
    ZoneHasLeader(c, x);
    var who := LeaderOf(c, ZoneOf(c, x));
    assert [who][..0] == [];
    assert NonBlank([who]) == [who];
  }

  lemma {:induction false} LeadersNamed(c: Circuit)
    requires Valid(c)
    ensures Names(ZoneLeaders(c), TopologyOf(c).Leaders())
  {
    hide ZoneOf, NumZones;
    var zs := ZoneLeaders(c);
    TopologyIsValid(c);
    forall i | 0 <= i < |zs|
      ensures zs[i] != "" ==> zs[i] in LeaderSet(c) && ZoneOf(c, zs[i]) == i
    {
      LeaderIsListed(c, i);
    }
    DistinctNonBlank(zs);
    forall y ensures y in NonBlank(zs) <==> y in LeaderSet(c) {
      if y in LeaderSet(c) {
        assert zs[ZoneOf(c, y)] == y;
      }
    }
  }
}
