/** The dynamic circuit (src/dynamiccircuit.cc): which nodes lead and which follow for one beacon.

    These are the specification functions; dynamic_circuit.dfy holds the loops that compute them. */
module Circuits {
  import opened Arith

  const MAX_L2_NODES := 10000

  /** The records of the node list and the hash of a record under a beacon, both shared by every node. */
  datatype Circuit = Circuit(nodes: seq<string>, hash: (string, string) -> nat, beacon: string)

  ghost predicate Distinct<T>(s: seq<T>) {
    forall i, j :: 0 <= i < j < |s| ==> s[i] != s[j]
  }

  /** NodeList keeps only lines of at least four characters, so no record is blank. */
  ghost predicate Valid(c: Circuit) {
    && 0 < |c.nodes|
    && Distinct(c.nodes)
    && forall x :: x in c.nodes ==> x != ""
  }

  function Level(n: nat): nat {
    if n < MAX_L2_NODES then 2 else 3
  }

  function FloorSqrt(n: nat): (r: nat)
    ensures r * r <= n < (r + 1) * (r + 1)
  {
    if n == 0 then 0
    else
      var r := FloorSqrt(n - 1);
      if (r + 1) * (r + 1) <= n then r + 1 else r
  }

  function FloorCbrt(n: nat): (r: nat)
    ensures r * r * r <= n < (r + 1) * (r + 1) * (r + 1)
  {
    if n == 0 then 0
    else
      var r := FloorCbrt(n - 1);
      if (r + 1) * (r + 1) * (r + 1) <= n then r + 1 else r
  }

  function NumFullZones(n: nat): nat {
    if Level(n) == 2 then FloorSqrt(n) else FloorCbrt(n)
  }

  function NumZones(n: nat): nat {
    var f := NumFullZones(n);
    var full := if Level(n) == 2 then f * f else f * f * f;
    if n > full then f + 1 else f
  }

  lemma {:induction false} FullZonesBounds(n: nat)
    requires n >= 1
    ensures 1 <= NumFullZones(n)
    ensures NumFullZones(n) * NumFullZones(n) <= n
  {
    var f := NumFullZones(n);
    if Level(n) == 3 {
      MulAssoc(f, f, f);
      MulMono(f, 1, f * f);
      MulMono(f * f, 1, f);
    }
  }

  /** The number of hash values that share a full zone, when n nodes have f full zones. */
  function WidthFor(n: nat, f: nat): (d: nat)
    requires 1 <= f && f * f <= n
    ensures f <= d
    ensures f * d <= n < f * d + f
  {
    DivAtLeast(n, f, f);
    n / f
  }

  lemma {:induction false} IndexBelow(n: nat, f: nat, h: nat, z: nat)
    requires 1 <= f && f * f <= n && h < n
    requires z == f + 1 || (z == f && f * WidthFor(n, f) == n)
    ensures h / WidthFor(n, f) < z
  {
    var d := WidthFor(n, f);
    assert d * (f + 1) == f * d + d;
    DivLess(h, d, z);
  }

  function ZoneWidth(n: nat): (d: nat)
    requires n >= 1
    ensures d >= 1
  {
    FullZonesBounds(n);
    WidthFor(n, NumFullZones(n))
  }

  lemma {:induction false} ExactWidth(n: nat, f: nat, d: nat)
    requires 1 <= f && f * f <= n && n == f * d
    ensures f * WidthFor(n, f) == n
  {
    DivUnique(n, f, d, 0);
  }

  /** Every hash below n falls in an existing zone, so the tables indexed by zone are never overrun. */
  lemma {:induction false} ZoneIndexInRange(n: nat, h: nat)
    requires n >= 1 && h < n
    ensures h / ZoneWidth(n) < NumZones(n)
  {
    FullZonesBounds(n);
    var f := NumFullZones(n);
    if NumZones(n) == f {
      MulAssoc(f, f, f);
      ExactWidth(n, f, if Level(n) == 2 then f else f * f);
    }
    IndexBelow(n, f, h, NumZones(n));
  }

  function ZoneOf(c: Circuit, rec: string): (z: nat)
    requires |c.nodes| > 0
    ensures z < NumZones(|c.nodes|)
  {
    var n := |c.nodes|;
    ZoneIndexInRange(n, c.hash(rec, c.beacon) % n);
    (c.hash(rec, c.beacon) % n) / ZoneWidth(n)
  }

  /** The circuit cuts the hash values below n into slices of width d, where f slices make full zones and f is the
      square root of n rounded down, or the cube root from ten thousand nodes on. A node's zone is the slice of its
      hash. */
  lemma {:induction false} ZoneIsSlice(c: Circuit, x: string) returns (f: nat, d: nat)
    requires |c.nodes| > 0
    ensures var n := |c.nodes|;
            && (if n < 10000 then f * f <= n < (f + 1) * (f + 1) else f * f * f <= n < (f + 1) * (f + 1) * (f + 1))
            && f * d <= n < f * d + f
            && ZoneOf(c, x) * d <= c.hash(x, c.beacon) % n < (ZoneOf(c, x) + 1) * d
  {
    var n := |c.nodes|;
    FullZonesBounds(n);
    f, d := NumFullZones(n), ZoneWidth(n);
    SliceOf(c.hash(x, c.beacon) % n, d);
  }

  lemma {:induction false} SliceOf(h: nat, d: nat)
    requires d >= 1
    ensures (h / d) * d <= h < (h / d + 1) * d
  {
    assert h == d * (h / d) + h % d;
  }

  /** There are as many zones as the root of n, rounded up. */
  lemma {:induction false} ZonesAreRoot(n: nat)
    requires n >= 1
    ensures var z := NumZones(n);
            && z >= 1
            && if n < 10000 then (z - 1) * (z - 1) < n <= z * z else (z - 1) * (z - 1) * (z - 1) < n <= z * z * z
  {
    hide FloorSqrt, FloorCbrt;
    FullZonesBounds(n);
    if n < 10000 {
      BelowSquare(NumFullZones(n));
    } else {
      BelowCube(NumFullZones(n));
    }
  }

  lemma {:induction false} BelowSquare(f: nat)
    requires f >= 1
    ensures (f - 1) * (f - 1) < f * f
  {
  }

  lemma {:induction false} BelowCube(f: nat)
    requires f >= 1
    ensures (f - 1) * (f - 1) * (f - 1) < f * f * f
  {
    MulMono(f - 1, f - 1, f);
    MulMono(f, f - 1, f);
    MulMono((f - 1) * (f - 1), f - 1, f);
    MulMono(f, (f - 1) * (f - 1), f * f);
    if f > 1 {
      assert (f - 1) * (f - 1) * (f - 1) < (f - 1) * (f - 1) * f;
    }
  }

  /** The records of zone z among the first k of the list, in list order. */
  function MembersUpTo(c: Circuit, z: nat, k: nat): (s: seq<string>)
    requires 0 < |c.nodes| && k <= |c.nodes|
    ensures forall x :: x in s <==> x in c.nodes[..k] && ZoneOf(c, x) == z
  {
    if k == 0 then []
    else if ZoneOf(c, c.nodes[k - 1]) == z then MembersUpTo(c, z, k - 1) + [c.nodes[k - 1]]
    else MembersUpTo(c, z, k - 1)
  }

  function Members(c: Circuit, z: nat): (s: seq<string>)
    requires 0 < |c.nodes|
    ensures forall x :: x in s <==> x in c.nodes && ZoneOf(c, x) == z
  {
    assert c.nodes[..|c.nodes|] == c.nodes;
    MembersUpTo(c, z, |c.nodes|)
  }

  /** The first entry of a list, or a blank when there is none. */
  function FirstOf(s: seq<string>): string {
    if s == [] then "" else s[0]
  }

  function LeaderOf(c: Circuit, z: nat): string
    requires 0 < |c.nodes|
  {
    FirstOf(Members(c, z))
  }

  predicate IsLeader(c: Circuit, x: string)
    requires 0 < |c.nodes|
  {
    var s := Members(c, ZoneOf(c, x));
    s != [] && s[0] == x
  }

  function Followers(c: Circuit, z: nat): seq<string>
    requires 0 < |c.nodes|
  {
    var s := Members(c, z);
    if s == [] then [] else s[1..]
  }

  function ZoneLeadersUpTo(c: Circuit, k: nat): (s: seq<string>)
    requires 0 < |c.nodes|
    ensures |s| == k
    ensures forall z :: 0 <= z < k ==> s[z] == LeaderOf(c, z)
  {
    seq(k, z requires 0 <= z < k => LeaderOf(c, z))
  }

  /** One entry per zone, blank where the zone is empty. */
  function ZoneLeaders(c: Circuit): (s: seq<string>)
    requires 0 < |c.nodes|
    ensures |s| == NumZones(|c.nodes|)
    ensures forall z :: 0 <= z < |s| ==> s[z] == LeaderOf(c, z)
  {
    ZoneLeadersUpTo(c, NumZones(|c.nodes|))
  }

  function NonBlank(s: seq<string>): (r: seq<string>)
    ensures forall x :: x in r <==> x in s && x != ""
    ensures |r| <= |s|
  {
    if s == [] then []
    else if s[|s| - 1] == "" then NonBlank(s[..|s| - 1])
    else NonBlank(s[..|s| - 1]) + [s[|s| - 1]]
  }

  /** The leaders of the zones x is not in. */
  function OtherLeaders(c: Circuit, x: string): seq<string>
    requires 0 < |c.nodes|
  {
    NonBlank(ZoneLeaders(c)[ZoneOf(c, x) := ""])
  }

  ghost function LeaderSet(c: Circuit): (s: set<string>)
    requires 0 < |c.nodes|
  {
    set x | x in c.nodes && IsLeader(c, x)
  }

  // ----- Members of a zone are distinct, and the zones partition the list -----

  lemma {:induction false} MembersDistinct(c: Circuit, z: nat, k: nat)
    requires Valid(c) && k <= |c.nodes|
    ensures Distinct(MembersUpTo(c, z, k))
  {
    if k > 0 {
      MembersDistinct(c, z, k - 1);
      assert c.nodes[k - 1] !in c.nodes[..k - 1];
    }
  }

  lemma {:induction false} LeaderIsListed(c: Circuit, z: nat)
    requires Valid(c)
    ensures LeaderOf(c, z) == "" <==> Members(c, z) == []
    ensures LeaderOf(c, z) != "" ==>
              LeaderOf(c, z) in c.nodes && IsLeader(c, LeaderOf(c, z)) && ZoneOf(c, LeaderOf(c, z)) == z
  {
    var s := Members(c, z);
    if s != [] {
      assert s[0] in s;
    }
  }

  lemma {:induction false} ZoneHasLeader(c: Circuit, x: string)
    requires Valid(c) && x in c.nodes
    ensures LeaderOf(c, ZoneOf(c, x)) in LeaderSet(c)
    ensures IsLeader(c, x) <==> LeaderOf(c, ZoneOf(c, x)) == x
  {
    LeaderIsListed(c, ZoneOf(c, x));
    assert x in Members(c, ZoneOf(c, x));
  }

}
