/** DynamicCircuit (src/dynamiccircuit.cc): the loops that each node runs on its own to learn its place. */
module DynamicCircuits {
  import opened Circuits

  /** s without the entries equal to x. */
  function Without(s: seq<string>, x: string): (r: seq<string>)
    ensures forall y :: y in r <==> y in s && y != x
  {
    if s == [] then []
    else
      var last := |s| - 1;
      if s[last] == x then Without(s[..last], x) else Without(s[..last], x) + [s[last]]
  }

  class DynamicCircuit {
    const nodeList: seq<string>
    const hash: (string, string) -> nat

    constructor (nodeList: seq<string>, hash: (string, string) -> nat)
      ensures this.nodeList == nodeList && this.hash == hash
    {
      this.nodeList := nodeList;
      this.hash := hash;
    }

    /** The circuit for one beacon. */
    function For(beacon: string): Circuit {
      Circuit(nodeList, hash, beacon)
    }

    method GetZoneLeaders(beacon: string) returns (vec: seq<string>)
      requires Valid(For(beacon))
      ensures vec == ZoneLeaders(For(beacon))
    {
      hide NumZones, ZoneOf;
      var c := For(beacon);
      var numZones := NumZones(|nodeList|);
      var leader := new string[numZones](_ => "");
      for i := 0 to |nodeList|
        invariant leader.Length == numZones
        invariant forall z :: 0 <= z < numZones ==> leader[z] == FirstOf(MembersUpTo(c, z, i))
      {
        var zone := ZoneOf(c, nodeList[i]);
        if |leader[zone]| < 1 {
          leader[zone] := nodeList[i];
        }
        FirstMembers(c, i);
      }
      vec := leader[..];
    }

    method IsLeader(beacon: string, srvid: string, getFollowers: bool)
      returns (isLeader: bool, followers: seq<string>)
      requires Valid(For(beacon))
      ensures isLeader == Circuits.IsLeader(For(beacon), srvid)
      ensures followers == if isLeader && getFollowers then Followers(For(beacon), ZoneOf(For(beacon), srvid)) else []
    {
      var c := For(beacon);
      var zoneid := ZoneOf(c, srvid);
      isLeader, followers := false, [];
      for i := 0 to |nodeList|
        invariant var s := MembersUpTo(c, zoneid, i);
                  && isLeader == (s != [])
                  && (isLeader ==> s[0] == srvid)
                  && followers == if isLeader && getFollowers then s[1..] else []
      {
        var rec := nodeList[i];
        if ZoneOf(c, rec) == zoneid {
          if !isLeader {
            if srvid != rec {
              MembersExtend(c, zoneid, i + 1, |nodeList|);
              return false, [];
            }
            isLeader := true;
          } else if getFollowers {
            followers := followers + [rec];
          }
        }
      }
    }

    method GetOtherLeadersAndThisFollowers(beacon: string, srvid: string)
      returns (idIsLeader: bool, otherLeaders: seq<string>, followers: seq<string>)
      requires Valid(For(beacon))
      ensures idIsLeader == (srvid in nodeList)
      ensures otherLeaders == OtherLeaders(For(beacon), srvid)
      ensures followers == Without(Members(For(beacon), ZoneOf(For(beacon), srvid)), srvid)
    {
      hide NumZones, ZoneOf;
      var c := For(beacon);
      var numZones := NumZones(|nodeList|);
      var leader := new string[numZones](_ => "");
      var zoneid := ZoneOf(c, srvid);
      idIsLeader, followers := false, [];
      var first := true;
      for i := 0 to |nodeList|
        invariant leader.Length == numZones
        invariant forall z :: 0 <= z < numZones ==>
                    leader[z] == if z == zoneid then "" else FirstOf(MembersUpTo(c, z, i))
        invariant idIsLeader == (srvid in nodeList[..i]) && first == !idIsLeader
        invariant followers == Without(MembersUpTo(c, zoneid, i), srvid)
      {
        var rec := nodeList[i];
        var zone := ZoneOf(c, rec);
        assert nodeList[..i + 1] == nodeList[..i] + [rec];
        if zoneid == zone {
          if first && srvid == rec {
            idIsLeader := true;
            first := false;
          }
          if srvid != rec {
            followers := followers + [rec];
          }
        } else {
          if |leader[zone]| < 1 {
            leader[zone] := rec;
          }
        }
        FirstMembers(c, i);
      }
      assert nodeList[..|nodeList|] == nodeList;
      assert leader[..] == ZoneLeaders(c)[zoneid := ""];
      otherLeaders := Compact(leader);
    }

    /** The entries that are not blank, in order. */
    static method Compact(leader: array<string>) returns (others: seq<string>)
      ensures others == NonBlank(leader[..])
    {
      others := [];
      for i := 0 to leader.Length
        invariant others == NonBlank(leader[..i])
      {
        assert leader[..i + 1][..i] == leader[..i];
        if |leader[i]| > 0 {
          others := others + [leader[i]];
        }
      }
      assert leader[..leader.Length] == leader[..];
    }

    method GetLeader(beacon: string, srvid: string) returns (idIsLeader: bool, leader: seq<string>)
      requires Valid(For(beacon))
      ensures idIsLeader == Circuits.IsLeader(For(beacon), srvid)
      ensures leader == NonBlank([LeaderOf(For(beacon), ZoneOf(For(beacon), srvid))])
    {
      hide NumZones, ZoneOf;
      var c := For(beacon);
      var zoneid := ZoneOf(c, srvid);
      idIsLeader, leader := false, [];
      var first := true;
      for i := 0 to |nodeList|
        invariant first && !idIsLeader && leader == [] && MembersUpTo(c, zoneid, i) == []
      {
        var rec := nodeList[i];
        if zoneid == ZoneOf(c, rec) {
          if first {
            if srvid == rec {
              idIsLeader := true;
            }
            leader := leader + [rec];
            MembersExtend(c, zoneid, i + 1, |nodeList|);
            assert rec in nodeList;
            break;
          }
        }
      }
    }
  }

  /** A zone's members only grow at the end as more of the list is read. */
  lemma {:induction false} MembersExtend(c: Circuit, z: nat, i: nat, k: nat)
    requires Valid(c) && i <= k <= |c.nodes|
    ensures MembersUpTo(c, z, i) <= MembersUpTo(c, z, k)
    decreases k
  {
    if i < k {
      MembersExtend(c, z, i, k - 1);
    }
  }

  /** Reading one more record settles a zone's leader if the zone has none yet. */
  lemma {:induction false} FirstMembers(c: Circuit, i: nat)
    requires Valid(c) && i < |c.nodes|
    ensures forall z: nat :: FirstOf(MembersUpTo(c, z, i + 1)) ==
              if ZoneOf(c, c.nodes[i]) == z && FirstOf(MembersUpTo(c, z, i)) == "" then c.nodes[i]
              else FirstOf(MembersUpTo(c, z, i))
  {
    hide ZoneOf, MembersUpTo;
    forall z: nat
      ensures FirstOf(MembersUpTo(c, z, i + 1)) ==
                if ZoneOf(c, c.nodes[i]) == z && FirstOf(MembersUpTo(c, z, i)) == "" then c.nodes[i]
                else FirstOf(MembersUpTo(c, z, i))
    {
      FirstMember(c, z, i);
    }
  }

  lemma {:induction false} FirstMember(c: Circuit, z: nat, i: nat)
    requires Valid(c) && i < |c.nodes|
    ensures FirstOf(MembersUpTo(c, z, i + 1)) ==
              if ZoneOf(c, c.nodes[i]) == z && FirstOf(MembersUpTo(c, z, i)) == "" then c.nodes[i]
              else FirstOf(MembersUpTo(c, z, i))
  {
    hide ZoneOf;
    var s := MembersUpTo(c, z, i);
    if s != [] {
      var first := s[0];
      assert first in s;
      assert first in c.nodes[..i];
      assert first in c.nodes;
      assert first != "";
      assert FirstOf(s + [c.nodes[i]]) == first;
    }
  }
}
