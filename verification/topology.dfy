/** Who leads whom for one transaction: all the protocol needs to know about the circuit. */
module Topologies {
  import opened Quorum

  /** Each node's zone leader. */
  datatype Topology = Topology(lead: map<string, string>) {
    function Nodes(): set<string> {
      lead.Keys
    }

    /** The first node of a zone leads it, itself included. */
    ghost predicate Valid() {
      && lead != map[]
      && forall x :: x in lead ==> lead[x] in lead && lead[lead[x]] == lead[x]
    }

    function Leaders(): (s: set<string>) {
      set x | x in lead && lead[x] == x
    }

    /** The leaders of the other zones. */
    function Others(x: string): set<string>
      requires x in lead
    {
      Leaders() - {lead[x]}
    }

    /** The rest of x's zone: its followers when x leads. */
    function Mates(x: string): set<string>
      requires x in lead
    {
      set f | f in lead && f != x && lead[f] == lead[x]
    }

    /** x's zone, its leader included. */
    function Zone(x: string): set<string>
      requires x in lead
    {
      set f | f in lead && lead[f] == lead[x]
    }

    /** The votes that carry x's zone. */
    function ZoneQuorum(x: string): nat
      requires x in lead
    {
      TwoFPlus1(|Mates(x)| + 1)
    }

    /** The leaders' votes that carry a round, as x counts them. */
    function LeaderQuorum(x: string): nat
      requires x in lead
    {
      TwoFPlus1(|Others(x)| + 1)
    }

    /** Every node asks for the same number of leaders. */
    lemma {:induction false} OneLeaderQuorum(x: string)
      requires Valid() && x in lead
      ensures lead[x] in Leaders()
      ensures LeaderQuorum(x) == TwoFPlus1(|Leaders()|)
    {
      assert Leaders() == Others(x) + {lead[x]};
    }

    /** The votes that carry a zone are a quorum of the zone, its leader included. */
    lemma {:induction false} ZoneQuorumIsQuorum(x: string, votes: nat)
      requires x in lead
      ensures votes >= ZoneQuorum(x) <==> IsQuorum(votes, |Zone(x)|)
    {
      assert Zone(x) == Mates(x) + {x};
      ThresholdIsQuorum(votes, |Zone(x)|);
    }

    /** The leaders' votes that carry a round are a quorum of all leaders. */
    lemma {:induction false} LeaderQuorumIsQuorum(x: string, votes: nat)
      requires Valid() && x in lead
      ensures votes >= LeaderQuorum(x) <==> IsQuorum(votes, |Leaders()|)
    {
      OneLeaderQuorum(x);
      ThresholdIsQuorum(votes, |Leaders()|);
    }
  }
}
