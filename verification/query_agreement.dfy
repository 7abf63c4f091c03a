/** What stands behind the reply to a voted query, in every run. */
module QueryAgreement {
  import opened Quorum
  import opened Topologies
  import opened NodeSteps
  import opened QuerySteps
  import opened QueryClusters

  ghost function Sources(ms: set<Query>): set<string> {
    set m | m in ms :: m.src
  }

  ghost function Carrying(ms: set<Query>, res: string): set<Query> {
    set m | m in ms && m.response == res
  }

  lemma {:induction false} OneEach(ms: set<Query>)
    requires forall m, n :: m in ms && n in ms && m.src == n.src ==> m == n
    ensures |Sources(ms)| == |ms|
    decreases |ms|
  {
    if ms == {} {
      assert Sources(ms) == {};
    } else {
      var m :| m in ms;
      OneEach(ms - {m});
      assert Sources(ms) == Sources(ms - {m}) + {m.src};
    }
  }

  /** Zone leader g computed res, and has counted the votes for res of a quorum of its followers, each of whom
      computed it too. */
  ghost predicate ZoneAgrees(t: Topology, c: QueryCluster, g: string, res: string)
    requires c.nodes.Keys == t.Nodes()
  {
    && g in t.Leaders() && (g, res) in c.computed
    && var voters := Sources(Carrying(Ballots(c.counted, K, g), res));
       && IsQuorum(|voters|, |t.Zone(g)|)
       && forall h :: h in voters ==> h != g && h in t.lead && t.lead[h] == g && (h, res) in c.computed
  }

  ghost function Agreeing(t: Topology, c: QueryCluster, res: string): set<string>
    requires c.nodes.Keys == t.Nodes()
  {
    set g | g in t.Leaders() && ZoneAgrees(t, c, g, res)
  }

  /** More than half of the zones, empty ones included, agree on res. */
  ghost predicate Agreed(t: Topology, zones: nat, c: QueryCluster, res: string)
    requires c.nodes.Keys == t.Nodes()
  {
    |Agreeing(t, c, res)| >= zones / 2 + 1
  }

  lemma {:induction false} KVotesAreAlike(t: Topology, zones: nat, c: QueryCluster, g: string, m: Query)
    requires Safe(t, zones, c) && m in Ballots(c.counted, K, g)
    ensures g in c.taken && c.taken[g] == (m.initer, m.response)
    ensures m.src in t.lead && t.lead[m.src] == g && m.src != g && (m.src, m.response) in c.computed
  {
    hide NodeOk, HistoryOk;
    WireSays(t, c, m);
  }

  /** An l vote that was counted speaks for a zone that agrees on what it carries, and goes to its initiator. */
  lemma {:induction false} LVoterAgrees(t: Topology, zones: nat, c: QueryCluster, x: string, m: Query)
    requires Safe(t, zones, c) && m in Ballots(c.counted, L, x)
    ensures ZoneAgrees(t, c, m.src, m.response)
    ensures m.initer == x && (x, m.response) in c.submitted
    ensures m.src in c.taken && c.taken[m.src] == (m.initer, m.response)
  {
    hide NodeOk, HistoryOk;
    WireSays(t, c, m);
    var g := m.src;
    var ballots := Ballots(c.counted, K, g);
    forall k | k in ballots
      ensures k.response == m.response && k.initer == m.initer && k.src in t.lead && t.lead[k.src] == g && k.src != g
      ensures (k.src, m.response) in c.computed && k.kind == K && k.dst == g
    {
      KVotesAreAlike(t, zones, c, g, k);
    }
    assert Carrying(ballots, m.response) == ballots;
    OneEach(ballots);
    t.ZoneQuorumIsQuorum(g, |ballots|);
  }

  lemma {:induction false} LVotesAreDistinct(t: Topology, zones: nat, c: QueryCluster, x: string)
    requires Safe(t, zones, c)
    ensures |Sources(Ballots(c.counted, L, x))| == |Ballots(c.counted, L, x)|
  {
    hide Safe, ZoneAgrees;
    forall m, n | m in Ballots(c.counted, L, x) && n in Ballots(c.counted, L, x) && m.src == n.src ensures m == n {
      LVoterAgrees(t, zones, c, x, m);
      LVoterAgrees(t, zones, c, x, n);
    }
    OneEach(Ballots(c.counted, L, x));
  }

  /** Behind every reply, whatever was submitted where: x replies once, with a result it computed itself, after
      counting l votes of more than half of the zones. Each vote carries a response submitted at x, and its zone
      agrees on that response. */
  lemma {:induction false} ReplyIsBacked(t: Topology, zones: nat, steps: seq<QueryStep>, x: string)
    requires t.Valid() && IsRun(t, zones, steps) && x in t.lead
    requires After(t, zones, steps).nodes[x].replies != []
    ensures var c := After(t, zones, steps);
            var votes := Ballots(c.counted, L, x);
            && |c.nodes[x].replies| == 1 && (x, c.nodes[x].replies[0]) in c.computed
            && |Sources(votes)| >= zones / 2 + 1
            && forall m :: m in votes ==> (x, m.response) in c.submitted && ZoneAgrees(t, c, m.src, m.response)
  {
    hide ZoneAgrees, Wire, HistoryOk, Ballots;
    var c := After(t, zones, steps);
    RunsAreSafe(t, zones, steps);
    assert NodeOk(t, zones, c, x);
    LVotesAreDistinct(t, zones, c, x);
    forall m | m in Ballots(c.counted, L, x)
      ensures (x, m.response) in c.submitted && ZoneAgrees(t, c, m.src, m.response)
    {
      LVoterAgrees(t, zones, c, x, m);
    }
  }

  lemma {:induction false} ComputedWasSubmitted(t: Topology, zones: nat, c: QueryCluster, x: string, res: string)
    requires Safe(t, zones, c) && (x, res) in c.computed
    ensures exists y :: (y, res) in c.submitted
  {
    hide Wire, NodeOk;
    assert (x, res).1 == res;
  }

  /** When all submissions at x carry one response, more than half of the zones agree on that response. What x
      replies is the first result it kept for the id, though: that response, or one submitted at another node. */
  lemma {:induction false} OwnResponseIsAgreed(t: Topology, zones: nat, steps: seq<QueryStep>, x: string, res: string)
    requires t.Valid() && IsRun(t, zones, steps) && x in t.lead
    requires After(t, zones, steps).nodes[x].replies != []
    requires forall p :: p in After(t, zones, steps).submitted && p.0 == x ==> p.1 == res
    ensures var c := After(t, zones, steps);
            && Agreed(t, zones, c, res)
            && |c.nodes[x].replies| == 1
            && (c.nodes[x].replies == [res] || exists y :: y != x && (y, c.nodes[x].replies[0]) in c.submitted)
  {
    hide ZoneAgrees, Safe, Ballots;
    var c := After(t, zones, steps);
    ReplyIsBacked(t, zones, steps, x);
    RunsAreSafe(t, zones, steps);
    var s := c.nodes[x].replies[0];
    ComputedWasSubmitted(t, zones, c, x, s);
    forall g | g in Sources(Ballots(c.counted, L, x)) ensures g in Agreeing(t, c, res) {
      var m :| m in Ballots(c.counted, L, x) && m.src == g;
      assert (x, m.response).0 == x;
      ZoneIsLeader(t, c, g, res);
    }
    SubsetSize(Sources(Ballots(c.counted, L, x)), Agreeing(t, c, res));
    var y :| (y, s) in c.submitted;
    assert y == x ==> (y, s).0 == x && (y, s).1 == s;
    assert c.nodes[x].replies == [s];
  }

  lemma {:induction false} ZoneIsLeader(t: Topology, c: QueryCluster, g: string, res: string)
    requires c.nodes.Keys == t.Nodes() && ZoneAgrees(t, c, g, res)
    ensures g in t.Leaders()
  {
  }

  // ----- Submissions of a run -----

  /** Every submission in the run, at whatever node, carries one of these responses. */
  ghost predicate CarryOnly(steps: seq<QueryStep>, responses: set<string>) {
    forall s :: s in steps && s.Submit? ==> s.res in responses
  }

  lemma {:induction false} SubmittedByStep(t: Topology, zones: nat, c: QueryCluster, s: QueryStep)
    requires c.nodes.Keys == t.Nodes() && CanStep(t, c, s)
    ensures Apply(t, zones, c, s).submitted == c.submitted + if s.Submit? then {(s.at, s.res)} else {}
  {
    hide HandleQuery;
  }

  lemma {:induction false} SubmittedInRun(t: Topology, zones: nat, steps: seq<QueryStep>, responses: set<string>)
    requires IsRun(t, zones, steps) && CarryOnly(steps, responses)
    ensures forall p :: p in After(t, zones, steps).submitted ==> p.1 in responses
    decreases |steps|
  {
    hide Apply, CanStep;
    if steps != [] {
      var last := |steps| - 1;
      assert forall s :: s in steps[..last] ==> s in steps;
      SubmittedInRun(t, zones, steps[..last], responses);
      assert steps[last] in steps;
      SubmittedByStep(t, zones, After(t, zones, steps[..last]), steps[last]);
    }
  }

  /** Query agreement: when all submissions of the id carry one response, the string sent is that response, and
      for more than half of the zones a leader and a quorum of its followers computed it. */
  lemma {:induction false} ReplyIsAgreed(t: Topology, zones: nat, steps: seq<QueryStep>, x: string, res: string)
    requires t.Valid() && IsRun(t, zones, steps) && x in t.lead && CarryOnly(steps, {res})
    requires After(t, zones, steps).nodes[x].replies != []
    ensures var c := After(t, zones, steps);
            c.nodes[x].replies == [res] && Agreed(t, zones, c, res) && exists r :: (x, r) in c.submitted
  {
    hide Agreed, ZoneAgrees, Ballots;
    var c := After(t, zones, steps);
    SubmittedInRun(t, zones, steps, {res});
    OwnResponseIsAgreed(t, zones, steps, x, res);
    ReplyIsBacked(t, zones, steps, x);
    assert Sources({}) == {};
    var m :| m in Ballots(c.counted, L, x);
  }
}
