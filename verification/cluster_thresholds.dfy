/** How long a leader waits, in every run: it casts each vote as soon as a quorum has been counted and not before, and
    it counts itself. */
module ClusterThresholds {
  import opened Quorum
  import opened Topologies
  import opened NodeSteps
  import opened Clusters
  import opened ClusterSafety
  import opened ClusterTheorems

  /** The votes a leader still keeps count of are short of a quorum. In B it has counted itself; its own l vote, cast
      on the way to C, is not checked until another arrives. */
  ghost predicate Waits(t: Topology, g: string, s: NodeState)
    requires g in t.lead
  {
    && (s.st == ST_NULL ==> s.k == 0)
    && (s.st == ST_B ==> s.k <= 1 || !IsQuorum(s.k, |t.Zone(g)|))
    && (s.st < ST_C ==> !IsQuorum(s.l, |t.Leaders()|))
    && (s.st == ST_C ==> s.k == 0 && (s.l == 0 || !IsQuorum(s.l - 1, |t.Leaders()|)))
    && (s.st == ST_D ==> s.l == 0)
    && (s.st < ST_E ==> !IsQuorum(s.m, |t.Leaders()|))
    && (s.st == ST_F ==> s.m == 0)
  }

  /** A leader's own votes are among those it has counted. */
  ghost predicate CountsItself(c: Cluster, g: string)
    requires g in c.nodes
  {
    && (c.nodes[g].st == ST_B ==> Message(K, g, g) in c.counted)
    && (c.nodes[g].st == ST_C ==> Message(L, g, g) in c.counted)
    && (c.nodes[g].st == ST_D ==> Message(M, g, g) in c.counted)
  }

  ghost predicate OnTime(t: Topology, c: Cluster)
    requires c.nodes.Keys == t.Nodes()
  {
    forall g :: g in t.Leaders() ==> Waits(t, g, c.nodes[g]) && CountsItself(c, g)
  }

  // ----- One handler -----

  lemma {:induction false} NobodyIsNoQuorum(n: nat)
    ensures !IsQuorum(0, n)
  {
  }

  /** What a leader does with a message keeps it on time; a leader hears no n, and a k vote only once it has polled. */
  lemma {:induction false} HandlerWaits(t: Topology, g: string, s: NodeState, kind: Kind, valid: bool)
    requires t.Valid() && g in t.Leaders() && Waits(t, g, s) && LocalOk(true, s)
    requires kind != N && (kind == K ==> s.st != ST_NULL)
    ensures Waits(t, g, Handle(t, g, s, kind, valid).ns)
  {
    hide IsQuorum;
    NobodyIsNoQuorum(|t.Leaders()|);
    t.ZoneQuorumIsQuorum(g, s.k + 1);
    t.LeaderQuorumIsQuorum(g, s.l + 1);
    t.LeaderQuorumIsQuorum(g, s.m + 1);
    MoreIsQuorum(s.l, s.l + 1, |t.Leaders()|);
    if t.Mates(g) == {} {
      assert t.ZoneQuorum(g) == 1;
    }
  }

  lemma {:induction false} HandlerCountsItself(t: Topology, g: string, s: NodeState, kind: Kind, valid: bool)
    requires g in t.Leaders()
    ensures var e := Handle(t, g, s, kind, valid);
            && (e.ns.st == ST_B ==> s.st == ST_B || Message(K, g, g) in e.own)
            && (e.ns.st == ST_C ==> s.st == ST_C || Message(L, g, g) in e.own)
            && (e.ns.st == ST_D ==> s.st == ST_D || Message(M, g, g) in e.own)
  {
  }

  // ----- Every run -----

  lemma {:induction false} Hears(t: Topology, c: Cluster, msg: Message)
    requires t.Valid() && Safe(t, c) && msg in c.flight && msg.dst in t.Leaders()
    ensures msg.kind != N && (msg.kind == K ==> c.nodes[msg.dst].st != ST_NULL)
    ensures LocalOk(true, c.nodes[msg.dst])
  {
    hide CountsOk, Certified;
    WireSays(t, c, msg);
    assert NodeSafe(t, c, msg.dst);
    if msg.kind == K && msg.src != msg.dst {
      WireSays(t, c, Message(J, msg.dst, msg.src));
    }
  }

  lemma {:induction false} DeliverOnTime(t: Topology, c: Cluster, msg: Message, valid: bool)
    requires t.Valid() && Safe(t, c) && c.nodes.Keys == t.Nodes() && OnTime(t, c) && CanStep(t, c, Deliver(msg, valid))
    ensures OnTime(t, Apply(t, c, Deliver(msg, valid)))
  {
    hide Safe, Waits, Handle;
    if msg.dst in t.Leaders() {
      Hears(t, c, msg);
      HandlerWaits(t, msg.dst, c.nodes[msg.dst], msg.kind, valid);
      HandlerCountsItself(t, msg.dst, c.nodes[msg.dst], msg.kind, valid);
    }
  }

  lemma {:induction false} LessWaits(t: Topology, g: string, s: NodeState, less: NodeState)
    requires g in t.lead && Waits(t, g, s)
    requires less.st == s.st && less.k <= s.k && less.l <= s.l && less.m <= s.m
    ensures Waits(t, g, less)
  {
    hide IsQuorum;
    MoreIsQuorum(less.k, s.k, |t.Zone(g)|);
    MoreIsQuorum(less.l, s.l, |t.Leaders()|);
    MoreIsQuorum(less.m, s.m, |t.Leaders()|);
    if less.l > 0 {
      MoreIsQuorum(less.l - 1, s.l - 1, |t.Leaders()|);
    }
  }

  lemma {:induction false} StepOnTime(t: Topology, c: Cluster, s: Step)
    requires t.Valid() && Safe(t, c) && c.nodes.Keys == t.Nodes() && OnTime(t, c) && CanStep(t, c, s)
    ensures OnTime(t, Apply(t, c, s))
  {
    hide Safe, Waits, Handle;
    match s {
      case Deliver(msg, valid) => DeliverOnTime(t, c, msg, valid);
      case Cleanup(at, _, _, _) =>
        if at in t.Leaders() {
          LessWaits(t, at, c.nodes[at], Apply(t, c, s).nodes[at]);
        }
      case Submit(_, _) =>
      case Lose(_) =>
    }
  }

  lemma {:induction false} StartIsOnTime(t: Topology)
    requires t.Valid()
    ensures OnTime(t, Start(t))
  {
    hide IsQuorum;
    NobodyIsNoQuorum(|t.Leaders()|);
  }

  lemma {:induction false} RunsAreOnTime(t: Topology, steps: seq<Step>)
    requires t.Valid() && IsRun(t, steps)
    ensures OnTime(t, After(t, steps))
    decreases |steps|
  {
    hide Safe, OnTime, Apply;
    if steps == [] {
      StartIsOnTime(t);
    } else {
      var last := |steps| - 1;
      RunsAreOnTime(t, steps[..last]);
      RunsAreSafe(t, steps[..last]);
      StepOnTime(t, After(t, steps[..last]), steps[last]);
    }
  }

  /** In every run a leader reaches C, and sends an l vote, only with the k votes of a quorum of its zone counted; and
      in B the k votes it keeps count of are short of one, or it is still alone with its own. The same holds for the l
      votes and D, and for the m votes and the commit, among all leaders. */
  lemma {:induction false} VotesAtQuorum(t: Topology, steps: seq<Step>, g: string)
    requires t.Valid() && IsRun(t, steps) && g in t.Leaders()
    ensures var c := After(t, steps);
            var zone := IsQuorum(|Voters(t, c.counted, K, g)|, |t.Zone(g)|);
            var leaders := IsQuorum(|Voters(t, c.counted, L, g)|, |t.Leaders()|);
            && Waits(t, g, c.nodes[g]) && CountsItself(c, g)
            && (c.nodes[g].st == ST_C ==> zone)
            && (c.nodes[g].st == ST_D ==> leaders)
            && (c.nodes[g].st == ST_F ==> IsQuorum(|Voters(t, c.counted, M, g)|, |t.Leaders()|))
            && forall m :: m in c.sent && m.src == g ==> (m.kind == L ==> zone) && (m.kind == M ==> leaders)
  {
    hide CountsOk, IsQuorum, Waits;
    var c := After(t, steps);
    RunsAreSafe(t, steps);
    RunsAreOnTime(t, steps);
    assert NodeSafe(t, c, g);
    t.ZoneQuorumIsQuorum(g, |Voters(t, c.counted, K, g)|);
    t.LeaderQuorumIsQuorum(g, |Voters(t, c.counted, L, g)|);
    t.LeaderQuorumIsQuorum(g, |Voters(t, c.counted, M, g)|);
    forall m | m in c.sent && m.src == g && (m.kind == L || m.kind == M) ensures Message(m.kind, g, g) in c.sent {
      WireSays(t, c, m);
    }
  }

  /** What should not happen does no harm: a poll or an invitation at the wrong node is not answered, and a commit
      order at a leader commits nothing, although the state becomes F. */
  lemma {:induction false} MisaddressedIsHarmless(t: Topology, x: string, s: NodeState, kind: Kind)
    requires x in t.lead && s.st < 'F' as int
    ensures var e := Handle(t, x, s, kind, true);
            && ((kind == J && t.lead[x] == x) || (kind == I && t.lead[x] != x) ==>
                  e.ns == s && e.mail == {} && e.own == {})
            && (kind == N && t.lead[x] == x ==> e.ns == s.(st := 70) && e.mail == {} && e.own == {})
  {
  }

  /** Does this vote complete the quorum that its round asks for, at a node that has not passed the round? */
  ghost predicate Completes(t: Topology, x: string, s: NodeState, kind: Kind)
    requires x in t.lead
  {
    || (kind == K && s.st < 'C' as int && IsQuorum(s.k + 1, |t.Zone(x)|))
    || (kind == L && s.st < 'D' as int && IsQuorum(s.l + 1, |t.Leaders()|))
    || (kind == M && s.st < 'E' as int && IsQuorum(s.m + 1, |t.Leaders()|))
  }

  /** Votes are counted at any node, leader or not, since its own weak leader test always holds. A vote moves the node
      on exactly when it completes the quorum there: k to C, l to D or at once to F, m to F. */
  lemma {:induction false} VoteMovesExactly(t: Topology, x: string, s: NodeState, kind: Kind)
    requires t.Valid() && x in t.lead && s.st < 'F' as int && (kind == K || kind == L || kind == M)
    ensures var after := Handle(t, x, s, kind, true).ns.st;
            after == if !Completes(t, x, s, kind) then s.st
                     else if kind == K then 'C' as int
                     else if kind == L && !IsQuorum(s.m + 1, |t.Leaders()|) then 'D' as int
                     else 'F' as int
  {
    hide IsQuorum;
    t.ZoneQuorumIsQuorum(x, s.k + 1);
    t.LeaderQuorumIsQuorum(x, s.l + 1);
    t.LeaderQuorumIsQuorum(x, s.m + 1);
  }

  /** A message that comes after the commit, or that validation rejects, changes nothing and is not answered. */
  lemma {:induction false} LateOrRejectedIsDropped(t: Topology, x: string, s: NodeState, kind: Kind, valid: bool)
    requires x in t.lead && (s.st >= 'F' as int || !valid)
    ensures var e := Handle(t, x, s, kind, valid); e.ns == s && e.mail == {} && e.own == {}
  {
  }
}
