/** What every run of the protocol keeps, stated on runs. */
module ClusterTheorems {
  import opened Quorum
  import opened Topologies
  import opened NodeSteps
  import opened Clusters
  import opened ClusterSafety

  /** Leader g sent its l votes after counting the votes of a quorum of its own zone. */
  ghost predicate ZoneBacked(t: Topology, c: Cluster, g: string)
    requires c.nodes.Keys == t.Nodes()
  {
    && g in t.Leaders() && c.nodes[g].st >= ST_C
    && IsQuorum(|Voters(t, c.counted, K, g)|, |t.Zone(g)|)
    && forall h :: h in Voters(t, c.counted, K, g) ==> t.lead[h] == g
  }

  /** Leader f sent its m votes after counting the votes of a quorum of leaders, each backed by its zone. */
  ghost predicate LeaderBacked(t: Topology, c: Cluster, f: string)
    requires c.nodes.Keys == t.Nodes()
  {
    && f in t.Leaders() && c.nodes[f].st >= ST_D
    && IsQuorum(|Voters(t, c.counted, L, f)|, |t.Leaders()|)
    && forall g :: g in Voters(t, c.counted, L, f) ==> ZoneBacked(t, c, g)
  }

  lemma {:induction false} LVotersAreBacked(t: Topology, c: Cluster, f: string, g: string)
    requires t.Valid() && Safe(t, c) && f in t.lead && g in Voters(t, c.counted, L, f)
    ensures ZoneBacked(t, c, g)
  {
    hide CountsOk, StateOk, IsQuorum;
    assert Addressed(t, Message(L, g, f)) && SentInOrder(t, c, Message(L, g, f));
    assert NodeSafe(t, c, g);
    t.ZoneQuorumIsQuorum(g, |Voters(t, c.counted, K, g)|);
    forall h | h in Voters(t, c.counted, K, g) ensures t.lead[h] == g {
      assert Addressed(t, Message(K, h, g));
    }
  }

  lemma {:induction false} MVotersAreBacked(t: Topology, c: Cluster, x: string, f: string)
    requires t.Valid() && Safe(t, c) && x in t.lead && f in Voters(t, c.counted, M, x)
    ensures LeaderBacked(t, c, f)
  {
    hide CountsOk, StateOk, IsQuorum;
    assert Addressed(t, Message(M, f, x)) && SentInOrder(t, c, Message(M, f, x));
    assert NodeSafe(t, c, f);
    t.LeaderQuorumIsQuorum(f, |Voters(t, c.counted, L, f)|);
    forall g | g in Voters(t, c.counted, L, f) ensures ZoneBacked(t, c, g) {
      LVotersAreBacked(t, c, f, g);
    }
  }

  /** The certificate behind a commit: once any node has committed, its leader has received and counted m votes
      of a quorum of leaders, each of those l votes of a quorum of leaders, and each of these k votes of a quorum
      of distinct nodes of its own zone. */
  lemma {:induction false} CommitCertificate(t: Topology, steps: seq<Step>, x: string)
    requires t.Valid() && IsRun(t, steps)
    requires x in t.lead && After(t, steps).nodes[x].commits > 0
    ensures var c := After(t, steps);
            && IsQuorum(|Voters(t, c.counted, M, t.lead[x])|, |t.Leaders()|)
            && forall f :: f in Voters(t, c.counted, M, t.lead[x]) ==> LeaderBacked(t, c, f)
  {
    hide LeaderBacked, CountsOk, IsQuorum;
    var c := After(t, steps);
    RunsAreSafe(t, steps);
    assert NodeSafe(t, c, x);
    if t.lead[x] != x {
      var order := Message(N, t.lead[x], x);
      assert Addressed(t, order) && SentInOrder(t, c, order);
    }
    assert NodeSafe(t, c, t.lead[x]);
    t.LeaderQuorumIsQuorum(t.lead[x], |Voters(t, c.counted, M, t.lead[x])|);
    forall f | f in Voters(t, c.counted, M, t.lead[x]) ensures LeaderBacked(t, c, f) {
      MVotersAreBacked(t, c, t.lead[x], f);
    }
  }

  /** Requests and votes reach leaders only, polls and commit orders followers only. So a follower never
      acts on the weak leader test of the vote handlers, and no leader ever refuses a commit order. */
  lemma {:induction false} MailIsAddressed(t: Topology, steps: seq<Step>)
    requires t.Valid() && IsRun(t, steps)
    ensures forall m :: m in After(t, steps).flight ==>
              && m.dst in t.lead
              && (m.dst in t.Leaders() <==> m.kind == I || m.kind == K || m.kind == L || m.kind == M)
  {
    hide NodeSafe, SentInOrder;
    RunsAreSafe(t, steps);
    var c := After(t, steps);
    forall m | m in c.flight
      ensures m.dst in t.lead && (m.dst in t.Leaders() <==> m.kind == I || m.kind == K || m.kind == L || m.kind == M)
    {
      assert m in c.sent && Addressed(t, m);
    }
  }

  /** The transaction is handed to the block manager at most once, and has been exactly when the state is F. */
  lemma {:induction false} CommitsExactlyInF(t: Topology, steps: seq<Step>, x: string)
    requires t.Valid() && IsRun(t, steps) && x in t.lead
    ensures var s := After(t, steps).nodes[x];
            s.commits <= 1 && (s.commits == 1 <==> s.st == ST_F)
  {
    RunsAreSafe(t, steps);
    assert NodeSafe(t, After(t, steps), x);
  }

  lemma {:induction false} HandlerRises(t: Topology, c: Cluster, msg: Message, valid: bool)
    requires t.Valid() && Safe(t, c) && msg in c.flight && msg.dst in t.lead
    ensures c.nodes[msg.dst].st <= Handle(t, msg.dst, c.nodes[msg.dst], msg.kind, valid).ns.st
  {
    hide Evidence, CountsOk, Certified, Handle, SentInOrder;
    assert msg in c.sent && Addressed(t, msg);
    assert NodeSafe(t, c, msg.dst);
    HandlerIsOk(t, msg.dst, c.nodes[msg.dst], msg.kind, valid);
  }

  lemma {:induction false} StateRises(t: Topology, c: Cluster, s: Step, x: string)
    requires t.Valid() && Safe(t, c) && CanStep(t, c, s) && x in t.lead
    ensures c.nodes[x].st <= Apply(t, c, s).nodes[x].st
  {
    hide NodeSafe, Wire, Handle, To;
    if s.Deliver? {
      HandlerRises(t, c, s.msg, s.valid);
    }
  }

  /** The state byte of a node never falls, from any point of a run to any later one. */
  lemma {:induction false} StateNeverFalls(t: Topology, steps: seq<Step>, k: nat, x: string)
    requires t.Valid() && IsRun(t, steps) && k <= |steps| && x in t.lead
    ensures IsRun(t, steps[..k])
    ensures After(t, steps[..k]).nodes[x].st <= After(t, steps).nodes[x].st
    decreases |steps|
  {
    hide Safe, Apply;
    if k == |steps| {
      assert steps[..k] == steps;
    } else {
      var last := |steps| - 1;
      assert steps[..last][..k] == steps[..k];
      StateNeverFalls(t, steps[..last], k, x);
      RunsAreSafe(t, steps[..last]);
      StateRises(t, After(t, steps[..last]), steps[last], x);
    }
  }

  // ----- One zone -----

  ghost predicate Undecided(t: Topology, c: Cluster)
    requires c.nodes.Keys == t.Nodes()
  {
    forall x :: x in t.Leaders() ==> c.nodes[x].st < ST_D
  }

  lemma {:induction false} SoleLeader(t: Topology, x: string, y: string)
    requires |t.Leaders()| == 1 && x in t.Leaders() && y in t.Leaders()
    ensures x == y
  {
    if x != y {
      SubsetSize({x, y}, t.Leaders());
    }
  }

  lemma {:induction false} UndecidedHandler(t: Topology, x: string, s: NodeState, kind: Kind, valid: bool)
    requires x in t.lead && t.lead[x] == x && s.st < ST_D && kind != L && kind != M && kind != N
    ensures Handle(t, x, s, kind, valid).ns.st < ST_D
  {
  }

  /** Among the votes and orders, only polls and k votes reach a sole leader. */
  lemma {:induction false} SoleLeaderHears(t: Topology, c: Cluster, msg: Message)
    requires t.Valid() && |t.Leaders()| == 1 && Safe(t, c) && msg in c.flight && msg.dst in t.Leaders()
    ensures msg.kind != L && msg.kind != M && msg.kind != N
  {
    hide NodeSafe, SentInOrder;
    assert msg in c.sent && Addressed(t, msg) && (msg.kind != I ==> msg.src != msg.dst);
    if msg.kind == L || msg.kind == M {
      SoleLeader(t, msg.src, msg.dst);
    }
  }

  lemma {:induction false} UndecidedStays(t: Topology, c: Cluster, s: Step)
    requires t.Valid() && |t.Leaders()| == 1 && Safe(t, c) && Undecided(t, c) && CanStep(t, c, s)
    ensures Undecided(t, Apply(t, c, s))
  {
    hide NodeSafe, Wire, Handle;
    if s.Deliver? && s.msg.dst in t.Leaders() {
      SoleLeaderHears(t, c, s.msg);
      UndecidedHandler(t, s.msg.dst, c.nodes[s.msg.dst], s.msg.kind, s.valid);
    }
  }

  lemma {:induction false} SoleZoneStaysUndecided(t: Topology, steps: seq<Step>)
    requires t.Valid() && |t.Leaders()| == 1 && IsRun(t, steps)
    ensures Undecided(t, After(t, steps))
    decreases |steps|
  {
    hide Safe;
    if steps != [] {
      var last := |steps| - 1;
      SoleZoneStaysUndecided(t, steps[..last]);
      RunsAreSafe(t, steps[..last]);
      UndecidedStays(t, After(t, steps[..last]), steps[last]);
    }
  }

  /** With a single zone no l or m is ever sent, and nothing is ever committed. */
  lemma {:induction false} SoleZoneNeverCommits(t: Topology, steps: seq<Step>, x: string)
    requires t.Valid() && |t.Leaders()| == 1 && IsRun(t, steps) && x in t.lead
    ensures After(t, steps).nodes[x].commits == 0
  {
    var c := After(t, steps);
    RunsAreSafe(t, steps);
    SoleZoneStaysUndecided(t, steps);
    t.OneLeaderQuorum(x);
    assert NodeSafe(t, c, x);
    var order := Message(N, t.lead[x], x);
    assert order in c.sent ==> Addressed(t, order) && SentInOrder(t, c, order);
  }
}
