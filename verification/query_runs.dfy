/** When the replies to a voted query are agreed, and runs in which they are not. */
module QueryRuns {
  import opened Quorum
  import opened Wrappers
  import opened Topologies
  import opened NodeSteps
  import opened QuerySteps
  import opened QueryClusters
  import opened QueryAgreement

  ghost predicate Reaches(t: Topology, zones: nat, steps: seq<QueryStep>, c: QueryCluster) {
    IsRun(t, zones, steps) && After(t, zones, steps) == c
  }

  lemma {:induction false} Take(t: Topology, zones: nat, steps: seq<QueryStep>, c: QueryCluster, s: QueryStep)
    requires Reaches(t, zones, steps, c) && CanStep(t, c, s)
    ensures Reaches(t, zones, steps + [s], Apply(t, zones, c, s))
  {
    hide Apply, CanStep;
    assert (steps + [s])[..|steps|] == steps;
  }

  /** Later steps that submit nothing. */
  ghost predicate NoMoreSubmits(steps: seq<QueryStep>, more: seq<QueryStep>) {
    forall s :: s in more && s.Submit? ==> s in steps
  }

  // ----- A zone votes -----

  /** From c to d only zone g acted, for response r: other nodes keep their state, except that followers of g may
      have kept r; invitations to other zones are still in flight. */
  ghost predicate Moves(t: Topology, c: QueryCluster, d: QueryCluster, g: string, r: string) {
    && c.nodes.Keys == t.Nodes() && d.nodes.Keys == t.Nodes()
    && (forall y :: y in t.lead && y != g ==>
          d.nodes[y] == c.nodes[y] || (t.lead[y] == g && d.nodes[y] == Keep(c.nodes[y], r)))
    && (forall m :: m in c.flight && m.kind == I && m.dst != g ==> m in d.flight)
    && (forall m :: m in d.counted && m.kind == K ==> m in c.counted || (m.dst == g && m.response == r))
  }

  lemma {:induction false} MovesOn(t: Topology, c: QueryCluster, d: QueryCluster, e: QueryCluster, g: string, r: string)
    requires Moves(t, c, d, g, r) && Moves(t, d, e, g, r)
    ensures Moves(t, c, e, g, r)
  {
  }

  /** An accepted delivery, with the handler's effect e. */
  lemma {:induction false} Accepted(t: Topology, zones: nat, c: QueryCluster, msg: Query, e: QueryEffect)
    requires c.nodes.Keys == t.Nodes() && msg in c.flight && msg.dst in t.lead
    requires e == HandleQuery(t, msg.dst, c.nodes[msg.dst], msg, zones, true, msg.response)
    ensures CanStep(t, c, Deliver(msg, true, msg.response))
    ensures var d := Apply(t, zones, c, Deliver(msg, true, msg.response));
            && d.nodes == c.nodes[msg.dst := e.qs] && d.submitted == c.submitted
            && (forall m :: m in c.flight && m != msg ==> m in d.flight)
            && (forall m :: m in e.mail ==> m in d.flight)
            && (forall m :: m in d.counted ==> m in c.counted || m == msg)
  {
    hide HandleQuery, Counts;
  }

  /** Follower h answers the poll, and the answer reaches its leader. */
  lemma {:induction false} PollIsAnswered(t: Topology, zones: nat, c: QueryCluster, g: string, h: string,
                                          x: string, r: string)
    requires t.Valid() && c.nodes.Keys == t.Nodes() && g in t.Leaders() && h in t.Mates(g) && x in t.lead && x != g
    requires Query(J, g, h, x, r) in c.flight
    ensures CanStep(t, c, Deliver(Query(J, g, h, x, r), true, r))
    ensures var d := Apply(t, zones, c, Deliver(Query(J, g, h, x, r), true, r));
            && Moves(t, c, d, g, r) && d.nodes[g] == c.nodes[g]
            && Query(K, h, g, x, r) in d.flight && d.nodes[h] == Keep(c.nodes[h], r)
            && forall m :: m in c.flight && m != Query(J, g, h, x, r) ==> m in d.flight
  {
    hide Apply, CanStep;
    var msg := Query(J, g, h, x, r);
    Accepted(t, zones, c, msg, QueryEffect(Keep(c.nodes[h], r), Pass(msg, K, h, {g})));
  }

  /** The leader counts one vote; at the quorum it tells the initiator. */
  lemma {:induction false} VoteIsCounted(t: Topology, zones: nat, c: QueryCluster, g: string, h: string,
                                         x: string, r: string)
    requires t.Valid() && c.nodes.Keys == t.Nodes() && g in t.Leaders() && x in t.lead && x != g
    requires Query(K, h, g, x, r) in c.flight && c.nodes[g].st == ST_B
    ensures CanStep(t, c, Deliver(Query(K, h, g, x, r), true, r))
    ensures var d := Apply(t, zones, c, Deliver(Query(K, h, g, x, r), true, r));
            && Moves(t, c, d, g, r)
            && (c.nodes[g].k + 1 >= t.ZoneQuorum(g) ==> Query(L, g, x, x, r) in d.flight)
            && (c.nodes[g].k + 1 < t.ZoneQuorum(g) ==> d.nodes[g].st == ST_B && d.nodes[g].k == c.nodes[g].k + 1)
            && forall m :: m in c.flight && m != Query(K, h, g, x, r) ==> m in d.flight
  {
    hide Apply, CanStep;
    var msg := Query(K, h, g, x, r);
    Accepted(t, zones, c, msg, OnQueryK(t, g, Keep(c.nodes[g], r), msg));
  }

  /** Polled followers vote one after the other until the leader has its quorum. */
  lemma {:induction false} ZonePolls(t: Topology, zones: nat, steps: seq<QueryStep>, c: QueryCluster,
                                     g: string, x: string, r: string, left: set<string>)
    returns (more: seq<QueryStep>, d: QueryCluster)
    requires t.Valid() && Reaches(t, zones, steps, c) && g in t.Leaders() && x in t.lead && x != g
    requires c.nodes[g].st == ST_B && left != {} && left <= t.Mates(g)
    requires forall h :: h in left ==> Query(J, g, h, x, r) in c.flight
    requires |left| + c.nodes[g].k >= t.ZoneQuorum(g)
    ensures Reaches(t, zones, more, d) && NoMoreSubmits(steps, more)
    ensures Moves(t, c, d, g, r) && Query(L, g, x, x, r) in d.flight
    decreases |left|
  {
    hide Moves, Apply, CanStep, IsRun, After;
    var h :| h in left;
    var poll, vote := Deliver(Query(J, g, h, x, r), true, r), Deliver(Query(K, h, g, x, r), true, r);
    PollIsAnswered(t, zones, c, g, h, x, r);
    Take(t, zones, steps, c, poll);
    var polled := Apply(t, zones, c, poll);
    VoteIsCounted(t, zones, polled, g, h, x, r);
    Take(t, zones, steps + [poll], polled, vote);
    var voted := Apply(t, zones, polled, vote);
    MovesOn(t, c, polled, voted, g, r);
    more, d := steps + [poll] + [vote], voted;
    if c.nodes[g].k + 1 < t.ZoneQuorum(g) {
      assert |left - {h}| == |left| - 1;
      more, d := ZonePolls(t, zones, more, voted, g, x, r, left - {h});
      MovesOn(t, c, voted, d, g, r);
    }
  }

  /** An idle leader takes up an invitation and polls its followers. */
  lemma {:induction false} InvitationIsTaken(t: Topology, zones: nat, c: QueryCluster, g: string, x: string, r: string)
    requires t.Valid() && c.nodes.Keys == t.Nodes() && g in t.Leaders() && x in t.lead
    requires t.Mates(g) != {} && c.nodes[g].st == ST_NULL && Query(I, x, g, x, r) in c.flight
    ensures CanStep(t, c, Deliver(Query(I, x, g, x, r), true, r))
    ensures var d := Apply(t, zones, c, Deliver(Query(I, x, g, x, r), true, r));
            && Moves(t, c, d, g, r)
            && d.nodes[g] == Keep(c.nodes[g], r).(st := ST_B)
            && forall h :: h in t.Mates(g) ==> Query(J, g, h, x, r) in d.flight
  {
    hide Apply, CanStep;
    var msg := Query(I, x, g, x, r);
    Accepted(t, zones, c, msg, OnQueryI(t, g, Keep(c.nodes[g], r), msg));
  }

  /** An idle zone with followers can bring its vote for x's submission of r on its way to x. */
  lemma {:induction false} ZoneVotes(t: Topology, zones: nat, steps: seq<QueryStep>, c: QueryCluster,
                                     g: string, x: string, r: string)
    returns (more: seq<QueryStep>, d: QueryCluster)
    requires t.Valid() && Reaches(t, zones, steps, c) && g in t.Leaders() && x in t.lead && x != g
    requires t.Mates(g) != {} && c.nodes[g].st == ST_NULL && Query(I, x, g, x, r) in c.flight
    ensures Reaches(t, zones, more, d) && NoMoreSubmits(steps, more)
    ensures Moves(t, c, d, g, r) && Query(L, g, x, x, r) in d.flight
  {
    hide Moves, Apply, CanStep, IsRun, After;
    var take := Deliver(Query(I, x, g, x, r), true, r);
    InvitationIsTaken(t, zones, c, g, x, r);
    Take(t, zones, steps, c, take);
    var taken := Apply(t, zones, c, take);
    more, d := ZonePolls(t, zones, steps + [take], taken, g, x, r, t.Mates(g));
    MovesOn(t, c, taken, d, g, r);
  }

  // ----- The initiator counts -----

  /** From c to d no ballot for anything but r was counted, and only in these zones. */
  ghost predicate CountsOnly(c: QueryCluster, d: QueryCluster, r: string) {
    forall m :: m in d.counted && m.kind == K ==> m in c.counted || m.response == r
  }

  lemma {:induction false} ZoneIsHeard(t: Topology, zones: nat, c: QueryCluster, g: string, x: string, r: string)
    requires t.Valid() && c.nodes.Keys == t.Nodes() && x in t.lead && g in t.Leaders()
    requires Query(L, g, x, x, r) in c.flight && c.nodes[x].st < ST_D
    ensures CanStep(t, c, Deliver(Query(L, g, x, x, r), true, r))
    ensures var s := Keep(c.nodes[x], r);
            var d := Apply(t, zones, c, Deliver(Query(L, g, x, x, r), true, r));
            && d.nodes == c.nodes[x := OnQueryL(t, x, s, zones).qs]
            && CountsOnly(c, d, r) && (forall m :: m in d.counted && m.kind == K ==> m in c.counted)
            && forall m :: m in c.flight && m.kind == I ==> m in d.flight
  {
    hide Apply, CanStep;
    var msg := Query(L, g, x, x, r);
    Accepted(t, zones, c, msg, OnQueryL(t, x, Keep(c.nodes[x], r), zones));
  }

  /** Zones that can still vote for x's submission of r. */
  ghost predicate Idle(t: Topology, c: QueryCluster, g: string, x: string, r: string)
    requires c.nodes.Keys == t.Nodes()
  {
    && g in t.Leaders() && g != x && t.Mates(g) != {}
    && c.nodes[g].st == ST_NULL && Query(I, x, g, x, r) in c.flight
  }

  /** The initiator waits for its client, has kept s, and has counted l zones. */
  ghost predicate Waits(s: QueryState, kept: string, l: nat) {
    s.waiting && s.st < ST_D && s.result == Some(kept) && s.l == l && s.replies == []
  }

  /** One more zone votes for r and is heard; what x has kept does not change. */
  lemma {:induction false} OneMoreZone(t: Topology, zones: nat, steps: seq<QueryStep>, c: QueryCluster,
                                       x: string, r: string, kept: string, l: nat, g: string)
    returns (more: seq<QueryStep>, d: QueryCluster)
    requires t.Valid() && Reaches(t, zones, steps, c) && x in t.lead && Idle(t, c, g, x, r)
    requires Waits(c.nodes[x], kept, l)
    ensures Reaches(t, zones, more, d) && NoMoreSubmits(steps, more) && CountsOnly(c, d, r)
    ensures l + 1 >= zones / 2 + 1 ==> d.nodes[x].replies == [kept]
    ensures l + 1 < zones / 2 + 1 ==> Waits(d.nodes[x], kept, l + 1)
    ensures forall o :: o != g && Idle(t, c, o, x, r) ==> Idle(t, d, o, x, r)
  {
    hide Apply, CanStep, IsRun, After;
    var voted;
    more, voted := ZoneVotes(t, zones, steps, c, g, x, r);
    assert voted.nodes[x] == c.nodes[x];
    var hear := Deliver(Query(L, g, x, x, r), true, r);
    ZoneIsHeard(t, zones, voted, g, x, r);
    Take(t, zones, more, voted, hear);
    more, d := more + [hear], Apply(t, zones, voted, hear);
  }

  /** Zones vote for r until x has its majority; x then replies with what it has kept. */
  lemma {:induction false} GatherVotes(t: Topology, zones: nat, steps: seq<QueryStep>, c: QueryCluster,
                                       x: string, r: string, kept: string, l: nat, gs: set<string>)
    returns (more: seq<QueryStep>, d: QueryCluster)
    requires t.Valid() && Reaches(t, zones, steps, c) && x in t.lead && gs != {}
    requires forall g :: g in gs ==> Idle(t, c, g, x, r)
    requires Waits(c.nodes[x], kept, l) && |gs| + l >= zones / 2 + 1
    ensures Reaches(t, zones, more, d) && NoMoreSubmits(steps, more) && CountsOnly(c, d, r)
    ensures d.nodes[x].replies == [kept]
    decreases |gs|
  {
    hide IsRun, After, Waits, Idle;
    var g :| g in gs;
    more, d := OneMoreZone(t, zones, steps, c, x, r, kept, l, g);
    if l + 1 < zones / 2 + 1 {
      assert |gs - {g}| == |gs| - 1;
      more, d := GatherVotes(t, zones, more, d, x, r, kept, l + 1, gs - {g});
    }
  }

  // ----- Two responses -----

  /** The leaders whose zones can vote for x: others than x, with followers (a leader without any discards the
      quorum it reaches). */
  ghost function Speakers(t: Topology, x: string): set<string> {
    set g | g in t.Leaders() && g != x && t.Mates(g) != {}
  }

  /** Every submission in the run is made at x and carries one of these responses. */
  ghost predicate SubmittedAt(steps: seq<QueryStep>, x: string, responses: set<string>) {
    forall s :: s in steps && s.Submit? ==> s.at == x && s.res in responses
  }

  lemma {:induction false} SubmitInvites(t: Topology, zones: nat, c: QueryCluster, x: string, r: string)
    requires c.nodes.Keys == t.Nodes() && x in t.lead
    ensures CanStep(t, c, Submit(x, r, true))
    ensures var d := Apply(t, zones, c, Submit(x, r, true));
            && d.nodes == c.nodes[x := c.nodes[x].(waiting := true)] && d.counted == c.counted
            && (forall m :: m in c.flight ==> m in d.flight)
            && forall g :: g in t.Leaders() ==> Query(I, x, g, x, r) in d.flight
  {
  }

  /** A zone agrees on a response only if a ballot for it was counted there. */
  lemma {:induction false} AgreementNeedsBallots(t: Topology, c: QueryCluster, g: string, r: string)
    requires c.nodes.Keys == t.Nodes() && ZoneAgrees(t, c, g, r)
    ensures exists m :: m in c.counted && m.kind == K && m.dst == g && m.response == r
  {
    var ballots := Carrying(Ballots(c.counted, K, g), r);
    assert Sources({}) == {};
    var m :| m in ballots;
  }

  /** With every ballot for r counted in zone g0, that zone at most agrees on r. */
  lemma {:induction false} OneZoneIsNotEnough(t: Topology, zones: nat, c: QueryCluster, g0: string, r: string)
    requires c.nodes.Keys == t.Nodes() && zones >= 2
    requires forall m :: m in c.counted && m.kind == K && m.response == r ==> m.dst == g0
    ensures !Agreed(t, zones, c, r)
  {
    hide ZoneAgrees;
    forall g | g in Agreeing(t, c, r) ensures g in {g0} {
      AgreementNeedsBallots(t, c, g, r);
    }
    SubsetSize(Agreeing(t, c, r), {g0});
  }

  lemma {:induction false} StartsIdle(t: Topology, zones: nat, x: string, r: string)
    returns (steps: seq<QueryStep>, c: QueryCluster)
    requires t.Valid() && x in t.lead
    ensures Reaches(t, zones, steps, c) && steps == [Submit(x, r, true)]
    ensures c.counted == {}
    ensures forall g :: g in Speakers(t, x) ==> Idle(t, c, g, x, r)
    ensures forall g :: g in t.lead ==> c.nodes[g] == if g == x then IDLE_QUERY.(waiting := true) else IDLE_QUERY
    ensures forall g :: g in t.Leaders() ==> Query(I, x, g, x, r) in c.flight
  {
    var start := Start(t);
    assert Reaches(t, zones, [], start);
    hide Apply, CanStep, IsRun, After;
    SubmitInvites(t, zones, start, x, r);
    Take(t, zones, [], start, Submit(x, r, true));
    steps, c := [] + [Submit(x, r, true)], Apply(t, zones, start, Submit(x, r, true));
  }

  /** The first zone votes for the first response; x has then kept it and counted one zone. */
  lemma {:induction false} FirstZone(t: Topology, zones: nat, x: string, r: string, g: string)
    returns (steps: seq<QueryStep>, c: QueryCluster)
    requires t.Valid() && x in t.lead && zones >= 2 && g in Speakers(t, x)
    ensures Reaches(t, zones, steps, c) && SubmittedAt(steps, x, {r})
    ensures Waits(c.nodes[x], r, 1)
    ensures forall m :: m in c.counted && m.kind == K ==> m.dst == g && m.response == r
    ensures forall o :: o in Speakers(t, x) - {g} ==> c.nodes[o].st == ST_NULL
  {
    hide Apply, CanStep, IsRun, After;
    var c1, c2;
    steps, c1 := StartsIdle(t, zones, x, r);
    var begun := steps;
    assert Idle(t, c1, g, x, r);
    steps, c2 := ZoneVotes(t, zones, steps, c1, g, x, r);
    var hear := Deliver(Query(L, g, x, x, r), true, r);
    ZoneIsHeard(t, zones, c2, g, x, r);
    Take(t, zones, steps, c2, hear);
    steps, c := steps + [hear], Apply(t, zones, c2, hear);
    forall o | o in Speakers(t, x) - {g} ensures c.nodes[o].st == ST_NULL {
      assert c2.nodes[o] == c1.nodes[o];
    }
  }

  /** With two responses submitted at one node, some run ends with a reply that no majority computed: the first
      zone votes for the first response, the others for the second, and the first is what was kept. */
  lemma {:induction false} TwoResponsesDisagree(t: Topology, zones: nat, x: string, first: string, later: string)
    returns (steps: seq<QueryStep>)
    requires t.Valid() && x in t.lead && zones >= 2 && |Speakers(t, x)| >= zones / 2 + 1 && first != later
    ensures IsRun(t, zones, steps) && SubmittedAt(steps, x, {first, later})
    ensures var c := After(t, zones, steps);
            c.nodes[x].replies == [first] && !Agreed(t, zones, c, first)
  {
    hide Apply, CanStep, IsRun, After;
    var g :| g in Speakers(t, x);
    var c1, c;
    steps, c1 := FirstZone(t, zones, x, first, g);
    SubmitInvites(t, zones, c1, x, later);
    Take(t, zones, steps, c1, Submit(x, later, true));
    var c2 := Apply(t, zones, c1, Submit(x, later, true));
    steps := steps + [Submit(x, later, true)];
    var rest := Speakers(t, x) - {g};
    assert |rest| == |Speakers(t, x)| - 1;
    forall o | o in rest ensures Idle(t, c2, o, x, later) {
      assert c1.nodes[o].st == ST_NULL;
    }
    var before := steps;
    steps, c := GatherVotes(t, zones, steps, c2, x, later, first, 1, rest);
    OneZoneIsNotEnough(t, zones, c, g, first);
  }

  /** Two zones of two nodes each are enough: the follower of one submits the query twice. */
  lemma {:induction false} TwoZonesDisagree() returns (steps: seq<QueryStep>)
    ensures IsRun(TwoZones(), 2, steps) && SubmittedAt(steps, "X", {"1", "2"})
    ensures After(TwoZones(), 2, steps).nodes["X"].replies == ["1"]
    ensures !Agreed(TwoZones(), 2, After(TwoZones(), 2, steps), "1")
  {
    hide TwoZones, IsRun, After;
    TwoSpeakers();
    steps := TwoResponsesDisagree(TwoZones(), 2, "X", "1", "2");
  }

  function TwoZones(): (t: Topology)
    ensures "X" in t.lead
  {
    Topology(map["A" := "A", "X" := "A", "B" := "B", "C" := "B"])
  }

  lemma {:induction false} TwoSpeakers()
    ensures TwoZones().Valid() && |Speakers(TwoZones(), "X")| >= 2
  {
    var t := TwoZones();
    assert "X" in t.Mates("A") && "C" in t.Mates("B");
    SubsetSize({"A", "B"}, Speakers(t, "X"));
  }

  // ----- A response from elsewhere -----

  /** An idle leader that accepts an invitation keeps its response and polls whatever followers it has. */
  lemma {:induction false} InvitationIsKept(t: Topology, zones: nat, c: QueryCluster, h: string, y: string, r: string)
    requires t.Valid() && c.nodes.Keys == t.Nodes() && h in t.Leaders()
    requires c.nodes[h].st == ST_NULL && c.nodes[h].result == None && Query(I, y, h, y, r) in c.flight
    requires c.counted == {}
    ensures CanStep(t, c, Deliver(Query(I, y, h, y, r), true, r))
    ensures var d := Apply(t, zones, c, Deliver(Query(I, y, h, y, r), true, r));
            && d.nodes == c.nodes[h := d.nodes[h]]
            && d.nodes[h].result == Some(r) && d.nodes[h].st < ST_D && d.nodes[h].l == c.nodes[h].l
            && d.nodes[h].replies == c.nodes[h].replies
            && (forall m :: m in d.counted ==> m.kind != K)
            && forall f :: f in t.Mates(h) ==> Query(J, h, f, y, r) in d.flight
  {
    hide Apply, CanStep;
    var invite := Query(I, y, h, y, r);
    Accepted(t, zones, c, invite, OnQueryI(t, h, Keep(c.nodes[h], r), invite));
  }

  /** A polled follower keeps the response. */
  lemma {:induction false} PollIsKept(t: Topology, zones: nat, c: QueryCluster, h: string, x: string, y: string,
                                      r: string)
    requires c.nodes.Keys == t.Nodes() && x in t.lead && t.lead[x] == h != x && Query(J, h, x, y, r) in c.flight
    ensures CanStep(t, c, Deliver(Query(J, h, x, y, r), true, r))
    ensures var d := Apply(t, zones, c, Deliver(Query(J, h, x, y, r), true, r));
            && d.nodes == c.nodes[x := Keep(c.nodes[x], r)]
            && forall m :: m in d.counted ==> m in c.counted || m.kind == J
  {
    hide Apply, CanStep;
    var poll := Query(J, h, x, y, r);
    Accepted(t, zones, c, poll, QueryEffect(Keep(c.nodes[x], r), Pass(poll, K, x, {h})));
  }

  /** x accepts what another node submitted, and keeps it. */
  lemma {:induction false} KeepsOther(t: Topology, zones: nat, x: string, y: string, r: string)
    returns (steps: seq<QueryStep>, c: QueryCluster)
    requires t.Valid() && x in t.lead && y in t.lead && x != y
    ensures Reaches(t, zones, steps, c) && SubmittedAt(steps, y, {r})
    ensures c.nodes[x].result == Some(r) && c.nodes[x].st < ST_D && c.nodes[x].l == 0 && c.nodes[x].replies == []
    ensures forall m :: m in c.counted ==> m.kind != K
    ensures forall o :: o in t.Leaders() && o != x && o != t.lead[x] ==> c.nodes[o].st == ST_NULL
  {
    hide IsRun, After, Apply, CanStep;
    steps, c := StartsIdle(t, zones, y, r);
    var h := t.lead[x];
    var invited := Deliver(Query(I, y, h, y, r), true, r);
    InvitationIsKept(t, zones, c, h, y, r);
    Take(t, zones, steps, c, invited);
    steps, c := steps + [invited], Apply(t, zones, c, invited);
    if h != x {
      assert x in t.Mates(h);
      var polled := Deliver(Query(J, h, x, y, r), true, r);
      PollIsKept(t, zones, c, h, x, y, r);
      Take(t, zones, steps, c, polled);
      steps, c := steps + [polled], Apply(t, zones, c, polled);
    }
  }

  /** Even when every submission at x carries the same response, one submitted at another node can be what x has
      kept: x then replies with it, although a majority of zones voted for x's own. */
  lemma {:induction false} OtherNodesMatter(t: Topology, zones: nat, x: string, y: string, own: string, other: string)
    returns (steps: seq<QueryStep>)
    requires t.Valid() && x in t.lead && y in t.lead && x != y && zones >= 2 && own != other
    requires |Speakers(t, x) - {t.lead[x]}| >= zones / 2 + 1
    ensures IsRun(t, zones, steps)
    ensures forall s :: s in steps && s.Submit? ==> (s.at == x && s.res == own) || (s.at == y && s.res == other)
    ensures var c := After(t, zones, steps);
            c.nodes[x].replies == [other] && !Agreed(t, zones, c, other)
  {
    hide Apply, CanStep, IsRun, After;
    var c1, c;
    steps, c1 := KeepsOther(t, zones, x, y, other);
    SubmitInvites(t, zones, c1, x, own);
    Take(t, zones, steps, c1, Submit(x, own, true));
    var c2 := Apply(t, zones, c1, Submit(x, own, true));
    steps := steps + [Submit(x, own, true)];
    var rest := Speakers(t, x) - {t.lead[x]};
    forall o | o in rest ensures Idle(t, c2, o, x, own) {
      assert c1.nodes[o].st == ST_NULL;
    }
    steps, c := GatherVotes(t, zones, steps, c2, x, own, other, 0, rest);
    OneZoneIsNotEnough(t, zones, c, x, other);
  }

  // ----- Exactly when replies are agreed -----

  /** Every run whose submissions carry only these responses ends without a reply at x, or with one on which more
      than half of the zones agree. */
  ghost predicate AlwaysAgrees(t: Topology, zones: nat, x: string, responses: set<string>)
    requires x in t.lead
  {
    forall steps :: IsRun(t, zones, steps) && CarryOnly(steps, responses) ==>
      var c := After(t, zones, steps);
      c.nodes[x].replies == [] || (|c.nodes[x].replies| == 1 && Agreed(t, zones, c, c.nodes[x].replies[0]))
  }

  lemma {:induction false} OneResponseAgrees(t: Topology, zones: nat, x: string, responses: set<string>)
    requires t.Valid() && x in t.lead && forall a, b :: a in responses && b in responses ==> a == b
    ensures AlwaysAgrees(t, zones, x, responses)
  {
    hide Agreed, IsRun, After;
    forall steps | IsRun(t, zones, steps) && CarryOnly(steps, responses)
      ensures var c := After(t, zones, steps);
              c.nodes[x].replies == [] || (|c.nodes[x].replies| == 1 && Agreed(t, zones, c, c.nodes[x].replies[0]))
    {
      if After(t, zones, steps).nodes[x].replies != [] {
        var res := if r :| r in responses then r else "";
        ReplyIsAgreed(t, zones, steps, x, res);
      }
    }
  }

  /** A counted l vote comes from another leader, with followers. */
  lemma {:induction false} VoteNeedsSpeaker(t: Topology, zones: nat, c: QueryCluster, x: string, m: Query)
    requires Safe(t, zones, c) && m in Ballots(c.counted, L, x)
    ensures m.src in Speakers(t, x)
  {
    hide NodeOk, HistoryOk, OfZone;
    WireSays(t, c, m);
    LVoterAgrees(t, zones, c, x, m);
    AgreementNeedsBallots(t, c, m.src, m.response);
    var k :| k in c.counted && k.kind == K && k.dst == m.src && k.response == m.response;
    KVotesAreAlike(t, zones, c, m.src, k);
    assert k.src in t.Mates(m.src);
  }

  /** With too few such zones x never replies. */
  lemma {:induction false} NoReplyWithoutSpeakers(t: Topology, zones: nat, steps: seq<QueryStep>, x: string)
    requires t.Valid() && IsRun(t, zones, steps) && x in t.lead && |Speakers(t, x)| < zones / 2 + 1
    ensures After(t, zones, steps).nodes[x].replies == []
  {
    hide Safe, ZoneAgrees, Ballots, Speakers;
    var c := After(t, zones, steps);
    if c.nodes[x].replies != [] {
      ReplyIsBacked(t, zones, steps, x);
      RunsAreSafe(t, zones, steps);
      var votes := Ballots(c.counted, L, x);
      forall g | g in Sources(votes) ensures g in Speakers(t, x) {
        var m :| m in votes && m.src == g;
        VoteNeedsSpeaker(t, zones, c, x, m);
      }
      SubsetSize(Sources(votes), Speakers(t, x));
    }
  }

  /** With two zone slots or more, the replies of x are agreed in every run if and only if all submissions of the
      id carry one response, or x has too few zones to hear from and never replies. */
  lemma {:induction false} AgreedExactlyWithOneResponse(t: Topology, zones: nat, x: string, responses: set<string>)
    requires t.Valid() && x in t.lead && zones >= 2
    ensures AlwaysAgrees(t, zones, x, responses) <==>
              |Speakers(t, x)| < zones / 2 + 1 || forall a, b :: a in responses && b in responses ==> a == b
  {
    hide Agreed, IsRun, After, Speakers;
    if |Speakers(t, x)| < zones / 2 + 1 {
      forall steps | IsRun(t, zones, steps) ensures After(t, zones, steps).nodes[x].replies == [] {
        NoReplyWithoutSpeakers(t, zones, steps, x);
      }
    } else if a, b :| a in responses && b in responses && a != b {
      var steps := TwoResponsesDisagree(t, zones, x, a, b);
      assert CarryOnly(steps, responses);
      assert After(t, zones, steps).nodes[x].replies != [];
    } else {
      OneResponseAgrees(t, zones, x, responses);
    }
  }
}
