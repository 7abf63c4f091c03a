/** When nothing is lost and every validation passes, a quiet network means that everyone has committed.

    The hard part is the leaders that skip a phase: a leader that reaches D on l votes never votes l, and
    one that reaches F on m votes never votes m, so the votes the others wait for may never be cast. */
module ClusterProgress {
  import opened Quorum
  import opened Topologies
  import opened NodeSteps
  import opened Clusters
  import opened ClusterSafety

  /** The nodes whose message of this kind is still on its way to x. */
  ghost function Pending(t: Topology, flight: multiset<Message>, kind: Kind, x: string): (s: set<string>)
    ensures forall f :: f in s <==> f in t.lead && Message(kind, f, x) in flight
  {
    set f | f in t.lead && Message(kind, f, x) in flight
  }

  /** The votes sent to y and no longer on the way. */
  ghost function Arrived(t: Topology, c: Cluster, kind: Kind, y: string): int {
    |Voters(t, c.sent, kind, y)| - |Pending(t, c.flight, kind, y)|
  }

  /** No counter has missed a vote while it still matters. */
  ghost predicate ExactCounts(t: Topology, c: Cluster, x: string)
    requires c.nodes.Keys == t.Nodes() && x in t.lead
  {
    var s := c.nodes[x];
    && (s.st < ST_C ==> s.k == Arrived(t, c, K, x))
    && (s.st < ST_D ==> s.l == Arrived(t, c, L, x))
    && (s.st < ST_E ==> s.m == Arrived(t, c, M, x))
  }

  /** Once a client has submitted, every leader has been asked to take the transaction up. */
  ghost predicate Invited(t: Topology, c: Cluster, x: string)
    requires c.nodes.Keys == t.Nodes() && x in t.lead
  {
    (exists m :: m in c.sent && m.kind == I) ==>
      c.nodes[x].st >= ST_B || exists m :: m in c.flight && m.kind == I && m.dst == x
  }

  /** Follower f's vote for leader x has not arrived yet. */
  ghost predicate Awaited(c: Cluster, x: string, f: string) {
    Message(J, x, f) in c.flight || Message(K, f, x) in c.flight
  }

  /** A leader that waits for its zone has polled it all, and some vote is still to come. */
  ghost predicate Polled(t: Topology, c: Cluster, x: string)
    requires c.nodes.Keys == t.Nodes() && x in t.lead
  {
    c.nodes[x].st == ST_B ==>
      && Message(K, x, x) in c.sent
      && (forall f :: f in t.Mates(x) ==> Message(J, x, f) in c.flight || Message(K, f, x) in c.sent)
      && (exists f :: f in t.Mates(x) && Awaited(c, x, f))
  }

  /** A leader waiting in C or D has voted, and a vote goes to every leader. */
  ghost predicate Voted(t: Topology, c: Cluster, x: string)
    requires c.nodes.Keys == t.Nodes() && x in t.lead
  {
    && (c.nodes[x].st == ST_C ==> Message(L, x, x) in c.sent)
    && (c.nodes[x].st == ST_D ==> Message(M, x, x) in c.sent)
    && (Message(L, x, x) in c.sent ==> forall y :: y in t.Leaders() ==> Message(L, x, y) in c.sent)
    && (Message(M, x, x) in c.sent ==> forall y :: y in t.Leaders() ==> Message(M, x, y) in c.sent)
  }

  /** A leader with a quorum of l votes waits only in C, where its own vote came last and went unchecked;
      a leader with a quorum of m votes does not wait. */
  predicate CheckedState(s: NodeState, q: nat) {
    && (s.st < ST_D && s.l >= q ==> s.st == ST_C)
    && (s.st < ST_E ==> s.m < q)
  }

  /** A leader whose own l vote completed the quorum without being checked. */
  predicate StuckState(s: NodeState, q: nat) {
    s.st == ST_C && s.l >= q
  }

  /** A leader that has committed has told its followers. */
  ghost predicate Told(t: Topology, c: Cluster, x: string)
    requires c.nodes.Keys == t.Nodes() && x in t.lead
  {
    c.nodes[x].st == ST_F ==>
      forall f :: f in t.Mates(x) ==> Message(N, x, f) in c.flight || c.nodes[f].st == ST_F
  }

  /** Of two such leaders the later voter's vote is still on its way to the earlier one. */
  ghost predicate PairMoves(t: Topology, c: Cluster, x: string, y: string)
    requires c.nodes.Keys == t.Nodes() && x in t.lead && y in t.lead
  {
    x != y && StuckState(c.nodes[x], t.LeaderQuorum(x)) && StuckState(c.nodes[y], t.LeaderQuorum(y)) ==>
       Message(L, x, y) in c.flight || Message(L, y, x) in c.flight
  }

  ghost predicate LeaderLive(t: Topology, c: Cluster, x: string)
    requires c.nodes.Keys == t.Nodes() && x in t.lead
  {
    && ExactCounts(t, c, x) && Invited(t, c, x) && Polled(t, c, x) && Voted(t, c, x)
    && CheckedState(c.nodes[x], t.LeaderQuorum(x)) && Told(t, c, x)
  }

  ghost predicate Live(t: Topology, c: Cluster) {
    && c.nodes.Keys == t.Nodes()
    && (forall x :: x in t.Leaders() ==> LeaderLive(t, c, x))
    && (forall x, y :: x in t.Leaders() && y in t.Leaders() ==> PairMoves(t, c, x, y))
  }

  // ----- The handlers, when they accept -----

  /** What a leader's handler does when it accepts the message. */
  ghost predicate Diligent(t: Topology, x: string, s: NodeState, kind: Kind, e: Effect)
    requires x in t.lead
  {
    var q := t.LeaderQuorum(x);
    && (e.ns.st < ST_C ==> e.ns.k == s.k + (if Message(K, x, x) in e.own then 1 else 0) + (if kind == K then 1 else 0))
    && (e.ns.st < ST_D ==> e.ns.l == s.l + (if Message(L, x, x) in e.own then 1 else 0) + (if kind == L then 1 else 0))
    && (e.ns.st < ST_E ==> e.ns.m == s.m + (if Message(M, x, x) in e.own then 1 else 0) + (if kind == M then 1 else 0))
    && (kind == I ==> e.ns.st >= ST_B)
    && (e.ns.st == ST_B && s.st != ST_B ==>
          Message(K, x, x) in e.own && t.Mates(x) != {} && forall f :: f in t.Mates(x) ==> Message(J, x, f) in e.mail)
    && (e.ns.st == ST_B && kind == K ==> e.ns.k < t.ZoneQuorum(x))
    && (e.ns.st == ST_C && s.st != ST_C ==> Message(L, x, x) in e.own)
    && (e.ns.st == ST_D && s.st != ST_D ==> Message(M, x, x) in e.own)
    && (Message(L, x, x) in e.own ==> forall y :: y in t.Leaders() && y != x ==> Message(L, x, y) in e.mail)
    && (Message(M, x, x) in e.own ==> forall y :: y in t.Leaders() && y != x ==> Message(M, x, y) in e.mail)
    && (CheckedState(s, q) ==> CheckedState(e.ns, q))
    && (StuckState(e.ns, q) ==> Message(L, x, x) in e.own || (StuckState(s, q) && kind != L))
    && (e.ns.st == ST_F && s.st != ST_F ==> forall f :: f in t.Mates(x) ==> Message(N, x, f) in e.mail)
  }

  lemma {:induction false} AcceptIsDiligent(t: Topology, x: string, s: NodeState, kind: Kind)
    requires t.Valid() && x in t.lead && t.lead[x] == x && kind != J && kind != N
    requires LocalOk(true, s)
    ensures Diligent(t, x, s, kind, Handle(t, x, s, kind, true))
  {
    if s.st < ST_F {
      match kind {
        case I =>
        case K =>
        case L =>
        case M =>
      }
    }
  }

  // ----- One delivery -----

  /** A delivery that the receiver accepts, and what the safety proof says of it. */
  ghost predicate GoodDelivery(t: Topology, c: Cluster, msg: Message, e: Effect) {
    && t.Valid() && c.nodes.Keys == t.Nodes() && Wire(t, c) && msg in c.flight && msg.dst in t.lead
    && e == Handle(t, msg.dst, c.nodes[msg.dst], msg.kind, true)
    && Shape(t, msg.dst, c.nodes[msg.dst], msg.kind, e) && Fresh(c, e)
    && (t.lead[msg.dst] == msg.dst ==> Diligent(t, msg.dst, c.nodes[msg.dst], msg.kind, e))
    && Addressed(t, msg) && msg == Message(msg.kind, msg.src, msg.dst)
    && StateOk(t, c, msg.dst)
  }

  lemma {:induction false} VotersAfter(t: Topology, c: Cluster, msg: Message, e: Effect, kind: Kind, y: string)
    requires c.nodes.Keys == t.Nodes() && msg.dst in t.lead && y in t.lead
    requires Shape(t, msg.dst, c.nodes[msg.dst], msg.kind, e) && Fresh(c, e)
    ensures var d, x := Delivered(c, msg, e), msg.dst;
            var added := Message(kind, x, y) in e.mail || Message(kind, x, y) in e.own;
            && Voters(t, d.sent, kind, y) == Voters(t, c.sent, kind, y) + (if added then {x} else {})
            && |Voters(t, d.sent, kind, y)| == |Voters(t, c.sent, kind, y)| + (if added then 1 else 0)
  {
    VotersGrow(t, c.sent, e.mail + e.own, kind, y, msg.dst);
    assert c.sent + e.mail + e.own == c.sent + (e.mail + e.own);
  }

  lemma {:induction false} PendingMember(t: Topology, c: Cluster, msg: Message, e: Effect, kind: Kind, y: string,
                                         f: string)
    requires t.Valid() && c.nodes.Keys == t.Nodes() && Wire(t, c) && msg in c.flight && msg.dst in t.lead
    requires kind != I && f in t.lead
    requires Shape(t, msg.dst, c.nodes[msg.dst], msg.kind, e) && Fresh(c, e)
    ensures f in Pending(t, Delivered(c, msg, e).flight, kind, y) <==>
              || (f == msg.dst && Message(kind, f, y) in e.mail)
              || (f in Pending(t, c.flight, kind, y) && !(msg.kind == kind && msg.src == f && msg.dst == y))
    ensures f == msg.dst && Message(kind, f, y) in e.mail ==> f !in Pending(t, c.flight, kind, y) && y != f
  {
    FlightAfter(t, c, msg, e, Message(kind, f, y));
    assert msg == Message(msg.kind, msg.src, msg.dst);
  }

  lemma {:induction false} PendingAfter(t: Topology, c: Cluster, msg: Message, e: Effect, kind: Kind, y: string)
    requires t.Valid() && c.nodes.Keys == t.Nodes() && Wire(t, c) && msg in c.flight && msg.dst in t.lead
    requires y in t.lead && kind != I
    requires Shape(t, msg.dst, c.nodes[msg.dst], msg.kind, e) && Fresh(c, e)
    ensures |Pending(t, Delivered(c, msg, e).flight, kind, y)| == |Pending(t, c.flight, kind, y)|
              + (if Message(kind, msg.dst, y) in e.mail then 1 else 0)
              - (if y == msg.dst && msg.kind == kind then 1 else 0)
  {
    var was, now := Pending(t, c.flight, kind, y), Pending(t, Delivered(c, msg, e).flight, kind, y);
    var sends, takes := Message(kind, msg.dst, y) in e.mail, y == msg.dst && msg.kind == kind;
    assert msg.src in t.lead && (takes ==> msg.src in was) by {
      assert msg in c.sent && Addressed(t, msg);
      assert msg == Message(msg.kind, msg.src, msg.dst);
    }
    forall f | f in t.lead
      ensures f in now <==> (f == msg.dst && sends) || (f in was && !(takes && f == msg.src))
      ensures f == msg.dst && sends ==> f !in was && !takes
    {
      PendingMember(t, c, msg, e, kind, y, f);
    }
    ExchangeOne(was, now, msg.dst, msg.src, sends, takes);
  }

  lemma {:induction false} ExchangeOne(was: set<string>, now: set<string>, x: string, src: string, sends: bool,
                                       takes: bool)
    requires forall f :: f in now <==> (f == x && sends) || (f in was && !(takes && f == src))
    requires sends ==> x !in was && !takes
    requires takes ==> src in was
    ensures |now| == |was| + (if sends then 1 else 0) - (if takes then 1 else 0)
  {
    if sends {
      assert now == was + {x};
    } else if takes {
      assert now == was - {src};
    } else {
      assert now == was;
    }
  }

  /** A delivery adds to y's votes the one delivered to it and the one it casts for itself, no more. */
  lemma {:induction false} ArrivedAfter(t: Topology, c: Cluster, msg: Message, e: Effect, kind: Kind, y: string)
    requires t.Valid() && c.nodes.Keys == t.Nodes() && Wire(t, c) && msg in c.flight && msg.dst in t.lead
    requires Shape(t, msg.dst, c.nodes[msg.dst], msg.kind, e) && Fresh(c, e)
    requires kind != I && y in t.lead
    ensures Arrived(t, Delivered(c, msg, e), kind, y) == Arrived(t, c, kind, y)
              + (if y == msg.dst && Message(kind, y, y) in e.own then 1 else 0)
              + (if y == msg.dst && msg.kind == kind then 1 else 0)
  {
    hide Window, Grows, Wire, Addressed;
    VotersAfter(t, c, msg, e, kind, y);
    PendingAfter(t, c, msg, e, kind, y);
  }

  lemma {:induction false} ExactCountsKept(t: Topology, c: Cluster, msg: Message, e: Effect, y: string)
    requires GoodDelivery(t, c, msg, e) && y in t.Leaders() && ExactCounts(t, c, y)
    ensures ExactCounts(t, Delivered(c, msg, e), y)
  {
    hide Handle, Wire, Window, Addressed, Arrived;
    ArrivedAfter(t, c, msg, e, K, y);
    ArrivedAfter(t, c, msg, e, L, y);
    ArrivedAfter(t, c, msg, e, M, y);
  }

  /** Whether a message is in flight after the delivery. */
  lemma {:induction false} StillInFlight(t: Topology, c: Cluster, msg: Message, e: Effect, m: Message)
    requires GoodDelivery(t, c, msg, e)
    ensures m in e.mail ==> m in Delivered(c, msg, e).flight
    ensures m in c.flight && m != msg ==> m in Delivered(c, msg, e).flight
    ensures m in c.sent || m in e.mail || m in e.own ==> m in Delivered(c, msg, e).sent
  {
    hide Handle, Wire, Shape, Diligent;
  }

  lemma {:induction false} InvitedKept(t: Topology, c: Cluster, msg: Message, e: Effect, y: string)
    requires GoodDelivery(t, c, msg, e) && y in t.Leaders() && Invited(t, c, y)
    ensures Invited(t, Delivered(c, msg, e), y)
  {
    hide Handle, Wire, Window, Grows, Addressed;
    var d := Delivered(c, msg, e);
    if m :| m in d.sent && m.kind == I {
      assert m in c.sent;
      if c.nodes[y].st < ST_B && !(msg.kind == I && msg.dst == y) {
        var i :| i in c.flight && i.kind == I && i.dst == y;
        StillInFlight(t, c, msg, e, i);
      }
    }
  }

  lemma {:induction false} VotedKept(t: Topology, c: Cluster, msg: Message, e: Effect, y: string)
    requires GoodDelivery(t, c, msg, e) && y in t.Leaders() && Voted(t, c, y)
    ensures Voted(t, Delivered(c, msg, e), y)
  {
    hide Handle, Wire, Window, Grows, Addressed;
  }

  lemma {:induction false} CheckedKept(t: Topology, c: Cluster, msg: Message, e: Effect, y: string)
    requires GoodDelivery(t, c, msg, e) && y in t.Leaders() && CheckedState(c.nodes[y], t.LeaderQuorum(y))
    ensures CheckedState(Delivered(c, msg, e).nodes[y], t.LeaderQuorum(y))
  {
    hide Handle, Wire, Window, Grows, Addressed;
  }

  lemma {:induction false} ToldKept(t: Topology, c: Cluster, msg: Message, e: Effect, y: string)
    requires GoodDelivery(t, c, msg, e) && y in t.Leaders() && Told(t, c, y)
    ensures Told(t, Delivered(c, msg, e), y)
  {
    hide Wire, Window, Grows, Addressed;
    var d := Delivered(c, msg, e);
    if d.nodes[y].st == ST_F {
      forall f | f in t.Mates(y) ensures Message(N, y, f) in d.flight || d.nodes[f].st == ST_F {
        StillInFlight(t, c, msg, e, Message(N, y, f));
      }
    }
  }

  lemma {:induction false} PairKept(t: Topology, c: Cluster, msg: Message, e: Effect, x: string, y: string)
    requires GoodDelivery(t, c, msg, e) && x in t.Leaders() && y in t.Leaders() && PairMoves(t, c, x, y)
    ensures PairMoves(t, Delivered(c, msg, e), x, y)
  {
    hide Handle, Wire, Window, Grows, Addressed;
    StillInFlight(t, c, msg, e, Message(L, x, y));
    StillInFlight(t, c, msg, e, Message(L, y, x));
  }

  /** A follower that is polled while its leader waits answers. */
  lemma {:induction false} PolledAnswers(t: Topology, c: Cluster, msg: Message, e: Effect)
    requires GoodDelivery(t, c, msg, e) && msg.kind == J && c.nodes[msg.src].st == ST_B
    ensures Message(K, msg.dst, msg.src) in e.mail
  {
  }

  /** With the whole zone's votes in, the zone's quorum is reached. */
  lemma {:induction false} WholeZoneVotes(t: Topology, c: Cluster, x: string)
    requires t.Valid() && c.nodes.Keys == t.Nodes() && Wire(t, c) && x in t.Leaders()
    requires Message(K, x, x) in c.sent
    requires forall f :: f in t.Mates(x) ==> Message(K, f, x) in c.sent && Message(K, f, x) !in c.flight
    ensures Arrived(t, c, K, x) >= t.ZoneQuorum(x)
  {
    var voters, pending := Voters(t, c.sent, K, x), Pending(t, c.flight, K, x);
    SubsetSize(t.Mates(x) + {x}, voters);
    forall f | f in t.lead ensures f !in pending {
      assert Message(K, f, x) in c.sent ==> Addressed(t, Message(K, f, x));
    }
    assert pending == {};
    assert |t.Mates(x) + {x}| == |t.Mates(x)| + 1;
  }

  lemma {:induction false} PolledKept(t: Topology, c: Cluster, msg: Message, e: Effect, y: string)
    requires GoodDelivery(t, c, msg, e) && y in t.Leaders() && Polled(t, c, y) && ExactCounts(t, c, y)
    requires Wire(t, Delivered(c, msg, e))
    ensures Polled(t, Delivered(c, msg, e), y)
  {
    hide Handle, Wire, Window, Grows, ExactCounts, StateOk, Addressed;
    var d := Delivered(c, msg, e);
    if d.nodes[y].st == ST_B {
      if c.nodes[y].st != ST_B {
        var f :| f in t.Mates(y);
        assert Awaited(d, y, f);
      } else {
        PolledStill(t, c, msg, e, y);
      }
    }
  }

  lemma {:induction false} PolledStill(t: Topology, c: Cluster, msg: Message, e: Effect, y: string)
    requires GoodDelivery(t, c, msg, e) && y in t.Leaders() && Polled(t, c, y) && ExactCounts(t, c, y)
    requires Wire(t, Delivered(c, msg, e))
    requires c.nodes[y].st == ST_B && Delivered(c, msg, e).nodes[y].st == ST_B
    ensures Polled(t, Delivered(c, msg, e), y)
  {
    hide Handle, Wire, Window, Grows, StateOk, Arrived;
    var d := Delivered(c, msg, e);
    forall f | f in t.Mates(y)
      ensures Message(J, y, f) in d.flight || Message(K, f, y) in d.sent
      ensures Awaited(c, y, f) && msg != Message(K, f, y) ==> Awaited(d, y, f)
    {
      StillInFlight(t, c, msg, e, Message(J, y, f));
      StillInFlight(t, c, msg, e, Message(K, f, y));
      if msg == Message(J, y, f) {
        PolledAnswers(t, c, msg, e);
      }
    }
    if !exists f :: f in t.Mates(y) && Awaited(d, y, f) {
      ExactCountsKept(t, c, msg, e, y);
      WholeZoneVotes(t, d, y);
    }
  }

  lemma {:induction false} DeliverIsGood(t: Topology, c: Cluster, msg: Message)
    requires t.Valid() && Safe(t, c) && msg in c.flight
    ensures msg.dst in t.lead
    ensures var e := Handle(t, msg.dst, c.nodes[msg.dst], msg.kind, true);
            GoodDelivery(t, c, msg, e) && Wire(t, Delivered(c, msg, e))
  {
    hide Handle, Shape, Evidence, Diligent, SentInOrder, Delivered, CountsOk, Certified;
    assert msg in c.sent && Addressed(t, msg);
    assert NodeSafe(t, c, msg.dst);
    DeliverKeepsWire(t, c, msg, true);
    if t.lead[msg.dst] == msg.dst {
      AcceptIsDiligent(t, msg.dst, c.nodes[msg.dst], msg.kind);
    }
  }

  lemma {:induction false} LeaderLiveKept(t: Topology, c: Cluster, msg: Message, e: Effect, y: string)
    requires GoodDelivery(t, c, msg, e) && y in t.Leaders() && LeaderLive(t, c, y)
    requires Wire(t, Delivered(c, msg, e))
    ensures LeaderLive(t, Delivered(c, msg, e), y)
  {
    hide GoodDelivery, Wire, ExactCounts, Invited, Polled, Voted, CheckedState, Told, Delivered;
    ExactCountsKept(t, c, msg, e, y);
    InvitedKept(t, c, msg, e, y);
    PolledKept(t, c, msg, e, y);
    VotedKept(t, c, msg, e, y);
    CheckedKept(t, c, msg, e, y);
    ToldKept(t, c, msg, e, y);
  }

  lemma {:induction false} DeliverKeepsLive(t: Topology, c: Cluster, msg: Message)
    requires t.Valid() && Safe(t, c) && Live(t, c) && CanStep(t, c, Deliver(msg, true))
    ensures Live(t, Delivered(c, msg, Handle(t, msg.dst, c.nodes[msg.dst], msg.kind, true)))
  {
    hide GoodDelivery, Wire, LeaderLive, PairMoves, Delivered, Handle, Safe;
    DeliverIsGood(t, c, msg);
    var e := Handle(t, msg.dst, c.nodes[msg.dst], msg.kind, true);
    forall x | x in t.Leaders() ensures LeaderLive(t, Delivered(c, msg, e), x) {
      LeaderLiveKept(t, c, msg, e, x);
    }
    forall x, y | x in t.Leaders() && y in t.Leaders() ensures PairMoves(t, Delivered(c, msg, e), x, y) {
      PairKept(t, c, msg, e, x, y);
    }
  }

  lemma {:induction false} SameVotes(t: Topology, c: Cluster, at: string, kind: Kind, y: string)
    requires kind != I
    ensures var d := Post(c, To(I, at, t.Leaders()), {});
            && Voters(t, d.sent, kind, y) == Voters(t, c.sent, kind, y)
            && Pending(t, d.flight, kind, y) == Pending(t, c.flight, kind, y)
  {
  }

  lemma {:induction false} SubmitPolled(t: Topology, c: Cluster, at: string, y: string)
    requires c.nodes.Keys == t.Nodes() && y in t.lead && Polled(t, c, y)
    ensures Polled(t, Post(c, To(I, at, t.Leaders()), {}), y)
  {
    if c.nodes[y].st == ST_B {
      var f :| f in t.Mates(y) && Awaited(c, y, f);
      assert Awaited(Post(c, To(I, at, t.Leaders()), {}), y, f);
    }
  }

  lemma {:induction false} SubmitLeader(t: Topology, c: Cluster, at: string, y: string)
    requires c.nodes.Keys == t.Nodes() && at in t.lead && y in t.Leaders() && LeaderLive(t, c, y)
    ensures LeaderLive(t, Post(c, To(I, at, t.Leaders()), {}), y)
  {
    hide Polled, CheckedState, ExactCounts;
    SubmitCounts(t, c, at, y);
    SubmitPolled(t, c, at, y);
    assert Message(I, at, y) in Post(c, To(I, at, t.Leaders()), {}).flight;
  }

  /** The counts are exact as long as states, votes and flight are the same. */
  lemma {:induction false} SameCounts(t: Topology, c: Cluster, d: Cluster, y: string)
    requires c.nodes.Keys == t.Nodes() && d.nodes == c.nodes && y in t.lead && ExactCounts(t, c, y)
    requires forall kind :: kind in [K, L, M] ==>
               && Voters(t, d.sent, kind, y) == Voters(t, c.sent, kind, y)
               && Pending(t, d.flight, kind, y) == Pending(t, c.flight, kind, y)
    ensures ExactCounts(t, d, y)
  {
    hide Voters, Pending;
    assert K in [K, L, M] && L in [K, L, M] && M in [K, L, M];
  }

  lemma {:induction false} SubmitCounts(t: Topology, c: Cluster, at: string, y: string)
    requires c.nodes.Keys == t.Nodes() && y in t.lead && ExactCounts(t, c, y)
    ensures ExactCounts(t, Post(c, To(I, at, t.Leaders()), {}), y)
  {
    hide Voters, Pending, ExactCounts, To;
    forall kind | kind in [K, L, M] {
      SameVotes(t, c, at, kind, y);
    }
    SameCounts(t, c, Post(c, To(I, at, t.Leaders()), {}), y);
  }

  lemma {:induction false} SubmitKeepsLive(t: Topology, c: Cluster, at: string)
    requires t.Valid() && Live(t, c) && at in t.lead
    ensures Live(t, Post(c, To(I, at, t.Leaders()), {}))
  {
    hide LeaderLive;
    var d := Post(c, To(I, at, t.Leaders()), {});
    forall x | x in t.Leaders() ensures LeaderLive(t, d, x) {
      SubmitLeader(t, c, at, x);
    }
    forall x, y | x in t.Leaders() && y in t.Leaders() ensures PairMoves(t, d, x, y) {
      assert PairMoves(t, c, x, y);
    }
  }

  // ----- Runs -----

  /** Nothing is lost, rejected or swept. */
  predicate Calm(s: Step) {
    (s.Submit? && s.valid) || (s.Deliver? && s.valid)
  }

  lemma {:induction false} StartLeader(t: Topology, x: string)
    requires t.Valid() && x in t.lead
    ensures LeaderLive(t, Start(t), x)
  {
    var c := Start(t);
    assert forall kind :: Voters(t, c.sent, kind, x) == {} && Pending(t, c.flight, kind, x) == {};
  }

  lemma {:induction false} StartIsLive(t: Topology)
    requires t.Valid()
    ensures Live(t, Start(t))
  {
    hide LeaderLive;
    forall x | x in t.Leaders() ensures LeaderLive(t, Start(t), x) {
      StartLeader(t, x);
    }
  }

  lemma {:induction false} StepKeepsLive(t: Topology, c: Cluster, s: Step)
    requires t.Valid() && Safe(t, c) && Live(t, c) && CanStep(t, c, s) && Calm(s)
    ensures Live(t, Apply(t, c, s))
  {
    hide Handle, Live, Wire, NodeSafe;
    match s {
      case Submit(at, valid) => SubmitKeepsLive(t, c, at);
      case Deliver(msg, valid) => DeliverKeepsLive(t, c, msg);
    }
  }

  lemma {:induction false} CalmRunsAreLive(t: Topology, steps: seq<Step>)
    requires t.Valid() && IsRun(t, steps) && forall s :: s in steps ==> Calm(s)
    ensures Live(t, After(t, steps))
    decreases |steps|
  {
    hide Live, Safe;
    if steps == [] {
      StartIsLive(t);
    } else {
      var last := |steps| - 1;
      CalmRunsAreLive(t, steps[..last]);
      RunsAreSafe(t, steps[..last]);
      StepKeepsLive(t, After(t, steps[..last]), steps[last]);
    }
  }

  // ----- Quiet networks -----

  /** The leaders that ever voted in a round. */
  ghost function RoundVoters(t: Topology, c: Cluster, kind: Kind): (s: set<string>)
    ensures forall x :: x in s <==> x in t.Leaders() && Message(kind, x, x) in c.sent
  {
    set x | x in t.Leaders() && Message(kind, x, x) in c.sent
  }

  /** A leader vote is sent to all leaders or to none. */
  lemma {:induction false} VotersAreRoundVoters(t: Topology, c: Cluster, kind: Kind, x: string)
    requires t.Valid() && c.nodes.Keys == t.Nodes() && Wire(t, c) && x in t.Leaders()
    requires kind == L || kind == M
    requires forall y :: y in t.Leaders() ==> Voted(t, c, y)
    ensures Voters(t, c.sent, kind, x) == RoundVoters(t, c, kind)
  {
    forall f | f in t.lead ensures f in Voters(t, c.sent, kind, x) <==> f in RoundVoters(t, c, kind) {
      if Message(kind, f, x) in c.sent {
        assert Addressed(t, Message(kind, f, x)) && SentInOrder(t, c, Message(kind, f, x));
      }
      if f in t.Leaders() {
        assert Voted(t, c, f);
      }
    }
  }

  /** A quiet cluster: nothing is on its way. */
  ghost predicate AtRest(t: Topology, c: Cluster) {
    t.Valid() && Safe(t, c) && Live(t, c) && c.flight == multiset{}
  }

  /** What a resting leader tells about the votes that were cast. */
  ghost predicate RestFacts(t: Topology, c: Cluster, x: string)
    requires c.nodes.Keys == t.Nodes() && x in t.lead
  {
    var s, q := c.nodes[x], TwoFPlus1(|t.Leaders()|);
    && (s.st == ST_C || s.st == ST_D || s.st == ST_F)
    && (s.st == ST_C ==> x in RoundVoters(t, c, L) && s.l == |RoundVoters(t, c, L)|)
    && (s.st == ST_D ==> x in RoundVoters(t, c, M) && |RoundVoters(t, c, L)| >= q)
    && (s.st == ST_F <==> |RoundVoters(t, c, M)| >= q)
  }

  lemma {:induction false} RestingLeaderState(t: Topology, c: Cluster, x: string)
    requires c.nodes.Keys == t.Nodes() && x in t.Leaders() && c.flight == multiset{}
    requires LocalOk(true, c.nodes[x]) && Invited(t, c, x) && Polled(t, c, x)
    requires exists m :: m in c.sent && m.kind == I
    ensures c.nodes[x].st == ST_C || c.nodes[x].st == ST_D || c.nodes[x].st == ST_F
  {
  }

  lemma {:induction false} RestingLeaderCounts(t: Topology, c: Cluster, x: string)
    requires c.nodes.Keys == t.Nodes() && x in t.Leaders() && c.flight == multiset{}
    requires ExactCounts(t, c, x)
    ensures c.nodes[x].st < ST_D ==> c.nodes[x].l == |Voters(t, c.sent, L, x)|
    ensures c.nodes[x].st < ST_E ==> c.nodes[x].m == |Voters(t, c.sent, M, x)|
  {
    assert Pending(t, c.flight, L, x) == {} && Pending(t, c.flight, M, x) == {};
  }

  lemma {:induction false} CountedWereSent(t: Topology, c: Cluster, kind: Kind, x: string)
    requires c.nodes.Keys == t.Nodes() && Wire(t, c)
    ensures |Voters(t, c.counted, kind, x)| <= |Voters(t, c.sent, kind, x)|
  {
    SubsetSize(Voters(t, c.counted, kind, x), Voters(t, c.sent, kind, x));
  }

  lemma {:induction false} RestingLeader(t: Topology, c: Cluster, x: string)
    requires AtRest(t, c) && x in t.Leaders()
    requires exists m :: m in c.sent && m.kind == I
    ensures RestFacts(t, c, x)
  {
    hide ExactCounts, CountsOk, Invited, Polled, Told, Wire, Voters;
    assert NodeSafe(t, c, x) && LeaderLive(t, c, x);
    t.OneLeaderQuorum(x);
    CountedWereSent(t, c, L, x);
    CountedWereSent(t, c, M, x);
    forall y | y in t.Leaders() ensures Voted(t, c, y) {
      assert LeaderLive(t, c, y);
    }
    RestingLeaderState(t, c, x);
    RestingLeaderCounts(t, c, x);
    VotersAreRoundVoters(t, c, L, x);
    VotersAreRoundVoters(t, c, M, x);
  }

  /** With two zones or more, no leader rests short of F. */
  lemma {:induction false} NoLeaderWaits(t: Topology, c: Cluster)
    requires AtRest(t, c) && |t.Leaders()| >= 2
    requires exists m :: m in c.sent && m.kind == I
    ensures forall x :: x in t.Leaders() ==> c.nodes[x].st == ST_F
  {
    hide LeaderLive, NodeSafe, Wire;
    var leaders, q := t.Leaders(), TwoFPlus1(|t.Leaders()|);
    var lv, mv := RoundVoters(t, c, L), RoundVoters(t, c, M);
    forall x | x in leaders ensures RestFacts(t, c, x) {
      RestingLeader(t, c, x);
    }
    if |mv| < q {
      // Everyone is in C or D.
      if forall x :: x in leaders ==> c.nodes[x].st == ST_D {
        SubsetSize(leaders, mv);
        assert false;
      }
      var x :| x in leaders && c.nodes[x].st == ST_C;
      if forall y :: y in leaders ==> c.nodes[y].st == ST_C {
        SubsetSize(leaders, lv);
      }
      assert |lv| >= q;
      forall y | y in leaders - {x} ensures y in mv {
        t.OneLeaderQuorum(x);
        t.OneLeaderQuorum(y);
        assert PairMoves(t, c, x, y);
      }
      SubsetSize(leaders - {x}, mv);
      assert false;
    }
  }

  /** Progress: in a run in which nothing is lost, rejected or swept, in any order of delivery, once a
      client has submitted the transaction and no message is in flight, every leader is in F and every
      node has committed exactly once. */
  lemma {:induction false} QuietMeansCommitted(t: Topology, steps: seq<Step>)
    requires t.Valid() && |t.Leaders()| >= 2
    requires IsRun(t, steps) && forall s :: s in steps ==> Calm(s)
    requires exists s :: s in steps && s.Submit?
    requires After(t, steps).flight == multiset{}
    ensures forall x :: x in t.lead ==>
              After(t, steps).nodes[x].st == ST_F && After(t, steps).nodes[x].commits == 1
  {
    hide NodeSafe, Wire, LeaderLive, Told, StateOk;
    var c := After(t, steps);
    RunsAreSafe(t, steps);
    CalmRunsAreLive(t, steps);
    SubmitReachesLeaders(t, steps);
    NoLeaderWaits(t, c);
    forall x | x in t.lead ensures c.nodes[x].st == ST_F && c.nodes[x].commits == 1 {
      t.OneLeaderQuorum(x);
      RestingFollower(t, c, x);
    }
  }

  lemma {:induction false} RestingFollower(t: Topology, c: Cluster, x: string)
    requires AtRest(t, c) && x in t.lead && c.nodes[t.lead[x]].st == ST_F && t.lead[x] in t.Leaders()
    ensures c.nodes[x].st == ST_F && c.nodes[x].commits == 1
  {
    assert LeaderLive(t, c, t.lead[x]);
    assert NodeSafe(t, c, x);
    assert Told(t, c, t.lead[x]);
    if x != t.lead[x] {
      assert x in t.Mates(t.lead[x]);
    }
  }

  lemma {:induction false} SubmitReachesLeaders(t: Topology, steps: seq<Step>)
    requires t.Valid() && IsRun(t, steps) && forall s :: s in steps ==> Calm(s)
    requires exists s :: s in steps && s.Submit?
    ensures exists m :: m in After(t, steps).sent && m.kind == I
    decreases |steps|
  {
    var last := |steps| - 1;
    var before := After(t, steps[..last]);
    if exists s :: s in steps[..last] && s.Submit? {
      SubmitReachesLeaders(t, steps[..last]);
      var m :| m in before.sent && m.kind == I;
      assert m in After(t, steps).sent;
    } else {
      NothingYet(t, steps[..last]);
      var at := steps[last].at;
      t.OneLeaderQuorum(at);
      assert Message(I, at, t.lead[at]) in After(t, steps).sent;
    }
  }

  lemma {:induction false} NothingYet(t: Topology, steps: seq<Step>)
    requires IsRun(t, steps) && forall s :: s in steps ==> !s.Submit? && Calm(s)
    ensures steps == []
    decreases |steps|
  {
    if steps != [] {
      NothingYet(t, steps[..|steps| - 1]);
    }
  }
}
