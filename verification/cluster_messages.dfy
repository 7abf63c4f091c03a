/** How many messages a run can send, and so how many deliveries it can make. */
module ClusterMessages {
  import opened Arith
  import opened Quorum
  import opened Topologies
  import opened NodeSteps
  import opened Clusters
  import opened ClusterSafety

  function Followers(t: Topology): set<string> {
    set f | f in t.lead && t.lead[f] != f
  }

  /** The bound for n nodes in m zones and s client submissions: each submission invites every leader;
      each follower is polled, votes and is told once; each pair of leaders exchanges l and m once each way. */
  function Bound(leaders: nat, followers: nat, submits: nat): int {
    submits * leaders + 3 * followers + 2 * (leaders * (leaders - 1))
  }

  /** Every message that is not an invitation and not a node's own vote. */
  ghost function Traffic(sent: set<Message>): set<Message> {
    set m | m in sent && m.kind != I && m.src != m.dst
  }

  // ----- The messages there can be -----

  ghost function Tree(t: Topology, kind: Kind, fs: set<string>): set<Message>
    requires fs <= t.Nodes()
  {
    set f | f in fs :: if kind == K then Message(kind, f, t.lead[f]) else Message(kind, t.lead[f], f)
  }

  /** From each of a to each other of b. */
  ghost function Grid(kind: Kind, a: set<string>, b: set<string>): set<Message> {
    set x, y | x in a && y in b && x != y :: Message(kind, x, y)
  }

  lemma {:induction false} TreeSize(t: Topology, kind: Kind, fs: set<string>)
    requires fs <= t.Nodes() && (kind == J || kind == K || kind == N)
    ensures |Tree(t, kind, fs)| <= |fs|
    decreases |fs|
  {
    if fs == {} {
      assert Tree(t, kind, fs) == {};
    } else {
      var f :| f in fs;
      TreeSize(t, kind, fs - {f});
      var m := if kind == K then Message(kind, f, t.lead[f]) else Message(kind, t.lead[f], f);
      assert Tree(t, kind, fs) == Tree(t, kind, fs - {f}) + {m};
    }
  }

  lemma {:induction false} RowSize(kind: Kind, x: string, b: set<string>)
    ensures |To(kind, x, b)| == |b|
    decreases |b|
  {
    if b != {} {
      var y :| y in b;
      RowSize(kind, x, b - {y});
      assert To(kind, x, b) == To(kind, x, b - {y}) + {Message(kind, x, y)};
    }
  }

  lemma {:induction false} GridStep(kind: Kind, a: set<string>, b: set<string>, x: string)
    requires x in a
    ensures Grid(kind, a, b) == Grid(kind, a - {x}, b) + To(kind, x, b - {x})
    ensures Grid(kind, a - {x}, b) !! To(kind, x, b - {x})
  {
    var rest, row := Grid(kind, a - {x}, b), To(kind, x, b - {x});
    forall m: Message
      ensures m in Grid(kind, a, b) <==> m.kind == kind && m.src in a && m.dst in b && m.src != m.dst
      ensures m in rest <==> m.kind == kind && m.src in a - {x} && m.dst in b && m.src != m.dst
    {
      assert m == Message(m.kind, m.src, m.dst);
    }
  }

  lemma {:induction false} GridSize(kind: Kind, a: set<string>, b: set<string>)
    requires a <= b
    ensures |Grid(kind, a, b)| == |a| * (|b| - 1)
    decreases |a|
  {
    if a == {} {
      assert Grid(kind, a, b) == {};
    } else {
      var x :| x in a;
      GridSize(kind, a - {x}, b);
      GridRows(kind, a, b, x);
      RowByRow(|a| - 1, |b| - 1);
    }
  }

  lemma {:induction false} GridRows(kind: Kind, a: set<string>, b: set<string>, x: string)
    requires x in a && x in b
    ensures |Grid(kind, a, b)| == |Grid(kind, a - {x}, b)| + (|b| - 1)
    ensures |a - {x}| == |a| - 1
  {
    GridStep(kind, a, b, x);
    RowSize(kind, x, b - {x});
    hide Grid, To;
  }

  lemma {:induction false} RowByRow(rows: nat, width: int)
    ensures (rows + 1) * width == rows * width + width
  {
  }

  ghost function Universe(t: Topology): set<Message> {
    Tree(t, J, Followers(t)) + Tree(t, K, Followers(t)) + Tree(t, N, Followers(t))
    + Grid(L, t.Leaders(), t.Leaders()) + Grid(M, t.Leaders(), t.Leaders())
  }

  lemma {:induction false} UnionSize<T>(a: set<T>, b: set<T>)
    ensures |a + b| <= |a| + |b|
  {
    InclusionExclusion(a, b);
  }

  lemma {:induction false} UniverseSize(t: Topology)
    ensures |Universe(t)| <= 3 * |Followers(t)| + 2 * (|t.Leaders()| * (|t.Leaders()| - 1))
  {
    var fs, ls := Followers(t), t.Leaders();
    var j, k, n := Tree(t, J, fs), Tree(t, K, fs), Tree(t, N, fs);
    var l, m := Grid(L, ls, ls), Grid(M, ls, ls);
    TreeSize(t, J, fs);
    TreeSize(t, K, fs);
    TreeSize(t, N, fs);
    GridSize(L, ls, ls);
    GridSize(M, ls, ls);
    UnionSize(j, k);
    UnionSize(j + k, n);
    UnionSize(j + k + n, l);
    UnionSize(j + k + n + l, m);
  }

  lemma {:induction false} TrafficIsBounded(t: Topology, c: Cluster)
    requires t.Valid() && c.nodes.Keys == t.Nodes() && Wire(t, c)
    ensures |Traffic(c.sent)| <= 3 * |Followers(t)| + 2 * (|t.Leaders()| * (|t.Leaders()| - 1))
  {
    forall m | m in Traffic(c.sent) ensures m in Universe(t) {
      assert Addressed(t, m);
      assert m == Message(m.kind, m.src, m.dst);
    }
    SubsetSize(Traffic(c.sent), Universe(t));
    UniverseSize(t);
  }

  // ----- Counting sends -----

  function Submits(steps: seq<Step>): nat {
    if steps == [] then 0
    else Submits(steps[..|steps| - 1]) + if steps[|steps| - 1].Submit? then 1 else 0
  }

  /** The steps that take a message out of the network. */
  function Arrivals(steps: seq<Step>): nat {
    if steps == [] then 0
    else
      var s := steps[|steps| - 1];
      Arrivals(steps[..|steps| - 1]) + if s.Deliver? || s.Lose? then 1 else 0
  }

  /** Sends are either still in flight or have arrived, and apart from invitations each is a new message. */
  ghost predicate Counted(t: Topology, c: Cluster, submits: nat, arrivals: nat) {
    && c.posts == |c.flight| + arrivals
    && c.posts <= submits * |t.Leaders()| + |Traffic(c.sent)|
  }

  lemma {:induction false} DeliveryIsCounted(t: Topology, c: Cluster, msg: Message, e: Effect, submits: nat,
                                             arrivals: nat)
    requires t.Valid() && c.nodes.Keys == t.Nodes() && msg in c.flight && msg.dst in t.lead
    requires Shape(t, msg.dst, c.nodes[msg.dst], msg.kind, e) && Fresh(c, e)
    requires Counted(t, c, submits, arrivals)
    ensures Counted(t, Delivered(c, msg, e), submits, arrivals + 1)
  {
    hide Window, Grows, Addressed;
    var d := Delivered(c, msg, e);
    assert Traffic(d.sent) == Traffic(c.sent) + e.mail;
    assert Traffic(c.sent) !! e.mail;
    assert |c.flight - multiset{msg}| == |c.flight| - 1;
    assert |multiset(e.mail)| == |e.mail|;
  }

  lemma {:induction false} SubmitIsCounted(t: Topology, c: Cluster, at: string, submits: nat, arrivals: nat)
    requires Counted(t, c, submits, arrivals)
    ensures Counted(t, Post(c, To(I, at, t.Leaders()), {}), submits + 1, arrivals)
  {
    var mail := To(I, at, t.Leaders());
    RowSize(I, at, t.Leaders());
    assert Traffic(c.sent + mail + {}) == Traffic(c.sent);
    assert (submits + 1) * |t.Leaders()| == submits * |t.Leaders()| + |t.Leaders()|;
    assert |multiset(mail)| == |mail|;
  }

  lemma {:induction false} RunIsCounted(t: Topology, steps: seq<Step>)
    requires t.Valid() && IsRun(t, steps)
    ensures Counted(t, After(t, steps), Submits(steps), Arrivals(steps))
    decreases |steps|
  {
    hide Counted, Safe;
    if steps == [] {
      StartIsCounted(t);
    } else {
      var last := |steps| - 1;
      RunIsCounted(t, steps[..last]);
      RunsAreSafe(t, steps[..last]);
      StepIsCounted(t, After(t, steps[..last]), steps[last], Submits(steps[..last]), Arrivals(steps[..last]));
    }
  }

  lemma {:induction false} StartIsCounted(t: Topology)
    ensures Counted(t, Start(t), 0, 0)
  {
  }

  lemma {:induction false} StepIsCounted(t: Topology, c: Cluster, s: Step, submits: nat, arrivals: nat)
    requires t.Valid() && Safe(t, c) && CanStep(t, c, s) && Counted(t, c, submits, arrivals)
    ensures Counted(t, Apply(t, c, s), submits + (if s.Submit? then 1 else 0),
                    arrivals + (if s.Deliver? || s.Lose? then 1 else 0))
  {
    hide NodeSafe, Wire, Handle, HandlerOk;
    match s {
      case Submit(at, valid) =>
        SubmitIsCounted(t, c, at, submits, arrivals);
        assert (submits + 1) * |t.Leaders()| == submits * |t.Leaders()| + |t.Leaders()|;
      case Deliver(msg, valid) =>
        DeliverIsShaped(t, c, msg, valid);
        DeliveryIsCounted(t, c, msg, Handle(t, msg.dst, c.nodes[msg.dst], msg.kind, valid), submits, arrivals);
      case Lose(msg) =>
        assert |c.flight - multiset{msg}| == |c.flight| - 1;
      case Cleanup(_, _, _, _) =>
    }
  }

  lemma {:induction false} DeliverIsShaped(t: Topology, c: Cluster, msg: Message, valid: bool)
    requires t.Valid() && Safe(t, c) && CanStep(t, c, Deliver(msg, valid))
    ensures var e := Handle(t, msg.dst, c.nodes[msg.dst], msg.kind, valid);
            Shape(t, msg.dst, c.nodes[msg.dst], msg.kind, e) && Fresh(c, e)
  {
    hide Handle, Shape, CountsOk, Certified, Wire;
    assert NodeSafe(t, c, msg.dst);
    DeliverKeepsWire(t, c, msg, valid);
  }

  /** The message bound. Every send is delivered, lost or still in flight, so the same bound limits the
      deliveries of a run: the protocol always comes to rest. */
  lemma {:induction false} MessageBound(t: Topology, steps: seq<Step>)
    requires t.Valid() && IsRun(t, steps)
    ensures var c := After(t, steps);
            && c.posts == |c.flight| + Arrivals(steps)
            && |Followers(t)| + |t.Leaders()| == |t.Nodes()|
            && c.posts <= Bound(|t.Leaders()|, |Followers(t)|, Submits(steps))
  {
    hide NodeSafe;
    RunsAreSafe(t, steps);
    RunIsCounted(t, steps);
    TrafficIsBounded(t, After(t, steps));
    assert t.Nodes() == Followers(t) + t.Leaders();
  }

  /** With m leaders among n nodes, where m is close to the square root of n at most, one
      submission sends at most 5n - 4 messages. */
  lemma {:induction false} FiveMessagesPerNode(n: nat, m: nat, root: nat)
    requires 1 <= m <= n && root * root <= n
    requires m <= root || (m == root + 1 && root * root < n)
    ensures Bound(m, n - m, 1) <= 5 * n - 4
  {
    if m <= root {
      MulMono(m, m, root);
      MulMono(root, m, root);
    } else {
      assert (root + 1) * root == root * root + root;
    }
  }
}
