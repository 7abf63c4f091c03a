/** What holds in every reachable cluster, whatever is lost, reordered, rejected, resubmitted or swept. */
module ClusterSafety {
  import opened Quorum
  import opened Topologies
  import opened NodeSteps
  import opened Clusters

  /** The nodes with a message of this kind to x among ms, x itself included when it counted its own vote. */
  ghost function Voters(t: Topology, ms: set<Message>, kind: Kind, x: string): (s: set<string>)
    ensures forall f :: f in s <==> f in t.lead && Message(kind, f, x) in ms
  {
    set f | f in t.lead && Message(kind, f, x) in ms
  }

  /** i, k, l and m go to leaders only, j and n to followers only. */
  ghost predicate Addressed(t: Topology, m: Message) {
    && m.src in t.lead && m.dst in t.lead
    && match m.kind
       case I => t.lead[m.dst] == m.dst
       case J => t.lead[m.dst] == m.src && m.src != m.dst
       case K => t.lead[m.src] == m.dst
       case L => t.lead[m.src] == m.src && t.lead[m.dst] == m.dst
       case M => t.lead[m.src] == m.src && t.lead[m.dst] == m.dst
       case N => t.lead[m.dst] == m.src && m.src != m.dst
  }

  /** The state its sender must have reached, so that no vote or order is sent twice. */
  ghost predicate SentInOrder(t: Topology, c: Cluster, m: Message)
    requires c.nodes.Keys == t.Nodes() && Addressed(t, m)
  {
    match m.kind
    case I => true
    case J => c.nodes[m.src].st >= ST_B
    case K =>
      if m.src == m.dst then c.nodes[m.dst].st >= ST_B
      else Message(J, m.dst, m.src) in c.sent && Message(J, m.dst, m.src) !in c.flight
    case L => c.nodes[m.src].st >= ST_C && Message(L, m.src, m.src) in c.sent
    case M => c.nodes[m.src].st >= ST_D && Message(M, m.src, m.src) in c.sent
    case N => c.nodes[m.src].st == ST_F
  }

  ghost predicate Wire(t: Topology, c: Cluster)
    requires c.nodes.Keys == t.Nodes()
  {
    && (forall m :: m in c.flight ==> m in c.sent)
    && (forall m :: m in c.flight && m.kind != I ==> c.flight[m] == 1 && m.src != m.dst)
    && (forall m :: m in c.sent ==> Addressed(t, m) && SentInOrder(t, c, m))
    && (forall m :: m in c.counted ==> m in c.sent && (m.kind != I ==> m !in c.flight))
  }

  /** The states a node can be in, without the wire. */
  predicate LocalOk(leads: bool, s: NodeState) {
    && s.commits == (if s.st == ST_F then 1 else 0)
    && (if leads then s.st == ST_NULL || s.st == ST_B || s.st == ST_C || s.st == ST_D || s.st == ST_F
        else s == IDLE || (s.st == ST_F && s.k == s.l == s.m == 0))
  }

  ghost predicate StateOk(t: Topology, c: Cluster, x: string)
    requires c.nodes.Keys == t.Nodes() && x in t.lead
  {
    && LocalOk(t.lead[x] == x, c.nodes[x])
    && (t.lead[x] != x && c.nodes[x].st == ST_F ==> Message(N, t.lead[x], x) in c.sent)
  }

  /** No counter exceeds the distinct voters whose votes it has counted. */
  ghost predicate CountsOk(t: Topology, c: Cluster, x: string)
    requires c.nodes.Keys == t.Nodes() && x in t.lead
  {
    var s := c.nodes[x];
    && s.k <= |Voters(t, c.counted, K, x)|
    && s.l <= |Voters(t, c.counted, L, x)|
    && s.m <= |Voters(t, c.counted, M, x)|
  }

  /** What a leader must have gathered before it votes in a round, and before it commits. */
  ghost predicate Certified(t: Topology, c: Cluster, x: string)
    requires c.nodes.Keys == t.Nodes() && x in t.lead
  {
    && (Message(L, x, x) in c.sent ==> |Voters(t, c.counted, K, x)| >= t.ZoneQuorum(x))
    && (Message(M, x, x) in c.sent ==> |Voters(t, c.counted, L, x)| >= t.LeaderQuorum(x))
    && (c.nodes[x].st == ST_F && t.lead[x] == x ==> |Voters(t, c.counted, M, x)| >= t.LeaderQuorum(x))
  }

  ghost predicate NodeSafe(t: Topology, c: Cluster, x: string)
    requires c.nodes.Keys == t.Nodes() && x in t.lead
  {
    StateOk(t, c, x) && CountsOk(t, c, x) && Certified(t, c, x)
  }

  ghost predicate Safe(t: Topology, c: Cluster) {
    && c.nodes.Keys == t.Nodes()
    && Wire(t, c)
    && (forall x :: x in t.lead ==> NodeSafe(t, c, x))
  }

  // ----- One handler, locally -----

  /** The kinds a leader may send while its state byte moves from one value to another. */
  predicate Window(before: nat, after: nat, kind: Kind) {
    match kind
    case I => false
    case J => before < ST_B <= after
    case K => before < ST_B <= after
    case L => before < ST_C <= after
    case M => before < ST_D <= after
    case N => before < ST_F == after
  }

  /** The counter grows by at most the vote received and the vote the node casts itself. */
  predicate Grows(before: nat, after: nat, own: bool, got: bool) {
    after <= before + (if own then 1 else 0) + (if got then 1 else 0)
  }

  /** What a handler sends, whatever the rest of the network holds. */
  ghost predicate Shape(t: Topology, x: string, s: NodeState, kind: Kind, e: Effect)
    requires x in t.lead
  {
    && s.st <= e.ns.st
    && (s.st == ST_F ==> e.ns.st == ST_F)
    && (forall m :: m in e.mail ==> m.src == x && m.dst != x && m.kind != I && m.dst in t.lead && Addressed(t, m))
    && (forall m :: m in e.mail ==> if t.lead[x] == x then Window(s.st, e.ns.st, m.kind) else kind == J)
    && (forall m :: m in e.mail && (m.kind == L || m.kind == M) ==> Message(m.kind, x, x) in e.own)
    && (forall m :: m in e.own ==>
          && m.src == x && m.dst == x && t.lead[x] == x
          && (m.kind == K || m.kind == L || m.kind == M) && Window(s.st, e.ns.st, m.kind))
    && Grows(s.k, e.ns.k, Message(K, x, x) in e.own, kind == K)
    && Grows(s.l, e.ns.l, Message(L, x, x) in e.own, kind == L)
    && Grows(s.m, e.ns.m, Message(M, x, x) in e.own, kind == M)
  }

  /** What a handler must have counted to vote or to commit. */
  ghost predicate Evidence(t: Topology, x: string, s: NodeState, kind: Kind, e: Effect)
    requires x in t.lead
  {
    && (Message(L, x, x) in e.own ==>
          if kind == K then s.k + 1 >= t.ZoneQuorum(x) else t.ZoneQuorum(x) == 1 && Message(K, x, x) in e.own)
    && (Message(M, x, x) in e.own ==> kind == L && s.l + 1 >= t.LeaderQuorum(x))
    && (t.lead[x] == x && s.st != ST_F && e.ns.st == ST_F ==>
          s.m + 1 >= t.LeaderQuorum(x) && (kind == M || (kind == L && Message(M, x, x) in e.own)))
  }

  ghost predicate HandlerOk(t: Topology, x: string, s: NodeState, kind: Kind, e: Effect)
    requires x in t.lead
  {
    && Shape(t, x, s, kind, e)
    && Evidence(t, x, s, kind, e)
    && LocalOk(t.lead[x] == x, e.ns)
    && (t.lead[x] != x && s.st != ST_F && e.ns.st == ST_F ==> kind == N)
  }

  lemma {:induction false} HandlerIOk(t: Topology, x: string, s: NodeState)
    requires t.Valid() && x in t.lead && t.lead[x] == x && LocalOk(true, s) && s.st < ST_F
    ensures HandlerOk(t, x, s, I, OnI(t, x, s))
  {
    var taken := s.(st := ST_B, k := s.k + 1);
    assert Message(K, x, x) in (if s.st == ST_NULL then OnI(t, x, s).own else {Message(K, x, x)});
  }

  lemma {:induction false} HandlerKOk(t: Topology, x: string, s: NodeState)
    requires t.Valid() && x in t.lead && t.lead[x] == x && LocalOk(true, s) && s.st < ST_F
    ensures HandlerOk(t, x, s, K, OnK(t, x, s))
  {
  }

  lemma {:induction false} HandlerLOk(t: Topology, x: string, s: NodeState)
    requires t.Valid() && x in t.lead && t.lead[x] == x && LocalOk(true, s) && s.st < ST_F
    ensures HandlerOk(t, x, s, L, OnL(t, x, s))
  {
  }

  lemma {:induction false} HandlerMOk(t: Topology, x: string, s: NodeState)
    requires t.Valid() && x in t.lead && t.lead[x] == x && LocalOk(true, s) && s.st < ST_F
    ensures HandlerOk(t, x, s, M, OnM(t, x, s))
  {
  }

  lemma {:induction false} HandlerIsOk(t: Topology, x: string, s: NodeState, kind: Kind, valid: bool)
    requires t.Valid() && x in t.lead
    requires kind != J && kind != N <==> t.lead[x] == x
    requires LocalOk(t.lead[x] == x, s)
    ensures HandlerOk(t, x, s, kind, Handle(t, x, s, kind, valid))
  {
    if s.st < ST_F && valid {
      match kind {
        case I => HandlerIOk(t, x, s);
        case J =>
        case K => HandlerKOk(t, x, s);
        case L => HandlerLOk(t, x, s);
        case M => HandlerMOk(t, x, s);
        case N =>
      }
    }
  }

  // ----- One delivery, globally -----

  /** The cluster after node msg.dst has handled msg with effect e. */
  ghost function Delivered(c: Cluster, msg: Message, e: Effect): (d: Cluster)
    requires msg.dst in c.nodes
    ensures d.nodes.Keys == c.nodes.Keys
  {
    Post(Taken(c, msg, e), e.mail, e.own)
  }

  /** A message that one move of the state byte sends has never been sent before. */
  ghost predicate Fresh(c: Cluster, e: Effect) {
    forall m :: m in e.mail || m in e.own ==> m !in c.sent
  }

  lemma {:induction false} SendsAreFresh(t: Topology, c: Cluster, msg: Message, e: Effect)
    requires t.Valid() && c.nodes.Keys == t.Nodes() && Wire(t, c) && msg in c.flight && msg.dst in t.lead
    requires Shape(t, msg.dst, c.nodes[msg.dst], msg.kind, e)
    ensures Fresh(c, e)
  {
    assert msg in c.sent && Addressed(t, msg);
  }

  lemma {:induction false} FlightAfter(t: Topology, c: Cluster, msg: Message, e: Effect, m: Message)
    requires t.Valid() && c.nodes.Keys == t.Nodes() && Wire(t, c) && msg in c.flight && msg.dst in t.lead
    requires Fresh(c, e)
    ensures var d := Delivered(c, msg, e);
            && (m.kind != I || m in e.mail ==> (m in d.flight <==> m in e.mail || (m in c.flight && m != msg)))
            && (m in d.flight ==> m in e.mail || m in c.flight)
            && (m.kind != I && m in d.flight ==> d.flight[m] == 1)
            && (m in d.sent <==> m in c.sent || m in e.mail || m in e.own)
  {
  }

  lemma {:induction false} OrderKept(t: Topology, c: Cluster, msg: Message, e: Effect, m: Message)
    requires t.Valid() && c.nodes.Keys == t.Nodes() && Wire(t, c) && msg in c.flight && msg.dst in t.lead
    requires Shape(t, msg.dst, c.nodes[msg.dst], msg.kind, e) && Fresh(c, e)
    requires m in Delivered(c, msg, e).sent
    ensures Addressed(t, m) && SentInOrder(t, Delivered(c, msg, e), m)
  {
    hide Grows, Wire, Addressed, SentInOrder;
    FlightAfter(t, c, msg, e, m);
    if m in c.sent {
      OldOrderKept(t, c, msg, e, m);
    } else {
      NewInOrder(t, c, msg, e, m);
    }
  }

  lemma {:induction false} WireSays(t: Topology, c: Cluster, m: Message)
    requires c.nodes.Keys == t.Nodes() && Wire(t, c) && m in c.sent
    ensures Addressed(t, m) && SentInOrder(t, c, m)
  {
  }

  lemma {:induction false} OldOrderKept(t: Topology, c: Cluster, msg: Message, e: Effect, m: Message)
    requires t.Valid() && c.nodes.Keys == t.Nodes() && Wire(t, c) && msg in c.flight && msg.dst in t.lead
    requires Shape(t, msg.dst, c.nodes[msg.dst], msg.kind, e) && Fresh(c, e)
    requires m in c.sent
    ensures Addressed(t, m) && SentInOrder(t, Delivered(c, msg, e), m)
  {
    hide Grows, Wire;
    WireSays(t, c, m);
    FlightAfter(t, c, msg, e, Message(J, m.dst, m.src));
  }

  lemma {:induction false} NewInOrder(t: Topology, c: Cluster, msg: Message, e: Effect, m: Message)
    requires t.Valid() && c.nodes.Keys == t.Nodes() && Wire(t, c) && msg in c.flight && msg.dst in t.lead
    requires Shape(t, msg.dst, c.nodes[msg.dst], msg.kind, e) && Fresh(c, e)
    requires m in e.mail || m in e.own
    ensures Addressed(t, m) && SentInOrder(t, Delivered(c, msg, e), m)
  {
    hide Grows, Wire;
    FlightAfter(t, c, msg, e, msg);
    FlightAfter(t, c, msg, e, Message(J, m.dst, m.src));
    InFlightIsSent(t, c, msg);
    WireSays(t, c, msg);
  }

  lemma {:induction false} InFlightIsSent(t: Topology, c: Cluster, m: Message)
    requires c.nodes.Keys == t.Nodes() && Wire(t, c) && m in c.flight
    ensures m in c.sent
  {
  }

  lemma {:induction false} WireKept(t: Topology, c: Cluster, msg: Message, e: Effect)
    requires t.Valid() && c.nodes.Keys == t.Nodes() && Wire(t, c) && msg in c.flight && msg.dst in t.lead
    requires Shape(t, msg.dst, c.nodes[msg.dst], msg.kind, e) && Fresh(c, e)
    ensures Wire(t, Delivered(c, msg, e))
  {
    var d := Delivered(c, msg, e);
    forall m | m in d.sent ensures Addressed(t, m) && SentInOrder(t, d, m) {
      OrderKept(t, c, msg, e, m);
    }
    forall m | m in d.flight ensures m in d.sent && (m.kind != I ==> d.flight[m] == 1 && m.src != m.dst) {
      FlightAfter(t, c, msg, e, m);
    }
  }

  lemma {:induction false} VotersGrow(t: Topology, sent: set<Message>, more: set<Message>, kind: Kind, y: string,
                                      x: string)
    requires forall m :: m in more ==> m.src == x && m !in sent
    requires x in t.lead
    ensures Voters(t, sent + more, kind, y)
            == Voters(t, sent, kind, y) + (if Message(kind, x, y) in more then {x} else {})
    ensures |Voters(t, sent + more, kind, y)|
            == |Voters(t, sent, kind, y)| + (if Message(kind, x, y) in more then 1 else 0)
  {
    if Message(kind, x, y) in more {
      assert x !in Voters(t, sent, kind, y);
    }
  }

  /** A delivery adds to the votes that y has counted the one that reached it and moved it, and the one it
      casts for itself. */
  lemma {:induction false} CountedAfter(t: Topology, c: Cluster, msg: Message, e: Effect, kind: Kind, y: string)
    requires c.nodes.Keys == t.Nodes() && Wire(t, c) && msg in c.flight && msg.dst in t.lead && y in t.lead
    requires Shape(t, msg.dst, c.nodes[msg.dst], msg.kind, e) && Fresh(c, e) && kind != I
    ensures var d, x := Delivered(c, msg, e), msg.dst;
            && |Voters(t, d.counted, kind, y)| == |Voters(t, c.counted, kind, y)|
                 + (if y == x && Message(kind, x, x) in e.own then 1 else 0)
                 + (if y == x && msg.kind == kind && e.ns != c.nodes[x] then 1 else 0)
  {
    hide Shape, Voters, Wire, Addressed, Fresh;
    TakenFacts(t, c, msg, e);
    var x, counts := msg.dst, e.ns != c.nodes[msg.dst];
    var own := c.counted + e.own;
    var more := if counts && msg.kind != I then {msg} else {};
    VotersGrow(t, c.counted, e.own, kind, y, x);
    VotersGrow(t, own, more, kind, y, msg.src);
    SameKind(t, own + more, Delivered(c, msg, e).counted, kind, y);
    assert Message(kind, x, y) in e.own ==> y == x;
  }

  lemma {:induction false} SameKind(t: Topology, a: set<Message>, b: set<Message>, kind: Kind, y: string)
    requires forall m: Message :: m.kind == kind ==> (m in a <==> m in b)
    ensures Voters(t, a, kind, y) == Voters(t, b, kind, y)
  {
  }

  lemma {:induction false} TakenFacts(t: Topology, c: Cluster, msg: Message, e: Effect)
    requires c.nodes.Keys == t.Nodes() && Wire(t, c) && msg in c.flight && msg.dst in t.lead
    requires Shape(t, msg.dst, c.nodes[msg.dst], msg.kind, e) && Fresh(c, e)
    ensures msg.src in t.lead && msg == Message(msg.kind, msg.src, msg.dst)
    ensures msg.kind != I ==> msg !in c.counted && msg !in e.own && msg.src != msg.dst
    ensures forall m :: m in e.own ==> m.src == m.dst == msg.dst && m !in c.counted && m.kind != I
  {
    assert msg in c.sent && Addressed(t, msg);
  }

  lemma {:induction false} Grown(t: Topology, x: string, s: NodeState, kind: Kind, e: Effect)
    requires x in t.lead && Shape(t, x, s, kind, e)
    ensures Grows(s.k, e.ns.k, Message(K, x, x) in e.own, kind == K)
    ensures Grows(s.l, e.ns.l, Message(L, x, x) in e.own, kind == L)
    ensures Grows(s.m, e.ns.m, Message(M, x, x) in e.own, kind == M)
  {
  }

  lemma {:induction false} CountsKept(t: Topology, c: Cluster, msg: Message, e: Effect, y: string)
    requires t.Valid() && c.nodes.Keys == t.Nodes() && Wire(t, c) && msg in c.flight && msg.dst in t.lead
    requires Shape(t, msg.dst, c.nodes[msg.dst], msg.kind, e) && Fresh(c, e)
    requires y in t.lead && CountsOk(t, c, y)
    ensures CountsOk(t, Delivered(c, msg, e), y)
  {
    hide Wire, Shape, Fresh, Voters;
    Grown(t, msg.dst, c.nodes[msg.dst], msg.kind, e);
    CountedAfter(t, c, msg, e, K, y);
    CountedAfter(t, c, msg, e, L, y);
    CountedAfter(t, c, msg, e, M, y);
  }

  lemma {:induction false} CertifiedElsewhere(t: Topology, c: Cluster, msg: Message, e: Effect, y: string)
    requires c.nodes.Keys == t.Nodes() && Wire(t, c) && msg in c.flight && msg.dst in t.lead && Fresh(c, e)
    requires Shape(t, msg.dst, c.nodes[msg.dst], msg.kind, e)
    requires y in t.lead && y != msg.dst && Certified(t, c, y)
    ensures Certified(t, Delivered(c, msg, e), y)
  {
    hide Window, Grows, Addressed, Wire, Voters;
    CountedAfter(t, c, msg, e, K, y);
    CountedAfter(t, c, msg, e, L, y);
    CountedAfter(t, c, msg, e, M, y);
  }

  lemma {:induction false} CertifiedHere(t: Topology, c: Cluster, msg: Message, e: Effect)
    requires c.nodes.Keys == t.Nodes() && Wire(t, c) && msg in c.flight && msg.dst in t.lead && Fresh(c, e)
    requires Shape(t, msg.dst, c.nodes[msg.dst], msg.kind, e)
    requires Evidence(t, msg.dst, c.nodes[msg.dst], msg.kind, e)
    requires Certified(t, c, msg.dst) && CountsOk(t, c, msg.dst)
    ensures Certified(t, Delivered(c, msg, e), msg.dst)
  {
    hide Grows, Addressed, Wire, Voters;
    CountedAfter(t, c, msg, e, K, msg.dst);
    CountedAfter(t, c, msg, e, L, msg.dst);
    CountedAfter(t, c, msg, e, M, msg.dst);
  }

  lemma {:induction false} CertifiedKept(t: Topology, c: Cluster, msg: Message, e: Effect, y: string)
    requires c.nodes.Keys == t.Nodes() && Wire(t, c) && msg in c.flight && msg.dst in t.lead && Fresh(c, e)
    requires Shape(t, msg.dst, c.nodes[msg.dst], msg.kind, e)
    requires Evidence(t, msg.dst, c.nodes[msg.dst], msg.kind, e)
    requires y in t.lead && Certified(t, c, y) && CountsOk(t, c, y)
    ensures Certified(t, Delivered(c, msg, e), y)
  {
    if y == msg.dst {
      CertifiedHere(t, c, msg, e);
    } else {
      CertifiedElsewhere(t, c, msg, e, y);
    }
  }

  lemma {:induction false} DeliverKeepsWire(t: Topology, c: Cluster, msg: Message, valid: bool)
    requires t.Valid() && c.nodes.Keys == t.Nodes() && Wire(t, c)
    requires CanStep(t, c, Deliver(msg, valid)) && StateOk(t, c, msg.dst)
    ensures var e := Handle(t, msg.dst, c.nodes[msg.dst], msg.kind, valid);
            HandlerOk(t, msg.dst, c.nodes[msg.dst], msg.kind, e) && Fresh(c, e) && Wire(t, Delivered(c, msg, e))
  {
    var e := Handle(t, msg.dst, c.nodes[msg.dst], msg.kind, valid);
    assert msg in c.sent && Addressed(t, msg);
    HandlerIsOk(t, msg.dst, c.nodes[msg.dst], msg.kind, valid);
    SendsAreFresh(t, c, msg, e);
    WireKept(t, c, msg, e);
  }

  lemma {:induction false} StateKept(t: Topology, c: Cluster, msg: Message, e: Effect, y: string)
    requires t.Valid() && c.nodes.Keys == t.Nodes() && Wire(t, c) && msg in c.flight && msg.dst in t.lead
    requires HandlerOk(t, msg.dst, c.nodes[msg.dst], msg.kind, e)
    requires y in t.lead && StateOk(t, c, y)
    ensures StateOk(t, Delivered(c, msg, e), y)
  {
    if y == msg.dst {
      assert msg in c.sent && Addressed(t, msg);
      assert msg == Message(msg.kind, msg.src, msg.dst);
    }
  }

  lemma {:induction false} NodeKept(t: Topology, c: Cluster, msg: Message, e: Effect, y: string)
    requires t.Valid() && c.nodes.Keys == t.Nodes() && Wire(t, c) && msg in c.flight && msg.dst in t.lead
    requires HandlerOk(t, msg.dst, c.nodes[msg.dst], msg.kind, e) && Fresh(c, e)
    requires y in t.lead && NodeSafe(t, c, y)
    ensures NodeSafe(t, Delivered(c, msg, e), y)
  {
    StateKept(t, c, msg, e, y);
    CountsKept(t, c, msg, e, y);
    CertifiedKept(t, c, msg, e, y);
  }

  lemma {:induction false} DeliveredIsSafe(t: Topology, c: Cluster, msg: Message, e: Effect)
    requires t.Valid() && Safe(t, c) && msg in c.flight && msg.dst in t.lead
    requires HandlerOk(t, msg.dst, c.nodes[msg.dst], msg.kind, e) && Fresh(c, e)
    requires Wire(t, Delivered(c, msg, e))
    ensures Safe(t, Delivered(c, msg, e))
  {
    hide HandlerOk, NodeSafe, Wire, Delivered;
    forall y | y in t.lead ensures NodeSafe(t, Delivered(c, msg, e), y) {
      NodeKept(t, c, msg, e, y);
    }
  }

  lemma {:induction false} DeliverKeepsSafe(t: Topology, c: Cluster, msg: Message, valid: bool)
    requires t.Valid() && Safe(t, c) && CanStep(t, c, Deliver(msg, valid))
    ensures Safe(t, Delivered(c, msg, Handle(t, msg.dst, c.nodes[msg.dst], msg.kind, valid)))
  {
    assert NodeSafe(t, c, msg.dst);
    DeliverKeepsWire(t, c, msg, valid);
    DeliveredIsSafe(t, c, msg, Handle(t, msg.dst, c.nodes[msg.dst], msg.kind, valid));
  }

  // ----- The other steps -----

  /** d is c with messages lost or counts forgotten. */
  ghost predicate Less(t: Topology, c: Cluster, d: Cluster)
    requires c.nodes.Keys == t.Nodes()
  {
    && d.sent == c.sent && d.counted == c.counted && d.flight <= c.flight && d.nodes.Keys == c.nodes.Keys
    && forall x :: x in t.lead ==>
         var s, s' := c.nodes[x], d.nodes[x];
         s'.st == s.st && s'.commits == s.commits && s'.k <= s.k && s'.l <= s.l && s'.m <= s.m
  }

  lemma {:induction false} LessWire(t: Topology, c: Cluster, d: Cluster)
    requires t.Valid() && c.nodes.Keys == t.Nodes() && Wire(t, c) && Less(t, c, d)
    ensures Wire(t, d)
  {
    forall m | m in d.flight ensures m in c.flight && d.flight[m] <= c.flight[m] {
    }
    forall m | m in d.sent ensures Addressed(t, m) && SentInOrder(t, d, m) {
      assert Addressed(t, m) && SentInOrder(t, c, m);
    }
  }

  lemma {:induction false} LessNode(t: Topology, c: Cluster, d: Cluster, y: string)
    requires c.nodes.Keys == t.Nodes() && Less(t, c, d)
    requires y in t.lead && NodeSafe(t, c, y)
    ensures NodeSafe(t, d, y)
  {
  }

  lemma {:induction false} LessIsSafe(t: Topology, c: Cluster, d: Cluster)
    requires t.Valid() && Safe(t, c) && Less(t, c, d)
    ensures Safe(t, d)
  {
    LessWire(t, c, d);
    forall y | y in t.lead ensures NodeSafe(t, d, y) {
      LessNode(t, c, d, y);
    }
  }

  lemma {:induction false} SubmitWire(t: Topology, c: Cluster, at: string)
    requires t.Valid() && c.nodes.Keys == t.Nodes() && Wire(t, c) && at in t.lead
    ensures Wire(t, Post(c, To(I, at, t.Leaders()), {}))
  {
    var d := Post(c, To(I, at, t.Leaders()), {});
    forall m | m in d.sent ensures Addressed(t, m) && SentInOrder(t, d, m) {
      if m in c.sent {
        assert Addressed(t, m) && SentInOrder(t, c, m);
      }
    }
  }

  lemma {:induction false} SubmitNode(t: Topology, c: Cluster, at: string, y: string)
    requires c.nodes.Keys == t.Nodes() && at in t.lead
    requires y in t.lead && NodeSafe(t, c, y)
    ensures NodeSafe(t, Post(c, To(I, at, t.Leaders()), {}), y)
  {
    hide NodeSafe, Post;
    SameSent(t, c, at);
    SameNode(t, c, Post(c, To(I, at, t.Leaders()), {}), y);
  }

  lemma {:induction false} SameNode(t: Topology, c: Cluster, d: Cluster, y: string)
    requires c.nodes.Keys == t.Nodes() && d.nodes == c.nodes && d.counted == c.counted
    requires y in t.lead && NodeSafe(t, c, y)
    requires forall kind, f :: kind != I ==> (Message(kind, f, y) in d.sent <==> Message(kind, f, y) in c.sent)
    ensures NodeSafe(t, d, y)
  {
    hide Voters, LocalOk;
  }

  lemma {:induction false} SameSent(t: Topology, c: Cluster, at: string)
    ensures var d := Post(c, To(I, at, t.Leaders()), {});
            && d.nodes == c.nodes && d.counted == c.counted
            && forall m: Message :: m.kind != I ==> (m in d.sent <==> m in c.sent)
  {
  }

  lemma {:induction false} SubmitKeepsSafe(t: Topology, c: Cluster, at: string)
    requires t.Valid() && Safe(t, c) && at in t.lead
    ensures Safe(t, Post(c, To(I, at, t.Leaders()), {}))
  {
    SubmitWire(t, c, at);
    forall y | y in t.lead ensures NodeSafe(t, Post(c, To(I, at, t.Leaders()), {}), y) {
      SubmitNode(t, c, at, y);
    }
  }

  lemma {:induction false} CleanupIsLess(t: Topology, c: Cluster, s: Step)
    requires c.nodes.Keys == t.Nodes() && CanStep(t, c, s) && (s.Cleanup? || s.Lose?)
    ensures Less(t, c, Apply(t, c, s))
  {
  }

  lemma {:induction false} StepKeepsSafe(t: Topology, c: Cluster, s: Step)
    requires t.Valid() && Safe(t, c) && CanStep(t, c, s)
    ensures Safe(t, Apply(t, c, s))
  {
    hide Handle, Less, Wire, NodeSafe;
    match s {
      case Submit(at, valid) => SubmitKeepsSafe(t, c, at);
      case Deliver(msg, valid) => DeliverKeepsSafe(t, c, msg, valid);
      case Lose(_) | Cleanup(_, _, _, _) =>
        CleanupIsLess(t, c, s);
        LessIsSafe(t, c, Apply(t, c, s));
    }
  }

  lemma {:induction false} StartIsSafe(t: Topology)
    requires t.Valid()
    ensures Safe(t, Start(t))
  {
  }

  lemma {:induction false} RunsAreSafe(t: Topology, steps: seq<Step>)
    requires t.Valid() && IsRun(t, steps)
    ensures Safe(t, After(t, steps))
    decreases |steps|
  {
    if steps == [] {
      StartIsSafe(t);
    } else {
      var last := |steps| - 1;
      RunsAreSafe(t, steps[..last]);
      StepKeepsSafe(t, After(t, steps[..last]), steps[last]);
    }
  }
}
