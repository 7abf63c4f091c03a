/** One voted query id on the whole network. Clients may submit it at any node and again at any time, and each
    submission carries the result that node has then.

    Lost or rejected messages and swept counters are allowed throughout; each node's own result may differ
    from delivery to delivery. */
module QueryClusters {
  import opened Quorum
  import opened Wrappers
  import opened Topologies
  import opened NodeSteps
  import opened QuerySteps

  /** The histories: sent holds every message, counted those that moved a counter or the state of their
      receiver, submitted the submissions as (node, response), taken the submission each leader took up, and
      computed the results that nodes computed for messages they accepted. */
  datatype QueryCluster = QueryCluster(
    nodes: map<string, QueryState>,
    flight: multiset<Query>,
    sent: set<Query>,
    counted: set<Query>,
    submitted: set<(string, string)>,
    taken: map<string, (string, string)>,
    computed: set<(string, string)>)

  datatype QueryStep =
    | Submit(at: string, res: string, connected: bool)  // connected: enough leaders could be reached
    | Deliver(msg: Query, valid: bool, res: string)
    | Lose(msg: Query)
    | Cleanup(at: string, k: bool, l: bool, result: bool)

  ghost function Start(t: Topology): QueryCluster {
    QueryCluster(map x | x in t.lead :: IDLE_QUERY, multiset{}, {}, {}, {}, map[], {})
  }

  ghost predicate CanStep(t: Topology, c: QueryCluster, s: QueryStep) {
    match s
    case Submit(at, _, _) => at in t.lead
    case Deliver(msg, _, _) => msg in c.flight && msg.dst in t.lead
    case Lose(msg) => msg in c.flight
    case Cleanup(at, _, _, _) => at in t.lead
  }

  function Invitations(t: Topology, at: string, res: string): (s: set<Query>)
    ensures forall q :: q in s <==> q.kind == I && q.src == q.initer == at && q.dst in t.Leaders() && q.response == res
  {
    Pass(Query(I, at, at, at, res), I, at, t.Leaders())
  }

  /** Did the message move its receiver? */
  predicate Counts(s: QueryState, e: QueryEffect) {
    e.qs.st != s.st || e.qs.k != s.k || e.qs.l != s.l
  }

  ghost function Delivered(c: QueryCluster, msg: Query, e: QueryEffect): (d: QueryCluster)
    requires msg.dst in c.nodes
    ensures d.nodes.Keys == c.nodes.Keys
  {
    var s := c.nodes[msg.dst];
    c.(nodes := c.nodes[msg.dst := e.qs],
       flight := c.flight - multiset{msg} + multiset(e.mail),
       sent := c.sent + e.mail,
       counted := c.counted + if Counts(s, e) then {msg} else {},
       taken := if msg.kind == I && s.st != e.qs.st then c.taken[msg.dst := (msg.initer, msg.response)] else c.taken)
  }

  /** What the receiver computed, when it accepts the message. */
  ghost function Known(c: QueryCluster, msg: Query, valid: bool, res: string): (d: QueryCluster)
    ensures d.nodes.Keys == c.nodes.Keys
  {
    c.(computed := c.computed + if valid && res == msg.response then {(msg.dst, res)} else {})
  }

  ghost function Apply(t: Topology, zones: nat, c: QueryCluster, s: QueryStep): (d: QueryCluster)
    requires c.nodes.Keys == t.Nodes() && CanStep(t, c, s)
    ensures d.nodes.Keys == c.nodes.Keys
  {
    match s
    case Submit(at, res, connected) =>
      var mail := Invitations(t, at, res);
      c.(nodes := c.nodes[at := c.nodes[at].(waiting := c.nodes[at].waiting || connected)],
         flight := c.flight + multiset(mail), sent := c.sent + mail, submitted := c.submitted + {(at, res)})
    case Deliver(msg, valid, res) =>
      Delivered(Known(c, msg, valid, res), msg, HandleQuery(t, msg.dst, c.nodes[msg.dst], msg, zones, valid, res))
    case Lose(msg) => c.(flight := c.flight - multiset{msg})
    case Cleanup(at, k, l, result) =>
      var s := c.nodes[at];
      var swept := s.(k := if k then 0 else s.k, l := if l then 0 else s.l,
                      result := if result then None else s.result);
      c.(nodes := c.nodes[at := swept])
  }

  ghost predicate IsRun(t: Topology, zones: nat, steps: seq<QueryStep>)
    decreases |steps|, 0
  {
    steps == [] ||
    (var last := |steps| - 1;
     && IsRun(t, zones, steps[..last])
     && CanStep(t, After(t, zones, steps[..last]), steps[last]))
  }

  ghost function After(t: Topology, zones: nat, steps: seq<QueryStep>): (c: QueryCluster)
    requires IsRun(t, zones, steps)
    ensures c.nodes.Keys == t.Nodes()
    decreases |steps|, 1
  {
    if steps == [] then Start(t)
    else
      var last := |steps| - 1;
      Apply(t, zones, After(t, zones, steps[..last]), steps[last])
  }

  // ----- Invariants -----

  /** The messages of a kind to y among ms. */
  ghost function Ballots(ms: set<Query>, kind: Kind, y: string): set<Query> {
    set m | m in ms && m.kind == kind && m.dst == y
  }

  /** The message carries the submission that leader g took up. */
  ghost predicate OfZone(c: QueryCluster, g: string, m: Query) {
    g in c.taken && c.taken[g] == (m.initer, m.response)
  }

  function PollOf(m: Query): Query {
    Query(J, m.dst, m.src, m.initer, m.response)
  }

  /** What a message in the history says about the nodes that sent it. */
  ghost predicate SentOk(t: Topology, c: QueryCluster, m: Query)
    requires c.nodes.Keys == t.Nodes()
  {
    && m.src in t.lead && m.dst in t.lead && (m.initer, m.response) in c.submitted
    && match m.kind
       case I => m.dst in t.Leaders()
       case J => t.lead[m.dst] == m.src && m.src != m.dst && c.nodes[m.src].st >= ST_B && OfZone(c, m.src, m)
       case K =>
         && t.lead[m.src] == m.dst && m.src != m.dst && OfZone(c, m.dst, m)
         && PollOf(m) in c.sent && PollOf(m) !in c.flight
         && (m.src, m.response) in c.computed
       case L =>
         && m.src in t.Leaders() && m.dst == m.initer && m.src != m.dst && c.nodes[m.src].st >= ST_C
         && OfZone(c, m.src, m)
         && (m.src, m.response) in c.computed
         && |Ballots(c.counted, K, m.src)| >= t.ZoneQuorum(m.src)
       case M => false
       case N => false
  }

  ghost predicate Wire(t: Topology, c: QueryCluster)
    requires c.nodes.Keys == t.Nodes()
  {
    && (forall m :: m in c.flight ==> m in c.sent)
    && (forall m :: m in c.flight && m.kind != I ==> c.flight[m] == 1)
    && (forall m :: m in c.counted ==> m in c.sent && (m.kind != I ==> m !in c.flight))
    && (forall m :: m in c.sent ==> SentOk(t, c, m))
  }

  /** What a leader took up and what a node computed was submitted somewhere. */
  ghost predicate HistoryOk(t: Topology, c: QueryCluster)
    requires c.nodes.Keys == t.Nodes()
  {
    && (forall g :: g in c.taken ==> g in t.lead && c.nodes[g].st >= ST_B)
    && (forall p :: p in c.submitted ==> p.0 in t.lead)
    && (forall p :: p in c.computed ==> exists y :: (y, p.1) in c.submitted)
  }

  /** No counter exceeds the ballots counted; the kept result was computed; at most one reply, with the count
      of a majority of zones behind it. */
  ghost predicate NodeOk(t: Topology, zones: nat, c: QueryCluster, x: string)
    requires c.nodes.Keys == t.Nodes() && x in t.lead
  {
    var s := c.nodes[x];
    && s.k <= |Ballots(c.counted, K, x)|
    && s.l <= |Ballots(c.counted, L, x)|
    && (s.result.Some? ==> (x, s.result.value) in c.computed)
    && (s.replies != [] ==> s.st >= ST_D && |s.replies| == 1 && (x, s.replies[0]) in c.computed
                            && |Ballots(c.counted, L, x)| >= zones / 2 + 1)
  }

  ghost predicate Safe(t: Topology, zones: nat, c: QueryCluster) {
    && c.nodes.Keys == t.Nodes() && Wire(t, c) && HistoryOk(t, c)
    && forall x :: x in t.lead ==> NodeOk(t, zones, c, x)
  }

  // ----- One handler -----

  /** What a handler does, whatever the rest of the network holds. */
  ghost predicate Shape(t: Topology, zones: nat, s: QueryState, msg: Query, e: QueryEffect)
    requires msg.dst in t.lead
  {
    var x := msg.dst;
    && s.st <= e.qs.st
    && (forall m :: m in e.mail ==>
          && m.src == x && m.dst in t.lead && m.dst != x && m.initer == msg.initer && m.response == msg.response
          && if t.lead[x] != x then
               m.kind == K && msg.kind == J && m.dst == t.lead[x]
             else if m.kind == J then
               msg.kind == I && s.st != e.qs.st && ST_B <= e.qs.st && t.lead[m.dst] == x
             else
               m.kind == L && msg.kind == K && m.dst == msg.initer && s.st < ST_C <= e.qs.st
               && s.k + 1 >= t.ZoneQuorum(x))
    && (msg.kind == I && s.st != e.qs.st ==> s.st == ST_NULL && ST_B <= e.qs.st)
    && e.qs.k <= s.k + (if msg.kind == K && Counts(s, e) then 1 else 0)
    && e.qs.l <= s.l + (if msg.kind == L && Counts(s, e) then 1 else 0)
    && (e.qs.result == s.result || e.qs.result == Some(msg.response))
    && (e.qs.replies == s.replies
        || (s.st < ST_D <= e.qs.st && s.l + 1 >= zones / 2 + 1 && msg.kind == L
            && e.qs.replies == s.replies + [if s.result.Some? then s.result.value else msg.response]))
  }

  lemma {:induction false} HandlerShape(t: Topology, zones: nat, s: QueryState, msg: Query, valid: bool, res: string)
    requires t.Valid() && msg.dst in t.lead && msg.initer in t.lead
    ensures Shape(t, zones, s, msg, HandleQuery(t, msg.dst, s, msg, zones, valid, res))
  {
    if valid && res == msg.response {
      match msg.kind {
        case K => ShapeK(t, zones, s, msg);
        case L => ShapeL(t, zones, s, msg);
        case _ =>
      }
    }
  }

  lemma {:induction false} ShapeK(t: Topology, zones: nat, s: QueryState, msg: Query)
    requires t.Valid() && msg.dst in t.lead && msg.initer in t.lead && msg.kind == K
    ensures Shape(t, zones, s, msg, OnQueryK(t, msg.dst, Keep(s, msg.response), msg))
  {
  }

  lemma {:induction false} ShapeL(t: Topology, zones: nat, s: QueryState, msg: Query)
    requires msg.dst in t.lead && msg.kind == L
    ensures Shape(t, zones, s, msg, OnQueryL(t, msg.dst, Keep(s, msg.response), zones))
  {
  }

  // ----- One delivery -----

  ghost predicate Fresh(c: QueryCluster, e: QueryEffect) {
    forall m :: m in e.mail ==> m !in c.sent
  }

  /** A delivery in a safe cluster, with the computed history already brought up to date. */
  ghost predicate GoodDelivery(t: Topology, zones: nat, c: QueryCluster, msg: Query, e: QueryEffect) {
    && t.Valid() && c.nodes.Keys == t.Nodes() && Wire(t, c) && HistoryOk(t, c)
    && msg in c.flight && msg in c.sent && msg.dst in t.lead && SentOk(t, c, msg)
    && Shape(t, zones, c.nodes[msg.dst], msg, e)
    && (e.mail != {} || e.qs != c.nodes[msg.dst] ==> (msg.dst, msg.response) in c.computed)
  }

  lemma {:induction false} SendsAreFresh(t: Topology, zones: nat, c: QueryCluster, msg: Query, e: QueryEffect)
    requires GoodDelivery(t, zones, c, msg, e)
    ensures Fresh(c, e)
  {
    forall m | m in e.mail ensures m !in c.sent {
      assert m in c.sent ==> SentOk(t, c, m);
      if m.kind == K {
        assert PollOf(m) == msg;
      }
    }
  }

  lemma {:induction false} FlightAfter(t: Topology, zones: nat, c: QueryCluster, msg: Query, e: QueryEffect, m: Query)
    requires GoodDelivery(t, zones, c, msg, e) && Fresh(c, e)
    ensures var d := Delivered(c, msg, e);
            && (m.kind != I ==> (m in d.flight <==> m in e.mail || (m in c.flight && m != msg)))
            && (m in d.flight ==> m in e.mail || m in c.flight)
            && (m.kind != I && m in d.flight ==> d.flight[m] == 1)
            && (m in d.sent <==> m in c.sent || m in e.mail)
  {
    hide Shape, SentOk, HistoryOk;
  }

  lemma {:induction false} BallotsAfter(t: Topology, zones: nat, c: QueryCluster, msg: Query, e: QueryEffect,
                                        kind: Kind, y: string)
    requires GoodDelivery(t, zones, c, msg, e) && kind != I
    ensures |Ballots(Delivered(c, msg, e).counted, kind, y)| ==
              |Ballots(c.counted, kind, y)|
              + (if y == msg.dst && msg.kind == kind && Counts(c.nodes[msg.dst], e) then 1 else 0)
  {
    hide GoodDelivery, Counts, Ballots;
    Basics(t, zones, c, msg, e);
    if Counts(c.nodes[msg.dst], e) {
      BallotsGrow(c.counted, msg, kind, y);
    } else {
      assert c.counted + {} == c.counted;
    }
  }

  lemma {:induction false} BallotsGrow(ms: set<Query>, msg: Query, kind: Kind, y: string)
    requires msg.kind == kind ==> msg !in ms
    ensures |Ballots(ms + {msg}, kind, y)|
            == |Ballots(ms, kind, y)| + (if y == msg.dst && msg.kind == kind then 1 else 0)
  {
    var was, now := Ballots(ms, kind, y), Ballots(ms + {msg}, kind, y);
    if y == msg.dst && msg.kind == kind {
      assert now == was + {msg};
    } else {
      assert now == was;
    }
  }

  /** The submission a leader took up stays. */
  lemma {:induction false} ZoneKept(t: Topology, zones: nat, c: QueryCluster, msg: Query, e: QueryEffect, g: string,
                                    m: Query)
    requires GoodDelivery(t, zones, c, msg, e)
    ensures OfZone(c, g, m) ==> OfZone(Delivered(c, msg, e), g, m)
    ensures forall x :: x in t.lead ==> c.nodes[x].st <= Delivered(c, msg, e).nodes[x].st
  {
    hide Wire, SentOk;
  }

  lemma {:induction false} OldSentOk(t: Topology, zones: nat, c: QueryCluster, msg: Query, e: QueryEffect, m: Query)
    requires GoodDelivery(t, zones, c, msg, e) && Fresh(c, e) && m in c.sent && SentOk(t, c, m)
    ensures SentOk(t, Delivered(c, msg, e), m)
  {
    hide GoodDelivery, OfZone, Ballots, Counts;
    Basics(t, zones, c, msg, e);
    FlightAfter(t, zones, c, msg, e, PollOf(m));
    BallotsAfter(t, zones, c, msg, e, K, m.src);
    ZoneKept(t, zones, c, msg, e, m.src, m);
    ZoneKept(t, zones, c, msg, e, m.dst, m);
  }

  lemma {:induction false} Basics(t: Topology, zones: nat, c: QueryCluster, msg: Query, e: QueryEffect)
    requires GoodDelivery(t, zones, c, msg, e)
    ensures c.nodes.Keys == t.Nodes() && msg.dst in t.lead && msg in c.sent
    ensures msg.kind != I ==> msg !in c.counted
  {
  }

  lemma {:induction false} NewSentOk(t: Topology, zones: nat, c: QueryCluster, msg: Query, e: QueryEffect, m: Query)
    requires GoodDelivery(t, zones, c, msg, e) && Fresh(c, e) && m in e.mail && NodeOk(t, zones, c, msg.dst)
    ensures SentOk(t, Delivered(c, msg, e), m)
  {
    hide Wire, Ballots, HistoryOk, OfZone, Counts;
    if m.kind == K {
      NewVoteOk(t, zones, c, msg, e, m);
    } else if m.kind == J {
      NewPollOk(t, zones, c, msg, e, m);
    } else {
      NewAnswerOk(t, zones, c, msg, e, m);
    }
  }

  lemma {:induction false} NewPollOk(t: Topology, zones: nat, c: QueryCluster, msg: Query, e: QueryEffect, m: Query)
    requires GoodDelivery(t, zones, c, msg, e) && m in e.mail && m.kind == J
    ensures SentOk(t, Delivered(c, msg, e), m)
  {
    hide Wire, Ballots, HistoryOk, Counts;
  }

  lemma {:induction false} NewVoteOk(t: Topology, zones: nat, c: QueryCluster, msg: Query, e: QueryEffect, m: Query)
    requires GoodDelivery(t, zones, c, msg, e) && Fresh(c, e) && m in e.mail && m.kind == K
    ensures SentOk(t, Delivered(c, msg, e), m)
  {
    hide Wire, Ballots, HistoryOk, OfZone, Counts;
    assert PollOf(m) == msg;
    FlightAfter(t, zones, c, msg, e, msg);
    ZoneKept(t, zones, c, msg, e, msg.src, msg);
    SameSubmission(Delivered(c, msg, e), msg.src, msg, m);
  }

  lemma {:induction false} SameSubmission(c: QueryCluster, g: string, m: Query, n: Query)
    requires m.initer == n.initer && m.response == n.response
    ensures OfZone(c, g, m) == OfZone(c, g, n)
  {
  }

  lemma {:induction false} NewAnswerOk(t: Topology, zones: nat, c: QueryCluster, msg: Query, e: QueryEffect, m: Query)
    requires GoodDelivery(t, zones, c, msg, e) && m in e.mail && m.kind == L && NodeOk(t, zones, c, msg.dst)
    ensures SentOk(t, Delivered(c, msg, e), m)
  {
    hide Wire, Ballots, HistoryOk, OfZone;
    BallotsAfter(t, zones, c, msg, e, K, msg.dst);
    ZoneKept(t, zones, c, msg, e, msg.dst, msg);
    SameSubmission(Delivered(c, msg, e), msg.dst, msg, m);
  }

  lemma {:induction false} WireSays(t: Topology, c: QueryCluster, m: Query)
    requires c.nodes.Keys == t.Nodes() && Wire(t, c) && m in c.sent
    ensures SentOk(t, c, m)
  {
  }

  lemma {:induction false} WireKept(t: Topology, zones: nat, c: QueryCluster, msg: Query, e: QueryEffect)
    requires GoodDelivery(t, zones, c, msg, e) && Fresh(c, e) && NodeOk(t, zones, c, msg.dst)
    ensures Wire(t, Delivered(c, msg, e))
  {
    hide NodeOk, Shape, SentOk, HistoryOk, Counts;
    var d := Delivered(c, msg, e);
    forall m | m in d.sent ensures SentOk(t, d, m) {
      if m in c.sent {
        WireSays(t, c, m);
        OldSentOk(t, zones, c, msg, e, m);
      } else {
        NewSentOk(t, zones, c, msg, e, m);
      }
    }
    forall m ensures m in d.flight ==> m in d.sent && (m.kind != I ==> d.flight[m] == 1)
             ensures m in d.counted ==> m in d.sent && (m.kind != I ==> m !in d.flight)
    {
      InOrder(t, zones, c, msg, e, m);
    }
  }

  lemma {:induction false} InOrder(t: Topology, zones: nat, c: QueryCluster, msg: Query, e: QueryEffect, m: Query)
    requires GoodDelivery(t, zones, c, msg, e) && Fresh(c, e)
    ensures var d := Delivered(c, msg, e);
            && (m in d.flight ==> m in d.sent && (m.kind != I ==> d.flight[m] == 1))
            && (m in d.counted ==> m in d.sent && (m.kind != I ==> m !in d.flight))
  {
    hide Shape, SentOk, HistoryOk, Counts;
    FlightAfter(t, zones, c, msg, e, m);
  }

  lemma {:induction false} HistoryKept(t: Topology, zones: nat, c: QueryCluster, msg: Query, e: QueryEffect)
    requires GoodDelivery(t, zones, c, msg, e)
    ensures HistoryOk(t, Delivered(c, msg, e))
  {
    hide Wire;
  }

  lemma {:induction false} NodeKept(t: Topology, zones: nat, c: QueryCluster, msg: Query, e: QueryEffect, y: string)
    requires GoodDelivery(t, zones, c, msg, e) && y in t.lead && NodeOk(t, zones, c, y)
    ensures NodeOk(t, zones, Delivered(c, msg, e), y)
  {
    hide Wire, SentOk, HistoryOk, Ballots;
    BallotsAfter(t, zones, c, msg, e, K, y);
    BallotsAfter(t, zones, c, msg, e, L, y);
  }

  lemma {:induction false} DeliveredIsSafe(t: Topology, zones: nat, c: QueryCluster, msg: Query, e: QueryEffect)
    requires GoodDelivery(t, zones, c, msg, e) && Safe(t, zones, c)
    ensures Safe(t, zones, Delivered(c, msg, e))
  {
    hide GoodDelivery, NodeOk, Wire, HistoryOk, Delivered;
    Basics(t, zones, c, msg, e);
    SendsAreFresh(t, zones, c, msg, e);
    WireKept(t, zones, c, msg, e);
    HistoryKept(t, zones, c, msg, e);
    forall y | y in t.lead ensures NodeOk(t, zones, Delivered(c, msg, e), y) {
      NodeKept(t, zones, c, msg, e, y);
    }
  }

  // ----- The other steps -----

  lemma {:induction false} KnownWire(t: Topology, c: QueryCluster, msg: Query, valid: bool, res: string)
    requires c.nodes.Keys == t.Nodes() && Wire(t, c)
    ensures Wire(t, Known(c, msg, valid, res))
  {
    var d := Known(c, msg, valid, res);
    forall m | m in d.sent ensures SentOk(t, d, m) {
      assert SentOk(t, c, m);
    }
  }

  lemma {:induction false} KnownIsSafe(t: Topology, zones: nat, c: QueryCluster, msg: Query, valid: bool, res: string)
    requires Safe(t, zones, c) && msg in c.flight
    ensures Safe(t, zones, Known(c, msg, valid, res))
  {
    hide SentOk, Ballots;
    KnownWire(t, c, msg, valid, res);
    WireSays(t, c, msg);
    FromSubmission(t, c, msg);
    forall y | y in t.lead ensures NodeOk(t, zones, Known(c, msg, valid, res), y) {
      assert NodeOk(t, zones, c, y);
    }
  }

  lemma {:induction false} FromSubmission(t: Topology, c: QueryCluster, m: Query)
    requires c.nodes.Keys == t.Nodes() && SentOk(t, c, m)
    ensures (m.initer, m.response) in c.submitted && m.src in t.lead && m.dst in t.lead
  {
  }

  lemma {:induction false} DeliverIsGood(t: Topology, zones: nat, c: QueryCluster, msg: Query, valid: bool, res: string)
    requires t.Valid() && Safe(t, zones, c) && CanStep(t, c, Deliver(msg, valid, res))
    ensures var known := Known(c, msg, valid, res);
            && Safe(t, zones, known)
            && GoodDelivery(t, zones, known, msg, HandleQuery(t, msg.dst, c.nodes[msg.dst], msg, zones, valid, res))
  {
    hide NodeOk, Shape, SentOk, VoteOnQuery;
    KnownIsSafe(t, zones, c, msg, valid, res);
    WireSays(t, Known(c, msg, valid, res), msg);
    FromSubmission(t, Known(c, msg, valid, res), msg);
    HandlerShape(t, zones, c.nodes[msg.dst], msg, valid, res);
  }

  /** d is c with messages lost, or counts and kept results forgotten. */
  ghost predicate Less(t: Topology, c: QueryCluster, d: QueryCluster)
    requires c.nodes.Keys == t.Nodes()
  {
    && d == c.(nodes := d.nodes, flight := d.flight)
    && d.flight <= c.flight && d.nodes.Keys == c.nodes.Keys
    && forall x :: x in t.lead ==>
         var s, s' := c.nodes[x], d.nodes[x];
         && s'.k <= s.k && s'.l <= s.l && (s'.result == s.result || s'.result == None)
         && s' == s.(k := s'.k, l := s'.l, result := s'.result)
  }

  lemma {:induction false} LessWire(t: Topology, c: QueryCluster, d: QueryCluster)
    requires c.nodes.Keys == t.Nodes() && Wire(t, c) && Less(t, c, d)
    ensures Wire(t, d)
  {
    hide Ballots;
    forall m | m in d.flight ensures m in c.flight && d.flight[m] <= c.flight[m] {
    }
    forall m | m in d.sent ensures SentOk(t, d, m) {
      assert SentOk(t, c, m);
    }
  }

  lemma {:induction false} LessIsSafe(t: Topology, zones: nat, c: QueryCluster, d: QueryCluster)
    requires Safe(t, zones, c) && Less(t, c, d)
    ensures Safe(t, zones, d)
  {
    hide Wire, Ballots;
    LessWire(t, c, d);
    forall y | y in t.lead ensures NodeOk(t, zones, d, y) {
      assert NodeOk(t, zones, c, y);
    }
  }

  lemma {:induction false} SweptIsLess(t: Topology, zones: nat, c: QueryCluster, s: QueryStep)
    requires c.nodes.Keys == t.Nodes() && CanStep(t, c, s) && (s.Lose? || s.Cleanup?)
    ensures Less(t, c, Apply(t, zones, c, s))
  {
  }

  lemma {:induction false} SubmitWire(t: Topology, zones: nat, c: QueryCluster, at: string, res: string,
                                      connected: bool)
    requires t.Valid() && c.nodes.Keys == t.Nodes() && Wire(t, c) && CanStep(t, c, Submit(at, res, connected))
    ensures Wire(t, Apply(t, zones, c, Submit(at, res, connected)))
  {
    hide SentOk;
    var d := Apply(t, zones, c, Submit(at, res, connected));
    forall m | m in d.sent ensures SentOk(t, d, m) {
      SubmitSentOk(t, zones, c, at, res, connected, m);
    }
  }

  lemma {:induction false} SubmitSentOk(t: Topology, zones: nat, c: QueryCluster, at: string, res: string,
                                        connected: bool, m: Query)
    requires t.Valid() && c.nodes.Keys == t.Nodes() && Wire(t, c) && CanStep(t, c, Submit(at, res, connected))
    requires m in Apply(t, zones, c, Submit(at, res, connected)).sent
    ensures SentOk(t, Apply(t, zones, c, Submit(at, res, connected)), m)
  {
    hide Ballots, Wire, OfZone, Pass;
    if m in c.sent {
      WireSays(t, c, m);
      assert m.kind == K ==> PollOf(m).kind == J;
    }
    SameZones(t, zones, c, at, res, connected, m);
  }

  lemma {:induction false} SameZones(t: Topology, zones: nat, c: QueryCluster, at: string, res: string,
                                     connected: bool, m: Query)
    requires c.nodes.Keys == t.Nodes() && CanStep(t, c, Submit(at, res, connected))
    ensures var d := Apply(t, zones, c, Submit(at, res, connected));
            && (forall g :: OfZone(c, g, m) <==> OfZone(d, g, m))
            && (forall x :: x in t.lead ==> d.nodes[x].st == c.nodes[x].st)
            && d.counted == c.counted && d.computed == c.computed && c.submitted <= d.submitted
            && (PollOf(m) in c.sent && PollOf(m) !in c.flight ==> PollOf(m) in d.sent && PollOf(m) !in d.flight)
  {
  }

  lemma {:induction false} SubmitKeepsSafe(t: Topology, zones: nat, c: QueryCluster, at: string, res: string,
                                           connected: bool)
    requires t.Valid() && Safe(t, zones, c) && CanStep(t, c, Submit(at, res, connected))
    ensures Safe(t, zones, Apply(t, zones, c, Submit(at, res, connected)))
  {
    hide Wire, Ballots;
    SubmitWire(t, zones, c, at, res, connected);
    var d := Apply(t, zones, c, Submit(at, res, connected));
    forall y | y in t.lead ensures NodeOk(t, zones, d, y) {
      assert NodeOk(t, zones, c, y);
    }
  }

  // ----- Runs -----

  lemma {:induction false} StepKeepsSafe(t: Topology, zones: nat, c: QueryCluster, s: QueryStep)
    requires t.Valid() && Safe(t, zones, c) && CanStep(t, c, s)
    ensures Safe(t, zones, Apply(t, zones, c, s))
  {
    hide Wire, HistoryOk, NodeOk, GoodDelivery, HandleQuery, Less;
    match s {
      case Submit(at, res, connected) => SubmitKeepsSafe(t, zones, c, at, res, connected);
      case Deliver(msg, valid, res) =>
        DeliverIsGood(t, zones, c, msg, valid, res);
        DeliveredIsSafe(t, zones, Known(c, msg, valid, res), msg,
                        HandleQuery(t, msg.dst, c.nodes[msg.dst], msg, zones, valid, res));
      case Lose(_) | Cleanup(_, _, _, _) =>
        SweptIsLess(t, zones, c, s);
        LessIsSafe(t, zones, c, Apply(t, zones, c, s));
    }
  }

  lemma {:induction false} StartIsSafe(t: Topology, zones: nat)
    ensures Safe(t, zones, Start(t))
  {
  }

  lemma {:induction false} RunsAreSafe(t: Topology, zones: nat, steps: seq<QueryStep>)
    requires t.Valid() && IsRun(t, zones, steps)
    ensures Safe(t, zones, After(t, zones, steps))
    decreases |steps|
  {
    hide Safe, Apply;
    if steps == [] {
      StartIsSafe(t, zones);
    } else {
      var last := |steps| - 1;
      RunsAreSafe(t, zones, steps[..last]);
      StepKeepsSafe(t, zones, After(t, zones, steps[..last]), steps[last]);
    }
  }
}
