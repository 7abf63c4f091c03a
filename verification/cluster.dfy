/** All nodes and the network between them, for one transaction.

    Every send opens its own connection, so messages in flight form a bag and arrive in any order. */
module Clusters {
  import opened Topologies
  import opened NodeSteps

  /** sent is the history of every message ever sent, own votes included; counted that of the messages that
      changed the state of the node they reached, own votes included; posts counts the sends. */
  datatype Cluster = Cluster(
    nodes: map<string, NodeState>,
    flight: multiset<Message>,
    sent: set<Message>,
    counted: set<Message>,
    posts: nat)

  datatype Step =
    | Submit(at: string, valid: bool)             // a client hands the transaction to a node
    | Deliver(msg: Message, valid: bool)          // valid: what the receiver's validation finds
    | Lose(msg: Message)                          // a failed connection
    | Cleanup(at: string, k: bool, l: bool, m: bool)  // which of the node's counters have expired

  ghost function Start(t: Topology): Cluster {
    Cluster(map x | x in t.lead :: IDLE, multiset{}, {}, {}, 0)
  }


  ghost predicate CanStep(t: Topology, c: Cluster, s: Step) {
    match s
    case Submit(at, _) => at in t.lead
    case Deliver(msg, _) => msg in c.flight && msg.dst in t.lead
    case Lose(msg) => msg in c.flight
    case Cleanup(at, _, _, _) => at in t.lead
  }

  ghost function Post(c: Cluster, mail: set<Message>, own: set<Message>): Cluster {
    c.(flight := c.flight + multiset(mail), sent := c.sent + mail + own, posts := c.posts + |mail|)
  }

  /** The node that msg reaches takes it in: a message that changes its state counts, as do its own votes. */
  ghost function Taken(c: Cluster, msg: Message, e: Effect): (d: Cluster)
    requires msg.dst in c.nodes
    ensures d.nodes.Keys == c.nodes.Keys
  {
    c.(nodes := c.nodes[msg.dst := e.ns], flight := c.flight - multiset{msg},
       counted := c.counted + e.own + if e.ns != c.nodes[msg.dst] then {msg} else {})
  }

  ghost function Apply(t: Topology, c: Cluster, s: Step): (d: Cluster)
    requires c.nodes.Keys == t.Nodes() && CanStep(t, c, s)
    ensures d.nodes.Keys == c.nodes.Keys
  {
    match s
    case Submit(at, valid) =>
      if c.nodes[at].st >= ST_F || !valid then c else Post(c, To(I, at, t.Leaders()), {})
    case Deliver(msg, valid) =>
      var e := Handle(t, msg.dst, c.nodes[msg.dst], msg.kind, valid);
      Post(Taken(c, msg, e), e.mail, e.own)
    case Lose(msg) =>
      c.(flight := c.flight - multiset{msg})
    case Cleanup(at, k, l, m) =>
      var s := c.nodes[at];
      var swept := s.(k := if k then 0 else s.k, l := if l then 0 else s.l, m := if m then 0 else s.m);
      c.(nodes := c.nodes[at := swept])
  }

  /** The cluster after a sequence of steps from the start, each possible when it is taken. */
  ghost predicate IsRun(t: Topology, steps: seq<Step>)
    decreases |steps|, 0
  {
    steps == [] ||
    (var last := |steps| - 1;
     && IsRun(t, steps[..last])
     && CanStep(t, After(t, steps[..last]), steps[last]))
  }

  ghost function After(t: Topology, steps: seq<Step>): (c: Cluster)
    requires IsRun(t, steps)
    ensures c.nodes.Keys == t.Nodes()
    decreases |steps|, 1
  {
    if steps == [] then Start(t)
    else
      var last := |steps| - 1;
      Apply(t, After(t, steps[..last]), steps[last])
  }
}
