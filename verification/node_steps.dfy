/** What one node does with one protocol message (src/server.cpp, src/omsession.cc), seen from one
    transaction. The server class refines these functions with the stores the program keeps. */
module NodeSteps {
  import opened Topologies

  /** The transit byte of a message. */
  datatype Kind = I | J | K | L | M | N

  datatype Message = Message(kind: Kind, src: string, dst: string)

  // State bytes (src/trxnstate.h). ST_NULL is what a lookup of an absent id yields.
  const ST_NULL: nat := 0
  const ST_0: nat := 48
  const ST_A: nat := 65
  const ST_B: nat := 66
  const ST_C: nat := 67
  const ST_D: nat := 68
  const ST_E: nat := 69
  const ST_F: nat := 70

  /** A node's share of one transaction: the state byte, the votes counted in each round, and how often
      the transaction was handed to the block manager. */
  datatype NodeState = NodeState(st: nat, k: nat, l: nat, m: nat, commits: nat)

  const IDLE := NodeState(ST_NULL, 0, 0, 0, 0)

  /** The node's new state, the messages it sends, and the votes it counts for itself, each recorded as
      a message to itself that is never sent. */
  datatype Effect = Effect(ns: NodeState, mail: set<Message>, own: set<Message>)

  function To(kind: Kind, src: string, dsts: set<string>): (s: set<Message>)
    ensures forall m :: m in s <==> m.kind == kind && m.src == src && m.dst in dsts
  {
    set d | d in dsts :: Message(kind, src, d)
  }

  function Quiet(s: NodeState): Effect {
    Effect(s, {}, {})
  }

  /** A leader takes up a new transaction, counts its own vote and polls its followers. With no
      followers it moves straight on, through onRecvK, which counts its vote a second time. */
  function OnI(t: Topology, x: string, s: NodeState): Effect
    requires x in t.lead
  {
    if t.lead[x] == x && s.st == ST_NULL then
      var taken := s.(st := ST_B, k := s.k + 1);
      var own := {Message(K, x, x)};
      if t.Mates(x) == {} then
        var next := OnK(t, x, taken);
        Effect(next.ns, next.mail, own + next.own)
      else
        Effect(taken, To(J, x, t.Mates(x)), own)
    else Quiet(s)
  }

  /** A follower votes to its leader; a leader reports an error. */
  function OnJ(t: Topology, x: string, s: NodeState): Effect
    requires x in t.lead
  {
    if t.lead[x] != x then Effect(s, {Message(K, x, t.lead[x])}, {}) else Quiet(s)
  }

  function OnK(t: Topology, x: string, s: NodeState): Effect
    requires x in t.lead
  {
    if s.st >= ST_C then Quiet(s)
    else if s.k + 1 >= t.ZoneQuorum(x) then
      Effect(s.(st := ST_C, k := 0, l := s.l + 1), To(L, x, t.Others(x)), {Message(L, x, x)})
    else Quiet(s.(k := s.k + 1))
  }

  /** sendFollowersXITn: tell the zone and commit. */
  function Finish(t: Topology, x: string, s: NodeState): Effect
    requires x in t.lead
  {
    Effect(s.(st := ST_F, m := 0, commits := s.commits + 1), To(N, x, t.Mates(x)), {})
  }

  function OnL(t: Topology, x: string, s: NodeState): Effect
    requires x in t.lead
  {
    if s.st >= ST_D then Quiet(s)
    else if s.l + 1 >= t.LeaderQuorum(x) then
      var voted := s.(st := ST_D, l := 0, m := s.m + 1);
      var mail, own := To(M, x, t.Others(x)), {Message(M, x, x)};
      if voted.m >= t.LeaderQuorum(x) then
        var done := Finish(t, x, voted);
        Effect(done.ns, mail + done.mail, own)
      else Effect(voted, mail, own)
    else Quiet(s.(l := s.l + 1))
  }

  function OnM(t: Topology, x: string, s: NodeState): Effect
    requires x in t.lead
  {
    if s.st >= ST_E then Quiet(s)
    else if s.m + 1 >= t.LeaderQuorum(x) then Finish(t, x, s)
    else Quiet(s.(m := s.m + 1))
  }

  /** The commit order. The state byte becomes F even when a leader refuses the order (code -171). */
  function OnN(t: Topology, x: string, s: NodeState): Effect
    requires x in t.lead
  {
    if t.lead[x] == x then Quiet(s.(st := ST_F))
    else Quiet(s.(st := ST_F, commits := s.commits + 1))
  }

  /** doTrxnL2 on a message between nodes. Late messages (state F or beyond) and messages that fail
      validation are dropped. */
  function Handle(t: Topology, x: string, s: NodeState, kind: Kind, valid: bool): Effect
    requires x in t.lead
  {
    if s.st >= ST_F || !valid then Quiet(s)
    else match kind
      case I => OnI(t, x, s)
      case J => OnJ(t, x, s)
      case K => OnK(t, x, s)
      case L => OnL(t, x, s)
      case M => OnM(t, x, s)
      case N => OnN(t, x, s)
  }
}
