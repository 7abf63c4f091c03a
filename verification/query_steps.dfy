/** What one node does with one message of a voted query (doQueryL2 in src/omsession.cc, onRecvQueryK and
    onRecvQueryL in src/server.cpp), seen from one query. */
module QuerySteps {
  import opened Wrappers
  import opened Topologies
  import opened NodeSteps

  /** A query message carries the node the query was submitted to and the result that node computed then
      (srvport_ and response_); they are handed on unchanged from step to step. */
  datatype Query = Query(kind: Kind, src: string, dst: string, initer: string, response: string)

  /** A node's share of one query. result is the string kept for the client, waiting tells whether the
      client's connection is registered here, replies are the strings sent to it. */
  datatype QueryState = QueryState(st: nat, k: nat, l: nat, result: Option<string>, waiting: bool, replies: seq<string>)

  const IDLE_QUERY := QueryState(ST_NULL, 0, 0, None, false, [])

  datatype QueryEffect = QueryEffect(qs: QueryState, mail: set<Query>)

  /** The same query, passed on from src to each of dsts. */
  function Pass(m: Query, kind: Kind, src: string, dsts: set<string>): (s: set<Query>)
    ensures forall q :: q in s <==> q.kind == kind && q.src == src && q.dst in dsts
                                    && q.initer == m.initer && q.response == m.response
  {
    set d | d in dsts :: Query(kind, src, d, m.initer, m.response)
  }

  function Still(s: QueryState): QueryEffect {
    QueryEffect(s, {})
  }

  /** The first local result kept under the query wins. */
  function Keep(s: QueryState, res: string): QueryState {
    if s.result.None? then s.(result := Some(res)) else s
  }

  /** A leader with no followers counts its own vote, and the quorum this reaches is discarded. */
  function OnQueryI(t: Topology, x: string, s: QueryState, m: Query): QueryEffect
    requires x in t.lead
  {
    if t.lead[x] == x && s.st == ST_NULL then
      var taken := s.(st := ST_B);
      if t.Mates(x) == {} then Still(CountK(t, x, taken).0)
      else QueryEffect(taken, Pass(m, J, x, t.Mates(x)))
    else Still(s)
  }

  function OnQueryJ(t: Topology, x: string, s: QueryState, m: Query): QueryEffect
    requires x in t.lead
  {
    if t.lead[x] != x then QueryEffect(s, Pass(m, K, x, {t.lead[x]})) else Still(s)
  }

  /** onRecvQueryK: whether this vote completed the zone's quorum. */
  function CountK(t: Topology, x: string, s: QueryState): (QueryState, bool)
    requires x in t.lead
  {
    if t.lead[x] != x || s.st >= ST_C then (s, false)
    else if s.k + 1 >= t.ZoneQuorum(x) then (s.(st := ST_C, k := 0), true)
    else (s.(k := s.k + 1), false)
  }

  /** A leader whose zone agrees tells the initiator, unless it is the initiator. */
  function OnQueryK(t: Topology, x: string, s: QueryState, m: Query): QueryEffect
    requires x in t.lead
  {
    var (counted, quorum) := CountK(t, x, s);
    QueryEffect(counted, if quorum && m.initer != x then Pass(m, L, x, {m.initer}) else {})
  }

  /** onRecvQueryL and the reply. More than half of the zones, empty ones included, must agree. */
  function OnQueryL(t: Topology, x: string, s: QueryState, zones: nat): QueryEffect
    requires x in t.lead
  {
    if s.st >= ST_D then Still(s)
    else if s.l + 1 >= zones / 2 + 1 then
      var decided := s.(st := ST_D, l := 0);
      if s.waiting then
        var answer := if s.result.Some? then s.result.value else "";
        Still(decided.(waiting := false, replies := s.replies + [answer]))
      else Still(decided)
    else Still(s.(l := s.l + 1))
  }

  /** The voting part of doQueryL2. */
  function VoteOnQuery(t: Topology, x: string, s: QueryState, m: Query, zones: nat): QueryEffect
    requires x in t.lead
  {
    match m.kind
    case I => OnQueryI(t, x, s, m)
    case J => OnQueryJ(t, x, s, m)
    case K => OnQueryK(t, x, s, m)
    case L => OnQueryL(t, x, s, zones)
    case M => Still(s)
    case N => Still(s)
  }

  /** A message counts only when the node's own result equals the response the message carries. */
  function HandleQuery(t: Topology, x: string, s: QueryState, m: Query, zones: nat, valid: bool,
                       res: string): QueryEffect
    requires x in t.lead
  {
    if !valid || res != m.response then Still(s) else VoteOnQuery(t, x, Keep(s, res), m, zones)
  }
}
