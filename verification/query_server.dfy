/** The query half of OmServer and OmSession: doQueryL2, onRecvQueryK, onRecvQueryL, over the program's
    stores, refining the single-query steps of QuerySteps.

    The initiator is named by its node record; the program carries its address in srvport_. */
module QueryServers {
  import opened Wrappers
  import opened Circuits
  import opened DynamicCircuits
  import opened CircuitTheorems
  import opened Quorum
  import opened Topologies
  import opened NodeSteps
  import opened QuerySteps
  import opened Stores

  class QueryServer {
    const id: string
    const nodeList: seq<string>
    const hash: (string, string) -> nat
    const trxnState: TrxnState
    const collectQueryK: WaitCount
    const collectQueryL: WaitCount
    const qResult: WaitStr
    /** The ids whose client's connection is kept here. */
    var clients: set<string>
    /** What has been sent to those clients. */
    var replies: map<string, seq<string>>

    constructor (id: string, nodeList: seq<string>, hash: (string, string) -> nat)
      requires Circuits.Valid(Circuit(nodeList, hash, "")) && id in nodeList
      ensures Valid()
      ensures this.id == id && this.nodeList == nodeList && this.hash == hash
      ensures forall trxnId :: View(trxnId) == IDLE_QUERY
    {
      this.id := id;
      this.nodeList := nodeList;
      this.hash := hash;
      trxnState := new TrxnState();
      collectQueryK := new WaitCount();
      collectQueryL := new WaitCount();
      qResult := new WaitStr();
      clients, replies := {}, map[];
    }

    ghost predicate Valid()
      reads this, trxnState
    {
      && Circuits.Valid(Circuit(nodeList, hash, "")) && id in nodeList
      && collectQueryK != collectQueryL
      && forall t :: t in trxnState.stateMap ==> ST_0 < trxnState.stateMap[t] < ST_T
    }

    ghost function Topo(beacon: string): (t: Topology)
      requires Circuits.Valid(Circuit(nodeList, hash, ""))
      ensures t.Nodes() == Elems(nodeList)
    {
      TopologyOf(Circuit(nodeList, hash, beacon))
    }

    function Kept(trxnId: string): Option<string>
      reads qResult
    {
      if trxnId in qResult.tsStr then Some(qResult.tsStr[trxnId].1) else None
    }

    function Sent(trxnId: string): seq<string>
      reads this
    {
      if trxnId in replies then replies[trxnId] else []
    }

    function View(trxnId: string): QueryState
      reads this, trxnState, collectQueryK, collectQueryL, qResult
    {
      QueryState(trxnState.St(trxnId), collectQueryK.Count(trxnId), collectQueryL.Count(trxnId), Kept(trxnId),
                 trxnId in clients, Sent(trxnId))
    }

    method AmILeader(beacon: string) returns (iAmLeader: bool, followers: seq<string>)
      requires Valid()
      ensures iAmLeader == (Topo(beacon).lead[id] == id)
      ensures iAmLeader ==> Names(followers, Topo(beacon).Mates(id)) && |followers| == |Topo(beacon).Mates(id)|
    {
      var c := Circuit(nodeList, hash, beacon);
      LeaderNamed(c, id);
      var circ := new DynamicCircuit(nodeList, hash);
      iAmLeader, followers := circ.IsLeader(beacon, id, true);
      if iAmLeader {
        FollowersNamed(c, id);
      }
    }

    /** 0 when this vote completes the zone's quorum; -1 for a follower, -100 for a late vote, -50 short of it. */
    method OnRecvQueryK(beacon: string, trxnId: string) returns (rc: int)
      requires Valid()
      modifies trxnState, collectQueryK
      ensures Valid()
      ensures var (s, quorum) := CountK(Topo(beacon), id, old(View(trxnId)));
              && View(trxnId) == s
              && rc == if Topo(beacon).lead[id] != id then -1 else if old(View(trxnId)).st >= ST_C then -100
                       else if quorum then 0 else -50
      ensures forall o :: o != trxnId ==> View(o) == old(View(o))
    {
      hide Names, TopologyOf, Circuits.Valid, Elems;
      var iAmLeader, followers := AmILeader(beacon);
      if !iAmLeader {
        return -1;
      }
      var _, curState := trxnState.GetState(trxnId);
      if curState >= ST_C {
        return -100;
      }
      collectQueryK.Add(trxnId, 1);
      var twofp1 := TwoFPlus1(|followers| + 1);
      var recvcnt := collectQueryK.Count(trxnId);
      if recvcnt >= twofp1 {
        trxnState.SetState(trxnId, ST_C);
        collectQueryK.Erase(trxnId);
        return 0;
      }
      return -50;
    }

    /** 0 when this vote completes the majority of zones; -100 for a late vote, -50 short of it. */
    method OnRecvQueryL(beacon: string, trxnId: string) returns (rc: int)
      requires Valid()
      modifies trxnState, collectQueryL
      ensures Valid()
      ensures var s := old(View(trxnId));
              var enough := s.l + 1 >= NumZones(|nodeList|) / 2 + 1;
              && rc == (if s.st >= ST_D then -100 else if enough then 0 else -50)
              && View(trxnId) == if s.st >= ST_D then s
                                 else if enough then s.(st := ST_D, l := 0)
                                 else s.(l := s.l + 1)
      ensures forall o :: o != trxnId ==> View(o) == old(View(o))
    {
      hide NumZones, Circuits.Valid;
      var circ := new DynamicCircuit(nodeList, hash);
      SameNodes(beacon);
      var leaderVec := circ.GetZoneLeaders(beacon);
      var _, curState := trxnState.GetState(trxnId);
      if curState >= ST_D {
        return -100;
      }
      collectQueryL.Add(trxnId, 1);
      var twofp1 := |leaderVec| / 2 + 1;
      var recvcnt := collectQueryL.Count(trxnId);
      if recvcnt >= twofp1 {
        trxnState.SetState(trxnId, ST_D);
        collectQueryL.Erase(trxnId);
        return 0;
      }
      return -50;
    }

    lemma {:induction false} SameNodes(beacon: string)
      requires Circuits.Valid(Circuit(nodeList, hash, ""))
      ensures Circuits.Valid(Circuit(nodeList, hash, beacon))
    {
    }

    /** A leader takes up a query and polls its followers. */
    method OnQueryI(beacon: string, trxnId: string, m: Query) returns (out: set<Query>)
      requires Valid()
      modifies trxnState, collectQueryK
      ensures Valid()
      ensures var e := QuerySteps.OnQueryI(Topo(beacon), id, old(View(trxnId)), m);
              View(trxnId) == e.qs && out == e.mail
      ensures forall o :: o != trxnId ==> View(o) == old(View(o))
    {
      hide TopologyOf, Circuits.Valid;
      var iAmLeader, followers := AmILeader(beacon);
      out := {};
      if iAmLeader {
        var toAgood := trxnState.GoState(Level(|nodeList|), trxnId, XIT_I);
        if toAgood {
          var _ := trxnState.GoState(Level(|nodeList|), trxnId, XIT_J);
          out := Pass(m, J, id, set f | f in NonBlank(followers));
          if |followers| < 1 {
            var _ := OnRecvQueryK(beacon, trxnId);
          }
        }
      }
    }

    /** The reply to the client: what has been kept for the query, or a blank. */
    method Reply(trxnId: string)
      modifies this`clients, this`replies
      ensures var s := old(View(trxnId));
              var answer := if s.result.Some? then s.result.value else "";
              View(trxnId) == if s.waiting then s.(waiting := false, replies := s.replies + [answer]) else s
      ensures forall o :: o != trxnId ==> View(o) == old(View(o))
    {
      if trxnId in clients {
        var lastResult := qResult.Get(trxnId, "");
        replies := replies[trxnId := Sent(trxnId) + [lastResult]];
        clients := clients - {trxnId};
      }
    }

    method OnQueryL(beacon: string, trxnId: string)
      requires Valid()
      modifies this`clients, this`replies, trxnState, collectQueryL
      ensures Valid()
      ensures View(trxnId) == QuerySteps.OnQueryL(Topo(beacon), id, old(View(trxnId)), NumZones(|nodeList|)).qs
      ensures forall o :: o != trxnId ==> View(o) == old(View(o))
    {
      hide NumZones, TopologyOf, Circuits.Valid;
      var lrc := OnRecvQueryL(beacon, trxnId);
      if lrc == 0 {
        Reply(trxnId);
      }
    }

    method ZoneLeaders(beacon: string) returns (leaderVec: seq<string>)
      requires Valid()
      ensures |leaderVec| == NumZones(|nodeList|)
      ensures (set f | f in NonBlank(leaderVec)) == Topo(beacon).Leaders()
    {
      hide NumZones;
      SameNodes(beacon);
      LeadersNamed(Circuit(nodeList, hash, beacon));
      var circ := new DynamicCircuit(nodeList, hash);
      leaderVec := circ.GetZoneLeaders(beacon);
      assert Elems(NonBlank(leaderVec)) == Topo(beacon).Leaders();
    }

    /** doQueryL2 on a client's query: initQuery invites every zone leader, with this node as the initiator
        and the result it has just computed as the response. The client's connection is kept
        when enough leaders could be reached, blank entries counted among the leaders. */
    method InitQuery(beacon: string, trxnId: string, res: string, connected: nat) returns (out: set<Query>)
      requires Valid()
      modifies this`clients
      ensures Valid()
      ensures var s := old(View(trxnId));
              View(trxnId) == s.(waiting := s.waiting || connected >= TwoFPlus1(NumZones(|nodeList|)))
      ensures forall o :: o != trxnId ==> View(o) == old(View(o))
      ensures out == Pass(Query(I, id, id, id, res), I, id, Topo(beacon).Leaders())
    {
      hide NumZones, TopologyOf, Circuits.Valid;
      var leaderVec := ZoneLeaders(beacon);
      out := Pass(Query(I, id, id, id, res), I, id, set f | f in NonBlank(leaderVec));
      if connected >= TwoFPlus1(|leaderVec|) {
        clients := clients + {trxnId};
      }
    }

    /** The voting part, once the node's own result is known to equal the response. */
    method Vote(beacon: string, trxnId: string, m: Query) returns (out: set<Query>)
      requires Valid()
      modifies this`clients, this`replies, trxnState, collectQueryK, collectQueryL
      ensures Valid()
      ensures var e := VoteOnQuery(Topo(beacon), id, old(View(trxnId)), m, NumZones(|nodeList|));
              View(trxnId) == e.qs && out == e.mail
      ensures forall o :: o != trxnId ==> View(o) == old(View(o))
    {
      hide NumZones, TopologyOf, Circuits.Valid;
      out := {};
      match m.kind {
        case I => out := OnQueryI(beacon, trxnId, m);
        case J =>
          var iAmLeader, leader := MyLeader(beacon);
          if !iAmLeader {
            out := Pass(m, K, id, set f | f in NonBlank(leader));
          }
        case K =>
          var krc := OnRecvQueryK(beacon, trxnId);
          if krc == 0 && m.initer != id {
            out := Pass(m, L, id, {m.initer});
          }
        case L => OnQueryL(beacon, trxnId);
        case M =>
        case N =>
      }
    }

    method MyLeader(beacon: string) returns (iAmLeader: bool, leader: seq<string>)
      requires Valid()
      ensures iAmLeader == (Topo(beacon).lead[id] == id)
      ensures (set f | f in NonBlank(leader)) == {Topo(beacon).lead[id]}
    {
      var c := Circuit(nodeList, hash, beacon);
      LeaderNamed(c, id);
      var circ := new DynamicCircuit(nodeList, hash);
      iAmLeader, leader := circ.GetLeader(beacon, id);
      assert Elems(NonBlank(leader)) == {Topo(beacon).lead[id]};
    }

    /** doQueryL2 on a message between nodes, as a set of the messages it sends. res is the result the node
        computes for itself, valid the outcome of the signature and query checks. */
    method DoQueryL2(beacon: string, trxnId: string, m: Query, valid: bool, res: string, now: int)
      returns (out: set<Query>)
      requires Valid()
      modifies this`clients, this`replies, trxnState, collectQueryK, collectQueryL, qResult
      ensures Valid()
      ensures var e := HandleQuery(Topo(beacon), id, old(View(trxnId)), m, NumZones(|nodeList|), valid, res);
              View(trxnId) == e.qs && out == e.mail
      ensures forall o :: o != trxnId ==> View(o) == old(View(o))
    {
      hide NumZones, TopologyOf, Circuits.Valid;
      out := {};
      if !valid || m.response != res {
        return;
      }
      qResult.Add(trxnId, res, now);
      out := Vote(beacon, trxnId, m);
    }

    /** doCleanup, as far as queries go: the counters that have expired are dropped, and what was kept longer than
        240 seconds; the states and clients stay. The transaction half is OmServer.DoCleanup. */
    method DoCleanup(k: set<string>, l: set<string>, now: int)
      requires Valid()
      modifies collectQueryK, collectQueryL, qResult
      ensures Valid()
      ensures forall o ::
                var s, kept := old(View(o)), old(qResult.tsStr);
                View(o) == s.(k := if o in k then 0 else s.k, l := if o in l then 0 else s.l,
                              result := if o in kept && now - kept[o].0 > 240 then None else s.result)
    {
      collectQueryK.Cleanup(k);
      collectQueryL.Cleanup(l);
      qResult.Cleanup(now, 240);
    }
  }
}
