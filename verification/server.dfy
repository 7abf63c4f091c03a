/** OmServer (src/server.cpp) and the part of OmSession (src/omsession.cc) that drives it: the handlers as
    the program runs them, over its stores, refining the single-transaction steps of NodeSteps. */
module Servers {
  import opened Circuits
  import opened DynamicCircuits
  import opened CircuitTheorems
  import opened Quorum
  import opened Topologies
  import opened NodeSteps
  import opened Stores

  class OmServer {
    const id: string
    const nodeList: seq<string>
    const hash: (string, string) -> nat
    const trxnState: TrxnState
    const collectK: WaitCount
    const collectL: WaitCount
    const collectM: WaitCount
    /** The ids handed to the block manager, in order. */
    var commits: seq<string>

    constructor (id: string, nodeList: seq<string>, hash: (string, string) -> nat)
      requires Circuits.Valid(Circuit(nodeList, hash, "")) && id in nodeList
      ensures Valid() && fresh(trxnState) && fresh(collectK) && fresh(collectL) && fresh(collectM)
      ensures this.id == id && this.nodeList == nodeList && this.hash == hash
      ensures forall trxnId :: View(trxnId) == IDLE
    {
      this.id := id;
      this.nodeList := nodeList;
      this.hash := hash;
      trxnState := new TrxnState();
      collectK := new WaitCount();
      collectL := new WaitCount();
      collectM := new WaitCount();
      commits := [];
    }

    /** The server is listed, its stores are distinct, and a stored state is never the byte of an absent one. */
    ghost predicate Valid()
      reads this, trxnState
    {
      && Circuits.Valid(Circuit(nodeList, hash, "")) && id in nodeList
      && collectK != collectL && collectK != collectM && collectL != collectM
      && forall t :: t in trxnState.stateMap ==> ST_0 < trxnState.stateMap[t] < ST_T
    }

    ghost function For(beacon: string): (c: Circuit)
      requires Circuits.Valid(Circuit(nodeList, hash, ""))
      ensures Circuits.Valid(c)
    {
      Circuit(nodeList, hash, beacon)
    }

    ghost function Topo(beacon: string): (t: Topology)
      requires Circuits.Valid(Circuit(nodeList, hash, ""))
      ensures t.Nodes() == Elems(nodeList)
    {
      TopologyOf(For(beacon))
    }

    /** The server's share of one transaction. */
    function View(trxnId: string): NodeState
      reads this, trxnState, collectK, collectL, collectM
    {
      NodeState(trxnState.St(trxnId), collectK.Count(trxnId), collectL.Count(trxnId), collectM.Count(trxnId),
                multiset(commits)[trxnId])
    }

    /** Addressing part of multicast: one message to each host that is not blank, in order. */
    method Multicast(kind: Kind, hosts: seq<string>) returns (out: seq<Message>)
      ensures out == Mails(kind, id, NonBlank(hosts))
      ensures forall dsts :: Names(hosts, dsts) ==> multiset(out) == multiset(To(kind, id, dsts))
    {
      out := [];
      for i := 0 to |hosts|
        invariant out == Mails(kind, id, NonBlank(hosts[..i]))
      {
        assert hosts[..i + 1][..i] == hosts[..i];
        if |hosts[i]| >= 1 {
          out := out + [Message(kind, id, hosts[i])];
        }
      }
      assert hosts[..|hosts|] == hosts;
      forall dsts | Names(hosts, dsts) ensures multiset(out) == multiset(To(kind, id, dsts)) {
        MailOfDistinct(kind, id, NonBlank(hosts));
      }
    }

    /** blockMgr_.receiveTrxn, of which the protocol sees that it was called and its code rrc. */
    method ReceiveTrxn(trxnId: string, rrc: int) returns (rc: int)
      modifies this`commits
      ensures commits == old(commits) + [trxnId] && rc == rrc
    {
      commits := commits + [trxnId];
      rc := rrc;
    }

    method SendFollowersXITn(trxnId: string, followers: seq<string>) returns (out: seq<Message>)
      requires Valid() && exists dsts :: Names(followers, dsts)
      modifies this`commits, trxnState, collectM
      ensures Valid()
      ensures View(trxnId) == old(View(trxnId)).(st := ST_F, m := 0, commits := old(View(trxnId)).commits + 1)
      ensures forall o :: o != trxnId ==> View(o) == old(View(o))
      ensures forall dsts :: Names(followers, dsts) ==> multiset(out) == multiset(To(N, id, dsts))
    {
      out := Multicast(N, followers);
      trxnState.SetState(trxnId, ST_F);
      var _ := ReceiveTrxn(trxnId, 0);
      collectM.Erase(trxnId);
    }

    // ----- Votes and orders -----

    /** The weak leader test holds for every listed node, and the lists name the rest of the topology. */
    method OtherLeadersAndMyFollowers(beacon: string)
      returns (iAmLeader: bool, otherLeaders: seq<string>, followers: seq<string>)
      requires Valid()
      ensures iAmLeader
      ensures Names(otherLeaders, Topo(beacon).Others(id)) && |otherLeaders| == |Topo(beacon).Others(id)|
      ensures Names(followers, Topo(beacon).Mates(id)) && |followers| == |Topo(beacon).Mates(id)|
    {
      OtherLeadersNamed(For(beacon), id);
      MatesNamed(For(beacon), id);
      var circ := new DynamicCircuit(nodeList, hash);
      iAmLeader, otherLeaders, followers := circ.GetOtherLeadersAndThisFollowers(beacon, id);
    }

    /** The zone's quorum is reached: the leader's l vote goes out and counts at home. */
    method PassToC(trxnId: string, otherLeaders: seq<string>) returns (out: seq<Message>)
      requires Valid() && exists dsts :: Names(otherLeaders, dsts)
      modifies trxnState, collectK, collectL
      ensures Valid()
      ensures View(trxnId) == old(View(trxnId)).(st := ST_C, k := 0, l := old(View(trxnId)).l + 1)
      ensures forall o :: o != trxnId ==> View(o) == old(View(o))
      ensures forall dsts :: Names(otherLeaders, dsts) ==> multiset(out) == multiset(To(L, id, dsts))
    {
      hide Names;
      trxnState.SetState(trxnId, ST_C);
      collectL.Add(trxnId, 1);
      out := Multicast(L, otherLeaders);
      collectK.Erase(trxnId);
    }

    /** The leaders' quorum of l votes is reached: the leader's m vote goes out and counts at home. */
    method PassToD(trxnId: string, otherLeaders: seq<string>) returns (out: seq<Message>)
      requires Valid() && exists dsts :: Names(otherLeaders, dsts)
      modifies trxnState, collectL, collectM
      ensures Valid()
      ensures View(trxnId) == old(View(trxnId)).(st := ST_D, l := 0, m := old(View(trxnId)).m + 1)
      ensures forall o :: o != trxnId ==> View(o) == old(View(o))
      ensures forall dsts :: Names(otherLeaders, dsts) ==> multiset(out) == multiset(To(M, id, dsts))
    {
      hide Names;
      trxnState.SetState(trxnId, ST_D);
      collectM.Add(trxnId, 1);
      out := Multicast(M, otherLeaders);
      collectL.Erase(trxnId);
    }

    /** With enough m votes the leader passes E, orders its followers to commit, and commits. */
    method CommitOnQuorum(trxnId: string, twofp1: nat, followers: seq<string>) returns (out: seq<Message>)
      requires Valid() && exists dsts :: Names(followers, dsts)
      modifies this`commits, trxnState, collectM
      ensures Valid()
      ensures var s := old(View(trxnId));
              View(trxnId) == if s.m >= twofp1 then s.(st := ST_F, m := 0, commits := s.commits + 1) else s
      ensures forall o :: o != trxnId ==> View(o) == old(View(o))
      ensures forall dsts :: Names(followers, dsts) ==>
                multiset(out) == if old(View(trxnId)).m >= twofp1 then multiset(To(N, id, dsts)) else multiset{}
    {
      hide Names;
      out := [];
      var trxnVotes := collectM.Count(trxnId);
      if trxnVotes >= twofp1 {
        trxnState.SetState(trxnId, ST_E);
        out := SendFollowersXITn(trxnId, followers);
      }
    }

    /** The leader votes m and at once checks whether that completes the m quorum. */
    method RoundTwo(trxnId: string, twofp1: nat, otherLeaders: seq<string>, followers: seq<string>)
      returns (out: seq<Message>)
      requires Valid() && (exists dsts :: Names(otherLeaders, dsts)) && (exists dsts :: Names(followers, dsts))
      modifies this`commits, trxnState, collectL, collectM
      ensures Valid()
      ensures var s := old(View(trxnId)).(st := ST_D, l := 0, m := old(View(trxnId)).m + 1);
              View(trxnId) == if s.m >= twofp1 then s.(st := ST_F, m := 0, commits := s.commits + 1) else s
      ensures forall o :: o != trxnId ==> View(o) == old(View(o))
      ensures forall others, mates :: Names(otherLeaders, others) && Names(followers, mates) ==>
                multiset(out) == multiset(To(M, id, others))
                  + if old(View(trxnId)).m + 1 >= twofp1 then multiset(To(N, id, mates)) else multiset{}
    {
      hide Names, To;
      out := PassToD(trxnId, otherLeaders);
      var orders := CommitOnQuorum(trxnId, twofp1, followers);
      out := out + orders;
    }

    method OnRecvK(beacon: string, trxnId: string) returns (out: seq<Message>)
      requires Valid()
      modifies trxnState, collectK, collectL
      ensures Valid()
      ensures var e := OnK(Topo(beacon), id, old(View(trxnId)));
              View(trxnId) == e.ns && multiset(out) == multiset(e.mail)
      ensures forall o :: o != trxnId ==> View(o) == old(View(o))
    {
      hide Names, TopologyOf, Circuits.Valid, Elems;
      var iAmLeader, otherLeaders, followers := OtherLeadersAndMyFollowers(beacon);
      out := [];
      if !iAmLeader {
        return;
      }
      var _, curState := trxnState.GetState(trxnId);
      if curState >= ST_C {
        return;
      }
      collectK.Add(trxnId, 1);
      var twofp1 := TwoFPlus1(|followers| + 1);
      var recvcnt := collectK.Count(trxnId);
      if recvcnt >= twofp1 {
        out := PassToC(trxnId, otherLeaders);
      }
    }

    method OnRecvL(beacon: string, trxnId: string) returns (out: seq<Message>)
      requires Valid()
      modifies this`commits, trxnState, collectL, collectM
      ensures Valid()
      ensures var e := OnL(Topo(beacon), id, old(View(trxnId)));
              View(trxnId) == e.ns && multiset(out) == multiset(e.mail)
      ensures forall o :: o != trxnId ==> View(o) == old(View(o))
    {
      hide Names, TopologyOf, Circuits.Valid;
      var iAmLeader, otherLeaders, followers := OtherLeadersAndMyFollowers(beacon);
      out := [];
      if !iAmLeader {
        return;
      }
      var _, curState := trxnState.GetState(trxnId);
      if curState >= ST_D {
        return;
      }
      collectL.Add(trxnId, 1);
      var twofp1 := TwoFPlus1(|otherLeaders| + 1);
      var recvcnt := collectL.Count(trxnId);
      if recvcnt >= twofp1 {
        out := RoundTwo(trxnId, twofp1, otherLeaders, followers);
        MailsJoin(To(M, id, Topo(beacon).Others(id)), To(N, id, Topo(beacon).Mates(id)));
      }
    }

    method OnRecvM(beacon: string, trxnId: string) returns (out: seq<Message>)
      requires Valid()
      modifies this`commits, trxnState, collectM
      ensures Valid()
      ensures var e := OnM(Topo(beacon), id, old(View(trxnId)));
              View(trxnId) == e.ns && multiset(out) == multiset(e.mail)
      ensures forall o :: o != trxnId ==> View(o) == old(View(o))
    {
      hide Names, TopologyOf, Circuits.Valid, Elems;
      var iAmLeader, otherLeaders, followers := OtherLeadersAndMyFollowers(beacon);
      out := [];
      if !iAmLeader {
        return;
      }
      var _, curState := trxnState.GetState(trxnId);
      if curState >= ST_E {
        return;
      }
      collectM.Add(trxnId, 1);
      var twofp1 := TwoFPlus1(|otherLeaders| + 1);
      out := CommitOnQuorum(trxnId, twofp1, followers);
    }

    /** -171 for a leader, -173 when already committed, else the code of the block manager, when that is negative.
        rrc is what the block manager answers. */
    method OnRecvN(beacon: string, trxnId: string, rrc: int) returns (rc: int)
      requires Valid()
      modifies this`commits
      ensures var lead, late := Topo(beacon).lead[id] == id, trxnState.St(trxnId) >= ST_F;
              && rc == (if lead then -171 else if late then -173 else if rrc < 0 then rrc else 0)
              && commits == if lead || late then old(commits) else old(commits) + [trxnId]
    {
      LeaderNamed(For(beacon), id);
      var circ := new DynamicCircuit(nodeList, hash);
      var iAmLeader, _ := circ.IsLeader(beacon, id, false);
      if iAmLeader {
        return -171;
      }
      var _, curState := trxnState.GetState(trxnId);
      if curState >= ST_F {
        return -173;
      }
      var received := ReceiveTrxn(trxnId, rrc);
      if received < 0 {
        return received;
      }
      return 0;
    }

    // ----- Dispatch -----

    /** The strict leader test, which only a zone's first node passes. */
    method AmILeader(beacon: string) returns (iAmLeader: bool, followers: seq<string>)
      requires Valid()
      ensures iAmLeader == (Topo(beacon).lead[id] == id)
      ensures iAmLeader ==> Names(followers, Topo(beacon).Mates(id)) && |followers| == |Topo(beacon).Mates(id)|
    {
      LeaderNamed(For(beacon), id);
      var circ := new DynamicCircuit(nodeList, hash);
      iAmLeader, followers := circ.IsLeader(beacon, id, true);
      if iAmLeader {
        FollowersNamed(For(beacon), id);
      }
    }

    /** A leader takes up a transaction. */
    method OnRecvI(beacon: string, trxnId: string) returns (out: seq<Message>)
      requires Valid()
      modifies trxnState, collectK, collectL
      ensures Valid()
      ensures var e := OnI(Topo(beacon), id, old(View(trxnId)));
              View(trxnId) == e.ns && multiset(out) == multiset(e.mail)
      ensures forall o :: o != trxnId ==> View(o) == old(View(o))
    {
      hide Names, TopologyOf, Circuits.Valid, Elems;
      var iAmLeader, followers := AmILeader(beacon);
      out := [];
      if iAmLeader {
        var toAgood := TakeUp(trxnId);
        if toAgood {
          out := Multicast(J, followers);
          if |followers| < 1 {
            out := OnRecvK(beacon, trxnId);
          }
        }
      }
    }

    /** A transaction never seen before passes A and B, and the leader's own vote is counted. */
    method TakeUp(trxnId: string) returns (toAgood: bool)
      requires Valid()
      modifies trxnState, collectK
      ensures Valid()
      ensures toAgood == (old(View(trxnId)).st == ST_NULL)
      ensures var s := old(View(trxnId));
              View(trxnId) == if toAgood then s.(st := ST_B, k := s.k + 1) else s
      ensures forall o :: o != trxnId ==> View(o) == old(View(o))
    {
      toAgood := trxnState.GoState(Level(|nodeList|), trxnId, XIT_I);
      if toAgood {
        var _ := trxnState.GoState(Level(|nodeList|), trxnId, XIT_J);
        collectK.Add(trxnId, 1);
      }
    }

    method OnRecvJ(beacon: string, trxnId: string) returns (out: seq<Message>)
      requires Valid()
      ensures multiset(out) == multiset(OnJ(Topo(beacon), id, View(trxnId)).mail)
    {
      LeaderNamed(For(beacon), id);
      var circ := new DynamicCircuit(nodeList, hash);
      var isLeader, leader := circ.GetLeader(beacon, id);
      out := [];
      if !isLeader {
        out := Multicast(K, leader);
        assert To(K, id, {Topo(beacon).lead[id]}) == {Message(K, id, Topo(beacon).lead[id])};
      }
    }

    /** doTrxnL2 on a message from another node. valid is the outcome of the checks validateTrxn makes after
        its check for late messages; rrc is what the block manager answers to a commit order. */
    method DoTrxnL2(beacon: string, trxnId: string, xit: Kind, valid: bool, rrc: int) returns (out: seq<Message>)
      requires Valid()
      modifies this`commits, trxnState, collectK, collectL, collectM
      ensures Valid()
      ensures var e := Handle(Topo(beacon), id, old(View(trxnId)), xit, valid);
              View(trxnId) == e.ns && multiset(out) == multiset(e.mail)
      ensures forall o :: o != trxnId ==> View(o) == old(View(o))
    {
      hide OnI, OnK, OnL, OnM, TopologyOf, Circuits.Valid, Elems;
      out := [];
      var _, curState := trxnState.GetState(trxnId);
      if curState >= ST_F || !valid {
        return;
      }
      match xit {
        case I => out := OnRecvI(beacon, trxnId);
        case J => out := OnRecvJ(beacon, trxnId);
        case K => out := OnRecvK(beacon, trxnId);
        case L => out := OnRecvL(beacon, trxnId);
        case M => out := OnRecvM(beacon, trxnId);
        case N =>
          var _ := OnRecvN(beacon, trxnId, rrc);
          trxnState.SetState(trxnId, ST_F);
      }
    }

    /** doTrxnL2 on a client's request: initTrxn invites every zone leader. */
    method InitTrxn(beacon: string, trxnId: string, valid: bool) returns (out: seq<Message>)
      requires Valid()
      ensures multiset(out) == if View(trxnId).st >= ST_F || !valid then multiset{}
                               else multiset(To(I, id, Topo(beacon).Leaders()))
    {
      out := [];
      var _, curState := trxnState.GetState(trxnId);
      if curState >= ST_F || !valid {
        return;
      }
      LeadersNamed(For(beacon));
      var circ := new DynamicCircuit(nodeList, hash);
      var hosts := circ.GetZoneLeaders(beacon);
      out := Multicast(I, hosts);
    }

    /** doCleanup, as far as transactions go: the counters that have expired are dropped, the states stay. The query
        half is QueryServer.DoCleanup. */
    method DoCleanup(k: set<string>, l: set<string>, m: set<string>)
      requires Valid()
      modifies collectK, collectL, collectM
      ensures Valid()
      ensures forall o ::
                var s := old(View(o));
                View(o) == s.(k := if o in k then 0 else s.k, l := if o in l then 0 else s.l,
                              m := if o in m then 0 else s.m)
    {
      collectK.Cleanup(k);
      collectL.Cleanup(l);
      collectM.Cleanup(m);
    }
  }

  lemma {:induction false} MailsJoin(a: set<Message>, b: set<Message>)
    requires a !! b
    ensures multiset(a + b) == multiset(a) + multiset(b)
  {
  }

  /** One message to each host, in order. */
  function Mails(kind: Kind, src: string, hosts: seq<string>): seq<Message> {
    seq(|hosts|, j requires 0 <= j < |hosts| => Message(kind, src, hosts[j]))
  }

  lemma {:induction false} OneMoreMail(kind: Kind, src: string, dsts: set<string>, d: string)
    requires d !in dsts
    ensures multiset(To(kind, src, dsts + {d})) == multiset(To(kind, src, dsts)) + multiset{Message(kind, src, d)}
  {
    assert To(kind, src, dsts + {d}) == To(kind, src, dsts) + {Message(kind, src, d)};
  }

  lemma {:induction false} MailOfDistinct(kind: Kind, src: string, hosts: seq<string>)
    requires Distinct(hosts)
    ensures multiset(Mails(kind, src, hosts)) == multiset(To(kind, src, Elems(hosts)))
    decreases |hosts|
  {
    hide To;
    if hosts == [] {
      assert To(kind, src, {}) == {};
    } else {
      var last := |hosts| - 1;
      var others, d := hosts[..last], hosts[last];
      MailOfDistinct(kind, src, others);
      assert Mails(kind, src, hosts) == Mails(kind, src, others) + [Message(kind, src, d)];
      OneMoreMail(kind, src, Elems(others), d);
      assert Elems(hosts) == Elems(others) + {d};
    }
  }
}
