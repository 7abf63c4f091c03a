/** The per-transaction stores of a server: state bytes (src/trxnstate.cc), vote counters, and results
    waiting to be fetched (src/omwaitstr.cc). */
module Stores {
  import opened NodeSteps

  // Transit bytes and the states only three-level networks use.
  const XIT_I: nat := 105
  const XIT_J: nat := 106
  const XIT_K: nat := 107
  const XIT_L: nat := 108
  const XIT_M: nat := 109
  const XIT_N: nat := 110
  const XIT_O: nat := 111
  const XIT_P: nat := 112
  const XIT_Q: nat := 113
  const ST_G: nat := 71
  const ST_H: nat := 72
  const ST_I: nat := 73
  const ST_T: nat := 84

  /** The state a transit leads to in a two-level network; 0 when it is not allowed. */
  function NextL2(cur: nat, transit: nat): nat {
    if cur == ST_0 && transit == XIT_I then ST_A
    else if (cur == ST_A || cur == ST_B) && transit == XIT_J then ST_B
    else if (cur == ST_B || cur == ST_C) && transit == XIT_K then ST_C
    else if (cur == ST_C || cur == ST_D) && transit == XIT_L then ST_D
    else if (cur == ST_D || cur == ST_E) && transit == XIT_M then ST_E
    else if (cur == ST_E || cur == ST_F) && transit == XIT_N then ST_F
    else 0
  }

  function NextL3(cur: nat, transit: nat): nat {
    if cur == ST_0 && transit == XIT_I then ST_A
    else if cur == ST_A && transit == XIT_J then ST_B
    else if cur == ST_B && transit == XIT_K then ST_C
    else if cur == ST_C && transit == XIT_L then ST_D
    else if cur == ST_D && transit == XIT_M then ST_E
    else if cur == ST_E && transit == XIT_N then ST_F
    else if cur == ST_F && transit == XIT_O then ST_G
    else if cur == ST_G && transit == XIT_P then ST_H
    else if cur == ST_H && transit == XIT_Q then ST_I
    else 0
  }

  function Next(level: nat, cur: nat, transit: nat): nat {
    if level == 2 then NextL2(cur, transit) else if level == 3 then NextL3(cur, transit) else 0
  }

  /** No transit lowers the state byte, and the two levels agree on a new transaction's first two. */
  lemma {:induction false} TransitsRise(level: nat, cur: nat, transit: nat)
    ensures Next(level, cur, transit) != 0 ==> cur <= Next(level, cur, transit)
    ensures level == 2 || level == 3 ==> Next(level, ST_0, XIT_I) == ST_A && Next(level, ST_A, XIT_J) == ST_B
    ensures cur != ST_0 ==> Next(level, cur, XIT_I) == 0
  {
  }

  /** In a two-level network the transit bytes i to n lead to the states A to F: i from a new id only, each other one
      from the state before its own or from its own. In a three-level network i to q lead to A to I, each from the state
      before its own. No other transit is allowed. */
  lemma {:induction false} TransitsExactly(level: nat, cur: nat, transit: nat)
    ensures ST_NULL == 0 && ST_0 == '0' as nat && ST_T == 'T' as nat
    ensures var k := transit - 'i' as int;
            var own := 'A' as int + k;
            var before := if k == 0 then '0' as int else own - 1;
            var allowed := if level == 2 then 0 <= k <= 5 && (cur == before || (k > 0 && cur == own))
                           else level == 3 && 0 <= k <= 8 && cur == before;
            Next(level, cur, transit) == if allowed then own else 0
  {
  }

  class TrxnState {
    var stateMap: map<string, nat>

    constructor ()
      ensures stateMap == map[]
    {
      stateMap := map[];
    }

    /** The byte a lookup yields: ST_NULL for an id never seen. */
    function St(trxnid: string): nat
      reads this
    {
      if trxnid in stateMap then stateMap[trxnid] else ST_NULL
    }

    method GetState(trxnid: string) returns (found: bool, state: nat)
      ensures found == (trxnid in stateMap) && state == St(trxnid)
    {
      if trxnid in stateMap {
        return true, stateMap[trxnid];
      }
      return false, ST_NULL;
    }

    method GoState(level: nat, trxnid: string, transit: nat) returns (ok: bool)
      modifies this
      ensures var cur := if trxnid in old(stateMap) then old(stateMap)[trxnid] else ST_0;
              var next := Next(level, cur, transit);
              && ok == (next != 0)
              && stateMap == if ok then old(stateMap)[trxnid := next] else old(stateMap)
    {
      var cur := if trxnid in stateMap then stateMap[trxnid] else ST_0;
      var next := Next(level, cur, transit);
      if next == 0 {
        return false;
      }
      InsertOrUpdateState(trxnid, next);
      return true;
    }

    /** A terminated transaction keeps its state. */
    method InsertOrUpdateState(trxnid: string, state: nat)
      modifies this
      ensures stateMap == if trxnid in old(stateMap) && old(stateMap)[trxnid] == ST_T then old(stateMap)
                          else old(stateMap)[trxnid := state]
    {
      if trxnid !in stateMap {
        stateMap := stateMap[trxnid := state];
      } else if stateMap[trxnid] != ST_T {
        if stateMap[trxnid] != state {
          stateMap := stateMap[trxnid := state];
        }
      }
    }

    method SetState(trxnid: string, state: nat)
      modifies this
      ensures stateMap == if trxnid in old(stateMap) && old(stateMap)[trxnid] == ST_T then old(stateMap)
                          else old(stateMap)[trxnid := state]
    {
      InsertOrUpdateState(trxnid, state);
    }
  }

  /** Counts by transaction id, absent ids counting zero. The source of OmWaitCount is not part of this model;
      cleanup may drop any ids. */
  class WaitCount {
    var counts: map<string, nat>

    constructor ()
      ensures counts == map[]
    {
      counts := map[];
    }

    function Count(id: string): nat
      reads this
    {
      if id in counts then counts[id] else 0
    }

    method Add(id: string, n: nat)
      modifies this
      ensures Count(id) == old(Count(id)) + n
      ensures forall o :: o != id ==> Count(o) == old(Count(o))
    {
      counts := counts[id := Count(id) + n];
    }

    method Erase(id: string)
      modifies this
      ensures Count(id) == 0
      ensures forall o :: o != id ==> Count(o) == old(Count(o))
    {
      counts := counts - {id};
    }

    method Cleanup(expired: set<string>)
      modifies this
      ensures forall o :: Count(o) == if o in expired then 0 else old(Count(o))
    {
      counts := counts - expired;
    }
  }

  /** OmWaitStr: the first string stored under an id wins until it is erased or grows old. */
  class WaitStr {
    var tsStr: map<string, (int, string)>

    constructor ()
      ensures tsStr == map[]
    {
      tsStr := map[];
    }

    method Add(id: string, str: string, now: int)
      modifies this
      ensures tsStr == if id in old(tsStr) then old(tsStr) else old(tsStr)[id := (now, str)]
    {
      if id !in tsStr {
        tsStr := tsStr[id := (now, str)];
      }
    }

    /** str unchanged when nothing is stored. */
    method Get(id: string, str: string) returns (r: string)
      ensures r == if id in tsStr then tsStr[id].1 else str
    {
      r := str;
      if id in tsStr {
        r := tsStr[id].1;
      }
    }

    method Erase(id: string)
      modifies this
      ensures tsStr == old(tsStr) - {id}
    {
      tsStr := tsStr - {id};
    }

    method Cleanup(now: int, keepSeconds: int)
      modifies this
      ensures tsStr == map id | id in old(tsStr) && now - old(tsStr)[id].0 <= keepSeconds :: old(tsStr)[id]
    {
      var todo := tsStr.Keys;
      while todo != {}
        invariant todo <= tsStr.Keys <= old(tsStr).Keys
        invariant forall id :: id in tsStr ==> tsStr[id] == old(tsStr)[id]
        invariant forall id :: id in old(tsStr) && id !in todo ==>
                    (id in tsStr <==> now - old(tsStr)[id].0 <= keepSeconds)
      {
        var id :| id in todo;
        todo := todo - {id};
        if now - tsStr[id].0 > keepSeconds {
          tsStr := tsStr - {id};
        }
      }
    }
  }
}
