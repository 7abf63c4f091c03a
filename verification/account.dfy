/** OmAccount (src/omaccount.cc): the record of a user, opened from a store, changed and written back.

    Balances are whole numbers; the program stores their six-digit text. */
module Accounts {
  import opened Rounding

  const MAX_AMOUNT := 10000000000

  /** The record as stored; the tokens are a text. */
  datatype Account = Account(
    accttype: string, balance: nat, tokentype: string, pubkey: string, keytype: string,
    out: nat, inn: nat, tokens: string)

  /** What addBalance answers: the new balance before rounding, or a negative code. */
  function Added(balance: nat, amt: int): int {
    if amt > MAX_AMOUNT || -amt > MAX_AMOUNT then -15
    else if balance + amt < 0 then -20
    else balance + amt
  }

  /** What addBalance stores. */
  function Stored(balance: nat, amt: int): nat {
    if Added(balance, amt) < 0 then balance else Round6(Added(balance, amt))
  }

  class OmAccount {
    var accttype: string
    var balance: nat
    var tokentype: string
    var pubkey: string
    var keytype: string
    var out: nat
    var inn: nat
    var tokens: string

    constructor (rec: Account)
      ensures Json() == rec
    {
      accttype := rec.accttype;
      balance := rec.balance;
      tokentype := rec.tokentype;
      pubkey := rec.pubkey;
      keytype := rec.keytype;
      out := rec.out;
      inn := rec.inn;
      tokens := rec.tokens;
    }

    function Json(): Account
      reads this
    {
      Account(accttype, balance, tokentype, pubkey, keytype, out, inn, tokens)
    }

    method AddBalance(amt: int) returns (bal: int)
      modifies `balance
      ensures bal == Added(old(balance), amt) && balance == Stored(old(balance), amt)
      ensures bal == if amt > 10000000000 || amt < -10000000000 then -15
                     else if old(balance) + amt < 0 then -20 else old(balance) + amt
      ensures balance == if bal < 0 then old(balance) else Round6(bal)
    {
      if amt > MAX_AMOUNT || -amt > MAX_AMOUNT {
        return -15;
      }
      bal := balance + amt;
      if bal < 0 {
        return -20;
      }
      balance := Round6(bal);
    }

    method IncrementFence()
      modifies `out
      ensures out == old(out) + 1
    {
      var cnt := out;
      cnt := cnt + 1;
      out := cnt;
    }

    method IncrementIn()
      modifies `inn
      ensures inn == old(inn) + 1
    {
      var cnt := inn;
      cnt := cnt + 1;
      inn := cnt;
    }
  }
}
