/** When a request that passed the check at vote time goes through at commit time. */
module TokenChecks {
  import opened Rounding
  import opened Text
  import opened Tokens
  import opened Wrappers

  // ----- Members -----

  lemma {:induction false} FindAfterSet(m: seq<Member>, key: string, text: string, k: string)
    ensures Find(SetFirst(m, key, text), k)
            == if k == key && Find(m, key).Some? then Some(Text(text)) else Find(m, k)
    decreases |m|
  {
    if m != [] && m[0].key != key {
      FindAfterSet(m[1..], key, text, k);
    }
  }

  lemma {:induction false} AtolOfShow(n: nat)
    ensures Atol(Show(n)) == Round6(n)
  {
    AtolOfDecimal(Round6(n), "");
    assert Decimal(Round6(n)) + "" == Decimal(Round6(n));
  }

  /** A number below zero keeps its sign. */
  lemma {:induction false} AtolOfShowBelow(n: nat)
    requires n >= 1
    ensures Atol(Show(0 - n)) == 0 - Round6(n)
  {
    var text := Decimal(Round6(n));
    AtolReads("", Round6(n), "");
    assert "" + ("-" + (text + "")) == "-" + text;
  }

  // ----- What the sender holds -----

  /** The record the check and the debit stop at: its place, its balance, whether it is an NFT. */
  datatype Held = NotHeld | Held(at: nat, bal: int, nft: bool)

  function Holding(tokens: seq<Json>, j: nat, name: string, src: string): (h: Held)
    ensures h.Held? ==> j <= h.at < |tokens| && Named(tokens[h.at], name)
    decreases |tokens| - j
  {
    if j >= |tokens| || tokens[j].NotObject? then NotHeld
    else
      var m := tokens[j].members;
      var tname, max, owner, bal := TextAt(m, "name"), TextAt(m, "max"), TextAt(m, "owner"), TextAt(m, "bal");
      if tname.None? then NotHeld
      else if tname.value != name then Holding(tokens, j + 1, name, src)
      else if max.None? || bal.None? || (IsNFT(m) && owner != Some(src)) then NotHeld
      else Held(j, Atol(bal.value), IsNFT(m))
  }

  lemma {:induction false} CheckMeansHeld(tokens: seq<Json>, j: nat, x: Move)
    ensures CheckHolding(tokens, j, x) == 0 <==>
              var h := Holding(tokens, j, x.name, x.src); h.Held? && h.bal >= Atol(x.amount)
    decreases |tokens| - j
  {
    if j < |tokens| && tokens[j].Object? && !Named(tokens[j], x.name) {
      CheckMeansHeld(tokens, j + 1, x);
    }
  }

  /** A record after its debit. */
  function DebitedRecord(m: seq<Member>, x: Move): seq<Member>
    requires TextAt(m, "bal").Some?
  {
    var owned := if IsNFT(m) then SetFirst(m, "owner", x.dst) else m;
    SetFirst(owned, "bal", Show(Atol(TextAt(m, "bal").value) - Atol(x.amount)))
  }

  lemma {:induction false} DebitHeld(tokens: seq<Json>, j: nat, nft: bool, x: Move)
    requires Holding(tokens, j, x.name, x.src).Held?
    ensures var h := Holding(tokens, j, x.name, x.src);
            && TextAt(tokens[h.at].members, "bal").Some?
            && Debit(tokens, j, nft, x)
               == if h.bal < Atol(x.amount) then Refused(-50)
                  else Done(tokens[h.at := Object(DebitedRecord(tokens[h.at].members, x))], nft || h.nft)
    decreases |tokens| - j
  {
    hide Find, SetFirst, Show, Atol;
    var m := tokens[j].members;
    if Named(tokens[j], x.name) {
      TextAfterSet(m, "owner", x.dst, "bal");
    } else {
      DebitHeld(tokens, j + 1, nft, x);
    }
  }

  /** What a debit leaves of the record it touched. */
  lemma {:induction false} DebitedMembers(m: seq<Member>, x: Move)
    requires TextAt(m, "bal").Some?
    ensures var r := DebitedRecord(m, x);
            && TextAt(r, "name") == TextAt(m, "name")
            && TextAt(r, "max") == TextAt(m, "max")
            && TextAt(r, "bal") == Some(Show(Atol(TextAt(m, "bal").value) - Atol(x.amount)))
            && TextAt(r, "owner") == (if IsNFT(m) && TextAt(m, "owner").Some? then Some(x.dst)
                                      else TextAt(m, "owner"))
  {
    hide Find, SetFirst, TextAt, Show, Atol, IsNFT;
    var owned := if IsNFT(m) then SetFirst(m, "owner", x.dst) else m;
    var bal := Show(Atol(TextAt(m, "bal").value) - Atol(x.amount));
    forall k | k in ["name", "max", "bal", "owner"]
      ensures TextAt(SetFirst(m, "owner", x.dst), k)
              == if k == "owner" && TextAt(m, k).Some? then Some(x.dst) else TextAt(m, k)
      ensures TextAt(SetFirst(owned, "bal", bal), k)
              == if k == "bal" && TextAt(owned, k).Some? then Some(bal) else TextAt(owned, k)
    {
      TextAfterSet(m, "owner", x.dst, k);
      TextAfterSet(owned, "bal", bal, k);
    }
    assert "name" in ["name", "max", "bal", "owner"] && "max" in ["name", "max", "bal", "owner"];
    assert "bal" in ["name", "max", "bal", "owner"] && "owner" in ["name", "max", "bal", "owner"];
  }

  lemma {:induction false} TextAfterSet(m: seq<Member>, key: string, text: string, k: string)
    ensures TextAt(SetFirst(m, key, text), k)
            == if k == key && TextAt(m, key).Some? then Some(text) else TextAt(m, k)
  {
    FindAfterSet(m, key, text, k);
  }

  /** Holdings change only where a record of that name does. */
  lemma {:induction false} HoldingElsewhere(tokens: seq<Json>, j: nat, at: nat, v: Json, name: string, src: string)
    requires at < |tokens| && tokens[at].Object? && v.Object?
    requires TextAt(v.members, "name") == TextAt(tokens[at].members, "name")
    requires TextAt(v.members, "name").Some? && TextAt(v.members, "name").value != name
    ensures Holding(tokens[at := v], j, name, src) == Holding(tokens, j, name, src)
    decreases |tokens| - j
  {
    if j < |tokens| {
      HoldingElsewhere(tokens, j + 1, at, v, name, src);
    }
  }

  /** The same record is found again after it was replaced by one of the same name. */
  lemma {:induction false} HoldingAgain(tokens: seq<Json>, j: nat, v: Json, name: string, src: string)
    requires Holding(tokens, j, name, src).Held? && Named(v, name)
    ensures var at := Holding(tokens, j, name, src).at;
            Holding(tokens[at := v], j, name, src) == Holding(tokens[at := v], at, name, src)
    decreases |tokens| - j
  {
    if !Named(tokens[j], name) {
      HoldingAgain(tokens, j + 1, v, name, src);
    }
  }
}
