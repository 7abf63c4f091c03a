/** What transfers keep: how one item moves the records of one name between two accounts. */
module TokenTotals {
  import opened Rounding
  import opened Text
  import opened Tokens
  import opened TokenChecks
  import opened TokenVotes
  import opened Wrappers

  /** The records of one name, in order. */
  function OfName(tokens: seq<Json>, name: string): (r: seq<Json>)
    ensures forall v :: v in r ==> Named(v, name)
  {
    if tokens == [] then []
    else (if Named(tokens[0], name) then [tokens[0]] else []) + OfName(tokens[1..], name)
  }

  predicate HasBalance(v: Json) {
    v.Object? && TextAt(v.members, "bal").Some?
  }

  ghost predicate Balanced(tokens: seq<Json>) {
    forall v :: v in tokens ==> HasBalance(v)
  }

  function Balance(v: Json): int {
    if HasBalance(v) then Atol(TextAt(v.members, "bal").value) else 0
  }

  // ----- Records of one name in a changing array -----

  lemma {:induction false} OfNameAppend(a: seq<Json>, b: seq<Json>, name: string)
    ensures OfName(a + b, name) == OfName(a, name) + OfName(b, name)
    decreases |a|
  {
    if a == [] {
      assert a + b == b;
    } else {
      assert (a + b)[1..] == a[1..] + b;
      OfNameAppend(a[1..], b, name);
    }
  }

  lemma {:induction false} OfNameSplit(tokens: seq<Json>, at: nat, name: string)
    requires at < |tokens|
    ensures OfName(tokens, name)
            == OfName(tokens[..at], name) + OfName([tokens[at]], name) + OfName(tokens[at + 1..], name)
  {
    assert tokens == tokens[..at] + ([tokens[at]] + tokens[at + 1..]);
    OfNameAppend(tokens[..at], [tokens[at]] + tokens[at + 1..], name);
    OfNameAppend([tokens[at]], tokens[at + 1..], name);
  }

  lemma {:induction false} OfNameUpdate(tokens: seq<Json>, at: nat, v: Json, name: string)
    requires at < |tokens|
    ensures OfName(tokens[at := v], name)
            == OfName(tokens[..at], name) + OfName([v], name) + OfName(tokens[at + 1..], name)
  {
    OfNameSplit(tokens[at := v], at, name);
    assert tokens[at := v][..at] == tokens[..at] && tokens[at := v][at + 1..] == tokens[at + 1..];
  }

  /** A record of another name may change at will. */
  lemma {:induction false} OfNameElsewhere(tokens: seq<Json>, at: nat, v: Json, name: string)
    requires at < |tokens| && !Named(tokens[at], name) && !Named(v, name)
    ensures OfName(tokens[at := v], name) == OfName(tokens, name)
  {
    OfNameUpdate(tokens, at, v, name);
    OfNameSplit(tokens, at, name);
  }

  /** The first record of the name is replaced by one of the same name. */
  lemma {:induction false} OfNameFirst(tokens: seq<Json>, at: nat, v: Json, name: string)
    requires at < |tokens| && Named(tokens[at], name) && Named(v, name)
    requires OfName(tokens[..at], name) == []
    ensures OfName(tokens, name) == [tokens[at]] + OfName(tokens[at + 1..], name)
    ensures OfName(tokens[at := v], name) == [v] + OfName(tokens[at + 1..], name)
  {
    OfNameUpdate(tokens, at, v, name);
    OfNameSplit(tokens, at, name);
  }

  lemma {:induction false} NoneBefore(tokens: seq<Json>, j: nat, name: string)
    requires j < |tokens| && OfName(tokens[..j], name) == [] && !Named(tokens[j], name)
    ensures OfName(tokens[..j + 1], name) == []
  {
    assert tokens[..j + 1] == tokens[..j] + [tokens[j]];
    OfNameAppend(tokens[..j], [tokens[j]], name);
  }

  // ----- The two loops, seen from a name -----

  lemma {:induction false} OwnerKeepsName(m: seq<Member>, key: string, text: string, name: string)
    requires key != "name"
    ensures Named(Object(SetFirst(m, key, text)), name) == Named(Object(m), name)
  {
    TextAfterSet(m, key, text, "name");
  }

  /** A debit of another name. */
  lemma {:induction false} DebitElsewhere(tokens: seq<Json>, j: nat, nft: bool, x: Move, name: string)
    requires name != x.name && Debit(tokens, j, nft, x).Done?
    ensures OfName(Debit(tokens, j, nft, x).tokens, name) == OfName(tokens, name)
    decreases |tokens| - j
  {
    hide Find, SetFirst, OfName, Show, Atol;
    var m := tokens[j].members;
    if Named(tokens[j], x.name) {
      var owned := if IsNFT(m) then SetFirst(m, "owner", x.dst) else m;
      OwnerKeepsName(m, "owner", x.dst, x.name);
      var bal := TextAt(owned, "bal");
      if bal.None? {
        OfNameElsewhere(tokens, j, Object(owned), name);
        DebitElsewhere(tokens[j := Object(owned)], j + 1, nft || IsNFT(m), x, name);
      } else {
        var text := Show(Atol(bal.value) - Atol(x.amount));
        OwnerKeepsName(owned, "bal", text, x.name);
        OfNameElsewhere(tokens, j, Object(SetFirst(owned, "bal", text)), name);
      }
    } else {
      DebitElsewhere(tokens, j + 1, nft, x, name);
    }
  }

  /** A debit of the name itself takes the first record, when that has a balance. */
  lemma {:induction false} DebitHere(tokens: seq<Json>, j: nat, x: Move)
    requires j <= |tokens| && OfName(tokens[..j], x.name) == []
    requires Balanced(OfName(tokens, x.name)) && Debit(tokens, j, false, x).Done?
    ensures var s, d := OfName(tokens, x.name), Debit(tokens, j, false, x);
            && s != [] && HasBalance(s[0])
            && Balance(s[0]) >= Atol(x.amount) && d.nft == IsNFT(s[0].members)
            && (d.nft ==> TextAt(s[0].members, "owner") == Some(x.src))
            && OfName(d.tokens, x.name) == [Object(DebitedRecord(s[0].members, x))] + s[1..]
    decreases |tokens| - j
  {
    hide Find, SetFirst, OfName, Show, Atol;
    var m := tokens[j].members;
    if Named(tokens[j], x.name) {
      OfNameFirst(tokens, j, tokens[j], x.name);
      assert tokens[j] in OfName(tokens, x.name);
      DebitedMembers(m, x);
      TextAfterSet(m, "owner", x.dst, "bal");
      OfNameFirst(tokens, j, Object(DebitedRecord(m, x)), x.name);
    } else {
      NoneBefore(tokens, j, x.name);
      DebitHere(tokens, j + 1, x);
    }
  }

  lemma {:induction false} CreditedKeepsName(m: seq<Member>, nft: bool, x: Move, name: string)
    requires TakesCredit(Object(m), x.name)
    ensures Named(Object(Credited(m, nft, x)), name) == Named(Object(m), name)
  {
    hide Find, SetFirst, Show, Atol;
    if nft {
      OwnerKeepsName(SetFirst(m, "bal", "1"), "owner", x.dst, name);
      OwnerKeepsName(m, "bal", "1", name);
    } else {
      OwnerKeepsName(m, "bal", Show(Atol(TextAt(m, "bal").value) + Atol(x.amount)), name);
    }
  }

  lemma {:induction false} CreditElsewhere(tokens: seq<Json>, j: nat, nft: bool, x: Move, name: string)
    requires name != x.name && Credit(tokens, j, nft, x).Some?
    ensures OfName(Credit(tokens, j, nft, x).value, name) == OfName(tokens, name)
    decreases |tokens| - j
  {
    hide OfName, Credited, TextAt;
    if TakesCredit(tokens[j], x.name) {
      CreditedKeepsName(tokens[j].members, nft, x, name);
      OfNameElsewhere(tokens, j, Object(Credited(tokens[j].members, nft, x)), name);
    } else {
      CreditElsewhere(tokens, j + 1, nft, x, name);
    }
  }

  lemma {:induction false} CreditHere(tokens: seq<Json>, j: nat, nft: bool, x: Move)
    requires j <= |tokens| && OfName(tokens[..j], x.name) == [] && Balanced(OfName(tokens, x.name))
    ensures var d, c := OfName(tokens, x.name), Credit(tokens, j, nft, x);
            && (d == [] ==> c == None)
            && (d != [] ==> TakesCredit(d[0], x.name)
                            && c.Some? && OfName(c.value, x.name) == [Object(Credited(d[0].members, nft, x))] + d[1..])
    decreases |tokens| - j
  {
    hide OfName, Credited;
    if j == |tokens| {
      assert tokens[..j] == tokens;
    } else if Named(tokens[j], x.name) {
      OfNameFirst(tokens, j, tokens[j], x.name);
      assert tokens[j] in OfName(tokens, x.name) && HasBalance(tokens[j]);
      CreditedKeepsName(tokens[j].members, nft, x, x.name);
      OfNameFirst(tokens, j, Object(Credited(tokens[j].members, nft, x)), x.name);
    } else {
      NoneBefore(tokens, j, x.name);
      CreditHere(tokens, j + 1, nft, x);
    }
  }

  lemma {:induction false} FirstOfName(tokens: seq<Json>, name: string)
    ensures FirstNamed(tokens, name) == if OfName(tokens, name) == [] then None else Some(OfName(tokens, name)[0])
    decreases |tokens|
  {
    if tokens != [] {
      FirstOfName(tokens[1..], name);
    }
  }

  lemma {:induction false} CopyText(m: seq<Member>, amount: string, k: string)
    ensures TextAt(Copy(m, amount), k) == if k == "bal" && TextAt(m, k).Some? then Some(amount) else TextAt(m, k)
    decreases |m|
  {
    if m != [] && m[0].key != k {
      CopyText(m[1..], amount, k);
    }
  }

  // ----- One item -----

  /** An item of another name moves no record of this one. */
  lemma {:induction false} MoveElsewhere(src: seq<Json>, dst: seq<Json>, item: Json, from: string, to: string,
                                         name: string)
    requires MoveOne(src, dst, item, from, to).Moved? && !Wants(item, name)
    ensures var r := MoveOne(src, dst, item, from, to);
            OfName(r.src, name) == OfName(src, name) && OfName(r.dst, name) == OfName(dst, name)
  {
    hide ReadItem, Debit, Credit, OfName, TextAt, Copy;
    if ReadItem(item).Wanted? {
      var x := MoveOf(item, from, to);
      var d := Debit(src, 0, false, x);
      DebitElsewhere(src, 0, false, x, name);
      if Credit(dst, 0, d.nft, x).Some? {
        CreditElsewhere(dst, 0, d.nft, x, name);
      } else {
        FirstOfName(d.tokens, x.name);
        if OfName(d.tokens, x.name) != [] {
          var first := OfName(d.tokens, x.name)[0];
          assert first in OfName(d.tokens, x.name);
          CopyElsewhere(dst, first.members, x.amount, x.name, name);
        }
      }
    }
  }

  lemma {:induction false} CopyElsewhere(dst: seq<Json>, m: seq<Member>, amount: string, own: string, name: string)
    requires Named(Object(m), own) && own != name
    ensures OfName(dst + [Object(Copy(m, amount))], name) == OfName(dst, name)
  {
    CopyText(m, amount, "name");
    OfNameAppend(dst, [Object(Copy(m, amount))], name);
  }

  lemma {:induction false} CopyHere(dst: seq<Json>, m: seq<Member>, amount: string, name: string)
    requires Named(Object(m), name)
    ensures OfName(dst + [Object(Copy(m, amount))], name) == OfName(dst, name) + [Object(Copy(m, amount))]
  {
    CopyText(m, amount, "name");
    OfNameAppend(dst, [Object(Copy(m, amount))], name);
  }

  /** An item of this name: the sender's first record is debited, the receiver's first record is credited or a
      copy is made, and every other record of the name stays. */
  ghost predicate Transfer(s: seq<Json>, d: seq<Json>, s1: seq<Json>, d1: seq<Json>, x: Move) {
    && s != [] && HasBalance(s[0]) && Balance(s[0]) >= Atol(x.amount) >= 1
    && var m := s[0].members;
       var left := DebitedRecord(m, x);
       && (IsNFT(m) ==> TextAt(m, "owner") == Some(x.src))
       && s1 == [Object(left)] + s[1..]
       && (d == [] ==> d1 == [Object(Copy(left, x.amount))])
       && (d != [] ==> TakesCredit(d[0], x.name) && d1 == [Object(Credited(d[0].members, IsNFT(m), x))] + d[1..])
  }

  lemma {:induction false} MoveHere(src: seq<Json>, dst: seq<Json>, item: Json, from: string, to: string,
                                    name: string)
    requires MoveOne(src, dst, item, from, to).Moved? && Wants(item, name)
    requires Balanced(OfName(src, name)) && Balanced(OfName(dst, name))
    ensures var r := MoveOne(src, dst, item, from, to);
            Transfer(OfName(src, name), OfName(dst, name), OfName(r.src, name), OfName(r.dst, name),
                     MoveOf(item, from, to))
  {
    hide ReadItem, Debit, Credit, OfName, TextAt, Copy, DebitedRecord, Credited;
    var x := MoveOf(item, from, to);
    var d := Debit(src, 0, false, x);
    NothingBefore(src, name);
    NothingBefore(dst, name);
    DebitHere(src, 0, x);
    CreditHere(dst, 0, d.nft, x);
    FirstOfName(d.tokens, name);
    var left := OfName(d.tokens, name)[0];
    assert left in OfName(d.tokens, name);
    if OfName(dst, name) == [] {
      CopyHere(dst, left.members, x.amount, name);
    }
  }

  lemma {:induction false} NothingBefore(tokens: seq<Json>, name: string)
    ensures OfName(tokens[..0], name) == []
  {
  }
}
