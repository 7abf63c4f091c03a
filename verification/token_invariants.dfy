/** Fungible totals and the single holder of an NFT, over a whole transfer request. */
module TokenInvariants {
  import opened Rounding
  import opened Text
  import opened Tokens
  import opened TokenChecks
  import opened TokenVotes
  import opened TokenTotals
  import opened Wrappers

  // ----- Fungible tokens -----

  /** Records of one fungible name: each with a balance that is not negative. */
  ghost predicate FTs(s: seq<Json>) {
    forall v :: v in s ==> HasBalance(v) && Balance(v) >= 0 && !IsNFT(v.members)
  }

  function Sum(s: seq<Json>): int {
    if s == [] then 0 else Balance(s[0]) + Sum(s[1..])
  }

  lemma {:induction false} SumCons(v: Json, s: seq<Json>)
    ensures Sum([v] + s) == Balance(v) + Sum(s)
  {
    assert ([v] + s)[1..] == s;
  }

  lemma {:induction false} SumIsNat(s: seq<Json>)
    requires FTs(s)
    ensures Sum(s) >= 0 && (s != [] ==> 0 <= Balance(s[0]) <= Sum(s))
    decreases |s|
  {
    if s != [] {
      SumIsNat(s[1..]);
    }
  }

  lemma {:induction false} DebitedFT(m: seq<Member>, x: Move)
    requires HasBalance(Object(m)) && !IsNFT(m) && 1 <= Atol(x.amount) <= Balance(Object(m)) < EXACT
    ensures var v := Object(DebitedRecord(m, x));
            HasBalance(v) && !IsNFT(v.members) && Balance(v) == Balance(Object(m)) - Atol(x.amount)
  {
    hide DebitedRecord, Atol, Show, TextAt;
    DebitedMembers(m, x);
    AtolOfShow(Balance(Object(m)) - Atol(x.amount));
    RoundExact(Balance(Object(m)) - Atol(x.amount));
  }

  lemma {:induction false} CreditedFT(m: seq<Member>, x: Move)
    requires TakesCredit(Object(m), x.name) && !IsNFT(m)
    requires 0 <= Balance(Object(m)) && 1 <= Atol(x.amount) && Balance(Object(m)) + Atol(x.amount) < EXACT
    ensures var v := Object(Credited(m, false, x));
            HasBalance(v) && !IsNFT(v.members) && Balance(v) == Balance(Object(m)) + Atol(x.amount)
  {
    hide Atol, Show, Find, SetFirst;
    var sum := Balance(Object(m)) + Atol(x.amount);
    TextAfterSet(m, "bal", Show(sum), "bal");
    TextAfterSet(m, "bal", Show(sum), "max");
    AtolOfShow(sum);
    RoundExact(sum);
  }

  lemma {:induction false} CopiedFT(m: seq<Member>, amount: string)
    requires HasBalance(Object(m)) && !IsNFT(m)
    ensures var v := Object(Copy(m, amount));
            HasBalance(v) && !IsNFT(v.members) && Balance(v) == Atol(amount)
  {
    CopyText(m, amount, "bal");
    CopyText(m, amount, "max");
  }

  /** What leaves one account arrives at the other. */
  lemma {:induction false} TransferKeepsSum(s: seq<Json>, d: seq<Json>, s1: seq<Json>, d1: seq<Json>, x: Move)
    requires Transfer(s, d, s1, d1, x) && FTs(s) && FTs(d) && Sum(s) + Sum(d) < EXACT
    ensures FTs(s1) && FTs(d1) && Sum(s1) + Sum(d1) == Sum(s) + Sum(d)
  {
    hide DebitedRecord, Credited, Copy, Atol, IsNFT;
    SumIsNat(s);
    SumIsNat(d);
    var m := s[0].members;
    assert s[0] in s && s == [s[0]] + s[1..];
    DebitedFT(m, x);
    SumCons(s1[0], s[1..]);
    if d == [] {
      CopiedFT(s1[0].members, x.amount);
      SumCons(d1[0], []);
      assert d1 == [d1[0]] + [];
    } else {
      assert d[0] in d && d == [d[0]] + d[1..];
      CreditedFT(d[0].members, x);
      SumCons(d1[0], d[1..]);
    }
  }

  /** A whole request leaves the total of a fungible name over both accounts unchanged, below a million. */
  lemma {:induction false} RequestKeepsSum(src: seq<Json>, dst: seq<Json>, items: seq<Json>, from: string, to: string,
                                           name: string)
    requires MoveAll(src, dst, items, from, to).Moved?
    requires FTs(OfName(src, name)) && FTs(OfName(dst, name))
    requires Sum(OfName(src, name)) + Sum(OfName(dst, name)) < EXACT
    ensures var r := MoveAll(src, dst, items, from, to);
            var s, d := OfName(r.src, name), OfName(r.dst, name);
            FTs(s) && FTs(d) && Sum(s) + Sum(d) == Sum(OfName(src, name)) + Sum(OfName(dst, name))
    decreases |items|
  {
    hide MoveOne, OfName, ReadItem, Transfer, Sum;
    if items != [] {
      var r := MoveOne(src, dst, items[0], from, to);
      if Wants(items[0], name) {
        MoveHere(src, dst, items[0], from, to, name);
        TransferKeepsSum(OfName(src, name), OfName(dst, name), OfName(r.src, name), OfName(r.dst, name),
                         MoveOf(items[0], from, to));
      } else {
        MoveElsewhere(src, dst, items[0], from, to, name);
      }
      RequestKeepsSum(r.src, r.dst, items[1..], from, to, name);
    }
  }

  // ----- NFTs -----

  function Owner(v: Json): Option<string> {
    if v.Object? then TextAt(v.members, "owner") else None
  }

  /** An account's record of an NFT: it names an owner, and has balance 1 exactly when that is the account. */
  ghost predicate NFTRecord(v: Json, acct: string) {
    && HasBalance(v) && IsNFT(v.members) && Owner(v).Some?
    && Balance(v) == if Owner(v) == Some(acct) then 1 else 0
  }

  /** An account's records of one NFT: one at most. */
  ghost predicate NFTs(s: seq<Json>, acct: string) {
    |s| <= 1 && forall v :: v in s ==> NFTRecord(v, acct)
  }

  ghost predicate Holds(s: seq<Json>, acct: string) {
    s != [] && Owner(s[0]) == Some(acct)
  }

  lemma {:induction false} DebitedNFT(m: seq<Member>, x: Move)
    requires NFTRecord(Object(m), x.src) && Owner(Object(m)) == Some(x.src) && x.src != x.dst
    requires 1 <= Atol(x.amount) <= Balance(Object(m))
    ensures var v := Object(DebitedRecord(m, x));
            NFTRecord(v, x.src) && Owner(v) == Some(x.dst) && Atol(x.amount) == 1
  {
    hide DebitedRecord, Atol, Show, TextAt;
    DebitedMembers(m, x);
    AtolOfShow(0);
    RoundExact(0);
  }

  lemma {:induction false} CreditedNFT(m: seq<Member>, x: Move)
    requires TakesCredit(Object(m), x.name) && NFTRecord(Object(m), x.dst)
    ensures var v := Object(Credited(m, true, x));
            NFTRecord(v, x.dst) && Owner(v) == Some(x.dst)
  {
    hide Atol, Find, SetFirst, Show;
    var b := SetFirst(m, "bal", "1");
    OneReads();
    TextAfterSet(m, "bal", "1", "bal");
    TextAfterSet(m, "bal", "1", "max");
    TextAfterSet(m, "bal", "1", "owner");
    TextAfterSet(b, "owner", x.dst, "bal");
    TextAfterSet(b, "owner", x.dst, "max");
    TextAfterSet(b, "owner", x.dst, "owner");
  }

  lemma {:induction false} OneReads()
    ensures Atol("1") == 1
  {
    OneIsOne();
  }

  lemma {:induction false} CopiedNFT(m: seq<Member>, x: Move)
    requires HasBalance(Object(m)) && IsNFT(m) && Owner(Object(m)) == Some(x.dst) && Atol(x.amount) == 1
    ensures var v := Object(Copy(m, x.amount));
            NFTRecord(v, x.dst) && Owner(v) == Some(x.dst)
  {
    CopyText(m, x.amount, "bal");
    CopyText(m, x.amount, "max");
    CopyText(m, x.amount, "owner");
  }

  /** The holder gives the NFT away, and the receiver holds it. */
  lemma {:induction false} TransferMovesNFT(s: seq<Json>, d: seq<Json>, s1: seq<Json>, d1: seq<Json>, x: Move)
    requires x.src != x.dst && Transfer(s, d, s1, d1, x) && NFTs(s, x.src) && NFTs(d, x.dst)
    ensures NFTs(s1, x.src) && NFTs(d1, x.dst)
    ensures Holds(s, x.src) && !Holds(s1, x.src) && Holds(d1, x.dst)
  {
    hide DebitedRecord, Credited, Copy, Atol, IsNFT;
    assert s[0] in s;
    DebitedNFT(s[0].members, x);
    if d == [] {
      CopiedNFT(s1[0].members, x);
    } else {
      assert d[0] in d;
      CreditedNFT(d[0].members, x);
    }
  }

  /** Over a whole request, between two accounts that do not both hold it, an NFT keeps its one holder. */
  lemma {:induction false} RequestKeepsHolder(src: seq<Json>, dst: seq<Json>, items: seq<Json>, from: string,
                                              to: string,
                                              name: string)
    requires from != to && MoveAll(src, dst, items, from, to).Moved?
    requires NFTs(OfName(src, name), from) && NFTs(OfName(dst, name), to)
    requires !(Holds(OfName(src, name), from) && Holds(OfName(dst, name), to))
    ensures var r := MoveAll(src, dst, items, from, to);
            var s, d := OfName(r.src, name), OfName(r.dst, name);
            && NFTs(s, from) && NFTs(d, to) && !(Holds(s, from) && Holds(d, to))
            && (Holds(s, from) || Holds(d, to) <==> Holds(OfName(src, name), from) || Holds(OfName(dst, name), to))
    decreases |items|
  {
    hide MoveOne, OfName, ReadItem, Transfer, Holds;
    if items != [] {
      var r := MoveOne(src, dst, items[0], from, to);
      if Wants(items[0], name) {
        MoveHere(src, dst, items[0], from, to, name);
        TransferMovesNFT(OfName(src, name), OfName(dst, name), OfName(r.src, name), OfName(r.dst, name),
                         MoveOf(items[0], from, to));
      } else {
        MoveElsewhere(src, dst, items[0], from, to, name);
      }
      RequestKeepsHolder(r.src, r.dst, items[1..], from, to, name);
    }
  }
}
