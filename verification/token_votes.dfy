/** The vote on a transfer and its outcome: exactly which checked requests modifyTokens carries out. */
module TokenVotes {
  import opened Rounding
  import opened Text
  import opened Tokens
  import opened TokenChecks
  import opened Wrappers

  /** The first record of that name is an NFT of somebody else. */
  predicate Foreign(tokens: seq<Json>, j: nat, name: string, src: string)
    decreases |tokens| - j
  {
    && j < |tokens| && tokens[j].Object? && TextAt(tokens[j].members, "name").Some?
    && if Named(tokens[j], name) then
         IsNFT(tokens[j].members) && TextAt(tokens[j].members, "owner") != Some(src)
       else Foreign(tokens, j + 1, name, src)
  }

  lemma {:induction false} ForeignRefused(tokens: seq<Json>, j: nat, nft: bool, x: Move)
    requires Foreign(tokens, j, x.name, x.src)
    ensures Debit(tokens, j, nft, x) == Refused(-81)
    ensures Holding(tokens, j, x.name, x.src) == NotHeld
    decreases |tokens| - j
  {
    if !Named(tokens[j], x.name) {
      ForeignRefused(tokens, j + 1, nft, x);
    }
  }

  lemma {:induction false} ForeignElsewhere(tokens: seq<Json>, j: nat, at: nat, v: Json, name: string, src: string)
    requires at < |tokens| && tokens[at].Object? && v.Object?
    requires TextAt(v.members, "name") == TextAt(tokens[at].members, "name")
    requires TextAt(v.members, "name").Some? && TextAt(v.members, "name").value != name
    ensures Foreign(tokens[at := v], j, name, src) == Foreign(tokens, j, name, src)
    decreases |tokens| - j
  {
    if j < |tokens| {
      ForeignElsewhere(tokens, j + 1, at, v, name, src);
    }
  }

  lemma {:induction false} ForeignAfter(tokens: seq<Json>, j: nat, v: Json, name: string, src: string)
    requires Holding(tokens, j, name, src).Held? && Named(v, name)
    requires IsNFT(v.members) && TextAt(v.members, "owner") != Some(src)
    ensures Foreign(tokens[Holding(tokens, j, name, src).at := v], j, name, src)
    decreases |tokens| - j
  {
    if !Named(tokens[j], name) {
      ForeignAfter(tokens, j + 1, v, name, src);
    }
  }

  /** The sender's tokens after a debit that goes through. */
  function Left(tokens: seq<Json>, x: Move): seq<Json> {
    var d := Debit(tokens, 0, false, x);
    if d.Done? then d.tokens else tokens
  }

  ghost predicate Payable(tokens: seq<Json>, x: Move) {
    && x.src != x.dst && Atol(x.amount) >= 1
    && Holding(tokens, 0, x.name, x.src).Held?
    && Holding(tokens, 0, x.name, x.src).bal >= Atol(x.amount)
  }

  /** A debit replaces one record, by one of the same name. */
  lemma {:induction false} DebitReplaces(tokens: seq<Json>, x: Move) returns (v: Json)
    requires Payable(tokens, x)
    ensures var h := Holding(tokens, 0, x.name, x.src);
            var m := tokens[h.at].members;
            && Debit(tokens, 0, false, x) == Done(tokens[h.at := v], h.nft)
            && Left(tokens, x) == tokens[h.at := v]
            && Named(v, x.name) && IsNFT(v.members) == IsNFT(m) && TextAt(v.members, "max").Some?
            && TextAt(v.members, "bal") == Some(Show(h.bal - Atol(x.amount)))
            && TextAt(v.members, "owner") == (if h.nft then Some(x.dst) else TextAt(m, "owner"))
  {
    hide Debit, Holding, TextAt, DebitedRecord, Show, Atol;
    var h := Holding(tokens, 0, x.name, x.src);
    DebitHeld(tokens, 0, false, x);
    HeldRecord(tokens, 0, x.name, x.src);
    DebitedMembers(tokens[h.at].members, x);
    v := Object(DebitedRecord(tokens[h.at].members, x));
  }

  /** The other names keep their standing. */
  lemma {:induction false} OthersAfterDebit(tokens: seq<Json>, x: Move, name: string)
    requires Payable(tokens, x) && name != x.name
    ensures var left := Left(tokens, x);
            && Holding(left, 0, name, x.src) == Holding(tokens, 0, name, x.src)
            && Foreign(left, 0, name, x.src) == Foreign(tokens, 0, name, x.src)
  {
    hide Debit, Holding, Foreign, TextAt, Show, Atol, Left;
    var h := Holding(tokens, 0, x.name, x.src);
    var v := DebitReplaces(tokens, x);
    HoldingElsewhere(tokens, 0, h.at, v, name, x.src);
    ForeignElsewhere(tokens, 0, h.at, v, name, x.src);
  }

  /** A fungible balance falls by the amount, rounded; an NFT is given away. */
  lemma {:induction false} SameAfterDebit(tokens: seq<Json>, x: Move)
    requires Payable(tokens, x)
    ensures var h, left := Holding(tokens, 0, x.name, x.src), Left(tokens, x);
            && (h.nft ==> Foreign(left, 0, x.name, x.src) && Holding(left, 0, x.name, x.src) == NotHeld)
            && (!h.nft ==> Holding(left, 0, x.name, x.src)
                           == Held(h.at, Round6(h.bal - Atol(x.amount)), false))
  {
    hide Debit, Foreign, TextAt, Show, Atol, Left, Round6, IsNFT;
    var h := Holding(tokens, 0, x.name, x.src);
    var v := DebitReplaces(tokens, x);
    HeldRecord(tokens, 0, x.name, x.src);
    if h.nft {
      ForeignAfter(tokens, 0, v, x.name, x.src);
      ForeignRefused(Left(tokens, x), 0, false, x);
    } else {
      HoldingAgain(tokens, 0, v, x.name, x.src);
      AtolOfShow(h.bal - Atol(x.amount));
    }
  }

  lemma {:induction false} HeldRecord(tokens: seq<Json>, j: nat, name: string, src: string)
    requires Holding(tokens, j, name, src).Held?
    ensures var h := Holding(tokens, j, name, src);
            var m := tokens[h.at].members;
            && TextAt(m, "max").Some? && TextAt(m, "bal").Some? && h.bal == Atol(TextAt(m, "bal").value)
            && h.nft == IsNFT(m) && (h.nft ==> TextAt(m, "owner") == Some(src))
    decreases |tokens| - j
  {
    if !Named(tokens[j], name) {
      HeldRecord(tokens, j + 1, name, src);
    }
  }

  // ----- Requests -----

  predicate Wants(item: Json, name: string) {
    var i := ReadItem(item);
    i.Wanted? && i.name == name
  }

  function Count(items: seq<Json>, name: string): nat {
    if items == [] then 0 else (if Wants(items[0], name) then 1 else 0) + Count(items[1..], name)
  }

  function Requested(items: seq<Json>, name: string): nat {
    if items == [] then 0
    else (if Wants(items[0], name) then Atol(ReadItem(items[0]).amount) else 0) + Requested(items[1..], name)
  }

  /** The items of that name can be paid one after the other, each from the rounded rest. */
  predicate Affords(bal: int, items: seq<Json>, name: string)
    decreases |items|
  {
    items == [] ||
    if Wants(items[0], name) then
      var amount := Atol(ReadItem(items[0]).amount);
      bal >= amount && Affords(Round6(bal - amount), items[1..], name)
    else Affords(bal, items[1..], name)
  }

  /** Every item is readable and names a token that the sender holds or holds no longer. */
  ghost predicate Known(tokens: seq<Json>, items: seq<Json>, from: string) {
    forall i :: 0 <= i < |items| ==>
      var r := ReadItem(items[i]);
      r.Wanted? && (Holding(tokens, 0, r.name, from).Held? || Foreign(tokens, 0, r.name, from))
  }

  ghost predicate Pays(tokens: seq<Json>, items: seq<Json>, from: string, name: string) {
    var h := Holding(tokens, 0, name, from);
    h.Held? && Affords(h.bal, items, name) && (h.nft ==> Count(items, name) <= 1)
  }

  /** What a sender can look up before the transfer: every name is held, affordable, and an NFT asked for once. */
  ghost predicate CanPay(tokens: seq<Json>, items: seq<Json>, from: string) {
    forall i :: 0 <= i < |items| ==>
      ReadItem(items[i]).Wanted? && Pays(tokens, items, from, ReadItem(items[i]).name)
  }

  lemma {:induction false} AbsentIsFree(bal: int, items: seq<Json>, name: string)
    requires Count(items, name) == 0
    ensures Affords(bal, items, name)
    decreases |items|
  {
    if items != [] {
      AbsentIsFree(bal, items[1..], name);
    }
  }

  lemma {:induction false} CountPositive(items: seq<Json>, i: nat, name: string)
    requires i < |items| && Wants(items[i], name)
    ensures Count(items, name) >= 1
    decreases i
  {
    if i > 0 {
      assert items[i] == items[1..][i - 1];
      CountPositive(items[1..], i - 1, name);
    }
  }

  lemma {:induction false} Counted(items: seq<Json>, name: string) returns (i: nat)
    requires Count(items, name) >= 1
    ensures i < |items| && Wants(items[i], name)
    decreases |items|
  {
    if Wants(items[0], name) {
      i := 0;
    } else {
      i := Counted(items[1..], name);
      i := i + 1;
    }
  }

  function MoveOf(item: Json, from: string, to: string): (x: Move)
    requires ReadItem(item).Wanted?
    ensures Atol(x.amount) >= 1
  {
    Move(ReadItem(item).name, ReadItem(item).amount, from, to)
  }

  /** After the first item, a name stands with the rest as it stood with the whole request. */
  lemma {:induction false} PaysStep(tokens: seq<Json>, items: seq<Json>, from: string, to: string, name: string)
    requires items != [] && ReadItem(items[0]).Wanted? && Payable(tokens, MoveOf(items[0], from, to))
    ensures var x := MoveOf(items[0], from, to);
            && (name != x.name || Count(items[1..], name) >= 1 ==>
                  (Pays(Left(tokens, x), items[1..], from, name) <==> Pays(tokens, items, from, name)))
            && (name == x.name && Count(items[1..], name) == 0 ==> Pays(tokens, items, from, name))
  {
    hide Holding, Foreign, ReadItem, Round6, Atol, Left;
    var x := MoveOf(items[0], from, to);
    var h := Holding(tokens, 0, x.name, from);
    if name != x.name {
      OthersAfterDebit(tokens, x, name);
    } else {
      SameAfterDebit(tokens, x);
      if Count(items[1..], name) == 0 {
        AbsentIsFree(Round6(h.bal - Atol(x.amount)), items[1..], name);
      }
    }
  }

  lemma {:induction false} KnownStep(tokens: seq<Json>, items: seq<Json>, from: string, to: string)
    requires items != [] && Known(tokens, items, from) && ReadItem(items[0]).Wanted?
    requires Payable(tokens, MoveOf(items[0], from, to))
    ensures Known(Left(tokens, MoveOf(items[0], from, to)), items[1..], from)
  {
    hide Holding, Foreign, ReadItem, Left, Payable;
    var x := MoveOf(items[0], from, to);
    SameAfterDebit(tokens, x);
    forall i | 0 <= i < |items[1..]|
      ensures var r := ReadItem(items[1..][i]);
              && r.Wanted?
              && (Holding(Left(tokens, x), 0, r.name, from).Held? || Foreign(Left(tokens, x), 0, r.name, from))
    {
      assert items[1..][i] == items[i + 1];
      var r := ReadItem(items[i + 1]);
      if r.name != x.name {
        OthersAfterDebit(tokens, x, r.name);
      }
    }
  }

  lemma {:induction false} CanPayStep(tokens: seq<Json>, items: seq<Json>, from: string, to: string)
    requires items != [] && ReadItem(items[0]).Wanted? && Payable(tokens, MoveOf(items[0], from, to))
    ensures CanPay(Left(tokens, MoveOf(items[0], from, to)), items[1..], from) <==> CanPay(tokens, items, from)
  {
    hide Pays, Payable, ReadItem, Left;
    var x, rest := MoveOf(items[0], from, to), items[1..];
    var left := Left(tokens, x);
    if CanPay(left, rest, from) {
      forall i | 0 <= i < |items|
        ensures ReadItem(items[i]).Wanted? && Pays(tokens, items, from, ReadItem(items[i]).name)
      {
        assert i > 0 ==> items[i] == rest[i - 1];
        var name := ReadItem(items[i]).name;
        PaysStep(tokens, items, from, to, name);
        if i > 0 {
          CountPositive(rest, i - 1, name);
        } else if Count(rest, name) >= 1 {
          var k := Counted(rest, name);
          assert ReadItem(rest[k]).name == name;
        }
      }
    }
    if CanPay(tokens, items, from) {
      forall i | 0 <= i < |rest|
        ensures ReadItem(rest[i]).Wanted? && Pays(left, rest, from, ReadItem(rest[i]).name)
      {
        assert rest[i] == items[i + 1];
        var name := ReadItem(rest[i]).name;
        PaysStep(tokens, items, from, to, name);
        CountPositive(rest, i, name);
      }
    }
  }

  lemma {:induction false} UnpayableIsStuck(src: seq<Json>, dst: seq<Json>, items: seq<Json>, from: string, to: string)
    requires from != to && items != [] && Known(src, items, from) && ReadItem(items[0]).Wanted?
    requires !Payable(src, MoveOf(items[0], from, to))
    ensures MoveAll(src, dst, items, from, to).Stuck?
    ensures !Pays(src, items, from, ReadItem(items[0]).name)
  {
    hide Holding, Foreign, ReadItem, Left;
    var x := MoveOf(items[0], from, to);
    if Holding(src, 0, x.name, from).Held? {
      DebitHeld(src, 0, false, x);
    } else {
      ForeignRefused(src, 0, false, x);
    }
  }

  /** A request of known tokens goes through exactly when it can be paid. */
  lemma {:induction false} MovesExactlyWhenPayable(src: seq<Json>, dst: seq<Json>, items: seq<Json>,
                                                   from: string, to: string)
    requires from != to && Known(src, items, from)
    ensures MoveAll(src, dst, items, from, to).Moved? <==> CanPay(src, items, from)
    decreases |items|
  {
    hide ReadItem, Pays, Payable, Settle;
    if items != [] {
      var x := MoveOf(items[0], from, to);
      if !Payable(src, x) {
        UnpayableIsStuck(src, dst, items, from, to);
      } else {
        var one := OneMoves(src, dst, items[0], from, to);
        KnownStep(src, items, from, to);
        CanPayStep(src, items, from, to);
        MovesExactlyWhenPayable(Left(src, x), one.dst, items[1..], from, to);
      }
    }
  }

  lemma {:induction false} OneMoves(src: seq<Json>, dst: seq<Json>, item: Json, from: string, to: string)
    returns (one: Moved)
    requires ReadItem(item).Wanted? && Payable(src, MoveOf(item, from, to))
    ensures one == MoveOne(src, dst, item, from, to)
    ensures one.Moved? && one.src == Left(src, MoveOf(item, from, to))
  {
    hide ReadItem, Debit, Holding;
    var v := DebitReplaces(src, MoveOf(item, from, to));
    one := MoveOne(src, dst, item, from, to);
  }

  // ----- Checked requests -----

  lemma {:induction false} CheckedItem(tokens: seq<Json>, item: Json, from: string, to: string)
    requires CheckOne(tokens, item, from, to) == 0
    ensures ReadItem(item).Wanted? && CheckHolding(tokens, 0, MoveOf(item, from, to)) == 0
  {
    OneIsOne();
  }

  lemma {:induction false} ChecksAreNeverPositive(tokens: seq<Json>, j: nat, x: Move)
    ensures CheckHolding(tokens, j, x) <= 0
    decreases |tokens| - j
  {
    if j < |tokens| {
      ChecksAreNeverPositive(tokens, j + 1, x);
    }
  }

  lemma {:induction false} OneCheckIsNeverPositive(tokens: seq<Json>, item: Json, from: string, to: string)
    ensures CheckOne(tokens, item, from, to) <= 0
  {
    hide CheckHolding;
    forall x ensures CheckHolding(tokens, 0, x) <= 0 {
      ChecksAreNeverPositive(tokens, 0, x);
    }
  }

  /** A checked item is readable, and what it names is held in that amount. */
  lemma {:induction false} CheckedIsHeld(tokens: seq<Json>, items: seq<Json>, from: string, to: string, i: nat)
    requires CheckAll(tokens, items, from, to) == 0 && i < |items|
    ensures ReadItem(items[i]).Wanted? && Holding(tokens, 0, ReadItem(items[i]).name, from).Held?
    ensures Holding(tokens, 0, ReadItem(items[i]).name, from).bal >= Atol(ReadItem(items[i]).amount)
    decreases i
  {
    hide CheckHolding, Holding, ReadItem, CheckOne;
    OneCheckIsNeverPositive(tokens, items[0], from, to);
    if i == 0 {
      CheckedItem(tokens, items[0], from, to);
      CheckMeansHeld(tokens, 0, MoveOf(items[0], from, to));
    } else {
      assert items[i] == items[1..][i - 1];
      CheckedIsHeld(tokens, items[1..], from, to, i - 1);
    }
  }

  lemma {:induction false} CheckedIsKnown(tokens: seq<Json>, items: seq<Json>, from: string, to: string)
    requires CheckAll(tokens, items, from, to) == 0
    ensures Known(tokens, items, from)
  {
    hide CheckAll, Holding, ReadItem, Foreign;
    forall i | 0 <= i < |items|
      ensures ReadItem(items[i]).Wanted? && Holding(tokens, 0, ReadItem(items[i]).name, from).Held?
    {
      CheckedIsHeld(tokens, items, from, to, i);
    }
  }

  ghost predicate DistinctNames(items: seq<Json>) {
    forall i, j :: 0 <= i < j < |items| ==> TextAtName(items[i]) != TextAtName(items[j])
  }

  function TextAtName(item: Json): Option<string> {
    if item.Object? then TextAt(item.members, "name") else None
  }

  lemma {:induction false} WantsItsName(item: Json, name: string)
    requires Wants(item, name)
    ensures TextAtName(item) == Some(name)
  {
  }

  lemma {:induction false} NotWanted(items: seq<Json>, name: string)
    requires forall i :: 0 <= i < |items| ==> TextAtName(items[i]) != Some(name)
    ensures Count(items, name) == 0
    decreases |items|
  {
    hide Wants, TextAtName;
    if items != [] {
      if Wants(items[0], name) {
        WantsItsName(items[0], name);
      }
      NotWanted(items[1..], name);
    }
  }

  /** A name asked for once is affordable when that one amount is. */
  lemma {:induction false} OnceIsAffordable(bal: int, items: seq<Json>, i: nat, name: string)
    requires DistinctNames(items) && i < |items|
    requires Wants(items[i], name) && bal >= Atol(ReadItem(items[i]).amount)
    ensures Affords(bal, items, name) && Count(items, name) == 1
    decreases |items|
  {
    hide TextAtName, ReadItem, Atol, Round6;
    var rest := items[1..];
    WantsItsName(items[i], name);
    if i == 0 {
      NotWanted(rest, name);
      AbsentIsFree(Round6(bal - Atol(ReadItem(items[0]).amount)), rest, name);
    } else {
      if Wants(items[0], name) {
        WantsItsName(items[0], name);
      }
      assert rest[i - 1] == items[i];
      OnceIsAffordable(bal, rest, i - 1, name);
    }
  }

  /** What the vote-time check accepts, the commit carries out, provided no name repeats in the request. */
  lemma {:induction false} VoteImpliesCommit(from: string, to: string, req: Request, src: Wallet, dst: Wallet)
    requires from != to && CheckValidTokens(from, to, req, src, dst) == 0
    requires DistinctNames(req.items)
    ensures ModifyTokens(from, to, req, src, dst).Moved?
  {
    hide CheckAll, MoveAll, Holding, Affords, Count, ReadItem;
    CheckedIsKnown(src.tokens, req.items, from, to);
    forall i | 0 <= i < |req.items|
      ensures ReadItem(req.items[i]).Wanted? && Pays(src.tokens, req.items, from, ReadItem(req.items[i]).name)
    {
      CheckedIsHeld(src.tokens, req.items, from, to, i);
      var name := ReadItem(req.items[i]).name;
      OnceIsAffordable(Holding(src.tokens, 0, name, from).bal, req.items, i, name);
    }
    MovesExactlyWhenPayable(src.tokens, Opened(dst), req.items, from, to);
  }

  // ----- Which requests pass -----

  /** Record at is the first of that name, and what the sender can pay from: it has a limit and a balance, and an NFT
      names the sender as its owner. Every record before it is an object with another name. */
  predicate PaysFrom(tokens: seq<Json>, at: nat, name: string, from: string) {
    && at < |tokens| && tokens[at].Object?
    && TextAt(tokens[at].members, "name") == Some(name)
    && TextAt(tokens[at].members, "max").Some? && TextAt(tokens[at].members, "bal").Some?
    && (Atol(TextAt(tokens[at].members, "max").value) == 1 ==> TextAt(tokens[at].members, "owner") == Some(from))
    && forall j :: 0 <= j < at ==>
         tokens[j].Object? && TextAt(tokens[j].members, "name").Some?
         && TextAt(tokens[j].members, "name").value != name
  }

  lemma {:induction false} HoldingIsFirst(tokens: seq<Json>, j: nat, name: string, from: string)
    requires j <= |tokens|
    requires forall i :: 0 <= i < j ==> tokens[i].Object? && TextAt(tokens[i].members, "name").Some?
                                        && TextAt(tokens[i].members, "name").value != name
    ensures var h := Holding(tokens, j, name, from);
            && (h.Held? ==> PaysFrom(tokens, h.at, name, from)
                            && h.bal == Atol(TextAt(tokens[h.at].members, "bal").value)
                            && h.nft == (Atol(TextAt(tokens[h.at].members, "max").value) == 1))
            && (h.NotHeld? ==> forall at: nat :: !PaysFrom(tokens, at, name, from))
    decreases |tokens| - j
  {
    hide TextAt, Atol;
    if j < |tokens| && tokens[j].Object? && TextAt(tokens[j].members, "name").Some?
       && TextAt(tokens[j].members, "name").value != name
    {
      HoldingIsFirst(tokens, j + 1, name, from);
    } else {
      forall at: nat | PaysFrom(tokens, at, name, from) ensures at == j {
      }
    }
  }

  /** What an item asks for: 1 when it names no amount. */
  function AmountOf(m: seq<Member>): string {
    if Find(m, "amount").Some? then GetString(Find(m, "amount").value) else "1"
  }

  /** The item names a token, and a positive amount of at most twenty characters or none, that the sender can pay. */
  ghost predicate AsksForHeld(tokens: seq<Json>, item: Json, from: string) {
    && item.Object?
    && var name, amount := TextAt(item.members, "name"), Find(item.members, "amount");
       && name.Some? && |name.value| <= 128
       && (amount.None? || (amount.value.Text? && |amount.value.text| <= 20 && Atol(amount.value.text) >= 1))
       && exists at: nat :: PaysFrom(tokens, at, name.value, from)
                       && Atol(TextAt(tokens[at].members, "bal").value)
                          >= if amount.None? then 1 else Atol(amount.value.text)
  }

  lemma {:induction false} FirstIsOnly(tokens: seq<Json>, a: nat, b: nat, name: string, from: string)
    requires PaysFrom(tokens, a, name, from) && PaysFrom(tokens, b, name, from)
    ensures a == b
  {
    hide TextAt, Atol;
  }

  lemma {:induction false} OneIsHeld(tokens: seq<Json>, name: string, from: string, amount: string)
    ensures var h := Holding(tokens, 0, name, from);
            (h.Held? && h.bal >= Atol(amount)) <==>
              exists at: nat :: PaysFrom(tokens, at, name, from)
                                && Atol(TextAt(tokens[at].members, "bal").value) >= Atol(amount)
  {
    hide TextAt, Atol, Holding;
    HoldingIsFirst(tokens, 0, name, from);
    var h := Holding(tokens, 0, name, from);
    forall at: nat | PaysFrom(tokens, at, name, from) && h.Held? ensures at == h.at {
      FirstIsOnly(tokens, at, h.at, name, from);
    }
  }

  lemma {:induction false} OnePassesExactlyWhen(tokens: seq<Json>, item: Json, from: string, to: string)
    ensures CheckOne(tokens, item, from, to) == 0 <==> AsksForHeld(tokens, item, from)
  {
    hide Holding, CheckHolding, PaysFrom, Atol, Find;
    OneIsOne();
    if item.Object? && TextAt(item.members, "name").Some? {
      var name, amount := TextAt(item.members, "name").value, AmountOf(item.members);
      OneIsHeld(tokens, name, from, amount);
      CheckMeansHeld(tokens, 0, Move(name, amount, from, to));
    }
  }

  lemma {:induction false} AllPassExactlyWhen(tokens: seq<Json>, items: seq<Json>, from: string, to: string)
    ensures CheckAll(tokens, items, from, to) == 0 <==> forall v :: v in items ==> AsksForHeld(tokens, v, from)
    decreases |items|
  {
    hide CheckOne, AsksForHeld;
    if items != [] {
      OneCheckIsNeverPositive(tokens, items[0], from, to);
      OnePassesExactlyWhen(tokens, items[0], from, to);
      AllPassExactlyWhen(tokens, items[1..], from, to);
      assert items == [items[0]] + items[1..];
    }
  }

  /** The check at vote time passes if and only if the sender's tokens are an array, the receiver's can be read or
      there are none, the request is an array, and each item asks for a token that the sender can pay. */
  lemma {:induction false} CheckPassesExactlyWhen(from: string, to: string, req: Request, src: Wallet, dst: Wallet)
    ensures CheckValidTokens(from, to, req, src, dst) == 0 <==>
              && src.Array? && !dst.Garbled? && req.Elements?
              && forall v :: v in req.items ==> AsksForHeld(src.tokens, v, from)
  {
    hide CheckAll, AsksForHeld;
    if src.Array? && req.Elements? {
      AllPassExactlyWhen(src.tokens, req.items, from, to);
    }
  }

  // ----- Names that repeat -----

  /** Below a million nothing is lost to rounding, and only the sum counts. */
  lemma {:induction false} AffordsTheSum(bal: int, items: seq<Json>, name: string)
    requires bal < EXACT && Count(items, name) >= 1
    ensures Affords(bal, items, name) <==> Requested(items, name) <= bal
    decreases |items|
  {
    hide ReadItem, Round6, Atol;
    var rest := items[1..];
    if Wants(items[0], name) {
      var amount := Atol(ReadItem(items[0]).amount);
      WantedIsPositive(items[0]);
      if bal >= amount {
        RoundExact(bal - amount);
        if Count(rest, name) >= 1 {
          AffordsTheSum(bal - amount, rest, name);
        } else {
          NothingRequested(rest, name);
          AbsentIsFree(bal - amount, rest, name);
        }
      } else {
        assert Requested(rest, name) >= 0;
      }
    } else {
      AffordsTheSum(bal, rest, name);
    }
  }

  lemma {:induction false} WantedIsPositive(item: Json)
    requires ReadItem(item).Wanted?
    ensures Atol(ReadItem(item).amount) >= 1
  {
  }

  lemma {:induction false} NothingRequested(items: seq<Json>, name: string)
    requires Count(items, name) == 0
    ensures Requested(items, name) == 0
    decreases |items|
  {
    if items != [] {
      NothingRequested(items[1..], name);
    }
  }

  /** With names repeating, a checked request goes through exactly when for each name the whole request stays
      within the balance and an NFT is asked for once (balances below a million). */
  lemma {:induction false} RepeatedNamesGoThroughExactlyWhen(from: string, to: string, req: Request,
                                                             src: Wallet, dst: Wallet)
    requires from != to && CheckValidTokens(from, to, req, src, dst) == 0
    requires forall i :: 0 <= i < |req.items| ==>
               ReadItem(req.items[i]).Wanted? ==>
               Holding(src.tokens, 0, ReadItem(req.items[i]).name, from).Held? ==>
               Holding(src.tokens, 0, ReadItem(req.items[i]).name, from).bal < EXACT
    ensures ModifyTokens(from, to, req, src, dst).Moved? <==>
              forall i :: 0 <= i < |req.items| ==>
                var r := ReadItem(req.items[i]);
                && r.Wanted?
                && var h := Holding(src.tokens, 0, r.name, from);
                   && h.Held? && Requested(req.items, r.name) <= h.bal
                   && (h.nft ==> Count(req.items, r.name) == 1)
  {
    hide CheckAll, MoveAll, Holding, Affords, Count, ReadItem, Requested;
    CheckedIsKnown(src.tokens, req.items, from, to);
    MovesExactlyWhenPayable(src.tokens, Opened(dst), req.items, from, to);
    forall i | 0 <= i < |req.items|
      ensures ReadItem(req.items[i]).Wanted?
      ensures var name := ReadItem(req.items[i]).name;
              var h := Holding(src.tokens, 0, name, from);
              && h.Held? && Count(req.items, name) >= 1
              && (Affords(h.bal, req.items, name) <==> Requested(req.items, name) <= h.bal)
    {
      CheckedIsHeld(src.tokens, req.items, from, to, i);
      var name := ReadItem(req.items[i]).name;
      CountPositive(req.items, i, name);
      AffordsTheSum(Holding(src.tokens, 0, name, from).bal, req.items, name);
    }
  }

  function Five(): Json {
    Object([Member("name", Text("a")), Member("max", Text("9")), Member("bal", Text("5"))])
  }

  function Three(): Json {
    Object([Member("name", Text("a")), Member("amount", Text("3"))])
  }

  lemma {:induction false} ThreeOfFive()
    ensures ReadItem(Three()) == Wanted("a", "3") && Atol("3") == 3
    ensures Holding([Five()], 0, "a", "u") == Held(0, 5, false)
    ensures CheckOne([Five()], Three(), "u", "v") == 0
  {
    Digit(9, "9");
    Digit(5, "5");
    Digit(3, "3");
    hide Atol;
    var m := Five().members;
    assert m[1..] == [m[1], m[2]] && m[1..][1..] == [m[2]];
    var i := Three().members;
    assert i[1..] == [i[1]];
    assert TextAt(m, "name") == Some("a") && TextAt(m, "max") == Some("9") && TextAt(m, "bal") == Some("5");
    CheckMeansHeld([Five()], 0, Move("a", "3", "u", "v"));
  }

  /** A request that names one token twice passes the check item by item and still fails: five tokens do not
      pay three twice. */
  lemma {:induction false} RepeatedNameFails()
    ensures var req, src := Elements([Three(), Three()]), Array([Five()]);
            && CheckValidTokens("u", "v", req, src, Blank) == 0
            && ModifyTokens("u", "v", req, src, Blank) == Stuck(-50)
  {
    hide Five, Three, ReadItem, Holding, Atol, CheckOne, Round6;
    var src, items := [Five()], [Three(), Three()];
    ThreeOfFive();
    assert items[1..] == [Three()] && [Three()][1..] == [];
    RoundExact(2);
    var x := Move("a", "3", "u", "v");
    SameAfterDebit(src, x);
    var one := OneMoves(src, [], Three(), "u", "v");
    DebitHeld(Left(src, x), 0, false, x);
    assert MoveOne(Left(src, x), one.dst, Three(), "u", "v") == Stuck(-50);
    assert MoveAll(Left(src, x), one.dst, [Three()], "u", "v") == Stuck(-50);
    assert CheckAll(src, [Three()], "u", "v") == 0;
  }

  lemma {:induction false} Digit(n: nat, s: string)
    requires n < 10 && s == Decimal(n)
    ensures Atol(s) == n
  {
    AtolOfDecimal(n, "");
    assert s + "" == s;
  }
}
