/** One item of a transfer on its own: what it asks for, the record the debit stops at, and the record that takes the
    credit. */
module TokenSteps {
  import opened Text
  import opened Tokens
  import opened TokenChecks
  import opened Wrappers

  /** A search finds the first member of a key, and a change touches no other. */
  lemma {:induction false} FirstMember(m: seq<Member>, key: string, text: string) returns (i: nat)
    ensures i <= |m| && forall j :: 0 <= j < i ==> m[j].key != key
    ensures if i == |m| then Find(m, key) == None && SetFirst(m, key, text) == m
            else m[i].key == key && Find(m, key) == Some(m[i].value)
                 && SetFirst(m, key, text) == m[i := Member(key, Text(text))]
    decreases |m|
  {
    i := 0;
    if m != [] && m[0].key != key {
      var k := FirstMember(m[1..], key, text);
      i := k + 1;
      assert m == [m[0]] + m[1..];
    }
  }

  /** A copy has the same keys in the same order; every value becomes a text, and each balance the amount. */
  lemma {:induction false} CopyIs(m: seq<Member>, amount: string)
    ensures |Copy(m, amount)| == |m|
    ensures forall i :: 0 <= i < |m| ==>
              Copy(m, amount)[i] == Member(m[i].key, Text(if m[i].key == "bal" then amount
                                                           else if m[i].value.Text? then m[i].value.text else ""))
    decreases |m|
  {
    if m != [] {
      CopyIs(m[1..], amount);
    }
  }

  /** An item is wanted, passed over for the length of its amount, or refused, by its first name and amount members. */
  lemma {:induction false} ItemReadsAs(item: Json)
    ensures item.NotObject? ==> ReadItem(item) == Fail(-41)
    ensures item.Object? ==>
              var name, amount := TextAt(item.members, "name"), Find(item.members, "amount");
              && (name.None? ==> ReadItem(item) == Fail(-42))
              && (name.Some? && |name.value| > 128 ==> ReadItem(item) == Fail(-44))
              && (name.Some? && |name.value| <= 128 ==>
                    match amount
                    case None => ReadItem(item) == Wanted(name.value, "1")
                    case Some(Other) => ReadItem(item) == Fail(-46)
                    case Some(Text(a)) =>
                      && (ReadItem(item) == Skip <==> |a| > 20)
                      && (ReadItem(item) == Fail(-45) <==> |a| <= 20 && Atol(a) <= 0)
                      && (ReadItem(item) == Wanted(name.value, a) <==> |a| <= 20 && Atol(a) >= 1))
  {
    hide Atol, Find;
  }

  /** An item whose amount is longer than twenty characters is passed over: it moves nothing and refuses nothing. */
  lemma {:induction false} LongAmountIsPassedOver(src: seq<Json>, dst: seq<Json>, item: Json, items: seq<Json>,
                                                  from: string, to: string)
    requires item.Object? && TextAt(item.members, "name").Some? && |TextAt(item.members, "name").value| <= 128
    requires Find(item.members, "amount").Some? && Find(item.members, "amount").value.Text?
    requires |Find(item.members, "amount").value.text| > 20
    ensures MoveAll(src, dst, [item] + items, from, to) == MoveAll(src, dst, items, from, to)
  {
    hide Atol, Find;
    assert ([item] + items)[1..] == items;
  }

  // ----- The sender -----

  /** The debit goes on past an object with a name when the name is another, or when the record has a limit but no
      balance and is not an NFT of somebody else. */
  predicate PassedOver(v: Json, x: Move) {
    && v.Object?
    && var name, max := TextAt(v.members, "name"), TextAt(v.members, "max");
       && name.Some?
       && (name.value == x.name ==>
             && max.Some? && TextAt(v.members, "bal").None?
             && (Atol(max.value) == 1 ==> TextAt(v.members, "owner") == Some(x.src)))
  }

  /** A record of that name that is an NFT. */
  predicate NFTOf(v: Json, x: Move) {
    && v.Object? && TextAt(v.members, "name") == Some(x.name)
    && TextAt(v.members, "max").Some? && Atol(TextAt(v.members, "max").value) == 1
  }

  /** A record as the debit leaves it when it goes on: an NFT of that name has changed hands. */
  function Handed(v: Json, x: Move): Json {
    if NFTOf(v, x) then Object(SetFirst(v.members, "owner", x.dst)) else v
  }

  /** What the debit does at the record it stops at. */
  predicate StopsAt(tokens: seq<Json>, at: nat, nft: bool, x: Move, d: Debited)
    requires at < |tokens|
  {
    if tokens[at].NotObject? then d == Refused(-70)
    else
      var m := tokens[at].members;
      var max, owner, bal := TextAt(m, "max"), TextAt(m, "owner"), TextAt(m, "bal");
      if TextAt(m, "name").None? || max.None? then d == Refused(-70)
      else if Atol(max.value) == 1 && owner != Some(x.src) then d == Refused(-81)
      else
        && bal.Some?
        && if Atol(bal.value) < Atol(x.amount) then d == Refused(-50)
           else
             var left := Show(Atol(bal.value) - Atol(x.amount));
             && d.Done? && |d.tokens| == |tokens|
             && d.nft == (nft || Atol(max.value) == 1)
             && d.tokens[at] == Object(SetFirst(Handed(tokens[at], x).members, "bal", left))
             && d.tokens[at + 1..] == tokens[at + 1..]
  }

  lemma {:induction false} DebitAt(tokens: seq<Json>, j: nat, nft: bool, x: Move)
    requires j < |tokens| && !PassedOver(tokens[j], x)
    ensures StopsAt(tokens, j, nft, x, Debit(tokens, j, nft, x))
    ensures Debit(tokens, j, nft, x).Done? ==> Debit(tokens, j, nft, x).tokens[..j] == tokens[..j]
  {
    hide Atol, Find, Show, SetFirst;
    if tokens[j].Object? {
      TextAfterSet(tokens[j].members, "owner", x.dst, "bal");
    }
  }

  lemma {:induction false} DebitPast(tokens: seq<Json>, j: nat, nft: bool, x: Move)
    requires j < |tokens| && PassedOver(tokens[j], x)
    ensures Debit(tokens, j, nft, x) == Debit(tokens[j := Handed(tokens[j], x)], j + 1, nft || NFTOf(tokens[j], x), x)
  {
    hide Atol, Find, Show, SetFirst;
    TextAfterSet(tokens[j].members, "owner", x.dst, "bal");
    assert tokens[j := tokens[j]] == tokens;
  }

  /** The first k records are as the debit leaves them. */
  ghost predicate HandedUpTo(was: seq<Json>, now: seq<Json>, j: nat, k: nat, x: Move) {
    && j <= k <= |was| && |now| == |was|
    && (forall i :: 0 <= i < j ==> now[i] == was[i])
    && forall i :: j <= i < k ==> now[i] == Handed(was[i], x)
  }

  /** The debit stops at the first record it does not pass over, -55 when there is none; NFTs of that name before it
      change hands all the same, and no record behind it changes. */
  lemma {:induction false} DebitStopsAtFirst(tokens: seq<Json>, j: nat, nft: bool, x: Move) returns (at: nat)
    requires j <= |tokens|
    ensures j <= at <= |tokens| && forall i :: j <= i < at ==> PassedOver(tokens[i], x)
    ensures var d := Debit(tokens, j, nft, x);
            if at == |tokens| then d == Refused(-55)
            else
              && !PassedOver(tokens[at], x)
              && StopsAt(tokens, at, nft || exists i :: j <= i < at && NFTOf(tokens[i], x), x, d)
              && (d.Done? ==> HandedUpTo(tokens, d.tokens, j, at, x))
    decreases |tokens| - j
  {
    hide PassedOver, NFTOf, Handed, StopsAt;
    at := j;
    if j < |tokens| {
      if PassedOver(tokens[j], x) {
        var next := tokens[j := Handed(tokens[j], x)];
        DebitPast(tokens, j, nft, x);
        at := DebitStopsAtFirst(next, j + 1, nft || NFTOf(tokens[j], x), x);
        StopsAlike(tokens, next, j, at, nft, x);
      } else {
        DebitAt(tokens, j, nft, x);
      }
    }
  }

  lemma {:induction false} StopIsLocal(a: seq<Json>, b: seq<Json>, at: nat, nft: bool, x: Move, d: Debited)
    requires |a| == |b| && at < |a| && a[at] == b[at] && a[at + 1..] == b[at + 1..]
    ensures StopsAt(a, at, nft, x, d) <==> StopsAt(b, at, nft, x, d)
  {
    hide TextAt, Atol, Show, SetFirst, Handed;
  }

  /** What stands at and behind the stop is the same in both. */
  lemma {:induction false} StopsAlike(tokens: seq<Json>, next: seq<Json>, j: nat, at: nat, nft: bool, x: Move)
    requires j < at <= |tokens| && next == tokens[j := Handed(tokens[j], x)]
    requires forall i :: j + 1 <= i < at ==> PassedOver(next[i], x)
    ensures forall i :: j + 1 <= i < at ==> PassedOver(tokens[i], x)
    ensures at < |tokens| ==>
              var d := Debit(tokens, j, nft, x);
              var seen := exists i :: j <= i < at && NFTOf(tokens[i], x);
              var seen1 := exists i :: j + 1 <= i < at && NFTOf(next[i], x);
              && (NFTOf(tokens[j], x) || seen1 <==> seen)
              && (StopsAt(next, at, nft || seen, x, d) <==> StopsAt(tokens, at, nft || seen, x, d))
              && (d.Done? && HandedUpTo(next, d.tokens, j + 1, at, x) ==> HandedUpTo(tokens, d.tokens, j, at, x))
  {
    hide PassedOver, NFTOf, Handed, Debit, StopsAt;
    forall i | j + 1 <= i < at ensures PassedOver(tokens[i], x) && (NFTOf(next[i], x) <==> NFTOf(tokens[i], x)) {
      assert next[i] == tokens[i];
    }
    if at < |tokens| {
      assert next[at] == tokens[at] && next[at + 1..] == tokens[at + 1..];
      var d := Debit(tokens, j, nft, x);
      var seen := exists i :: j <= i < at && NFTOf(tokens[i], x);
      StopIsLocal(next, tokens, at, nft || seen, x, d);
      if d.Done? && HandedUpTo(next, d.tokens, j + 1, at, x) {
        assert d.tokens[j] == next[j];
      }
    }
  }

  // ----- The receiver -----

  /** An object of that name with a balance. */
  predicate CanTake(v: Json, name: string) {
    v.Object? && TextAt(v.members, "name") == Some(name) && TextAt(v.members, "bal").Some?
  }

  /** The credit goes to the first record of the name with a balance, whose owner and balance it sets for an NFT and
      whose balance it raises otherwise; no other record changes. */
  lemma {:induction false} CreditGoesToFirst(tokens: seq<Json>, j: nat, nft: bool, x: Move) returns (at: nat)
    requires j <= |tokens|
    ensures j <= at <= |tokens| && forall i :: j <= i < at ==> !CanTake(tokens[i], x.name)
    ensures var c := Credit(tokens, j, nft, x);
            if at == |tokens| then c == None
            else
              && CanTake(tokens[at], x.name) && c.Some? && |c.value| == |tokens|
              && c.value == tokens[at := c.value[at]] && c.value[at].Object?
              && var was, now := tokens[at].members, c.value[at].members;
                 && TextAt(now, "name") == TextAt(was, "name") && TextAt(now, "max") == TextAt(was, "max")
                 && TextAt(now, "bal") == Some(if nft then "1"
                                               else Show(Atol(TextAt(was, "bal").value) + Atol(x.amount)))
                 && TextAt(now, "owner") == (if nft && TextAt(was, "owner").Some? then Some(x.dst)
                                             else TextAt(was, "owner"))
    decreases |tokens| - j
  {
    hide Find, SetFirst, Show, Atol;
    at := j;
    if j < |tokens| {
      if TakesCredit(tokens[j], x.name) {
        var m := tokens[j].members;
        CreditedMembers(m, nft, x);
        assert TextAt(m, "bal").Some?;
      } else {
        at := CreditGoesToFirst(tokens, j + 1, nft, x);
      }
    }
  }

  lemma {:induction false} CreditedMembers(m: seq<Member>, nft: bool, x: Move)
    requires TakesCredit(Object(m), x.name)
    ensures var now := Credited(m, nft, x);
            && TextAt(now, "name") == TextAt(m, "name") && TextAt(now, "max") == TextAt(m, "max")
            && TextAt(now, "bal") == Some(if nft then "1" else Show(Atol(TextAt(m, "bal").value) + Atol(x.amount)))
            && TextAt(now, "owner") == (if nft && TextAt(m, "owner").Some? then Some(x.dst) else TextAt(m, "owner"))
  {
    hide SetFirst, Show, Atol, Find;
    var text := if nft then "1" else Show(Atol(TextAt(m, "bal").value) + Atol(x.amount));
    var b := SetFirst(m, "bal", text);
    TextAfterSet(m, "bal", text, "name");
    TextAfterSet(m, "bal", text, "max");
    TextAfterSet(m, "bal", text, "bal");
    TextAfterSet(m, "bal", text, "owner");
    TextAfterSet(b, "owner", x.dst, "name");
    TextAfterSet(b, "owner", x.dst, "max");
    TextAfterSet(b, "owner", x.dst, "bal");
    TextAfterSet(b, "owner", x.dst, "owner");
  }
}
