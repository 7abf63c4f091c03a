/** Token documents and transfers (src/blockmgr.cc): what modifyTokens and checkValidTokens compute.

    A JSON object is the list of its members, so a key may repeat and a search finds the first. Amounts are
    whole numbers written in digits. */
module Tokens {
  import opened Rounding
  import opened Text
  import opened Wrappers

  const OM_TOKEN_MAX_LEN := 128
  const OM_NUM_MAXSZ := 20

  datatype Value = Text(text: string) | Other

  datatype Member = Member(key: string, value: Value)

  datatype Json = NotObject | Object(members: seq<Member>)

  /** A request text as parsed. */
  datatype Request = Invalid | NotArray | Elements(items: seq<Json>)

  /** The tokens of an account: none yet, a text that no longer parses, or an array. */
  datatype Wallet = Blank | Garbled | Array(tokens: seq<Json>)

  // ----- Members -----

  function Find(m: seq<Member>, key: string): Option<Value> {
    if m == [] then None
    else if m[0].key == key then Some(m[0].value)
    else Find(m[1..], key)
  }

  function GetString(v: Value): string {
    if v.Text? then v.text else ""
  }

  /** SetString on the first member of that key. */
  function SetFirst(m: seq<Member>, key: string, text: string): (r: seq<Member>)
    ensures |r| == |m|
  {
    if m == [] then []
    else if m[0].key == key then [Member(key, Text(text))] + m[1..]
    else [m[0]] + SetFirst(m[1..], key, text)
  }

  /** The first member of that key as text. */
  function TextAt(m: seq<Member>, key: string): Option<string> {
    match Find(m, key)
    case None => None
    case Some(v) => Some(GetString(v))
  }

  /** sprintf "%.6g" of a whole number. From a million up the program writes an exponent; here the same
      number is written out. */
  function Show(n: int): string {
    if n < 0 then "-" + Decimal(Round6(-n)) else Decimal(Round6(n))
  }

  // ----- One requested item -----

  /** A request item, read: skipped when its amount is too long, else who gets how much of what. */
  datatype Item = Fail(rc: int) | Skip | Wanted(name: string, amount: string)

  function ReadItem(item: Json): (r: Item)
    ensures r.Wanted? ==> Atol(r.amount) >= 1
  {
    if item.NotObject? then Fail(-41)
    else
      var name := TextAt(item.members, "name");
      if name.None? then Fail(-42)
      else if |name.value| > OM_TOKEN_MAX_LEN then Fail(-44)
      else
        match Find(item.members, "amount")
        case None => assert Atol("1") == 1 by { OneIsOne(); } Wanted(name.value, "1")
        case Some(Other) => Fail(-46)
        case Some(Text(amount)) =>
          if |amount| > OM_NUM_MAXSZ then Skip
          else if Atol(amount) <= 0 then Fail(-45)
          else Wanted(name.value, amount)
  }

  lemma {:induction false} OneIsOne()
    ensures Atol("1") == 1
  {
    AtolOfDecimal(1, "");
    assert Decimal(1) + "" == "1";
  }

  /** One item on its way: what is moved, from whom, to whom. */
  datatype Move = Move(name: string, amount: string, src: string, dst: string)

  predicate Named(v: Json, name: string) {
    v.Object? && TextAt(v.members, "name") == Some(name)
  }

  predicate IsNFT(m: seq<Member>) {
    var max := TextAt(m, "max");
    max.Some? && Atol(max.value) == 1
  }

  /** What the search for the sender's record ends with. */
  datatype Debited = Refused(rc: int) | Done(tokens: seq<Json>, nft: bool)

  /** The loop over the sender's tokens, from position j on. An NFT changes its owner even in a record that
      has no balance; the search then goes on. */
  function Debit(tokens: seq<Json>, j: nat, nft: bool, x: Move): (r: Debited)
    ensures r.Done? ==> |r.tokens| == |tokens|
    decreases |tokens| - j
  {
    if j >= |tokens| then Refused(-55)
    else if tokens[j].NotObject? then Refused(-70)
    else
      var m := tokens[j].members;
      var name, max, owner := TextAt(m, "name"), TextAt(m, "max"), TextAt(m, "owner");
      if name.None? then Refused(-70)
      else if name.value != x.name then Debit(tokens, j + 1, nft, x)
      else if max.None? then Refused(-70)
      else if IsNFT(m) && owner != Some(x.src) then Refused(-81)
      else
        var owned := if IsNFT(m) then SetFirst(m, "owner", x.dst) else m;
        var bal := TextAt(owned, "bal");
        if bal.None? then Debit(tokens[j := Object(owned)], j + 1, nft || IsNFT(m), x)
        else if Atol(bal.value) < Atol(x.amount) then Refused(-50)
        else
          var left := Show(Atol(bal.value) - Atol(x.amount));
          Done(tokens[j := Object(SetFirst(owned, "bal", left))], nft || IsNFT(m))
  }

  predicate TakesCredit(v: Json, name: string) {
    Named(v, name) && Find(v.members, "bal").Some?
  }

  function Credited(m: seq<Member>, nft: bool, x: Move): seq<Member>
    requires TakesCredit(Object(m), x.name)
  {
    if nft then SetFirst(SetFirst(m, "bal", "1"), "owner", x.dst)
    else SetFirst(m, "bal", Show(Atol(TextAt(m, "bal").value) + Atol(x.amount)))
  }

  /** The loop over the receiver's tokens; None when no record takes the credit. */
  function Credit(tokens: seq<Json>, j: nat, nft: bool, x: Move): Option<seq<Json>>
    decreases |tokens| - j
  {
    if j >= |tokens| then None
    else if TakesCredit(tokens[j], x.name) then
      Some(tokens[j := Object(Credited(tokens[j].members, nft, x))])
    else Credit(tokens, j + 1, nft, x)
  }

  /** A copy of the sender's record, its balance replaced by the amount as it was written. */
  function Copy(m: seq<Member>, amount: string): (r: seq<Member>)
    ensures |r| == |m|
  {
    if m == [] then []
    else
      var text := if m[0].key == "bal" then amount else GetString(m[0].value);
      [Member(m[0].key, Text(text))] + Copy(m[1..], amount)
  }

  /** The first record of that name; a debit has already passed over every record before it. */
  function FirstNamed(tokens: seq<Json>, name: string): Option<Json> {
    if tokens == [] then None
    else if Named(tokens[0], name) then Some(tokens[0])
    else FirstNamed(tokens[1..], name)
  }

  // ----- The whole request -----

  datatype Moved = Stuck(rc: int) | Moved(src: seq<Json>, dst: seq<Json>)

  function Settle(src: seq<Json>, dst: seq<Json>, nft: bool, x: Move): Moved {
    match Credit(dst, 0, nft, x)
    case Some(credited) => Moved(src, credited)
    case None =>
      match FirstNamed(src, x.name)
      case Some(Object(m)) => Moved(src, dst + [Object(Copy(m, x.amount))])
      case _ => Moved(src, dst)
  }

  function MoveOne(src: seq<Json>, dst: seq<Json>, item: Json, from: string, to: string): Moved {
    match ReadItem(item)
    case Fail(rc) => Stuck(rc)
    case Skip => Moved(src, dst)
    case Wanted(name, amount) =>
      var x := Move(name, amount, from, to);
      match Debit(src, 0, false, x)
      case Refused(rc) => Stuck(rc)
      case Done(left, nft) => Settle(left, dst, nft, x)
  }

  function MoveAll(src: seq<Json>, dst: seq<Json>, items: seq<Json>, from: string, to: string): Moved
    decreases |items|
  {
    if items == [] then Moved(src, dst)
    else
      match MoveOne(src, dst, items[0], from, to)
      case Stuck(rc) => Stuck(rc)
      case Moved(s, d) => MoveAll(s, d, items[1..], from, to)
  }

  function Opened(to: Wallet): seq<Json> {
    if to.Array? then to.tokens else []
  }

  /** modifyTokens: both documents, or the code of the first thing that went wrong. */
  function ModifyTokens(from: string, to: string, req: Request, src: Wallet, dst: Wallet): Moved {
    if !src.Array? then Stuck(-10)
    else if dst.Garbled? then Stuck(-20)
    else if req.Invalid? then Stuck(-30)
    else if req.NotArray? then Stuck(-40)
    else MoveAll(src.tokens, Opened(dst), req.items, from, to)
  }

  // ----- The check at vote time -----

  function CheckHolding(tokens: seq<Json>, j: nat, x: Move): int
    decreases |tokens| - j
  {
    if j >= |tokens| then -55
    else if tokens[j].NotObject? then -55
    else
      var m := tokens[j].members;
      var name, max, owner, bal := TextAt(m, "name"), TextAt(m, "max"), TextAt(m, "owner"), TextAt(m, "bal");
      if name.None? then -60
      else if name.value != x.name then CheckHolding(tokens, j + 1, x)
      else if max.None? then -61
      else if IsNFT(m) && owner.None? then -71
      else if IsNFT(m) && owner.value != x.src then -73
      else if bal.None? then -65
      else if Atol(bal.value) < Atol(x.amount) then -50
      else 0
  }

  function CheckOne(tokens: seq<Json>, item: Json, from: string, to: string): int {
    if item.NotObject? then -35
    else
      var name := TextAt(item.members, "name");
      if name.None? then -45
      else if |name.value| > OM_TOKEN_MAX_LEN then -46
      else
        match Find(item.members, "amount")
        case None => CheckHolding(tokens, 0, Move(name.value, "1", from, to))
        case Some(Other) => -46
        case Some(Text(amount)) =>
          if |amount| > OM_NUM_MAXSZ then -57
          else if Atol(amount) <= 0 then -45
          else CheckHolding(tokens, 0, Move(name.value, amount, from, to))
  }

  function CheckAll(tokens: seq<Json>, items: seq<Json>, from: string, to: string): int
    decreases |items|
  {
    if items == [] then 0
    else
      var rc := CheckOne(tokens, items[0], from, to);
      if rc < 0 then rc else CheckAll(tokens, items[1..], from, to)
  }

  /** checkValidTokens: what a leader or follower finds before it votes. */
  function CheckValidTokens(from: string, to: string, req: Request, src: Wallet, dst: Wallet): int {
    if !src.Array? then -10
    else if dst.Garbled? then -20
    else if req.Invalid? then -30
    else if req.NotArray? then -40
    else CheckAll(src.tokens, req.items, from, to)
  }
}
