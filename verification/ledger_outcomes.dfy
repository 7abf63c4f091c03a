/** Which transactions go through, and what the others are answered. */
module LedgerOutcomes {
  import opened Accounts
  import opened JsonTexts
  import opened Ledgers
  import opened LedgerTokens
  import opened Text
  import opened TextSplices
  import opened Tokens
  import opened TokenChecks
  import opened TokenVotes
  import opened Trxns
  import opened WalletTexts
  import opened Wrappers

  /** A transaction is a payment, the opening of an account, a mint or a token transfer by its one-letter type.
      Anything else is refused. */
  lemma {:induction false} TypeDecides(host: Host, book: Book, t: Trxn)
    ensures t.trxntype == "P" ==> Apply(host, book, t) == Pay(book, t.sender, t.receiver, Atol(t.amount))
    ensures t.trxntype == "A" ==>
              Apply(host, book, t) == CreateAcct(book, t.sender, host.acctType(t.request), t.userPubkey)
    ensures t.trxntype == "T" ==> Apply(host, book, t) == CreateToken(host, book, t)
    ensures t.trxntype == "X" ==> Apply(host, book, t) == TransferToken(host, book, t)
    ensures t.trxntype !in ["P", "A", "T", "X"] ==> Apply(host, book, t) == Outcome(-1000, book)
  {
    hide Pay, CreateAcct, CreateToken, TransferToken, Atol;
  }

  // ----- Mints -----

  /** An element that can be minted: an object with a name of 1 to 128 characters and a limit of 1 to 20. */
  predicate CanBeMinted(v: Json) {
    && v.Object?
    && var name, max := TextAt(v.members, "name"), TextAt(v.members, "max");
       name.Some? && 1 <= |name.value| <= 128 && max.Some? && 1 <= |max.value| <= 20
  }

  /** A limit of 1, as an int: an NFT. */
  predicate OneOfAKind(v: Json) {
    v.Object? && TextAt(v.members, "max").Some? && Atoi(TextAt(v.members, "max").value) == 1
  }

  /** What is minted of an element: an NFT gets its owner, anything else is left as it was sent. */
  predicate MintedFrom(v: Json, m: Json, from: string) {
    if OneOfAKind(v) then
      && m.Object? && |m.members| == |v.members| + 1 && TextAt(m.members, "owner") == Some(from)
      && OtherMembersStay(v.members, m.members)
    else m == v
  }

  predicate OtherMembersStay(was: seq<Member>, now: seq<Member>) {
    && |was| <= |now|
    && forall i :: 0 <= i < |was| ==> now[i].key == was[i].key && (was[i].key != "owner" ==> now[i] == was[i])
  }

  lemma {:induction false} SetKeepsOthers(m: seq<Member>, text: string)
    ensures OtherMembersStay(m, SetFirst(m, "owner", text))
    decreases |m|
  {
    if m != [] {
      SetKeepsOthers(m[1..], text);
      var r := SetFirst(m, "owner", text);
      if m[0].key != "owner" {
        forall i | 0 <= i < |m| ensures r[i].key == m[i].key && (m[i].key != "owner" ==> r[i] == m[i]) {
          assert i > 0 ==> m[i] == m[1..][i - 1] && r[i] == SetFirst(m[1..], "owner", text)[i - 1];
        }
      }
    }
  }

  lemma {:induction false} OneMint(v: Json, from: string)
    ensures MintOne(v, from).Mint? <==> CanBeMinted(v)
    ensures MintOne(v, from).Mint? ==>
              |MintOne(v, from).items| == 1 && MintedFrom(v, MintOne(v, from).items[0], from)
  {
    hide Find, SetFirst, Atoi;
    if v.Object? {
      OwnerAppended(v.members, from, "owner");
      SetKeepsOthers(v.members + [Member("owner", Text(from))], from);
    }
  }

  /** A request is minted if and only if every element of it can be, and then element by element. */
  lemma {:induction false} MintsElementwise(items: seq<Json>, from: string)
    ensures MintAll(items, from).Mint? <==> forall v :: v in items ==> CanBeMinted(v)
    ensures MintAll(items, from).Mint? ==>
              && |MintAll(items, from).items| == |items|
              && forall i :: 0 <= i < |items| ==> MintedFrom(items[i], MintAll(items, from).items[i], from)
    decreases |items|
  {
    hide CanBeMinted, MintedFrom, MintOne;
    if items != [] {
      OneMint(items[0], from);
      MintsElementwise(items[1..], from);
      assert items == [items[0]] + items[1..];
    }
  }

  /** An int holds the number modulo 2^32; a number beyond a long is cut to the largest or smallest long first. */
  lemma {:induction false} IntOfLong(s: string)
    ensures var v := Atol(s);
            var long := if v > 9223372036854775807 then 9223372036854775807
                        else if v < -9223372036854775808 then -9223372036854775808 else v;
            -2147483648 <= Atoi(s) <= 2147483647 && (long - Atoi(s)) % 4294967296 == 0
  {
    hide Atol;
  }

  /** A mint goes through if and only if the account exists, every element of the request can be minted, and no key of
      the request is among those of the tokens held, if there are any; otherwise nothing changes. */
  lemma {:induction false} MintsExactlyWhen(host: Host, book: Book, t: Trxn)
    requires Laws(host) && t.trxntype == "T"
    ensures var done, req := Apply(host, book, t), ReadJson(host.element, t.request);
            var good := t.sender in book && req.Elements? && forall v :: v in req.items ==> CanBeMinted(v);
            var taken := good && book[t.sender].tokens != "" && host.dup(book[t.sender].tokens, MintedText(host, t));
            && (done.rc == 0 <==> good && !taken)
            && (done.rc == -10 <==> !good)
            && (done.rc == -15 <==> taken)
            && (done.rc != 0 ==> done.book == book)
  {
    hide ReadJson, MintAll, CanBeMinted, AfterBracket, SpliceText, MintedText, Laws, AllObjects;
    var req := ReadJson(host.element, t.request);
    if req.Elements? {
      MintsElementwise(req.items, t.sender);
      if MintAll(req.items, t.sender).Mint? {
        MintedReads(host, t);
        HoldsBracket(host, MintedText(host, t), Minted(host, t));
      }
    }
  }

  /** The request that is stored and logged is the one that was sent, unless it mints an NFT. */
  lemma {:induction false} SentIsStored(host: Host, t: Trxn)
    requires forall v :: v in ItemsOf(host, t) ==> !OneOfAKind(v)
    ensures MintedText(host, t) == t.request
  {
    hide ReadJson, MintAll, Atoi;
    NoneOfAKind(ItemsOf(host, t));
  }

  lemma {:induction false} NoneOfAKind(items: seq<Json>)
    requires forall v :: v in items ==> !OneOfAKind(v)
    ensures !AnyNFT(items)
    decreases |items|
  {
    hide Atoi, TextAt;
    if items != [] {
      assert items[0] in items;
      NoneOfAKind(items[1..]);
    }
  }

  // ----- Transfers and votes -----

  /** Why a token transfer is refused before its items are looked at: 0 when it is not. */
  function RefusedEarly(host: Host, book: Book, t: Trxn): int {
    if t.sender !in book then -10
    else if t.receiver !in book then -20
    else if book[t.sender].tokens == "" then -30
    else if !host.dup(book[t.sender].tokens, t.request) then -40
    else 0
  }

  /** What the two accounts and the request amount to. */
  function Tried(host: Host, book: Book, t: Trxn): Moved
    requires t.sender in book && t.receiver in book
  {
    ModifyTokens(t.sender, t.receiver, ReadJson(host.element, t.request),
                 WalletOf(host, book[t.sender]), WalletOf(host, book[t.receiver]))
  }

  /** A transfer that is not refused early goes through if and only if the items can be moved, and then the two
      accounts hold what was moved; -50 otherwise. */
  lemma {:induction false} TransfersExactlyWhen(host: Host, book: Book, t: Trxn)
    requires t.trxntype == "X" && t.sender != t.receiver
    ensures var done, early := Apply(host, book, t), RefusedEarly(host, book, t);
            if early != 0 then done == Outcome(early, book)
            else if Tried(host, book, t).Stuck? then done == Outcome(-50, book)
            else
              var f, r, m := book[t.sender], book[t.receiver], Tried(host, book, t);
              && done.rc == 0 && done.book.Keys == book.Keys
              && done.book[t.sender] == f.(tokens := Print(host.show, m.src), out := f.out + 1)
              && done.book[t.receiver] == r.(tokens := Print(host.show, m.dst), inn := r.inn + 1)
              && forall u :: u in book && u != t.sender && u != t.receiver ==> done.book[u] == book[u]
  {
    hide ModifyTokens, ReadJson, Print;
  }

  /** A transfer to oneself that is carried out only credits: the record that received is written last. */
  lemma {:induction false} TransferToOneselfCredits(host: Host, book: Book, t: Trxn)
    requires t.trxntype == "X" && t.sender == t.receiver && RefusedEarly(host, book, t) == 0
    ensures var done := Apply(host, book, t);
            if Tried(host, book, t).Stuck? then done == Outcome(-50, book)
            else
              var a := book[t.sender];
              && done.rc == 0
              && var tokens := Print(host.show, Tried(host, book, t).dst);
                 done.book == book[t.sender := a.(tokens := tokens, inn := a.inn + 1)]
  {
    hide ModifyTokens, ReadJson, Print;
  }

  /** A node votes for a transfer if and only if it is not refused early, both wallets and the request can be read,
      and each item asks for a token that the sender can pay; otherwise it answers the early code, or -50. */
  lemma {:induction false} VotesExactlyWhen(host: Host, book: Book, t: Trxn)
    ensures var rc, early := XferTokenValid(host, book, t), RefusedEarly(host, book, t);
            if early != 0 then rc == early
            else
              var req := ReadJson(host.element, t.request);
              var src, dst := WalletOf(host, book[t.sender]), WalletOf(host, book[t.receiver]);
              rc == if src.Array? && !dst.Garbled? && req.Elements?
                       && forall v :: v in req.items ==> AsksForHeld(src.tokens, v, t.sender)
                    then 0 else -50
  {
    hide ReadJson, CheckValidTokens, AsksForHeld, ReadWallet;
    if RefusedEarly(host, book, t) == 0 {
      var req := ReadJson(host.element, t.request);
      var src, dst := WalletOf(host, book[t.sender]), WalletOf(host, book[t.receiver]);
      CheckPassesExactlyWhen(t.sender, t.receiver, req, src, dst);
      CheckIsNeverPositive(t.sender, t.receiver, req, src, dst);
    }
  }

  lemma {:induction false} CheckIsNeverPositive(from: string, to: string, req: Request, src: Wallet, dst: Wallet)
    ensures CheckValidTokens(from, to, req, src, dst) <= 0
  {
    hide CheckAll;
    if src.Array? && req.Elements? {
      ChecksEndAtZero(src.tokens, req.items, from, to);
    }
  }
}
