/** Tokens over every run of transactions: totals of fungible names, and the one holder of an NFT. */
module LedgerTokens {
  import opened Accounts
  import opened Circuits
  import opened JsonTexts
  import opened Ledgers
  import opened LedgerTotals
  import opened Rounding
  import opened Text
  import opened TextSplices
  import opened Tokens
  import opened TokenChecks
  import opened TokenInvariants
  import opened TokenTotals
  import opened TokenVotes
  import opened Trxns
  import opened WalletTexts
  import opened Wrappers

  /** The account's records of one name. */
  function Records(host: Host, book: Book, user: string, name: string): seq<Json>
    requires user in book
  {
    OfName(Opened(WalletOf(host, book[user])), name)
  }

  /** A mint that is not of that name. */
  ghost predicate MintsOther(host: Host, t: Trxn, name: string) {
    t.trxntype == OM_NEWTOKEN ==> forall v :: v in ItemsOf(host, t) ==> !Named(v, name)
  }

  /** A mint that goes through and leaves a text that cannot be read: there was one that does not end in its
      bracket, or an empty array on either side. */
  predicate Spoils(host: Host, book: Book, t: Trxn) {
    && t.trxntype == OM_NEWTOKEN && t.sender in book && Apply(host, book, t).rc >= 0
    && !TakesMore(host, book[t.sender].tokens, ItemsOf(host, t))
  }

  lemma {:induction false} MintKeepsNames(items: seq<Json>, from: string, name: string)
    requires MintAll(items, from).Mint? && forall v :: v in items ==> !Named(v, name)
    ensures |MintAll(items, from).items| == |items|
    ensures OfName(MintAll(items, from).items, name) == []
    decreases |items|
  {
    hide SetFirst, Find;
    if items != [] {
      var one := MintOne(items[0], from).items;
      var m := items[0].members;
      OwnerAppended(m, from, "name");
      assert !Named(items[0], name) && !Named(one[0], name);
      MintKeepsNames(items[1..], from, name);
      OfNameAppend(one, MintAll(items[1..], from).items, name);
      assert OfName(one[1..], name) == [];
    }
  }

  lemma {:induction false} FindAppend(m: seq<Member>, key: string, v: Value, k: string)
    ensures Find(m + [Member(key, v)], k) == if Find(m, k).None? && k == key then Some(v) else Find(m, k)
    decreases |m|
  {
    if m != [] {
      assert (m + [Member(key, v)])[1..] == m[1..] + [Member(key, v)];
      FindAppend(m[1..], key, v, k);
    }
  }

  /** Validation makes the sender the owner and leaves every other member alone. */
  lemma {:induction false} OwnerAppended(m: seq<Member>, from: string, k: string)
    ensures TextAt(WithOwner(m, from), k) == if k == "owner" then Some(from) else TextAt(m, k)
  {
    hide SetFirst;
    var added := m + [Member("owner", Text(from))];
    FindAppend(m, "owner", Text(from), k);
    FindAppend(m, "owner", Text(from), "owner");
    TextAfterSet(added, "owner", from, k);
  }

  /** A mint of other names adds no record of this one, and loses those of its sender exactly when it spoils the
      text. */
  lemma {:induction false} RecordsAfterMint(host: Host, book: Book, t: Trxn, name: string, user: string)
    requires Laws(host) && SoundBook(host, book) && MintsOther(host, t, name)
    requires t.trxntype == OM_NEWTOKEN && Apply(host, book, t).rc >= 0 && user in Apply(host, book, t).book
    ensures user in book
    ensures Records(host, Apply(host, book, t).book, user, name)
            == if user == t.sender && Spoils(host, book, t) then [] else Records(host, book, user, name)
  {
    hide Laws, SoundBook, Apply, OfName, ReadJson, ReadWallet, TakesMore, Sound, ValidateReq, MintAll;
    EmptyHasNone(name);
    MintIsReadExactlyWhen(host, book, t);
    AsManyMinted(host, t);
    if user == t.sender {
      MintOf(host, t, name);
      OfNameAppend(Opened(WalletOf(host, book[user])), Minted(host, t), name);
    }
  }

  lemma {:induction false} MintOf(host: Host, t: Trxn, name: string)
    requires MintsOther(host, t, name) && t.trxntype == OM_NEWTOKEN
    requires ValidateReq(ReadJson(host.element, t.request), t.sender).Mint?
    ensures OfName(Minted(host, t), name) == []
  {
    hide MintAll, ReadJson, OfName, Named;
    AsManyMinted(host, t);
    MintKeepsNames(ItemsOf(host, t), t.sender, name);
  }

  /** Apart from transfers of tokens, no transaction touches a record of the name, but one that spoils the text. */
  lemma {:induction false} RecordsStay(host: Host, book: Book, t: Trxn, name: string, user: string)
    requires Laws(host) && SoundBook(host, book) && MintsOther(host, t, name) && t.trxntype != OM_XFERTOKEN
    requires user in Apply(host, book, t).book
    ensures Records(host, Apply(host, book, t).book, user, name)
            == if user !in book || (user == t.sender && Spoils(host, book, t)) then []
               else Records(host, book, user, name)
  {
    hide Laws, SoundBook, OfName, ReadJson, MintsOther, Apply, TakesMore;
    EmptyHasNone(name);
    FailureChangesNothing(host, book, t);
    if t.trxntype == OM_NEWTOKEN {
      if Apply(host, book, t).rc >= 0 {
        RecordsAfterMint(host, book, t, name, user);
      }
    } else if user in book {
      OthersKeepTokens(host, book, t, user);
    } else {
      NewAccountIsBlank(host, book, t, user);
    }
  }

  lemma {:induction false} NewAccountIsBlank(host: Host, book: Book, t: Trxn, user: string)
    requires user !in book && user in Apply(host, book, t).book
    ensures Apply(host, book, t).book[user].tokens == ""
  {
    hide ModifyTokens, ValidateReq, Added, Stored, SpliceText, MintedText, Atol, ReadJson;
  }

  lemma {:induction false} EmptyHasNone(name: string)
    ensures OfName([], name) == []
  {
  }

  // ----- Fungible names -----

  ghost predicate FTBook(host: Host, book: Book, name: string) {
    forall u :: u in book ==> FTs(Records(host, book, u, name))
  }

  ghost predicate AllListed(book: Book, who: seq<string>) {
    forall u :: u in book ==> u in who
  }

  /** What the listed accounts hold of a fungible name. */
  function Supply(host: Host, book: Book, who: seq<string>, name: string): int {
    Total(Weight.Held(host.element, name), book, who)
  }

  lemma {:induction false} SupplyIsNat(host: Host, book: Book, who: seq<string>, name: string)
    requires FTBook(host, book, name)
    ensures Supply(host, book, who, name) >= 0
    decreases |who|
  {
    hide OfName, ReadWallet;
    if who != [] {
      if who[0] in book {
        SumIsNat(Records(host, book, who[0], name));
      }
      SupplyIsNat(host, book, who[1..], name);
    }
  }

  /** Two accounts hold no more than all of them. */
  lemma {:induction false} TwoWithinTotal(host: Host, book: Book, who: seq<string>, name: string, a: string, b: string)
    requires FTBook(host, book, name) && Distinct(who) && a in who && b in who && a in book && b in book && a != b
    ensures Sum(Records(host, book, a, name)) + Sum(Records(host, book, b, name)) <= Supply(host, book, who, name)
  {
    hide OfName, Total, FTs, ReadJson;
    var w := Weight.Held(host.element, name);
    var x, y := book[a].(tokens := ""), book[b].(tokens := "");
    EmptyHasNone(name);
    EmptyIsFT();
    TotalAfterTwo(w, book, who, a, b, x, y);
    SupplyIsNat(host, book[a := x][b := y], who, name);
  }

  lemma {:induction false} EmptyIsFT()
    ensures FTs([]) && Sum([]) == 0
  {
  }

  lemma {:induction false} SameRecordsSameSupply(host: Host, before: Book, after: Book, who: seq<string>, name: string)
    requires forall u :: u in before ==> u in after
    requires forall u :: u in after ==>
               Records(host, after, u, name) == if u in before then Records(host, before, u, name) else []
    ensures Supply(host, after, who, name) == Supply(host, before, who, name)
    ensures FTBook(host, before, name) ==> FTBook(host, after, name)
    decreases |who|
  {
    hide OfName, ReadWallet;
    if who != [] {
      SameRecordsSameSupply(host, before, after, who[1..], name);
    }
  }

  lemma {:induction false} BookGrows(host: Host, book: Book, t: Trxn)
    ensures forall u :: u in book ==> u in Apply(host, book, t).book
    ensures forall u :: u in Apply(host, book, t).book ==> u in book || u == t.sender
  {
    hide ModifyTokens, ValidateReq, Added, Stored, SpliceText, MintedText, Atol, ReadJson;
  }

  lemma {:induction false} TransferKeepsSupply(host: Host, book: Book, after: Book, who: seq<string>, t: Trxn,
                                               name: string)
    requires t.sender != t.receiver && Transferred(host, book, t, after)
    requires Distinct(who) && AllListed(book, who) && FTBook(host, book, name)
    requires Supply(host, book, who, name) < EXACT
    ensures FTBook(host, after, name) && Supply(host, after, who, name) == Supply(host, book, who, name)
  {
    hide MoveAll, OfName, FTs, Total, ReadWallet;
    var from, to := t.sender, t.receiver;
    var src, dst := WalletOf(host, book[from]).tokens, Opened(WalletOf(host, book[to]));
    TwoWithinTotal(host, book, who, name, from, to);
    RequestKeepsSum(src, dst, ReadJson(host.element, t.request).items, from, to, name);
    TotalAfterTwo(Weight.Held(host.element, name), book, who, from, to, after[from], after[to]);
    assert after == book[from := after[from]][to := after[to]];
    forall u | u in after ensures FTs(Records(host, after, u, name)) {
      assert u != from && u != to ==> Records(host, after, u, name) == Records(host, book, u, name);
    }
  }

  /** How much of the name is lost with the text of its holder. */
  function Lost(host: Host, book: Book, t: Trxn, name: string): int {
    if Spoils(host, book, t) then Sum(Records(host, book, t.sender, name)) else 0
  }

  lemma {:induction false} SpoilLosesSupply(host: Host, book: Book, who: seq<string>, t: Trxn, name: string)
    requires Laws(host) && SoundBook(host, book) && MintsOther(host, t, name) && Spoils(host, book, t)
    requires Distinct(who) && t.sender in who && FTBook(host, book, name)
    ensures var after := Apply(host, book, t).book;
            && FTBook(host, after, name)
            && Supply(host, after, who, name) == Supply(host, book, who, name) - Lost(host, book, t, name)
  {
    hide Laws, SoundBook, Apply, OfName, ReadJson, ReadWallet, TakesMore, Sound, ValidateReq, MintsOther, Total, FTs;
    MintIsReadExactlyWhen(host, book, t);
    var after := Apply(host, book, t).book;
    EmptyIsFT();
    forall u | u in after
      ensures u in book && Records(host, after, u, name) == if u == t.sender then [] else Records(host, book, u, name)
    {
      RecordsAfterMint(host, book, t, name, u);
    }
    TotalAfterPut(Weight.Held(host.element, name), book, who, t.sender, after[t.sender]);
  }

  lemma {:induction false} SupplyStep(host: Host, book: Book, who: seq<string>, t: Trxn, name: string)
    requires Laws(host) && SoundBook(host, book)
    requires Distinct(who) && AllListed(book, who) && Lists(who, t) && NoSelfTransfer(t)
    requires MintsOther(host, t, name) && FTBook(host, book, name) && Supply(host, book, who, name) < EXACT
    ensures var after := Apply(host, book, t).book;
            && SoundBook(host, after) && AllListed(after, who) && FTBook(host, after, name)
            && Supply(host, after, who, name) == Supply(host, book, who, name) - Lost(host, book, t, name)
    ensures Lost(host, book, t, name) >= 0
  {
    hide Laws, SoundBook, Apply, FTs, Total, MintsOther, Transferred, OfName, ReadWallet, TakesMore;
    var after := Apply(host, book, t).book;
    BookGrows(host, book, t);
    SoundStep(host, book, t);
    if t.trxntype == OM_XFERTOKEN {
      TransferShape(host, book, t);
      if after != book {
        TransferKeepsSupply(host, book, after, who, t, name);
      }
    } else if Spoils(host, book, t) {
      SumIsNat(Records(host, book, t.sender, name));
      SpoilLosesSupply(host, book, who, t, name);
    } else {
      forall u | u in after
        ensures Records(host, after, u, name) == if u in book then Records(host, book, u, name) else []
      {
        RecordsStay(host, book, t, name, u);
      }
      SameRecordsSameSupply(host, book, after, who, name);
    }
  }

  /** No mint of the run spoils a text that holds some of the name. */
  predicate LosesNone(host: Host, book: Book, ts: seq<Trxn>, name: string)
    decreases |ts|
  {
    ts == [] || (Lost(host, book, ts[0], name) == 0 && LosesNone(host, Apply(host, book, ts[0]).book, ts[1..], name))
  }

  /** Over any run of payments, transfers, openings and mints of other names, the total of a fungible name over all
      accounts never grows, and stays the same if and only if no mint spoils a text that holds some of it, as long
      as the total is below a million. */
  lemma {:induction false} FungibleTotalIsKept(host: Host, book: Book, who: seq<string>, ts: seq<Trxn>, name: string)
    requires Laws(host) && SoundBook(host, book) && Distinct(who) && AllListed(book, who)
    requires forall t :: t in ts ==> Lists(who, t) && NoSelfTransfer(t) && MintsOther(host, t, name)
    requires FTBook(host, book, name) && Supply(host, book, who, name) < EXACT
    ensures var before, after := Supply(host, book, who, name), Supply(host, After(host, book, ts), who, name);
            && FTBook(host, After(host, book, ts), name) && 0 <= after <= before
            && (after == before <==> LosesNone(host, book, ts, name))
    decreases |ts|
  {
    hide Laws, SoundBook, Apply, FTBook, Supply, MintsOther, AllListed, Lists, Lost;
    if ts == [] {
      SupplyIsNat(host, book, who, name);
    } else {
      SupplyStep(host, book, who, ts[0], name);
      FungibleTotalIsKept(host, Apply(host, book, ts[0]).book, who, ts[1..], name);
    }
  }

  // ----- NFTs -----

  ghost predicate NFTBook(host: Host, book: Book, name: string) {
    forall u :: u in book ==> NFTs(Records(host, book, u, name), u)
  }

  predicate HolderIs(host: Host, book: Book, name: string, u: string) {
    u in book && Records(host, book, u, name) != [] && Owner(Records(host, book, u, name)[0]) == Some(u)
  }

  /** The account that holds the NFT, and the only one. */
  ghost predicate SoleHolder(host: Host, book: Book, name: string, h: string) {
    HolderIs(host, book, name, h) && forall u :: HolderIs(host, book, name, u) ==> u == h
  }

  ghost predicate NoHolder(host: Host, book: Book, name: string) {
    forall u :: !HolderIs(host, book, name, u)
  }

  lemma {:induction false} TransferKeepsHolder(host: Host, book: Book, after: Book, t: Trxn, name: string)
    requires t.sender != t.receiver && Transferred(host, book, t, after) && NFTBook(host, book, name)
    requires !(HolderIs(host, book, name, t.sender) && HolderIs(host, book, name, t.receiver))
    ensures NFTBook(host, after, name)
    ensures !(HolderIs(host, after, name, t.sender) && HolderIs(host, after, name, t.receiver))
    ensures HolderIs(host, after, name, t.sender) || HolderIs(host, after, name, t.receiver) <==>
              HolderIs(host, book, name, t.sender) || HolderIs(host, book, name, t.receiver)
    ensures forall u :: u != t.sender && u != t.receiver ==>
              (HolderIs(host, after, name, u) <==> HolderIs(host, book, name, u))
  {
    hide MoveAll, OfName, NFTs, Owner, ReadWallet;
    var from, to := t.sender, t.receiver;
    RequestKeepsHolder(WalletOf(host, book[from]).tokens, Opened(WalletOf(host, book[to])),
                       ReadJson(host.element, t.request).items, from, to, name);
    forall u | u in after && u != from && u != to
      ensures Records(host, after, u, name) == Records(host, book, u, name)
    {
    }
  }

  /** A mint of another name that spoils the text of the holder. */
  predicate Unholds(host: Host, book: Book, t: Trxn, name: string) {
    Spoils(host, book, t) && HolderIs(host, book, name, t.sender)
  }

  lemma {:induction false} OtherStep(host: Host, book: Book, t: Trxn, name: string)
    requires Laws(host) && SoundBook(host, book) && MintsOther(host, t, name) && t.trxntype != OM_XFERTOKEN
    requires NFTBook(host, book, name)
    ensures var after := Apply(host, book, t).book;
            && NFTBook(host, after, name)
            && forall u :: HolderIs(host, after, name, u) <==>
                 HolderIs(host, book, name, u) && !(u == t.sender && Spoils(host, book, t))
  {
    hide Laws, SoundBook, Apply, MintsOther, OfName, ReadWallet, Owner, HasBalance, TakesMore;
    BookGrows(host, book, t);
    var after := Apply(host, book, t).book;
    forall u | u in after
      ensures Records(host, after, u, name)
              == if u !in book || (u == t.sender && Spoils(host, book, t)) then [] else Records(host, book, u, name)
    {
      RecordsStay(host, book, t, name, u);
    }
  }

  lemma {:induction false} HolderStep(host: Host, book: Book, t: Trxn, name: string, h: string) returns (h1: string)
    requires Laws(host) && SoundBook(host, book) && NoSelfTransfer(t) && MintsOther(host, t, name)
    requires NFTBook(host, book, name) && (SoleHolder(host, book, name, h) || NoHolder(host, book, name))
    ensures var after := Apply(host, book, t).book;
            && NFTBook(host, after, name)
            && if NoHolder(host, book, name) || Unholds(host, book, t, name)
               then NoHolder(host, after, name) else SoleHolder(host, after, name, h1)
  {
    hide Laws, SoundBook, Apply, MintsOther, Transferred, HolderIs, Spoils, NFTBook;
    var after := Apply(host, book, t).book;
    h1 := h;
    if t.trxntype == OM_XFERTOKEN {
      TransferShape(host, book, t);
      if after != book {
        TransferKeepsHolder(host, book, after, t, name);
        h1 := if h != t.sender && h != t.receiver then h
              else if HolderIs(host, after, name, t.sender) then t.sender else t.receiver;
      }
      TransfersSpoilNothing(host, book, t);
    } else {
      OtherStep(host, book, t, name);
    }
  }

  lemma {:induction false} TransfersSpoilNothing(host: Host, book: Book, t: Trxn)
    requires t.trxntype == OM_XFERTOKEN
    ensures !Spoils(host, book, t)
  {
  }

  /** No mint of the run spoils the text of whoever holds the NFT then. */
  predicate KeepsHolder(host: Host, book: Book, ts: seq<Trxn>, name: string)
    decreases |ts|
  {
    ts == [] || (!Unholds(host, book, ts[0], name) && KeepsHolder(host, Apply(host, book, ts[0]).book, ts[1..], name))
  }

  lemma {:induction false} HolderRun(host: Host, book: Book, ts: seq<Trxn>, name: string,
                                     h: string) returns (h1: string)
    requires Laws(host) && SoundBook(host, book)
    requires forall t :: t in ts ==> NoSelfTransfer(t) && MintsOther(host, t, name)
    requires NFTBook(host, book, name) && (SoleHolder(host, book, name, h) || NoHolder(host, book, name))
    ensures var after := After(host, book, ts);
            && NFTBook(host, after, name)
            && if !NoHolder(host, book, name) && KeepsHolder(host, book, ts, name)
               then SoleHolder(host, after, name, h1) else NoHolder(host, after, name)
    decreases |ts|
  {
    hide Laws, SoundBook, Apply, MintsOther, NFTBook, HolderIs, Unholds;
    if ts == [] {
      h1 := h;
    } else {
      h1 := HolderStep(host, book, ts[0], name, h);
      SoundStep(host, book, ts[0]);
      h1 := HolderRun(host, Apply(host, book, ts[0]).book, ts[1..], name, h1);
    }
  }

  lemma {:induction false} HolderRecords(host: Host, book: Book, name: string, h: string, u: string, v: Json)
    requires NFTBook(host, book, name) && SoleHolder(host, book, name, h)
    requires u in book && v in Records(host, book, u, name)
    ensures Owner(v).Some? && (Owner(v).value == u <==> u == h) && Balance(v) == if u == h then 1 else 0
  {
    hide OfName, ReadWallet, Owner, Balance, HasBalance;
    assert HolderIs(host, book, name, u) <==> Owner(v) == Some(u);
  }

  /** An NFT minted once has exactly one holder after a run if and only if no mint spoils the text of its holder: the
      only account whose own record names it as owner, and the only one with balance 1. Otherwise nobody holds it
      any more. */
  lemma {:induction false} NFTHasOneHolder(host: Host, book: Book, ts: seq<Trxn>, name: string, h: string)
    returns (h1: string)
    requires Laws(host) && SoundBook(host, book)
    requires forall t :: t in ts ==> NoSelfTransfer(t) && MintsOther(host, t, name)
    requires NFTBook(host, book, name) && SoleHolder(host, book, name, h)
    ensures var after := After(host, book, ts);
            if KeepsHolder(host, book, ts, name)
            then
              && SoleHolder(host, after, name, h1)
              && forall u, v :: u in after && v in Records(host, after, u, name) ==>
                   && Owner(v).Some? && (Owner(v).value == u <==> u == h1)
                   && Balance(v) == if u == h1 then 1 else 0
            else NoHolder(host, after, name)
  {
    hide Laws, SoundBook, MintsOther, NFTBook, HolderIs, OfName, ReadWallet, Owner, Balance, KeepsHolder, After;
    h1 := HolderRun(host, book, ts, name, h);
    var after := After(host, book, ts);
    if KeepsHolder(host, book, ts, name) {
      forall u, v | u in after && v in Records(host, after, u, name)
        ensures Owner(v).Some? && (Owner(v).value == u <==> u == h1) && Balance(v) == if u == h1 then 1 else 0
      {
        HolderRecords(host, after, name, h1, u, v);
      }
    }
  }

  // ----- Where an NFT begins -----

  lemma {:induction false} MintedRecord(items: seq<Json>, from: string, name: string)
    requires MintAll(items, from).Mint? && |OfName(items, name)| == 1
    requires OfName(items, name)[0].Object? && MintsNFT(OfName(items, name)[0].members)
    ensures OfName(MintAll(items, from).items, name) == [Object(WithOwner(OfName(items, name)[0].members, from))]
    decreases |items|
  {
    hide SetFirst, Find, WithOwner, MintsNFT;
    var one, rest := MintOne(items[0], from).items, MintAll(items[1..], from).items;
    OwnerAppended(items[0].members, from, "name");
    OfNameAppend(one, rest, name);
    assert OfName(one[1..], name) == [];
    if Named(items[0], name) {
      assert OfName(items, name)[1..] == OfName(items[1..], name);
      NoneNamed(items[1..], name);
      MintKeepsNames(items[1..], from, name);
    } else {
      MintedRecord(items[1..], from, name);
    }
  }

  lemma {:induction false} NoneNamed(items: seq<Json>, name: string)
    requires OfName(items, name) == []
    ensures forall v :: v in items ==> !Named(v, name)
    decreases |items|
  {
    if items != [] {
      NoneNamed(items[1..], name);
    }
  }

  /** Minting an NFT of a new name, once and with balance 1, makes the sender its sole holder, whatever owner
      the request named, if and only if the stored text takes more tokens. */
  lemma {:induction false} MintMakesTheHolder(host: Host, book: Book, t: Trxn, name: string)
    requires Laws(host) && SoundBook(host, book) && t.trxntype == OM_NEWTOKEN && Apply(host, book, t).rc >= 0
    requires forall u :: u in book ==> Records(host, book, u, name) == []
    requires var items := ItemsOf(host, t);
             && |OfName(items, name)| == 1
             && var v := OfName(items, name)[0];
                v.Object? && MintsNFT(v.members) && IsNFT(v.members) && Balance(v) == 1
    ensures var after := Apply(host, book, t).book;
            && t.sender in book && NFTBook(host, after, name)
            && (SoleHolder(host, after, name, t.sender) <==> TakesMore(host, book[t.sender].tokens, ItemsOf(host, t)))
  {
    hide Laws, SoundBook, Apply, MintAll, OfName, WithOwner, MintsNFT, ReadJson, ReadWallet, TakesMore, Sound,
         ValidateReq;
    var items, from := ItemsOf(host, t), t.sender;
    var m := OfName(items, name)[0].members;
    MintIsReadExactlyWhen(host, book, t);
    AsManyMinted(host, t);
    MintedRecord(items, from, name);
    MintedHolder(m, from);
    EmptyHasNone(name);
    OfNameAppend(Opened(WalletOf(host, book[from])), Minted(host, t), name);
    var after := Apply(host, book, t).book;
    assert Records(host, book, from, name) == [];
    assert Records(host, after, from, name) ==
           if TakesMore(host, book[from].tokens, items) then [Object(WithOwner(m, from))] else [];
    forall u | u in after && u != from ensures Records(host, after, u, name) == [] {
      assert Records(host, book, u, name) == [];
    }
  }

  lemma {:induction false} MintedHolder(m: seq<Member>, from: string)
    requires IsNFT(m) && Balance(Object(m)) == 1
    ensures var v := Object(WithOwner(m, from)); NFTs([v], from) && Owner(v) == Some(from)
  {
    hide WithOwner, Atol;
    OwnerAppended(m, from, "owner");
    OwnerAppended(m, from, "bal");
    OwnerAppended(m, from, "max");
  }

  // ----- Votes -----

  lemma {:induction false} ChecksEndAtZero(tokens: seq<Json>, items: seq<Json>, from: string, to: string)
    ensures CheckAll(tokens, items, from, to) <= 0
    decreases |items|
  {
    hide CheckOne;
    if items != [] {
      OneCheckIsNeverPositive(tokens, items[0], from, to);
      ChecksEndAtZero(tokens, items[1..], from, to);
    }
  }

  /** A transfer that a node found valid when it voted goes through on the same accounts, when sender and
      receiver differ and no token is named twice. */
  lemma {:induction false} VotedTransferCommits(host: Host, book: Book, t: Trxn)
    requires t.trxntype == OM_XFERTOKEN && t.sender != t.receiver
    requires XferTokenValid(host, book, t) == 0
    requires DistinctNames(ItemsOf(host, t))
    ensures Apply(host, book, t).rc == 0
  {
    hide CheckAll, MoveAll, DistinctNames, ReadJson;
    var req := ReadJson(host.element, t.request);
    var s, r := WalletOf(host, book[t.sender]), WalletOf(host, book[t.receiver]);
    if s.Array? && req.Elements? {
      ChecksEndAtZero(s.tokens, req.items, t.sender, t.receiver);
      VoteImpliesCommit(t.sender, t.receiver, req, s, r);
    }
  }
}
