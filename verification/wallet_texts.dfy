/** The tokens of an account as the text that is stored: which mints leave it readable, and what becomes of it over
    a run. */
module WalletTexts {
  import opened Accounts
  import opened JsonTexts
  import opened Ledgers
  import opened LedgerTotals
  import opened Text
  import opened TextSplices
  import opened Tokens
  import opened Trxns
  import opened Wrappers

  ghost predicate Laws(host: Host) {
    ReaderLaws(host.element) && PrinterLaws(host.element, host.show)
  }

  predicate AllObjects(items: seq<Json>) {
    forall v :: v in items ==> v.Object?
  }

  predicate Readable(host: Host, text: string) {
    var r := ReadJson(host.element, text);
    r.Elements? && AllObjects(r.items)
  }

  /** What is stored is nothing, an array of objects, or a text broken for good. */
  ghost predicate Sound(host: Host, text: string) {
    text == "" || Readable(host, text) || Broken(host.element, text)
  }

  ghost predicate SoundBook(host: Host, book: Book) {
    forall u :: u in book ==> Sound(host, book[u].tokens)
  }

  function Minted(host: Host, t: Trxn): seq<Json>
    requires ValidateReq(ReadJson(host.element, t.request), t.sender).Mint?
  {
    ValidateReq(ReadJson(host.element, t.request), t.sender).items
  }

  /** The items of a request that reads as an array. */
  function ItemsOf(host: Host, t: Trxn): seq<Json> {
    match ReadJson(host.element, t.request)
    case Elements(items) => items
    case _ => []
  }

  // ----- The request text of a mint -----

  lemma {:induction false} MintedAreObjects(items: seq<Json>, from: string)
    requires MintAll(items, from).Mint?
    ensures AllObjects(MintAll(items, from).items) && |MintAll(items, from).items| == |items|
    ensures !AnyNFT(items) ==> MintAll(items, from).items == items
    decreases |items|
  {
    hide MintsNFT, WithOwner, TextAt;
    if items != [] {
      MintedAreObjects(items[1..], from);
    }
  }

  /** The text that is stored and logged reads as the minted tokens. */
  lemma {:induction false} MintedReads(host: Host, t: Trxn)
    requires Laws(host) && ValidateReq(ReadJson(host.element, t.request), t.sender).Mint?
    ensures ReadJson(host.element, MintedText(host, t)) == Elements(Minted(host, t))
    ensures AllObjects(Minted(host, t))
  {
    hide MintAll, AnyNFT, ReadJson, ReaderLaws, PrinterLaws, Print;
    var items := ReadJson(host.element, t.request).items;
    MintedAreObjects(items, t.sender);
    PrintReads(host.element, host.show, MintAll(items, t.sender).items);
  }

  // ----- Mints on top of tokens -----

  /** A stored text to which tokens can be added. */
  predicate TakesMore(host: Host, text: string, items: seq<Json>) {
    text == "" || (EndsInBracket(text) && Opened(ReadWallet(host.element, text)) != [] && items != [])
  }

  /** What a mint makes of the stored text. */
  lemma {:induction false} MintedOnto(host: Host, text: string, request: string, items: seq<Json>, x: string)
    requires Laws(host) && Sound(host, text) && text != ""
    requires ReadJson(host.element, request) == Elements(items) && AllObjects(items)
    requires AfterBracket(request) == Some(x)
    ensures var n := SpliceText(text, x);
            if TakesMore(host, text, items)
            then ReadJson(host.element, n) == Elements(Opened(ReadWallet(host.element, text)) + items)
                 && AllObjects(Opened(ReadWallet(host.element, text)))
            else Broken(host.element, n)
  {
    hide ReadJson, ReaderLaws, PrinterLaws, SpliceText, AfterBracket, EndsInBracket, Broken;
    if Readable(host, text) {
      var x1 := SpliceReadsExactlyWhen(host.element, text, ReadJson(host.element, text).items, request, items);
    } else {
      BrokenIsNotRead(host, text);
      BrokenStays(host.element, text, x);
    }
  }

  lemma {:induction false} BrokenIsNotRead(host: Host, text: string)
    requires Broken(host.element, text)
    ensures text != "" ==> ReadWallet(host.element, text).Garbled?
    ensures !Readable(host, text)
  {
    hide ReadJson;
  }

  /** A request that reads as an array holds a bracket. */
  lemma {:induction false} HoldsBracket(host: Host, request: string, items: seq<Json>)
    requires Laws(host) && ReadJson(host.element, request) == Elements(items)
    ensures AfterBracket(request).Some? && request != ""
  {
    hide ReadJson, ReaderLaws, PrinterLaws;
    var x := RequestGoesOn(host.element, request, items);
  }


  /** createToken leaves an array that can be read exactly when the account had no tokens yet, or its text ended in
      its bracket and neither array was empty. Then the account holds what it held and what was minted. */
  lemma {:induction false} MintIsReadExactlyWhen(host: Host, book: Book, t: Trxn)
    requires Laws(host) && SoundBook(host, book) && t.trxntype == OM_NEWTOKEN && Apply(host, book, t).rc >= 0
    ensures t.sender in book && ValidateReq(ReadJson(host.element, t.request), t.sender).Mint?
    ensures var before, after := book[t.sender], Apply(host, book, t).book[t.sender];
            var more := TakesMore(host, before.tokens, ItemsOf(host, t));
            && Apply(host, book, t).book == book[t.sender := before.(tokens := after.tokens)]
            && (WalletOf(host, after).Array? <==> more)
            && (more ==> WalletOf(host, after) == Array(Opened(WalletOf(host, before)) + Minted(host, t)))
            && Sound(host, after.tokens) && after.tokens != ""
  {
    hide ReadJson, Laws, MintedText, Broken, ValidateReq, AllObjects, AfterBracket, SpliceText, EndsInBracket;
    var text, request, items := book[t.sender].tokens, MintedText(host, t), Minted(host, t);
    MintedReads(host, t);
    AsManyMinted(host, t);
    HoldsBracket(host, request, items);
    if text == "" {
      assert [] + items == items;
    } else {
      assert Sound(host, text);
      MintedOnto(host, text, request, items, AfterBracket(request).value);
      SpliceIsSome(text, AfterBracket(request).value);
      if TakesMore(host, text, items) {
        BothAreObjects(Opened(ReadWallet(host.element, text)), items);
      } else {
        BrokenIsNotRead(host, SpliceText(text, AfterBracket(request).value));
      }
    }
  }

  lemma {:induction false} AsManyMinted(host: Host, t: Trxn)
    requires ValidateReq(ReadJson(host.element, t.request), t.sender).Mint?
    ensures ReadJson(host.element, t.request) == Elements(ItemsOf(host, t))
    ensures MintAll(ItemsOf(host, t), t.sender) == Mint(Minted(host, t))
    ensures |Minted(host, t)| == |ItemsOf(host, t)|
  {
    hide MintAll, ReadJson, AllObjects;
    MintedAreObjects(ItemsOf(host, t), t.sender);
  }

  lemma {:induction false} SpliceIsSome(w: string, x: string)
    ensures SpliceText(w, x) != ""
  {
    assert |SpliceText(w, x)| > 0;
  }

  lemma {:induction false} BothAreObjects(a: seq<Json>, b: seq<Json>)
    requires AllObjects(a) && AllObjects(b)
    ensures AllObjects(a + b)
  {
  }

  // ----- Transfers -----

  lemma {:induction false} DebitKeepsObjects(tokens: seq<Json>, j: nat, nft: bool, x: Move)
    requires AllObjects(tokens)
    ensures Debit(tokens, j, nft, x).Done? ==> AllObjects(Debit(tokens, j, nft, x).tokens)
    decreases |tokens| - j
  {
    hide SetFirst, TextAt, Show, IsNFT;
    if j < |tokens| {
      var m := tokens[j].members;
      DebitKeepsObjects(tokens, j + 1, nft, x);
      DebitKeepsObjects(tokens[j := Object(SetFirst(m, "owner", x.dst))], j + 1, nft || IsNFT(m), x);
      DebitKeepsObjects(tokens[j := Object(m)], j + 1, nft || IsNFT(m), x);
    }
  }

  lemma {:induction false} CreditKeepsObjects(tokens: seq<Json>, j: nat, nft: bool, x: Move)
    requires AllObjects(tokens)
    ensures Credit(tokens, j, nft, x).Some? ==> AllObjects(Credit(tokens, j, nft, x).value)
    decreases |tokens| - j
  {
    hide Credited, TakesCredit;
    if j < |tokens| {
      CreditKeepsObjects(tokens, j + 1, nft, x);
    }
  }

  lemma {:induction false} MoveKeepsObjects(src: seq<Json>, dst: seq<Json>, items: seq<Json>, from: string, to: string)
    requires AllObjects(src) && AllObjects(dst)
    ensures var r := MoveAll(src, dst, items, from, to); r.Moved? ==> AllObjects(r.src) && AllObjects(r.dst)
    decreases |items|
  {
    hide ReadItem, Debit, Credit, AllObjects, Copy;
    if items != [] {
      var r := ReadItem(items[0]);
      if r.Wanted? {
        var x := Move(r.name, r.amount, from, to);
        DebitKeepsObjects(src, 0, false, x);
        var d := Debit(src, 0, false, x);
        if d.Done? {
          CreditKeepsObjects(dst, 0, d.nft, x);
          OneMoreObject(dst);
        }
      }
      var next := MoveOne(src, dst, items[0], from, to);
      if next.Moved? {
        MoveKeepsObjects(next.src, next.dst, items[1..], from, to);
      }
    }
  }

  lemma {:induction false} OneMoreObject(dst: seq<Json>)
    requires AllObjects(dst)
    ensures forall m :: AllObjects(dst + [Object(m)])
  {
  }

  /** What a token transfer does to its two accounts. */
  ghost predicate Transferred(host: Host, book: Book, t: Trxn, after: Book) {
    && t.sender in book && t.receiver in book && after.Keys == book.Keys
    && WalletOf(host, book[t.sender]).Array?
    && (forall u :: u in book && u != t.sender && u != t.receiver ==> after[u] == book[u])
    && var req := ReadJson(host.element, t.request);
       && req.Elements?
       && var r := MoveAll(WalletOf(host, book[t.sender]).tokens, Opened(WalletOf(host, book[t.receiver])), req.items,
                           t.sender, t.receiver);
          && r.Moved?
          && WalletOf(host, after[t.receiver]) == Array(r.dst)
          && (t.sender != t.receiver ==> WalletOf(host, after[t.sender]) == Array(r.src))
  }

  lemma {:induction false} PrintedIsRead(host: Host, items: seq<Json>)
    requires Laws(host)
    ensures ReadWallet(host.element, Print(host.show, items)) == Array(items) && Print(host.show, items) != ""
    ensures ReadJson(host.element, Print(host.show, items)) == Elements(items)
  {
    hide ReadJson, ReaderLaws, PrinterLaws, ShowAll;
    PrintReads(host.element, host.show, items);
  }

  lemma {:induction false} TransferShape(host: Host, book: Book, t: Trxn)
    requires Laws(host) && t.trxntype == OM_XFERTOKEN
    ensures var done := Apply(host, book, t);
            if done.rc < 0 then done.book == book else Transferred(host, book, t, done.book)
  {
    hide MoveAll, ReadJson, Laws, Print;
    if t.sender in book && t.receiver in book {
      var m := ModifyTokens(t.sender, t.receiver, ReadJson(host.element, t.request),
                            WalletOf(host, book[t.sender]), WalletOf(host, book[t.receiver]));
      if m.Moved? {
        PrintedIsRead(host, m.src);
        PrintedIsRead(host, m.dst);
      }
    }
  }

  lemma {:induction false} OpenedAreObjects(host: Host, text: string)
    requires Sound(host, text)
    ensures AllObjects(Opened(ReadWallet(host.element, text)))
  {
    hide ReadJson, Broken;
    if Broken(host.element, text) {
      BrokenIsNotRead(host, text);
    }
  }

  lemma {:induction false} TransferIsSound(host: Host, book: Book, t: Trxn)
    requires Laws(host) && SoundBook(host, book) && t.trxntype == OM_XFERTOKEN
    ensures SoundBook(host, Apply(host, book, t).book)
  {
    hide MoveAll, ReadJson, Laws, Broken, Print, AllObjects;
    if t.sender in book && t.receiver in book {
      var src, dst := WalletOf(host, book[t.sender]), WalletOf(host, book[t.receiver]);
      var req := ReadJson(host.element, t.request);
      var m := ModifyTokens(t.sender, t.receiver, req, src, dst);
      if m.Moved? {
        OpenedAreObjects(host, book[t.sender].tokens);
        OpenedAreObjects(host, book[t.receiver].tokens);
        MoveKeepsObjects(src.tokens, Opened(dst), req.items, t.sender, t.receiver);
        PrintedIsRead(host, m.src);
        PrintedIsRead(host, m.dst);
      }
    }
  }

  // ----- Runs -----

  lemma {:induction false} SoundStep(host: Host, book: Book, t: Trxn)
    requires Laws(host) && SoundBook(host, book)
    ensures SoundBook(host, Apply(host, book, t).book)
  {
    hide Laws, Sound, Added, Stored, Atol, CreateToken, TransferToken, ValidateReq, WalletOf;
    if t.trxntype == OM_XFERTOKEN {
      TransferIsSound(host, book, t);
    } else if t.trxntype == OM_NEWTOKEN {
      FailureChangesNothing(host, book, t);
      if Apply(host, book, t).rc >= 0 {
        MintIsReadExactlyWhen(host, book, t);
      }
    } else {
      NothingIsSound(host);
    }
  }

  lemma {:induction false} NothingIsSound(host: Host)
    ensures Sound(host, "")
  {
  }

  /** From sound accounts, and so from none, whatever is stored is nothing, an array of objects or a text broken for
      good. */
  lemma {:induction false} RunsAreSound(host: Host, book: Book, ts: seq<Trxn>)
    requires Laws(host) && SoundBook(host, book)
    ensures SoundBook(host, After(host, book, ts))
    decreases |ts|
  {
    hide Apply, Laws, SoundBook;
    if ts != [] {
      SoundStep(host, book, ts[0]);
      RunsAreSound(host, Apply(host, book, ts[0]).book, ts[1..]);
    }
  }

  predicate Unreadable(host: Host, book: Book, user: string) {
    user in book && WalletOf(host, book[user]).Garbled?
  }

  lemma {:induction false} OthersKeepTokens(host: Host, book: Book, t: Trxn, user: string)
    requires user in book && t.trxntype != OM_NEWTOKEN && t.trxntype != OM_XFERTOKEN
    ensures var after := Apply(host, book, t).book; user in after && after[user].tokens == book[user].tokens
  {
    hide Added, Stored, Atol;
  }

  lemma {:induction false} UnreadableStep(host: Host, book: Book, t: Trxn, user: string)
    requires Laws(host) && SoundBook(host, book) && Unreadable(host, book, user)
    ensures Unreadable(host, Apply(host, book, t).book, user)
    ensures t.trxntype == OM_XFERTOKEN && (t.sender == user || t.receiver == user) ==> Apply(host, book, t).rc < 0
  {
    hide Laws, MoveAll, ReadJson, SoundBook, Apply, TakesMore, ValidateReq;
    FailureChangesNothing(host, book, t);
    if t.trxntype == OM_XFERTOKEN {
      TransferShape(host, book, t);
      if t.sender == user || t.receiver == user {
        UnreadableRefuses(host, book, t, user);
      }
    } else if t.trxntype == OM_NEWTOKEN {
      if Apply(host, book, t).rc >= 0 {
        MintIsReadExactlyWhen(host, book, t);
        NothingMore(host, book[t.sender].tokens, ItemsOf(host, t));
      }
    } else {
      OthersKeepTokens(host, book, t, user);
    }
  }

  lemma {:induction false} NothingMore(host: Host, text: string, items: seq<Json>)
    ensures ReadWallet(host.element, text).Garbled? ==> !TakesMore(host, text, items)
  {
  }

  lemma {:induction false} UnreadableRefuses(host: Host, book: Book, t: Trxn, user: string)
    requires Unreadable(host, book, user) && t.trxntype == OM_XFERTOKEN && (t.sender == user || t.receiver == user)
    ensures Apply(host, book, t).rc < 0
  {
    hide MoveAll, ReadJson;
  }

  /** Once its tokens cannot be read, an account sends and receives none in any later run, whatever is
      minted on top. */
  lemma {:induction false} UnreadableForever(host: Host, book: Book, ts: seq<Trxn>, t: Trxn, user: string)
    requires Laws(host) && SoundBook(host, book) && Unreadable(host, book, user)
    ensures var after := After(host, book, ts);
            && Unreadable(host, after, user)
            && (t.trxntype == OM_XFERTOKEN && (t.sender == user || t.receiver == user) ==>
                  Apply(host, after, t).rc < 0)
    decreases |ts|
  {
    hide Apply, Laws, SoundBook, Unreadable;
    if ts == [] {
      UnreadableStep(host, book, t, user);
    } else {
      UnreadableStep(host, book, ts[0], user);
      SoundStep(host, book, ts[0]);
      UnreadableForever(host, Apply(host, book, ts[0]).book, ts[1..], t, user);
    }
  }

  // ----- A blank behind the bracket -----

  lemma {:induction false} StoredAsSent(host: Host, book: Book, w: string, t: Trxn)
    requires Laws(host) && t.trxntype == OM_NEWTOKEN && t.sender in book && book[t.sender].tokens == ""
    requires t.request == w + " "
    requires var r := ReadJson(host.element, w);
             ValidateReq(r, t.sender).Mint? && AllObjects(r.items) && !AnyNFT(r.items)
    ensures var one := Apply(host, book, t);
            && one.rc == 0 && one.book[t.sender].tokens == w + " " && !EndsInBracket(w + " ")
            && WalletOf(host, one.book[t.sender]) == Array(ReadJson(host.element, w).items)
  {
    hide ReaderLaws, PrinterLaws, ReadJson, MintAll, AnyNFT, EndsInBracket;
    BlankBehindReads(host.element, w, ReadJson(host.element, w).items);
  }

  /** The input that shows it: a first mint of w with a blank behind it is stored as sent and read as w, and any
      second mint that is not refused loses both. */
  lemma {:induction false} TrailingBlankLosesTokens(host: Host, book: Book, w: string, t1: Trxn, t2: Trxn)
    requires Laws(host) && SoundBook(host, book) && t1.trxntype == t2.trxntype == OM_NEWTOKEN
    requires t1.sender == t2.sender && t1.sender in book && book[t1.sender].tokens == "" && t1.request == w + " "
    requires var r := ReadJson(host.element, w);
             ValidateReq(r, t1.sender).Mint? && AllObjects(r.items) && !AnyNFT(r.items)
    ensures var one := Apply(host, book, t1);
            && one.rc == 0 && WalletOf(host, one.book[t1.sender]) == Array(ReadJson(host.element, w).items)
            && var two := Apply(host, one.book, t2);
               two.rc >= 0 ==> Unreadable(host, two.book, t1.sender)
  {
    hide Laws, ReadJson, SoundBook, ValidateReq, AnyNFT, AllObjects, EndsInBracket, Apply, Sound;
    StoredAsSent(host, book, w, t1);
    SoundStep(host, book, t1);
    var one := Apply(host, book, t1);
    if Apply(host, one.book, t2).rc >= 0 {
      MintIsReadExactlyWhen(host, one.book, t2);
      NeverArray(host, Apply(host, one.book, t2).book[t1.sender].tokens);
    }
  }

  lemma {:induction false} NeverArray(host: Host, text: string)
    requires text != ""
    ensures ReadWallet(host.element, text).Array? || ReadWallet(host.element, text).Garbled?
  {
    hide ReadJson;
  }
}
