/** What one transaction does to the accounts, the block log and the write-ahead log (src/blockmgr.cc). */
module Ledgers {
  import opened Accounts
  import opened BlockLogs
  import opened JsonTexts
  import opened Text
  import opened TextSplices
  import opened Tokens
  import opened Trxns
  import opened Wrappers

  const OM_NAME_MAXSZ := 64

  const OM_PAYMENT := "P"
  const OM_NEWACCT := "A"
  const OM_NEWTOKEN := "T"
  const OM_XFERTOKEN := "X"

  type Book = map<string, Account>

  /** The libraries and settings behind the ledger. element and show read and print one JSON value; acctType
      reads the account type out of a request; dup is hasDupNames; path is the block file of a user and a
      timestamp; valid is the signature check; pack and unpack are the compression. */
  datatype Host = Host(
    element: Reader, show: Json -> string, acctType: string -> string,
    dup: (string, string) -> bool, path: (string, string) -> string,
    valid: Trxn -> bool, pack: string -> string, unpack: string -> string, clock: string)

  datatype Outcome = Outcome(rc: int, book: Book)

  // ----- Payments -----

  /** updateAcctBalances: both records are read before either is written. */
  function Pay(book: Book, from: string, to: string, amt: int): Outcome {
    if from !in book then Outcome(-90, book)
    else if to !in book then Outcome(-92, book)
    else
      var f, t := book[from], book[to];
      if Added(f.balance, -amt) < -1 then Outcome(-30, book)
      else
        var fromNew := f.(balance := Stored(f.balance, -amt), out := f.out + 1);
        var toNew := t.(balance := Stored(t.balance, amt), inn := t.inn + 1);
        Outcome(0, book[from := fromNew][to := toNew])
  }

  // ----- Accounts -----

  function CreateAcct(book: Book, from: string, accttype: string, pubkey: string): Outcome {
    if |from| > OM_NAME_MAXSZ then Outcome(-1, book)
    else if from in book then Outcome(-3, book)
    else if accttype != "U" && accttype != "C" then Outcome(-5, book)
    else Outcome(0, book[from := Account(accttype, 10000000, "O", pubkey, "DL5", 0, 0, "")])
  }

  // ----- New tokens -----

  /** atoi keeps the low 32 bits of what strtol found. */
  function Atoi(s: string): int {
    var v := Atol(s);
    var long := if v > 0x7fff_ffff_ffff_ffff then 0x7fff_ffff_ffff_ffff
                else if v < -0x8000_0000_0000_0000 then -0x8000_0000_0000_0000 else v;
    (long + 0x8000_0000) % 0x1_0000_0000 - 0x8000_0000
  }

  datatype Mint = BadMint(rc: int) | Mint(items: seq<Json>)

  predicate MintsNFT(m: seq<Member>) {
    var max := TextAt(m, "max");
    max.Some? && Atoi(max.value) == 1
  }

  /** A member is always added, and the first owner member is then set. */
  function WithOwner(m: seq<Member>, from: string): seq<Member> {
    SetFirst(m + [Member("owner", Text(from))], "owner", from)
  }

  function MintOne(item: Json, from: string): Mint {
    if item.NotObject? then BadMint(-25)
    else
      var name, max := TextAt(item.members, "name"), TextAt(item.members, "max");
      if name.None? then BadMint(-27)
      else if |name.value| < 1 then BadMint(-30)
      else if |name.value| > OM_TOKEN_MAX_LEN then BadMint(-35)
      else if max.None? then BadMint(-40)
      else if |max.value| < 1 || |max.value| > OM_NUM_MAXSZ then BadMint(-50)
      else Mint([if MintsNFT(item.members) then Object(WithOwner(item.members, from)) else item])
  }

  function MintAll(items: seq<Json>, from: string): Mint {
    if items == [] then Mint([])
    else
      match MintOne(items[0], from)
      case BadMint(rc) => BadMint(rc)
      case Mint(one) =>
        match MintAll(items[1..], from)
        case BadMint(rc) => BadMint(rc)
        case Mint(rest) => Mint(one + rest)
  }

  /** validateReqTokens. */
  function ValidateReq(req: Request, from: string): Mint {
    if req.Invalid? then BadMint(-10)
    else if req.NotArray? then BadMint(-20)
    else MintAll(req.items, from)
  }

  predicate AnyNFT(items: seq<Json>) {
    items != [] && ((items[0].Object? && MintsNFT(items[0].members)) || AnyNFT(items[1..]))
  }

  /** The request text after validation: written anew when an owner was set. */
  function MintedText(host: Host, t: Trxn): string {
    match ReadJson(host.element, t.request)
    case Elements(items) =>
      var m := MintAll(items, t.sender);
      if m.Mint? && AnyNFT(items) then Print(host.show, m.items) else t.request
    case _ => t.request
  }

  /** createToken: the request becomes the stored text, or is spliced onto it. */
  function CreateToken(host: Host, book: Book, t: Trxn): Outcome {
    var from := t.sender;
    if from !in book then Outcome(-10, book)
    else if ValidateReq(ReadJson(host.element, t.request), from).BadMint? then Outcome(-10, book)
    else
      var acct, request := book[from], MintedText(host, t);
      if acct.tokens == "" then Outcome(0, book[from := acct.(tokens := request)])
      else if host.dup(acct.tokens, request) then Outcome(-15, book)
      else
        match AfterBracket(request)
        case None => Outcome(-20, book)
        case Some(x) => Outcome(0, book[from := acct.(tokens := SpliceText(acct.tokens, x))])
  }

  // ----- Token transfers -----

  /** The tokens of an account, read. */
  function WalletOf(host: Host, a: Account): Wallet {
    ReadWallet(host.element, a.tokens)
  }

  function TransferToken(host: Host, book: Book, t: Trxn): Outcome {
    var from, to := t.sender, t.receiver;
    if from !in book then Outcome(-10, book)
    else if to !in book then Outcome(-20, book)
    else
      var f, r := book[from], book[to];
      if f.tokens == "" then Outcome(-30, book)
      else if !host.dup(f.tokens, t.request) then Outcome(-40, book)
      else
        match ModifyTokens(from, to, ReadJson(host.element, t.request), WalletOf(host, f), WalletOf(host, r))
        case Stuck(_) => Outcome(-50, book)
        case Moved(s, d) =>
          var fromNew := f.(tokens := Print(host.show, s), out := f.out + 1);
          var toNew := r.(tokens := Print(host.show, d), inn := r.inn + 1);
          Outcome(0, book[from := fromNew][to := toNew])
  }

  /** isXferTokenValid: what a node finds before it votes on a transfer. */
  function XferTokenValid(host: Host, book: Book, t: Trxn): int {
    var from, to := t.sender, t.receiver;
    if from !in book then -10
    else if to !in book then -20
    else if book[from].tokens == "" then -30
    else if !host.dup(book[from].tokens, t.request) then -40
    else
      var req := ReadJson(host.element, t.request);
      if CheckValidTokens(from, to, req, WalletOf(host, book[from]), WalletOf(host, book[to])) < 0 then -50 else 0
  }

  // ----- Any transaction -----

  function Apply(host: Host, book: Book, t: Trxn): Outcome {
    if t.trxntype == OM_PAYMENT then Pay(book, t.sender, t.receiver, Atol(t.amount))
    else if t.trxntype == OM_NEWACCT then CreateAcct(book, t.sender, host.acctType(t.request), t.userPubkey)
    else if t.trxntype == OM_NEWTOKEN then CreateToken(host, book, t)
    else if t.trxntype == OM_XFERTOKEN then TransferToken(host, book, t)
    else Outcome(-1000, book)
  }

  /** The transaction as it goes into the logs: minting may rewrite the request. */
  function Logged(host: Host, t: Trxn): Trxn {
    if t.trxntype == OM_NEWTOKEN then t.(request := MintedText(host, t)) else t
  }

  predicate TwoSided(t: Trxn) {
    t.trxntype == OM_PAYMENT || t.trxntype == OM_XFERTOKEN
  }

  /** The block files, by path. */
  type Files = map<string, string>

  function FileAt(files: Files, path: string): Option<string> {
    if path in files then Some(files[path]) else None
  }

  function AppendTo(files: Files, path: string, text: string): Files {
    files[path := (if path in files then files[path] else "") + text]
  }

  function AppendBlocks(host: Host, files: Files, t: Trxn): Files {
    var sent := AppendTo(files, host.path(t.sender, t.timestamp), RecordText(t, '-'));
    if TwoSided(t) then AppendTo(sent, host.path(t.receiver, t.timestamp), RecordText(t, '+')) else sent
  }

  /** One record of the write-ahead log. */
  function WalText(host: Host, t: Trxn, now: nat): string {
    var zip := host.pack(AllStr(t));
    Decimal(now) + "-" + CString(TrxnID(t)) + "-" + Decimal(|zip|) + "-" + zip + "|"
  }

  datatype Ledger = Ledger(book: Book, files: Files, wal: string)

  datatype Saved = Saved(rc: int, ledger: Ledger)

  /** saveTrxn; now is the time for the write-ahead log, None when it is not written. */
  function Save(host: Host, l: Ledger, t: Trxn, now: Option<nat>): Saved {
    var done := Apply(host, l.book, t);
    if done.rc < 0 then Saved(done.rc, l)
    else
      var logged := Logged(host, t);
      var wal := if now.Some? then l.wal + WalText(host, logged, now.value) else l.wal;
      Saved(0, Ledger(done.book, AppendBlocks(host, l.files, logged), wal))
  }
}
