/** BlockMgr (src/blockmgr.cc): the stores and logs of one node, and the operations that change them, refining
    the functions of Ledgers. */
module BlockMgrs {
  import opened Accounts
  import opened BlockLogs
  import opened BlockReaders
  import opened JsonTexts
  import opened Ledgers
  import LedgerTotals
  import opened OmFiles
  import opened StrSplits
  import opened Text
  import opened TextSplices
  import opened TokenDocs
  import opened Tokens
  import opened Trxns
  import opened Wals
  import opened Wrappers

  class BlockMgr {
    const host: Host
    /** The account stores, by user. */
    var book: Book
    /** The block files, by path. */
    var files: Files
    var wallog: string

    constructor (host: Host)
      ensures this.host == host && View() == Ledger(map[], map[], "")
    {
      this.host := host;
      book := map[];
      files := map[];
      wallog := "";
    }

    ghost function View(): Ledger
      reads this
    {
      Ledger(book, files, wallog)
    }

    /** put: the record of an account is written back. */
    method Put(user: string, acct: OmAccount)
      modifies `book
      ensures book == old(book)[user := acct.Json()]
    {
      book := book[user := acct.Json()];
    }

    method UpdateAcctBalances(from: string, to: string, amt: int) returns (rc: int)
      modifies `book
      ensures Outcome(rc, book) == Pay(old(book), from, to, amt)
    {
      if from !in book {
        return -90;
      }
      if to !in book {
        return -92;
      }
      var fromAcct := new OmAccount(book[from]);
      var toAcct := new OmAccount(book[to]);
      var bal := fromAcct.AddBalance(0 - amt);
      if bal < -1 {
        return -30;
      }
      fromAcct.IncrementFence();
      var _ := toAcct.AddBalance(amt);
      toAcct.IncrementIn();
      Put(from, fromAcct);
      Put(to, toAcct);
      rc := 0;
    }

    method CreateAcct(from: string, accttype: string, pubkey: string) returns (rc: int)
      modifies `book
      ensures Outcome(rc, book) == Ledgers.CreateAcct(old(book), from, accttype, pubkey)
    {
      if |from| > OM_NAME_MAXSZ {
        return -1;
      }
      if from in book {
        return -3;
      }
      if accttype != "U" && accttype != "C" {
        return -5;
      }
      var acct := new OmAccount(Account(accttype, 10000000, "O", pubkey, "DL5", 0, 0, ""));
      Put(from, acct);
      rc := 0;
    }

    static method ValidateToken(from: string, item: Json) returns (rc: int, v: Json)
      ensures match MintOne(item, from)
              case BadMint(code) => rc == code && rc < 0
              case Mint(one) => rc == 0 && one == [v] && item.Object?
    {
      hide Find, SetFirst, Atoi;
      v := item;
      if v.NotObject? {
        return -25, v;
      }
      var tname := TextAt(v.members, "name");
      if tname.None? {
        return -27, v;
      }
      if |tname.value| < 1 {
        return -30, v;
      }
      if |tname.value| > OM_TOKEN_MAX_LEN {
        return -35, v;
      }
      var max := TextAt(v.members, "max");
      if max.None? {
        return -40, v;
      }
      if |max.value| < 1 || |max.value| > OM_NUM_MAXSZ {
        return -50, v;
      }
      if Atoi(max.value) == 1 {
        var m := v.members + [Member("owner", Value.Text(from))];
        v := Object(SetFirst(m, "owner", from));
      }
      rc := 0;
    }

    /** Checks a mint request and makes the sender the owner of every NFT in it. */
    static method ValidateReqTokens(from: string, req: Request) returns (rc: int, items: seq<Json>, hasChange: bool)
      ensures match ValidateReq(req, from)
              case BadMint(code) => rc == code && rc < 0
              case Mint(minted) => rc == 0 && items == minted && (hasChange <==> AnyNFT(req.items))
    {
      hide MintOne, MintsNFT;
      items, hasChange := [], false;
      if req.Invalid? {
        return -10, items, hasChange;
      }
      if req.NotArray? {
        return -20, items, hasChange;
      }
      var dom := req.items;
      var j := 0;
      while j < |dom|
        invariant j <= |dom|
        invariant AnyNFT(dom) <==> hasChange || AnyNFT(dom[j..])
        invariant MintAll(dom, from) == match MintAll(dom[j..], from)
                                        case BadMint(code) => BadMint(code)
                                        case Mint(rest) => Mint(items + rest)
      {
        assert dom[j..][1..] == dom[j + 1..];
        var code, v := ValidateToken(from, dom[j]);
        if code < 0 {
          return code, items, hasChange;
        }
        if MintsNFT(dom[j].members) {
          hasChange := true;
        }
        items := items + [v];
        j := j + 1;
      }
      assert dom[|dom|..] == [];
      rc := 0;
    }

    /** erase(find_last_not_of("]") + 1). */
    static method TrimRight(str: string) returns (r: string)
      ensures r == Trimmed(str)
    {
      var n := |str|;
      assert str[..n] == str;
      while n > 0 && str[n - 1] == ']'
        invariant n <= |str|
        invariant Trimmed(str[..n]) == Trimmed(str)
      {
        assert str[..n][..n - 1] == str[..n - 1];
        n := n - 1;
      }
      r := str[..n];
    }

    /** Skips to the first opening bracket and over it. */
    static method SkipToBracket(request: string) returns (found: bool, p: string)
      ensures match AfterBracket(request)
              case None => !found
              case Some(x) => found && p == x
    {
      p := request;
      while p != "" && p[0] != '['
        invariant AfterBracket(p) == AfterBracket(request)
        decreases |p|
      {
        p := p[1..];
      }
      if p == "" {
        return false, p;
      }
      return true, p[1..];
    }

    /** The request text comes back as it goes into the logs. */
    method CreateToken(t: Trxn) returns (rc: int, request: string)
      requires t.trxntype == OM_NEWTOKEN
      modifies `book
      ensures Outcome(rc, book) == Ledgers.CreateToken(host, old(book), t)
      ensures rc == 0 ==> t.(request := request) == Logged(host, t)
    {
      hide MintAll, AnyNFT, ReadJson, Print, Trimmed, AfterBracket;
      request := t.request;
      var from := t.sender;
      if from !in book {
        return -10, request;
      }
      var code, items, hasChange := ValidateReqTokens(from, ReadJson(host.element, t.request));
      if code < 0 {
        return -10, request;
      }
      if hasChange {
        request := Print(host.show, items);
      }
      var acct := new OmAccount(book[from]);
      if |acct.tokens| < 1 {
        acct.tokens := request;
      } else {
        var dup := host.dup(acct.tokens, request);
        if dup {
          return -15, request;
        }
        var str := TrimRight(acct.tokens);
        var found, p := SkipToBracket(request);
        if !found {
          return -20, request;
        }
        acct.tokens := str + ("," + p);
      }
      Put(from, acct);
      rc := 0;
    }

    method TransferToken(t: Trxn) returns (rc: int)
      modifies `book
      ensures Outcome(rc, book) == Ledgers.TransferToken(host, old(book), t)
    {
      hide ModifyTokens, ReadJson, Print;
      var from, to := t.sender, t.receiver;
      if from !in book {
        return -10;
      }
      if to !in book {
        return -20;
      }
      var fromacct := new OmAccount(book[from]);
      if |fromacct.tokens| < 1 {
        return -30;
      }
      var exist := host.dup(fromacct.tokens, t.request);
      if !exist {
        return -40;
      }
      var toacct := new OmAccount(book[to]);
      var code, fromTokens, toTokens := ModifyBoth(
        from, to, ReadJson(host.element, t.request),
        ReadWallet(host.element, fromacct.tokens), ReadWallet(host.element, toacct.tokens));
      if code < 0 {
        return -50;
      }
      fromacct.tokens := Print(host.show, Opened(fromTokens));
      toacct.tokens := Print(host.show, Opened(toTokens));
      fromacct.IncrementFence();
      toacct.IncrementIn();
      Put(from, fromacct);
      Put(to, toacct);
      rc := 0;
    }

    method IsXferTokenValid(t: Trxn) returns (rc: int)
      ensures rc == XferTokenValid(host, book, t)
    {
      hide CheckValidTokens, ReadJson;
      var from, to := t.sender, t.receiver;
      if from !in book {
        return -10;
      }
      if to !in book {
        return -20;
      }
      var fromacct := new OmAccount(book[from]);
      if |fromacct.tokens| < 1 {
        return -30;
      }
      var exist := host.dup(fromacct.tokens, t.request);
      if !exist {
        return -40;
      }
      var toacct := new OmAccount(book[to]);
      rc := CheckTokens(from, to, ReadJson(host.element, t.request),
                        ReadWallet(host.element, fromacct.tokens), ReadWallet(host.element, toacct.tokens));
      rc := if rc < 0 then -50 else 0;
    }

    /** The record, its success mark included, goes to the end of the user's file. */
    method AppendToBlockchain(t: Trxn, userid: string, ttype: char)
      modifies `files
      ensures files == AppendTo(old(files), host.path(userid, t.timestamp), RecordText(t, ttype))
    {
      var fpath := host.path(userid, t.timestamp);
      var tdata := TrxnData(t);
      var tsize := |tdata|;
      var was := if fpath in files then files[fpath] else "";
      files := files[fpath := was + (Decimal(tsize) + "~" + [ttype] + "~" + CString(tdata) + "~" + Decimal(tsize)
                                     + "~" + "T}")];
    }

    method AppendToWal(t: Trxn, now: nat)
      modifies `wallog
      ensures wallog == old(wallog) + WalText(host, t, now)
    {
      var zip := host.pack(AllStr(t));
      wallog := wallog + (Decimal(now) + "-" + CString(TrxnID(t)) + "-" + Decimal(|zip|) + "-" + zip + "|");
    }

    /** saveTrxn: the change to the stores first, then the logs. */
    method SaveTrxn(t: Trxn, now: Option<nat>) returns (rc: int)
      modifies this
      ensures Saved(rc, View()) == Save(host, old(View()), t, now)
    {
      hide Pay, Ledgers.CreateAcct, Ledgers.CreateToken, Ledgers.TransferToken, MintedText, WalText, RecordText, Atol;
      var trxn := t;
      var urc;
      if t.trxntype == OM_PAYMENT {
        urc := UpdateAcctBalances(t.sender, t.receiver, Atol(t.amount));
      } else if t.trxntype == OM_NEWACCT {
        urc := CreateAcct(t.sender, host.acctType(t.request), t.userPubkey);
      } else if t.trxntype == OM_NEWTOKEN {
        var request;
        urc, request := CreateToken(t);
        trxn := t.(request := request);
      } else if t.trxntype == OM_XFERTOKEN {
        urc := TransferToken(t);
      } else {
        urc := -1000;
      }
      LedgerTotals.FailureChangesNothing(host, old(book), t);
      if urc < 0 {
        return urc;
      }
      if now.Some? {
        AppendToWal(trxn, now.value);
      }
      AppendToBlockchain(trxn, trxn.sender, '-');
      if trxn.trxntype == OM_PAYMENT || trxn.trxntype == OM_XFERTOKEN {
        AppendToBlockchain(trxn, trxn.receiver, '+');
      }
      rc := 0;
    }

    /** readTrxns of a user's file. */
    method ReadTrxnsOf(from: string, timestamp: string, trxnId: string)
      returns (rc: int, vec: seq<string>, tstat: char)
      ensures LogRead(rc, vec, tstat) == ReadTrxns(FileAt(files, host.path(from, timestamp)), trxnId)
    {
      var fpath := host.path(from, timestamp);
      var file := if fpath in files then Some(files[fpath]) else None;
      rc, vec, tstat := ReadAll(file, trxnId);
    }

    // ----- Replay -----

    /** The bytes up to the next '-'. */
    static method ReadField(f: OmFile) returns (tooLong: bool, buf: string)
      modifies f
      ensures match CutField(old(f.Left()))
              case TooLong => tooLong
              case Cut(text, rest) => !tooLong && buf == text && f.Left() == rest
    {
      ghost var s := f.Left();
      var buf64 := "";
      tooLong, buf := false, "";
      while true
        invariant CutFrom(buf64, f.Left()) == CutField(s)
        decreases |f.Left()|
      {
        var n, c := f.Read1();
        if n != 1 || c == '-' {
          break;
        }
        if |buf64| > 60 {
          tooLong := true;
          return;
        }
        buf64 := buf64 + [c];
      }
      buf := CString(buf64);
    }

    static method ReadHead(f: OmFile) returns (more: bool, logtime: int, trxnid: string, zipsize: nat)
      modifies f
      ensures match ReadHeader(old(f.Left()))
              case End => !more
              case Header(time, id, size, rest) =>
                more && logtime == time && trxnid == id && zipsize == size && f.Left() == rest
    {
      hide CutField, Atol;
      more, logtime, trxnid, zipsize := false, 0, "", 0;
      var tooLong, buf := ReadField(f);
      if tooLong || buf == "" {
        return;
      }
      logtime := Atol(buf);
      tooLong, trxnid := ReadField(f);
      if tooLong || trxnid == "" {
        return;
      }
      tooLong, buf := ReadField(f);
      if tooLong || buf == "" {
        return;
      }
      zipsize := Atol(buf) % 0x1_0000_0000;
      more := true;
    }

    /** The compressed transaction in a zeroed buffer, and the '|' after it. */
    static method ReadZip(f: OmFile, zipsize: nat) returns (zip: string)
      modifies f
      ensures zip == Filled(old(f.Left()), zipsize) && f.Left() == Drop(Drop(old(f.Left()), zipsize), 1)
    {
      var buf := f.SafeRead(zipsize);
      zip := buf + seq(zipsize - |buf|, _ => '\0');
      var _, _ := f.Read1();
    }

    /** One record of the window: check it, look it up, and apply it when it is missing. */
    method ReplayRecord(verify: bool, trxnid: string, zip: string)
      modifies this
      ensures View() == ReplayOne(host, old(View()), verify, trxnid, zip)
    {
      hide Save, ReadTrxns, Parse, SenderIn;
      var t := Parse(host.unpack(zip), host.clock);
      if verify && !host.valid(t) {
        return;
      }
      var insideTrxnId := TrxnID(t);
      if insideTrxnId != trxnid {
        return;
      }
      var from1 := SenderIn(insideTrxnId);
      if from1 != t.sender {
        return;
      }
      var _, vec, _ := ReadTrxnsOf(t.sender, t.timestamp, trxnid);
      if |vec| < 1 {
        var _ := SaveTrxn(t, None);
      }
    }

    method ReplayWallog(log: string, verify: bool, start: int, end: int)
      modifies this
      ensures View() == Replay(host, old(View()), log, verify, Window(start, end))
    {
      hide ReadHeader, ReplayOne, Filled;
      ghost var w := Window(start, end);
      var f := new OmFile(log);
      while true
        invariant fresh(f)
        invariant Replay(host, View(), f.Left(), verify, w) == Replay(host, old(View()), log, verify, w)
        decreases |f.Left()|
      {
        var more, logtime, trxnid, zipsize := ReadHead(f);
        if !more {
          break;
        }
        if !(start <= logtime <= end) {
          if logtime > end {
            break;
          }
          f.Seek(zipsize + 1);
          continue;
        }
        var zip := ReadZip(f, zipsize);
        ReplayRecord(verify, trxnid, zip);
      }
    }
  }
}
