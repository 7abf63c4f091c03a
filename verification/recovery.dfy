/** Recovery: what replaying the write-ahead log rebuilds after a crash between two transactions. */
module Recoveries {
  import opened BlockLogs
  import opened JsonTexts
  import opened Ledgers
  import LedgerTotals
  import opened OmFiles
  import opened StrSplits
  import opened Text
  import opened Trxns
  import opened Wals
  import opened Wrappers

  // ----- The block files as records -----

  type Shelves = map<string, seq<Record>>

  /** Every block file is the text of loggable records. */
  ghost predicate Shelved(files: Files, sh: Shelves) {
    && files.Keys == sh.Keys
    && forall p :: p in sh ==> files[p] == LogText(sh[p]) && forall r :: r in sh[p] ==> Loggable(r.trxn)
  }

  function PutRecord(sh: Shelves, path: string, r: Record): Shelves {
    sh[path := (if path in sh then sh[path] else []) + [r]]
  }

  function Shelve(host: Host, sh: Shelves, t: Trxn): Shelves {
    var sent := PutRecord(sh, host.path(t.sender, t.timestamp), Record(t, '-'));
    if TwoSided(t) then PutRecord(sent, host.path(t.receiver, t.timestamp), Record(t, '+')) else sent
  }

  lemma {:induction false} LogTextAppend(recs: seq<Record>, r: Record)
    ensures LogText(recs + [r]) == LogText(recs) + RecordText(r.trxn, r.ttype)
    decreases |recs|
  {
    hide RecordText;
    if recs == [] {
      assert recs + [r] == [r] && [r][1..] == [];
    } else {
      assert (recs + [r])[1..] == recs[1..] + [r];
      LogTextAppend(recs[1..], r);
    }
  }

  lemma {:induction false} PutIsShelved(files: Files, sh: Shelves, path: string, r: Record)
    requires Shelved(files, sh) && Loggable(r.trxn)
    ensures Shelved(AppendTo(files, path, RecordText(r.trxn, r.ttype)), PutRecord(sh, path, r))
  {
    hide RecordText, Loggable, LogText;
    LogTextAppend(if path in sh then sh[path] else [], r);
    EmptyLogText();
  }

  lemma {:induction false} EmptyLogText()
    ensures LogText([]) == ""
  {
  }

  lemma {:induction false} AppendIsShelved(host: Host, files: Files, sh: Shelves, t: Trxn)
    requires Shelved(files, sh) && Loggable(t)
    ensures Shelved(AppendBlocks(host, files, t), Shelve(host, sh, t))
  {
    hide RecordText, Loggable, LogText;
    var path := host.path(t.sender, t.timestamp);
    PutIsShelved(files, sh, path, Record(t, '-'));
    if TwoSided(t) {
      PutIsShelved(AppendTo(files, path, RecordText(t, '-')), PutRecord(sh, path, Record(t, '-')),
                   host.path(t.receiver, t.timestamp), Record(t, '+'));
    }
  }

  /** Is the id among the records of that file? */
  ghost predicate OnShelf(sh: Shelves, path: string, id: string) {
    path in sh && exists r :: r in sh[path] && TrxnID(r.trxn) == id
  }

  ghost predicate Absent(sh: Shelves, id: string) {
    forall p :: !OnShelf(sh, p, id)
  }

  lemma {:induction false} DataOfFound(recs: seq<Record>, id: string)
    ensures DataOf(recs, id) != [] <==> exists r :: r in recs && TrxnID(r.trxn) == id
    decreases |recs|
  {
    hide TrxnID, TrxnData;
    if recs != [] {
      DataOfFound(recs[1..], id);
      assert recs == [recs[0]] + recs[1..];
    }
  }

  /** The reader finds an id in a file exactly when it is on the shelf. */
  lemma {:induction false} FoundExactlyOnShelf(files: Files, sh: Shelves, path: string, id: string)
    requires Shelved(files, sh) && id != ""
    ensures ReadTrxns(FileAt(files, path), id).found != [] <==> OnShelf(sh, path, id)
  {
    hide LogText, Loggable, TrxnID, DataOf, ReadLog;
    if path in sh {
      LogRoundTrip(sh[path], id);
      DataOfFound(sh[path], id);
    }
  }

  lemma {:induction false} ShelveAdds(host: Host, sh: Shelves, t: Trxn, path: string, id: string)
    ensures OnShelf(Shelve(host, sh, t), path, id) ==> OnShelf(sh, path, id) || TrxnID(t) == id
    ensures OnShelf(sh, path, id) ==> OnShelf(Shelve(host, sh, t), path, id)
    ensures OnShelf(Shelve(host, sh, t), host.path(t.sender, t.timestamp), TrxnID(t))
  {
    hide TrxnID;
    var after, mine := Shelve(host, sh, t), host.path(t.sender, t.timestamp);
    assert Record(t, '-') in after[mine];
    if OnShelf(sh, path, id) {
      var r :| r in sh[path] && TrxnID(r.trxn) == id;
      assert r in after[path];
    }
  }

  // ----- One record of the log -----

  /** The logged form fits the formats, survives compression, and its id is at most 61 characters without '-'
      and names the sender after its only colon. */
  ghost predicate Replayable(host: Host, t: Trxn) {
    && Writable(t) && Loggable(t)
    && host.unpack(host.pack(AllStr(t))) == AllStr(t)
    && |host.pack(AllStr(t))| < 0x1_0000_0000
    && |TrxnID(t)| <= 61 && '-' !in TrxnID(t)
    && ':' !in t.timestamp && ':' !in t.sender
  }

  /** A log time inside the window; time_t has 64 bits. */
  predicate InWindow(w: Window, now: nat) {
    w.start <= now <= w.end && now < 0x1_0000_0000_0000_0000
  }

  lemma {:induction false} NumberCuts(n: nat, rest: string)
    requires n < 0x1_0000_0000_0000_0000
    ensures CutField(Decimal(n) + "-" + rest) == Cut(Decimal(n), rest)
    ensures Atol(Decimal(n)) == n && Decimal(n) != ""
  {
    assert Power10(20) > 0x1_0000_0000_0000_0000 by {
      assert Power10(20) == 10 * Power10(19) && Power10(19) == 10 * Power10(18) && Power10(18) == 10 * Power10(17);
      assert Power10(17) == 10 * Power10(16) && Power10(16) == 10 * Power10(15) && Power10(15) == 10 * Power10(14);
      assert Power10(14) == 10 * Power10(13) && Power10(13) == 10 * Power10(12) && Power10(12) == 1000000000000;
    }
    DecimalLength(n, 20);
    CutReads("", Decimal(n), rest);
    CStringWhole(Decimal(n));
    assert "" + Decimal(n) == Decimal(n) == Decimal(n) + "";
    AtolOfDecimal(n, "");
  }

  lemma {:induction false} IdIsText(t: Trxn)
    requires Writable(t)
    ensures CString(TrxnID(t)) == TrxnID(t)
  {
    var f := DataFields(t);
    assert f[5] in f && f[2] in f && Plain(f[5]) && Plain(f[2]);
    CStringWhole(TrxnID(t));
  }

  lemma {:induction false} IdCuts(t: Trxn, rest: string)
    requires Writable(t) && |TrxnID(t)| <= 61 && '-' !in TrxnID(t)
    ensures CutField(TrxnID(t) + "-" + rest) == Cut(TrxnID(t), rest)
    ensures CString(TrxnID(t)) == TrxnID(t) && TrxnID(t) != ""
  {
    var id := TrxnID(t);
    IdIsText(t);
    CutReads("", id, rest);
    assert "" + id == id;
  }

  lemma {:induction false} IdNamesSender(t: Trxn)
    requires Writable(t) && ':' !in t.timestamp && ':' !in t.sender
    ensures SenderIn(TrxnID(t)) == t.sender
  {
    var id, parts := TrxnID(t), [t.timestamp, t.sender];
    IdIsText(t);
    assert parts[1..] == [t.sender];
    assert Join(parts, ':') == id;
    PiecesOfJoin(parts, ':');
  }

  lemma {:induction false} HeaderReads(t: Trxn, now: nat, size: nat, rest: string)
    requires Writable(t) && |TrxnID(t)| <= 61 && '-' !in TrxnID(t)
    requires now < 0x1_0000_0000_0000_0000 && size < 0x1_0000_0000
    ensures ReadHeader(Decimal(now) + "-" + (TrxnID(t) + "-" + (Decimal(size) + "-" + rest)))
            == Header(now, TrxnID(t), size, rest)
  {
    hide CutField, Decimal, Atol, TrxnID, Writable;
    NumberCuts(now, TrxnID(t) + "-" + (Decimal(size) + "-" + rest));
    IdCuts(t, Decimal(size) + "-" + rest);
    NumberCuts(size, rest);
  }

  /** Replaying leaves out what does not validate when it is asked to verify, and what its file already holds. */
  predicate Applies(host: Host, files: Files, t: Trxn, verify: bool) {
    (verify ==> host.valid(t)) && Missing(host, files, t, TrxnID(t))
  }

  /** A record inside the window is read back whole, and applied exactly when it validates, if that is asked
      for, and its file does not hold it. */
  lemma {:induction false} RecordReplays(host: Host, l: Ledger, t: Trxn, now: nat, rest: string, verify: bool,
                                         w: Window)
    requires Replayable(host, t) && InWindow(w, now)
    ensures var next := if Applies(host, l.files, t, verify) then Save(host, l, t, None).ledger else l;
            Replay(host, l, WalText(host, t, now) + rest, verify, w) == Replay(host, next, rest, verify, w)
  {
    hide Missing, Save, Writable, Loggable, TrxnID, AllStr, Decimal, ReadHeader, Parse;
    var zip := host.pack(AllStr(t));
    var tail := zip + "|" + rest;
    IdCuts(t, "");
    assert WalText(host, t, now) + rest
        == Decimal(now) + "-" + (TrxnID(t) + "-" + (Decimal(|zip|) + "-" + tail));
    HeaderReads(t, now, |zip|, tail);
    assert Filled(tail, |zip|) == zip;
    assert Drop(tail, |zip|) == "|" + rest;
    assert Drop(Drop(tail, |zip|), 1) == rest;
    WritableIsRestored(t, host.clock);
  }

  /** A record from before the window is passed over whole, and one from after it ends the replay. */
  lemma {:induction false} RecordOutsideWindow(host: Host, l: Ledger, t: Trxn, now: nat, rest: string, verify: bool,
                                               w: Window)
    requires Replayable(host, t) && now < 0x1_0000_0000_0000_0000
    ensures now > w.end ==> Replay(host, l, WalText(host, t, now) + rest, verify, w) == l
    ensures now < w.start && now <= w.end ==>
              Replay(host, l, WalText(host, t, now) + rest, verify, w) == Replay(host, l, rest, verify, w)
  {
    hide Writable, Loggable, TrxnID, AllStr, Decimal, ReadHeader, ReplayOne;
    var zip := host.pack(AllStr(t));
    var tail := zip + "|" + rest;
    IdCuts(t, "");
    assert WalText(host, t, now) + rest
        == Decimal(now) + "-" + (TrxnID(t) + "-" + (Decimal(|zip|) + "-" + tail));
    HeaderReads(t, now, |zip|, tail);
    assert Drop(tail, |zip| + 1) == rest;
  }

  // ----- Runs -----

  datatype Entry = Entry(trxn: Trxn, now: nat)

  /** The node saves one transaction after the other and writes the log. */
  function Run(host: Host, l: Ledger, es: seq<Entry>): Ledger
    decreases |es|
  {
    if es == [] then l else Run(host, Save(host, l, es[0].trxn, Some(es[0].now)).ledger, es[1..])
  }

  /** What a run adds to the log: its successes. */
  function LogOf(host: Host, book: Book, es: seq<Entry>): string
    decreases |es|
  {
    if es == [] then ""
    else
      var done := Apply(host, book, es[0].trxn);
      (if done.rc < 0 then "" else WalText(host, Logged(host, es[0].trxn), es[0].now))
      + LogOf(host, if done.rc < 0 then book else done.book, es[1..])
  }

  /** The shelves after a run. */
  function RunShelves(host: Host, book: Book, sh: Shelves, es: seq<Entry>): Shelves
    decreases |es|
  {
    if es == [] then sh
    else
      var done := Apply(host, book, es[0].trxn);
      if done.rc < 0 then RunShelves(host, book, sh, es[1..])
      else RunShelves(host, done.book, Shelve(host, sh, Logged(host, es[0].trxn)), es[1..])
  }

  lemma {:induction false} RunAppends(host: Host, l: Ledger, es: seq<Entry>)
    ensures Run(host, l, es).wal == l.wal + LogOf(host, l.book, es)
    decreases |es|
  {
    hide Apply, WalText, Logged, AppendBlocks;
    if es != [] {
      RunAppends(host, Save(host, l, es[0].trxn, Some(es[0].now)).ledger, es[1..]);
    } else {
      assert l.wal + "" == l.wal;
    }
  }

  lemma {:induction false} RunSplits(host: Host, l: Ledger, es: seq<Entry>, k: nat)
    requires k <= |es|
    ensures Run(host, l, es) == Run(host, Run(host, l, es[..k]), es[k..])
    ensures LogOf(host, l.book, es) == LogOf(host, l.book, es[..k]) + LogOf(host, Run(host, l, es[..k]).book, es[k..])
    decreases k
  {
    hide Apply, WalText, Logged, AppendBlocks;
    if k == 0 {
      assert es[..0] == [] && es[0..] == es;
    } else {
      assert es[..k][0] == es[0] && es[..k][1..] == es[1..][..k - 1] && es[1..][k - 1..] == es[k..];
      RunSplits(host, Save(host, l, es[0].trxn, Some(es[0].now)).ledger, es[1..], k - 1);
    }
  }

  ghost predicate AllReplayable(host: Host, es: seq<Entry>, w: Window) {
    forall e :: e in es ==> Replayable(host, Logged(host, e.trxn)) && InWindow(w, e.now)
  }

  lemma {:induction false} LoggedKeepsId(host: Host, t: Trxn)
    ensures var g := Logged(host, t);
            TrxnID(g) == TrxnID(t) && g.sender == t.sender && g.timestamp == t.timestamp && TwoSided(g) == TwoSided(t)
  {
    hide MintedText;
  }

  lemma {:induction false} ReplayableIsLoggable(host: Host, t: Trxn)
    requires Replayable(host, t)
    ensures Loggable(t)
  {
  }

  /** A run keeps the block files on their shelves, takes nothing off them and puts every success on. */
  lemma {:induction false} RunIsShelved(host: Host, l: Ledger, sh: Shelves, es: seq<Entry>, w: Window)
    requires Shelved(l.files, sh) && AllReplayable(host, es, w)
    ensures Shelved(Run(host, l, es).files, RunShelves(host, l.book, sh, es))
    ensures forall p, id :: OnShelf(sh, p, id) ==> OnShelf(RunShelves(host, l.book, sh, es), p, id)
    ensures forall p, id :: OnShelf(RunShelves(host, l.book, sh, es), p, id) ==>
              OnShelf(sh, p, id) || exists e :: e in es && TrxnID(e.trxn) == id
    decreases |es|
  {
    hide Apply, WalText, Logged, AppendBlocks, Shelved, Shelve, OnShelf, Replayable, TrxnID, InWindow;
    if es != [] {
      var t := es[0].trxn;
      var g, done := Logged(host, t), Apply(host, l.book, t);
      var next := Save(host, l, t, Some(es[0].now)).ledger;
      LoggedKeepsId(host, t);
      assert Replayable(host, g);
      ReplayableIsLoggable(host, g);
      if done.rc < 0 {
        RunIsShelved(host, next, sh, es[1..], w);
      } else {
        AppendIsShelved(host, l.files, sh, g);
        forall p, id
          ensures OnShelf(Shelve(host, sh, g), p, id) ==> OnShelf(sh, p, id) || TrxnID(t) == id
          ensures OnShelf(sh, p, id) ==> OnShelf(Shelve(host, sh, g), p, id)
        {
          ShelveAdds(host, sh, g, p, id);
        }
        RunIsShelved(host, next, Shelve(host, sh, g), es[1..], w);
      }
    }
  }

  // ----- Replaying what is already applied -----

  ghost predicate DistinctIds(es: seq<Entry>) {
    forall i, j :: 0 <= i < j < |es| ==> TrxnID(es[i].trxn) != TrxnID(es[j].trxn)
  }

  /** Every success of the run is on its sender's shelf. */
  lemma {:induction false} SuccessesAreShelved(host: Host, l: Ledger, sh: Shelves, es: seq<Entry>, i: nat, w: Window)
    requires Shelved(l.files, sh) && AllReplayable(host, es, w) && i < |es|
    requires Apply(host, Run(host, l, es[..i]).book, es[i].trxn).rc >= 0
    ensures var t := es[i].trxn;
            OnShelf(RunShelves(host, l.book, sh, es), host.path(t.sender, t.timestamp), TrxnID(t))
    decreases |es|
  {
    hide Apply, WalText, Logged, AppendBlocks, Shelved, Shelve, OnShelf, Replayable, TrxnID, InWindow;
    var t := es[0].trxn;
    var g, done := Logged(host, t), Apply(host, l.book, t);
    var next := Save(host, l, t, Some(es[0].now)).ledger;
    LoggedKeepsId(host, t);
    assert Replayable(host, g);
    ReplayableIsLoggable(host, g);
    AppendIsShelved(host, l.files, sh, g);
    var sh1 := if done.rc < 0 then sh else Shelve(host, sh, g);
    if i == 0 {
      assert es[..0] == [];
      ShelveAdds(host, sh, g, host.path(t.sender, t.timestamp), TrxnID(t));
      RunIsShelved(host, next, sh1, es[1..], w);
    } else {
      assert es[1..][..i - 1] == es[..i][1..] && es[1..][i - 1] == es[i] && es[..i][0] == es[0];
      SuccessesAreShelved(host, next, sh1, es[1..], i - 1, w);
    }
  }

  /** A log whose successes are all on the shelves changes nothing. */
  lemma {:induction false} AppliedIsSkipped(host: Host, l: Ledger, sh: Shelves, book: Book, es: seq<Entry>,
                                            rest: string,
                                            verify: bool, w: Window)
    requires Shelved(l.files, sh) && AllReplayable(host, es, w)
    requires forall i :: 0 <= i < |es| && Succeeds(host, book, es, i) ==>
               var t := es[i].trxn; OnShelf(sh, host.path(t.sender, t.timestamp), TrxnID(t))
    ensures Replay(host, l, LogOf(host, book, es) + rest, verify, w) == Replay(host, l, rest, verify, w)
    decreases |es|
  {
    hide Apply, WalText, Logged, Shelved, OnShelf, Replayable, TrxnID, InWindow, Replay;
    if es == [] {
      assert LogOf(host, book, es) + rest == rest;
    } else {
      var t := es[0].trxn;
      var g, done := Logged(host, t), Apply(host, book, t);
      var next := if done.rc < 0 then book else done.book;
      forall i | 0 <= i < |es[1..]| && Succeeds(host, next, es[1..], i)
        ensures var u := es[1..][i].trxn; OnShelf(sh, host.path(u.sender, u.timestamp), TrxnID(u))
      {
        assert es[1..][i] == es[i + 1] && Succeeds(host, book, es, i + 1);
      }
      AppliedIsSkipped(host, l, sh, next, es[1..], rest, verify, w);
      if done.rc >= 0 {
        var more := LogOf(host, next, es[1..]) + rest;
        assert LogOf(host, book, es) + rest == WalText(host, g, es[0].now) + more;
        assert Succeeds(host, book, es, 0);
        assert Replayable(host, g);
        LoggedKeepsId(host, t);
        OnShelfIsNotMissing(host, l.files, sh, g);
        RecordReplays(host, l, g, es[0].now, more, verify, w);
      } else {
        assert LogOf(host, book, es) == LogOf(host, next, es[1..]);
      }
    }
  }

  /** The accounts before entry i of a run. */
  function Books(host: Host, book: Book, es: seq<Entry>, i: nat): Book
    requires i <= |es|
    decreases i
  {
    if i == 0 then book
    else
      var done := Apply(host, book, es[0].trxn);
      Books(host, if done.rc < 0 then book else done.book, es[1..], i - 1)
  }

  /** Does entry i of a run go through? */
  predicate Succeeds(host: Host, book: Book, es: seq<Entry>, i: nat)
    requires i < |es|
  {
    Apply(host, Books(host, book, es, i), es[i].trxn).rc >= 0
  }

  lemma {:induction false} SuccessesShift(host: Host, m: Ledger, es: seq<Entry>)
    requires es != []
    ensures var next := Save(host, m, es[0].trxn, Some(es[0].now)).ledger;
            forall i :: 0 <= i < |es| - 1 ==>
              es[1..][i] == es[i + 1] && (Succeeds(host, next.book, es[1..], i) <==> Succeeds(host, m.book, es, i + 1))
  {
    hide Apply, WalText, Logged, AppendBlocks;
  }

  lemma {:induction false} OnShelfIsNotMissing(host: Host, files: Files, sh: Shelves, t: Trxn)
    requires Shelved(files, sh) && Replayable(host, t)
    ensures Missing(host, files, t, TrxnID(t)) <==> !OnShelf(sh, host.path(t.sender, t.timestamp), TrxnID(t))
  {
    hide Loggable, LogText, SenderIn, ReadTrxns, Writable, OnShelf;
    IdIsNotEmpty(t);
    IdNamesSender(t);
    FoundExactlyOnShelf(files, sh, host.path(t.sender, t.timestamp), TrxnID(t));
  }

  lemma {:induction false} IdIsNotEmpty(t: Trxn)
    ensures TrxnID(t) != ""
  {
    assert |TrxnID(t)| == |t.timestamp| + 1 + |t.sender|;
  }

  lemma {:induction false} BooksAreRuns(host: Host, l: Ledger, es: seq<Entry>, i: nat)
    requires i <= |es|
    ensures Books(host, l.book, es, i) == Run(host, l, es[..i]).book
    decreases i
  {
    hide Apply, WalText, Logged, AppendBlocks;
    if i > 0 {
      assert es[..i][0] == es[0] && es[..i][1..] == es[1..][..i - 1];
      BooksAreRuns(host, Save(host, l, es[0].trxn, Some(es[0].now)).ledger, es[1..], i - 1);
    } else {
      assert es[..0] == [];
    }
  }

  // ----- Replaying what is not -----

  /** Does committing this transaction rewrite its request, to set the owner of an NFT? */
  predicate MintsOwned(host: Host, t: Trxn) {
    t.trxntype == OM_NEWTOKEN && var req := ReadJson(host.element, t.request); req.Elements? && AnyNFT(req.items)
  }

  lemma {:induction false} LoggedAsSent(host: Host, t: Trxn)
    requires !MintsOwned(host, t)
    ensures Logged(host, t) == t
  {
  }

  /** Saving depends on the log only through what it appends to it. */
  lemma {:induction false} SaveWithoutLog(host: Host, l: Ledger, m: Ledger, t: Trxn, now: nat)
    requires l.book == m.book && l.files == m.files
    ensures var a, b := Save(host, l, t, None), Save(host, m, t, Some(now));
            a.rc == b.rc && a.ledger.book == b.ledger.book && a.ledger.files == b.ledger.files
  {
    hide Apply, WalText, Logged, AppendBlocks;
  }

  /** A log of transactions that are nowhere on the shelves is applied in full. */
  lemma {:induction false} MissingIsReplayed(host: Host, l: Ledger, m: Ledger, sh: Shelves, es: seq<Entry>,
                                             verify: bool, w: Window)
    requires l.book == m.book && l.files == m.files
    requires Shelved(l.files, sh) && AllReplayable(host, es, w) && DistinctIds(es)
    requires forall e :: e in es ==> Absent(sh, TrxnID(e.trxn))
    requires forall i :: 0 <= i < |es| && Succeeds(host, m.book, es, i) ==>
               !MintsOwned(host, es[i].trxn) && (verify ==> host.valid(es[i].trxn))
    ensures var r, end := Replay(host, l, LogOf(host, m.book, es), verify, w), Run(host, m, es);
            r.book == end.book && r.files == end.files
    decreases |es|
  {
    hide Apply, WalText, Logged, AppendBlocks, Shelved, Shelve, OnShelf, Replayable, TrxnID, InWindow, MintsOwned;
    if es == [] {
      assert ReadHeader("") == Header.End;
    } else {
      var t, more := es[0].trxn, es[1..];
      var next := Save(host, m, t, Some(es[0].now)).ledger;
      assert es[0] in es;
      assert DistinctIds(more) by {
        assert forall i :: 0 <= i < |more| ==> more[i] == es[i + 1];
      }
      SuccessesShift(host, m, es);
      if Apply(host, m.book, t).rc < 0 {
        assert LogOf(host, m.book, es) == LogOf(host, m.book, more);
        MissingIsReplayed(host, l, next, sh, more, verify, w);
      } else {
        assert Succeeds(host, m.book, es, 0);
        LoggedAsSent(host, t);
        assert Replayable(host, t);
        ReplayableIsLoggable(host, t);
        OnShelfIsNotMissing(host, l.files, sh, t);
        var tail := LogOf(host, next.book, more);
        assert LogOf(host, m.book, es) == WalText(host, t, es[0].now) + tail;
        RecordReplays(host, l, t, es[0].now, tail, verify, w);
        SaveWithoutLog(host, l, m, t, es[0].now);
        AppendIsShelved(host, m.files, sh, t);
        var sh1 := Shelve(host, sh, t);
        forall e | e in more ensures Absent(sh1, TrxnID(e.trxn)) {
          var j :| 0 <= j < |more| && more[j] == e;
          assert es[j + 1] == e && TrxnID(es[0].trxn) != TrxnID(es[j + 1].trxn);
          forall p ensures !OnShelf(sh1, p, TrxnID(e.trxn)) {
            ShelveAdds(host, sh, t, p, TrxnID(e.trxn));
          }
        }
        MissingIsReplayed(host, Save(host, l, t, None).ledger, next, sh1, more, verify, w);
      }
    }
  }
}
