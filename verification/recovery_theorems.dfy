/** Exactly when replaying the whole write-ahead log rebuilds the ledger. */
module RecoveryTheorems {
  import opened BlockLogs
  import opened JsonTexts
  import opened Ledgers
  import opened LedgerTokens
  import opened Recoveries
  import StrSplits
  import opened Tokens
  import opened TokenChecks
  import opened Trxns
  import opened WalletTexts
  import opened Wals
  import opened Wrappers

  /** A run from a ledger whose log is empty and whose block files hold none of its ids, with every entry in a
      form that can be replayed. */
  ghost predicate Clean(host: Host, l: Ledger, sh: Shelves, es: seq<Entry>, w: Window) {
    && l.wal == "" && Shelved(l.files, sh)
    && AllReplayable(host, es, w) && DistinctIds(es)
    && forall e :: e in es ==> Absent(sh, TrxnID(e.trxn))
  }

  /** Accounts and block files after replaying the log of a whole run from where its first k transactions left
      them. */
  function Recovered(host: Host, l: Ledger, es: seq<Entry>, k: nat, verify: bool, w: Window): Ledger
    requires k <= |es|
  {
    Replay(host, Run(host, l, es[..k]), Run(host, l, es).wal, verify, w)
  }

  ghost predicate SameLedger(a: Ledger, b: Ledger) {
    a.book == b.book && a.files == b.files
  }

  lemma {:induction false} LaterIdsAbsent(host: Host, l: Ledger, sh: Shelves, es: seq<Entry>, k: nat, w: Window, i: nat)
    requires Clean(host, l, sh, es, w) && k <= i < |es|
    ensures Absent(RunShelves(host, l.book, sh, es[..k]), TrxnID(es[i].trxn))
  {
    hide OnShelf, Shelved, AllReplayable, TrxnID;
    FirstIsReplayable(host, es, k, w);
    RunIsShelved(host, l, sh, es[..k], w);
    var id := TrxnID(es[i].trxn);
    assert es[i] in es;
    forall e | e in es[..k] ensures TrxnID(e.trxn) != id {
      var j :| 0 <= j < k && es[..k][j] == e;
      assert es[j] == e;
    }
  }

  lemma {:induction false} FirstIsReplayable(host: Host, es: seq<Entry>, k: nat, w: Window)
    requires AllReplayable(host, es, w) && k <= |es|
    ensures AllReplayable(host, es[..k], w) && AllReplayable(host, es[k..], w)
  {
    hide Replayable, InWindow;
  }

  lemma {:induction false} RestIsClean(host: Host, l: Ledger, sh: Shelves, es: seq<Entry>, k: nat, w: Window)
    requires Clean(host, l, sh, es, w) && k <= |es|
    ensures DistinctIds(es[k..])
    ensures forall e :: e in es[k..] ==> Absent(RunShelves(host, l.book, sh, es[..k]), TrxnID(e.trxn))
  {
    hide Absent, Shelved, AllReplayable, TrxnID;
    assert forall i :: 0 <= i < |es| - k ==> es[k..][i] == es[k + i];
    forall e | e in es[k..] ensures Absent(RunShelves(host, l.book, sh, es[..k]), TrxnID(e.trxn)) {
      var i :| 0 <= i < |es| - k && es[k..][i] == e;
      LaterIdsAbsent(host, l, sh, es, k, w, k + i);
    }
  }

  lemma {:induction false} BooksSplit(host: Host, l: Ledger, es: seq<Entry>, k: nat)
    requires k <= |es|
    ensures forall i :: 0 <= i < k ==> (Succeeds(host, l.book, es[..k], i) <==> Succeeds(host, l.book, es, i))
    ensures forall i :: 0 <= i < |es| - k ==>
              (Succeeds(host, Run(host, l, es[..k]).book, es[k..], i) <==> Succeeds(host, l.book, es, k + i))
  {
    hide Apply, Run, Books;
    forall i | 0 <= i < k ensures Succeeds(host, l.book, es[..k], i) <==> Succeeds(host, l.book, es, i) {
      BooksAreRuns(host, l, es, i);
      BooksAreRuns(host, l, es[..k], i);
      assert es[..k][..i] == es[..i];
    }
    forall i | 0 <= i < |es| - k
      ensures Succeeds(host, Run(host, l, es[..k]).book, es[k..], i) <==> Succeeds(host, l.book, es, k + i)
    {
      BooksAreRuns(host, l, es, k + i);
      BooksAreRuns(host, Run(host, l, es[..k]), es[k..], i);
      RunSplits(host, l, es[..k + i], k);
      assert es[..k + i][..k] == es[..k] && es[..k + i][k..] == es[k..][..i];
    }
  }

  lemma {:induction false} CleanRunRecovers(host: Host, l: Ledger, sh: Shelves, es: seq<Entry>, k: nat,
                                           verify: bool, w: Window)
    requires Clean(host, l, sh, es, w) && k <= |es|
    requires forall i :: k <= i < |es| && Succeeds(host, l.book, es, i) ==>
               !MintsOwned(host, es[i].trxn) && (verify ==> host.valid(es[i].trxn))
    ensures SameLedger(Recovered(host, l, es, k, verify, w), Run(host, l, es))
  {
    hide Absent, OnShelf, Replay, Run, LogOf, RunShelves, Succeeds, MintsOwned, AllReplayable, Shelved, TrxnID;
    var first, rest, crashed := es[..k], es[k..], Run(host, l, es[..k]);
    var shk := RunShelves(host, l.book, sh, first);
    RunSplits(host, l, es, k);
    RunAppends(host, l, es);
    FirstIsReplayable(host, es, k, w);
    RunIsShelved(host, l, sh, first, w);
    BooksSplit(host, l, es, k);
    forall i | 0 <= i < k && Succeeds(host, l.book, first, i)
      ensures var t := first[i].trxn; OnShelf(shk, host.path(t.sender, t.timestamp), TrxnID(t))
    {
      SuccessIsShelved(host, l, sh, first, i, w);
    }
    AppliedIsSkipped(host, crashed, shk, l.book, first, LogOf(host, crashed.book, rest), verify, w);
    RestIsClean(host, l, sh, es, k, w);
    assert forall i :: 0 <= i < |rest| ==> rest[i] == es[k + i];
    MissingIsReplayed(host, crashed, crashed, shk, rest, verify, w);
    assert Run(host, l, es).wal == LogOf(host, l.book, first) + LogOf(host, crashed.book, rest) by {
      assert "" + LogOf(host, l.book, es) == LogOf(host, l.book, es);
    }
  }

  lemma {:induction false} SuccessIsShelved(host: Host, l: Ledger, sh: Shelves, es: seq<Entry>, i: nat, w: Window)
    requires Shelved(l.files, sh) && AllReplayable(host, es, w) && i < |es| && Succeeds(host, l.book, es, i)
    ensures var t := es[i].trxn;
            OnShelf(RunShelves(host, l.book, sh, es), host.path(t.sender, t.timestamp), TrxnID(t))
  {
    hide Apply, Run, Shelved, AllReplayable, OnShelf, RunShelves;
    BooksAreRuns(host, l, es, i);
    SuccessesAreShelved(host, l, sh, es, i, w);
  }

  // ----- NFT mints among the rest -----

  function Size(items: seq<Json>): nat {
    if items == [] then 0 else (if items[0].Object? then |items[0].members| else 0) + Size(items[1..])
  }

  lemma {:induction false} MintOneAgain(item: Json, from: string)
    requires MintOne(item, from).Mint?
    ensures var one := MintOne(item, from).items;
            && |one| == 1 && item.Object? && one[0].Object?
            && (MintsNFT(one[0].members) <==> MintsNFT(item.members))
            && MintOne(one[0], from).Mint? && |MintOne(one[0], from).items| == 1
            && var two := MintOne(one[0], from).items[0];
               && two.Object?
               && |two.members| == |one[0].members| + if MintsNFT(item.members) then 1 else 0
  {
    hide Find, SetFirst, Atoi;
    OwnerAppended(item.members, from, "name");
    OwnerAppended(item.members, from, "max");
  }

  /** Validating a validated request passes, and adds one more owner member to each NFT. */
  lemma {:induction false} MintAgain(items: seq<Json>, from: string)
    requires MintAll(items, from).Mint?
    ensures var once := MintAll(items, from).items;
            && MintAll(once, from).Mint? && (AnyNFT(once) <==> AnyNFT(items))
            && Size(MintAll(once, from).items) >= Size(once)
            && (AnyNFT(items) ==> Size(MintAll(once, from).items) > Size(once))
    decreases |items|
  {
    hide MintOne, MintsNFT;
    if items != [] {
      MintOneAgain(items[0], from);
      MintAgain(items[1..], from);
      var one, rest := MintOne(items[0], from).items, MintAll(items[1..], from).items;
      assert (one + rest)[1..] == rest && (one + rest)[0] == one[0];
      var two, rest2 := MintOne(one[0], from).items, MintAll(rest, from).items;
      assert (two + rest2)[1..] == rest2 && (two + rest2)[0] == two[0];
    }
  }

  /** Committing the logged form of an NFT mint logs a different text. */
  lemma {:induction false} LoggedTwiceDiffers(host: Host, t: Trxn)
    requires Laws(host) && MintsOwned(host, t) && MintAll(ReadJson(host.element, t.request).items, t.sender).Mint?
    ensures Logged(host, Logged(host, t)).request != Logged(host, t).request
  {
    hide MintAll, AnyNFT, Laws, ReadJson, Print;
    var items, from := ReadJson(host.element, t.request).items, t.sender;
    MintAgain(items, from);
    PrintedIsRead(host, MintAll(items, from).items);
    PrintedIsRead(host, MintAll(MintAll(items, from).items, from).items);
  }

  lemma {:induction false} DataTellsRequests(a: Trxn, b: Trxn)
    requires AllPlain(DataFields(a)) && AllPlain(DataFields(b)) && a.request != b.request
    ensures TrxnData(a) != TrxnData(b)
  {
    StrSplits.PiecesOfJoin(DataFields(a), '|');
    StrSplits.PiecesOfJoin(DataFields(b), '|');
    assert DataFields(a)[8] == a.request && DataFields(b)[8] == b.request;
  }

  /** Every record of that id holds exactly this transaction. */
  ghost predicate OnlyAs(sh: Shelves, id: string, t: Trxn) {
    forall p, r :: p in sh && r in sh[p] && TrxnID(r.trxn) == id ==> r.trxn == t
  }

  lemma {:induction false} ShelveOnlyAs(host: Host, sh: Shelves, g: Trxn, id: string, t: Trxn)
    requires OnlyAs(sh, id, t) && (TrxnID(g) == id ==> g == t)
    ensures OnlyAs(Shelve(host, sh, g), id, t)
  {
    hide TrxnID;
  }

  lemma {:induction false} RunOnlyAs(host: Host, book: Book, sh: Shelves, es: seq<Entry>, id: string, t: Trxn)
    requires OnlyAs(sh, id, t)
    requires forall e :: e in es && TrxnID(e.trxn) == id ==> Logged(host, e.trxn) == t
    ensures OnlyAs(RunShelves(host, book, sh, es), id, t)
    decreases |es|
  {
    hide Apply, Logged, Shelve, OnlyAs, TrxnID;
    if es != [] {
      var done := Apply(host, book, es[0].trxn);
      LoggedKeepsId(host, es[0].trxn);
      if done.rc < 0 {
        RunOnlyAs(host, book, sh, es[1..], id, t);
      } else {
        ShelveOnlyAs(host, sh, Logged(host, es[0].trxn), id, t);
        RunOnlyAs(host, done.book, Shelve(host, sh, Logged(host, es[0].trxn)), es[1..], id, t);
      }
    }
  }

  ghost predicate LoggableTwice(host: Host, es: seq<Entry>) {
    forall e :: e in es ==> Loggable(Logged(host, Logged(host, e.trxn)))
  }

  /** Whatever state a log is replayed from, it shelves each transaction in its twice-logged form only, and not
      at all when it does not validate. */
  lemma {:induction false} ReplayOnlyAs(host: Host, l: Ledger, sh: Shelves, book: Book, es: seq<Entry>,
                                        verify: bool, w: Window, id: string, t: Trxn) returns (sh1: Shelves)
    requires Shelved(l.files, sh) && AllReplayable(host, es, w) && LoggableTwice(host, es) && OnlyAs(sh, id, t)
    requires forall e :: e in es && TrxnID(e.trxn) == id && (verify ==> host.valid(Logged(host, e.trxn))) ==>
               Logged(host, Logged(host, e.trxn)) == t
    ensures Shelved(Replay(host, l, LogOf(host, book, es), verify, w).files, sh1) && OnlyAs(sh1, id, t)
    decreases |es|
  {
    hide Apply, WalText, Logged, AppendBlocks, Shelved, Shelve, Replayable, TrxnID, InWindow, OnlyAs, Loggable, Missing;
    if es == [] {
      assert ReadHeader("") == Header.End;
      sh1 := sh;
    } else {
      var g, done := Logged(host, es[0].trxn), Apply(host, book, es[0].trxn);
      assert es[0] in es;
      if done.rc < 0 {
        assert LogOf(host, book, es) == LogOf(host, book, es[1..]);
        sh1 := ReplayOnlyAs(host, l, sh, book, es[1..], verify, w, id, t);
      } else {
        var tail := LogOf(host, done.book, es[1..]);
        RecordReplays(host, l, g, es[0].now, tail, verify, w);
        LoggedKeepsId(host, es[0].trxn);
        LoggedKeepsId(host, g);
        AppendIsShelved(host, l.files, sh, Logged(host, g));
        var next := if Applies(host, l.files, g, verify) then Save(host, l, g, None).ledger else l;
        var shn := sh;
        if next.files != l.files {
          ShelveOnlyAs(host, sh, Logged(host, g), id, t);
          shn := Shelve(host, sh, Logged(host, g));
        }
        sh1 := ReplayOnlyAs(host, next, shn, done.book, es[1..], verify, w, id, t);
      }
    }
  }

  lemma {:induction false} DataOnlyAs(recs: seq<Record>, id: string, t: Trxn)
    requires forall r :: r in recs && TrxnID(r.trxn) == id ==> r.trxn == t
    ensures forall d :: d in DataOf(recs, id) ==> d == TrxnData(t)
    decreases |recs|
  {
    hide TrxnID, TrxnData;
    if recs != [] {
      DataOnlyAs(recs[1..], id, t);
    }
  }

  /** Two sets of files that record an id in two different forms differ. */
  lemma {:induction false} FormsDiffer(f1: Files, sh1: Shelves, f2: Files, sh2: Shelves, path: string, id: string,
                                       t1: Trxn, t2: Trxn)
    requires Shelved(f1, sh1) && Shelved(f2, sh2) && OnlyAs(sh1, id, t1) && OnlyAs(sh2, id, t2) && id != ""
    requires OnShelf(sh1, path, id) && TrxnData(t1) != TrxnData(t2)
    ensures f1 != f2
  {
    hide TrxnID, TrxnData, LogText, Loggable, ReadLog;
    LogRoundTrip(sh1[path], id);
    DataOfFound(sh1[path], id);
    DataOnlyAs(sh1[path], id, t1);
    var d := DataOf(sh1[path], id);
    assert d[0] in d && d[0] == TrxnData(t1);
    if path in sh2 {
      LogRoundTrip(sh2[path], id);
      DataOnlyAs(sh2[path], id, t2);
      assert TrxnData(t1) !in DataOf(sh2[path], id);
    }
  }

  lemma {:induction false} SuccessfulMint(host: Host, book: Book, t: Trxn)
    requires MintsOwned(host, t) && Apply(host, book, t).rc >= 0
    ensures MintAll(ReadJson(host.element, t.request).items, t.sender).Mint?
  {
  }

  /** The form in which a replay shelves a logged transaction, if at all: committed once more; and for one that
      does not validate, and so is not shelved, any other form. */
  function Replayed(host: Host, g: Trxn, verify: bool): Trxn {
    if verify && !host.valid(g) then g.(request := g.request + "a") else Logged(host, g)
  }

  lemma {:induction false} ReplayedDiffers(host: Host, book: Book, t: Trxn, verify: bool)
    requires Laws(host) && Apply(host, book, t).rc >= 0
    requires MintsOwned(host, t) || (verify && !host.valid(Logged(host, t)))
    requires Loggable(Logged(host, t)) && Loggable(Logged(host, Logged(host, t)))
    ensures TrxnData(Replayed(host, Logged(host, t), verify)) != TrxnData(Logged(host, t))
  {
    hide MintAll, Logged, MintsOwned, Apply, Laws;
    var g := Logged(host, t);
    var other := Replayed(host, g, verify);
    if verify && !host.valid(g) {
      RequestIsPlain(g);
    } else {
      SuccessfulMint(host, book, t);
      LoggedTwiceDiffers(host, t);
    }
    DataTellsRequests(g, other);
  }

  lemma {:induction false} RequestIsPlain(g: Trxn)
    requires AllPlain(DataFields(g))
    ensures AllPlain(DataFields(g.(request := g.request + "a")))
  {
    var f, f1 := DataFields(g), DataFields(g.(request := g.request + "a"));
    forall i | 0 <= i < 19 ensures Plain(f1[i]) {
      assert f[i] in f && Plain(f[i]);
      assert i != 8 ==> f1[i] == f[i];
      assert f[8] in f && Plain(f[8]) && f1[8] == f[8] + "a";
    }
  }

  /** What was not yet applied at the crash and is an NFT mint, or does not validate, is not recovered as it was. */
  lemma {:induction false} CleanRunMisses(host: Host, l: Ledger, sh: Shelves, es: seq<Entry>, k: nat, i: nat,
                                          verify: bool, w: Window)
    requires Clean(host, l, sh, es, w) && Laws(host) && LoggableTwice(host, es)
    requires k <= i < |es| && Succeeds(host, l.book, es, i)
    requires MintsOwned(host, es[i].trxn) || (verify && !host.valid(Logged(host, es[i].trxn)))
    ensures !SameLedger(Recovered(host, l, es, k, verify, w), Run(host, l, es))
  {
    hide Absent, Replay, Run, LogOf, RunShelves, AllReplayable, Shelved, OnlyAs, MintsOwned, Logged, Apply, TrxnID,
         TrxnData, Loggable, Laws, MintAll;
    var t := es[i].trxn;
    var g, id, crashed := Logged(host, t), TrxnID(t), Run(host, l, es[..k]);
    assert es[i] in es;
    var gg := Replayed(host, g, verify);
    AllAreLoggable(host, es, w, i);
    ReplayedDiffers(host, Books(host, l.book, es, i), t, verify);
    OthersDiffer(es, i);
    // The replayed files.
    var shk := RunShelves(host, l.book, sh, es[..k]);
    FirstIsReplayable(host, es, k, w);
    RunIsShelved(host, l, sh, es[..k], w);
    LaterIdsAbsent(host, l, sh, es, k, w, i);
    AbsentIsOnlyAs(shk, id, gg);
    var sh1 := ReplayOnlyAs(host, crashed, shk, l.book, es, verify, w, id, gg);
    RunAppends(host, l, es);
    assert "" + LogOf(host, l.book, es) == LogOf(host, l.book, es);
    // The files of the whole run.
    var shn := RunShelves(host, l.book, sh, es);
    RunIsShelved(host, l, sh, es, w);
    AbsentIsOnlyAs(sh, id, g);
    RunOnlyAs(host, l.book, sh, es, id, g);
    SuccessIsShelved(host, l, sh, es, i, w);
    IdIsNotEmpty(t);
    FormsDiffer(Run(host, l, es).files, shn, Recovered(host, l, es, k, verify, w).files, sh1,
                host.path(t.sender, t.timestamp), id, g, gg);
  }

  lemma {:induction false} OnlyAsOrShelved(sh: Shelves, id: string, t: Trxn)
    ensures OnlyAs(sh, id, t) || exists p :: OnShelf(sh, p, id)
  {
    hide TrxnID;
    if !OnlyAs(sh, id, t) {
      var p, r :| p in sh && r in sh[p] && TrxnID(r.trxn) == id && r.trxn != t;
      assert OnShelf(sh, p, id);
    }
  }

  lemma {:induction false} AbsentIsOnlyAs(sh: Shelves, id: string, t: Trxn)
    requires Absent(sh, id)
    ensures OnlyAs(sh, id, t)
  {
    OnlyAsOrShelved(sh, id, t);
  }

  lemma {:induction false} AllAreLoggable(host: Host, es: seq<Entry>, w: Window, i: nat)
    requires AllReplayable(host, es, w) && LoggableTwice(host, es) && i < |es|
    ensures Loggable(Logged(host, es[i].trxn)) && Loggable(Logged(host, Logged(host, es[i].trxn)))
  {
    hide Loggable, InWindow, Logged;
    assert es[i] in es;
  }

  lemma {:induction false} OthersDiffer(es: seq<Entry>, i: nat)
    requires DistinctIds(es) && i < |es|
    ensures forall e :: e in es && TrxnID(e.trxn) == TrxnID(es[i].trxn) ==> e == es[i]
  {
    hide TrxnID;
  }

  // ----- Runs with failures -----

  /** The entries of a run that go through, and so are logged. */
  function Successes(host: Host, book: Book, es: seq<Entry>): seq<Entry>
    decreases |es|
  {
    if es == [] then []
    else
      var done := Apply(host, book, es[0].trxn);
      if done.rc < 0 then Successes(host, book, es[1..])
      else [es[0]] + Successes(host, done.book, es[1..])
  }

  /** Entries that fail leave no trace. */
  lemma {:induction false} RunOfSuccesses(host: Host, l: Ledger, es: seq<Entry>)
    ensures Run(host, l, es) == Run(host, l, Successes(host, l.book, es))
    decreases |es|
  {
    hide Apply, WalText, Logged, AppendBlocks;
    if es != [] {
      var next := Save(host, l, es[0].trxn, Some(es[0].now)).ledger;
      RunOfSuccesses(host, next, es[1..]);
      if Apply(host, l.book, es[0].trxn).rc >= 0 {
        var ss := Successes(host, l.book, es);
        assert ss[0] == es[0] && ss[1..] == Successes(host, next.book, es[1..]);
      }
    }
  }

  lemma {:induction false} SuccessesSucceed(host: Host, l: Ledger, es: seq<Entry>, i: nat)
    requires i < |Successes(host, l.book, es)|
    ensures Succeeds(host, l.book, Successes(host, l.book, es), i)
    decreases |es|
  {
    hide Apply, WalText, Logged, AppendBlocks;
    var next, ss := Save(host, l, es[0].trxn, Some(es[0].now)).ledger, Successes(host, l.book, es);
    if Apply(host, l.book, es[0].trxn).rc < 0 {
      SuccessesSucceed(host, next, es[1..], i);
    } else if i > 0 {
      assert ss[1..] == Successes(host, next.book, es[1..]);
      SuccessesSucceed(host, next, es[1..], i - 1);
      SuccessesShift(host, l, ss);
    }
  }

  lemma {:induction false} SuccessesSplit(host: Host, l: Ledger, es: seq<Entry>, k: nat)
    requires k <= |es|
    ensures Successes(host, l.book, es)
            == Successes(host, l.book, es[..k]) + Successes(host, Run(host, l, es[..k]).book, es[k..])
    decreases k
  {
    hide Apply, WalText, Logged, AppendBlocks;
    if k == 0 {
      assert es[..0] == [] && es[0..] == es;
    } else {
      assert es[..k][0] == es[0] && es[..k][1..] == es[1..][..k - 1] && es[1..][k - 1..] == es[k..];
      SuccessesSplit(host, Save(host, l, es[0].trxn, Some(es[0].now)).ledger, es[1..], k - 1);
    }
  }

  /** A run from a ledger whose log is empty: its successes have distinct ids that the block files do not hold
      yet, and can be replayed. Nothing is asked of what failed. */
  ghost predicate Recordable(host: Host, l: Ledger, sh: Shelves, es: seq<Entry>, w: Window) {
    Clean(host, l, sh, Successes(host, l.book, es), w)
  }

  /** The successes past the crash. */
  function Rest(host: Host, l: Ledger, es: seq<Entry>, k: nat): seq<Entry>
    requires k <= |es|
  {
    Successes(host, Run(host, l, es[..k]).book, es[k..])
  }

  /** Does the logged form of a transaction bring the same change, when it is replayed? */
  predicate Faithful(host: Host, t: Trxn, verify: bool) {
    !MintsOwned(host, t) && (verify ==> host.valid(Logged(host, t)))
  }

  /** A run, seen as the run of its successes, of which the first k1 came before the crash. */
  lemma {:induction false} AsSuccesses(host: Host, l: Ledger, es: seq<Entry>, k: nat, verify: bool, w: Window)
    returns (ss: seq<Entry>, k1: nat)
    requires k <= |es|
    ensures ss == Successes(host, l.book, es) && k1 <= |ss| && ss[k1..] == Rest(host, l, es, k)
    ensures Run(host, l, ss) == Run(host, l, es)
    ensures Recovered(host, l, ss, k1, verify, w) == Recovered(host, l, es, k, verify, w)
    ensures forall i :: 0 <= i < |ss| ==> Succeeds(host, l.book, ss, i)
  {
    hide Successes, Run, Replay, Succeeds;
    ss, k1 := Successes(host, l.book, es), |Successes(host, l.book, es[..k])|;
    SuccessesSplit(host, l, es, k);
    RunOfSuccesses(host, l, es);
    RunOfSuccesses(host, l, es[..k]);
    assert ss[..k1] == Successes(host, l.book, es[..k]);
    forall i | 0 <= i < |ss| ensures Succeeds(host, l.book, ss, i) {
      SuccessesSucceed(host, l, es, i);
    }
  }

  /** After a crash between two transactions, replaying the whole log skips what was applied, applies the rest
      and ends in the final accounts and block files, when every success past the crash is faithful. A replay
      after the full run therefore changes nothing, whatever the run held. */
  lemma {:induction false} RecoveryIsExact(host: Host, l: Ledger, sh: Shelves, es: seq<Entry>, k: nat,
                                           verify: bool, w: Window)
    requires Recordable(host, l, sh, es, w) && k <= |es|
    requires forall e :: e in Rest(host, l, es, k) ==> Faithful(host, e.trxn, verify)
    ensures SameLedger(Recovered(host, l, es, k, verify, w), Run(host, l, es))
  {
    hide Clean, Successes, Run, Recovered, Succeeds, MintsOwned, SameLedger, Logged;
    var ss, k1 := AsSuccesses(host, l, es, k, verify, w);
    forall i | k1 <= i < |ss| ensures !MintsOwned(host, ss[i].trxn) && (verify ==> host.valid(ss[i].trxn)) {
      assert ss[k1..][i - k1] == ss[i];
      LoggedAsSent(host, ss[i].trxn);
    }
    CleanRunRecovers(host, l, sh, ss, k1, verify, w);
  }

  /** Recovery is exact if and only if every success past the crash is faithful: it mints no NFT, whose request
      was rewritten before it was logged, and its logged form still validates when the replay verifies. */
  lemma {:induction false} RecoveryIsExactlyWhenFaithful(host: Host, l: Ledger, sh: Shelves, es: seq<Entry>, k: nat,
                                                         verify: bool, w: Window)
    requires Recordable(host, l, sh, es, w) && Laws(host) && k <= |es|
    requires LoggableTwice(host, Successes(host, l.book, es))
    ensures SameLedger(Recovered(host, l, es, k, verify, w), Run(host, l, es)) <==>
              forall e :: e in Rest(host, l, es, k) ==> Faithful(host, e.trxn, verify)
  {
    hide Clean, Laws, LoggableTwice, Successes, SameLedger, Recovered, Run, Succeeds, MintsOwned, Logged;
    if e :| e in Rest(host, l, es, k) && !Faithful(host, e.trxn, verify) {
      var ss, k1 := AsSuccesses(host, l, es, k, verify, w);
      var i :| 0 <= i < |ss[k1..]| && ss[k1..][i] == e;
      assert ss[k1 + i] == e;
      CleanRunMisses(host, l, sh, ss, k1, k1 + i, verify, w);
    } else {
      RecoveryIsExact(host, l, sh, es, k, verify, w);
    }
  }
}
