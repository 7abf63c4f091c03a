/** The write-ahead log (src/blockmgr.cc): what replayWallog reads from it and does with each record. */
module Wals {
  import opened BlockLogs
  import opened Ledgers
  import opened OmFiles
  import opened StrSplits
  import opened Text
  import opened Trxns
  import opened Wrappers

  /** A field up to the next '-': too long after 61 characters, else its C string and what follows. */
  datatype Cut = TooLong | Cut(text: string, rest: string)

  /** The bytes held so far, and what is still to be read. */
  function CutFrom(held: string, s: string): (c: Cut)
    ensures c.Cut? ==> |c.rest| <= |s| && (c.text != "" && held == "" ==> |c.rest| < |s|)
    decreases |s|
  {
    if s == "" then Cut(CString(held), "")
    else if s[0] == '-' then Cut(CString(held), s[1..])
    else if |held| > 60 then Cut.TooLong
    else CutFrom(held + [s[0]], s[1..])
  }

  function CutField(s: string): (c: Cut)
    ensures c.Cut? ==> |c.rest| <= |s| && (c.text != "" ==> |c.rest| < |s|)
  {
    CutFrom("", s)
  }

  /** A field of up to 61 characters without '-' is cut as it was written. */
  lemma {:induction false} CutReads(held: string, a: string, rest: string)
    requires '-' !in a && |held| + |a| <= 61
    ensures CutFrom(held, a + "-" + rest) == Cut(CString(held + a), rest)
    decreases |a|
  {
    var s := a + "-" + rest;
    if a == "" {
      assert held + a == held;
      assert s[1..] == rest;
    } else {
      assert s[1..] == a[1..] + "-" + rest;
      assert held + [a[0]] + a[1..] == held + a;
      CutReads(held + [a[0]], a[1..], rest);
    }
  }

  /** A longer one ends the replay. */
  lemma {:induction false} LongFieldIsRefused(held: string, a: string, rest: string)
    requires '-' !in a && |held| <= 61 < |held| + |a|
    ensures CutFrom(held, a + rest).TooLong?
    decreases |a|
  {
    assert (a + rest)[1..] == a[1..] + rest && a[0] in a;
    if |held| <= 60 {
      LongFieldIsRefused(held + [a[0]], a[1..], rest);
    }
  }

  /** The three fields before the data: log time, transaction id and size. */
  datatype Header = End | Header(logtime: int, trxnid: string, zipsize: nat, rest: string)

  function ReadHeader(s: string): (h: Header)
    ensures h.Header? ==> |h.rest| < |s|
  {
    var c1 := CutField(s);
    if c1.TooLong? || c1.text == "" then Header.End
    else
      var c2 := CutField(c1.rest);
      if c2.TooLong? || c2.text == "" then Header.End
      else
        var c3 := CutField(c2.rest);
        if c3.TooLong? || c3.text == "" then Header.End
        else Header(Atol(c1.text), c2.text, Atol(c3.text) % 0x1_0000_0000, c3.rest)
  }

  /** A buffer of that size with what the file still holds, the rest NUL. */
  function Filled(s: string, size: nat): (r: string)
    ensures |r| == size && (s <= r || r <= s)
    ensures forall i :: |s| <= i < size ==> r[i] == '\0'
  {
    if size <= |s| then s[..size] else s + seq(size - |s|, _ => '\0')
  }

  /** The sender that an id names after its first colon. */
  function SenderIn(trxnid: string): string {
    At(Fields(CString(trxnid), ':', false), 1)
  }

  /** Is this the transaction the record says, and not yet in its sender's block file? */
  predicate Missing(host: Host, files: Files, t: Trxn, trxnid: string) {
    && TrxnID(t) == trxnid && SenderIn(trxnid) == t.sender
    && ReadTrxns(FileAt(files, host.path(t.sender, t.timestamp)), trxnid).found == []
  }

  /** One record whose time lies in the window. */
  function ReplayOne(host: Host, l: Ledger, verify: bool, trxnid: string, zip: string): Ledger {
    var t := Parse(host.unpack(zip), host.clock);
    if verify && !host.valid(t) then l
    else if !Missing(host, l.files, t, trxnid) then l
    else Save(host, l, t, None).ledger
  }

  datatype Window = Window(start: int, end: int)

  function Replay(host: Host, l: Ledger, s: string, verify: bool, w: Window): Ledger
    decreases |s|
  {
    match ReadHeader(s)
    case End => l
    case Header(logtime, trxnid, zipsize, rest) =>
      if logtime > w.end then l
      else if logtime < w.start then Replay(host, l, Drop(rest, zipsize + 1), verify, w)
      else
        var next := ReplayOne(host, l, verify, trxnid, Filled(rest, zipsize));
        Replay(host, next, Drop(Drop(rest, zipsize), 1), verify, w)
  }

  /** A record changes something only when it validates, if that is asked for, its id is that of the transaction in it
      and names the sender between its first two colons, and the sender's file holds no record of that id; then it is
      saved without another log record. */
  lemma {:induction false} RecordChangesOnly(host: Host, l: Ledger, verify: bool, trxnid: string, zip: string)
    ensures var t := Parse(host.unpack(zip), host.clock);
            ReplayOne(host, l, verify, trxnid, zip) != l ==>
              && (verify ==> host.valid(t))
              && t.timestamp + ":" + t.sender == trxnid && At(Fields(CString(trxnid), ':', false), 1) == t.sender
              && ReadTrxns(FileAt(l.files, host.path(t.sender, t.timestamp)), trxnid).found == []
              && ReplayOne(host, l, verify, trxnid, zip) == Save(host, l, t, None).ledger
  {
    hide Save, Parse, ReadTrxns, Fields;
  }

  /** An empty field ends the replay too. */
  lemma {:induction false} EmptyFieldEnds(now: string, id: string, rest: string)
    requires '-' !in now && '-' !in id && |now| <= 61 && |id| <= 61
    ensures ReadHeader("-" + rest) == ReadHeader(now + "-" + ("-" + rest)) == Header.End
    ensures ReadHeader(now + "-" + (id + "-" + ("-" + rest))) == Header.End
  {
    hide Atol;
    CutReads("", "", rest);
    assert "" + "-" + rest == "-" + rest;
    CutReads("", now, "-" + rest);
    CutReads("", now, id + "-" + ("-" + rest));
    CutReads("", id, "-" + rest);
  }
}
