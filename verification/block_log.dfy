/** The block log of BlockMgr (src/blockmgr.cc): length-framed records appended to a file, and their reader. */
module BlockLogs {
  import opened StrSplits
  import opened Text
  import opened Trxns
  import opened Wrappers

  /** One appended record, closed by the success mark. */
  function RecordText(t: Trxn, ttype: char): string {
    var data := TrxnData(t);
    Decimal(|data|) + "~" + [ttype] + "~" + CString(data) + "~" + Decimal(|data|) + "~" + "T}"
  }

  // ----- The reader, on what is left of the file -----

  /** End: no further record. Bad: a broken one, with the status byte if it was reached. */
  datatype RecordRead =
    | End
    | Bad(rc: int, status: Option<char>)
    | Got(data: string, tstat: char, rest: string)

  /** A ninth character is read while eight digits are held. */
  predicate TooLong(s: string) {
    DigitRun(s) >= 8 && |s| > 8
  }

  /** What follows the digits and the one character that ended them. */
  function AfterDigits(s: string): (r: string)
    ensures |r| <= |s| && (s != "" ==> |r| < |s|)
  {
    if DigitRun(s) < |s| then s[DigitRun(s) + 1..] else ""
  }

  /** The second length, the status, the closing brace and the field count. */
  function ReadTail(data: string, s: string): (r: RecordRead)
    ensures r.Got? ==> |r.rest| < |s|
  {
    if TooLong(s) then Bad(-40, None)
    else if DigitRun(s) < 1 then Bad(-50, None)
    else
      var u := AfterDigits(s);
      if u == "" then Bad(-60, None)
      else if u[0] != 'F' && u[0] != 'T' then Bad(-64, Some(u[0]))
      else if |u| < 2 || u[1] != '}' then Bad(-70, Some(u[0]))
      else if |Fields(CString(data), '|', false)| < 10 then Bad(-70, Some(u[0]))
      else Got(CString(data), u[0], u[2..])
  }

  /** The direction mark and the data. */
  function ReadBody(tsize: nat, s: string): (r: RecordRead)
    ensures r.Got? ==> |r.rest| < |s|
  {
    if s == "" then Bad(-10, None)
    else if |s| < 2 || s[1] != '~' then Bad(-20, None)
    else
      var u := s[2..];
      if |u| < tsize then Bad(-1, None)
      else
        var v := u[tsize..];
        if v == "" || v[0] != '~' then Bad(-30, None) else ReadTail(u[..tsize], v[1..])
  }

  function ReadRecord(s: string): (r: RecordRead)
    ensures r.Got? ==> |r.rest| < |s|
  {
    var n := DigitRun(s);
    if TooLong(s) then Bad(-1, None)
    else if n < 1 || (n < |s| && s[n] == '\0') then End
    else ReadBody(Value(s[..n]), AfterDigits(s))
  }

  datatype LogRead = LogRead(rc: int, found: seq<string>, tstat: char)

  /** Does the data belong to the transaction asked for? */
  predicate Matches(data: string, trxnId: string) {
    var f := Fields(data, '|', false);
    trxnId != "" && At(f, 5) + ":" + At(f, 2) == trxnId
  }

  function ReadLog(s: string, trxnId: string, found: seq<string>, tstat: char): LogRead
    decreases |s|
  {
    match ReadRecord(s)
    case End => LogRead(0, found, tstat)
    case Bad(rc, status) => LogRead(rc, found, if status.Some? then status.value else tstat)
    case Got(data, c, rest) =>
      ReadLog(rest, trxnId, if Matches(data, trxnId) then found + [data] else found, c)
  }

  /** readTrxns: the status stays as the caller set it when there is nothing to read. */
  function ReadTrxns(file: Option<string>, trxnId: string): LogRead {
    match file
    case None => LogRead(-1000, [], '0')
    case Some(log) => ReadLog(log, trxnId, [], '0')
  }

  // ----- Round trip -----

  datatype Record = Record(trxn: Trxn, ttype: char)

  function LogText(recs: seq<Record>): string {
    if recs == [] then "" else RecordText(recs[0].trxn, recs[0].ttype) + LogText(recs[1..])
  }

  /** The transaction's data fits a seven-digit length and its fields hold no separator and no NUL. */
  ghost predicate Loggable(t: Trxn) {
    |TrxnData(t)| < 10000000 && AllPlain(DataFields(t))
  }

  function DataOf(recs: seq<Record>, trxnId: string): seq<string> {
    if recs == [] then []
    else (if TrxnID(recs[0].trxn) == trxnId then [TrxnData(recs[0].trxn)] else []) + DataOf(recs[1..], trxnId)
  }

  lemma {:induction false} LengthReads(n: nat, c: char, rest: string)
    requires n < 10000000 && !IsDigit(c)
    ensures var s := Decimal(n) + [c] + rest;
            && !TooLong(s) && AfterDigits(s) == rest
            && 1 <= DigitRun(s) < |s| && s[DigitRun(s)] == c
            && Value(s[..DigitRun(s)]) == n
  {
    var digits := Decimal(n);
    var s := digits + [c] + rest;
    assert Power10(7) == 10000000;
    DecimalLength(n, 7);
    assert s == digits + ([c] + rest);
    RunEnds(digits, [c] + rest);
    assert s[..|digits|] == digits;
    ValueOfDecimal(n);
  }

  lemma {:induction false} TailReads(data: string, n: nat, rest: string)
    requires n < 10000000 && CString(data) == data && |Fields(data, '|', false)| >= 10
    ensures ReadTail(data, Decimal(n) + "~" + "T}" + rest) == Got(data, 'T', rest)
  {
    hide Fields, Decimal, DigitRun;
    var s := Decimal(n) + "~" + "T}" + rest;
    assert s == Decimal(n) + ['~'] + ("T}" + rest);
    LengthReads(n, '~', "T}" + rest);
  }

  lemma {:induction false} BodyReads(data: string, ttype: char, n: nat, rest: string)
    requires n < 10000000 && CString(data) == data && |Fields(data, '|', false)| >= 10
    ensures ReadBody(|data|, [ttype] + "~" + data + "~" + (Decimal(n) + "~" + "T}" + rest)) == Got(data, 'T', rest)
  {
    hide Fields, Decimal, DigitRun, ReadTail;
    var tail := Decimal(n) + "~" + "T}" + rest;
    var s := [ttype] + "~" + data + "~" + tail;
    assert s[2..] == data + "~" + tail && s[2..][..|data|] == data && s[2..][|data|..] == "~" + tail;
    TailReads(data, n, rest);
  }

  lemma {:induction false} RecordReads(t: Trxn, ttype: char, rest: string)
    requires Loggable(t)
    ensures ReadRecord(RecordText(t, ttype) + rest) == Got(TrxnData(t), 'T', rest)
  {
    hide Fields, Decimal, DigitRun, ReadBody, TrxnData, TooLong, AfterDigits;
    var data := TrxnData(t);
    DataIsText(t);
    DataNamesTrxn(t);
    var n := |data|;
    var body := [ttype] + "~" + data + "~" + (Decimal(n) + "~" + "T}" + rest);
    assert RecordText(t, ttype) + rest == Decimal(n) + ['~'] + body;
    LengthReads(n, '~', body);
    BodyReads(data, ttype, n, rest);
  }

  lemma {:induction false} LogReads(recs: seq<Record>, trxnId: string, found: seq<string>, tstat: char)
    requires forall r :: r in recs ==> Loggable(r.trxn)
    requires trxnId != ""
    ensures ReadLog(LogText(recs), trxnId, found, tstat)
            == LogRead(0, found + DataOf(recs, trxnId), if recs == [] then tstat else 'T')
    decreases |recs|
  {
    hide RecordText, TrxnData, TrxnID, Loggable, ReadRecord, Matches;
    if recs == [] {
      EmptyLogReads();
      assert found + DataOf(recs, trxnId) == found;
    } else {
      var t, rest := recs[0].trxn, LogText(recs[1..]);
      assert recs[0] in recs;
      RecordReads(t, recs[0].ttype, rest);
      MatchesItsId(t, trxnId);
      var next := if TrxnID(t) == trxnId then found + [TrxnData(t)] else found;
      LogReads(recs[1..], trxnId, next, 'T');
      assert next + DataOf(recs[1..], trxnId) == found + DataOf(recs, trxnId);
    }
  }

  lemma {:induction false} EmptyLogReads()
    ensures ReadRecord("") == End
  {
  }

  lemma {:induction false} DataIsText(t: Trxn)
    requires Loggable(t)
    ensures CString(TrxnData(t)) == TrxnData(t)
  {
    JoinIsText(DataFields(t), '|');
    CStringWhole(TrxnData(t));
  }

  lemma {:induction false} MatchesItsId(t: Trxn, trxnId: string)
    requires Loggable(t) && trxnId != ""
    ensures Matches(TrxnData(t), trxnId) <==> TrxnID(t) == trxnId
  {
    DataIsText(t);
    DataNamesTrxn(t);
  }

  /** Whatever is appended is found again: for an id the reader returns, in order, exactly the data of the
      records of that id. The data may hold '~', '}' and digits. */
  lemma {:induction false} LogRoundTrip(recs: seq<Record>, trxnId: string)
    requires forall r :: r in recs ==> Loggable(r.trxn)
    requires trxnId != ""
    ensures ReadTrxns(Some(LogText(recs)), trxnId)
            == LogRead(0, DataOf(recs, trxnId), if recs == [] then '0' else 'T')
  {
    LogReads(recs, trxnId, [], '0');
    assert [] + DataOf(recs, trxnId) == DataOf(recs, trxnId);
  }
}
