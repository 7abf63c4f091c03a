/** readTrxns (src/blockmgr.cc) as the program runs it, byte by byte, refining BlockLogs.ReadTrxns. */
module BlockReaders {
  import opened BlockLogs
  import opened OmFiles
  import opened StrSplits
  import opened Text
  import opened Wrappers

  /** The digit loop that reads both lengths; dbuf holds the digits and c the last byte read. */
  method ReadDigits(f: OmFile) returns (tooLong: bool, dbuf: string, c: char)
    modifies f
    ensures var s := old(f.Left());
            && tooLong == TooLong(s)
            && (!tooLong ==>
                  && dbuf == s[..DigitRun(s)] && f.Left() == AfterDigits(s)
                  && (DigitRun(s) < |s| ==> c == s[DigitRun(s)])
                  && (DigitRun(s) == |s| && s != "" ==> IsDigit(c)))
  {
    hide DigitRun;
    ghost var s := f.Left();
    tooLong, dbuf, c := false, [], '\0';
    while true
      invariant |dbuf| <= 8 && AllDigits(dbuf) && s == dbuf + f.Left()
      invariant dbuf != "" ==> IsDigit(c)
      decreases |f.Left()|
    {
      ghost var left := f.Left();
      DigitsSoFar(dbuf, left);
      var n, next := f.Read1();
      if n != 1 {
        break;
      }
      c := next;
      if |dbuf| > 7 {
        tooLong := true;
        return;
      }
      if IsDigit(c) {
        dbuf := dbuf + [c];
      } else {
        break;
      }
    }
  }

  /** Where the digit loop stands after the digits a, with b still to be read. */
  lemma {:induction false} DigitsSoFar(a: string, b: string)
    requires AllDigits(a)
    ensures DigitRun(a + b) >= |a| && (a + b)[..|a|] == a && (a + b)[|a|..] == b
    ensures b == "" || !IsDigit(b[0]) ==> DigitRun(a + b) == |a|
    ensures b != "" && IsDigit(b[0]) ==> AllDigits(a + [b[0]]) && a + b == a + [b[0]] + b[1..]
    decreases |a|
  {
    if a == "" {
      assert a + b == b;
    } else {
      assert (a + b)[1..] == a[1..] + b;
      DigitsSoFar(a[1..], b);
    }
  }

  /** One turn of the record loop. */
  method ReadOne(f: OmFile) returns (r: RecordRead)
    modifies f
    ensures r == ReadRecord(old(f.Left()))
    ensures r.Got? ==> f.Left() == r.rest
  {
    hide DigitRun, ReadBody;
    var tooLong, dbuf, c := ReadDigits(f);
    if tooLong {
      return Bad(-1, None);
    }
    if |dbuf| < 1 || c == '\0' {
      return End;
    }
    r := ReadFramed(f, Value(dbuf));
  }

  method ReadFramed(f: OmFile, tsize: nat) returns (r: RecordRead)
    modifies f
    ensures r == ReadBody(tsize, old(f.Left()))
    ensures r.Got? ==> f.Left() == r.rest
  {
    hide ReadTail;
    ghost var s := f.Left();
    var n, c := f.Read1();
    if n != 1 {
      return Bad(-10, None);
    }
    n, c := f.Read1();
    if n != 1 || c != '~' {
      return Bad(-20, None);
    }
    assert f.Left() == s[2..];
    var pt := f.SafeRead(tsize);
    if |pt| != tsize {
      return Bad(-1, None);
    }
    n, c := f.Read1();
    if n != 1 || c != '~' {
      return Bad(-30, None);
    }
    r := ReadClosing(f, pt);
  }

  method ReadClosing(f: OmFile, pt: string) returns (r: RecordRead)
    modifies f
    ensures r == ReadTail(pt, old(f.Left()))
    ensures r.Got? ==> f.Left() == r.rest
  {
    hide DigitRun, Fields;
    var tooLong, dbuf, c := ReadDigits(f);
    if tooLong {
      return Bad(-40, None);
    }
    if |dbuf| < 1 {
      return Bad(-50, None);
    }
    var n;
    n, c := f.Read1();
    if n != 1 {
      return Bad(-60, None);
    }
    var tstat := c;
    if c != 'F' && c != 'T' {
      return Bad(-64, Some(tstat));
    }
    n, c := f.Read1();
    if n != 1 || c != '}' {
      return Bad(-70, Some(tstat));
    }
    var sp := new OmStrSplit(CString(pt), '|', false);
    if sp.list.Length < 10 {
      return Bad(-70, Some(tstat));
    }
    ghost var rest := f.Left();
    r := Got(CString(pt), tstat, f.text[if f.pos <= |f.text| then f.pos else |f.text|..]);
  }

  /** The transactions of one id in a user's block file; a missing file is None. */
  method ReadAll(file: Option<string>, trxnId: string) returns (rc: int, vec: seq<string>, tstat: char)
    ensures LogRead(rc, vec, tstat) == ReadTrxns(file, trxnId)
  {
    hide ReadRecord, Matches;
    vec, tstat := [], '0';
    if file.None? {
      return -1000, vec, tstat;
    }
    var f := new OmFile(file.value);
    while true
      invariant fresh(f)
      invariant ReadLog(f.Left(), trxnId, vec, tstat) == ReadTrxns(file, trxnId)
      decreases |f.Left()|
    {
      var r := ReadOne(f);
      match r {
        case End =>
          return 0, vec, tstat;
        case Bad(code, status) =>
          return code, vec, if status.Some? then status.value else tstat;
        case Got(pt, c, _) =>
          tstat := c;
          var found := IsFor(pt, trxnId);
          if found {
            vec := vec + [pt];
          }
      }
    }
  }

  method IsFor(pt: string, trxnId: string) returns (found: bool)
    ensures found == Matches(pt, trxnId)
  {
    hide Fields;
    found := false;
    if |trxnId| > 0 {
      var sp := new OmStrSplit(pt, '|', false);
      var timestamp := sp.Get(5);
      var sender := sp.Get(2);
      found := timestamp + ":" + sender == trxnId;
    }
  }
}
