/** Broken block logs: what the reader answers when the last record was cut short, and other texts it refuses. */
module TornLogs {
  import opened BlockLogs
  import opened StrSplits
  import opened Text
  import opened Trxns
  import opened Wrappers

  /** The code for a record cut after k characters: n digits of length, d characters of data. */
  function TornCode(n: nat, d: nat, k: nat): int {
    if k <= n + 1 then -10             // no direction mark
    else if k == n + 2 then -20        // no '~' behind it
    else if k < n + 3 + d then -1      // data too short
    else if k == n + 3 + d then -30    // no '~' behind the data
    else if k == n + 4 + d then -50    // no second length
    else if k <= 2 * n + 5 + d then -60  // no status
    else -70                           // no closing brace
  }

  lemma {:induction false} DigitsOnly(s: string)
    requires AllDigits(s)
    ensures DigitRun(s) == |s| && AfterDigits(s) == ""
  {
    RunEnds(s, "");
    assert s + "" == s;
  }

  lemma {:induction false} DigitsThen(digits: string, rest: string)
    requires AllDigits(digits) && |digits| <= 7
    ensures var s := digits + ['~'] + rest;
            && DigitRun(s) == |digits| && AfterDigits(s) == rest && !TooLong(s) && s[..|digits|] == digits
            && s[|digits|] == '~'
  {
    var s := digits + ['~'] + rest;
    assert s == digits + ("~" + rest);
    RunEnds(digits, "~" + rest);
  }

  /** The tail after k characters of it. */
  lemma {:induction false} TornTail(data: string, digits: string, k: nat)
    requires AllDigits(digits) && 1 <= |digits| <= 7 && k < |digits| + 3
    ensures var r := ReadTail(data, (digits + "~" + "T}")[..k]);
            r.Bad? && r.rc == if k == 0 then -50 else if k <= |digits| + 1 then -60 else -70
  {
    hide Fields, CString;
    var n := |digits|;
    var s := (digits + "~" + "T}")[..k];
    if k <= n {
      assert s == digits[..k];
      assert AllDigits(digits[..k]) by {
        assert forall c :: c in digits[..k] ==> c in digits;
      }
      DigitsOnly(digits[..k]);
    } else {
      assert s == digits + ['~'] + "T}"[..k - n - 1];
      DigitsThen(digits, "T}"[..k - n - 1]);
    }
  }

  lemma {:induction false} TornBody(data: string, mark: char, digits: string, k: nat)
    requires AllDigits(digits) && 1 <= |digits| <= 7 && CString(data) == data
    requires data != "" && k < |data| + |digits| + 6
    ensures var s := [mark] + "~" + data + "~" + (digits + "~" + "T}");
            var r := ReadBody(|data|, s[..k]);
            r.Bad? && r.rc == TornCode(|digits|, |data|, |digits| + 1 + k)
  {
    hide ReadTail, CString;
    var tail := digits + "~" + "T}";
    var s, d := [mark] + "~" + data + "~" + tail, |data|;
    var cut := s[..k];
    if k >= 2 {
      assert cut[1] == '~' && cut[2..] == (data + "~" + tail)[..k - 2];
      if k - 2 >= d {
        assert cut[2..][..d] == data && cut[2..][d..] == ("~" + tail)[..k - 2 - d];
        if k - 2 > d {
          assert cut[2..][d..][0] == '~' && cut[2..][d..][1..] == tail[..k - 3 - d];
          TornTail(data, digits, k - 3 - d);
        }
      }
    }
  }

  /** A record cut short is refused, with a code that tells where. */
  lemma {:induction false} TornRecord(t: Trxn, mark: char, k: nat)
    requires Loggable(t) && 0 < k < |RecordText(t, mark)|
    ensures var r := ReadRecord(RecordText(t, mark)[..k]);
            r.Bad? && r.rc == TornCode(|Decimal(|TrxnData(t)|)|, |TrxnData(t)|, k)
  {
    hide Decimal, ReadBody, TrxnData, Fields, DigitRun, AfterDigits, TooLong;
    var data, text := TrxnData(t), RecordText(t, mark);
    var digits := Decimal(|data|);
    var n := |digits|;
    DataIsText(t);
    DataIsSome(t);
    assert Power10(7) == 10000000;
    DecimalLength(|data|, 7);
    var body := [mark] + "~" + data + "~" + (digits + "~" + "T}");
    assert text == digits + ['~'] + body;
    if k <= n {
      assert text[..k] == digits[..k];
      TornLength(digits, k);
    } else {
      assert text[..k] == digits + ['~'] + body[..k - n - 1];
      DigitsThen(digits, body[..k - n - 1]);
      ValueOfDecimal(|data|);
      TornBody(data, mark, digits, k - n - 1);
    }
  }

  lemma {:induction false} TornLength(digits: string, k: nat)
    requires AllDigits(digits) && 0 < k <= |digits| <= 7
    ensures ReadRecord(digits[..k]) == Bad(-10, None)
  {
    hide ReadBody, DigitRun;
    assert forall c :: c in digits[..k] ==> c in digits;
    DigitsOnly(digits[..k]);
    assert digits[..k][..k] == digits[..k];
    NothingLeft(Value(digits[..k]));
  }

  lemma {:induction false} NothingLeft(n: nat)
    ensures ReadBody(n, "") == Bad(-10, None)
  {
  }

  lemma {:induction false} DataIsSome(t: Trxn)
    ensures TrxnData(t) != ""
  {
  }

  /** A log whose last record was cut short: everything before it is found, and the answer is the code of the cut. */
  lemma {:induction false} TornLogIsReported(recs: seq<Record>, last: Record, k: nat, trxnId: string)
    requires (forall r :: r in recs ==> Loggable(r.trxn)) && Loggable(last.trxn) && trxnId != ""
    requires 0 < k < |RecordText(last.trxn, last.ttype)|
    ensures var log := LogText(recs) + RecordText(last.trxn, last.ttype)[..k];
            var read, data := ReadTrxns(Some(log), trxnId), TrxnData(last.trxn);
            && read.found == DataOf(recs, trxnId)
            && read.rc == TornCode(|Decimal(|data|)|, |data|, k)
  {
    hide RecordText, Decimal, TrxnData, TrxnID, Loggable;
    var torn := RecordText(last.trxn, last.ttype)[..k];
    TornAfter(recs, torn, trxnId, [], '0');
    TornRecord(last.trxn, last.ttype, k);
    assert [] + DataOf(recs, trxnId) == DataOf(recs, trxnId);
  }

  /** The reader gets past whole records, whatever follows. */
  lemma {:induction false} TornAfter(recs: seq<Record>, torn: string, trxnId: string, found: seq<string>, tstat: char)
    requires (forall r :: r in recs ==> Loggable(r.trxn)) && trxnId != ""
    ensures ReadLog(LogText(recs) + torn, trxnId, found, tstat)
            == ReadLog(torn, trxnId, found + DataOf(recs, trxnId), if recs == [] then tstat else 'T')
    decreases |recs|
  {
    hide RecordText, TrxnData, TrxnID, Loggable, ReadRecord, ReadLog, Matches;
    if recs == [] {
      assert "" + torn == torn && found + DataOf(recs, trxnId) == found;
    } else {
      var t, rest := recs[0].trxn, LogText(recs[1..]) + torn;
      assert recs[0] in recs;
      assert LogText(recs) + torn == RecordText(t, recs[0].ttype) + rest;
      OneRecordRead(t, recs[0].ttype, rest, trxnId, found, tstat);
      var next := if TrxnID(t) == trxnId then found + [TrxnData(t)] else found;
      TornAfter(recs[1..], torn, trxnId, next, 'T');
      FoundSoFar(recs, trxnId, found, next);
    }
  }

  lemma {:induction false} OneRecordRead(t: Trxn, mark: char, rest: string, trxnId: string, found: seq<string>,
                                         tstat: char)
    requires Loggable(t) && trxnId != ""
    ensures ReadLog(RecordText(t, mark) + rest, trxnId, found, tstat)
            == ReadLog(rest, trxnId, if TrxnID(t) == trxnId then found + [TrxnData(t)] else found, 'T')
  {
    hide RecordText, TrxnData, TrxnID, Loggable, ReadRecord, Matches;
    RecordReads(t, mark, rest);
    MatchesItsId(t, trxnId);
  }

  lemma {:induction false} FoundSoFar(recs: seq<Record>, trxnId: string, found: seq<string>, next: seq<string>)
    requires recs != []
    requires var t := recs[0].trxn; next == if TrxnID(t) == trxnId then found + [TrxnData(t)] else found
    ensures next + DataOf(recs[1..], trxnId) == found + DataOf(recs, trxnId)
  {
    hide TrxnData, TrxnID;
  }

  /** Eight digits and anything more are no length, at either end of a record. */
  lemma {:induction false} LongLengthIsRefused(s: string, data: string)
    requires |s| > 8 && forall i :: 0 <= i < 8 ==> '0' <= s[i] <= '9'
    ensures ReadRecord(s) == Bad(-1, None) && ReadTail(data, s) == Bad(-40, None)
  {
    EightDigits(s, 8);
  }

  lemma {:induction false} EightDigits(s: string, k: nat)
    requires k <= |s| && forall i :: 0 <= i < k ==> '0' <= s[i] <= '9'
    ensures DigitRun(s) >= k
    decreases k
  {
    if k > 0 {
      EightDigits(s[1..], k - 1);
    }
  }

  /** The status behind the second length is T or F, and the data has at least ten fields. */
  lemma {:induction false} StatusDecides(data: string, n: nat, c: char, rest: string)
    requires n < 10000000 && CString(data) == data
    ensures ReadTail(data, Decimal(n) + "~" + ([c] + "}" + rest))
            == if c != 'F' && c != 'T' then Bad(-64, Some(c))
               else if |Fields(data, '|', false)| < 10 then Bad(-70, Some(c))
               else Got(data, c, rest)
  {
    hide Fields, Decimal, DigitRun;
    var tail := [c] + "}" + rest;
    LengthReads(n, '~', tail);
    assert Decimal(n) + "~" + tail == Decimal(n) + ['~'] + tail && tail[2..] == rest;
  }

  /** No digit, or a NUL behind the digits, ends the log, and so does a file that cannot be opened, with -1000. */
  lemma {:induction false} NothingMoreToRead(digits: string, rest: string, trxnId: string)
    requires |digits| <= 7 && forall c :: c in digits ==> '0' <= c <= '9'
    requires rest == "" ==> digits == ""
    requires rest != "" ==> if digits == "" then !('0' <= rest[0] <= '9') else rest[0] == '\0'
    ensures ReadTrxns(Some(digits + rest), trxnId) == LogRead(0, [], '0')
    ensures ReadTrxns(None, trxnId) == LogRead(-1000, [], '0')
  {
    RunEnds(digits, rest);
  }
}
