/** C strings and decimal numbers as the C library reads and writes them. */
module Text {
  import opened Arith

  /** A buffer as a C string: what comes before its first NUL. */
  function CString(s: string): (r: string)
    ensures '\0' !in r
  {
    if s == "" || s[0] == '\0' then "" else [s[0]] + CString(s[1..])
  }

  lemma {:induction false} CStringWhole(s: string)
    requires '\0' !in s
    ensures CString(s) == s
    decreases |s|
  {
    if s != "" {
      CStringWhole(s[1..]);
    }
  }

  /** What stands behind a NUL is lost. */
  lemma {:induction false} CStringCuts(a: string, b: string)
    requires '\0' !in a
    ensures CString(a + ("\0" + b)) == a
    decreases |a|
  {
    var s := a + ("\0" + b);
    if a == "" {
      assert s[0] == '\0';
    } else {
      assert s[1..] == a[1..] + ("\0" + b);
      CStringCuts(a[1..], b);
    }
  }

  predicate IsDigit(c: char) {
    '0' <= c <= '9'
  }

  predicate AllDigits(s: string) {
    forall c :: c in s ==> IsDigit(c)
  }

  /** printf of a number. */
  function Decimal(n: nat): (s: string)
    ensures s != "" && AllDigits(s)
  {
    var last := [('0' as int + n % 10) as char];
    if n < 10 then last else Decimal(n / 10) + last
  }

  function Value(s: string): nat
    requires AllDigits(s)
  {
    if s == "" then 0
    else
      var last := s[|s| - 1];
      assert IsDigit(last) && forall c :: c in s[..|s| - 1] ==> c in s;
      10 * Value(s[..|s| - 1]) + (last as int - '0' as int)
  }

  /** How many digits s starts with. */
  function DigitRun(s: string): (n: nat)
    ensures n <= |s| && AllDigits(s[..n]) && (n < |s| ==> !IsDigit(s[n]))
  {
    if s == "" || !IsDigit(s[0]) then 0
    else
      var n := DigitRun(s[1..]);
      assert s[..n + 1] == [s[0]] + s[1..][..n];
      n + 1
  }

  predicate IsSpace(c: char) {
    c == ' ' || '\t' as int <= c as int <= '\r' as int
  }

  function SkipSpaces(s: string): string {
    if s != "" && IsSpace(s[0]) then SkipSpaces(s[1..]) else s
  }

  /** atol and, on whole numbers, atof: spaces, a sign, then as many digits as there are. */
  function Atol(s: string): int {
    var t := SkipSpaces(s);
    if t != "" && t[0] == '-' then 0 - Leading(t[1..])
    else if t != "" && t[0] == '+' then Leading(t[1..])
    else Leading(t)
  }

  function Leading(s: string): nat {
    assert AllDigits(s[..DigitRun(s)]);
    Value(s[..DigitRun(s)])
  }

  lemma {:induction false} ValueOfDecimal(n: nat)
    ensures Value(Decimal(n)) == n
  {
    if n < 10 {
      assert Decimal(n)[..0] == "";
    } else {
      ValueOfDecimal(n / 10);
      assert Decimal(n)[..|Decimal(n)| - 1] == Decimal(n / 10);
    }
  }

  /** The run of digits ends where anything else begins. */
  lemma {:induction false} RunEnds(a: string, b: string)
    requires AllDigits(a) && (b == "" || !IsDigit(b[0]))
    ensures DigitRun(a + b) == |a|
    decreases |a|
  {
    if a == "" {
      assert a + b == b;
    } else {
      assert (a + b)[1..] == a[1..] + b;
      RunEnds(a[1..], b);
    }
  }

  /** What was printed reads back, whatever follows that is not a digit. */
  lemma {:induction false} AtolOfDecimal(n: nat, rest: string)
    requires rest == "" || !IsDigit(rest[0])
    ensures Atol(Decimal(n) + rest) == n
  {
    var s := Decimal(n) + rest;
    assert s[0] == Decimal(n)[0];
    RunEnds(Decimal(n), rest);
    assert s[..|Decimal(n)|] == Decimal(n);
    ValueOfDecimal(n);
  }

  function Power10(k: nat): (p: nat)
    ensures p >= 1
  {
    if k == 0 then 1 else 10 * Power10(k - 1)
  }

  lemma {:induction false} DecimalLength(n: nat, k: nat)
    requires k >= 1 && n < Power10(k)
    ensures |Decimal(n)| <= k
  {
    if k == 1 {
      assert Power10(1) == 10 * Power10(0);
    } else if n >= 10 {
      DecimalLength(n / 10, k - 1);
    }
  }

  lemma {:induction false} SpacesSkip(blanks: string, s: string)
    requires (forall c :: c in blanks ==> c == ' ' || 9 <= c as int <= 13) && s != "" && !IsSpace(s[0])
    ensures SkipSpaces(blanks + s) == s
    decreases |blanks|
  {
    if blanks == "" {
      assert blanks + s == s;
    } else {
      assert blanks[0] in blanks && forall c :: c in blanks[1..] ==> c in blanks;
      assert (blanks + s)[1..] == blanks[1..] + s;
      SpacesSkip(blanks[1..], s);
    }
  }

  /** White space, a sign or none, and digits up to anything else. */
  lemma {:induction false} AtolReads(blanks: string, n: nat, rest: string)
    requires forall c :: c in blanks ==> c == ' ' || 9 <= c as int <= 13
    requires rest == "" || !('0' <= rest[0] <= '9')
    ensures Atol(blanks + (Decimal(n) + rest)) == n
    ensures Atol(blanks + ("+" + (Decimal(n) + rest))) == n
    ensures Atol(blanks + ("-" + (Decimal(n) + rest))) == 0 - n
  {
    hide Decimal, DigitRun;
    var digits := Decimal(n) + rest;
    RunEnds(Decimal(n), rest);
    assert digits[..|Decimal(n)|] == Decimal(n) && digits[0] == Decimal(n)[0] && Decimal(n)[0] in Decimal(n);
    ValueOfDecimal(n);
    assert Leading(digits) == n;
    assert ("+" + digits)[1..] == digits && ("-" + digits)[1..] == digits;
    SpacesSkip(blanks, digits);
    SpacesSkip(blanks, "+" + digits);
    SpacesSkip(blanks, "-" + digits);
  }
}
