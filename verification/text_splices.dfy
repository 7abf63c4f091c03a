/** What becomes of a stored array text when another is spliced onto it: exactly when it can still be read. */
module TextSplices {
  import opened JsonTexts
  import opened Tokens
  import opened Wrappers

  /** createToken: the stored text without its closing bracket, a comma, and the request without its opening
      bracket. */
  function SpliceText(old_: string, x: string): string {
    Trimmed(old_) + ("," + x)
  }

  /** The text cannot be read, and nothing spliced onto it can. */
  ghost predicate Broken(element: Reader, text: string) {
    && ReadJson(element, text) == Invalid
    && forall x :: ReadJson(element, SpliceText(text, x)) == Invalid
  }

  // ----- Blanks -----

  lemma {:induction false} SkipOf(a: string, t: string)
    ensures SkipBlanks(a + t) == if SkipBlanks(a) == "" then SkipBlanks(t) else SkipBlanks(a) + t
    decreases |a|
  {
    if a == "" {
      assert a + t == t;
    } else {
      assert (a + t)[1..] == a[1..] + t;
      SkipOf(a[1..], t);
    }
  }

  /** Skipping leaves an end of the text, and drops blanks only. */
  lemma {:induction false} SkipIsSuffix(s: string)
    ensures var r := SkipBlanks(s);
            && s[|s| - |r|..] == r
            && forall i :: 0 <= i < |s| - |r| ==> IsBlank(s[i])
    decreases |s|
  {
    if s != "" && IsBlank(s[0]) {
      SkipIsSuffix(s[1..]);
      var r := SkipBlanks(s);
      forall i | 0 <= i < |s| - |r| ensures IsBlank(s[i]) {
        assert i > 0 ==> s[i] == s[1..][i - 1];
      }
    }
  }

  lemma {:induction false} BadStart(element: Reader, s: string)
    requires ReaderLaws(element) && (s == "" || s[0] == ',' || s[0] == ']')
    ensures ReadItems(element, s) == Bad
  {
    Starts(element, s);
  }

  // ----- Open arrays -----

  /** The elements of an array whose closing bracket stands after p and before rest. */
  ghost predicate Closes(element: Reader, p: string, rest: string, items: seq<Json>) {
    ReadItems(element, p + ("]" + rest)) == Listed(items, rest)
  }

  /** The first element of such an array lies before the bracket; b is what stands between them. */
  lemma {:induction false} FirstElement(element: Reader, p: string, rest: string, items: seq<Json>)
    returns (e: Element, b: string)
    requires ReaderLaws(element) && Closes(element, p, rest, items)
    ensures element(p + ("]" + rest)) == Some(e) && 0 < e.size <= |p| && b == p[e.size..]
    ensures (p + ("]" + rest))[e.size..] == b + ("]" + rest)
    ensures items != [] && items[0] == e.value
  {
    var s := p + ("]" + rest);
    Starts(element, s);
    e := element(s).value;
    ReadStep(element, s, e);
    b := p[e.size..];
  }

  /** An object at the start of p is read alike whatever follows p. */
  lemma {:induction false} SameElement(element: Reader, p: string, t: string, t1: string, e: Element)
    requires ReaderLaws(element) && element(p + t) == Some(e) && e.value.Object? && 0 < e.size <= |p|
    ensures element(p + t1) == Some(e) && (p + t1)[e.size..] == p[e.size..] + t1 && p[e.size - 1] == '}'
  {
    assert SelfContained(element, p + t, p[e.size..] + t1);
    assert (p + t)[..e.size] + (p[e.size..] + t1) == p + t1;
  }

  /** p holds an open array of objects: closed anywhere it reads the same, and a comma leads on. */
  ghost predicate Open(element: Reader, p: string, items: seq<Json>, t: string) {
    && p != "" && p[|p| - 1] != ']'
    && ReadItems(element, p + ("]" + t)) == Listed(items, t)
    && ReadItems(element, p + ("," + t)) == Then(items, ReadItems(element, SkipBlanks(t)))
  }

  /** The turn after the first element e of p + t, where b stands behind e in p. */
  lemma {:induction false} TurnAt(element: Reader, p: string, rest: string, t: string, e: Element, b: string)
    requires ReaderLaws(element) && element(p + ("]" + rest)) == Some(e) && e.value.Object?
    requires 0 < e.size <= |p| && b == p[e.size..]
    ensures ReadItems(element, p + t) ==
              Turn(element, e.value, if SkipBlanks(b) == "" then SkipBlanks(t) else SkipBlanks(b) + t)
    ensures p[e.size - 1] == '}'
  {
    hide ReaderLaws, ReadItems, SkipBlanks, Turn;
    SameElement(element, p, "]" + rest, t, e);
    ReadStep(element, p + t, e);
    SkipOf(b, t);
  }

  lemma {:induction false} ClosedIsOpen(element: Reader, p: string, rest: string, items: seq<Json>, t: string)
    requires ReaderLaws(element) && Closes(element, p, rest, items)
    requires forall v :: v in items ==> v.Object?
    ensures Open(element, p, items, t)
    decreases |p|
  {
    hide ReaderLaws, ReadItems, SkipBlanks, Turn, Open;
    var e, b := FirstElement(element, p, rest, items);
    TurnAt(element, p, rest, "]" + rest, e, b);
    TurnAt(element, p, rest, "]" + t, e, b);
    TurnAt(element, p, rest, "," + t, e, b);
    if SkipBlanks(b) == "" {
      LastElement(element, p, rest, items, t, e, b);
    } else {
      var q := SkipBlanks(b);
      var p2 := MoreElements(element, q, rest, items, e.value);
      ClosedIsOpen(element, p2, rest, items[1..], t);
      OpenBefore(element, p, items, t, e, b, p2);
    }
  }

  lemma {:induction false} Bracket(element: Reader, v: Json, t: string)
    ensures SkipBlanks("]" + t) == "]" + t && Turn(element, v, "]" + t) == Listed([v], t)
    ensures SkipBlanks("," + t) == "," + t
    ensures Turn(element, v, "," + t) == Then([v], ReadItems(element, SkipBlanks(t)))
  {
    assert ("]" + t)[1..] == t && ("," + t)[1..] == t;
  }

  /** Only blanks between the first element and the bracket. */
  lemma {:induction false} LastElement(element: Reader, p: string, rest: string, items: seq<Json>, t: string,
                                       e: Element, b: string)
    requires Closes(element, p, rest, items) && 0 < e.size <= |p| && b == p[e.size..] && SkipBlanks(b) == ""
    requires p[e.size - 1] == '}'
    requires forall u :: u in ["]" + rest, "]" + t, "," + t] ==>
               ReadItems(element, p + u) == Turn(element, e.value, SkipBlanks(u))
    ensures Open(element, p, items, t)
  {
    hide ReadItems, SkipBlanks, Turn;
    Bracket(element, e.value, rest);
    Bracket(element, e.value, t);
    assert "]" + rest in ["]" + rest, "]" + t, "," + t];
    assert "]" + t in ["]" + rest, "]" + t, "," + t] && "," + t in ["]" + rest, "]" + t, "," + t];
    BlankEnd(p, e.size, b);
  }

  lemma {:induction false} BlankEnd(p: string, n: nat, b: string)
    requires 0 < n <= |p| && b == p[n..] && SkipBlanks(b) == "" && p[n - 1] == '}'
    ensures p[|p| - 1] != ']'
  {
    SkipIsSuffix(b);
    assert b != "" ==> p[|p| - 1] == b[|b| - 1];
  }

  /** A comma and more elements before the bracket. */
  lemma {:induction false} MoreElements(element: Reader, q: string, rest: string, items: seq<Json>, v: Json)
    returns (p2: string)
    requires ReaderLaws(element) && q != "" && Turn(element, v, q + ("]" + rest)) == Listed(items, rest)
    ensures q[0] == ',' && p2 == SkipBlanks(q[1..]) && p2 != "" && |p2| < |q|
    ensures items != [] && items[0] == v && Closes(element, p2, rest, items[1..])
  {
    hide ReaderLaws, ReadItems, SkipBlanks;
    var s := q + ("]" + rest);
    assert s[0] == q[0] && s[1..] == q[1..] + ("]" + rest);
    p2 := SkipBlanks(q[1..]);
    SkipOf(q[1..], "]" + rest);
    assert |s[1..]| > |rest|;
    Bracket(element, v, rest);
    BadStart(element, "]" + rest);
  }

  /** Past the comma behind the first element. */
  lemma {:induction false} CommaTurn(element: Reader, v: Json, q: string, u: string)
    requires q != "" && q[0] == ',' && SkipBlanks(q[1..]) != ""
    ensures Turn(element, v, q + u) == Then([v], ReadItems(element, SkipBlanks(q[1..]) + u))
  {
    hide ReadItems, SkipBlanks, Then;
    assert (q + u)[1..] == q[1..] + u;
    SkipOf(q[1..], u);
  }

  lemma {:induction false} ThenAll(v: Json, items: seq<Json>, more: Listed)
    ensures Then([v], Then(items, more)) == Then([v] + items, more)
  {
    if more.Listed? {
      assert [v] + (items + more.items) == [v] + items + more.items;
    }
  }

  lemma {:induction false} LastKept(p: string, n: nat, q: string)
    requires 0 < n <= |p| && q == SkipBlanks(p[n..]) && q != "" && SkipBlanks(q[1..]) != ""
    ensures var p2 := SkipBlanks(q[1..]); p != "" && p[|p| - 1] == p2[|p2| - 1]
  {
    hide SkipBlanks;
    SkipIsSuffix(p[n..]);
    SkipIsSuffix(q[1..]);
    assert p[|p| - 1] == q[|q| - 1];
  }

  lemma {:induction false} OpenBefore(element: Reader, p: string, items: seq<Json>, t: string,
                                      e: Element, b: string, p2: string)
    requires 0 < e.size <= |p| && b == p[e.size..] && SkipBlanks(b) != "" && SkipBlanks(b)[0] == ','
    requires p2 == SkipBlanks(SkipBlanks(b)[1..]) && p2 != ""
    requires items != [] && items[0] == e.value && Open(element, p2, items[1..], t)
    requires forall u :: u in ["]" + t, "," + t] ==>
               ReadItems(element, p + u) == Turn(element, e.value, SkipBlanks(b) + u)
    ensures Open(element, p, items, t)
  {
    hide ReadItems, SkipBlanks, Turn;
    var q := SkipBlanks(b);
    assert "]" + t in ["]" + t, "," + t] && "," + t in ["]" + t, "," + t];
    CommaTurn(element, e.value, q, "]" + t);
    CommaTurn(element, e.value, q, "," + t);
    ThenAll(e.value, items[1..], ReadItems(element, SkipBlanks(t)));
    LastKept(p, e.size, q);
    assert items == [e.value] + items[1..];
  }

  // ----- Whole texts -----

  /** Where reading stops stands behind a closing bracket. */
  lemma {:induction false} EndsBehindBracket(element: Reader, s: string)
    ensures var l := ReadItems(element, s);
            l.Listed? ==> |l.rest| < |s| && s == s[..|s| - |l.rest| - 1] + ("]" + l.rest)
    decreases |s|
  {
    hide SkipBlanks, Then;
    var l := ReadItems(element, s);
    if l.Listed? {
      var e := element(s).value;
      var after := SkipBlanks(s[e.size..]);
      SkipIsSuffix(s[e.size..]);
      if after[0] == ',' {
        SkipIsSuffix(after[1..]);
        EndsBehindBracket(element, SkipBlanks(after[1..]));
        ThenRest([e.value], ReadItems(element, SkipBlanks(after[1..])));
      }
    }
  }

  lemma {:induction false} ThenRest(items: seq<Json>, more: Listed)
    ensures Then(items, more).Listed? <==> more.Listed?
    ensures more.Listed? ==> Then(items, more).rest == more.rest
  {
  }

  lemma {:induction false} BlanksOnly(b: string)
    requires forall i :: 0 <= i < |b| ==> IsBlank(b[i])
    ensures SkipBlanks(b) == ""
    decreases |b|
  {
    if b != "" {
      BlanksOnly(b[1..]);
    }
  }

  lemma {:induction false} BlankLast(p: string)
    requires SkipBlanks(p) == ""
    ensures p != "" ==> p[|p| - 1] != ']'
  {
    SkipIsSuffix(p);
  }

  /** What a comma and t make of an array of a. */
  function GoOn(element: Reader, a: seq<Json>, t: string): Request {
    if a == [] then Invalid else Whole(Then(a, ReadItems(element, SkipBlanks(t))))
  }

  /** p holds the open array a, behind its opening bracket. */
  ghost predicate OpenArray(element: Reader, p: string, a: seq<Json>, t: string) {
    && (p != "" ==> p[|p| - 1] != ']')
    && ReadArray(element, p + ("]" + t)) == Listed(a, t)
    && Whole(ReadArray(element, p + ("," + t))) == GoOn(element, a, t)
  }

  lemma {:induction false} EmptyIsOpen(element: Reader, p: string, rest: string, a: seq<Json>, t: string)
    requires ReaderLaws(element) && ReadArray(element, p + ("]" + rest)) == Listed(a, rest) && SkipBlanks(p) == ""
    ensures a == [] && OpenArray(element, p, a, t)
  {
    hide ReaderLaws, ReadItems, SkipBlanks;
    SkipOf(p, "]" + rest);
    SkipOf(p, "]" + t);
    SkipOf(p, "," + t);
    Bracket(element, NotObject, rest);
    Bracket(element, NotObject, t);
    BadStart(element, "," + t);
    BlankLast(p);
  }

  lemma {:induction false} ItemsAreOpen(element: Reader, p: string, rest: string, a: seq<Json>, t: string)
    requires ReaderLaws(element) && ReadArray(element, p + ("]" + rest)) == Listed(a, rest) && SkipBlanks(p) != ""
    requires forall v :: v in a ==> v.Object?
    ensures a != [] && OpenArray(element, p, a, t)
  {
    hide ReaderLaws, ReadItems, SkipBlanks;
    var q := SkipBlanks(p);
    SkipOf(p, "]" + rest);
    SkipOf(p, "]" + t);
    SkipOf(p, "," + t);
    assert |(q + ("]" + rest))[1..]| > |rest|;
    ClosedIsOpen(element, q, rest, a, t);
    SkipIsSuffix(p);
    assert p[|p| - 1] == q[|q| - 1];
  }

  lemma {:induction false} ArrayIsOpen(element: Reader, p: string, rest: string, a: seq<Json>, t: string)
    requires ReaderLaws(element) && ReadArray(element, p + ("]" + rest)) == Listed(a, rest)
    requires forall v :: v in a ==> v.Object?
    ensures OpenArray(element, p, a, t)
  {
    hide ReaderLaws, OpenArray, ReadArray, SkipBlanks;
    if SkipBlanks(p) == "" {
      EmptyIsOpen(element, p, rest, a, t);
    } else {
      ItemsAreOpen(element, p, rest, a, t);
    }
  }

  lemma {:induction false} ArrayEnds(element: Reader, u: string)
    ensures var l := ReadArray(element, u);
            l.Listed? ==> |l.rest| < |u| && u == u[..|u| - |l.rest| - 1] + ("]" + l.rest)
  {
    hide ReadItems, SkipBlanks;
    SkipIsSuffix(u);
    EndsBehindBracket(element, SkipBlanks(u));
  }

  lemma {:induction false} ParseFrom(element: Reader, b: string, u: string)
    requires SkipBlanks(b) == ""
    ensures ReadJson(element, b + ("[" + u)) == Whole(ReadArray(element, u))
  {
    hide ReadArray, Whole;
    SkipOf(b, "[" + u);
    assert ("[" + u)[1..] == u;
  }

  /** A text that reads as the array a: what stands before its closing bracket, and the blanks behind it. */
  ghost predicate Bracketed(element: Reader, w: string, head: string, rest: string, a: seq<Json>) {
    && w == head + ("]" + rest) && SkipBlanks(rest) == "" && head != "" && head[|head| - 1] != ']'
    && forall t :: Reads(element, head, a, t)
  }

  predicate Reads(element: Reader, head: string, a: seq<Json>, t: string) {
    && ReadJson(element, head + ("]" + t)) == Whole(Listed(a, t))
    && ReadJson(element, head + ("," + t)) == GoOn(element, a, t)
  }

  lemma {:induction false} OpensWithBracket(element: Reader, w: string, a: seq<Json>) returns (b: string, u: string)
    requires ReaderLaws(element) && ReadJson(element, w) == Elements(a)
    ensures w == b + ("[" + u) && SkipBlanks(b) == "" && Whole(ReadArray(element, u)) == Elements(a)
    ensures forall i :: 0 <= i < |b| ==> IsBlank(b[i])
  {
    hide ReaderLaws, ReadArray, SkipBlanks;
    SkipIsSuffix(w);
    var s := SkipBlanks(w);
    b, u := w[..|w| - |s|], s[1..];
    BlanksOnly(b);
  }

  lemma {:induction false} ReadsOpen(element: Reader, b: string, p: string, rest: string, a: seq<Json>, t: string)
    requires ReaderLaws(element) && ReadArray(element, p + ("]" + rest)) == Listed(a, rest)
    requires SkipBlanks(b) == "" && forall v :: v in a ==> v.Object?
    ensures Reads(element, b + ("[" + p), a, t)
  {
    hide ReaderLaws, ReadArray, ReadJson, SkipBlanks, Whole, GoOn;
    ArrayIsOpen(element, p, rest, a, t);
    ParseFrom(element, b, p + ("]" + t));
    ParseFrom(element, b, p + ("," + t));
    assert b + ("[" + p) + ("]" + t) == b + ("[" + (p + ("]" + t)));
    assert b + ("[" + p) + ("," + t) == b + ("[" + (p + ("," + t)));
  }

  lemma {:induction false} Bracketing(element: Reader, w: string, a: seq<Json>) returns (head: string, rest: string)
    requires ReaderLaws(element) && ReadJson(element, w) == Elements(a) && forall v :: v in a ==> v.Object?
    ensures Bracketed(element, w, head, rest, a)
  {
    hide ReaderLaws, ReadArray, ReadJson, SkipBlanks, Reads;
    var b, u := OpensWithBracket(element, w, a);
    rest := ReadArray(element, u).rest;
    ArrayEnds(element, u);
    var p := u[..|u| - |rest| - 1];
    head := b + ("[" + p);
    ArrayIsOpen(element, p, rest, a, "");
    forall t ensures Reads(element, head, a, t) {
      ReadsOpen(element, b, p, rest, a, t);
    }
  }

  // ----- Splices -----

  /** What stands behind the bracket of a request that reads as b. */
  lemma {:induction false} RequestGoesOn(element: Reader, req: string, b: seq<Json>) returns (x: string)
    requires ReaderLaws(element) && ReadJson(element, req) == Elements(b)
    ensures AfterBracket(req) == Some(x) && Whole(ReadArray(element, x)) == Elements(b)
  {
    hide ReaderLaws, ReadArray, ReadJson, SkipBlanks, Whole;
    var blanks;
    blanks, x := OpensWithBracket(element, req, b);
    FirstBracket(blanks, x);
  }

  /** Going on with an array behind its opening bracket. */
  lemma {:induction false} GoesOn(element: Reader, a: seq<Json>, x: string, b: seq<Json>)
    requires ReaderLaws(element) && Whole(ReadArray(element, x)) == Elements(b)
    ensures GoOn(element, a, x) == if a != [] && b != [] then Elements(a + b) else Invalid
  {
    hide ReaderLaws, ReadItems, SkipBlanks;
    if b == [] {
      BadStart(element, SkipBlanks(x));
    }
  }

  lemma {:induction false} TrimmedBefore(u: string, x: string)
    requires u != "" && u[|u| - 1] != ']'
    ensures Trimmed(u + x) == u + Trimmed(x)
    decreases |x|
  {
    var s := u + x;
    if x != "" && x[|x| - 1] == ']' {
      assert s[..|s| - 1] == u + x[..|x| - 1];
      TrimmedBefore(u, x[..|x| - 1]);
    } else {
      assert x == "" ==> s == u;
    }
  }

  lemma {:induction false} TrimmedSplice(w: string, x: string)
    ensures Trimmed(SpliceText(w, x)) == SpliceText(w, Trimmed(x))
  {
    var u := Trimmed(w) + ",";
    TrimmedBefore(u, x);
    assert SpliceText(w, x) == u + x && SpliceText(w, Trimmed(x)) == u + Trimmed(x);
  }

  /** Splicing twice is splicing once with both. */
  lemma {:induction false} SpliceTwice(w: string, x: string, y: string)
    ensures SpliceText(SpliceText(w, x), y) == SpliceText(w, Trimmed(x) + ("," + y))
  {
    TrimmedSplice(w, x);
    assert Trimmed(w) + ("," + Trimmed(x)) + ("," + y) == Trimmed(w) + ("," + (Trimmed(x) + ("," + y)));
  }

  /** A text that nothing spliced repairs stays one. */
  lemma {:induction false} BrokenStays(element: Reader, w: string, x: string)
    requires Broken(element, w)
    ensures Broken(element, SpliceText(w, x))
  {
    hide ReadJson, SpliceText;
    var n := SpliceText(w, x);
    forall y ensures ReadJson(element, SpliceText(n, y)) == Invalid {
      SpliceTwice(w, x, y);
    }
  }

  /** Blanks behind the closing bracket: the splice lands behind them, outside the array. */
  lemma {:induction false} SplicedOutside(element: Reader, w: string, head: string, rest: string, a: seq<Json>,
                                          x: string)
    requires Bracketed(element, w, head, rest, a) && !EndsInBracket(w)
    ensures ReadJson(element, SpliceText(w, x)) == Invalid
  {
    hide ReadJson, GoOn, SkipBlanks;
    var t := rest + ("," + x);
    assert SpliceText(w, x) == head + ("]" + t);
    assert Reads(element, head, a, t);
    SkipOf(rest, "," + x);
    Bracket(element, NotObject, x);
  }

  /** Nothing behind the closing bracket: the splice goes on with the array. */
  lemma {:induction false} SplicedInside(element: Reader, w: string, head: string, rest: string, a: seq<Json>,
                                         x: string)
    requires Bracketed(element, w, head, rest, a) && EndsInBracket(w)
    ensures ReadJson(element, SpliceText(w, x)) == GoOn(element, a, x)
  {
    hide ReadJson, GoOn, SkipBlanks;
    BlankLast(rest);
    assert rest == "" && w == head + "]";
    TrimmedBefore(head, "]");
    OnlyBracket();
    assert Reads(element, head, a, x);
  }

  lemma {:induction false} OnlyBracket()
    ensures Trimmed("]") == ""
  {
    assert "]"[..0] == "";
  }

  /** An empty request closes the array at once, whatever follows it. */
  lemma {:induction false} ClosedAtOnce(element: Reader, a: seq<Json>, x: string, y: string)
    requires ReaderLaws(element) && Whole(ReadArray(element, x)) == Elements([])
    ensures GoOn(element, a, Trimmed(x) + ("," + y)) == Invalid
  {
    hide ReaderLaws, ReadItems, SkipBlanks, Trimmed;
    assert Trimmed(x) <= x;
    SkipOf(Trimmed(x), "," + y);
    Bracket(element, NotObject, y);
    if SkipBlanks(Trimmed(x)) != "" {
      PrefixSkips(Trimmed(x), x);
    }
    BadStart(element, SkipBlanks(Trimmed(x) + ("," + y)));
  }

  lemma {:induction false} PrefixSkips(p: string, x: string)
    requires p <= x && SkipBlanks(p) != ""
    ensures SkipBlanks(x) != "" && SkipBlanks(x)[0] == SkipBlanks(p)[0]
  {
    SkipOf(p, x[|p|..]);
    assert p + x[|p|..] == x;
  }

  /** Minting on top of tokens leaves a text that can be read exactly when the stored text ends in its bracket and
      neither array is empty. Then the minted tokens follow the stored ones; otherwise the text is broken for
      good. */
  lemma {:induction false} SpliceReadsExactlyWhen(element: Reader, w: string, a: seq<Json>, req: string, b: seq<Json>)
    returns (x: string)
    requires ReaderLaws(element) && ReadJson(element, w) == Elements(a) && ReadJson(element, req) == Elements(b)
    requires forall v :: v in a ==> v.Object?
    ensures AfterBracket(req) == Some(x)
    ensures if EndsInBracket(w) && a != [] && b != [] then ReadJson(element, SpliceText(w, x)) == Elements(a + b)
            else Broken(element, SpliceText(w, x))
  {
    hide ReaderLaws, ReadJson, Bracketed, EndsInBracket, SpliceText, ReadArray, Whole, GoOn, Trimmed;
    var head, rest := Bracketing(element, w, a);
    x := RequestGoesOn(element, req, b);
    var n := SpliceText(w, x);
    if EndsInBracket(w) {
      SplicedInside(element, w, head, rest, a, x);
      GoesOn(element, a, x, b);
    } else {
      SplicedOutside(element, w, head, rest, a, x);
    }
    if !EndsInBracket(w) || a == [] || b == [] {
      forall y ensures ReadJson(element, SpliceText(n, y)) == Invalid {
        SpliceTwice(w, x, y);
        SplicedTwice(element, w, head, rest, a, x, y, b);
      }
    }
  }

  lemma {:induction false} SplicedTwice(element: Reader, w: string, head: string, rest: string, a: seq<Json>,
                                        x: string, y: string, b: seq<Json>)
    requires ReaderLaws(element) && Bracketed(element, w, head, rest, a) && Whole(ReadArray(element, x)) == Elements(b)
    requires !EndsInBracket(w) || a == [] || b == []
    ensures ReadJson(element, SpliceText(w, Trimmed(x) + ("," + y))) == Invalid
  {
    hide ReaderLaws, ReadJson, Bracketed, EndsInBracket, SpliceText, ReadArray, Whole, Trimmed;
    var z := Trimmed(x) + ("," + y);
    if EndsInBracket(w) {
      SplicedInside(element, w, head, rest, a, z);
      if a != [] {
        ClosedAtOnce(element, a, x, y);
      }
    } else {
      SplicedOutside(element, w, head, rest, a, z);
    }
  }

  /** A blank behind an array text changes nothing of what is read. */
  lemma {:induction false} BlankBehindReads(element: Reader, w: string, a: seq<Json>)
    requires ReaderLaws(element) && ReadJson(element, w) == Elements(a) && forall v :: v in a ==> v.Object?
    ensures ReadJson(element, w + " ") == Elements(a) && !EndsInBracket(w + " ")
  {
    hide ReaderLaws, ReadJson;
    var head, rest := Bracketing(element, w, a);
    SkipOf(rest, " ");
    assert SkipBlanks(" ") == "" by {
      BlanksOnly(" ");
    }
    ReadsBehind(element, w, head, rest, a, " ");
  }

  lemma {:induction false} ReadsBehind(element: Reader, w: string, head: string, rest: string, a: seq<Json>, t: string)
    requires Bracketed(element, w, head, rest, a)
    ensures ReadJson(element, w + t) == Whole(Listed(a, rest + t))
  {
    hide ReadJson, GoOn;
    assert Reads(element, head, a, rest + t);
    assert w + t == head + ("]" + (rest + t));
  }

  /** The spliced text itself: what stands before the closing brackets at the end, a comma, and what stands behind the
      first opening bracket. */
  lemma {:induction false} SplicedTextIs(head: string, n: nat, blanks: string, x: string)
    requires head != "" && head[|head| - 1] != ']' && '[' !in blanks
    ensures AfterBracket(blanks + ("[" + x)) == Some(x)
    ensures SpliceText(head + seq(n, _ => ']'), x) == head + "," + x
  {
    FirstBracket(blanks, x);
    TrimmedBefore(head, seq(n, _ => ']'));
    BracketsGo(n);
  }

  lemma {:induction false} FirstBracket(b: string, x: string)
    requires '[' !in b
    ensures AfterBracket(b + ("[" + x)) == Some(x)
    decreases |b|
  {
    var s := b + ("[" + x);
    if b == "" {
      assert s[1..] == x;
    } else {
      assert s[1..] == b[1..] + ("[" + x) && b[0] in b;
      FirstBracket(b[1..], x);
    }
  }

  lemma {:induction false} BracketsGo(n: nat)
    ensures Trimmed(seq(n, _ => ']')) == ""
  {
    if n > 0 {
      assert seq(n, _ => ']')[..n - 1] == seq(n - 1, _ => ']');
      BracketsGo(n - 1);
    }
  }
}
