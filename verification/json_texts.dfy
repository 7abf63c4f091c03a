/** JSON arrays as texts: how the program reads and prints them, and how createToken splices two of them at
    their brackets (src/blockmgr.cc:297-311). The reading of one element is the library's. */
module JsonTexts {
  import opened Tokens
  import opened Wrappers

  /** A value at the start of a text, and how many characters it takes. */
  datatype Element = Element(value: Json, size: nat)

  type Reader = string -> Option<Element>

  predicate IsBlank(c: char) {
    c == ' ' || c == '\t' || c == '\n' || c == '\r'
  }

  function SkipBlanks(s: string): (r: string)
    ensures |r| <= |s| && (r != "" ==> !IsBlank(r[0]))
  {
    if s != "" && IsBlank(s[0]) then SkipBlanks(s[1..]) else s
  }

  /** Elements up to the closing bracket, and what follows it. */
  datatype Listed = Bad | Listed(items: seq<Json>, rest: string)

  /** From the start of an element on. */
  function ReadItems(element: Reader, s: string): (r: Listed)
    ensures r.Listed? ==> |r.rest| < |s| && r.items != []
    decreases |s|
  {
    match element(s)
    case None => Bad
    case Some(e) =>
      if e.size == 0 || e.size > |s| then Bad
      else
        var after := SkipBlanks(s[e.size..]);
        if after == "" then Bad
        else if after[0] == ']' then Listed([e.value], after[1..])
        else if after[0] == ',' then
          Then([e.value], ReadItems(element, SkipBlanks(after[1..])))
        else Bad
  }

  /** The array goes on after the items read so far. */
  function Then(items: seq<Json>, more: Listed): Listed {
    match more
    case Bad => Bad
    case Listed(others, rest) => Listed(items + others, rest)
  }

  /** From behind the opening bracket on. */
  function ReadArray(element: Reader, s: string): Listed {
    var u := SkipBlanks(s);
    if u != "" && u[0] == ']' then Listed([], u[1..]) else ReadItems(element, u)
  }

  /** Only blanks may follow the array. */
  function Whole(l: Listed): Request {
    match l
    case Bad => Invalid
    case Listed(items, rest) => if SkipBlanks(rest) == "" then Elements(items) else Invalid
  }

  /** A whole document. */
  function ReadJson(element: Reader, text: string): Request {
    var s := SkipBlanks(text);
    if s != "" && s[0] == '[' then Whole(ReadArray(element, s[1..]))
    else
      match element(s)
      case Some(e) => if 0 < e.size <= |s| && SkipBlanks(s[e.size..]) == "" then NotArray else Invalid
      case None => Invalid
  }

  /** The tokens of an account, read from the stored text. Tokens are never stored as anything but an array, and
      a text that is none is as good as one that does not parse. */
  function ReadWallet(element: Reader, text: string): Wallet {
    if text == "" then Blank
    else
      match ReadJson(element, text)
      case Elements(items) => Array(items)
      case _ => Garbled
  }

  function ShowAll(show: Json -> string, items: seq<Json>): string {
    if items == [] then ""
    else if |items| == 1 then show(items[0])
    else show(items[0]) + "," + ShowAll(show, items[1..])
  }

  function Print(show: Json -> string, items: seq<Json>): string {
    "[" + ShowAll(show, items) + "]"
  }

  // ----- Splicing -----

  /** erase(find_last_not_of("]") + 1): every closing bracket at the end goes. */
  function Trimmed(s: string): (r: string)
    ensures r <= s && (r != "" ==> r[|r| - 1] != ']')
    ensures forall i :: |r| <= i < |s| ==> s[i] == ']'
  {
    if s != "" && s[|s| - 1] == ']' then Trimmed(s[..|s| - 1]) else s
  }

  /** What follows the first opening bracket. */
  function AfterBracket(s: string): Option<string> {
    if s == "" then None
    else if s[0] == '[' then Some(s[1..])
    else AfterBracket(s[1..])
  }

  predicate EndsInBracket(s: string) {
    s != "" && s[|s| - 1] == ']'
  }

  // ----- What is asked of the library -----

  /** A value takes at least one character, and starts with no blank, comma or closing bracket. */
  predicate StartsWell(element: Reader, s: string) {
    match element(s)
    case None => true
    case Some(e) => 0 < e.size <= |s| && !IsBlank(s[0]) && s[0] != ',' && s[0] != ']'
  }

  /** An object ends with its brace, and is read alike whatever follows. */
  predicate SelfContained(element: Reader, s: string, t: string) {
    match element(s)
    case None => true
    case Some(e) =>
      e.value.Object? && 0 < e.size <= |s| ==>
        s[e.size - 1] == '}' && element(s[..e.size] + t) == element(s)
  }

  ghost predicate ReaderLaws(element: Reader) {
    forall s, t :: StartsWell(element, s) && SelfContained(element, s, t)
  }

  predicate ShownIsRead(element: Reader, show: Json -> string, v: Json, t: string) {
    t != "" && (t[0] == ',' || t[0] == ']') ==> element(show(v) + t) == Some(Element(v, |show(v)|))
  }

  /** What is printed is read back, with a comma or a closing bracket behind it. */
  ghost predicate PrinterLaws(element: Reader, show: Json -> string) {
    forall v, t :: ShownIsRead(element, show, v, t)
  }

  lemma {:induction false} Starts(element: Reader, s: string)
    requires ReaderLaws(element)
    ensures StartsWell(element, s)
  {
    assert SelfContained(element, s, "");
  }

  /** What one turn of the element loop makes of an element and what follows the blanks behind it. */
  function Turn(element: Reader, v: Json, after: string): Listed {
    if after == "" then Bad
    else if after[0] == ']' then Listed([v], after[1..])
    else if after[0] == ',' then Then([v], ReadItems(element, SkipBlanks(after[1..])))
    else Bad
  }

  lemma {:induction false} ReadStep(element: Reader, s: string, e: Element)
    requires element(s) == Some(e) && 0 < e.size <= |s|
    ensures ReadItems(element, s) == Turn(element, e.value, SkipBlanks(s[e.size..]))
  {
  }

  /** An element, a comma and more elements. */
  lemma {:induction false} TurnOn(element: Reader, v: Json, more: string, items: seq<Json>, rest: string)
    requires ReadItems(element, more) == Listed(items, rest) && SkipBlanks(more) == more
    ensures Turn(element, v, "," + more) == Listed([v] + items, rest)
  {
    assert ("," + more)[1..] == more;
  }

  // ----- Printing and reading -----

  lemma {:induction false} OneShown(element: Reader, show: Json -> string, v: Json, t: string)
    requires ReaderLaws(element) && PrinterLaws(element, show) && t != "" && (t[0] == ',' || t[0] == ']')
    ensures var s := show(v) + t;
            && element(s) == Some(Element(v, |show(v)|)) && 0 < |show(v)|
            && SkipBlanks(s) == s && s[0] != ']' && s[|show(v)|..] == t && SkipBlanks(t) == t
  {
    assert ShownIsRead(element, show, v, t);
    Starts(element, show(v) + t);
  }

  /** One element printed in front of what already reads as more, or as the end. */
  lemma {:induction false} ShownThen(element: Reader, show: Json -> string, v: Json, t: string)
    requires ReaderLaws(element) && PrinterLaws(element, show) && t != "" && (t[0] == ',' || t[0] == ']')
    ensures var s := show(v) + t;
            ReadItems(element, s) == Turn(element, v, t) && SkipBlanks(s) == s && s[0] != ']'
  {
    hide ReaderLaws, PrinterLaws, ReadItems, SkipBlanks, Turn;
    OneShown(element, show, v, t);
    ReadStep(element, show(v) + t, Element(v, |show(v)|));
  }

  lemma {:induction false} ShownReads(element: Reader, show: Json -> string, items: seq<Json>, rest: string)
    requires ReaderLaws(element) && PrinterLaws(element, show) && items != []
    ensures var s := ShowAll(show, items) + ("]" + rest);
            ReadItems(element, s) == Listed(items, rest) && SkipBlanks(s) == s && s[0] != ']'
    decreases |items|
  {
    hide ReaderLaws, PrinterLaws, ReadItems, SkipBlanks, Turn;
    var v, close := items[0], "]" + rest;
    if |items| == 1 {
      ShownThen(element, show, v, close);
      LastTurn(element, v, rest);
      assert items == [v];
    } else {
      var others := items[1..];
      var more := ShowAll(show, others) + close;
      ShownReads(element, show, others, rest);
      ShownThen(element, show, v, "," + more);
      TurnOn(element, v, more, others, rest);
      ShownSplits(show, items, close);
    }
  }

  lemma {:induction false} ShownSplits(show: Json -> string, items: seq<Json>, t: string)
    requires |items| > 1
    ensures ShowAll(show, items) + t == show(items[0]) + ("," + (ShowAll(show, items[1..]) + t))
    ensures items == [items[0]] + items[1..]
  {
  }

  lemma {:induction false} LastTurn(element: Reader, v: Json, rest: string)
    ensures Turn(element, v, "]" + rest) == Listed([v], rest)
  {
    assert ("]" + rest)[1..] == rest;
  }

  /** Printing and reading back an array. */
  lemma {:induction false} PrintReads(element: Reader, show: Json -> string, items: seq<Json>)
    requires ReaderLaws(element) && PrinterLaws(element, show)
    ensures ReadJson(element, Print(show, items)) == Elements(items)
    ensures EndsInBracket(Print(show, items))
  {
    hide ReaderLaws, PrinterLaws, ShowAll, ReadItems;
    var text, u := Print(show, items), ShowAll(show, items) + ("]" + "");
    assert text[1..] == u;
    if items == [] {
      NothingShown(show);
      assert u == "]";
    } else {
      ShownReads(element, show, items, "");
    }
  }

  lemma {:induction false} NothingShown(show: Json -> string)
    ensures ShowAll(show, []) == ""
  {
  }

  /** The text itself: the elements as they are shown, commas between them, no blanks. */
  lemma {:induction false} PrintIs(show: Json -> string, v: Json, items: seq<Json>)
    ensures Print(show, []) == "[]" && Print(show, [v]) == "[" + show(v) + "]"
    ensures items != [] ==> Print(show, [v] + items) == "[" + show(v) + "," + Print(show, items)[1..]
  {
    assert items != [] ==> ([v] + items)[1..] == items;
  }
}
