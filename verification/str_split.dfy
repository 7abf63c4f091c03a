/** OmStrSplit (src/omstrsplit.cc): fields between separators, found in two passes over the text. */
module StrSplits {

  /** How many characters come before the first separator. */
  function Run(s: string, sep: char): (n: nat)
    ensures n <= |s| && sep !in s[..n] && (n < |s| ==> s[n] == sep)
  {
    if s == "" || s[0] == sep then 0
    else
      var n := Run(s[1..], sep);
      assert s[..n + 1] == [s[0]] + s[1..][..n];
      n + 1
  }

  function Skip(s: string, sep: char): (r: string)
    ensures |r| <= |s| && (r != "" ==> r[0] != sep)
    ensures (s == "" || s[0] != sep) ==> r == s
  {
    if s != "" && s[0] == sep then Skip(s[1..], sep) else s
  }

  /** The fields of a text. With region, a run of separators counts as one, and none is kept at the end. */
  function Pieces(s: string, sep: char, region: bool): (r: seq<string>)
    ensures |r| >= 1
    decreases |s|
  {
    var n := Run(s, sep);
    if n == |s| then [s]
    else
      var rest := if region then Skip(s[n + 1..], sep) else s[n + 1..];
      if region && rest == "" then [s[..n]] else [s[..n]] + Pieces(rest, sep, region)
  }

  /** What init leaves in its list: nothing at all for an empty text. */
  function Fields(s: string, sep: char, region: bool): (r: seq<string>)
    ensures s == "" <==> r == []
  {
    if s == "" then [] else Pieces(if region then Skip(s, sep) else s, sep, region)
  }

  function Join(list: seq<string>, sep: char): string
    requires |list| >= 1
  {
    if |list| == 1 then list[0] else list[0] + [sep] + Join(list[1..], sep)
  }

  /** Field i, or the empty text outside the list. */
  function At(list: seq<string>, i: int): string {
    if 0 <= i < |list| then list[i] else ""
  }

  // ----- Splitting and joining -----

  lemma {:induction false} RunOf(a: string, b: string, sep: char)
    requires sep !in a && (b == "" || b[0] == sep)
    ensures Run(a + b, sep) == |a|
    decreases |a|
  {
    if a == "" {
      assert a + b == b;
    } else {
      assert (a + b)[1..] == a[1..] + b;
      RunOf(a[1..], b, sep);
    }
  }

  lemma {:induction false} FirstPiece(s: string, sep: char, region: bool, n: nat)
    requires n <= |s| && sep !in s[..n] && (n < |s| ==> s[n] == sep)
    ensures n == |s| ==> Pieces(s, sep, region) == [s[..n]]
    ensures n < |s| ==> var rest := if region then Skip(s[n + 1..], sep) else s[n + 1..];
                        Pieces(s, sep, region) == [s[..n]] + (if region && rest == "" then []
                                                              else Pieces(rest, sep, region))
  {
    RunOf(s[..n], s[n..], sep);
    assert s[..n] + s[n..] == s;
    assert n == |s| ==> s[..n] == s;
  }

  lemma {:induction false} JoinOfPieces(s: string, sep: char)
    ensures Join(Pieces(s, sep, false), sep) == s
    ensures forall f :: f in Pieces(s, sep, false) ==> sep !in f
    decreases |s|
  {
    var n := Run(s, sep);
    if n == |s| {
      assert s[..n] == s;
    } else {
      var rest := Pieces(s[n + 1..], sep, false);
      JoinOfPieces(s[n + 1..], sep);
      JoinCons(s[..n], rest, sep);
      assert s == s[..n] + [sep] + s[n + 1..];
    }
  }

  lemma {:induction false} JoinCons(f: string, list: seq<string>, sep: char)
    requires |list| >= 1
    ensures Join([f] + list, sep) == f + [sep] + Join(list, sep)
  {
    assert ([f] + list)[1..] == list;
  }

  /** Splitting undoes joining: every list of separator-free fields comes back, and every text is joined
      from the fields it splits into. */
  lemma {:induction false} PiecesOfJoin(list: seq<string>, sep: char)
    requires |list| >= 1 && forall f :: f in list ==> sep !in f
    ensures Pieces(Join(list, sep), sep, false) == list
    decreases |list|
  {
    hide Pieces;
    var s, n := Join(list, sep), |list[0]|;
    if |list| == 1 {
      assert s[..n] == s;
      FirstPiece(s, sep, false, n);
    } else {
      PiecesOfJoin(list[1..], sep);
      assert s[..n] == list[0] && s[n] == sep && s[n + 1..] == Join(list[1..], sep);
      FirstPiece(s, sep, false, n);
    }
  }

  lemma {:induction false} SplitAndJoin(s: string, list: seq<string>, sep: char)
    requires |list| >= 1 && forall f :: f in list ==> sep !in f
    requires s != ""
    ensures Fields(s, sep, false) == list <==> s == Join(list, sep)
  {
    JoinOfPieces(s, sep);
    PiecesOfJoin(list, sep);
  }

  // ----- Regions -----

  function Words(list: seq<string>): (r: seq<string>)
    ensures "" !in r
  {
    if list == [] then [] else (if list[0] == "" then [] else [list[0]]) + Words(list[1..])
  }

  lemma {:induction false} WordsSkip(s: string, sep: char)
    ensures Words(Pieces(Skip(s, sep), sep, false)) == Words(Pieces(s, sep, false))
    decreases |s|
  {
    if s != "" && s[0] == sep {
      WordsSkip(s[1..], sep);
      assert Pieces(s, sep, false)[0] == "";
      assert Pieces(s, sep, false)[1..] == Pieces(s[1..], sep, false);
    }
  }

  /** With region, the fields are the plain fields that are not blank, or one blank field when all are. */
  lemma {:induction false} RegionDropsBlanks(s: string, sep: char)
    requires s != ""
    ensures var words := Words(Fields(s, sep, false));
            Fields(s, sep, true) == if words == [] then [""] else words
  {
    var t := Skip(s, sep);
    WordsSkip(s, sep);
    if t == "" {
      assert Pieces(t, sep, false) == [""];
    } else {
      RegionWords(t, sep);
    }
  }

  lemma {:induction false} RegionWords(s: string, sep: char)
    requires s != "" && s[0] != sep
    ensures Pieces(s, sep, true) == Words(Pieces(s, sep, false))
    decreases |s|
  {
    var n := Run(s, sep);
    if n < |s| {
      var rest := s[n + 1..];
      assert Pieces(s, sep, false)[1..] == Pieces(rest, sep, false);
      WordsSkip(rest, sep);
      if Skip(rest, sep) == "" {
        assert Pieces("", sep, false) == [""];
      } else {
        RegionWords(Skip(rest, sep), sep);
      }
    }
  }

  // ----- The two passes -----

  lemma {:induction false} CountWithin(s: string, sep: char, region: bool)
    requires s != "" && s[0] != sep
    ensures |Pieces(s[1..], sep, region)| == |Pieces(s, sep, region)|
  {
    var n := Run(s, sep);
    assert n == Run(s[1..], sep) + 1;
    if n < |s| {
      assert s[1..][n..] == s[n + 1..];
    }
  }

  /** The fields still to be counted from position p on. */
  ghost function Uncounted(str: string, p: nat, sep: char, region: bool): nat
    requires p <= |str|
  {
    |Pieces(str[p..], sep, region)|
  }

  lemma {:induction false} CountStart(str: string, p: nat, sep: char, region: bool)
    requires str != "" && p <= |str| && str[p..] == if region then Skip(str, sep) else str
    ensures |Fields(str, sep, region)| == Uncounted(str, p, sep, region)
    ensures Uncounted(str, |str|, sep, region) == 1
  {
  }

  lemma {:induction false} CountStep(str: string, p: nat, sep: char, region: bool)
    requires p < |str| && (region ==> str[p] != sep)
    ensures Uncounted(str, p, sep, region)
            == Uncounted(str, p + 1, sep, region) + (if str[p] == sep then 1 else 0)
  {
    assert str[p..][1..] == str[p + 1..];
    if str[p] != sep {
      CountWithin(str[p..], sep, region);
    }
  }

  lemma {:induction false} CountSkip(str: string, p: nat, q: nat, sep: char)
    requires p < |str| && str[p] == sep && q <= |str| && str[q..] == Skip(str[p..], sep)
    ensures Uncounted(str, p, sep, true) == if q == |str| then 1 else 1 + Uncounted(str, q, sep, true)
  {
    assert str[q..] == "" <==> q == |str|;
  }

  class OmStrSplit {
    var list: array<string>
    var length: nat

    constructor (str: string, sep: char, ignoreregion: bool)
      ensures Valid() && fresh(list)
      ensures list[..] == Fields(str, sep, ignoreregion)
    {
      list := new string[0];
      length := 0;
      new;
      Init(str, sep, ignoreregion);
    }

    ghost predicate Valid()
      reads this
    {
      length == list.Length
    }

    /** The count pass. */
    method Count(str: string, sep: char, ignoreregion: bool) returns (tokens: nat)
      requires str != ""
      ensures tokens == |Fields(str, sep, ignoreregion)|
    {
      hide Pieces, Run, Skip, Uncounted;
      tokens := 1;
      var p := 0;
      if ignoreregion {
        p := SkipFrom(str, 0, sep);
      }
      CountStart(str, p, sep, ignoreregion);
      ghost var total := Uncounted(str, p, sep, ignoreregion);
      while p < |str|
        invariant p <= |str|
        invariant tokens + Uncounted(str, p, sep, ignoreregion) == total + 1
      {
        ghost var at := p;
        if str[p] == sep {
          if ignoreregion {
            p := SkipFrom(str, p, sep);
            CountSkip(str, at, p, sep);
            if p == |str| {
              break;
            }
          }
          tokens := tokens + 1;
        }
        CountStep(str, p, sep, ignoreregion);
        p := p + 1;
      }
    }

    method SkipFrom(str: string, from: nat, sep: char) returns (p: nat)
      requires from <= |str|
      ensures from <= p <= |str| && str[p..] == Skip(str[from..], sep)
    {
      p := from;
      while p < |str| && str[p] == sep
        invariant from <= p <= |str|
        invariant Skip(str[p..], sep) == Skip(str[from..], sep)
      {
        assert str[p..][1..] == str[p + 1..];
        p := p + 1;
      }
    }

    method PieceEnd(str: string, start: nat, sep: char, ghost region: bool) returns (end: nat)
      requires start <= |str|
      ensures start <= end <= |str|
      ensures var rest := if end == |str| then "" else if region then Skip(str[end + 1..], sep) else str[end + 1..];
              Pieces(str[start..], sep, region) == [str[start..end]] + (if end == |str| || (region && rest == "")
                                                                        then [] else Pieces(rest, sep, region))
    {
      hide Pieces, Run, Skip;
      end := start;
      while end < |str| && str[end] != sep
        invariant start <= end <= |str| && sep !in str[start..end]
      {
        end := end + 1;
      }
      ghost var rest, n := str[start..], end - start;
      assert rest[..n] == str[start..end] && (n < |rest| ==> rest[n + 1..] == str[end + 1..]);
      FirstPiece(rest, sep, region, n);
    }

    /** The split pass fills exactly the slots that the count pass asked for. */
    method Init(str: string, sep: char, ignoreregion: bool)
      modifies this
      ensures Valid() && fresh(list)
      ensures list[..] == Fields(str, sep, ignoreregion)
    {
      hide Pieces, Run, Skip;
      list := new string[0];
      length := 0;
      if str == "" {
        return;
      }
      var tokens := Count(str, sep, ignoreregion);
      list := new string[tokens];
      length := tokens;
      var start := 0;
      if ignoreregion {
        start := SkipFrom(str, 0, sep);
      }
      var i := 0;
      ghost var all := Pieces(str[start..], sep, ignoreregion);
      while i < tokens
        invariant i <= tokens == |all| == length == list.Length && fresh(list)
        invariant start <= |str|
        invariant forall k :: 0 <= k < i ==> list[k] == all[k]
        invariant i < tokens ==> all[i..] == Pieces(str[start..], sep, ignoreregion)
      {
        var end := PieceEnd(str, start, sep, ignoreregion);
        assert all[i] == all[i..][0] && all[i..][1..] == all[i + 1..];
        list[i] := str[start..end];
        i := i + 1;
        if end == |str| {
          break;
        }
        end := end + 1;
        if ignoreregion {
          end := SkipFrom(str, end, sep);
        }
        start := end;
      }
    }

    method Get(i: int) returns (f: string)
      requires Valid()
      ensures f == At(list[..], i)
    {
      f := if 0 <= i < length then list[i] else "";
    }
  }
}
