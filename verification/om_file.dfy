/** A file opened for reading, one byte at a time: what read, saferead and lseek do to the position. */
module OmFiles {

  function Drop(s: string, k: nat): string {
    if k <= |s| then s[k..] else ""
  }

  class OmFile {
    const text: string
    var pos: nat

    constructor (text: string)
      ensures this.text == text && Left() == text
    {
      this.text := text;
      pos := 0;
    }

    ghost function Left(): string
      reads this
    {
      Drop(text, pos)
    }

    method Read1() returns (n: nat, c: char)
      modifies `pos
      ensures n == if old(Left()) == "" then 0 else 1
      ensures n == 1 ==> c == old(Left())[0] && Left() == old(Left())[1..]
      ensures n == 0 ==> Left() == ""
    {
      n, c := 0, '\0';
      if pos < |text| {
        n, c := 1, text[pos];
        pos := pos + 1;
      }
    }

    /** Reads up to size bytes. */
    method SafeRead(size: nat) returns (buf: string)
      modifies `pos
      ensures var s := old(Left()); buf == (if size <= |s| then s[..size] else s) && Left() == Drop(s, size)
    {
      ghost var s := Left();
      buf := [];
      while |buf| < size && pos < |text|
        invariant |buf| <= size && |buf| <= |s| && buf == s[..|buf|] && Left() == s[|buf|..]
      {
        buf := buf + [text[pos]];
        pos := pos + 1;
      }
      assert s[..|s|] == s;
    }

    method Seek(k: nat)
      modifies `pos
      ensures Left() == Drop(old(Left()), k)
    {
      pos := pos + k;
    }
  }
}
