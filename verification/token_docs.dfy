/** modifyTokens and checkValidTokens (src/blockmgr.cc) as the program runs them: loops over documents that
    change in place, refining the functions of Tokens. */
module TokenDocs {
  import opened Text
  import opened Tokens
  import opened Wrappers

  /** Deducts from the sender's document; rc is 0 or the code of the failure. */
  method DebitTokens(tokens: seq<Json>, x: Move) returns (rc: int, fromdom: seq<Json>, isNFT: bool)
    ensures match Debit(tokens, 0, false, x)
            case Refused(code) => rc == code && rc < 0
            case Done(left, nft) => rc == 0 && fromdom == left && isNFT == nft
  {
    hide Find, SetFirst, Show, Atol;
    fromdom, isNFT := tokens, false;
    var j := 0;
    while j < |fromdom|
      invariant j <= |fromdom|
      invariant Debit(fromdom, j, isNFT, x) == Debit(tokens, 0, false, x)
    {
      var v := fromdom[j];
      if v.NotObject? {
        return -70, fromdom, isNFT;
      }
      var tname := TextAt(v.members, "name");
      if tname.None? {
        return -70, fromdom, isNFT;
      }
      if tname.value != x.name {
        j := j + 1;
        continue;
      }
      var max := TextAt(v.members, "max");
      if max.None? {
        return -70, fromdom, isNFT;
      }
      if Atol(max.value) == 1 {
        var towner := TextAt(v.members, "owner");
        if towner.None? {
          return -81, fromdom, isNFT;
        }
        if towner.value != x.src {
          return -81, fromdom, isNFT;
        }
        v := Object(SetFirst(v.members, "owner", x.dst));
        fromdom := fromdom[j := v];
        isNFT := true;
      }
      var bal := TextAt(v.members, "bal");
      if bal.None? {
        assert fromdom[j := v] == fromdom;
        j := j + 1;
        continue;
      }
      var damt := Atol(bal.value) - Atol(x.amount);
      if damt < 0 {
        return -50, fromdom, isNFT;
      }
      fromdom := fromdom[j := Object(SetFirst(v.members, "bal", Show(damt)))];
      return 0, fromdom, isNFT;
    }
    rc := -55;
  }

  /** Looks for a record that takes the credit. */
  method CreditTokens(tokens: seq<Json>, x: Move, isNFT: bool) returns (toHasToken: bool, todom: seq<Json>)
    ensures match Credit(tokens, 0, isNFT, x)
            case None => !toHasToken && todom == tokens
            case Some(credited) => toHasToken && todom == credited
  {
    hide Find, SetFirst, Show, Atol;
    toHasToken, todom := false, tokens;
    var j := 0;
    while j < |todom|
      invariant j <= |todom| && todom == tokens && !toHasToken
      invariant Credit(tokens, j, isNFT, x) == Credit(tokens, 0, isNFT, x)
    {
      var v := todom[j];
      if v.NotObject? {
        j := j + 1;
        continue;
      }
      var tname := TextAt(v.members, "name");
      if tname.None? || tname.value != x.name {
        j := j + 1;
        continue;
      }
      var bal := TextAt(v.members, "bal");
      if bal.None? {
        j := j + 1;
        continue;
      }
      toHasToken := true;
      var m := v.members;
      if isNFT {
        m := SetFirst(m, "bal", "1");
        m := SetFirst(m, "owner", x.dst);
      } else {
        var damt := Atol(bal.value) + Atol(x.amount);
        m := SetFirst(m, "bal", Show(damt));
      }
      todom := todom[j := Object(m)];
      break;
    }
  }

  method CopyRecord(m: seq<Member>, amount: string) returns (obj: seq<Member>)
    ensures obj == Copy(m, amount)
  {
    obj := [];
    for k := 0 to |m|
      invariant Copy(m, amount) == obj + Copy(m[k..], amount)
    {
      var kv := m[k];
      assert m[k..][1..] == m[k + 1..];
      if kv.key == "bal" {
        obj := obj + [Member(kv.key, Text(amount))];
      } else {
        obj := obj + [Member(kv.key, Text(GetString(kv.value)))];
      }
    }
    assert m[|m|..] == [];
  }

  /** Appends to the receiver's document a copy of the sender's first record of that name. */
  method AddToken(fromdom: seq<Json>, tokens: seq<Json>, x: Move) returns (todom: seq<Json>)
    ensures match FirstNamed(fromdom, x.name)
            case Some(Object(m)) => todom == tokens + [Object(Copy(m, x.amount))]
            case _ => todom == tokens
  {
    todom := tokens;
    var j := 0;
    while j < |fromdom|
      invariant j <= |fromdom| && todom == tokens
      invariant FirstNamed(fromdom[j..], x.name) == FirstNamed(fromdom, x.name)
    {
      var v := fromdom[j];
      assert fromdom[j..][1..] == fromdom[j + 1..];
      if Named(v, x.name) {
        var obj := CopyRecord(v.members, x.amount);
        todom := todom + [Object(obj)];
        return;
      }
      j := j + 1;
    }
    assert fromdom[|fromdom|..] == [];
  }

  /** The amount and name of one item: rc is 0, a failure, or 1 for an item to skip. */
  method ReadXfer(rv: Json) returns (rc: int, xferName: string, xferAmount: string)
    ensures match ReadItem(rv)
            case Fail(code) => rc == code && rc < 0
            case Skip => rc == 1
            case Wanted(name, amount) => rc == 0 && xferName == name && xferAmount == amount
  {
    hide Find, Atol;
    xferName, xferAmount := "", "1";
    if rv.NotObject? {
      return -41, xferName, xferAmount;
    }
    var name := TextAt(rv.members, "name");
    if name.None? {
      return -42, xferName, xferAmount;
    }
    xferName := name.value;
    if |xferName| > OM_TOKEN_MAX_LEN {
      return -44, xferName, xferAmount;
    }
    match Find(rv.members, "amount") {
      case None =>
      case Some(Text(amt)) =>
        if |amt| > OM_NUM_MAXSZ {
          return 1, xferName, xferAmount;
        }
        if Atol(amt) <= 0 {
          return -45, xferName, xferAmount;
        }
        xferAmount := amt;
      case Some(Other) =>
        return -46, xferName, xferAmount;
    }
    rc := 0;
  }

  method MoveTokens(from: string, to: string, fromTokens: seq<Json>, toTokens: seq<Json>, items: seq<Json>)
    returns (rc: int, fromdom: seq<Json>, todom: seq<Json>)
    ensures match MoveAll(fromTokens, toTokens, items, from, to)
            case Stuck(code) => rc == code && rc < 0
            case Moved(s, d) => rc == 0 && fromdom == s && todom == d
  {
    hide ReadItem, Debit, Credit, FirstNamed, Copy;
    fromdom, todom := fromTokens, toTokens;
    var idx := 0;
    while idx < |items|
      invariant idx <= |items|
      invariant MoveAll(fromdom, todom, items[idx..], from, to) == MoveAll(fromTokens, toTokens, items, from, to)
    {
      assert items[idx..][1..] == items[idx + 1..];
      var code, xferName, xferAmount := ReadXfer(items[idx]);
      if code < 0 {
        return code, fromdom, todom;
      }
      if code == 0 {
        var x := Move(xferName, xferAmount, from, to);
        var dc, left, isNFT := DebitTokens(fromdom, x);
        if dc < 0 {
          return dc, fromdom, todom;
        }
        var toHasToken, credited := CreditTokens(todom, x, isNFT);
        if !toHasToken {
          credited := AddToken(left, credited, x);
        }
        fromdom, todom := left, credited;
      }
      idx := idx + 1;
    }
    assert items[|items|..] == [];
    rc := 0;
  }

  /** Both documents are written back only when every item went through. */
  method ModifyBoth(from: string, to: string, req: Request, src: Wallet, dst: Wallet)
    returns (rc: int, fromTokens: Wallet, toTokens: Wallet)
    ensures match ModifyTokens(from, to, req, src, dst)
            case Stuck(code) => rc == code && rc < 0 && fromTokens == src && toTokens == dst
            case Moved(s, d) => rc == 0 && fromTokens == Array(s) && toTokens == Array(d)
  {
    hide MoveAll;
    fromTokens, toTokens := src, dst;
    if !src.Array? {
      return -10, fromTokens, toTokens;
    }
    if dst.Garbled? {
      return -20, fromTokens, toTokens;
    }
    if req.Invalid? {
      return -30, fromTokens, toTokens;
    }
    if req.NotArray? {
      return -40, fromTokens, toTokens;
    }
    var fromdom, todom;
    rc, fromdom, todom := MoveTokens(from, to, src.tokens, if dst.Array? then dst.tokens else [], req.items);
    if rc == 0 {
      fromTokens, toTokens := Array(fromdom), Array(todom);
    }
  }

  // ----- The check at vote time -----

  method CheckSender(fromdom: seq<Json>, x: Move) returns (rc: int)
    ensures rc == CheckHolding(fromdom, 0, x)
  {
    hide Find, Atol;
    var j := 0;
    while j < |fromdom|
      invariant j <= |fromdom|
      invariant CheckHolding(fromdom, j, x) == CheckHolding(fromdom, 0, x)
    {
      var v := fromdom[j];
      if v.NotObject? {
        return -55;
      }
      var tname := TextAt(v.members, "name");
      if tname.None? {
        return -60;
      }
      if tname.value != x.name {
        j := j + 1;
        continue;
      }
      var max := TextAt(v.members, "max");
      if max.None? {
        return -61;
      }
      if Atol(max.value) == 1 {
        var towner := TextAt(v.members, "owner");
        if towner.None? {
          return -71;
        }
        if towner.value != x.src {
          return -73;
        }
      }
      var bal := TextAt(v.members, "bal");
      if bal.None? {
        return -65;
      }
      if Atol(bal.value) < Atol(x.amount) {
        return -50;
      }
      return 0;
    }
    return -55;
  }

  method CheckTokens(from: string, to: string, req: Request, src: Wallet, dst: Wallet) returns (rc: int)
    ensures rc == CheckValidTokens(from, to, req, src, dst)
  {
    hide Find, Atol, CheckHolding;
    if !src.Array? {
      return -10;
    }
    if dst.Garbled? {
      return -20;
    }
    if req.Invalid? {
      return -30;
    }
    if req.NotArray? {
      return -40;
    }
    var items := req.items;
    var idx := 0;
    while idx < |items|
      invariant idx <= |items|
      invariant CheckAll(src.tokens, items[idx..], from, to) == CheckAll(src.tokens, items, from, to)
    {
      assert items[idx..][1..] == items[idx + 1..];
      var rv := items[idx];
      if rv.NotObject? {
        return -35;
      }
      var name := TextAt(rv.members, "name");
      if name.None? {
        return -45;
      }
      if |name.value| > OM_TOKEN_MAX_LEN {
        return -46;
      }
      var xferAmount := "1";
      match Find(rv.members, "amount") {
        case None =>
        case Some(Text(amt)) =>
          if |amt| > OM_NUM_MAXSZ {
            return -57;
          }
          if Atol(amt) <= 0 {
            return -45;
          }
          xferAmount := amt;
        case Some(Other) =>
          return -46;
      }
      rc := CheckSender(src.tokens, Move(name.value, xferAmount, from, to));
      if rc < 0 {
        return;
      }
      idx := idx + 1;
    }
    assert items[|items|..] == [];
    return 0;
  }
}
