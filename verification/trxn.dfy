/** OmicroTrxn (src/omicrotrxn.cc): a transaction and its one-line text, fields joined by '|'. */
module Trxns {
  import opened StrSplits
  import opened Text

  datatype Trxn = Trxn(
    id: string, beacon: string, sender: string, receiver: string, amount: string, timestamp: string,
    trxntype: string, assettype: string, request: string,
    pad1: string, pad2: string, pad3: string, pad4: string, pad5: string,
    pad6: string, pad7: string, pad8: string, pad9: string, pad10: string,
    cipher: string, signature: string, userPubkey: string, userSignature: string,
    fence: string, response: string, thdr: string, srvport: string)

  function DataFields(t: Trxn): (r: seq<string>)
    ensures |r| == 19
  {
    [t.id, t.beacon, t.sender, t.receiver, t.amount, t.timestamp, t.trxntype, t.assettype, t.request,
     t.pad1, t.pad2, t.pad3, t.pad4, t.pad5, t.pad6, t.pad7, t.pad8, t.pad9, t.pad10]
  }

  function SealFields(t: Trxn): (r: seq<string>)
    ensures |r| == 8
  {
    [t.cipher, t.signature, t.userPubkey, t.userSignature, t.fence, t.response, t.thdr, t.srvport]
  }

  /** The signed part: what goes into the block log. */
  function TrxnData(t: Trxn): string {
    Join(DataFields(t), '|')
  }

  /** The whole transaction: what goes over the wire and into the write-ahead log. */
  function AllStr(t: Trxn): string {
    TrxnData(t) + "|" + Join(SealFields(t), '|')
  }

  function TrxnID(t: Trxn): string {
    t.timestamp + ":" + t.sender
  }

  function OfFields(f: seq<string>): Trxn {
    Trxn(At(f, 0), At(f, 1), At(f, 2), At(f, 3), At(f, 4), At(f, 5), At(f, 6), At(f, 7), At(f, 8),
         At(f, 9), At(f, 10), At(f, 11), At(f, 12), At(f, 13), At(f, 14), At(f, 15), At(f, 16), At(f, 17),
         At(f, 18), At(f, 19), At(f, 20), At(f, 21), At(f, 22), At(f, 23), At(f, 24), At(f, 25), At(f, 26))
  }

  /** A transaction read from text; clock is the beacon that setBeacon would make now. */
  function Parse(str: string, clock: string): Trxn {
    var t := OfFields(Fields(CString(str), '|', false));
    if t.beacon == "" then t.(beacon := clock) else t
  }

  predicate Plain(f: string) {
    '|' !in f && '\0' !in f
  }

  ghost predicate AllPlain(list: seq<string>) {
    forall f :: f in list ==> Plain(f)
  }

  ghost predicate Writable(t: Trxn) {
    t.beacon != "" && AllPlain(DataFields(t)) && AllPlain(SealFields(t))
  }

  // ----- Round trip -----

  lemma {:induction false} JoinAppend(a: seq<string>, b: seq<string>, sep: char)
    requires |a| >= 1 && |b| >= 1
    ensures Join(a + b, sep) == Join(a, sep) + [sep] + Join(b, sep)
    decreases |a|
  {
    JoinCons(a[0], a[1..] + b, sep);
    assert a + b == [a[0]] + (a[1..] + b);
    if |a| == 1 {
      assert a[1..] + b == b;
    } else {
      JoinAppend(a[1..], b, sep);
      JoinCons(a[0], a[1..], sep);
      assert a == [a[0]] + a[1..];
    }
  }

  lemma {:induction false} JoinIsText(list: seq<string>, sep: char)
    requires |list| >= 1 && sep != '\0' && forall f :: f in list ==> '\0' !in f
    ensures '\0' !in Join(list, sep)
    decreases |list|
  {
    if |list| > 1 {
      JoinIsText(list[1..], sep);
    }
  }

  /** The fields of a joined text, as a C string. */
  lemma {:induction false} FieldsOfJoin(list: seq<string>)
    requires |list| >= 2 && AllPlain(list)
    ensures Fields(CString(Join(list, '|')), '|', false) == list
  {
    JoinIsText(list, '|');
    CStringWhole(Join(list, '|'));
    PiecesOfJoin(list, '|');
  }

  lemma {:induction false} OfAllFields(t: Trxn)
    ensures OfFields(DataFields(t) + SealFields(t)) == t
  {
  }

  /** A text splits into plain fields only. */
  lemma {:induction false} FieldsArePlain(str: string)
    ensures AllPlain(Fields(CString(str), '|', false))
  {
    var s := CString(str);
    JoinOfPieces(s, '|');
    PartsOfText(Pieces(s, '|', false), '|');
  }

  lemma {:induction false} PartsOfText(list: seq<string>, sep: char)
    requires |list| >= 1 && '\0' !in Join(list, sep)
    ensures forall f :: f in list ==> '\0' !in f
    decreases |list|
  {
    if |list| > 1 {
      assert forall c :: c in list[0] || c in Join(list[1..], sep) ==> c in Join(list, sep);
      PartsOfText(list[1..], sep);
    }
  }

  lemma {:induction false} ParsedIsWritable(str: string, clock: string)
    requires clock != "" && Plain(clock)
    ensures Writable(Parse(str, clock))
  {
    hide Fields, CString;
    FieldsArePlain(str);
    var f := Fields(CString(str), '|', false);
    assert forall i :: Plain(At(f, i));
  }

  /** The text of a transaction reads back as the same 27 fields exactly when the beacon is not empty and no
      field holds a separator or a NUL. */
  lemma {:induction false} ParseRestoresExactlyWritable(t: Trxn, clock: string)
    requires clock != "" && Plain(clock)
    ensures Parse(AllStr(t), clock) == t <==> Writable(t)
  {
    hide Fields, CString, OfFields, Writable;
    ParsedIsWritable(AllStr(t), clock);
    if Writable(t) {
      WritableIsRestored(t, clock);
    }
  }

  lemma {:induction false} WritableIsRestored(t: Trxn, clock: string)
    requires Writable(t)
    ensures Parse(AllStr(t), clock) == t
  {
    hide Fields, CString, OfFields;
    var list := DataFields(t) + SealFields(t);
    JoinAppend(DataFields(t), SealFields(t), '|');
    assert AllStr(t) == Join(list, '|');
    FieldsOfJoin(list);
    OfAllFields(t);
  }

  /** What the block log keeps of a transaction still names it: the id is field 5, a colon and field 2. */
  lemma {:induction false} DataNamesTrxn(t: Trxn)
    requires AllPlain(DataFields(t))
    ensures var f := Fields(CString(TrxnData(t)), '|', false);
            |f| >= 10 && At(f, 5) + ":" + At(f, 2) == TrxnID(t)
  {
    FieldsOfJoin(DataFields(t));
  }

  // ----- The line as it is written -----

  lemma {:induction false} JoinNext(list: seq<string>, k: nat)
    requires 1 <= k < |list|
    ensures Join(list[..k + 1], '|') == Join(list[..k], '|') + "|" + list[k]
  {
    JoinAppend(list[..k], [list[k]], '|');
    assert list[..k + 1] == list[..k] + [list[k]];
  }

  /** The order of the fields in the signed data, and behind it on the wire and in the log. */
  lemma {:induction false} LineIs(t: Trxn)
    ensures TrxnData(t) ==
              t.id + "|" + t.beacon + "|" + t.sender + "|" + t.receiver + "|" + t.amount + "|" + t.timestamp
              + "|" + t.trxntype + "|" + t.assettype + "|" + t.request
              + "|" + t.pad1 + "|" + t.pad2 + "|" + t.pad3 + "|" + t.pad4 + "|" + t.pad5
              + "|" + t.pad6 + "|" + t.pad7 + "|" + t.pad8 + "|" + t.pad9 + "|" + t.pad10
    ensures AllStr(t) ==
              TrxnData(t) + "|" + (t.cipher + "|" + t.signature + "|" + t.userPubkey + "|" + t.userSignature
                                   + "|" + t.fence + "|" + t.response + "|" + t.thdr + "|" + t.srvport)
    ensures TrxnID(t) == t.timestamp + ":" + t.sender
  {
    hide Join;
    DataLine(DataFields(t));
    SealLine(SealFields(t));
  }

  lemma {:induction false} Prefixes(f: seq<string>)
    requires |f| >= 1
    ensures Join(f[..1], '|') == f[0] && f[..|f|] == f
    ensures forall k :: 1 <= k < |f| ==> Join(f[..k + 1], '|') == Join(f[..k], '|') + "|" + f[k]
  {
    forall k | 1 <= k < |f| ensures Join(f[..k + 1], '|') == Join(f[..k], '|') + "|" + f[k] {
      JoinNext(f, k);
    }
  }

  lemma {:induction false} DataLine(f: seq<string>)
    requires |f| == 19
    ensures Join(f, '|') ==
              f[0] + "|" + f[1] + "|" + f[2] + "|" + f[3] + "|" + f[4] + "|" + f[5] + "|" + f[6] + "|" + f[7]
              + "|" + f[8] + "|" + f[9] + "|" + f[10] + "|" + f[11] + "|" + f[12] + "|" + f[13]
              + "|" + f[14] + "|" + f[15] + "|" + f[16] + "|" + f[17] + "|" + f[18]
  {
    hide Join;
    Prefixes(f);
    assert Join(f[..9], '|') ==
           f[0] + "|" + f[1] + "|" + f[2] + "|" + f[3] + "|" + f[4] + "|" + f[5] + "|" + f[6] + "|" + f[7] + "|" + f[8];
  }

  lemma {:induction false} SealLine(f: seq<string>)
    requires |f| == 8
    ensures Join(f, '|') ==
              f[0] + "|" + f[1] + "|" + f[2] + "|" + f[3] + "|" + f[4] + "|" + f[5] + "|" + f[6] + "|" + f[7]
  {
    hide Join;
    Prefixes(f);
  }
}
