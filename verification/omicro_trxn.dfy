/** The OmicroTrxn object itself: its fields are assigned one by one from a split text, and its text is put
    together field by field. */
module OmicroTrxns {
  import opened StrSplits
  import opened Text
  import opened Trxns

  class OmicroTrxn {
    var id: string
    var beacon: string
    var sender: string
    var receiver: string
    var amount: string
    var timestamp: string
    var trxntype: string
    var assettype: string
    var request: string
    var pad1: string
    var pad2: string
    var pad3: string
    var pad4: string
    var pad5: string
    var pad6: string
    var pad7: string
    var pad8: string
    var pad9: string
    var pad10: string
    var cipher: string
    var signature: string
    var userPubkey: string
    var userSignature: string
    var fence: string
    var response: string
    var thdr: string
    var srvport: string

    ghost function View(): Trxn
      reads this
    {
      Trxn(id, beacon, sender, receiver, amount, timestamp, trxntype, assettype, request,
           pad1, pad2, pad3, pad4, pad5, pad6, pad7, pad8, pad9, pad10,
           cipher, signature, userPubkey, userSignature, fence, response, thdr, srvport)
    }

    method Init(str: string, clock: string)
      modifies this
      ensures View() == Parse(str, clock)
    {
      hide OfFields, View;
      var sp := new OmStrSplit(CString(str), '|', false);
      SetFields(sp.list[..]);
      if |beacon| < 1 {
        SetBeacon(clock);
      }
    }

    method SetBeacon(clock: string)
      modifies this`beacon
      ensures View() == old(View()).(beacon := clock)
    {
      beacon := clock;
    }

    method SetFields(f: seq<string>)
      modifies this
      ensures View() == OfFields(f) && beacon == View().beacon
    {
      hide At;
      SetMain(f);
      SetPads(f);
      SetSeals(f);
    }

    method SetMain(f: seq<string>)
      modifies `id, `beacon, `sender, `receiver, `amount, `timestamp, `trxntype, `assettype, `request
      ensures id == At(f, 0) && beacon == At(f, 1) && sender == At(f, 2)
      ensures receiver == At(f, 3) && amount == At(f, 4) && timestamp == At(f, 5)
      ensures trxntype == At(f, 6) && assettype == At(f, 7) && request == At(f, 8)
    {
      id := At(f, 0);
      beacon := At(f, 1);
      sender := At(f, 2);
      receiver := At(f, 3);
      amount := At(f, 4);
      timestamp := At(f, 5);
      trxntype := At(f, 6);
      assettype := At(f, 7);
      request := At(f, 8);
    }

    method SetPads(f: seq<string>)
      modifies `pad1, `pad2, `pad3, `pad4, `pad5, `pad6, `pad7, `pad8, `pad9, `pad10
      ensures pad1 == At(f, 9) && pad2 == At(f, 10) && pad3 == At(f, 11)
      ensures pad4 == At(f, 12) && pad5 == At(f, 13) && pad6 == At(f, 14)
      ensures pad7 == At(f, 15) && pad8 == At(f, 16) && pad9 == At(f, 17)
      ensures pad10 == At(f, 18)
    {
      pad1 := At(f, 9);
      pad2 := At(f, 10);
      pad3 := At(f, 11);
      pad4 := At(f, 12);
      pad5 := At(f, 13);
      pad6 := At(f, 14);
      pad7 := At(f, 15);
      pad8 := At(f, 16);
      pad9 := At(f, 17);
      pad10 := At(f, 18);
    }

    method SetSeals(f: seq<string>)
      modifies `cipher, `signature, `userPubkey, `userSignature, `fence, `response, `thdr, `srvport
      ensures cipher == At(f, 19) && signature == At(f, 20) && userPubkey == At(f, 21)
      ensures userSignature == At(f, 22) && fence == At(f, 23) && response == At(f, 24)
      ensures thdr == At(f, 25) && srvport == At(f, 26)
    {
      cipher := At(f, 19);
      signature := At(f, 20);
      userPubkey := At(f, 21);
      userSignature := At(f, 22);
      fence := At(f, 23);
      response := At(f, 24);
      thdr := At(f, 25);
      srvport := At(f, 26);
    }

    method GetTrxnData() returns (data: string)
      ensures data == TrxnData(View())
    {
      ghost var list := DataFields(View());
      JoinOne(list, '|');
      hide Join;
      data := id;
      data := Append(data, beacon, list, 1);
      data := Append(data, sender, list, 2);
      data := Append(data, receiver, list, 3);
      data := Append(data, amount, list, 4);
      data := Append(data, timestamp, list, 5);
      data := Append(data, trxntype, list, 6);
      data := Append(data, assettype, list, 7);
      data := Append(data, request, list, 8);
      data := AddPads(data);
    }

    method AddPads(data: string) returns (r: string)
      requires data == Join(DataFields(View())[..9], '|')
      ensures r == TrxnData(View())
    {
      hide Join;
      ghost var list := DataFields(View());
      r := data;
      r := Append(r, pad1, list, 9);
      r := Append(r, pad2, list, 10);
      r := Append(r, pad3, list, 11);
      r := Append(r, pad4, list, 12);
      r := Append(r, pad5, list, 13);
      r := Append(r, pad6, list, 14);
      r := Append(r, pad7, list, 15);
      r := Append(r, pad8, list, 16);
      r := Append(r, pad9, list, 17);
      r := Append(r, pad10, list, 18);
      assert list[..19] == list;
    }

    method AllData() returns (alldata: string)
      ensures alldata == AllStr(View())
    {
      ghost var t := View();
      ghost var list := DataFields(t) + SealFields(t);
      JoinAppend(DataFields(t), SealFields(t), '|');
      hide Join, DataFields, SealFields;
      var data := GetTrxnData();
      assert list[..19] == DataFields(t);
      alldata := data;
      alldata := Append(alldata, cipher, list, 19);
      alldata := Append(alldata, signature, list, 20);
      alldata := Append(alldata, userPubkey, list, 21);
      alldata := Append(alldata, userSignature, list, 22);
      alldata := Append(alldata, fence, list, 23);
      alldata := Append(alldata, response, list, 24);
      alldata := Append(alldata, thdr, list, 25);
      alldata := Append(alldata, srvport, list, 26);
      assert list[..27] == list;
    }

    /** data + "|" + f, where data already joins the first k fields of list. */
    static method Append(data: string, f: string, ghost list: seq<string>, ghost k: nat) returns (r: string)
      requires 1 <= k < |list| && data == Join(list[..k], '|') && f == list[k]
      ensures r == Join(list[..k + 1], '|')
    {
      r := data + "|" + f;
      JoinAppend(list[..k], [f], '|');
      assert list[..k + 1] == list[..k] + [f];
    }

    method GetTrxnID() returns (id: string)
      ensures id == TrxnID(View())
    {
      id := timestamp + ":" + sender;
    }
  }

  lemma {:induction false} JoinOne(list: seq<string>, sep: char)
    requires |list| >= 1
    ensures Join(list[..1], sep) == list[0]
  {
  }
}
