/** What a saved transaction leaves in the block files: whose file gains a record, and on which side it stands. */
module BlockRecords {
  import opened BlockLogs
  import opened Ledgers
  import opened Text
  import opened Trxns
  import opened Wrappers

  function Written(files: Files, path: string): string {
    if path in files then files[path] else ""
  }

  /** The text of a record: the length of the data in digits, the mark, the data, the length again, and the success
      mark. */
  predicate RecordOf(text: string, len: string, mark: string, data: string) {
    && AllDigits(len) && Value(len) == |data|
    && text == len + "~" + mark + "~" + CString(data) + "~" + len + "~T}"
  }

  lemma {:induction false} RecordIs(t: Trxn, mark: char)
    ensures RecordOf(RecordText(t, mark), Decimal(|TrxnData(t)|), [mark], TrxnData(t))
  {
    hide TrxnData, CString, Decimal;
    var data := TrxnData(t);
    ValueOfDecimal(|data|);
    assert RecordText(t, mark) == Decimal(|data|) + "~" + [mark] + "~" + CString(data) + "~" + Decimal(|data|) + "~T}";
  }

  /** Saving what fails changes nothing. Saving what goes through takes over the changed accounts, adds to the log
      only when it is written, and adds one record of the logged form, marked '-', to the sender's file; a payment or a
      token transfer adds another, marked '+', to the receiver's, behind it when the file is the same. No other file
      changes. */
  lemma {:induction false} SaveAddsRecords(host: Host, l: Ledger, t: Trxn, now: Option<nat>)
    returns (len: string, debit: string, credit: string)
    ensures var done, saved := Apply(host, l.book, t), Save(host, l, t, now);
            if done.rc < 0 then saved == Saved(done.rc, l)
            else
              var two, data := t.trxntype == "P" || t.trxntype == "X", TrxnData(Logged(host, t));
              && saved.rc == 0 && saved.ledger.book == done.book
              && l.wal <= saved.ledger.wal && (saved.ledger.wal == l.wal <==> now.None?)
              && RecordOf(debit, len, "-", data) && RecordOf(credit, len, "+", data)
              && forall p ::
                   Written(saved.ledger.files, p)
                   == Written(l.files, p) + (if p == host.path(t.sender, t.timestamp) then debit else "")
                      + (if two && p == host.path(t.receiver, t.timestamp) then credit else "")
  {
    hide Apply, RecordText, MintedText, TrxnID, TrxnData, AllStr, Decimal, CString, RecordOf;
    var g := Logged(host, t);
    len, debit, credit := Decimal(|TrxnData(g)|), RecordText(g, '-'), RecordText(g, '+');
    RecordIs(g, '-');
    RecordIs(g, '+');
  }
}
