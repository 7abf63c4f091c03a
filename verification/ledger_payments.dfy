/** Payments of whole amounts: when they go through, and how much rounding can add or lose. */
module LedgerPayments {
  import opened Accounts
  import opened Ledgers
  import opened Rounding

  /** The sender's balance covers the amount, which is within ten thousand million either way. */
  predicate Covers(balance: nat, amt: int) {
    -10000000000 <= amt <= 10000000000 && amt <= balance
  }

  /** A payment goes through exactly when both accounts exist and the sender can pay it, and answers which of these
      fails first. */
  lemma {:induction false} PaysExactlyWhen(book: Book, from: string, to: string, amt: int)
    ensures var done := Pay(book, from, to, amt);
            && (done.rc == 0 <==> from in book && to in book && Covers(book[from].balance, amt))
            && (done.rc == -90 <==> from !in book)
            && (done.rc == -92 <==> from in book && to !in book)
            && (done.rc == -30 <==> from in book && to in book && !Covers(book[from].balance, amt))
            && (done.rc != 0 ==> done.book == book)
  {
    hide Round6;
  }

  /** The balance of an account that gains amt, to six digits; one that would fall below zero stays. */
  function Gained(balance: nat, amt: int): nat {
    if balance + amt < 0 then balance else Round6(balance + amt)
  }

  /** Between two accounts a payment takes the amount and one out from the sender, gives the amount and one in to the
      receiver, and changes nothing else of them and no other account. */
  lemma {:induction false} PaymentMovesExactly(book: Book, from: string, to: string, amt: int)
    requires from != to && Pay(book, from, to, amt).rc == 0
    ensures var after := Pay(book, from, to, amt).book;
            && after.Keys == book.Keys
            && after[from] == book[from].(balance := Gained(book[from].balance, -amt), out := book[from].out + 1)
            && after[to] == book[to].(balance := Gained(book[to].balance, amt), inn := book[to].inn + 1)
            && forall u :: u in book && u != from && u != to ==> after[u] == book[u]
  {
    hide Round6;
    PaysExactlyWhen(book, from, to, amt);
  }

  /** Paying oneself only credits: both records are read first, and the one that received is written last. */
  lemma {:induction false} PayingOneselfCredits(book: Book, user: string, amt: int)
    requires Pay(book, user, user, amt).rc == 0
    ensures Pay(book, user, user, amt).book
            == book[user := book[user].(balance := Gained(book[user].balance, amt), inn := book[user].inn + 1)]
  {
    hide Round6;
    PaysExactlyWhen(book, user, user, amt);
  }

  /** Between two accounts the total moves by at most five parts in a million of it; below a million it does
      not move at all, and the amount arrives in full. */
  lemma {:induction false} PaymentIsAlmostKept(book: Book, from: string, to: string, amt: int)
    requires from != to && amt >= 1 && Pay(book, from, to, amt).rc == 0
    ensures var after := Pay(book, from, to, amt).book;
            var total, total1 := book[from].balance + book[to].balance, after[from].balance + after[to].balance;
            && -total <= 200000 * (total1 - total) <= total
            && (book[from].balance < EXACT && book[to].balance + amt < EXACT ==>
                  && after[from].balance == book[from].balance - amt
                  && after[to].balance == book[to].balance + amt
                  && total1 == total)
            && after.Keys == book.Keys
            && forall u :: u in book && u != from && u != to ==> after[u] == book[u]
  {
    hide Round6;
    PaysExactlyWhen(book, from, to, amt);
    var f, t := book[from].balance - amt, book[to].balance + amt;
    RoundError(f);
    RoundError(t);
    if f < EXACT {
      RoundExact(f);
    }
    if t < EXACT {
      RoundExact(t);
    }
  }

  /** Who holds more cannot end with less for paying the same: rounding keeps the order of balances. */
  lemma {:induction false} PaymentKeepsOrder(balance: nat, other: nat, amt: int)
    requires 0 <= amt <= balance <= other && amt <= MAX_AMOUNT
    ensures Stored(balance, -amt) <= Stored(other, -amt)
    ensures Stored(balance, amt) <= Stored(other, amt)
  {
    hide Round6;
    RoundMonotone(balance - amt, other - amt);
    RoundMonotone(balance + amt, other + amt);
  }

  /** A stored balance is stored again as it is. */
  lemma {:induction false} StoredIsStable(balance: nat, amt: int)
    requires Added(balance, amt) >= 0
    ensures Stored(Stored(balance, amt), 0) == Stored(balance, amt)
  {
    hide Round6;
    RoundIdempotent(balance + amt);
  }

  /** Exactly the multiples of the sixth digit are stored as they are. */
  lemma {:induction false} RoundsToItself(n: nat)
    ensures Round6(n) == n <==> n % Scale(n) == 0
  {
    var s := Scale(n);
    assert n == s * (n / s) + n % s;
    assert s * (n / s + 1) == s * (n / s) + s;
  }

  /** A payment takes exactly its amount from the sender and gives exactly its amount to the receiver if and
      only if both new balances are multiples of their sixth digit, which a caller can tell beforehand. */
  lemma {:induction false} PaymentIsExactExactlyWhen(book: Book, from: string, to: string, amt: int)
    requires from != to && amt >= 1 && Pay(book, from, to, amt).rc == 0
    ensures var after := Pay(book, from, to, amt).book;
            var f, t := book[from].balance - amt, book[to].balance + amt;
            && f >= 0
            && (after[from].balance == f && after[to].balance == t <==> f % Scale(f) == 0 && t % Scale(t) == 0)
  {
    hide Round6, Scale;
    PaysExactlyWhen(book, from, to, amt);
    RoundsToItself(book[from].balance - amt);
    RoundsToItself(book[to].balance + amt);
  }

  /** Exact conservation fails at the opening balance: ten million less one is ten million again, so a sender
      pays 1 without losing it, and the total grows. */
  lemma {:induction false} OpeningBalancePaysForNothing(book: Book, from: string, to: string)
    requires from in book && to in book && from != to
    requires book[from].balance == 10000000 && book[to].balance == 0
    ensures var after := Pay(book, from, to, 1).book;
            && Pay(book, from, to, 1).rc == 0
            && after[from].balance == 10000000 && after[to].balance == 1
  {
    assert Scale(9999999) == 10 * Scale(999999) && Scale(999999) == 1;
    assert Round6(9999999) == 10000000;
    RoundExact(1);
  }

  /** An account is opened exactly when its name fits and is free and its type is known, in this order. It starts with
      ten million and no tokens, and no account that exists changes. */
  lemma {:induction false} OpensExactlyWhen(book: Book, from: string, accttype: string, pubkey: string)
    ensures var done := CreateAcct(book, from, accttype, pubkey);
            && (done.rc == 0 <==> |from| <= 64 && from !in book && (accttype == "U" || accttype == "C"))
            && (done.rc == -1 <==> |from| > 64)
            && (done.rc == -3 <==> |from| <= 64 && from in book)
            && (done.rc == -5 <==> |from| <= 64 && from !in book && accttype != "U" && accttype != "C")
            && (done.rc == 0 ==>
                  && done.book.Keys == book.Keys + {from}
                  && var a := done.book[from];
                     && a.balance == 10000000 && a.tokens == "" && a.out == a.inn == 0 && a.pubkey == pubkey
                     && a.accttype == accttype && a.tokentype == "O" && a.keytype == "DL5")
            && (done.rc != 0 ==> done.book == book)
            && forall u :: u in book ==> u in done.book && done.book[u] == book[u]
  {
  }
}
