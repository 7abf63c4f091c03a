/** What every run of transactions keeps: transfer counts, fungible totals, the one holder of each NFT. */
module LedgerTotals {
  import opened Accounts
  import opened Circuits
  import opened JsonTexts
  import opened Ledgers
  import opened Rounding
  import opened Text
  import opened TextSplices
  import opened Tokens
  import opened TokenInvariants
  import opened TokenTotals
  import opened Trxns
  import opened Wrappers

  // ----- Sums over accounts -----

  /** A quantity of one account. */
  datatype Weight = Sent | Received | Held(element: Reader, name: string)

  function WeightOf(w: Weight, a: Account): int {
    match w
    case Sent => a.out
    case Received => a.inn
    case Held(element, name) => Sum(OfName(Opened(ReadWallet(element, a.tokens)), name))
  }

  function WeightAt(w: Weight, book: Book, user: string): int {
    if user in book then WeightOf(w, book[user]) else 0
  }

  /** The quantity summed over the listed users; who has no account counts nothing. */
  function Total(w: Weight, book: Book, who: seq<string>): int {
    if who == [] then 0 else WeightAt(w, book, who[0]) + Total(w, book, who[1..])
  }

  lemma {:induction false} TotalElsewhere(w: Weight, book: Book, who: seq<string>, user: string, a: Account)
    requires user !in who
    ensures Total(w, book[user := a], who) == Total(w, book, who)
    decreases |who|
  {
    hide WeightOf;
    if who != [] {
      TotalElsewhere(w, book, who[1..], user, a);
    }
  }

  lemma {:induction false} TotalAfterPut(w: Weight, book: Book, who: seq<string>, user: string, a: Account)
    requires Distinct(who) && user in who
    ensures Total(w, book[user := a], who) == Total(w, book, who) - WeightAt(w, book, user) + WeightOf(w, a)
    decreases |who|
  {
    hide WeightOf;
    assert Distinct(who[1..]) by {
      assert forall i :: 0 <= i < |who| - 1 ==> who[1..][i] == who[i + 1];
    }
    if who[0] == user {
      assert user !in who[1..];
      TotalElsewhere(w, book, who[1..], user, a);
    } else {
      TotalAfterPut(w, book, who[1..], user, a);
    }
  }

  /** Two different accounts written back. */
  lemma {:induction false} TotalAfterTwo(w: Weight, book: Book, who: seq<string>, from: string, to: string,
                                         f: Account, t: Account)
    requires Distinct(who) && from in who && to in who && from != to && from in book && to in book
    ensures Total(w, book[from := f][to := t], who)
            == Total(w, book, who) - WeightOf(w, book[from]) - WeightOf(w, book[to]) + WeightOf(w, f) + WeightOf(w, t)
  {
    hide WeightOf, Total;
    TotalAfterPut(w, book, who, from, f);
    TotalAfterPut(w, book[from := f], who, to, t);
  }

  // ----- Runs -----

  function After(host: Host, book: Book, ts: seq<Trxn>): Book
    decreases |ts|
  {
    if ts == [] then book else After(host, Apply(host, book, ts[0]).book, ts[1..])
  }

  /** How many transfers between accounts succeeded in a run. */
  function Successes(host: Host, book: Book, ts: seq<Trxn>): nat
    decreases |ts|
  {
    if ts == [] then 0
    else
      var done := Apply(host, book, ts[0]);
      (if TwoSided(ts[0]) && done.rc == 0 then 1 else 0) + Successes(host, done.book, ts[1..])
  }

  /** Sender and receiver differ in every transfer. */
  predicate NoSelfTransfer(t: Trxn) {
    TwoSided(t) ==> t.sender != t.receiver
  }

  ghost predicate Lists(who: seq<string>, t: Trxn) {
    t.sender in who && (TwoSided(t) ==> t.receiver in who)
  }

  /** A transaction that fails changes no account. */
  lemma {:induction false} FailureChangesNothing(host: Host, book: Book, t: Trxn)
    ensures Apply(host, book, t).rc < 0 ==> Apply(host, book, t).book == book
    ensures Apply(host, book, t).rc <= 0
  {
    hide ModifyTokens, ValidateReq, Added, Stored, SpliceText, MintedText, Atol;
  }

  lemma {:induction false} CountsStep(host: Host, book: Book, who: seq<string>, t: Trxn)
    requires Distinct(who) && Lists(who, t) && NoSelfTransfer(t)
    ensures var done := Apply(host, book, t);
            var one := if TwoSided(t) && done.rc == 0 then 1 else 0;
            && Total(Sent, done.book, who) == Total(Sent, book, who) + one
            && Total(Received, done.book, who) == Total(Received, book, who) + one
  {
    hide ModifyTokens, ValidateReq, Added, Stored, SpliceText, MintedText, Total, Atol;
    var done := Apply(host, book, t);
    if done.rc == 0 {
      var from, to := t.sender, t.receiver;
      forall w | w in [Sent, Received]
        ensures Total(w, done.book, who) == Total(w, book, who) + if TwoSided(t) then 1 else 0
      {
        if TwoSided(t) {
          TotalAfterTwo(w, book, who, from, to, done.book[from], done.book[to]);
          assert done.book == book[from := done.book[from]][to := done.book[to]];
        } else {
          TotalAfterPut(w, book, who, from, done.book[from]);
          assert done.book == book[from := done.book[from]];
        }
      }
      assert Sent in [Sent, Received] && Received in [Sent, Received];
    }
  }

  /** Over any run of transfers between different accounts, the debits counted by senders and the credits
      counted by receivers both grow by the number of successes. */
  lemma {:induction false} TransfersAreCounted(host: Host, book: Book, who: seq<string>, ts: seq<Trxn>)
    requires Distinct(who) && forall t :: t in ts ==> Lists(who, t) && NoSelfTransfer(t)
    ensures var n := Successes(host, book, ts);
            && Total(Sent, After(host, book, ts), who) == Total(Sent, book, who) + n
            && Total(Received, After(host, book, ts), who) == Total(Received, book, who) + n
    decreases |ts|
  {
    hide Apply, Total, Lists, NoSelfTransfer;
    if ts != [] {
      CountsStep(host, book, who, ts[0]);
      TransfersAreCounted(host, Apply(host, book, ts[0]).book, who, ts[1..]);
    }
  }

  // ----- Counters of one user -----

  function OutOf(book: Book, user: string): nat {
    if user in book then book[user].out else 0
  }

  function InOf(book: Book, user: string): nat {
    if user in book then book[user].inn else 0
  }

  /** A payment or token transfer that goes through. */
  predicate Transfers(host: Host, book: Book, t: Trxn) {
    (t.trxntype == "P" || t.trxntype == "X") && Apply(host, book, t).rc == 0
  }

  /** How many transfers of a run the user sent. */
  function SentBy(host: Host, book: Book, ts: seq<Trxn>, user: string): nat
    decreases |ts|
  {
    if ts == [] then 0
    else
      (if Transfers(host, book, ts[0]) && ts[0].sender == user then 1 else 0)
      + SentBy(host, Apply(host, book, ts[0]).book, ts[1..], user)
  }

  function ReceivedBy(host: Host, book: Book, ts: seq<Trxn>, user: string): nat
    decreases |ts|
  {
    if ts == [] then 0
    else
      (if Transfers(host, book, ts[0]) && ts[0].receiver == user then 1 else 0)
      + ReceivedBy(host, Apply(host, book, ts[0]).book, ts[1..], user)
  }

  lemma {:induction false} CountersStep(host: Host, book: Book, t: Trxn, user: string)
    requires NoSelfTransfer(t)
    ensures var done := Apply(host, book, t);
            && OutOf(done.book, user)
               == OutOf(book, user) + (if Transfers(host, book, t) && t.sender == user then 1 else 0)
            && InOf(done.book, user)
               == InOf(book, user) + (if Transfers(host, book, t) && t.receiver == user then 1 else 0)
  {
    hide ModifyTokens, ValidateReq, Added, Stored, SpliceText, MintedText, Atol;
  }

  /** Over any run of transfers between different accounts, a user's out grows by the transfers the user sent, and inn
      by those the user received; nothing else moves a counter, and a new account starts at zero. */
  lemma {:induction false} TransfersAreCountedPerUser(host: Host, book: Book, ts: seq<Trxn>, user: string)
    requires forall t :: t in ts ==> NoSelfTransfer(t)
    ensures OutOf(After(host, book, ts), user) == OutOf(book, user) + SentBy(host, book, ts, user)
    ensures InOf(After(host, book, ts), user) == InOf(book, user) + ReceivedBy(host, book, ts, user)
    decreases |ts|
  {
    hide Apply, OutOf, InOf, NoSelfTransfer, Transfers;
    if ts != [] {
      CountersStep(host, book, ts[0], user);
      TransfersAreCountedPerUser(host, Apply(host, book, ts[0]).book, ts[1..], user);
    }
  }
}
