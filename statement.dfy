/**
 * The statement screen: the user's transactions newest first, the type filter
 * applied to them, the income and expense totals, and the icon each row gets.
 */
module Statement {
  import opened Wrappers
  import opened Text
  import opened Seqs
  import opened Ledger

  /** `transaction.fromCPF === cpf || transaction.toCPF === cpf` (an absent field never matches). */
  predicate BelongsTo(t: Transaction, cpf: string) {
    t.fromCpf == Some(cpf) || t.toCpf == Some(cpf)
  }

  /** Newest first: no record is later than the one before it. */
  predicate NewestFirst(s: seq<Transaction>) {
    forall i, j :: 0 <= i < j < |s| ==> s[i].date >= s[j].date
  }

  /** Places `t` before the first record that is not later than it. */
  function InsertByDate(t: Transaction, s: seq<Transaction>): (r: seq<Transaction>)
    ensures |r| == |s| + 1
    ensures multiset(r) == multiset(s) + multiset{t}
  {
    if s == [] || s[0].date <= t.date then [t] + s
    else
      assert s == [s[0]] + s[1..];
      [s[0]] + InsertByDate(t, s[1..])
  }

  lemma {:induction false} InsertKeepsOrder(t: Transaction, s: seq<Transaction>)
    requires NewestFirst(s)
    ensures NewestFirst(InsertByDate(t, s))
  {
    if s != [] && s[0].date > t.date {
      InsertKeepsOrder(t, s[1..]);
      var r := InsertByDate(t, s[1..]);
      assert r[0] == t || r[0] == s[1];
      assert forall x :: x in r ==> x == t || x in s[1..] by {
        forall x | x in r ensures x == t || x in s[1..] {
          assert x in multiset(r);
        }
      }
    }
  }

  /** `.sort((a, b) => b.date - a.date)`: newest first, a permutation of the input. */
  function SortByDate(s: seq<Transaction>): (r: seq<Transaction>)
    ensures |r| == |s|
    ensures multiset(r) == multiset(s)
    ensures NewestFirst(r)
  {
    if s == [] then [] else
      assert s == [s[0]] + s[1..];
      InsertKeepsOrder(s[0], SortByDate(s[1..]));
      InsertByDate(s[0], SortByDate(s[1..]))
  }

  /** `loadTransactions`: the records of the user with CPF `cpf`, newest first. */
  function UserTransactions(all: seq<Transaction>, cpf: string): seq<Transaction> {
    SortByDate(Filter(all, t => BelongsTo(t, cpf)))
  }

  /**
   * The statement holds exactly the user's records, each as often as it is
   * logged, newest first.
   */
  lemma UserTransactionsSpec(all: seq<Transaction>, cpf: string)
    ensures var r := UserTransactions(all, cpf);
      && NewestFirst(r)
      && multiset(r) == multiset(Filter(all, t => BelongsTo(t, cpf)))
      && (forall t :: t in r <==> t in all && BelongsTo(t, cpf))
  {
    var r := UserTransactions(all, cpf);
    var f := Filter(all, t => BelongsTo(t, cpf));
    forall t ensures t in r <==> t in f {
      assert t in r <==> t in multiset(r);
      assert t in f <==> t in multiset(f);
    }
  }

  /** The period and date-range controls of the screen; only the type choice is ever read. */
  datatype TypeChoice = AllTypes | Income | Expense | PixOnly

  datatype StatementView = StatementView(period: string, dateFrom: Option<int>, dateTo: Option<int>, selectedType: TypeChoice)

  /** The per-record test of `filteredTransactions`. */
  predicate KeepsType(choice: TypeChoice, t: Transaction) {
    match choice
    case AllTypes => true
    case Income => t.amount > 0
    case Expense => t.amount < 0
    case PixOnly => Contains(t.kind, "pix")
  }

  function FilteredTransactions(transactions: seq<Transaction>, view: StatementView): (r: seq<Transaction>)
    ensures forall t :: t in r <==> t in transactions && KeepsType(view.selectedType, t)
  {
    Filter(transactions, t => KeepsType(view.selectedType, t))
  }

  /**
   * The filtered list keeps the statement's order, and what it keeps is decided
   * by the type choice alone: income is strictly positive, expense strictly
   * negative (a zero amount is in neither), PIX means the type mentions "pix",
   * and "all" keeps everything.
   */
  lemma FilteredTransactionsSpec(transactions: seq<Transaction>, view: StatementView)
    ensures var r := FilteredTransactions(transactions, view);
      && IsSubsequence(r, transactions)
      && (view.selectedType == AllTypes ==> r == transactions)
      && (view.selectedType == Income ==> forall t :: t in r <==> t in transactions && t.amount > 0)
      && (view.selectedType == Expense ==> forall t :: t in r <==> t in transactions && t.amount < 0)
      && (view.selectedType == PixOnly ==> forall t :: t in r <==> t in transactions && Contains(t.kind, "pix"))
  {
    FilterIsSubsequence(transactions, t => KeepsType(view.selectedType, t));
    if view.selectedType == AllTypes {
      FilterKeepsAll(transactions, t => KeepsType(view.selectedType, t));
    }
  }

  /** Two views that differ only in period or date range filter alike. */
  lemma PeriodIgnored(transactions: seq<Transaction>, v: StatementView, w: StatementView)
    requires v.selectedType == w.selectedType
    ensures FilteredTransactions(transactions, v) == FilteredTransactions(transactions, w)
  {
  }

  /** `totalIncome`: the sum of the positive amounts. */
  function TotalIncome(ts: seq<Transaction>): (r: int)
    ensures r >= 0
  {
    if ts == [] then 0 else (if ts[0].amount > 0 then ts[0].amount else 0) + TotalIncome(ts[1..])
  }

  /** `totalExpense`: the sum of the absolute values of the negative amounts. */
  function TotalExpense(ts: seq<Transaction>): (r: int)
    ensures r >= 0
  {
    if ts == [] then 0 else (if ts[0].amount < 0 then -ts[0].amount else 0) + TotalExpense(ts[1..])
  }

  /** The plain sum of all amounts. */
  function Net(ts: seq<Transaction>): int {
    if ts == [] then 0 else ts[0].amount + Net(ts[1..])
  }

  /** Income minus expense is the net of every amount listed. */
  lemma {:induction false} TotalsBalance(ts: seq<Transaction>)
    ensures TotalIncome(ts) - TotalExpense(ts) == Net(ts)
  {
    if ts != [] {
      TotalsBalance(ts[1..]);
    }
  }

  /** The two `filter` tests of the totals. */
  predicate IsIncome(t: Transaction) { t.amount > 0 }

  predicate IsExpense(t: Transaction) { t.amount < 0 }

  /**
   * The totals are the source's `filter` then `reduce`: income is the net of the
   * positive records, expense the negated net of the negative ones.
   */
  lemma {:induction false} TotalsAreFilteredSums(ts: seq<Transaction>)
    ensures TotalIncome(ts) == Net(Filter(ts, IsIncome))
    ensures TotalExpense(ts) == -Net(Filter(ts, IsExpense))
  {
    if ts != [] {
      TotalsAreFilteredSums(ts[1..]);
      if ts[0].amount > 0 {
        assert Filter(ts, IsIncome) == [ts[0]] + Filter(ts[1..], IsIncome);
      }
      if ts[0].amount < 0 {
        assert Filter(ts, IsExpense) == [ts[0]] + Filter(ts[1..], IsExpense);
      }
    }
  }

  lemma {:induction false} NetAppend(a: seq<Transaction>, b: seq<Transaction>)
    ensures Net(a + b) == Net(a) + Net(b)
  {
    if a == [] {
      assert a + b == b;
    } else {
      assert (a + b)[1..] == a[1..] + b;
      NetAppend(a[1..], b);
    }
  }

  lemma {:induction false} NetInsert(t: Transaction, s: seq<Transaction>)
    ensures Net(InsertByDate(t, s)) == t.amount + Net(s)
  {
    if s != [] && s[0].date > t.date {
      NetInsert(t, s[1..]);
    }
  }

  /** Sorting does not change the net. */
  lemma {:induction false} NetSorted(s: seq<Transaction>)
    ensures Net(SortByDate(s)) == Net(s)
  {
    if s != [] {
      NetSorted(s[1..]);
      NetInsert(s[0], SortByDate(s[1..]));
    }
  }

  datatype Icon = PixIcon | TedIcon | ReceiptIcon

  /** `getTransactionIcon`. */
  function TransactionIcon(kind: string): (icon: Icon)
    ensures icon == PixIcon <==> kind == "pix_received" || kind == "pix_sent"
    ensures icon == TedIcon <==> kind == "ted_received" || kind == "ted_sent"
  {
    match kind
    case "pix_received" => PixIcon
    case "pix_sent" => PixIcon
    case "ted_received" => TedIcon
    case "ted_sent" => TedIcon
    case _ => ReceiptIcon
  }

  /** A row with the PIX icon is kept by the PIX filter and a TED row is not. */
  lemma IconAgreesWithPixFilter(t: Transaction)
    ensures TransactionIcon(t.kind) == PixIcon ==> KeepsType(PixOnly, t)
    ensures TransactionIcon(t.kind) == TedIcon ==> !KeepsType(PixOnly, t)
  {
    if t.kind == "ted_sent" || t.kind == "ted_received" {
      NoPixIn(t.kind);
    } else if t.kind == "pix_sent" || t.kind == "pix_received" {
      assert StartsWith(t.kind, "pix");
    }
  }

  lemma NoPixIn(kind: string)
    requires kind == "ted_sent" || kind == "ted_received"
    ensures !Contains(kind, "pix")
  {
    ContainsAt(kind, "pix");
    forall i: nat ensures !OccursAt(kind, "pix", i) {
      if i + 3 <= |kind| {
        assert kind[i..i + 3][0] == kind[i] != 'p';
      }
    }
  }

  /** Appending records to the log adds to a filtered statement the net of the appended records it keeps. */
  lemma NetAfterAppend(log: seq<Transaction>, records: seq<Transaction>, keep: Transaction -> bool)
    ensures Net(SortByDate(Filter(log + records, keep))) == Net(SortByDate(Filter(log, keep))) + Net(Filter(records, keep))
  {
    FilterAppend(log, records, keep);
    NetSorted(Filter(log + records, keep));
    NetSorted(Filter(log, keep));
    NetAppend(Filter(log, keep), Filter(records, keep));
  }

  lemma NetOfFilteredPair(a: Transaction, b: Transaction, keep: Transaction -> bool)
    ensures Net(Filter([a, b], keep)) == (if keep(a) then a.amount else 0) + (if keep(b) then b.amount else 0)
  {
    assert [a, b][1..] == [b];
    assert [b][1..] == [];
    var fb := Filter([b], keep);
    assert fb == (if keep(b) then [b] else []);
    assert Net(fb) == (if keep(b) then b.amount else 0);
    if keep(a) {
      assert Filter([a, b], keep) == [a] + fb;
      assert ([a] + fb)[1..] == fb;
    } else {
      assert Filter([a, b], keep) == fb;
    }
  }

  /**
   * Logging two records changes the statement of `cpf` by the amounts of those of
   * them that mention `cpf` as either party, and lists each of those.
   */
  lemma UserTransactionsAfterPair(log: seq<Transaction>, a: Transaction, b: Transaction, cpf: string)
    ensures Net(UserTransactions(log + [a, b], cpf))
         == Net(UserTransactions(log, cpf)) + (if BelongsTo(a, cpf) then a.amount else 0) + (if BelongsTo(b, cpf) then b.amount else 0)
    ensures BelongsTo(a, cpf) ==> a in UserTransactions(log + [a, b], cpf)
    ensures BelongsTo(b, cpf) ==> b in UserTransactions(log + [a, b], cpf)
  {
    var keep: Transaction -> bool := t => BelongsTo(t, cpf);
    UserTransactionsSpec(log + [a, b], cpf);
    NetAfterAppend(log, [a, b], keep);
    NetOfFilteredPair(a, b, keep);
  }

  /**
   * A record belongs to the party whose money it moved: a debit to its `fromCPF`
   * party, anything else to its `toCPF` party.
   */
  predicate Owns(t: Transaction, cpf: string) {
    if t.amount < 0 then t.fromCpf == Some(cpf) else t.toCpf == Some(cpf)
  }

  /** The statement each party's own records make, newest first. */
  function OwnTransactions(all: seq<Transaction>, cpf: string): (r: seq<Transaction>)
    ensures NewestFirst(r)
    ensures multiset(r) == multiset(Filter(all, t => Owns(t, cpf)))
    ensures forall t :: t in r <==> t in all && Owns(t, cpf)
    ensures forall t :: t in r ==> BelongsTo(t, cpf)
  {
    var f := Filter(all, t => Owns(t, cpf));
    var r := SortByDate(f);
    assert forall t :: t in r <==> t in multiset(r);
    assert forall t :: t in f <==> t in multiset(f);
    r
  }

  /** Logging two records changes the own-records statement of `cpf` by the amounts of those `cpf` owns. */
  lemma OwnTransactionsAfterPair(log: seq<Transaction>, a: Transaction, b: Transaction, cpf: string)
    ensures Net(OwnTransactions(log + [a, b], cpf))
         == Net(OwnTransactions(log, cpf)) + (if Owns(a, cpf) then a.amount else 0) + (if Owns(b, cpf) then b.amount else 0)
  {
    var keep: Transaction -> bool := t => Owns(t, cpf);
    NetAfterAppend(log, [a, b], keep);
    NetOfFilteredPair(a, b, keep);
  }
}
