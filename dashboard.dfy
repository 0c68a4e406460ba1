/**
 * The dashboard: the three most recent transactions of the user, the session
 * balance refresh after a PIX, and the first name in the greeting.
 */
module Dashboard {
  import opened Wrappers
  import opened Text
  import opened Seqs
  import opened Ledger
  import opened Statement
  import opened Auth
  import opened Pix

  /** `loadRecentTransactions`: the user's records, newest first, cut to three. */
  function RecentTransactions(all: seq<Transaction>, cpf: string): seq<Transaction> {
    var u := UserTransactions(all, cpf);
    u[..Min(3, |u|)]
  }

  /** A prefix of a newest-first list is newest first, and nothing past it is later than anything in it. */
  lemma PrefixOfNewestFirst(u: seq<Transaction>, n: nat)
    requires NewestFirst(u) && n <= |u|
    ensures NewestFirst(u[..n])
    ensures forall t :: t in u && t !in u[..n] ==> forall i :: 0 <= i < n ==> t.date <= u[..n][i].date
  {
    forall t | t in u && t !in u[..n] ensures forall i :: 0 <= i < n ==> t.date <= u[..n][i].date {
      var j :| 0 <= j < |u| && u[j] == t;
      assert forall i :: 0 <= i < n ==> u[..n][i] == u[i];
    }
  }

  /**
   * At most three records, all the user's, newest first, a prefix of the full
   * statement, and as many as the statement has up to three; any record of the
   * user left out is no later than every one shown.
   */
  lemma RecentTransactionsSpec(all: seq<Transaction>, cpf: string)
    ensures var r := RecentTransactions(all, cpf);
      var u := UserTransactions(all, cpf);
      && |r| <= 3 && NewestFirst(r)
      && r == u[..|r|]
      && |r| == Min(3, |Filter(all, t => BelongsTo(t, cpf))|)
      && (forall t :: t in r ==> t in all && BelongsTo(t, cpf))
      && (forall t :: t in all && BelongsTo(t, cpf) && t !in r ==>
            forall i :: 0 <= i < |r| ==> t.date <= r[i].date)
  {
    var u := UserTransactions(all, cpf);
    var n := Min(3, |u|);
    UserTransactionsSpec(all, cpf);
    PrefixOfNewestFirst(u, n);
    assert forall t :: t in u[..n] ==> t in u;
  }

  /** `handleBalanceUpdate`: the session with only its balance replaced. */
  function WithBalance(user: SessionUser, newBalance: int): (v: SessionUser)
    ensures v.balance == newBalance
    ensures v.name == user.name && v.cpf == user.cpf && v.accountNumber == user.accountNumber
    ensures v.agency == user.agency && v.password == user.password
  {
    user.(balance := newBalance)
  }

  /**
   * A session that agrees with the sender's stored account still agrees with it
   * after a completed transfer, once the reported balance is applied.
   */
  lemma SessionStaysInSync(accounts: seq<StoredAccount>, log: seq<Transaction>, user: SessionUser,
                           key: string, amount: string, stamp: nat)
    requires AllDigits(amount)
    requires Accepted(accounts, user, key, amount)
    requires FindByCpf(accounts, OnlyDigits(user.cpf)).Some?
    requires user == SessionOf(accounts[FindByCpf(accounts, OnlyDigits(user.cpf)).value])
    ensures var r := Transfer(accounts, log, user, key, amount, stamp);
      var si := FindByCpf(accounts, OnlyDigits(user.cpf)).value;
      && r.outcome.Sent? && r.outcome.senderBalance.Some?
      && WithBalance(user, r.outcome.senderBalance.value) == SessionOf(r.accounts[si])
      && r.accounts[si].balance == user.balance - DigitsValue(amount)
  {
    TransferMovesMoney(accounts, log, user, key, amount, stamp);
  }

  /** `name.split(" ")[0]`: the name up to its first space. */
  function FirstName(name: string): (r: string)
    ensures r <= name
    ensures ' ' !in r
    ensures |r| < |name| ==> name[|r|] == ' '
  {
    if name == [] || name[0] == ' ' then [] else [name[0]] + FirstName(name[1..])
  }

  /** The first name of "first rest" is "first", whatever follows the space. */
  lemma {:induction false} FirstNameOf(first: string, rest: string)
    requires ' ' !in first
    ensures FirstName(first + " " + rest) == first
    ensures FirstName(first) == first
  {
    if first != [] {
      assert (first + " " + rest)[1..] == first[1..] + " " + rest;
      FirstNameOf(first[1..], rest);
    }
  }
}
