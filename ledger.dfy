/**
 * The account and transaction records of the Next.js front end, and the two
 * JSON-file stores behind `/api/accounts` and `/api/transactions`. Money is held
 * in integer cents throughout.
 */
module Ledger {
  import opened Wrappers
  import opened Text
  import opened Seqs

  /** A record of `data/accounts.json`; `balance` is in cents. */
  datatype StoredAccount = StoredAccount(
    cpf: string,
    password: string,
    name: string,
    balance: int,
    accountNumber: string,
    agency: string,
    createdAt: string)

  /** The logged-in user the page hands to the dashboard and the PIX form; `balance` is in cents. */
  datatype SessionUser = SessionUser(
    name: string,
    cpf: string,
    balance: int,
    accountNumber: string,
    agency: string,
    password: string)

  /** A record of `data/transactions.json`; `amount` is signed cents, `date` an opaque timestamp. */
  datatype Transaction = Transaction(
    id: string,
    kind: string,
    description: string,
    amount: int,
    date: int,
    status: string,
    category: string,
    fromCpf: Option<string>,
    toCpf: Option<string>)

  /** The stored CPF of `a`, digits only, is `digits`. */
  predicate CpfIs(a: StoredAccount, digits: string) {
    OnlyDigits(a.cpf) == digits
  }

  /** `accounts.find(acc => acc.cpf.replace(/\D/g, "") === digits)`, as an index. */
  function FindByCpf(accounts: seq<StoredAccount>, digits: string): (r: Option<nat>)
    ensures r.Some? ==> r.value < |accounts| && CpfIs(accounts[r.value], digits)
    ensures r.Some? ==> forall j :: 0 <= j < r.value ==> !CpfIs(accounts[j], digits)
    ensures r.None? <==> forall j :: 0 <= j < |accounts| ==> !CpfIs(accounts[j], digits)
  {
    if accounts == [] then None
    else if CpfIs(accounts[0], digits) then Some(0)
    else match FindByCpf(accounts[1..], digits)
      case None => None
      case Some(i) => Some(i + 1)
  }

  /** No two stored accounts share a digits-only CPF. */
  predicate UniqueCpfs(accounts: seq<StoredAccount>) {
    forall i, j :: 0 <= i < j < |accounts| ==> OnlyDigits(accounts[i].cpf) != OnlyDigits(accounts[j].cpf)
  }

  function Balances(accounts: seq<StoredAccount>): (b: seq<int>)
    ensures |b| == |accounts| && forall i :: 0 <= i < |accounts| ==> b[i] == accounts[i].balance
  {
    seq(|accounts|, i requires 0 <= i < |accounts| => accounts[i].balance)
  }

  /** All the money held in the store. */
  function TotalBalance(accounts: seq<StoredAccount>): int {
    Sum(Balances(accounts))
  }

  /** Changing one account's balance changes the total by exactly the difference. */
  lemma TotalAfterBalanceChange(accounts: seq<StoredAccount>, i: nat, b: int)
    requires i < |accounts|
    ensures TotalBalance(accounts[i := accounts[i].(balance := b)]) == TotalBalance(accounts) - accounts[i].balance + b
  {
    assert Balances(accounts[i := accounts[i].(balance := b)]) == Balances(accounts)[i := b];
    SumUpdate(Balances(accounts), i, b);
  }

  /** Two stores whose accounts match `digits` at the same positions give the same lookup. */
  lemma {:induction false} FindByCpfSameMatches(a: seq<StoredAccount>, b: seq<StoredAccount>, digits: string)
    requires |a| == |b|
    requires forall j :: 0 <= j < |a| ==> CpfIs(a[j], digits) == CpfIs(b[j], digits)
    ensures FindByCpf(a, digits) == FindByCpf(b, digits)
  {
    if a != [] {
      assert CpfIs(a[0], digits) == CpfIs(b[0], digits);
      forall j | 0 <= j < |a| - 1 ensures CpfIs(a[1..][j], digits) == CpfIs(b[1..][j], digits) {
        assert a[1..][j] == a[j + 1] && b[1..][j] == b[j + 1];
      }
      FindByCpfSameMatches(a[1..], b[1..], digits);
    }
  }

  /** Replacing an account by one whose CPF has the same digits changes no lookup by digits. */
  lemma FindByCpfAfterReplace(accounts: seq<StoredAccount>, i: nat, b: StoredAccount, digits: string)
    requires i < |accounts| && OnlyDigits(b.cpf) == OnlyDigits(accounts[i].cpf)
    ensures FindByCpf(accounts[i := b], digits) == FindByCpf(accounts, digits)
  {
    FindByCpfSameMatches(accounts[i := b], accounts, digits);
  }

  /**
   * The account collection behind `/api/accounts` (`data/accounts.json`).
   * A missing file reads as the empty array.
   */
  class AccountStore {
    var accounts: seq<StoredAccount>

    constructor ()
      ensures accounts == []
    {
      accounts := [];
    }

    /** GET: the whole array, in insertion order. */
    method List() returns (r: seq<StoredAccount>)
      ensures r == accounts
    {
      r := accounts;
    }

    /** POST: one account appended at the end; nothing checked. */
    method Append(a: StoredAccount)
      modifies this
      ensures accounts == old(accounts) + [a]
    {
      accounts := accounts + [a];
    }

    /** PUT: the whole array replaced by the one sent. */
    method ReplaceAll(updated: seq<StoredAccount>)
      modifies this
      ensures accounts == updated
    {
      accounts := updated;
    }
  }

  /**
   * The transaction log behind `/api/transactions` (`data/transactions.json`):
   * append-only; a missing file reads as the empty array.
   */
  class TransactionLog {
    var entries: seq<Transaction>

    constructor ()
      ensures entries == []
    {
      entries := [];
    }

    /** GET: the whole log, in insertion order. */
    method List() returns (r: seq<Transaction>)
      ensures r == entries
    {
      r := entries;
    }

    /** POST: one record appended; earlier records untouched. */
    method Append(t: Transaction)
      modifies this
      ensures entries == old(entries) + [t]
    {
      entries := entries + [t];
    }
  }
}
