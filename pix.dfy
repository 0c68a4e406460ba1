/**
 * The PIX form: normalisation of the key field, and the transfer step
 * `handleTransfer` with its chain of checks, the in-place debit and credit of the
 * loaded account array, its write-back, and the two records it logs.
 */
module Pix {
  import opened Wrappers
  import opened Text
  import opened Seqs
  import opened Cpf
  import opened Ledger
  import opened Statement

  // ---------------------------------------------------------------------------
  // The key field
  // ---------------------------------------------------------------------------

  /**
   * `handlePixKeyChange`: the value the key field holds after the user types
   * `input` into it while it holds `current`. The test `/^\d+$/` is applied to the
   * digits of the input, so it holds as soon as the input has any digit at all.
   */
  function PixKeyChange(current: string, input: string): (r: string)
    ensures HasDigit(input) && |OnlyDigits(input)| <= 11 ==> r == FormatCpf(input)
    ensures HasDigit(input) && |OnlyDigits(input)| > 11 ==> r == current
    ensures !HasDigit(input) ==> r == input
  {
    OnlyDigitsEmpty(input);
    FormatCpfLength(input);
    var numbers := OnlyDigits(input);
    if |numbers| > 0 && AllDigits(numbers) then
      var formatted := FormatCpf(input);
      if |formatted| <= 14 then formatted else current
    else
      input
  }

  /** A key with any digit in it is stored as digits and mask characters only, at most fourteen. */
  lemma PixKeyChangeStoresMask(current: string, input: string)
    requires HasDigit(input) && |OnlyDigits(input)| <= 11
    ensures var r := PixKeyChange(current, input);
      |r| <= 14 && OnlyDigits(r) == OnlyDigits(input)
  {
  }

  /** What happens to an e-mail key with a digit in it: everything but the digit is lost. */
  lemma PixKeyChangeManglesEmail()
    ensures PixKeyChange("", "ana1@mail.com") == "1"
  {
    var input := "ana1@mail.com";
    assert IsDigit(input[3]);
    assert OnlyDigits(input) == "1";
  }

  /** The characters of a CPF typed with or without its mask. */
  predicate IsCpfChar(c: char) {
    IsDigit(c) || c == '.' || c == '-'
  }

  /**
   * The key normalisation as the code comment describes it ("if it contains only
   * numbers, format it as a CPF; other key types are kept"): only a value made of
   * digits and mask characters is reformatted.
   */
  function PixKeyChangeIntended(current: string, input: string): (r: string)
    ensures (exists i :: 0 <= i < |input| && !IsCpfChar(input[i])) ==> r == input
    ensures !HasDigit(input) ==> r == input
  {
    if HasDigit(input) && forall i :: 0 <= i < |input| ==> IsCpfChar(input[i]) then
      PixKeyChange(current, input)
    else
      input
  }

  /** On a value shaped like a CPF the intended normalisation agrees with the written one. */
  lemma PixKeyChangeIntendedOnCpfInput(current: string, input: string)
    requires forall i :: 0 <= i < |input| ==> IsCpfChar(input[i])
    ensures PixKeyChangeIntended(current, input) == PixKeyChange(current, input)
  {
  }

  /** Under the intended normalisation an e-mail key is kept as typed. */
  lemma PixKeyChangeIntendedKeepsEmail()
    ensures PixKeyChangeIntended("", "ana1@mail.com") == "ana1@mail.com"
  {
    assert !IsCpfChar("ana1@mail.com"[0]);
  }

  // ---------------------------------------------------------------------------
  // The transfer
  // ---------------------------------------------------------------------------

  /** The messages `handleTransfer` can end with other than success, in the order it checks. */
  datatype TransferError =
    | BlankKey          // "Digite uma chave PIX válida"
    | InvalidAmount     // "Digite um valor válido"
    | InsufficientFunds // "Saldo insuficiente"
    | InvalidKey        // "Chave PIX inválida. Use um CPF válido."
    | SelfTransfer      // "Você não pode enviar PIX para si mesmo"
    | KeyNotFound       // "Chave PIX não encontrada"

  /**
   * Success carries the sender's new stored balance, handed to `onBalanceUpdate`,
   * or nothing when no stored account matched the session's CPF.
   */
  datatype TransferOutcome = Rejected(error: TransferError) | Sent(senderBalance: Option<int>)

  datatype TransferState = TransferState(outcome: TransferOutcome, accounts: seq<StoredAccount>, log: seq<Transaction>)

  /** The record logged for the sender. */
  function OutgoingRecord(stamp: nat, cents: int, user: SessionUser, destination: StoredAccount): Transaction {
    Transaction(DecimalString(stamp) + "_out", "pix_sent", "PIX enviado para " + destination.name,
                -cents, stamp, "completed", "Transferência", Some(user.cpf), Some(destination.cpf))
  }

  /** The record logged for the recipient. */
  function IncomingRecord(stamp: nat, cents: int, user: SessionUser, destination: StoredAccount): Transaction {
    Transaction(DecimalString(stamp) + "_in", "pix_received", "PIX recebido de " + user.name,
                cents, stamp, "completed", "Transferência", Some(user.cpf), Some(destination.cpf))
  }


  /**
   * Record ids: the two records of one transfer never share an id, and records
   * of transfers stamped at different clock readings never do either.
   */
  lemma RecordIdsDistinct(s1: nat, s2: nat, cents1: int, cents2: int, user1: SessionUser, user2: SessionUser,
                          dest1: StoredAccount, dest2: StoredAccount)
    ensures OutgoingRecord(s1, cents1, user1, dest1).id != IncomingRecord(s2, cents2, user2, dest2).id
    ensures s1 != s2 ==> OutgoingRecord(s1, cents1, user1, dest1).id != OutgoingRecord(s2, cents2, user2, dest2).id
    ensures s1 != s2 ==> IncomingRecord(s1, cents1, user1, dest1).id != IncomingRecord(s2, cents2, user2, dest2).id
  {
    var d1, d2 := DecimalString(s1), DecimalString(s2);
    var o1, o2 := d1 + "_out", d2 + "_out";
    var i1, i2 := d1 + "_in", d2 + "_in";
    assert o1[|o1| - 1] == 't' && i2[|i2| - 1] == 'n';
    DecimalStringInjective(s1, s2);
    AppendCancel(d1, d2, "_out");
    AppendCancel(d1, d2, "_in");
  }

  /** Every check of the form passes, in the order it makes them. */
  predicate Accepted(accounts: seq<StoredAccount>, user: SessionUser, key: string, amount: string)
    requires AllDigits(amount)
  {
    && !IsBlank(key)
    && amount != [] && DigitsValue(amount) > 0
    && DigitsValue(amount) <= user.balance
    && ValidCpf(key)
    && OnlyDigits(key) != OnlyDigits(user.cpf)
    && FindByCpf(accounts, OnlyDigits(key)).Some?
  }

  /**
   * The first check of `handleTransfer` that fails. The funds test compares
   * against the session's balance and comes before the key is looked at.
   */
  function Rejection(accounts: seq<StoredAccount>, user: SessionUser, key: string, amount: string): (e: Option<TransferError>)
    requires AllDigits(amount)
    ensures e.None? <==> Accepted(accounts, user, key, amount)
  {
    if IsBlank(key) then Some(BlankKey)
    else if amount == [] || DigitsValue(amount) == 0 then Some(InvalidAmount)
    else if DigitsValue(amount) > user.balance then Some(InsufficientFunds)
    else if !ValidCpf(key) then Some(InvalidKey)
    else if OnlyDigits(key) == OnlyDigits(user.cpf) then Some(SelfTransfer)
    else if FindByCpf(accounts, OnlyDigits(key)).None? then Some(KeyNotFound)
    else None
  }

  /**
   * `senderAccount.balance -= x; destinationAccount.balance += x` on the loaded
   * array: the two accounts are elements of it, updated in place one after the other.
   */
  function MoveBalance(accounts: seq<StoredAccount>, si: nat, di: nat, x: int): (r: seq<StoredAccount>)
    requires si < |accounts| && di < |accounts|
    ensures |r| == |accounts|
    ensures si != di ==> r[si] == accounts[si].(balance := accounts[si].balance - x)
    ensures si != di ==> r[di] == accounts[di].(balance := accounts[di].balance + x)
    ensures si == di ==> r == accounts
    ensures forall k :: 0 <= k < |accounts| && k != si && k != di ==> r[k] == accounts[k]
    ensures TotalBalance(r) == TotalBalance(accounts)
  {
    var debited := accounts[si := accounts[si].(balance := accounts[si].balance - x)];
    TotalAfterBalanceChange(accounts, si, accounts[si].balance - x);
    TotalAfterBalanceChange(debited, di, debited[di].balance + x);
    debited[di := debited[di].(balance := debited[di].balance + x)]
  }

  /** The part of `handleTransfer` after the checks: move the money if the sender is found, and log both records. */
  function Complete(accounts: seq<StoredAccount>, log: seq<Transaction>, user: SessionUser,
                    di: nat, cents: int, stamp: nat): TransferState
    requires di < |accounts|
  {
    var records := [OutgoingRecord(stamp, cents, user, accounts[di]), IncomingRecord(stamp, cents, user, accounts[di])];
    match FindByCpf(accounts, OnlyDigits(user.cpf))
    case None => TransferState(Sent(None), accounts, log + records)
    case Some(si) =>
      var moved := MoveBalance(accounts, si, di, cents);
      TransferState(Sent(Some(moved[si].balance)), moved, log + records)
  }

  /**
   * What one call of `handleTransfer` does to the account store and the
   * transaction log. `amount` is the digits-only amount field in cents, `stamp`
   * the clock reading used for the record ids and dates.
   */
  function Transfer(accounts: seq<StoredAccount>, log: seq<Transaction>, user: SessionUser,
                    key: string, amount: string, stamp: nat): TransferState
    requires AllDigits(amount)
  {
    match Rejection(accounts, user, key, amount)
    case Some(e) => TransferState(Rejected(e), accounts, log)
    case None => Complete(accounts, log, user, FindByCpf(accounts, OnlyDigits(key)).value, DigitsValue(amount), stamp)
  }

  /** `handleTransfer`, with the awaits and the UI messages stripped away. */
  method HandleTransfer(store: AccountStore, log: TransactionLog, user: SessionUser,
                        pixKey: string, amount: string, stamp: nat) returns (outcome: TransferOutcome)
    requires AllDigits(amount)
    modifies store, log
    ensures TransferState(outcome, store.accounts, log.entries)
         == Transfer(old(store.accounts), old(log.entries), user, pixKey, amount, stamp)
  {
    if Trim(pixKey) == [] {
      return Rejected(BlankKey);
    }
    if amount == [] || DigitsValue(amount) == 0 {
      return Rejected(InvalidAmount);
    }
    var transferAmount := DigitsValue(amount);
    if transferAmount > user.balance {
      return Rejected(InsufficientFunds);
    }
    var valid := IsValidCpf(pixKey);
    if !valid {
      return Rejected(InvalidKey);
    }
    var destinationCpf := OnlyDigits(pixKey);
    if destinationCpf == OnlyDigits(user.cpf) {
      return Rejected(SelfTransfer);
    }
    var accounts := store.List();
    var destination := FindByCpf(accounts, destinationCpf);
    if destination.None? {
      return Rejected(KeyNotFound);
    }
    assert Rejection(accounts, user, pixKey, amount).None?;
    outcome := CompleteTransfer(store, log, user, destination.value, transferAmount, stamp);
  }

  /** The tail of `handleTransfer`, once every check has passed: the destination is `accounts[di]`. */
  method CompleteTransfer(store: AccountStore, log: TransactionLog, user: SessionUser,
                          di: nat, transferAmount: int, stamp: nat) returns (outcome: TransferOutcome)
    requires di < |store.accounts|
    modifies store, log
    ensures TransferState(outcome, store.accounts, log.entries)
         == Complete(old(store.accounts), old(log.entries), user, di, transferAmount, stamp)
  {
    var accounts := store.List();
    ghost var loaded := accounts;
    var destinationAccount := accounts[di];
    var sender := FindByCpf(accounts, OnlyDigits(user.cpf));
    outcome := Sent(None);
    if sender.Some? {
      var si := sender.value;
      accounts := accounts[si := accounts[si].(balance := accounts[si].balance - transferAmount)];
      accounts := accounts[di := accounts[di].(balance := accounts[di].balance + transferAmount)];
      assert accounts == MoveBalance(loaded, si, di, transferAmount);
      store.ReplaceAll(accounts);
      outcome := Sent(Some(accounts[si].balance));
    }
    ghost var logged := log.entries;
    log.Append(OutgoingRecord(stamp, transferAmount, user, destinationAccount));
    log.Append(IncomingRecord(stamp, transferAmount, user, destinationAccount));
    assert log.entries == logged + [OutgoingRecord(stamp, transferAmount, user, destinationAccount),
                                    IncomingRecord(stamp, transferAmount, user, destinationAccount)];
  }

  /**
   * The rejections, in order, and that none of them touches the store or the
   * log.
   */
  lemma TransferRejections(accounts: seq<StoredAccount>, log: seq<Transaction>, user: SessionUser,
                           key: string, amount: string, stamp: nat)
    requires AllDigits(amount)
    ensures var r := Transfer(accounts, log, user, key, amount, stamp);
      && (r.outcome.Rejected? <==> !Accepted(accounts, user, key, amount))
      && (r.outcome.Rejected? ==> r.accounts == accounts && r.log == log)
      && (IsBlank(key) ==> r.outcome == Rejected(BlankKey))
      && (!IsBlank(key) && (forall i :: 0 <= i < |amount| ==> amount[i] == '0') ==>
            r.outcome == Rejected(InvalidAmount))
      && (!IsBlank(key) && amount != [] && 0 < DigitsValue(amount) && DigitsValue(amount) > user.balance ==>
            r.outcome == Rejected(InsufficientFunds))
      && (!IsBlank(key) && amount != [] && 0 < DigitsValue(amount) <= user.balance && !ValidCpf(key) ==>
            r.outcome == Rejected(InvalidKey))
      && (!IsBlank(key) && amount != [] && 0 < DigitsValue(amount) <= user.balance && ValidCpf(key) &&
          OnlyDigits(key) == OnlyDigits(user.cpf) ==>
            r.outcome == Rejected(SelfTransfer))
      && (!IsBlank(key) && amount != [] && 0 < DigitsValue(amount) <= user.balance && ValidCpf(key) &&
          OnlyDigits(key) != OnlyDigits(user.cpf) && FindByCpf(accounts, OnlyDigits(key)).None? ==>
            r.outcome == Rejected(KeyNotFound))
      && (Accepted(accounts, user, key, amount) ==> r.outcome.Sent?)
  {
    DigitsValueZero(amount);
  }

  /** A key whose digits are the sender's own is always refused, whatever the balance. */
  lemma TransferNeverToSelf(accounts: seq<StoredAccount>, log: seq<Transaction>, user: SessionUser,
                            key: string, amount: string, stamp: nat)
    requires AllDigits(amount)
    requires OnlyDigits(key) == OnlyDigits(user.cpf)
    ensures var r := Transfer(accounts, log, user, key, amount, stamp);
      r.outcome.Rejected? && r.accounts == accounts && r.log == log
  {
  }

  /**
   * A completed transfer whose sender is in the store: the sender loses the
   * amount, the recipient (a different account, found by the key's digits) gains
   * it, every other account is untouched, the total is conserved, and the session
   * is told the sender's new balance.
   */
  lemma TransferMovesMoney(accounts: seq<StoredAccount>, log: seq<Transaction>, user: SessionUser,
                           key: string, amount: string, stamp: nat)
    requires AllDigits(amount)
    requires Accepted(accounts, user, key, amount)
    requires FindByCpf(accounts, OnlyDigits(user.cpf)).Some?
    ensures var r := Transfer(accounts, log, user, key, amount, stamp);
      var si := FindByCpf(accounts, OnlyDigits(user.cpf)).value;
      var di := FindByCpf(accounts, OnlyDigits(key)).value;
      var x := DigitsValue(amount);
      && si != di
      && CpfIs(accounts[si], OnlyDigits(user.cpf)) && CpfIs(accounts[di], OnlyDigits(key))
      && |r.accounts| == |accounts|
      && r.accounts[si] == accounts[si].(balance := accounts[si].balance - x)
      && r.accounts[di] == accounts[di].(balance := accounts[di].balance + x)
      && (forall k :: 0 <= k < |accounts| && k != si && k != di ==> r.accounts[k] == accounts[k])
      && TotalBalance(r.accounts) == TotalBalance(accounts)
      && r.outcome == Sent(Some(r.accounts[si].balance))
  {
  }

  /** The session's balance is what is checked, so a stale one lets the stored balance go below zero. */
  lemma TransferCanOverdraw(accounts: seq<StoredAccount>, log: seq<Transaction>, user: SessionUser,
                            key: string, amount: string, stamp: nat)
    requires AllDigits(amount)
    requires Accepted(accounts, user, key, amount)
    requires FindByCpf(accounts, OnlyDigits(user.cpf)).Some?
    requires accounts[FindByCpf(accounts, OnlyDigits(user.cpf)).value].balance < DigitsValue(amount)
    ensures var r := Transfer(accounts, log, user, key, amount, stamp);
      r.outcome.Sent? && r.accounts[FindByCpf(accounts, OnlyDigits(user.cpf)).value].balance < 0
  {
    TransferMovesMoney(accounts, log, user, key, amount, stamp);
  }

  /**
   * Every completed transfer appends exactly two records, outgoing then
   * incoming, sharing the id base, with opposite amounts, the same CPF pair and
   * status "completed"; earlier records are untouched.
   */
  lemma TransferLogsPair(accounts: seq<StoredAccount>, log: seq<Transaction>, user: SessionUser,
                         key: string, amount: string, stamp: nat)
    requires AllDigits(amount)
    requires Accepted(accounts, user, key, amount)
    ensures var r := Transfer(accounts, log, user, key, amount, stamp);
      var destination := accounts[FindByCpf(accounts, OnlyDigits(key)).value];
      var x: int := DigitsValue(amount);
      && |r.log| == |log| + 2 && r.log[..|log|] == log
      && var out := r.log[|log|];
         var inc := r.log[|log| + 1];
         && out.id == DecimalString(stamp) + "_out" && inc.id == DecimalString(stamp) + "_in"
         && out.kind == "pix_sent" && inc.kind == "pix_received"
         && out.amount == -x && inc.amount == x && x > 0
         && out.fromCpf == inc.fromCpf == Some(user.cpf)
         && out.toCpf == inc.toCpf == Some(destination.cpf) && CpfIs(destination, OnlyDigits(key))
         && out.status == inc.status == "completed"
  {
  }

  /**
   * When no stored account matches the session's CPF the balances are left as
   * they are, yet the two records are logged and the transfer reports success:
   * the guard around the balance update does not cover the logging.
   */
  lemma TransferWithoutSenderStillLogs(accounts: seq<StoredAccount>, log: seq<Transaction>, user: SessionUser,
                                       key: string, amount: string, stamp: nat)
    requires AllDigits(amount)
    requires Accepted(accounts, user, key, amount)
    requires FindByCpf(accounts, OnlyDigits(user.cpf)).None?
    ensures var r := Transfer(accounts, log, user, key, amount, stamp);
      r.outcome == Sent(None) && r.accounts == accounts && |r.log| == |log| + 2
  {
  }

  /**
   * No stored balance goes negative, provided none was negative before and the
   * session's balance is no larger than the stored balance of the sender's account.
   */
  lemma TransferKeepsBalancesNonNegative(accounts: seq<StoredAccount>, log: seq<Transaction>, user: SessionUser,
                                         key: string, amount: string, stamp: nat)
    requires AllDigits(amount)
    requires forall k :: 0 <= k < |accounts| ==> accounts[k].balance >= 0
    requires forall k :: 0 <= k < |accounts| && CpfIs(accounts[k], OnlyDigits(user.cpf)) ==> user.balance <= accounts[k].balance
    ensures var r := Transfer(accounts, log, user, key, amount, stamp);
      forall k :: 0 <= k < |r.accounts| ==> r.accounts[k].balance >= 0
  {
    if Accepted(accounts, user, key, amount) && FindByCpf(accounts, OnlyDigits(user.cpf)).Some? {
      TransferMovesMoney(accounts, log, user, key, amount, stamp);
    }
  }

  /** A transfer keeps the stored CPFs, so it keeps them pairwise distinct by digits. */
  lemma TransferKeepsCpfs(accounts: seq<StoredAccount>, log: seq<Transaction>, user: SessionUser,
                          key: string, amount: string, stamp: nat)
    requires AllDigits(amount)
    ensures var r := Transfer(accounts, log, user, key, amount, stamp);
      |r.accounts| == |accounts| && forall k :: 0 <= k < |accounts| ==> r.accounts[k].cpf == accounts[k].cpf
    ensures UniqueCpfs(accounts) ==> UniqueCpfs(Transfer(accounts, log, user, key, amount, stamp).accounts)
  {
  }

  /** Re-masking the CPF stored in one account changes no lookup by digits, and so no transfer's choice of accounts. */
  lemma LookupIgnoresStoredMask(accounts: seq<StoredAccount>, i: nat, digits: string)
    requires i < |accounts|
    ensures FindByCpf(accounts[i := accounts[i].(cpf := FormatCpf(accounts[i].cpf))], digits) == FindByCpf(accounts, digits)
  {
    FindByCpfAfterReplace(accounts, i, accounts[i].(cpf := FormatCpf(accounts[i].cpf)), digits);
  }

  // ---------------------------------------------------------------------------
  // What the statement makes of a transfer
  // ---------------------------------------------------------------------------

  /**
   * Both records of a transfer carry the sender as `fromCPF` and the recipient as
   * `toCPF`, and the statement keeps a record when either matches: so the sender
   * and the recipient each see both the debit and the credit, and neither
   * statement's net (income minus expense) moves, although both balances do.
   */
  lemma StatementShowsBothRecords(accounts: seq<StoredAccount>, log: seq<Transaction>, user: SessionUser,
                                  key: string, amount: string, stamp: nat)
    requires AllDigits(amount)
    requires Accepted(accounts, user, key, amount)
    ensures var r := Transfer(accounts, log, user, key, amount, stamp);
      var destination := accounts[FindByCpf(accounts, OnlyDigits(key)).value];
      && r.log[|log|] in UserTransactions(r.log, user.cpf) && r.log[|log| + 1] in UserTransactions(r.log, user.cpf)
      && r.log[|log|] in UserTransactions(r.log, destination.cpf) && r.log[|log| + 1] in UserTransactions(r.log, destination.cpf)
      && Net(UserTransactions(r.log, user.cpf)) == Net(UserTransactions(log, user.cpf))
      && Net(UserTransactions(r.log, destination.cpf)) == Net(UserTransactions(log, destination.cpf))
  {
    var di := FindByCpf(accounts, OnlyDigits(key)).value;
    var x := DigitsValue(amount);
    var out := OutgoingRecord(stamp, x, user, accounts[di]);
    var inc := IncomingRecord(stamp, x, user, accounts[di]);
    assert Transfer(accounts, log, user, key, amount, stamp).log == log + [out, inc];
    UserTransactionsAfterPair(log, out, inc, user.cpf);
    UserTransactionsAfterPair(log, out, inc, accounts[di].cpf);
  }

  /**
   * With each party's statement made of the records it owns, a completed
   * transfer moves the sender's statement net down and the recipient's up by
   * exactly the amount their balances move.
   */
  lemma OwnStatementTracksBalance(accounts: seq<StoredAccount>, log: seq<Transaction>, user: SessionUser,
                                  key: string, amount: string, stamp: nat)
    requires AllDigits(amount)
    requires Accepted(accounts, user, key, amount)
    ensures var r := Transfer(accounts, log, user, key, amount, stamp);
      var destination := accounts[FindByCpf(accounts, OnlyDigits(key)).value];
      var x := DigitsValue(amount);
      && Net(OwnTransactions(r.log, user.cpf)) == Net(OwnTransactions(log, user.cpf)) - x
      && Net(OwnTransactions(r.log, destination.cpf)) == Net(OwnTransactions(log, destination.cpf)) + x
  {
    var di := FindByCpf(accounts, OnlyDigits(key)).value;
    var x := DigitsValue(amount);
    var out := OutgoingRecord(stamp, x, user, accounts[di]);
    var inc := IncomingRecord(stamp, x, user, accounts[di]);
    assert Transfer(accounts, log, user, key, amount, stamp).log == log + [out, inc];
    assert user.cpf != accounts[di].cpf;
    OwnTransactionsAfterPair(log, out, inc, user.cpf);
    OwnTransactionsAfterPair(log, out, inc, accounts[di].cpf);
  }
}
