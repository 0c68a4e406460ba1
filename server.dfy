/**
 * The Express back end: a JSON array of users keyed by e-mail, read whole and
 * written back whole by each handler. A handler that finds no user where it
 * dereferences one throws before writing, which leaves the array as it was.
 */
module Server {
  import opened Wrappers
  import opened Seqs

  /** One element of a user's `transacoes`. */
  datatype Entry = Entry(tipo: string, valor: int, data: string)

  /** One element of `data/users.json`; the statement list may be absent. */
  datatype User = User(nome: string, email: string, senha: string, saldo: int, transacoes: Option<seq<Entry>>)

  /** The statement list, an absent one read as empty. */
  function Entries(u: User): seq<Entry> {
    match u.transacoes
    case None => []
    case Some(es) => es
  }

  /** `registrarTransacao`: one entry appended to the user's list, the list created if absent. */
  function Record(u: User, tipo: string, valor: int, data: string): (v: User)
    ensures Entries(v) == Entries(u) + [Entry(tipo, valor, data)]
    ensures v.transacoes.Some?
    ensures v.nome == u.nome && v.email == u.email && v.senha == u.senha && v.saldo == u.saldo
  {
    var es := if u.transacoes.None? then [] else u.transacoes.value;
    u.(transacoes := Some(es + [Entry(tipo, valor, data)]))
  }

  /** `users.find(u => u.email === email)`, as an index. */
  function FindEmail(users: seq<User>, email: string): (r: Option<nat>)
    ensures r.Some? ==> r.value < |users| && users[r.value].email == email
    ensures r.Some? ==> forall j :: 0 <= j < r.value ==> users[j].email != email
    ensures r.None? <==> forall j :: 0 <= j < |users| ==> users[j].email != email
  {
    if users == [] then None
    else if users[0].email == email then Some(0)
    else match FindEmail(users[1..], email)
      case None => None
      case Some(i) => Some(i + 1)
  }

  /** The e-mail addresses, in order. */
  function Emails(users: seq<User>): (es: seq<string>)
    ensures |es| == |users| && forall i :: 0 <= i < |users| ==> es[i] == users[i].email
  {
    seq(|users|, i requires 0 <= i < |users| => users[i].email)
  }

  predicate UniqueEmails(users: seq<User>) {
    forall i, j :: 0 <= i < j < |users| ==> users[i].email != users[j].email
  }

  function Saldos(users: seq<User>): (b: seq<int>)
    ensures |b| == |users| && forall i :: 0 <= i < |users| ==> b[i] == users[i].saldo
  {
    seq(|users|, i requires 0 <= i < |users| => users[i].saldo)
  }

  /** All the money the back end holds. */
  function TotalSaldo(users: seq<User>): int {
    Sum(Saldos(users))
  }

  lemma TotalAfterUpdate(users: seq<User>, i: nat, u: User)
    requires i < |users|
    ensures TotalSaldo(users[i := u]) == TotalSaldo(users) - users[i].saldo + u.saldo
  {
    assert Saldos(users[i := u]) == Saldos(users)[i := u.saldo];
    SumUpdate(Saldos(users), i, u.saldo);
  }

  /** The login handler: the first user with exactly that e-mail and password. */
  function Login(users: seq<User>, email: string, senha: string): (r: Option<User>)
    ensures r.Some? <==> exists i :: 0 <= i < |users| && users[i].email == email && users[i].senha == senha
    ensures r.Some? ==> r.value in users && r.value.email == email && r.value.senha == senha
  {
    if users == [] then None
    else if users[0].email == email && users[0].senha == senha then Some(users[0])
    else
      var rest := Login(users[1..], email, senha);
      assert forall i :: 1 <= i < |users| ==> users[i] == users[1..][i - 1];
      rest
  }

  /** With distinct e-mails, login returns the one user with that e-mail, when the password is its own. */
  lemma LoginWithUniqueEmails(users: seq<User>, email: string, senha: string)
    requires UniqueEmails(users)
    ensures Login(users, email, senha).Some?
        <==> FindEmail(users, email).Some? && users[FindEmail(users, email).value].senha == senha
    ensures Login(users, email, senha).Some? ==> Login(users, email, senha) == Some(users[FindEmail(users, email).value])
  {
    var r := Login(users, email, senha);
    if r.Some? {
      var i :| 0 <= i < |users| && users[i] == r.value;
      assert FindEmail(users, email) == Some(i);
    }
  }

  /** The statement handler: the user's list or the empty list; `None` when the handler throws for want of a user. */
  function Extrato(users: seq<User>, email: string): (r: Option<seq<Entry>>)
    ensures r.None? <==> forall j :: 0 <= j < |users| ==> users[j].email != email
  {
    match FindEmail(users, email)
    case None => None
    case Some(i) => Some(Entries(users[i]))
  }

  /** The reply of a mutating handler. */
  datatype Reply =
    | Refused(message: string)  // `{ success: false, message }`
    | Done                      // `{ success: true }`
    | DoneWith(user: User)      // `{ success: true, user }`
    | Crash                     // a TypeError thrown before `writeUsers`

  /**
   * The transfer handler's state change: debit, credit, then the two entries, each
   * applied to the array in turn, so that a sender who is also the recipient nets
   * to no change in balance but gets both entries.
   */
  function TransferUsers(users: seq<User>, i: nat, j: nat, valor: int, now: string): (r: seq<User>)
    requires i < |users| && j < |users|
    ensures |r| == |users| && Emails(r) == Emails(users)
    ensures i != j ==> r[i].saldo == users[i].saldo - valor && r[j].saldo == users[j].saldo + valor
    ensures i != j ==> Entries(r[i]) == Entries(users[i]) + [Entry("Envio Pix", -valor, now)]
    ensures i != j ==> Entries(r[j]) == Entries(users[j]) + [Entry("Recebido Pix", valor, now)]
    ensures i == j ==> r[i].saldo == users[i].saldo
    ensures i == j ==> Entries(r[i]) == Entries(users[i]) + [Entry("Envio Pix", -valor, now), Entry("Recebido Pix", valor, now)]
    ensures forall k :: 0 <= k < |users| && k != i && k != j ==> r[k] == users[k]
    ensures TotalSaldo(r) == TotalSaldo(users)
  {
    var debited := users[i := users[i].(saldo := users[i].saldo - valor)];
    var credited := debited[j := debited[j].(saldo := debited[j].saldo + valor)];
    var sent := credited[i := Record(credited[i], "Envio Pix", -valor, now)];
    var received := sent[j := Record(sent[j], "Recebido Pix", valor, now)];
    TotalAfterUpdate(users, i, debited[i]);
    TotalAfterUpdate(debited, j, credited[j]);
    TotalAfterUpdate(credited, i, sent[i]);
    TotalAfterUpdate(sent, j, received[j]);
    assert Emails(received) == Emails(users);
    received
  }

  /** When the transfer handler goes ahead: both users found and the sender's balance not below the amount. */
  predicate TransferAccepted(users: seq<User>, remetente: string, destinatario: string, valor: int) {
    var i := FindEmail(users, remetente);
    i.Some? && FindEmail(users, destinatario).Some? && users[i.value].saldo >= valor
  }

  /**
   * What the handler does not check: any amount up to the balance goes through,
   * so a non-positive one always does, and sending to oneself is not refused.
   */
  lemma TransferChecksOnlyBalance(users: seq<User>, remetente: string, destinatario: string, valor: int)
    requires FindEmail(users, remetente).Some? && FindEmail(users, destinatario).Some?
    ensures TransferAccepted(users, remetente, destinatario, valor)
        <==> valor <= users[FindEmail(users, remetente).value].saldo
    ensures valor <= 0 && users[FindEmail(users, remetente).value].saldo >= 0
        ==> TransferAccepted(users, remetente, destinatario, valor)
  {
  }

  /** The users array behind the handlers (`data/users.json`). */
  class UserDb {
    var users: seq<User>

    constructor (initial: seq<User>)
      ensures users == initial
    {
      users := initial;
    }

    /** POST /api/register. */
    method Register(nome: string, email: string, senha: string) returns (r: Reply)
      modifies this
      ensures FindEmail(old(users), email).Some? ==> r == Refused("Já existe") && users == old(users)
      ensures FindEmail(old(users), email).None? ==>
        r == Done && users == old(users) + [User(nome, email, senha, 0, Some([]))]
      ensures UniqueEmails(old(users)) ==> UniqueEmails(users)
      ensures TotalSaldo(users) == TotalSaldo(old(users))
    {
      if FindEmail(users, email).Some? {
        return Refused("Já existe");
      }
      var added := User(nome, email, senha, 0, Some([]));
      assert Saldos(users + [added]) == Saldos(users) + [0];
      SumAppendZero(Saldos(users));
      users := users + [added];
      r := Done;
    }

    /** POST /api/depositar: no check on the amount, and a missing user throws. */
    method Deposit(email: string, valor: int, now: string) returns (r: Reply)
      modifies this
      ensures FindEmail(old(users), email).None? ==> r == Crash && users == old(users)
      ensures FindEmail(old(users), email).Some? ==>
        var i := FindEmail(old(users), email).value;
        && users == old(users)[i := Record(old(users)[i].(saldo := old(users)[i].saldo + valor), "Depósito", valor, now)]
        && r == DoneWith(users[i])
        && Entries(users[i]) == Entries(old(users)[i]) + [Entry("Depósito", valor, now)]
        && TotalSaldo(users) == TotalSaldo(old(users)) + valor
      ensures Emails(users) == Emails(old(users))
    {
      var found := FindEmail(users, email);
      if found.None? {
        return Crash;
      }
      var i := found.value;
      TotalAfterUpdate(users, i, users[i].(saldo := users[i].saldo + valor));
      users := users[i := users[i].(saldo := users[i].saldo + valor)];
      TotalAfterUpdate(users, i, Record(users[i], "Depósito", valor, now));
      users := users[i := Record(users[i], "Depósito", valor, now)];
      r := DoneWith(users[i]);
    }

    /** POST /api/sacar: refused below the amount, logged with the amount as given; a missing user throws. */
    method Withdraw(email: string, valor: int, now: string) returns (r: Reply)
      modifies this
      ensures FindEmail(old(users), email).None? ==> r == Crash && users == old(users)
      ensures FindEmail(old(users), email).Some? && old(users)[FindEmail(old(users), email).value].saldo < valor ==>
        r == Refused("Saldo insuficiente") && users == old(users)
      ensures FindEmail(old(users), email).Some? && old(users)[FindEmail(old(users), email).value].saldo >= valor ==>
        var i := FindEmail(old(users), email).value;
        && users == old(users)[i := Record(old(users)[i].(saldo := old(users)[i].saldo - valor), "Saque", valor, now)]
        && r == DoneWith(users[i])
        && users[i].saldo >= 0
        && Entries(users[i]) == Entries(old(users)[i]) + [Entry("Saque", valor, now)]
        && TotalSaldo(users) == TotalSaldo(old(users)) - valor
      ensures Emails(users) == Emails(old(users))
    {
      var found := FindEmail(users, email);
      if found.None? {
        return Crash;
      }
      var i := found.value;
      if users[i].saldo < valor {
        return Refused("Saldo insuficiente");
      }
      TotalAfterUpdate(users, i, users[i].(saldo := users[i].saldo - valor));
      users := users[i := users[i].(saldo := users[i].saldo - valor)];
      TotalAfterUpdate(users, i, Record(users[i], "Saque", valor, now));
      users := users[i := Record(users[i], "Saque", valor, now)];
      r := DoneWith(users[i]);
    }

    /** POST /api/transferir: the reply carries the sender as it is after the transfer. */
    method Transfer(remetente: string, destinatario: string, valor: int, now: string) returns (r: Reply)
      modifies this
      ensures !TransferAccepted(old(users), remetente, destinatario, valor) ==>
        r == Refused("Erro na transferência") && users == old(users)
      ensures TransferAccepted(old(users), remetente, destinatario, valor) ==>
        var i := FindEmail(old(users), remetente).value;
        var j := FindEmail(old(users), destinatario).value;
        && users == TransferUsers(old(users), i, j, valor, now)
        && r == DoneWith(users[i])
      ensures TotalSaldo(users) == TotalSaldo(old(users))
      ensures Emails(users) == Emails(old(users))
    {
      var u1 := FindEmail(users, remetente);
      var u2 := FindEmail(users, destinatario);
      if u1.None? || u2.None? || users[u1.value].saldo < valor {
        return Refused("Erro na transferência");
      }
      assert TransferAccepted(users, remetente, destinatario, valor);
      MoveAndRecord(u1.value, u2.value, valor, now);
      r := DoneWith(users[u1.value]);
    }

    /**
     * The body of the transfer handler past its check. `u1` and `u2` are
     * references into the array, so each update lands on the array as the
     * previous one left it.
     */
    method MoveAndRecord(i: nat, j: nat, valor: int, now: string)
      requires i < |users| && j < |users|
      modifies this
      ensures users == TransferUsers(old(users), i, j, valor, now)
    {
      users := users[i := users[i].(saldo := users[i].saldo - valor)];
      users := users[j := users[j].(saldo := users[j].saldo + valor)];
      users := users[i := Record(users[i], "Envio Pix", -valor, now)];
      users := users[j := Record(users[j], "Recebido Pix", valor, now)];
    }
  }

  lemma SumAppendZero(xs: seq<int>)
    ensures Sum(xs + [0]) == Sum(xs)
  {
    if xs != [] {
      assert (xs + [0])[1..] == xs[1..] + [0];
      SumAppendZero(xs[1..]);
    }
  }

  /** A handler other than register leaves the e-mails as they were, so it keeps them distinct. */
  lemma SameEmailsKeepUnique(before: seq<User>, after: seq<User>)
    requires Emails(after) == Emails(before) && UniqueEmails(before)
    ensures UniqueEmails(after)
  {
    forall i, j | 0 <= i < j < |after| ensures after[i].email != after[j].email {
      assert Emails(after)[i] == before[i].email && Emails(after)[j] == before[j].email;
    }
  }

  /**
   * The statement a user reads after a deposit is the one before it with the
   * deposit at the end: entries are kept in the order they are recorded.
   */
  lemma ExtratoAfterRecord(users: seq<User>, i: nat, tipo: string, valor: int, data: string)
    requires i < |users| && UniqueEmails(users)
    ensures Extrato(users[i := Record(users[i], tipo, valor, data)], users[i].email)
         == Some(Entries(users[i]) + [Entry(tipo, valor, data)])
  {
    var after := users[i := Record(users[i], tipo, valor, data)];
    assert forall j :: 0 <= j < |after| ==> after[j].email == users[j].email;
    assert UniqueEmails(after);
    var f := FindEmail(after, users[i].email);
    assert f.Some?;
    assert f == Some(i);
  }
}
