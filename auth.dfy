/**
 * The login and registration page: the CPF field, the duplicate test, the
 * credential lookup, the ordered checks of the sign-up form, the shape of a new
 * account and the search for an unused account number.
 */
module Auth {
  import opened Wrappers
  import opened Text
  import opened Cpf
  import opened Ledger

  /** `handleCPFChange`: the field takes the masked input only while it fits in fourteen characters. */
  function CpfFieldChange(current: string, input: string): (r: string)
    ensures |OnlyDigits(input)| <= 11 ==> r == FormatCpf(input)
    ensures |OnlyDigits(input)| > 11 ==> r == current
    ensures |current| <= 14 ==> |r| <= 14
  {
    FormatCpfLength(input);
    var formatted := FormatCpf(input);
    if |formatted| <= 14 then formatted else current
  }

  /** Starting from an empty field, the field never holds more than a full mask. */
  lemma CpfFieldStaysShort(inputs: seq<string>)
    ensures |FieldAfter("", inputs)| <= 14
  {
    FieldAfterBound("", inputs);
  }

  /** The field after typing each of `inputs` in turn. */
  function FieldAfter(current: string, inputs: seq<string>): string
    decreases |inputs|
  {
    if inputs == [] then current else FieldAfter(CpfFieldChange(current, inputs[0]), inputs[1..])
  }

  lemma {:induction false} FieldAfterBound(current: string, inputs: seq<string>)
    requires |current| <= 14
    ensures |FieldAfter(current, inputs)| <= 14
    decreases |inputs|
  {
    if inputs != [] {
      FieldAfterBound(CpfFieldChange(current, inputs[0]), inputs[1..]);
    }
  }

  /** `cpfExists`: some stored account has the same CPF digits. */
  function CpfExists(accounts: seq<StoredAccount>, cpf: string): (b: bool)
    ensures b <==> exists i :: 0 <= i < |accounts| && OnlyDigits(accounts[i].cpf) == OnlyDigits(cpf)
  {
    FindByCpf(accounts, OnlyDigits(cpf)).Some?
  }

  /** The stored account matches the CPF digits and the password, exactly as typed. */
  predicate Credentials(a: StoredAccount, digits: string, password: string) {
    OnlyDigits(a.cpf) == digits && a.password == password
  }

  /** The `find` of `handleLogin`, as an index: the first account matching both. */
  function FindCredentials(accounts: seq<StoredAccount>, digits: string, password: string): (r: Option<nat>)
    ensures r.Some? ==> r.value < |accounts| && Credentials(accounts[r.value], digits, password)
    ensures r.Some? ==> forall j :: 0 <= j < r.value ==> !Credentials(accounts[j], digits, password)
    ensures r.None? <==> forall j :: 0 <= j < |accounts| ==> !Credentials(accounts[j], digits, password)
  {
    if accounts == [] then None
    else if Credentials(accounts[0], digits, password) then Some(0)
    else match FindCredentials(accounts[1..], digits, password)
      case None => None
      case Some(i) => Some(i + 1)
  }

  /** The session record built from a stored account. */
  function SessionOf(a: StoredAccount): (u: SessionUser)
    ensures u.name == a.name && u.cpf == a.cpf && u.balance == a.balance
    ensures u.accountNumber == a.accountNumber && u.agency == a.agency && u.password == a.password
  {
    SessionUser(a.name, a.cpf, a.balance, a.accountNumber, a.agency, a.password)
  }

  datatype LoginResult = CpfRejected | CredentialsRejected | LoggedIn(user: SessionUser)

  /** The decision `handleLogin` makes. */
  function Login(accounts: seq<StoredAccount>, cpf: string, password: string): LoginResult {
    if !ValidCpf(cpf) then CpfRejected
    else match FindCredentials(accounts, OnlyDigits(cpf), password)
      case None => CredentialsRejected
      case Some(i) => LoggedIn(SessionOf(accounts[i]))
  }

  /**
   * `handleLogin` against the account store, without the delay and the session
   * write. It runs the looping validator `IsValidCpf` and reads the store, and its
   * contract shows that this path decides exactly as `Login`.
   */
  method HandleLogin(store: AccountStore, cpf: string, password: string) returns (r: LoginResult)
    ensures r == Login(store.accounts, cpf, password)
  {
    var valid := IsValidCpf(cpf);
    if !valid {
      return CpfRejected;
    }
    var accounts := store.List();
    var account := FindCredentials(accounts, OnlyDigits(cpf), password);
    if account.None? {
      return CredentialsRejected;
    }
    r := LoggedIn(SessionOf(accounts[account.value]));
  }

  /**
   * Login succeeds exactly when the CPF is valid and an account carries both its
   * digits and the password; the session then copies that account.
   */
  lemma LoginSpec(accounts: seq<StoredAccount>, cpf: string, password: string)
    ensures Login(accounts, cpf, password) == CpfRejected <==> !ValidCpf(cpf)
    ensures Login(accounts, cpf, password).LoggedIn?
        <==> ValidCpf(cpf) && exists i :: 0 <= i < |accounts| && Credentials(accounts[i], OnlyDigits(cpf), password)
    ensures Login(accounts, cpf, password).LoggedIn? ==>
      exists i :: 0 <= i < |accounts| && Credentials(accounts[i], OnlyDigits(cpf), password)
        && Login(accounts, cpf, password).user == SessionOf(accounts[i])
  {
    var r := FindCredentials(accounts, OnlyDigits(cpf), password);
    if ValidCpf(cpf) && r.Some? {
      assert Credentials(accounts[r.value], OnlyDigits(cpf), password);
    }
  }

  /** Balance in cents of every new account: R$ 5.000,00. */
  const InitialBalanceCents: int := 5000 * 100

  const DefaultAgency: string := "0001"

  /** `accounts.some(acc => acc.accountNumber === n)`. */
  predicate NumberTaken(accounts: seq<StoredAccount>, n: string) {
    exists i :: 0 <= i < |accounts| && accounts[i].accountNumber == n
  }

  /** `Math.floor(100000 + Math.random() * 900000).toString()` for a draw of `Math.random() * 900000` rounded down. */
  function CandidateNumber(draw: nat): (n: string)
    requires draw < 900000
    ensures |n| == 6 && AllDigits(n) && 100000 <= DigitsValue(n) <= 999999
  {
    DecimalStringRoundTrip(100000 + draw);
    SixDigitDecimal(100000 + draw);
    DecimalString(100000 + draw)
  }

  predicate ValidDraws(draws: seq<nat>) {
    forall k :: 0 <= k < |draws| ==> draws[k] < 900000
  }

  /** Some draw yields an unused number; otherwise the retry loop never stops. */
  predicate SomeDrawFree(accounts: seq<StoredAccount>, draws: seq<nat>)
    requires ValidDraws(draws)
  {
    exists k :: 0 <= k < |draws| && !NumberTaken(accounts, CandidateNumber(draws[k]))
  }

  /** The number of the first draw whose number is free. */
  function FirstFreeDraw(accounts: seq<StoredAccount>, draws: seq<nat>): (k: nat)
    requires ValidDraws(draws) && SomeDrawFree(accounts, draws)
    ensures k < |draws| && !NumberTaken(accounts, CandidateNumber(draws[k]))
    ensures forall j :: 0 <= j < k ==> NumberTaken(accounts, CandidateNumber(draws[j]))
  {
    if !NumberTaken(accounts, CandidateNumber(draws[0])) then 0
    else
      assert SomeDrawFree(accounts, draws[1..]) by {
        var k :| 0 <= k < |draws| && !NumberTaken(accounts, CandidateNumber(draws[k]));
        assert draws[1..][k - 1] == draws[k];
      }
      1 + FirstFreeDraw(accounts, draws[1..])
  }

  /**
   * `generateAccountNumber`: draws until the number is unused, so it returns the
   * number of the first free draw, a six-digit number between 100000 and 999999
   * that no stored account has.
   */
  method GenerateAccountNumber(accounts: seq<StoredAccount>, draws: seq<nat>) returns (n: string)
    requires ValidDraws(draws) && SomeDrawFree(accounts, draws)
    ensures n == CandidateNumber(draws[FirstFreeDraw(accounts, draws)])
    ensures !NumberTaken(accounts, n)
    ensures |n| == 6 && 100000 <= DigitsValue(n) <= 999999
  {
    var k := 0;
    n := CandidateNumber(draws[0]);
    while NumberTaken(accounts, n)
      invariant 0 <= k <= FirstFreeDraw(accounts, draws)
      invariant n == CandidateNumber(draws[k])
      decreases FirstFreeDraw(accounts, draws) - k
    {
      k := k + 1;
      n := CandidateNumber(draws[k]);
    }
  }

  /** The reasons `handleCreateAccount` refuses, in the order it checks them. */
  datatype RegistrationError =
    | NameRequired      // "Nome é obrigatório"
    | CpfInvalid        // "CPF inválido"
    | CpfTaken          // "CPF já cadastrado"
    | PasswordTooShort  // "Senha deve ter pelo menos 6 caracteres"
    | PasswordMismatch  // "Senhas não coincidem"

  /** The first check of the sign-up form that fails. */
  function RegistrationCheck(accounts: seq<StoredAccount>, name: string, cpf: string,
                             password: string, confirm: string): Option<RegistrationError>
  {
    if Trim(name) == [] then Some(NameRequired)
    else if !ValidCpf(cpf) then Some(CpfInvalid)
    else if CpfExists(accounts, cpf) then Some(CpfTaken)
    else if |password| < 6 then Some(PasswordTooShort)
    else if password != confirm then Some(PasswordMismatch)
    else None
  }

  /** The fixed shape of a new account: trimmed name, the CPF as typed, R$ 5.000, agency "0001". */
  function NewAccount(name: string, cpf: string, password: string, accountNumber: string, createdAt: string): (a: StoredAccount)
    ensures a.name == Trim(name) && a.cpf == cpf && a.password == password
    ensures a.balance == InitialBalanceCents && a.agency == "0001"
    ensures a.accountNumber == accountNumber && a.createdAt == createdAt
  {
    StoredAccount(cpf, password, Trim(name), InitialBalanceCents, accountNumber, DefaultAgency, createdAt)
  }

  /**
   * The draws `generateAccountNumber` would consume: only an accepted form
   * draws, and then some draw must give an unused number.
   */
  predicate DrawsSuffice(accounts: seq<StoredAccount>, name: string, cpf: string, password: string, confirm: string,
                         draws: seq<nat>) {
    ValidDraws(draws) && (RegistrationCheck(accounts, name, cpf, password, confirm) == None ==> SomeDrawFree(accounts, draws))
  }

  datatype RegistrationOutcome = Refused(error: RegistrationError) | Registered(user: SessionUser)

  datatype RegistrationState = RegistrationState(outcome: RegistrationOutcome, accounts: seq<StoredAccount>)

  /** What one submission of the sign-up form does to the account store. */
  function Registration(accounts: seq<StoredAccount>, name: string, cpf: string, password: string, confirm: string,
                        draws: seq<nat>, createdAt: string): RegistrationState
    requires DrawsSuffice(accounts, name, cpf, password, confirm, draws)
  {
    match RegistrationCheck(accounts, name, cpf, password, confirm)
    case Some(e) => RegistrationState(Refused(e), accounts)
    case None =>
      var a := NewAccount(name, cpf, password, CandidateNumber(draws[FirstFreeDraw(accounts, draws)]), createdAt);
      RegistrationState(Registered(SessionOf(a)), accounts + [a])
  }

  /** `handleCreateAccount`, without the delay and the session write. */
  method CreateAccount(store: AccountStore, name: string, cpf: string, password: string, confirm: string,
                       draws: seq<nat>, createdAt: string) returns (r: RegistrationOutcome)
    requires DrawsSuffice(store.accounts, name, cpf, password, confirm, draws)
    modifies store
    ensures RegistrationState(r, store.accounts)
         == Registration(old(store.accounts), name, cpf, password, confirm, draws, createdAt)
  {
    if Trim(name) == [] {
      return Refused(NameRequired);
    }
    var valid := IsValidCpf(cpf);
    if !valid {
      return Refused(CpfInvalid);
    }
    var accounts := store.List();
    if FindByCpf(accounts, OnlyDigits(cpf)).Some? {
      return Refused(CpfTaken);
    }
    if |password| < 6 {
      return Refused(PasswordTooShort);
    }
    if password != confirm {
      return Refused(PasswordMismatch);
    }
    var accountNumber := GenerateAccountNumber(accounts, draws);
    var newAccount := NewAccount(name, cpf, password, accountNumber, createdAt);
    store.Append(newAccount);
    r := Registered(SessionOf(newAccount));
  }

  /**
   * The refusals, in order, and that a refused form saves nothing; an accepted
   * one appends exactly one account.
   */
  lemma RegistrationRejections(accounts: seq<StoredAccount>, name: string, cpf: string, password: string, confirm: string,
                               draws: seq<nat>, createdAt: string)
    requires DrawsSuffice(accounts, name, cpf, password, confirm, draws)
    ensures var r := Registration(accounts, name, cpf, password, confirm, draws, createdAt);
      && (r.outcome.Refused? ==> r.accounts == accounts)
      && (r.outcome.Registered? ==> |r.accounts| == |accounts| + 1 && r.accounts[..|accounts|] == accounts)
      && (IsBlank(name) ==> r.outcome == Refused(NameRequired))
      && (!IsBlank(name) && !ValidCpf(cpf) ==> r.outcome == Refused(CpfInvalid))
      && (!IsBlank(name) && ValidCpf(cpf) && CpfExists(accounts, cpf) ==> r.outcome == Refused(CpfTaken))
      && (!IsBlank(name) && ValidCpf(cpf) && !CpfExists(accounts, cpf) && |password| < 6 ==>
            r.outcome == Refused(PasswordTooShort))
      && (!IsBlank(name) && ValidCpf(cpf) && !CpfExists(accounts, cpf) && |password| >= 6 && password != confirm ==>
            r.outcome == Refused(PasswordMismatch))
      && (r.outcome.Registered? <==>
            !IsBlank(name) && ValidCpf(cpf) && !CpfExists(accounts, cpf) && |password| >= 6 && password == confirm)
  {
  }

  /**
   * An accepted form stores the account with the fixed shape and a fresh
   * account number, and the session copies it.
   */
  lemma RegisteredAccountShape(accounts: seq<StoredAccount>, name: string, cpf: string, password: string, confirm: string,
                               draws: seq<nat>, createdAt: string)
    requires DrawsSuffice(accounts, name, cpf, password, confirm, draws)
    requires Registration(accounts, name, cpf, password, confirm, draws, createdAt).outcome.Registered?
    ensures var r := Registration(accounts, name, cpf, password, confirm, draws, createdAt);
      var a := r.accounts[|accounts|];
      && a.name == Trim(name) && a.cpf == cpf && a.password == password
      && a.balance == InitialBalanceCents && a.agency == "0001" && a.createdAt == createdAt
      && |a.accountNumber| == 6 && 100000 <= DigitsValue(a.accountNumber) <= 999999
      && !NumberTaken(accounts, a.accountNumber)
      && r.outcome.user == SessionOf(a)
  {
  }

  /** No two accounts share a number. */
  predicate UniqueNumbers(accounts: seq<StoredAccount>) {
    forall i, j :: 0 <= i < j < |accounts| ==> accounts[i].accountNumber != accounts[j].accountNumber
  }

  /** Registration keeps CPF digits and account numbers pairwise distinct across the store. */
  lemma RegistrationKeepsStoreUnique(accounts: seq<StoredAccount>, name: string, cpf: string, password: string, confirm: string,
                                     draws: seq<nat>, createdAt: string)
    requires DrawsSuffice(accounts, name, cpf, password, confirm, draws)
    requires UniqueCpfs(accounts) && UniqueNumbers(accounts)
    ensures var r := Registration(accounts, name, cpf, password, confirm, draws, createdAt);
      UniqueCpfs(r.accounts) && UniqueNumbers(r.accounts)
  {
    var r := Registration(accounts, name, cpf, password, confirm, draws, createdAt);
    if r.outcome.Registered? {
      var a := r.accounts[|accounts|];
      assert forall i :: 0 <= i < |accounts| ==> r.accounts[i] == accounts[i];
      assert forall i :: 0 <= i < |accounts| ==> OnlyDigits(accounts[i].cpf) != OnlyDigits(a.cpf);
      assert forall i :: 0 <= i < |accounts| ==> accounts[i].accountNumber != a.accountNumber;
    }
  }

  /** Right after signing up, logging in with the same CPF and password opens the session just created. */
  lemma LoginAfterRegistration(accounts: seq<StoredAccount>, name: string, cpf: string, password: string, confirm: string,
                               draws: seq<nat>, createdAt: string)
    requires DrawsSuffice(accounts, name, cpf, password, confirm, draws)
    requires Registration(accounts, name, cpf, password, confirm, draws, createdAt).outcome.Registered?
    ensures var r := Registration(accounts, name, cpf, password, confirm, draws, createdAt);
      Login(r.accounts, cpf, password) == LoggedIn(r.outcome.user)
  {
    var r := Registration(accounts, name, cpf, password, confirm, draws, createdAt);
    var f := FindCredentials(r.accounts, OnlyDigits(cpf), password);
    assert Credentials(r.accounts[|accounts|], OnlyDigits(cpf), password);
    assert forall j :: 0 <= j < |accounts| ==> !Credentials(r.accounts[j], OnlyDigits(cpf), password) by {
      forall j | 0 <= j < |accounts| ensures !Credentials(r.accounts[j], OnlyDigits(cpf), password) {
        assert r.accounts[j] == accounts[j];
      }
    }
    assert f == Some(|accounts|);
  }
}
