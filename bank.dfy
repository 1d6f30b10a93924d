/**
 * The application's three stores, all keyed by the account's e-mail address:
 * `usuarios` (name, password, balance), `transacciones` (each account's list,
 * newest first) and `inversiones` (each account's portfolio), with one method
 * per request handler that reads or changes them: registration, login,
 * payment, income, investment and password change. Both deployments of the
 * program have the same handlers and differ only in their input checks, so the
 * store carries the `Policy` it validates with.
 */
module Bank {
  import opened Strings
  import opened Ledger
  import Validation
  import RegexValidation

  /** The input checks in use: the hand-written ones of `app.py` or the regular expressions of `app_flask/app.py`. */
  datatype Policy = HandWritten | Regex

  predicate EmailAccepted(policy: Policy, email: string) {
    match policy
    case HandWritten => Validation.ValidEmail(email)
    case Regex => RegexValidation.ValidEmail(email)
  }

  predicate PasswordAccepted(policy: Policy, password: string) {
    match policy
    case HandWritten => Validation.StrongPassword(password)
    case Regex => RegexValidation.ValidPassword(password)
  }

  /** `validar_password` of the policy in use; the hand-written one runs its loop. */
  method CheckPolicyPassword(policy: Policy, password: string) returns (ok: bool)
    ensures ok == PasswordAccepted(policy, password)
  {
    match policy {
      case HandWritten => ok := Validation.CheckPassword(password);
      case Regex => ok := RegexValidation.ValidPassword(password);
    }
  }

  /** The two policies disagree: the hand-written check accepts "user@.com", the regular expression does not. */
  lemma PoliciesDisagree()
    ensures EmailAccepted(HandWritten, "user@.com") && !EmailAccepted(Regex, "user@.com")
  {
    Validation.AcceptsDotRightAfterAt();
    RegexValidation.RejectsDotRightAfterAt();
  }

  /**
   * `email.strip().lower()`: the key an address is stored and looked up under.
   * It has no capitals and neither starts nor ends with whitespace, and it is
   * empty exactly when the raw address is blank.
   */
  function NormalizeEmail(raw: string): (e: string)
    ensures |e| <= |raw|
    ensures Lower(e) == e
    ensures e == "" <==> AllSpace(raw)
    ensures e != "" ==> !IsSpace(e[0]) && !IsSpace(e[|e| - 1])
  {
    LowerIdempotent(Strip(raw));
    Lower(Strip(raw))
  }

  /** Normalizing twice is normalizing once, so a stored key looks itself up. */
  lemma NormalizeEmailIdempotent(raw: string)
    ensures NormalizeEmail(NormalizeEmail(raw)) == NormalizeEmail(raw)
    ensures Lower(NormalizeEmail(raw)) == NormalizeEmail(raw)
  {
    var s := Strip(raw);
    var e := Lower(s);
    LowerIdempotent(s);
    StripTrimmed(e);
  }

  /** One entry of `usuarios`. */
  datatype Account = Account(nombre: string, password: string, saldo: real)

  /** How registration ends, in the order the checks are made. */
  datatype Registration = BadEmailFormat | WeakPassword | EmailTaken | Registered

  /** How a login attempt ends; on success, the key stored in the session. */
  datatype LoginResult = BadEmail | NoSuchAccount | WrongPassword | LoggedIn(usuario: string)

  /**
   * What `crear_cuenta` answers, checking in order the address, the password
   * and that the address is new: an address that fails the check is refused
   * whatever else holds; a weak password only with a good address; a taken
   * address only with both checks passed; and an account is created exactly
   * when both checks pass and the address is new.
   */
  function Register(policy: Policy, usuarios: map<string, Account>, email: string, password: string): (r: Registration)
    ensures r == BadEmailFormat <==> !EmailAccepted(policy, email)
    ensures r == WeakPassword <==> EmailAccepted(policy, email) && !PasswordAccepted(policy, password)
    ensures r == EmailTaken <==> EmailAccepted(policy, email) && PasswordAccepted(policy, password) && email in usuarios
    ensures r == Registered <==> EmailAccepted(policy, email) && PasswordAccepted(policy, password) && email !in usuarios
  {
    if !EmailAccepted(policy, email) then BadEmailFormat
    else if !PasswordAccepted(policy, password) then WeakPassword
    else if email in usuarios then EmailTaken
    else Registered
  }

  /**
   * What `login` answers, checking in order the address, that it names an
   * account, and the password: a login succeeds exactly for an accepted,
   * registered address with its own password, and then names that address.
   */
  function Authenticate(policy: Policy, usuarios: map<string, Account>, email: string, password: string): (r: LoginResult)
    ensures r == BadEmail <==> !EmailAccepted(policy, email)
    ensures r == NoSuchAccount <==> EmailAccepted(policy, email) && email !in usuarios
    ensures r == WrongPassword <==> EmailAccepted(policy, email) && email in usuarios && usuarios[email].password != password
    ensures r.LoggedIn? <==> EmailAccepted(policy, email) && email in usuarios && usuarios[email].password == password
    ensures r.LoggedIn? ==> r.usuario == email
  {
    if !EmailAccepted(policy, email) then BadEmail
    else if email !in usuarios then NoSuchAccount
    else if usuarios[email].password != password then WrongPassword
    else LoggedIn(email)
  }

  /**
   * An account just registered under an address logs in with the same raw
   * address and password; an account whose registration was refused for its
   * address or its password never existed and cannot log in unless the address
   * was already taken.
   */
  lemma RegisterThenAuthenticate(policy: Policy, usuarios: map<string, Account>, nombre: string, rawEmail: string, password: string)
    requires Register(policy, usuarios, NormalizeEmail(rawEmail), password) == Registered
    ensures var email := NormalizeEmail(rawEmail);
      Authenticate(policy, usuarios[email := Account(nombre, password, 0.0)], email, password) == LoggedIn(email)
  {
  }

  /** How a payment, income or investment request ends: no account under the session's key, or the ledger outcome. */
  datatype Reply = AccountMissing | Handled(outcome: Outcome)

  /** How a password change ends: nobody logged in, no account under the session's key, or done. */
  datatype PasswordChange = NotLoggedIn | NoSuchUser | Changed

  /** `transacciones.get(email, [])` */
  function ListOf(transacciones: map<string, seq<Transaction>>, email: string): seq<Transaction> {
    if email in transacciones then transacciones[email] else []
  }

  /** The portfolio the invest handler works on: the stored one, or four zero categories when there is none. */
  function PortfolioIn(inversiones: map<string, Portfolio>, email: string): Portfolio {
    if email in inversiones then inversiones[email] else NewPortfolio()
  }

  /** Everything the three stores hold about one account. */
  function WalletIn(usuarios: map<string, Account>, transacciones: map<string, seq<Transaction>>,
                    inversiones: map<string, Portfolio>, email: string): Wallet
    requires email in usuarios
  {
    Wallet(usuarios[email].saldo, ListOf(transacciones, email), PortfolioIn(inversiones, email))
  }

  /** `usuario["saldo"] -= monto` */
  function Debit(account: Account, monto: real): Account {
    account.(saldo := account.saldo - monto)
  }

  /** `usuario["saldo"] += monto` */
  function Credit(account: Account, monto: real): Account {
    account.(saldo := account.saldo + monto)
  }

  /** `inversiones[usuario][tipo] += monto`, for a category the portfolio has. */
  function AddToCategory(portfolio: Portfolio, tipo: string, monto: real): Portfolio
    requires tipo in portfolio
  {
    portfolio[tipo := portfolio[tipo] + monto]
  }

  /**
   * The invariant the handlers are meant to keep, for one key: an account's key
   * is lower-case and its balance is the net of its list; a list or a portfolio
   * belongs to an account; a portfolio has exactly the four categories.
   */
  ghost predicate Entry(usuarios: map<string, Account>, transacciones: map<string, seq<Transaction>>,
                        inversiones: map<string, Portfolio>, email: string)
  {
    (email in usuarios ==> Lower(email) == email && usuarios[email].saldo == Net(ListOf(transacciones, email))) &&
    (email in transacciones ==> email in usuarios) &&
    (email in inversiones ==> email in usuarios && IsPortfolio(inversiones[email]))
  }

  /** The invariant for every key. */
  ghost predicate Consistent(usuarios: map<string, Account>, transacciones: map<string, seq<Transaction>>,
                             inversiones: map<string, Portfolio>)
  {
    forall email :: Entry(usuarios, transacciones, inversiones, email)
  }

  /** Empty stores are consistent. */
  lemma EmptyConsistent()
    ensures Consistent(map[], map[], map[])
  {
  }

  /** Adding an account with balance 0 under a new lower-case key keeps the stores consistent. */
  lemma AddAccountKeepsConsistent(usuarios: map<string, Account>, transacciones: map<string, seq<Transaction>>,
                                  inversiones: map<string, Portfolio>, email: string, account: Account)
    requires Consistent(usuarios, transacciones, inversiones)
    requires email !in usuarios && Lower(email) == email && account.saldo == 0.0
    ensures Consistent(usuarios[email := account], transacciones, inversiones)
  {
    var usuarios' := usuarios[email := account];
    forall e ensures Entry(usuarios', transacciones, inversiones, e) {
      assert Entry(usuarios, transacciones, inversiones, e);
    }
  }

  /** Replacing an account's entry and its list keeps the stores consistent when the new balance is the net of the new list. */
  lemma RecordKeepsConsistent(usuarios: map<string, Account>, transacciones: map<string, seq<Transaction>>,
                              inversiones: map<string, Portfolio>, email: string, account: Account, ledger: seq<Transaction>)
    requires Consistent(usuarios, transacciones, inversiones)
    requires email in usuarios && account.saldo == Net(ledger)
    ensures Consistent(usuarios[email := account], transacciones[email := ledger], inversiones)
  {
    var usuarios', transacciones' := usuarios[email := account], transacciones[email := ledger];
    forall e ensures Entry(usuarios', transacciones', inversiones, e) {
      assert Entry(usuarios, transacciones, inversiones, e);
    }
  }

  /** The same, when the account's portfolio is replaced by one with the four categories as well. */
  lemma InvestKeepsConsistent(usuarios: map<string, Account>, transacciones: map<string, seq<Transaction>>,
                              inversiones: map<string, Portfolio>, email: string, account: Account,
                              ledger: seq<Transaction>, portfolio: Portfolio)
    requires Consistent(usuarios, transacciones, inversiones)
    requires email in usuarios && account.saldo == Net(ledger) && IsPortfolio(portfolio)
    ensures Consistent(usuarios[email := account], transacciones[email := ledger], inversiones[email := portfolio])
  {
    var usuarios', transacciones' := usuarios[email := account], transacciones[email := ledger];
    var inversiones' := inversiones[email := portfolio];
    forall e ensures Entry(usuarios', transacciones', inversiones', e) {
      assert Entry(usuarios, transacciones, inversiones, e);
    }
  }

  /** Changing anything of an account but its balance keeps the stores consistent. */
  lemma RenewKeepsConsistent(usuarios: map<string, Account>, transacciones: map<string, seq<Transaction>>,
                             inversiones: map<string, Portfolio>, email: string, account: Account)
    requires Consistent(usuarios, transacciones, inversiones)
    requires email in usuarios && account.saldo == usuarios[email].saldo
    ensures Consistent(usuarios[email := account], transacciones, inversiones)
  {
    var usuarios' := usuarios[email := account];
    forall e ensures Entry(usuarios', transacciones, inversiones, e) {
      assert Entry(usuarios, transacciones, inversiones, e);
    }
  }

  /**
   * The payment handler's change to the stores is `Step` on the paying
   * account's wallet, and every other account's wallet is as it was.
   */
  lemma PayIsStep(usuarios: map<string, Account>, transacciones: map<string, seq<Transaction>>,
                  inversiones: map<string, Portfolio>, email: string, descripcion: string, monto: real, fecha: string)
    requires email in usuarios
    ensures var step := Step(WalletIn(usuarios, transacciones, inversiones, email), Op.Pay(descripcion, monto, fecha));
      if monto > usuarios[email].saldo then step.0 == InsufficientFunds
      else
        var usuarios' := usuarios[email := Debit(usuarios[email], monto)];
        var transacciones' := transacciones[email := [Transaction(fecha, descripcion, -monto, Gasto)] + ListOf(transacciones, email)];
        step == (Done, WalletIn(usuarios', transacciones', inversiones, email)) &&
        forall other :: other in usuarios && other != email ==>
          WalletIn(usuarios', transacciones', inversiones, other) == WalletIn(usuarios, transacciones, inversiones, other)
  {
  }

  /** The income handler's change to the stores is `Step` on the account's wallet, and every other account's wallet is as it was. */
  lemma DepositIsStep(usuarios: map<string, Account>, transacciones: map<string, seq<Transaction>>,
                      inversiones: map<string, Portfolio>, email: string, fuente: string, monto: real, fecha: string)
    requires email in usuarios
    ensures var step := Step(WalletIn(usuarios, transacciones, inversiones, email), Op.Deposit(fuente, monto, fecha));
      var usuarios' := usuarios[email := Credit(usuarios[email], monto)];
      var transacciones' := transacciones[email := [Transaction(fecha, "Ingreso: " + fuente, monto, Ingreso)] + ListOf(transacciones, email)];
      step == (Done, WalletIn(usuarios', transacciones', inversiones, email)) &&
      forall other :: other in usuarios && other != email ==>
        WalletIn(usuarios', transacciones', inversiones, other) == WalletIn(usuarios, transacciones, inversiones, other)
  {
  }

  /**
   * The invest handler's change to the stores is `Step` on the account's
   * wallet, whether it succeeds or fails on an unknown category, and every
   * other account's wallet is as it was.
   */
  lemma InvestIsStep(usuarios: map<string, Account>, transacciones: map<string, seq<Transaction>>,
                     inversiones: map<string, Portfolio>, email: string, tipo: string, monto: real, fecha: string)
    requires email in usuarios
    ensures var step := Step(WalletIn(usuarios, transacciones, inversiones, email), Op.Invest(tipo, monto, fecha));
      var cartera := PortfolioIn(inversiones, email);
      var usuarios' := usuarios[email := Debit(usuarios[email], monto)];
      if monto > usuarios[email].saldo then step.0 == InsufficientFunds
      else if tipo !in cartera then
        step == (UnknownCategory, WalletIn(usuarios', transacciones, inversiones, email))
      else
        var transacciones' := transacciones[email := [Transaction(fecha, "Inversión en " + tipo, -monto, Gasto)] + ListOf(transacciones, email)];
        var inversiones' := inversiones[email := AddToCategory(cartera, tipo, monto)];
        step == (Done, WalletIn(usuarios', transacciones', inversiones', email)) &&
        forall other :: other in usuarios && other != email ==>
          WalletIn(usuarios', transacciones', inversiones', other) == WalletIn(usuarios, transacciones, inversiones, other)
  {
  }

  /**
   * In consistent stores, an account's balance is the net of its list, and the
   * portfolio the invest handler works on has the four categories.
   */
  lemma ConsistentAt(usuarios: map<string, Account>, transacciones: map<string, seq<Transaction>>,
                     inversiones: map<string, Portfolio>, email: string)
    requires Consistent(usuarios, transacciones, inversiones)
    ensures email in usuarios ==> usuarios[email].saldo == Net(ListOf(transacciones, email))
    ensures IsPortfolio(if email in inversiones then inversiones[email] else NewPortfolio())
  {
    assert Entry(usuarios, transacciones, inversiones, email);
  }

  class Bank {
    const policy: Policy
    var usuarios: map<string, Account>
    var transacciones: map<string, seq<Transaction>>
    var inversiones: map<string, Portfolio>

    /** The invariant of the stores, `Consistent`, on this object's maps. */
    ghost predicate Valid()
      reads this
    {
      Consistent(usuarios, transacciones, inversiones)
    }

    /** Empty stores. */
    constructor(policy: Policy)
      ensures this.policy == policy
      ensures usuarios == map[] && transacciones == map[] && inversiones == map[]
      ensures Valid()
    {
      this.policy := policy;
      usuarios := map[];
      transacciones := map[];
      inversiones := map[];
      EmptyConsistent();
    }

    /**
     * `crear_cuenta`: the normalized address must pass the e-mail check, then
     * the password the password check, then the address must be new; only then
     * is one account with balance 0 added, and nothing else changes.
     */
    method CreateAccount(nombre: string, rawEmail: string, password: string) returns (r: Registration)
      modifies this
      ensures r == Register(policy, old(usuarios), NormalizeEmail(rawEmail), password)
      ensures r == Registered ==> usuarios == old(usuarios)[NormalizeEmail(rawEmail) := Account(nombre, password, 0.0)]
      ensures r != Registered ==> usuarios == old(usuarios)
      ensures transacciones == old(transacciones) && inversiones == old(inversiones)
      ensures old(Valid()) ==> Valid()
    {
      var email := NormalizeEmail(rawEmail);
      if !EmailAccepted(policy, email) {
        return BadEmailFormat;
      }
      var strong := CheckPolicyPassword(policy, password);
      if !strong {
        return WeakPassword;
      }
      if email in usuarios {
        return EmailTaken;
      }
      if Valid() {
        AddAccountKeepsConsistent(usuarios, transacciones, inversiones, email, Account(nombre, password, 0.0));
      }
      usuarios := usuarios[email := Account(nombre, password, 0.0)];
      r := Registered;
    }

    /**
     * `login` (POST): the normalized address must pass the e-mail check, name an
     * account, and the password must be that account's; the stores are only read.
     */
    method Login(rawEmail: string, password: string) returns (r: LoginResult)
      ensures r == Authenticate(policy, usuarios, NormalizeEmail(rawEmail), password)
    {
      var email := NormalizeEmail(rawEmail);
      if !EmailAccepted(policy, email) {
        return BadEmail;
      }
      if email !in usuarios {
        return NoSuchAccount;
      }
      if usuarios[email].password != password {
        return WrongPassword;
      }
      r := LoggedIn(email);
    }

    /**
     * `pagar` (POST) for the account under `email`: refused when `monto` exceeds
     * the balance; otherwise the balance drops by `monto` and a "gasto" entry of
     * `-monto` goes in front of that account's list. Other accounts and all
     * portfolios are untouched.
     */
    method Pay(email: string, descripcion: string, monto: real, fecha: string) returns (r: Reply)
      modifies this
      ensures email !in old(usuarios) ==> r == AccountMissing && unchanged(this)
      ensures email in old(usuarios) && monto > old(usuarios)[email].saldo ==>
        r == Handled(InsufficientFunds) && unchanged(this)
      ensures email in old(usuarios) && monto <= old(usuarios)[email].saldo ==>
        r == Handled(Done) &&
        usuarios == old(usuarios)[email := Debit(old(usuarios)[email], monto)] &&
        transacciones == old(transacciones)[email := [Transaction(fecha, descripcion, -monto, Gasto)] + ListOf(old(transacciones), email)] &&
        inversiones == old(inversiones)
      ensures old(Valid()) ==> Valid()
    {
      if email !in usuarios {
        return AccountMissing;
      }
      var usuario := usuarios[email];
      if monto > usuario.saldo {
        return Handled(InsufficientFunds);
      }
      var actualizado := Debit(usuario, monto);
      var lista := [Transaction(fecha, descripcion, -monto, Gasto)] + ListOf(transacciones, email);
      assert lista[1..] == ListOf(transacciones, email);
      if Valid() {
        ConsistentAt(usuarios, transacciones, inversiones, email);
        RecordKeepsConsistent(usuarios, transacciones, inversiones, email, actualizado, lista);
      }
      usuarios := usuarios[email := actualizado];
      transacciones := transacciones[email := lista];
      r := Handled(Done);
    }

    /**
     * `ingreso` (POST) for the account under `email`: no guard; the balance
     * grows by `monto` and an "ingreso" entry of `+monto` described as
     * "Ingreso: " + source goes in front of that account's list.
     */
    method Deposit(email: string, fuente: string, monto: real, fecha: string) returns (r: Reply)
      modifies this
      ensures email !in old(usuarios) ==> r == AccountMissing && unchanged(this)
      ensures email in old(usuarios) ==>
        r == Handled(Done) &&
        usuarios == old(usuarios)[email := Credit(old(usuarios)[email], monto)] &&
        transacciones == old(transacciones)[email := [Transaction(fecha, "Ingreso: " + fuente, monto, Ingreso)] + ListOf(old(transacciones), email)] &&
        inversiones == old(inversiones)
      ensures old(Valid()) ==> Valid()
    {
      if email !in usuarios {
        return AccountMissing;
      }
      var usuario := usuarios[email];
      var actualizado := Credit(usuario, monto);
      var lista := [Transaction(fecha, "Ingreso: " + fuente, monto, Ingreso)] + ListOf(transacciones, email);
      assert lista[1..] == ListOf(transacciones, email);
      if Valid() {
        ConsistentAt(usuarios, transacciones, inversiones, email);
        RecordKeepsConsistent(usuarios, transacciones, inversiones, email, actualizado, lista);
      }
      usuarios := usuarios[email := actualizado];
      transacciones := transacciones[email := lista];
      r := Handled(Done);
    }

    /**
     * `inversiones` (POST) for the account under the lower-cased session key:
     * refused when `monto` exceeds the balance; otherwise the reduced balance is
     * stored at once, and then, if the portfolio (four zero categories when the
     * account has none yet) has the category, the category grows by `monto` and
     * a "gasto" entry of `-monto` goes in front of the list; if it does not,
     * the request fails there and nothing else is stored.
     */
    method Invest(session: string, tipo: string, monto: real, fecha: string) returns (r: Reply)
      modifies this
      ensures var u := Lower(session);
        u !in old(usuarios) ==> r == AccountMissing && unchanged(this)
      ensures var u := Lower(session);
        u in old(usuarios) && monto > old(usuarios)[u].saldo ==> r == Handled(InsufficientFunds) && unchanged(this)
      ensures var u := Lower(session);
        u in old(usuarios) && monto <= old(usuarios)[u].saldo ==>
        usuarios == old(usuarios)[u := Debit(old(usuarios)[u], monto)] &&
        if tipo in PortfolioIn(old(inversiones), u) then
          r == Handled(Done) &&
          inversiones == old(inversiones)[u := AddToCategory(PortfolioIn(old(inversiones), u), tipo, monto)] &&
          transacciones == old(transacciones)[u := [Transaction(fecha, "Inversión en " + tipo, -monto, Gasto)] + ListOf(old(transacciones), u)]
        else
          r == Handled(UnknownCategory) && transacciones == old(transacciones) && inversiones == old(inversiones)
      ensures old(Valid()) ==> (tipo in PortfolioIn(old(inversiones), Lower(session)) <==> tipo in Categories)
      ensures old(Valid()) && r != Handled(UnknownCategory) ==> Valid()
    {
      var u := Lower(session);
      var cartera := PortfolioIn(inversiones, u);
      if Valid() {
        ConsistentAt(usuarios, transacciones, inversiones, u);
      }
      if u !in usuarios {
        return AccountMissing;
      }
      var usuario := usuarios[u];
      if monto > usuario.saldo {
        return Handled(InsufficientFunds);
      }
      var actualizado := Debit(usuario, monto);
      usuarios := usuarios[u := actualizado];
      if tipo !in cartera {
        return Handled(UnknownCategory);
      }
      var nueva := AddToCategory(cartera, tipo, monto);
      var lista := [Transaction(fecha, "Inversión en " + tipo, -monto, Gasto)] + ListOf(transacciones, u);
      assert lista[1..] == ListOf(transacciones, u);
      if old(Valid()) {
        InvestKeepsConsistent(old(usuarios), transacciones, inversiones, u, actualizado, lista, nueva);
      }
      inversiones := inversiones[u := nueva];
      transacciones := transacciones[u := lista];
      r := Handled(Done);
    }

    /**
     * `cambiar_contra` (POST) for the session key: nothing when nobody is
     * logged in, a failure when the key names no account, and otherwise the
     * password is replaced by `nueva` as given, without the password check.
     */
    method ChangePassword(session: string, nueva: string) returns (r: PasswordChange)
      modifies this
      ensures session == "" ==> r == NotLoggedIn
      ensures session != "" && session !in old(usuarios) ==> r == NoSuchUser
      ensures r != Changed ==> unchanged(this)
      ensures r == Changed <==> session != "" && session in old(usuarios)
      ensures r == Changed ==> usuarios == old(usuarios)[session := old(usuarios)[session].(password := nueva)]
      ensures transacciones == old(transacciones) && inversiones == old(inversiones)
      ensures old(Valid()) ==> Valid()
    {
      if session == "" {
        return NotLoggedIn;
      }
      if session !in usuarios {
        return NoSuchUser;
      }
      if Valid() {
        RenewKeepsConsistent(usuarios, transacciones, inversiones, session, usuarios[session].(password := nueva));
      }
      usuarios := usuarios[session := usuarios[session].(password := nueva)];
      r := Changed;
    }
  }

  /**
   * Registering an address and then logging in with the same address and
   * password succeeds, under the normalized address, and finds a fresh account:
   * balance 0, no transactions, four empty categories.
   */
  method RegisterThenLogin(bank: Bank, nombre: string, rawEmail: string, password: string)
    returns (reg: Registration, login: LoginResult)
    requires bank.Valid()
    modifies bank
    ensures bank.Valid()
    ensures reg == Registered ==>
      login == LoggedIn(NormalizeEmail(rawEmail)) &&
      NormalizeEmail(rawEmail) in bank.usuarios && WalletIn(bank.usuarios, bank.transacciones, bank.inversiones, NormalizeEmail(rawEmail)) == FreshWallet()
  {
    ghost var email := NormalizeEmail(rawEmail);
    ghost var before := bank.usuarios;
    assert Entry(bank.usuarios, bank.transacciones, bank.inversiones, email);
    reg := bank.CreateAccount(nombre, rawEmail, password);
    login := bank.Login(rawEmail, password);
    if reg == Registered {
      RegisterThenAuthenticate(bank.policy, before, nombre, rawEmail, password);
    }
  }
}
