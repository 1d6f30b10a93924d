# Personal-finance web application: ledger, validators and helpers in Dafny

The application keeps three stores, each keyed by an account's e-mail address:
- `usuarios`: name, password and balance (`saldo`);
- `transacciones`: each account's transactions, newest first;
- `inversiones`: each account's portfolio over four fixed categories.

Its request handlers register, log in, pay, record income, invest and change a
password. The program exists in two copies: `app.py` and `app_flask/app.py`.
Their handlers are the same. They differ in how they validate e-mail addresses
and passwords:
- `app.py` uses hand-written checks;
- `app_flask/app.py` uses regular expressions.

The Flask copy also holds a few small list and set helpers.

This project models:
- **`Ledger`** (`ledger.dfy`): one account as a value (`Wallet`), and what a
  payment, an income and an investment do to it (`Step`, `Run`). It proves:
  - the balance stays equal to the net of the transaction list, except after an
    investment in a category the portfolio lacks, which subtracts the amount
    from the balance and records nothing (app.py:329-333);
  - the balance guard leaves the account as it was;
  - payments and investments keep the balance non-negative;
  - an investment moves money into a category without creating or losing it.
- **`Bank`** (`bank.dfy`): class `Bank` with the three stores as `map` fields.
  - It has one method per handler: `CreateAccount`, `Login`, `Pay`, `Deposit`,
    `Invest` and `ChangePassword`.
  - A `Policy` constant chooses which validator pair the handlers use.
  - Each state-changing method states the new value of every store.
  - Each method keeps the invariant `Consistent` (via `Valid()`), except that
    `Invest` keeps it only when the category exists: a failed investment leaves
    the balance off the net of the list by the amount.
  - The lemmas `PayIsStep`, `DepositIsStep` and `InvestIsStep` show that each
    handler's map update is `Ledger.Step` on the account it touches. They also
    show that every other account is left as it was, except after an investment
    in an unknown category, for which no such frame is stated.
- **`Validation`** (`validation.dfy`): the hand-written checks of `app.py`.
- **`RegexValidation`** (`regex_validation.dfy`): the two regular expressions
  of `app_flask/app.py`. Each is given twice: as a ghost predicate that follows
  the pattern piece by piece, and as the deterministic check the program runs.
  The two are proved equal.
- **`Utilities`** (`utilities.dfy`): `procesar_transacciones_numeros`,
  `categorias_unicas`, `matriz_historial` and `interes_compuesto_recursivo`.
- **`Strings`** and **`Wrappers`**: the `str` operations the code uses (`in`,
  `index`, `strip`, `lower`, `isupper`, `isspace`) on ASCII text, and `Option`.

How the model reads the program:
- Amounts are exact `real` numbers.
- The logged-in user, the form fields and the timestamp (`fecha`) are method
  parameters.
- A handler that would raise `KeyError` on a missing account is modelled as
  returning `AccountMissing` (or `NoSuchUser`) and changing nothing.
- Registration and login are specified by the pure functions `Register` and
  `Authenticate`. Each method ensures its answer equals that function.

## Model

| member | source | states |
|---|---|---|
| `Strings.IndexOf` | app.py:60-63 | None exactly when the character is absent; otherwise the index of its first occurrence |
| `Strings.Strip` | app_flask/app.py:94-96 | Empty exactly when the text is all whitespace; otherwise the slice between the leading and trailing whitespace, starting and ending with a non-space |
| `Strings.Lower` | app.py:160 | Same length; each character is lower-cased (A-Z shifted by 32) and every other character is kept |
| `Strings.LowerIdempotent` | app.py:160 | Lower-casing twice is lower-casing once |
| `Validation.ValidEmail` | app.py:58-74 | True iff the first '@' is not at index 0 and a '.' occurs at or after it; nothing else is checked |
| `Validation.StrongPassword` | app.py:77-89 | Definition: the password has some A-Z character and some character of "!@#$%&*?."; the answer `CheckPassword` is proved to give |
| `Validation.CheckPassword` | app.py:77-89 | The loop answers true iff some character is upper-case and some character is in "!@#$%&*?."; the flags are only ever set |
| `Validation.AcceptsDotRightAfterAt` | app.py:58-74 | "user@.com" is accepted by this check |
| `Validation.AcceptsPlainAddress` | app.py:58-74 | "user@x.co" is accepted |
| `Validation.RejectsMissingDomain` | app.py:70-72 | "user@" is rejected: no '.' after the '@' |
| `Validation.RejectsEmptyLocalPart` | app.py:65-68 | "@x.com" is rejected: the '@' is first |
| `RegexValidation.Chomp` | app_flask/app.py:159 | `$` matches at the end or before one final newline: the result is the text without that newline, and that is a valid end position |
| `RegexValidation.EmailPattern` | app_flask/app.py:159 | Definition: the pattern `^[\w\.-]+@[\w\.-]+\.\w{2,}$` matches, read piece by piece, with `$` at the end or before a final newline |
| `RegexValidation.ValidEmail` | app_flask/app.py:157-160 | Definition: the deterministic check, the first '@' splitting a `[\w.-]` local part from a domain checked by its last non-word character; its meaning is `ValidEmailMatchesPattern` |
| `RegexValidation.LastNonWord` | app_flask/app.py:159 | None iff the text is all `\w`; otherwise a non-word character with only word characters after it |
| `RegexValidation.DomainOkIsPattern` | app_flask/app.py:159 | The deterministic domain check equals `[\w.-]+\.\w{2,}` (some dot with a non-empty `[\w.-]` run before it and at least two word characters after) |
| `RegexValidation.AddressOkSound` | app_flask/app.py:159 | An address the check accepts matches `[\w.-]+@[\w.-]+\.\w{2,}` |
| `RegexValidation.AddressOkComplete` | app_flask/app.py:159 | Every address matching the pattern is accepted (the local part has no '@', so the first '@' is the separator) |
| `RegexValidation.AddressOkIsPattern` | app_flask/app.py:159 | Both directions together |
| `RegexValidation.AddressEndsWithWordChar` | app_flask/app.py:159 | A matching address ends with a word character, so a final newline is never part of a match |
| `RegexValidation.ValidEmailMatchesPattern` | app_flask/app.py:157-160 | `validar_email` is true iff `re.match` of the whole pattern, `^` and `$` included, succeeds |
| `RegexValidation.AcceptsWellFormedAddress` | app_flask/app.py:157-160 | Every local@host.tld with non-empty `[\w.-]` local part and host and a word-character TLD of length ≥ 2 is accepted |
| `RegexValidation.AcceptsPlainAddress` | app_flask/test_app.py:30 | "user@example.com" is accepted |
| `RegexValidation.AcceptsUnderscoreAndSubdomain` | app_flask/test_app.py:32 | "test_user@domain.co.uk" is accepted |
| `RegexValidation.AcceptsDottedLocalPart` | app_flask/test_app.py:31 | "juan.perez@gmail.com" is accepted |
| `RegexValidation.RejectsAddressWithoutAt` | app_flask/test_app.py:36 | "bad-email" is rejected |
| `RegexValidation.RejectsEmptyDomain` | app_flask/test_app.py:37 | "user@" is rejected |
| `RegexValidation.RejectsEmptyLocalPart` | app_flask/test_app.py:38 | "@example.com" is rejected |
| `RegexValidation.RejectsDotRightAfterAt` | app_flask/test_app.py:39 | "user@.com" is rejected |
| `RegexValidation.ValidPassword` | app_flask/app.py:163-166 | For newline-free text: true iff length ≥ 6, some A-Z and some digit |
| `RegexValidation.ValidPasswordMatchesPattern` | app_flask/app.py:163-166 | Equals the literal semantics of `^(?=.*[A-Z])(?=.*\d).{6,}$`: lookaheads that stop at a newline, and `.{6,}` ending at the end or before a final newline |
| `RegexValidation.PasswordPattern` | app_flask/app.py:165 | Definition: `^(?=.*[A-Z])(?=.*\d).{6,}$` matches: an A-Z and a digit each reachable without crossing a newline, and six or more non-newline characters up to the end or a final newline |
| `RegexValidation.AcceptsPasswordExamples` | app_flask/test_app.py:41-45 | "Password1", "Secure123" and "MyPass9" are accepted |
| `RegexValidation.RejectsPasswordExamples` | app_flask/test_app.py:47-52 | "password123" (no capital), "PASSWORD" (no digit), "Pass1" (five characters) and "pass" are rejected |
| `Utilities.Positives` | app_flask/app.py:70 | Only positive elements; each value occurs exactly as often as it does in the input if positive, never otherwise |
| `Utilities.PositivesAppend` | app_flask/app.py:70 | The filter keeps input order: it distributes over concatenation |
| `Utilities.Taxed` | app_flask/app.py:71 | Same length; element i is input i times 1.1 |
| `Utilities.Total` | app_flask/app.py:72 | Definition: `reduce(lambda a, b: a + b, xs, 0)`, a fold from the left starting at 0 |
| `Utilities.TotalOfTaxed` | app_flask/app.py:71-72 | Summing the surcharged amounts gives 1.1 times the sum of the amounts |
| `Utilities.ProcessNumbers` | app_flask/app.py:68-73 | Positives in order; surcharged list of the same length, element by element; total = 1.1 × sum; empty input gives ([], [], 0) |
| `Utilities.ProcessNumbersExample` | app_flask/test_app.py:58-70 | [100, -50, 200, -30] gives ([100, 200], [110, 220], 330) |
| `Utilities.FirstWord` | app_flask/app.py:98 | A prefix without whitespace that ends at whitespace or at the end of the text |
| `Utilities.Category` | app_flask/app.py:93-99 | Definition of one loop iteration of `categorias_unicas`: no category for a missing, null or blank description; otherwise the first word of the stripped description, lower-cased; its meaning is `CategoryIsFirstWord` |
| `Utilities.CategoryIsFirstWord` | app_flask/app.py:94-98 | No category iff the description is missing, null or all whitespace; otherwise a non-empty lower-case word: the first whitespace-delimited word of the description, lower-cased |
| `Utilities.BlankDescriptionHasNoCategory` | app_flask/app.py:94-97 | Missing, null and empty descriptions contribute nothing |
| `Utilities.FirstWordIs` | app_flask/app.py:98 | The first word is exactly the whitespace-free prefix that is followed by whitespace or the end |
| `Utilities.CategoryOfWords` | app_flask/app.py:94-99 | A description made of a word and a rest that starts with whitespace and does not end with it has that word, lower-cased, as its category |
| `Utilities.UniqueCategories` | app_flask/app.py:90-100 | The loop's set holds exactly the categories of the transactions that have one |
| `Utilities.CategoryComidaAlmuerzo` | app_flask/test_app.py:125 | "Comida almuerzo" has category "comida" |
| `Utilities.CategoryComidaCena` | app_flask/test_app.py:126 | "Comida cena" has category "comida" |
| `Utilities.CategorySueldoMensual` | app_flask/test_app.py:127 | "Sueldo mensual" has category "sueldo" |
| `Utilities.CategoryTransporteColectivo` | app_flask/test_app.py:128 | "Transporte colectivo" has category "transporte" |
| `Utilities.UniqueCategoriesExample` | app_flask/test_app.py:122-139 | Run on the four test transactions, the loop's set contains "comida", "sueldo" and "transporte" |
| `Utilities.UniqueCategoriesOfBlanks` | app_flask/test_app.py:144-155 | An empty, a null and a missing description give the empty set |
| `Utilities.GetOr` | app_flask/app.py:125 | The default replaces only a missing key; a null stays null |
| `Utilities.HistoryMatrix` | app_flask/app.py:123-125 | Same length; row i is [descripcion_i, monto_i], with '' and 0 only for missing keys |
| `Utilities.HistoryMatrixExamples` | app_flask/test_app.py:187-212 | The three test transactions give the rows ["Gasto 1", -50], ["Ingreso 1", 100], ["Gasto 2", -30] in order; no transactions give no rows |
| `Utilities.CompoundInterest` | app_flask/app.py:105-108 | Capital unchanged when years ≤ 0; terminates because years decreases |
| `Utilities.CompoundInterestIsPower` | app_flask/app.py:105-108 | For n ≥ 0 years the result is capital × (1 + rate)^n |
| `Utilities.CompoundInterestGrows` | app_flask/app.py:105-108 | With non-negative capital and rate the result is at least the capital |
| `Utilities.CompoundInterestExamples` | app_flask/test_app.py:161-181 | 100 at 10% for 2 years is 121; 0 and -1 years give 100 |
| `Ledger.Step` | app.py:208-227 | One request on one account (pagar, ingreso and the inversiones POST, with app.py:249-261 and 319-341): a completed request puts exactly one entry in front of the list, of -monto "gasto" for pay and invest and +monto "ingreso" for income, and the balance changes by that entry's amount; any other outcome records nothing and keeps the portfolio; no request adds or removes a category |
| `Ledger.Run` | app.py:193-344 | A sequence of requests on one account, each seeing the previous result; the portfolio keeps its categories |
| `Ledger.RunKeepsHistory` | app.py:220-227 | No sequence of requests edits or drops an earlier transaction: new entries are only ever inserted at position 0 (also app.py:254-261 and 334-341) |
| `Ledger.StepExtends` | app.py:220-227 | One request leaves the earlier transactions as the tail of the list |
| `Ledger.Net` | app.py:218-227 | Definition: the sum of the signed amounts of a transaction list |
| `Ledger.Balanced` | app.py:218-227 | Definition: the balance equals the net of the account's list, the invariant the handlers' paired updates of `saldo` and `transacciones` are meant to keep |
| `Ledger.NewPortfolio` | app.py:302-308 | A missing portfolio starts with exactly the four categories, each at 0 (twin: app_flask/app.py:379-385) |
| `Ledger.StepGuard` | app.py:208-214 | Pay and invest are refused exactly when monto > saldo, and a refused request changes nothing (invest guard app.py:319-325; twins app_flask/app.py:285 and 396) |
| `Ledger.StepKeepsBalance` | app.py:218-227 | Every request except an investment in an unknown category keeps saldo = net of the transactions (also app.py:252-261 and 329-341) |
| `Ledger.FailedInvestmentUnbalances` | app.py:329-333 | An investment in an unknown category reduces saldo, records nothing and breaks the balance whenever monto ≠ 0 |
| `Ledger.StepKeepsSolvent` | app.py:208-219 | Pay and invest keep saldo ≥ 0 for any sign of monto; so does income with monto ≥ 0 |
| `Ledger.NegativeDepositOverdraws` | app.py:249-253 | Income has no guard: a negative amount takes a fresh account below zero |
| `Ledger.InvestmentConservesWealth` | app.py:329-341 | A successful investment in one of the four categories keeps saldo + invested total, grows that category by monto and leaves the others as they were |
| `Ledger.RunKeepsBalance` | app.py:218-261 | Any sequence of requests keeps the balance invariant, provided every investment names a category the portfolio has |
| `Ledger.FreshAccountStaysBalanced` | app.py:180-184 | From a new account (saldo 0, no transactions), saldo equals the sum of all recorded amounts after any sequence of payments, incomes and investments in the four categories |
| `Ledger.RunKeepsSolvent` | app.py:208-219 | With no negative incomes, saldo ≥ 0 is kept across any sequence of requests |
| `Ledger.WorkedExample` | app.py:245-262 | Income 1000, payment 400, refused payment 1000, 100 invested in "Bonos": saldo 500, "Bonos" 100, newest entry "Inversión en Bonos" of -100 |
| `Bank.PoliciesDisagree` | app_flask/app.py:157-160 | The two deployments disagree: "user@.com" passes `app.py`'s check and fails the regular expression |
| `Bank.CheckPolicyPassword` | app.py:171 | The password check run by registration is the policy's (the hand-written one by its loop) |
| `Bank.NormalizeEmail` | app.py:160 | `.strip().lower()` (also at app.py:102): the key has no capitals, is no longer than the raw input, neither starts nor ends with whitespace, and is empty exactly when the input is blank |
| `Bank.Register` | app.py:166-184 | Registration checks the address first, then the password, then that the address is new; each of the four answers holds iff its condition does, and an account is created iff all three pass (twin app_flask/app.py:243-261) |
| `Bank.Authenticate` | app.py:107-121 | Login rejects a bad address, then an unknown one, then a wrong password; each answer holds iff its condition does, and success names the address (twin app_flask/app.py:184-198) |
| `Bank.NormalizeEmailIdempotent` | app.py:160 | strip().lower() applied twice equals applying it once, and its result is lower-case |
| `Bank.RegisterThenAuthenticate` | app.py:177-184 | After a successful registration, logging in with the same raw address and password succeeds |
| `Bank.Entry` | app.py:16-22 | Definition of the stores' invariant at one key: an account's key is lower-case (as `cargar_usuarios` re-keys it) and its saldo is the net of its list; a list or a portfolio belongs to an account; a portfolio has exactly the four categories |
| `Bank.Consistent` | app.py:16-22 | Definition: `Entry` at every key |
| `Bank.EmptyConsistent` | app.py:16-22 | Empty stores satisfy the invariant |
| `Bank.AddAccountKeepsConsistent` | app.py:180-184 | Adding an account with saldo 0 under a new lower-case key keeps the invariant |
| `Bank.RecordKeepsConsistent` | app.py:218-227 | Replacing one account's saldo and list keeps the invariant when the new saldo is the net of the new list |
| `Bank.InvestKeepsConsistent` | app.py:329-341 | The same, with that account's portfolio replaced by one with the four categories |
| `Bank.RenewKeepsConsistent` | app.py:411 | Changing an account without touching its saldo keeps the invariant |
| `Bank.ConsistentAt` | app.py:302-308 | In consistent stores, saldo is the net of the list and the portfolio used by the investment handler has exactly the four categories |
| `Bank.PayIsStep` | app.py:208-228 | The payment's map update is `Step` on the payer's wallet, and every other account is unchanged (twin app_flask/app.py:285-305) |
| `Bank.DepositIsStep` | app.py:249-262 | The income's map update is `Step` on the account's wallet, and every other account is unchanged (twin app_flask/app.py:326-339) |
| `Bank.InvestIsStep` | app.py:302-344 | The investment's map update, including the failure on an unknown category, is `Step` on the account's wallet, and every other account is unchanged on success (twin app_flask/app.py:379-421) |
| `Bank.Bank.constructor` | app.py:16-22 | Empty stores; the invariant holds |
| `Bank.Bank.CreateAccount` | app.py:155-187 | The answer is `Register` on the stripped, lower-cased address; on success exactly one entry with saldo 0 is added; otherwise nothing changes; the other stores are untouched; the invariant is kept (twin app_flask/app.py:232-264) |
| `Bank.Bank.Login` | app.py:97-122 | The answer is `Authenticate` on the stripped, lower-cased address; the stores are only read (twin app_flask/app.py:174-199) |
| `Bank.Bank.Pay` | app.py:194-228 | Missing account or monto > saldo: nothing changes. Otherwise saldo − monto, a "gasto" entry of −monto in front of that account's list, all else unchanged; the invariant is kept (twin app_flask/app.py:271-307) |
| `Bank.Bank.Deposit` | app.py:240-262 | No guard: saldo + monto and an "ingreso" entry "Ingreso: "+fuente of +monto in front of the list, all else unchanged; the invariant is kept (twin app_flask/app.py:317-341) |
| `Bank.Bank.Invest` | app.py:296-344 | Lower-cased session key. Missing account or monto > saldo: nothing changes. Otherwise saldo − monto is stored; then, if the category exists (in the stored portfolio, or four zeros), it grows by monto and "Inversión en "+tipo of −monto goes in front; if not, only the balance has changed; with the invariant, the category exists iff it is one of the four; the invariant is kept unless it fails (twin app_flask/app.py:373-421) |
| `Bank.Bank.ChangePassword` | app.py:398-412 | Nothing without a session key; failure for an unknown key; otherwise the password is replaced as given, without the password check; the invariant is kept (twin app_flask/app.py:477-493) |
| `Bank.RegisterThenLogin` | app.py:155-187 | On the class: after a successful registration, login with the same input succeeds, and the account's wallet is fresh: saldo 0, no transactions, four zero categories |

## Left out

- Flask routing, templates, redirects and the session object. The logged-in
  user is a method parameter. The GET branches only render pages.
- File I/O: the `cargar_*`/`guardar_*` functions and `guardar_log_texto`. The
  stores are in-memory maps. The lower-casing of keys on load (app.py:20) is not
  modelled as a function. `Consistent` instead requires every account key to be
  lower-case, so that re-keying would change nothing on any reachable state.
- `datetime.now()`: the timestamp is the parameter `fecha`. `crear_log_tuple`
  is left out because all it does is read the clock.
- `float(...)` parsing of form amounts, and float arithmetic. Amounts are exact
  reals.
- `Utilities.Taxed`: the `round(x * 1.10, 2)` of app_flask/app.py:71 is left out.
  The element is exactly x × 1.1, so `Utilities.ProcessNumbers` and its example
  do not reproduce two-decimal rounding.
- Concurrency and crashes. Two concurrent requests can lose an update. A crash
  between `guardar_usuarios` and `guardar_transacciones` can leave the stores
  inconsistent. Every method here runs to completion by itself.
- The `inicio`, `movimientos` and `perfil` views only read and display.
  `olvide_contra`/`procesar_olvide_contra` only echo a message. `cerrar_sesion`
  clears the session. `ejemplo_todo` and `resumen_transacciones_dicts` are
  reporting helpers outside the modelled core.
- Form fields that are absent (`None`) are not modelled. Examples: a missing
  `email` in registration, which crashes on `.strip()`, and a missing `tipo` in
  investment, which fails like an unknown category.
- Unicode: `\w`, `\d`, `isupper`, `isspace` and `lower` are modelled on ASCII
  only. Python also accepts non-ASCII letters and digits.
- `Utilities.CompoundInterest`: `años` is an integer here. The source also
  accepts fractional years, where the recursion stops at the first value ≤ 0.
- Passwords are stored and compared in plain text, as in the source.
- `Utilities.UniqueCategoriesExample`: states only that "comida", "sueldo" and
  "transporte" are in the set. The test's `len(categorias) == 3`
  (app_flask/test_app.py:142) is not stated, because proving set equality
  over four records costs more than the verifier's resource limit here.

The code differs from two natural readings of its purpose, and the model follows
the code in both cases:
- The hand-written `validar_email` of `app.py` accepts "user@.com"; only the
  regular-expression version rejects it (`Bank.PoliciesDisagree`).
- Nothing checks that `monto` is positive. The comments at app.py:216 and
  app.py:327 announce such a check, but no code follows them. So a negative payment
  or investment raises the balance, and a negative investment lowers a
  category.
