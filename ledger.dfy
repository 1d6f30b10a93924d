/**
 * What one account holds across the application's three stores (its balance
 * `saldo`, its transaction list, newest first, and its investment portfolio),
 * and what the three money-moving handlers do to it: `pagar` (an expense),
 * `ingreso` (income) and the POST branch of `inversiones` (an investment).
 * The handlers themselves, over the stores keyed by e-mail, are in module Bank;
 * here one account is followed through a sequence of requests, and the
 * balance/ledger invariant and the effect of each guard are proved.
 */
module Ledger {

  /** The `tipo` of a transaction. */
  datatype Kind = Ingreso | Gasto

  /** One entry `{fecha, descripcion, monto, tipo}` of a transaction list; `fecha` is the handler's timestamp, given as a parameter. */
  datatype Transaction = Transaction(fecha: string, descripcion: string, monto: real, tipo: Kind)

  /** Invested amount per category label. */
  type Portfolio = map<string, real>

  /** The four category labels a new portfolio is created with. */
  const Categories: set<string> := {"Fondos Comunes", "Acciones", "Bonos", "Plazo Fijo"}

  /** A portfolio as the invest handler creates it: the four labels, nothing else. */
  predicate IsPortfolio(p: Portfolio) {
    p.Keys == Categories
  }

  /** The portfolio the invest handler creates for an account that has none: every category at 0. */
  function NewPortfolio(): (p: Portfolio)
    ensures IsPortfolio(p)
    ensures forall c :: c in p ==> p[c] == 0.0
  {
    map["Fondos Comunes" := 0.0, "Acciones" := 0.0, "Bonos" := 0.0, "Plazo Fijo" := 0.0]
  }

  /** What one account holds: its balance, its transactions (newest first) and its portfolio. */
  datatype Wallet = Wallet(saldo: real, ledger: seq<Transaction>, portfolio: Portfolio)

  /** A freshly registered account: balance 0, no transactions, no investments yet. */
  function FreshWallet(): Wallet {
    Wallet(0.0, [], NewPortfolio())
  }

  /** One POST to a money-moving handler, with its form fields and its timestamp. */
  datatype Op =
    | Pay(descripcion: string, monto: real, fecha: string)
    | Deposit(fuente: string, monto: real, fecha: string)
    | Invest(tipo: string, monto: real, fecha: string)

  /** How a handler ends: done, refused for lack of funds, or failed on a category the portfolio does not have. */
  datatype Outcome = Done | InsufficientFunds | UnknownCategory

  /**
   * One request against one account:
   *  - Pay: refused when `monto > saldo`; otherwise `saldo - monto` and a
   *    "gasto" entry of `-monto` in front of the list.
   *  - Deposit: no guard; `saldo + monto` and an "ingreso" entry of `+monto`
   *    described as "Ingreso: " + source.
   *  - Invest: refused when `monto > saldo`; otherwise the reduced balance is
   *    stored first, so when the category is not in the portfolio the request
   *    fails with the balance already reduced and nothing else recorded;
   *    otherwise the category grows by `monto` and a "gasto" entry of
   *    `-monto` described as "Inversión en " + category goes in front.
   * No handler checks the sign of `monto`. A completed request puts exactly
   * one entry in front of the list, whose signed amount is the change in the
   * balance; any other outcome records nothing; no request adds or removes a
   * category.
   */
  function Step(w: Wallet, op: Op): (r: (Outcome, Wallet))
    ensures r.0 == Done ==>
      |r.1.ledger| == |w.ledger| + 1 && r.1.ledger[1..] == w.ledger &&
      r.1.ledger[0].monto == (if op.Deposit? then op.monto else -op.monto) &&
      r.1.ledger[0].tipo == (if op.Deposit? then Ingreso else Gasto) &&
      r.1.saldo == w.saldo + r.1.ledger[0].monto
    ensures r.0 != Done ==> r.1.ledger == w.ledger && r.1.portfolio == w.portfolio
    ensures r.1.portfolio.Keys == w.portfolio.Keys
  {
    match op
    case Pay(descripcion, monto, fecha) =>
      if monto > w.saldo then (InsufficientFunds, w)
      else (Done, Wallet(w.saldo - monto, [Transaction(fecha, descripcion, -monto, Gasto)] + w.ledger, w.portfolio))
    case Deposit(fuente, monto, fecha) =>
      (Done, Wallet(w.saldo + monto, [Transaction(fecha, "Ingreso: " + fuente, monto, Ingreso)] + w.ledger, w.portfolio))
    case Invest(tipo, monto, fecha) =>
      if monto > w.saldo then (InsufficientFunds, w)
      else if tipo !in w.portfolio then (UnknownCategory, w.(saldo := w.saldo - monto))
      else (Done, Wallet(w.saldo - monto,
                         [Transaction(fecha, "Inversión en " + tipo, -monto, Gasto)] + w.ledger,
                         w.portfolio[tipo := w.portfolio[tipo] + monto]))
  }

  /**
   * A sequence of requests, in order; each one sees the account the previous
   * one left. The portfolio keeps its categories throughout.
   */
  function Run(w: Wallet, ops: seq<Op>): (r: Wallet)
    ensures r.portfolio.Keys == w.portfolio.Keys
    decreases |ops|
  {
    if ops == [] then w else Run(Step(w, ops[0]).1, ops[1..])
  }

  /** `base` is the tail of `l`: the entries of `l` are some new ones followed by `base`. */
  predicate EndsWith(l: seq<Transaction>, base: seq<Transaction>) {
    |base| <= |l| && l[|l| - |base|..] == base
  }

  /** No sequence of requests edits or drops an earlier transaction: the old list is the tail of the new one. */
  lemma {:induction false} RunKeepsHistory(w: Wallet, ops: seq<Op>)
    ensures EndsWith(Run(w, ops).ledger, w.ledger)
    decreases |ops|
  {
    var r := Run(w, ops);
    if ops == [] {
      assert r.ledger[|r.ledger| - |w.ledger|..] == w.ledger;
    } else {
      var w' := Step(w, ops[0]).1;
      assert r == Run(w', ops[1..]);
      StepExtends(w, ops[0]);
      RunKeepsHistory(w', ops[1..]);
      EndsWithTransitive(r.ledger, w'.ledger, w.ledger);
    }
  }

  /** A request leaves the earlier transactions as the tail of the list. */
  lemma StepExtends(w: Wallet, op: Op)
    ensures EndsWith(Step(w, op).1.ledger, w.ledger)
  {
    var l := Step(w, op).1.ledger;
    if Step(w, op).0 == Done {
      assert l[|l| - |w.ledger|..] == l[1..];
    } else {
      assert l[|l| - |w.ledger|..] == l;
    }
  }

  lemma EndsWithTransitive(a: seq<Transaction>, b: seq<Transaction>, c: seq<Transaction>)
    requires EndsWith(a, b) && EndsWith(b, c)
    ensures EndsWith(a, c)
  {
    assert a[|a| - |c|..] == a[|a| - |b|..][|b| - |c|..];
  }

  /** The sum of the signed amounts of a transaction list. */
  function Net(ledger: seq<Transaction>): real {
    if ledger == [] then 0.0 else ledger[0].monto + Net(ledger[1..])
  }

  /** The invariant the stores are meant to keep: the balance is the net of the account's transactions. */
  predicate Balanced(w: Wallet) {
    w.saldo == Net(w.ledger)
  }

  function Holding(p: Portfolio, c: string): real {
    if c in p then p[c] else 0.0
  }

  /** The total invested across the four categories. */
  function Invested(p: Portfolio): real {
    Holding(p, "Fondos Comunes") + Holding(p, "Acciones") + Holding(p, "Bonos") + Holding(p, "Plazo Fijo")
  }

  /**
   * The balance guard: Pay and Invest are refused exactly when `monto > saldo`,
   * and a refused request leaves the account exactly as it was.
   */
  lemma StepGuard(w: Wallet, op: Op)
    ensures Step(w, op).0 == InsufficientFunds <==> !op.Deposit? && op.monto > w.saldo
    ensures Step(w, op).0 == InsufficientFunds ==> Step(w, op).1 == w
  {
  }

  /** Every request except a failed investment keeps the balance equal to the net of the ledger. */
  lemma StepKeepsBalance(w: Wallet, op: Op)
    requires Balanced(w)
    ensures Step(w, op).0 != UnknownCategory ==> Balanced(Step(w, op).1)
  {
  }

  /**
   * An investment in a category the portfolio lacks loses the money: the balance
   * drops by `monto`, nothing is recorded, and the invariant breaks whenever
   * `monto` is not 0.
   */
  lemma FailedInvestmentUnbalances(w: Wallet, tipo: string, monto: real, fecha: string)
    requires Balanced(w) && monto <= w.saldo && tipo !in w.portfolio && monto != 0.0
    ensures Step(w, Invest(tipo, monto, fecha)) == (UnknownCategory, w.(saldo := w.saldo - monto))
    ensures !Balanced(Step(w, Invest(tipo, monto, fecha)).1)
  {
  }

  /** Pay and Invest never take a non-negative balance below zero, whatever the sign of `monto`. */
  lemma StepKeepsSolvent(w: Wallet, op: Op)
    requires w.saldo >= 0.0
    requires op.Deposit? ==> op.monto >= 0.0
    ensures Step(w, op).1.saldo >= 0.0
  {
  }

  /** Deposit has no guard: a negative deposit can take the balance below zero. */
  lemma NegativeDepositOverdraws()
    ensures Step(FreshWallet(), Deposit("", -1.0, "")).0 == Done
    ensures Step(FreshWallet(), Deposit("", -1.0, "")).1.saldo < 0.0
  {
  }

  /**
   * A successful investment moves money from the balance into one category:
   * balance plus invested total is unchanged, and only that category grows.
   */
  lemma InvestmentConservesWealth(w: Wallet, tipo: string, monto: real, fecha: string)
    requires tipo in Categories
    requires Step(w, Invest(tipo, monto, fecha)).0 == Done
    ensures var w' := Step(w, Invest(tipo, monto, fecha)).1;
      w'.saldo + Invested(w'.portfolio) == w.saldo + Invested(w.portfolio) &&
      Holding(w'.portfolio, tipo) == Holding(w.portfolio, tipo) + monto &&
      forall c :: c != tipo ==> Holding(w'.portfolio, c) == Holding(w.portfolio, c)
  {
  }

  /** Any sequence of requests keeps the balance equal to the net of the ledger, as long as every investment names a category the portfolio has. */
  lemma {:induction false} RunKeepsBalance(w: Wallet, ops: seq<Op>)
    requires Balanced(w)
    requires forall i :: 0 <= i < |ops| && ops[i].Invest? ==> ops[i].tipo in w.portfolio
    ensures Balanced(Run(w, ops))
    decreases |ops|
  {
    if ops != [] {
      var w' := Step(w, ops[0]).1;
      StepKeepsBalance(w, ops[0]);
      assert forall i :: 0 <= i < |ops[1..]| ==> ops[1..][i] == ops[i + 1];
      RunKeepsBalance(w', ops[1..]);
    }
  }

  /**
   * From a freshly registered account, after any sequence of payments, deposits
   * and investments in the four categories, the balance is the sum of all the
   * recorded amounts.
   */
  lemma FreshAccountStaysBalanced(ops: seq<Op>)
    requires forall i :: 0 <= i < |ops| && ops[i].Invest? ==> ops[i].tipo in Categories
    ensures Balanced(Run(FreshWallet(), ops))
  {
    RunKeepsBalance(FreshWallet(), ops);
  }

  /** With no negative deposits, a non-negative balance stays non-negative across any sequence of requests. */
  lemma {:induction false} RunKeepsSolvent(w: Wallet, ops: seq<Op>)
    requires w.saldo >= 0.0
    requires forall i :: 0 <= i < |ops| && ops[i].Deposit? ==> ops[i].monto >= 0.0
    ensures Run(w, ops).saldo >= 0.0
    decreases |ops|
  {
    if ops != [] {
      StepKeepsSolvent(w, ops[0]);
      assert forall i :: 0 <= i < |ops[1..]| ==> ops[1..][i] == ops[i + 1];
      RunKeepsSolvent(Step(w, ops[0]).1, ops[1..]);
    }
  }

  /**
   * The worked example: deposit 1000, pay 400, a refused payment of 1000, then
   * 100 into "Bonos" leaves a balance of 500 with 100 in "Bonos".
   */
  lemma WorkedExample()
    ensures var w1 := Step(FreshWallet(), Deposit("salary", 1000.0, "t1"));
            var w2 := Step(w1.1, Pay("rent", 400.0, "t2"));
            var w3 := Step(w2.1, Pay("car", 1000.0, "t3"));
            var w4 := Step(w3.1, Invest("Bonos", 100.0, "t4"));
      w1.1.saldo == 1000.0 && w2.1.saldo == 600.0 && w2.1.ledger[0].monto == -400.0 &&
      w3 == (InsufficientFunds, w2.1) &&
      w4.0 == Done && w4.1.saldo == 500.0 && w4.1.portfolio["Bonos"] == 100.0 &&
      w4.1.ledger[0] == Transaction("t4", "Inversión en Bonos", -100.0, Gasto)
  {
  }
}
