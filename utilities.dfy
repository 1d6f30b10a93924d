/**
 * The small list, set and recursion helpers of the Flask application
 * (`app_flask/app.py`): the positive-amount filter with its 10% surcharge and
 * total, the set of first-word categories, the [descripcion, monto] history
 * matrix and compound interest. Amounts are exact reals.
 */
module Utilities {
  import opened Wrappers
  import opened Strings

  /** What `t.get(key, default)` can find in a transaction dictionary: no such key, JSON null, or a value. */
  datatype Field<T> = Missing | Null | Present(value: T)

  /** A transaction dictionary as these helpers read it: only 'descripcion' and 'monto' matter. */
  datatype Record = Record(descripcion: Field<string>, monto: Field<real>)

  /** One row `[descripcion, monto]` of the history matrix. */
  datatype Row = Row(descripcion: Field<string>, monto: Field<real>)

  // ------------------------------------------------ procesar_transacciones_numeros

  /** `list(filter(lambda x: x > 0, xs))` */
  function Positives(xs: seq<real>): (r: seq<real>)
    ensures |r| <= |xs|
    ensures forall i :: 0 <= i < |r| ==> r[i] > 0.0
    ensures forall x :: multiset(r)[x] == if x > 0.0 then multiset(xs)[x] else 0
  {
    if xs == [] then []
    else
      assert xs == [xs[0]] + xs[1..];
      (if xs[0] > 0.0 then [xs[0]] else []) + Positives(xs[1..])
  }

  /** Filtering keeps the original order: it distributes over concatenation. */
  lemma {:induction false} PositivesAppend(a: seq<real>, b: seq<real>)
    ensures Positives(a + b) == Positives(a) + Positives(b)
  {
    if a == [] {
      assert a + b == b;
    } else {
      assert (a + b)[1..] == a[1..] + b;
      PositivesAppend(a[1..], b);
    }
  }

  /** `list(map(lambda x: x * 1.10, ps))`, without the rounding to two decimals. */
  function Taxed(ps: seq<real>): (r: seq<real>)
    ensures |r| == |ps|
    ensures forall i :: 0 <= i < |ps| ==> r[i] == ps[i] * 1.1
  {
    if ps == [] then [] else [ps[0] * 1.1] + Taxed(ps[1..])
  }

  /** `reduce(lambda a, b: a + b, xs, 0)`: a fold from the left starting at 0. */
  function Total(xs: seq<real>): real {
    if xs == [] then 0.0 else Total(xs[..|xs| - 1]) + xs[|xs| - 1]
  }

  lemma {:induction false} TotalOfTaxed(ps: seq<real>)
    ensures Total(Taxed(ps)) == Total(ps) * 1.1
  {
    if ps != [] {
      var n := |ps| - 1;
      assert Taxed(ps)[..n] == Taxed(ps[..n]);
      TotalOfTaxed(ps[..n]);
    }
  }

  /**
   * `procesar_transacciones_numeros`: the positive amounts in order, each with
   * its 10% surcharge, and the surcharged total.
   */
  function ProcessNumbers(xs: seq<real>): (r: (seq<real>, seq<real>, real))
    ensures r.0 == Positives(xs)
    ensures |r.1| == |r.0| && forall i :: 0 <= i < |r.0| ==> r.1[i] == r.0[i] * 1.1
    ensures r.2 == Total(r.0) * 1.1
    ensures xs == [] ==> r == ([], [], 0.0)
  {
    var positives := Positives(xs);
    var taxed := Taxed(positives);
    TotalOfTaxed(positives);
    (positives, taxed, Total(taxed))
  }

  lemma ProcessNumbersExample()
    ensures ProcessNumbers([100.0, -50.0, 200.0, -30.0]) == ([100.0, 200.0], [110.0, 220.0], 330.0)
  {
    var xs := [100.0, -50.0, 200.0, -30.0];
    assert xs[1..] == [-50.0, 200.0, -30.0] && xs[1..][1..] == [200.0, -30.0];
    assert xs[1..][1..][1..] == [-30.0];
    assert Positives(xs) == [100.0, 200.0];
    assert Taxed([100.0, 200.0]) == [110.0, 220.0];
    assert [110.0, 220.0][..1] == [110.0];
  }

  // ------------------------------------------------------------ categorias_unicas

  /** `t.get('descripcion', '') or ''`: a missing key and null both read as "". */
  function DescriptionText(f: Field<string>): string {
    match f
    case Present(s) => s
    case _ => ""
  }

  /** `s.split()[0]` for a string that starts with a non-space: the text up to the first whitespace. */
  function FirstWord(s: string): (w: string)
    ensures |w| <= |s| && w == s[..|w|]
    ensures forall i :: 0 <= i < |w| ==> !IsSpace(w[i])
    ensures |w| == |s| || IsSpace(s[|w|])
  {
    if s == [] || IsSpace(s[0]) then []
    else
      var w := FirstWord(s[1..]);
      assert s[1..][..|w|] == s[1..|w| + 1];
      [s[0]] + w
  }

  /**
   * The category `categorias_unicas` takes from one transaction: none when the
   * description is missing, null or blank; otherwise the first
   * whitespace-separated word of the stripped description, lower-cased.
   */
  function Category(t: Record): Option<string> {
    var s := Strip(DescriptionText(t.descripcion));
    if s == "" then None else Some(Lower(FirstWord(s)))
  }

  /**
   * `c` is what Python's `d.split()[0].lower()` gives: it lower-cases the run of
   * non-space characters that starts at `a`, after nothing but whitespace, and
   * ends at whitespace or at the end of `d`.
   */
  ghost predicate LoweredWordAt(d: string, a: int, c: string) {
    0 <= a && a + |c| <= |d| && AllSpace(d[..a]) && c == Lower(d[a..a + |c|]) &&
    (a + |c| == |d| || IsSpace(d[a + |c|]))
  }

  /**
   * What a category is, in terms of the description itself: there is none
   * exactly when the description is all whitespace (or missing, or null);
   * otherwise it is the lower-cased first word of the description, non-empty
   * and free of spaces and capitals.
   */
  lemma CategoryIsFirstWord(t: Record)
    ensures Category(t).None? <==> AllSpace(DescriptionText(t.descripcion))
    ensures Category(t).Some? ==>
      var c := Category(t).value;
      c != "" && (forall i :: 0 <= i < |c| ==> !IsSpace(c[i]) && !IsUpper(c[i])) &&
      exists a :: LoweredWordAt(DescriptionText(t.descripcion), a, c)
  {
    var d := DescriptionText(t.descripcion);
    var s := Strip(d);
    if s != "" {
      var a, b :| 0 <= a <= b <= |d| && s == d[a..b] && AllSpace(d[..a]) && AllSpace(d[b..]);
      assert s[0] == d[a];
      FirstWordLowered(d, a, b);
    }
  }

  lemma FirstWordLowered(d: string, a: nat, b: nat)
    requires a < b <= |d| && !IsSpace(d[a]) && AllSpace(d[..a]) && AllSpace(d[b..])
    ensures var c := Lower(FirstWord(d[a..b]));
      c != "" && (forall i :: 0 <= i < |c| ==> !IsSpace(c[i]) && !IsUpper(c[i])) &&
      LoweredWordAt(d, a, c)
  {
    var w := FirstWord(d[a..b]);
    WordInContext(d, a, b, w);
    assert d[a..b][0] == d[a];
  }

  /** The first word of the stripped slice `d[a..b]` sits at `a` in `d` and ends at whitespace or at the end. */
  lemma WordInContext(d: string, a: nat, b: nat, w: string)
    requires a <= b <= |d| && d[a..b] != "" && AllSpace(d[b..])
    requires w == FirstWord(d[a..b])
    ensures a + |w| <= |d| && w == d[a..a + |w|]
    ensures a + |w| == |d| || IsSpace(d[a + |w|])
  {
    var s := d[a..b];
    assert w == s[..|w|];
    if a + |w| < b {
      assert s[|w|] == d[a + |w|];
    } else if b < |d| {
      assert d[b..][0] == d[b];
    }
  }

  /** A transaction whose description is missing, null, empty or blank contributes no category. */
  lemma BlankDescriptionHasNoCategory(monto: Field<real>)
    ensures Category(Record(Missing, monto)) == None
    ensures Category(Record(Null, monto)) == None
    ensures Category(Record(Present(""), monto)) == None
  {
  }

  /**
   * `categorias_unicas`: the set built by walking the transactions and adding
   * the category of each one that has one.
   */
  method UniqueCategories(ts: seq<Record>) returns (cats: set<string>)
    ensures forall c :: c in cats <==> exists i :: 0 <= i < |ts| && Category(ts[i]) == Some(c)
  {
    cats := {};
    for k := 0 to |ts|
      invariant forall c :: c in cats <==> exists i :: 0 <= i < k && Category(ts[i]) == Some(c)
    {
      var cat := Category(ts[k]);
      ghost var before := cats;
      if cat.Some? {
        cats := cats + {cat.value};
      }
      forall c | c in cats ensures exists i :: 0 <= i < k + 1 && Category(ts[i]) == Some(c) {
        if c in before {
          var i :| 0 <= i < k && Category(ts[i]) == Some(c);
          assert 0 <= i < k + 1;
        } else {
          assert Category(ts[k]) == Some(c);
        }
      }
      forall c | exists i :: 0 <= i < k + 1 && Category(ts[i]) == Some(c) ensures c in cats {
        var i :| 0 <= i < k + 1 && Category(ts[i]) == Some(c);
        if i < k {
          assert c in before;
        }
      }
    }
  }

  /** A description made of a first word and a rest that starts with whitespace and does not end with it has that word, lower-cased, as category. */
  lemma CategoryOfWords(w: string, rest: string, monto: Field<real>)
    requires w != "" && forall i :: 0 <= i < |w| ==> !IsSpace(w[i])
    requires rest == "" || (IsSpace(rest[0]) && !IsSpace(rest[|rest| - 1]))
    ensures Category(Record(Present(w + rest), monto)) == Some(Lower(w))
  {
    var s := w + rest;
    assert Strip(s) == s by {
      assert s[0] == w[0] && s[|s| - 1] == if rest == "" then w[|w| - 1] else rest[|rest| - 1];
      StripTrimmed(s);
    }
    assert FirstWord(s) == w by {
      assert s[..|w|] == w;
      assert |w| == |s| || s[|w|] == rest[0];
      FirstWordIs(s, |w|);
    }
  }

  /** The first word of `s` is `s[..n]` when `s[..n]` has no whitespace and is followed by whitespace or the end. */
  lemma FirstWordIs(s: string, n: nat)
    requires n <= |s| && (forall i :: 0 <= i < n ==> !IsSpace(s[i])) && (n == |s| || IsSpace(s[n]))
    ensures FirstWord(s) == s[..n]
  {
  }

  lemma LowerExamples()
    ensures Lower("Comida") == "comida" && Lower("Sueldo") == "sueldo" && Lower("Transporte") == "transporte"
  {
  }

  // The four transactions of the `categorias_unicas` test, one lemma each.

  lemma CategoryComidaAlmuerzo()
    ensures Category(Record(Present("Comida" + " almuerzo"), Present(-50.0))) == Some("comida")
  {
    CategoryOfWords("Comida", " almuerzo", Present(-50.0));
    LowerExamples();
  }

  lemma CategoryComidaCena()
    ensures Category(Record(Present("Comida" + " cena"), Present(-30.0))) == Some("comida")
  {
    CategoryOfWords("Comida", " cena", Present(-30.0));
    LowerExamples();
  }

  lemma CategorySueldoMensual()
    ensures Category(Record(Present("Sueldo" + " mensual"), Present(1000.0))) == Some("sueldo")
  {
    CategoryOfWords("Sueldo", " mensual", Present(1000.0));
    LowerExamples();
  }

  lemma CategoryTransporteColectivo()
    ensures Category(Record(Present("Transporte" + " colectivo"), Present(-20.0))) == Some("transporte")
  {
    CategoryOfWords("Transporte", " colectivo", Present(-20.0));
    LowerExamples();
  }

  /** Run on the four transactions of the test, the loop's set contains "comida", "sueldo" and "transporte". */
  method UniqueCategoriesExample() returns (cats: set<string>)
    ensures "comida" in cats && "sueldo" in cats && "transporte" in cats
  {
    var t0 := Record(Present("Comida" + " almuerzo"), Present(-50.0));
    var t1 := Record(Present("Comida" + " cena"), Present(-30.0));
    var t2 := Record(Present("Sueldo" + " mensual"), Present(1000.0));
    var t3 := Record(Present("Transporte" + " colectivo"), Present(-20.0));
    CategoryComidaAlmuerzo();
    CategorySueldoMensual();
    CategoryTransporteColectivo();
    var ts := [t0, t1, t2, t3];
    cats := UniqueCategories(ts);
    assert Category(ts[0]) == Some("comida");
    assert Category(ts[2]) == Some("sueldo");
    assert Category(ts[3]) == Some("transporte");
  }

  /** An empty, a null and a missing description give no category at all. */
  method UniqueCategoriesOfBlanks() returns (cats: set<string>)
    ensures cats == {}
  {
    var ts := [Record(Present(""), Present(-50.0)), Record(Null, Present(100.0)), Record(Missing, Present(200.0))];
    BlankDescriptionHasNoCategory(Present(-50.0));
    BlankDescriptionHasNoCategory(Present(100.0));
    BlankDescriptionHasNoCategory(Present(200.0));
    cats := UniqueCategories(ts);
  }

  // ------------------------------------------------------------- matriz_historial

  /** `t.get(key, default)`: the default stands in only for a missing key; a null stays null. */
  function GetOr<T>(f: Field<T>, default: T): (r: Field<T>)
    ensures !r.Missing?
    ensures f.Missing? ==> r == Present(default)
    ensures !f.Missing? ==> r == f
  {
    if f.Missing? then Present(default) else f
  }

  /** `matriz_historial`: one `[descripcion, monto]` row per transaction, in order. */
  function HistoryMatrix(ts: seq<Record>): (rows: seq<Row>)
    ensures |rows| == |ts|
    ensures forall i :: 0 <= i < |ts| ==>
      rows[i] == Row(GetOr(ts[i].descripcion, ""), GetOr(ts[i].monto, 0.0))
  {
    if ts == [] then []
    else [Row(GetOr(ts[0].descripcion, ""), GetOr(ts[0].monto, 0.0))] + HistoryMatrix(ts[1..])
  }

  /** The test data of `matriz_historial`: three transactions give three rows in order; no transactions give none. */
  lemma HistoryMatrixExamples()
    ensures HistoryMatrix([Record(Present("Gasto 1"), Present(-50.0)), Record(Present("Ingreso 1"), Present(100.0)),
                           Record(Present("Gasto 2"), Present(-30.0))]) ==
      [Row(Present("Gasto 1"), Present(-50.0)), Row(Present("Ingreso 1"), Present(100.0)), Row(Present("Gasto 2"), Present(-30.0))]
    ensures HistoryMatrix([]) == []
  {
  }

  // -------------------------------------------------- interes_compuesto_recursivo

  /** `interes_compuesto_recursivo`: one year's interest per call, until no years remain. */
  function CompoundInterest(capital: real, rate: real, years: int): (r: real)
    ensures years <= 0 ==> r == capital
    decreases years
  {
    if years <= 0 then capital
    else CompoundInterest(capital * (1.0 + rate), rate, years - 1)
  }

  function Power(x: real, n: nat): real {
    if n == 0 then 1.0 else x * Power(x, n - 1)
  }

  /** After n years the capital has been multiplied by (1 + rate) n times. */
  lemma {:induction false} CompoundInterestIsPower(capital: real, rate: real, n: nat)
    ensures CompoundInterest(capital, rate, n) == capital * Power(1.0 + rate, n)
    decreases n
  {
    if n > 0 {
      CompoundInterestIsPower(capital * (1.0 + rate), rate, n - 1);
      MulAssoc(capital, 1.0 + rate, Power(1.0 + rate, n - 1));
    }
  }

  lemma MulAssoc(a: real, b: real, c: real)
    ensures (a * b) * c == a * (b * c)
  {
  }

  /** With a non-negative rate, capital never shrinks. */
  lemma {:induction false} CompoundInterestGrows(capital: real, rate: real, years: int)
    requires capital >= 0.0 && rate >= 0.0
    ensures CompoundInterest(capital, rate, years) >= capital
    decreases years
  {
    if years > 0 {
      CompoundInterestGrows(capital * (1.0 + rate), rate, years - 1);
      assert capital * (1.0 + rate) >= capital;
    }
  }

  lemma CompoundInterestExamples()
    ensures CompoundInterest(100.0, 0.1, 2) == 121.0
    ensures CompoundInterest(100.0, 0.1, 0) == 100.0
    ensures CompoundInterest(100.0, 0.1, -1) == 100.0
  {
  }
}
