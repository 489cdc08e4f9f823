/**
 * The read side of the plan editor's route (GET): the week parameter,
 * the channel/account filters over the report rows, the scenario
 * catalogue grouped by SKU key, the scenario last applied to each SKU,
 * and the distinct sorted channel and account lists.
 */
module PlanReport {
  import opened Base
  import opened ScenarioUpload

  /** A row of the weekly plan report; the columns the editor and the route read. */
  datatype ReportRow = ReportRow(
    nodo: string, cuenta: string, sku: string,
    nombre: Option<string>, portafolio: Option<string>, segmentacion: Option<string>,
    semanaVR1: int, semanaVR2: int, semanaVR3: int, semanaVR4: int, semanaVR5: int,
    ventaReal1: Option<real>, ventaReal2: Option<real>, ventaReal3: Option<real>, ventaReal4: Option<real>, ventaReal5: Option<real>,
    semanaPD0: int, semanaPD1: int, semanaPD2: int, semanaPD3: int, semanaPD4: int,
    plan0: Option<real>, plan1: Option<real>, plan2: Option<real>, plan3: Option<real>, plan4: Option<real>)

  /** The key of a SKU in the editor and the catalogue: `${Nodo}|${Cuenta}|${Sku_Seller}`. */
  function SkuKey(nodo: string, cuenta: string, sku: string): string
  {
    nodo + "|" + cuenta + "|" + sku
  }

  function RowKey(row: ReportRow): string
  {
    SkuKey(row.nodo, row.cuenta, row.sku)
  }

  // ---------------------------------------------------------------------
  // The week parameter
  // ---------------------------------------------------------------------

  const FirstWeek: int := 202001
  const LastWeek: int := 209953

  datatype WeekParam = NoWeek | BadWeek | Week(n: int)

  /** `semana` is required, must parse with `parseInt(semana, 10)` and lie in 202001..209953. */
  function CheckWeek(semana: Option<string>): (r: WeekParam)
    ensures r == NoWeek <==> semana.None? || semana.value == ""
    ensures r.Week? <==> semana.Some? && semana.value != "" && ParseInt(semana.value).Some?
                         && FirstWeek <= ParseInt(semana.value).value <= LastWeek
    ensures r.Week? ==> r.n == ParseInt(semana.value).value
  {
    if semana.None? || semana.value == "" then NoWeek
    else
      match ParseInt(semana.value)
      case None => BadWeek
      case Some(n) => if n < FirstWeek || n > LastWeek then BadWeek else Week(n)
  }

  /** Every week of the range written as a numeral is accepted as itself. */
  lemma WeekRoundTrip(n: int)
    requires FirstWeek <= n <= LastWeek
    ensures CheckWeek(Some(IntToString(n))) == Week(n)
  {
    ParseIntOfString(n);
    assert |IntToString(n)| > 0;
  }

  // ---------------------------------------------------------------------
  // Filters
  // ---------------------------------------------------------------------

  /** A filter parameter narrows the report unless it is absent, empty or `Todos`. */
  predicate Narrows(f: Option<string>)
  {
    f.Some? && f.value != "" && f.value != "Todos"
  }

  predicate Passes(row: ReportRow, nodo: Option<string>, cuenta: Option<string>)
  {
    (!Narrows(nodo) || row.nodo == nodo.value) && (!Narrows(cuenta) || row.cuenta == cuenta.value)
  }

  /** The report after the channel filter and then the account filter. */
  function FilterReport(rows: seq<ReportRow>, nodo: Option<string>, cuenta: Option<string>): (r: seq<ReportRow>)
    ensures |r| <= |rows|
  {
    if |rows| == 0 then [] else FilterReport(rows[..|rows| - 1], nodo, cuenta) + KeepIf(rows[|rows| - 1], nodo, cuenta)
  }

  function KeepIf(row: ReportRow, nodo: Option<string>, cuenta: Option<string>): (r: seq<ReportRow>)
  {
    if Passes(row, nodo, cuenta) then [row] else []
  }

  /** The filtered report holds exactly the rows that pass both filters. */
  lemma {:induction false} FilterReportMembers(rows: seq<ReportRow>, nodo: Option<string>, cuenta: Option<string>, x: ReportRow)
    ensures x in FilterReport(rows, nodo, cuenta) <==> x in rows && Passes(x, nodo, cuenta)
  {
    if |rows| > 0 {
      var n := |rows| - 1;
      FilterReportMembers(rows[..n], nodo, cuenta, x);
      assert rows == rows[..n] + [rows[n]];
    }
  }

  /** Without a channel or account, the report is returned whole. */
  lemma {:induction false} NoFilterKeepsAll(rows: seq<ReportRow>, nodo: Option<string>, cuenta: Option<string>)
    requires !Narrows(nodo) && !Narrows(cuenta)
    ensures FilterReport(rows, nodo, cuenta) == rows
  {
    if |rows| > 0 {
      var n := |rows| - 1;
      NoFilterKeepsAll(rows[..n], nodo, cuenta);
      assert rows == rows[..n] + [rows[n]];
    }
  }

  lemma FilterReportSnoc(rows: seq<ReportRow>, row: ReportRow, nodo: Option<string>, cuenta: Option<string>)
    ensures FilterReport(rows + [row], nodo, cuenta) == FilterReport(rows, nodo, cuenta) + KeepIf(row, nodo, cuenta)
  {
    assert (rows + [row])[..|rows|] == rows;
  }

  /** Filtering keeps the report's order: the filter of a concatenation is the concatenation of the filters. */
  lemma {:induction false} FilterReportAppend(a: seq<ReportRow>, b: seq<ReportRow>, nodo: Option<string>, cuenta: Option<string>)
    ensures FilterReport(a + b, nodo, cuenta) == FilterReport(a, nodo, cuenta) + FilterReport(b, nodo, cuenta)
    decreases |b|
  {
    if |b| == 0 {
      assert a + b == a;
    } else {
      var n := |b| - 1;
      var front, last := b[..n], b[n];
      AppendSnoc(a, b);
      FilterReportSnoc(a + front, last, nodo, cuenta);
      FilterReportSnoc(front, last, nodo, cuenta);
      FilterReportAppend(a, front, nodo, cuenta);
      AppendAssoc(FilterReport(a, nodo, cuenta), FilterReport(front, nodo, cuenta), KeepIf(last, nodo, cuenta));
    }
  }

  // ---------------------------------------------------------------------
  // The scenario catalogue per SKU
  // ---------------------------------------------------------------------

  /** Quantity and price of one scenario, `Number(x) || 0` applied. */
  datatype Figures = Figures(cantidad: real, precio: real)

  function ScenarioKey(r: ScenarioRow): string
  {
    SkuKey(r.nodo, r.cuenta, r.sku)
  }

  function FiguresOf(r: ScenarioRow): Figures
  {
    Figures(OrZero(r.cantidad), OrZero(r.precio))
  }

  /** `escenariosPorSku` after the catalogue rows `rows`, read in order. */
  function ScenarioIndex(rows: seq<ScenarioRow>): map<string, map<string, Figures>>
  {
    if |rows| == 0 then map[]
    else
      var n := |rows| - 1;
      AddScenario(ScenarioIndex(rows[..n]), rows[n])
  }

  function AddScenario(m: map<string, map<string, Figures>>, r: ScenarioRow): map<string, map<string, Figures>>
  {
    var k := ScenarioKey(r);
    var inner := if k in m then m[k] else map[];
    m[k := inner[r.escenario := FiguresOf(r)]]
  }

  /** Row `i` is the last catalogue row for SKU key `k` and scenario `e`. */
  predicate LastFor(rows: seq<ScenarioRow>, k: string, e: string, i: int)
  {
    0 <= i < |rows| && ScenarioKey(rows[i]) == k && rows[i].escenario == e
    && forall j :: i < j < |rows| ==> !(ScenarioKey(rows[j]) == k && rows[j].escenario == e)
  }

  /** What adding one row changes in the index: its key, and under it its scenario, nothing else. */
  lemma AddScenarioAt(m: map<string, map<string, Figures>>, r: ScenarioRow, k: string, e: string)
    ensures var t := AddScenario(m, r);
            (k in t <==> k in m || k == ScenarioKey(r))
            && (k != ScenarioKey(r) && k in m ==> t[k] == m[k])
            && (k == ScenarioKey(r) ==> (e in t[k] <==> e == r.escenario || (k in m && e in m[k])))
            && (k == ScenarioKey(r) && e != r.escenario && k in m && e in m[k] ==> t[k][e] == m[k][e])
            && (k == ScenarioKey(r) ==> r.escenario in t[k] && t[k][r.escenario] == FiguresOf(r))
  {
  }

  /** A key is in the index exactly when some row has it. */
  lemma {:induction false} ScenarioIndexKeys(rows: seq<ScenarioRow>, k: string)
    ensures k in ScenarioIndex(rows) <==> exists i :: 0 <= i < |rows| && ScenarioKey(rows[i]) == k
  {
    if |rows| > 0 {
      var n := |rows| - 1;
      ScenarioIndexKeys(rows[..n], k);
      AddScenarioAt(ScenarioIndex(rows[..n]), rows[n], k, "");
      assert forall i :: 0 <= i < n ==> rows[..n][i] == rows[i];
    }
  }

  /** A scenario is under a key exactly when some row has both. */
  lemma {:induction false} ScenarioIndexHas(rows: seq<ScenarioRow>, k: string, e: string)
    ensures k in ScenarioIndex(rows) && e in ScenarioIndex(rows)[k] <==>
              exists i :: 0 <= i < |rows| && ScenarioKey(rows[i]) == k && rows[i].escenario == e
  {
    if |rows| > 0 {
      var n := |rows| - 1;
      var prev := rows[..n];
      var m := ScenarioIndex(prev);
      ScenarioIndexHas(prev, k, e);
      AddScenarioAt(m, rows[n], k, e);
      var r := rows[n];
      if ScenarioKey(r) == k && r.escenario == e {
        assert ScenarioKey(rows[n]) == k && rows[n].escenario == e;
      } else if k in m && e in m[k] {
        var i :| 0 <= i < n && ScenarioKey(prev[i]) == k && prev[i].escenario == e;
        assert prev[i] == rows[i];
      } else {
        forall i | 0 <= i < |rows|
          ensures !(ScenarioKey(rows[i]) == k && rows[i].escenario == e)
        {
          if i < n {
            assert prev[i] == rows[i];
          }
        }
      }
    }
  }

  /** A scenario under a key holds the figures of the last row that has both. */
  lemma {:induction false} ScenarioIndexLastWins(rows: seq<ScenarioRow>, k: string, e: string)
    ensures k in ScenarioIndex(rows) && e in ScenarioIndex(rows)[k] ==>
              exists i :: LastFor(rows, k, e, i) && ScenarioIndex(rows)[k][e] == FiguresOf(rows[i])
  {
    if |rows| > 0 {
      var n := |rows| - 1;
      var prev := rows[..n];
      var m := ScenarioIndex(prev);
      ScenarioIndexLastWins(prev, k, e);
      AddScenarioAt(m, rows[n], k, e);
      var r := rows[n];
      if ScenarioKey(r) == k && r.escenario == e {
        assert LastFor(rows, k, e, n);
      } else if k in m && e in m[k] {
        var i :| LastFor(prev, k, e, i) && m[k][e] == FiguresOf(prev[i]);
        LastForExtend(rows, k, e, i);
      }
    }
  }

  /** The last row with a key and scenario stays the last one when a row with others follows. */
  lemma LastForExtend(rows: seq<ScenarioRow>, k: string, e: string, i: int)
    requires |rows| > 0 && LastFor(rows[..|rows| - 1], k, e, i)
    requires !(ScenarioKey(rows[|rows| - 1]) == k && rows[|rows| - 1].escenario == e)
    ensures LastFor(rows, k, e, i)
  {
    var n := |rows| - 1;
    assert forall j :: i < j < n ==> rows[..n][j] == rows[j];
  }

  /** The `forEach` that fills `escenariosPorSku`. */
  method BuildScenarioIndex(rows: seq<ScenarioRow>) returns (index: map<string, map<string, Figures>>)
    ensures index == ScenarioIndex(rows)
  {
    index := map[];
    var i := 0;
    while i < |rows|
      invariant 0 <= i <= |rows|
      invariant index == ScenarioIndex(rows[..i])
    {
      assert rows[..i + 1][..i] == rows[..i];
      var esc := rows[i];
      var key := ScenarioKey(esc);
      if key !in index {
        index := index[key := map[]];
      }
      index := index[key := index[key][esc.escenario := FiguresOf(esc)]];
      i := i + 1;
    }
    assert rows[..i] == rows;
  }

  // ---------------------------------------------------------------------
  // The scenario last applied to each SKU
  // ---------------------------------------------------------------------

  /** A row of the change history of the week, newest first. */
  datatype HistoryEntry = HistoryEntry(nodo: string, cuenta: string, sku: string,
                                       escenario: string, usuario: string, fecha: string)

  datatype Applied = Applied(escenario: string, usuario: string, fecha: string)

  function EntryKey(h: HistoryEntry): string
  {
    SkuKey(h.nodo, h.cuenta, h.sku)
  }

  function AppliedOf(h: HistoryEntry): Applied
  {
    Applied(h.escenario, h.usuario, h.fecha)
  }

  /** `escenarioAplicadoPorSku` after the history rows `hist`: an existing key is never replaced. */
  function AppliedIndex(hist: seq<HistoryEntry>): map<string, Applied>
  {
    if |hist| == 0 then map[]
    else
      var n := |hist| - 1;
      var m := AppliedIndex(hist[..n]);
      if EntryKey(hist[n]) in m then m else m[EntryKey(hist[n]) := AppliedOf(hist[n])]
  }

  /** Entry `i` is the first history row for SKU key `k`. */
  predicate FirstFor(hist: seq<HistoryEntry>, k: string, i: int)
  {
    0 <= i < |hist| && EntryKey(hist[i]) == k && forall j :: 0 <= j < i ==> EntryKey(hist[j]) != k
  }

  /** The index holds the keys of the history, each with the first (newest) row for it. */
  lemma {:induction false} AppliedFirstWins(hist: seq<HistoryEntry>, k: string)
    ensures k in AppliedIndex(hist) <==> exists i :: 0 <= i < |hist| && EntryKey(hist[i]) == k
    ensures k in AppliedIndex(hist) ==> exists i :: FirstFor(hist, k, i) && AppliedIndex(hist)[k] == AppliedOf(hist[i])
  {
    if |hist| > 0 {
      var n := |hist| - 1;
      var prev := hist[..n];
      AppliedFirstWins(prev, k);
      assert forall i :: 0 <= i < n ==> prev[i] == hist[i];
      if k in AppliedIndex(prev) {
        var i :| FirstFor(prev, k, i) && AppliedIndex(prev)[k] == AppliedOf(prev[i]);
        assert FirstFor(hist, k, i);
      } else if EntryKey(hist[n]) == k {
        assert FirstFor(hist, k, n);
      }
    }
  }

  /** The `forEach` that fills `escenarioAplicadoPorSku`. */
  method BuildAppliedIndex(hist: seq<HistoryEntry>) returns (index: map<string, Applied>)
    ensures index == AppliedIndex(hist)
  {
    index := map[];
    var i := 0;
    while i < |hist|
      invariant 0 <= i <= |hist|
      invariant index == AppliedIndex(hist[..i])
    {
      assert hist[..i + 1][..i] == hist[..i];
      var key := EntryKey(hist[i]);
      if key !in index {
        index := index[key := AppliedOf(hist[i])];
      }
      i := i + 1;
    }
    assert hist[..i] == hist;
  }

  // ---------------------------------------------------------------------
  // The filter lists: `[...new Set(values)].filter(Boolean).sort()`
  // ---------------------------------------------------------------------

  /** The order of `Array.prototype.sort` on strings: character by character, a prefix first. */
  predicate LexLe(a: string, b: string)
    decreases |a|
  {
    |a| == 0 || (|b| > 0 && (a[0] < b[0] || (a[0] == b[0] && LexLe(a[1..], b[1..]))))
  }

  lemma {:induction false} LexTotal(a: string, b: string)
    ensures LexLe(a, b) || LexLe(b, a)
    decreases |a|
  {
    if |a| > 0 && |b| > 0 && a[0] == b[0] {
      LexTotal(a[1..], b[1..]);
    }
  }

  lemma {:induction false} LexAntisymmetric(a: string, b: string)
    requires LexLe(a, b) && LexLe(b, a)
    ensures a == b
    decreases |a|
  {
    if |a| > 0 {
      LexAntisymmetric(a[1..], b[1..]);
      assert a == [a[0]] + a[1..] && b == [b[0]] + b[1..];
    }
  }

  lemma {:induction false} LexTransitive(a: string, b: string, c: string)
    requires LexLe(a, b) && LexLe(b, c)
    ensures LexLe(a, c)
    decreases |a|
  {
    if |a| > 0 && a[0] == b[0] && b[0] == c[0] {
      LexTransitive(a[1..], b[1..], c[1..]);
    }
  }

  predicate SortedNames(s: seq<string>)
  {
    forall i, j :: 0 <= i < j < |s| ==> LexLe(s[i], s[j])
  }

  /** `x` placed into the sorted list `s` before the first element above it. */
  function InsertName(x: string, s: seq<string>): (r: seq<string>)
    requires SortedNames(s)
    ensures SortedNames(r)
    ensures multiset(r) == multiset(s) + multiset{x}
  {
    if |s| == 0 then [x]
    else if LexLe(x, s[0]) then
      assert forall j :: 0 <= j < |s| ==> LexLe(x, s[j]) by {
        forall j | 0 <= j < |s| ensures LexLe(x, s[j]) {
          if j > 0 { LexTransitive(x, s[0], s[j]); }
        }
      }
      SortedCons(x, s);
      [x] + s
    else
      LexTotal(x, s[0]);
      var rest := InsertName(x, s[1..]);
      assert s == [s[0]] + s[1..];
      assert forall j :: 0 <= j < |s[1..]| ==> LexLe(s[0], s[1..][j]) by {
        forall j | 0 <= j < |s[1..]| ensures LexLe(s[0], s[1..][j]) {
          assert s[1..][j] == s[1 + j];
        }
      }
      BoundedByMembers(s[0], rest, s[1..], x);
      SortedCons(s[0], rest);
      [s[0]] + rest
  }

  lemma SortedCons(b: string, rest: seq<string>)
    requires SortedNames(rest) && forall j :: 0 <= j < |rest| ==> LexLe(b, rest[j])
    ensures SortedNames([b] + rest)
  {
    forall i, j | 0 <= i < j < |[b] + rest| ensures LexLe(([b] + rest)[i], ([b] + rest)[j]) {
      assert ([b] + rest)[j] == rest[j - 1];
      if i > 0 { assert ([b] + rest)[i] == rest[i - 1]; }
    }
  }

  /** A lower bound of `x` and of every element of `tail` bounds every element of a rearrangement of them. */
  lemma BoundedByMembers(b: string, rest: seq<string>, tail: seq<string>, x: string)
    requires multiset(rest) == multiset(tail) + multiset{x}
    requires LexLe(b, x) && forall j :: 0 <= j < |tail| ==> LexLe(b, tail[j])
    ensures forall j :: 0 <= j < |rest| ==> LexLe(b, rest[j])
  {
    forall j | 0 <= j < |rest| ensures LexLe(b, rest[j]) {
      assert rest[j] in multiset(rest);
      if rest[j] != x {
        assert rest[j] in multiset(tail);
        var m :| 0 <= m < |tail| && tail[m] == rest[j];
      }
    }
  }

  /** `values.sort()` as an insertion sort: sorted, and the same elements as often. */
  function SortNames(values: seq<string>): (r: seq<string>)
    ensures SortedNames(r)
    ensures multiset(r) == multiset(values)
  {
    if |values| == 0 then []
    else
      var n := |values| - 1;
      assert values == values[..n] + [values[n]];
      InsertName(values[n], SortNames(values[..n]))
  }

  /** `.filter(Boolean)` on names: the empty ones dropped. */
  function NonEmptyNames(values: seq<string>): (r: seq<string>)
    ensures forall x :: x in r <==> x in values && x != ""
    ensures multiset(r) <= multiset(values)
  {
    if |values| == 0 then []
    else
      var n := |values| - 1;
      assert values == values[..n] + [values[n]];
      NonEmptyNames(values[..n]) + (if values[n] != "" then [values[n]] else [])
  }

  function FilterList(values: seq<string>): seq<string>
  {
    SortNames(NonEmptyNames(Dedup(values)))
  }

  /** An element occurs at most once in a list without repeats. */
  lemma {:induction false} DistinctOnce(xs: seq<string>, x: string)
    requires Distinct(xs)
    ensures multiset(xs)[x] <= 1
  {
    if |xs| > 0 {
      var n := |xs| - 1;
      assert xs == xs[..n] + [xs[n]];
      assert Distinct(xs[..n]);
      DistinctOnce(xs[..n], x);
      if xs[n] == x {
        assert x !in xs[..n];
      }
    }
  }

  lemma RepeatTwice(xs: seq<string>, i: int, j: int)
    requires 0 <= i < j < |xs|
    ensures xs[i] == xs[j] ==> multiset(xs)[xs[i]] >= 2
  {
    if xs[i] == xs[j] {
      assert xs == xs[..i] + [xs[i]] + xs[i + 1..j] + [xs[j]] + xs[j + 1..];
    }
  }

  /**
   * The channel and account lists hold each non-empty value of the
   * report once, nothing else, in sorted order.
   */
  lemma FilterListShape(values: seq<string>)
    ensures var r := FilterList(values);
            SortedNames(r) && Distinct(r)
            && (forall x :: x in r <==> x in values && x != "")
  {
    var d := Dedup(values);
    var f := NonEmptyNames(d);
    var r := SortNames(f);
    forall i, j | 0 <= i < j < |r| ensures r[i] != r[j] {
      RepeatTwice(r, i, j);
      DistinctOnce(d, r[i]);
    }
    forall x ensures x in r <==> x in f {
      assert x in r <==> x in multiset(r);
      assert x in f <==> x in multiset(f);
    }
  }

  function NodoValues(rows: seq<ReportRow>): (r: seq<string>)
    ensures |r| == |rows| && forall i :: 0 <= i < |rows| ==> r[i] == rows[i].nodo
  {
    seq(|rows|, i requires 0 <= i < |rows| => rows[i].nodo)
  }

  function CuentaValues(rows: seq<ReportRow>): (r: seq<string>)
    ensures |r| == |rows| && forall i :: 0 <= i < |rows| ==> r[i] == rows[i].cuenta
  {
    seq(|rows|, i requires 0 <= i < |rows| => rows[i].cuenta)
  }

  // ---------------------------------------------------------------------
  // The route
  // ---------------------------------------------------------------------

  datatype ReportResponse =
    | MissingWeek
    | InvalidWeek
    | Report(data: seq<ReportRow>, scenarios: map<string, map<string, Figures>>, applied: map<string, Applied>,
             available: seq<string>, nodos: seq<string>, cuentas: seq<string>, total: nat, semana: int, totalScenarios: nat)

  /**
   * GET for the parameters `semana`, `nodo` and `cuenta`, given what the
   * store returns: the report of the week, the whole catalogue, and the
   * week's history newest first.  The channel and account lists come from
   * the unfiltered report.
   */
  method GetPlan(semana: Option<string>, nodo: Option<string>, cuenta: Option<string>,
                 report: seq<ReportRow>, catalogue: seq<ScenarioRow>, history: seq<HistoryEntry>)
    returns (resp: ReportResponse)
    ensures resp == MissingWeek <==> CheckWeek(semana) == NoWeek
    ensures resp == InvalidWeek <==> CheckWeek(semana) == BadWeek
    ensures resp.Report? ==>
              CheckWeek(semana).Week? && resp.semana == CheckWeek(semana).n
              && resp.data == FilterReport(report, nodo, cuenta) && resp.total == |resp.data|
              && resp.scenarios == ScenarioIndex(catalogue) && resp.applied == AppliedIndex(history)
              && resp.available == ScenarioNames
              && resp.nodos == FilterList(NodoValues(report)) && resp.cuentas == FilterList(CuentaValues(report))
              && resp.totalScenarios == |catalogue|
  {
    var week := CheckWeek(semana);
    if week == NoWeek {
      return MissingWeek;
    }
    if week == BadWeek {
      return InvalidWeek;
    }
    var data := FilterReport(report, nodo, cuenta);
    var scenarios := BuildScenarioIndex(catalogue);
    var applied := BuildAppliedIndex(history);
    resp := Report(data, scenarios, applied, ScenarioNames,
                   FilterList(NodoValues(report)), FilterList(CuentaValues(report)), |data|, week.n, |catalogue|);
  }
}
