/**
 * The plan editor's session state: per SKU key and week index, the
 * scenario chosen, whether the week is marked as changed, and a manual
 * quantity; the pending SKU keys; the weeks the bulk actions apply to.
 * The operations of the page change these maps, `Project` resolves the
 * value shown in a cell, and the change list sent on save is built from
 * them.  Week indices are the table's columns: 0..4 the five past weeks,
 * 5 the current week, 6..9 the following ones, of which 7..9 are editable.
 */
module EditSession {
  import opened Base
  import opened Csv
  import opened DemandTable
  import opened PlanReport
  import opened PlanSave

  /** A map from SKU key to a map from week index to a value, as the page keeps its state. */
  type Weekly<V> = map<string, map<int, V>>

  type Catalogue = map<string, map<string, Figures>>

  const ManualScenario: string := "Manual"
  const DefaultScenario: string := "Venta"
  const Unknown: string := "Desconocido"

  predicate Editable(w: int)
  {
    7 <= w <= 9
  }

  /** `m[key]?.[w]`. */
  function At<V>(m: Weekly<V>, key: string, w: int): Option<V>
  {
    if key in m && w in m[key] then Some(m[key][w]) else None
  }

  /** No key maps to an empty inner map. */
  predicate NoEmpty<V>(m: Weekly<V>)
  {
    forall k :: k in m ==> m[k] != map[]
  }

  // ---------------------------------------------------------------------
  // Updates of the weekly maps
  // ---------------------------------------------------------------------

  function SetWeeks<V>(inner: map<int, V>, weeks: set<int>, v: V): map<int, V>
  {
    map x | x in inner.Keys + weeks :: if x in weeks then v else inner[x]
  }

  /** `if (!m[key]) m[key] = {}; weeks.forEach(w => m[key][w] = v)`: only those entries change. */
  function PutAll<V>(m: Weekly<V>, key: string, weeks: set<int>, v: V): (r: Weekly<V>)
    ensures forall k, x :: At(r, k, x) == if k == key && x in weeks then Some(v) else At(m, k, x)
    ensures key in r && forall k :: k in m ==> k in r
  {
    m[key := SetWeeks(if key in m then m[key] else map[], weeks, v)]
  }

  /** `m[key][w] = v`. */
  function Put<V>(m: Weekly<V>, key: string, w: int, v: V): (r: Weekly<V>)
    ensures forall k, x :: At(r, k, x) == if k == key && x == w then Some(v) else At(m, k, x)
  {
    PutAll(m, key, {w}, v)
  }

  /**
   * Deleting the weeks of `key` and then the key itself when nothing is
   * left: only those entries disappear, and no empty entry is left behind.
   */
  function DropWeeks<V>(m: Weekly<V>, key: string, weeks: set<int>): (r: Weekly<V>)
    ensures forall k, x :: At(r, k, x) == if k == key && x in weeks then None else At(m, k, x)
    ensures NoEmpty(m) ==> NoEmpty(r)
  {
    if key !in m then m
    else
      var inner := m[key] - weeks;
      if inner == map[] then
        assert forall x :: x in m[key] && x !in weeks ==> x in inner;
        m - {key}
      else m[key := inner]
  }

  /** `delete m[key]`. */
  function RemoveKey<V>(m: Weekly<V>, key: string): (r: Weekly<V>)
    ensures key !in r
    ensures forall k, x :: At(r, k, x) == if k == key then None else At(m, k, x)
  {
    m - {key}
  }

  // ---------------------------------------------------------------------
  // The pending keys and the selected weeks
  // ---------------------------------------------------------------------

  /** `new Set(p).add(key)`: appended at the end unless already present. */
  function AddPending(p: seq<string>, key: string): (r: seq<string>)
    ensures forall x :: x in r <==> x in p || x == key
    ensures Distinct(p) ==> Distinct(r)
    ensures |r| >= |p| && r[..|p|] == p
  {
    if key in p then p else p + [key]
  }

  /** `set.delete(key)`: the other keys in their order. */
  function RemovePending(p: seq<string>, key: string): (r: seq<string>)
    ensures forall x :: x in r <==> x in p && x != key
    ensures Distinct(p) ==> Distinct(r)
  {
    if |p| == 0 then []
    else
      var n := |p| - 1;
      var prev := RemovePending(p[..n], key);
      assert p == p[..n] + [p[n]];
      if p[n] == key then prev
      else
        assert Distinct(p) ==> Distinct(p[..n]) && p[n] !in prev;
        prev + [p[n]]
  }

  /** `toggleSemanaSeleccionada`: the week leaves the set if it was in it, joins it otherwise. */
  function Toggle(s: set<int>, w: int): (r: set<int>)
    ensures w in r <==> w !in s
    ensures forall x :: x != w ==> (x in r <==> x in s)
  {
    if w in s then s - {w} else s + {w}
  }

  /** Toggling the same week twice restores the selection. */
  lemma ToggleTwice(s: set<int>, w: int)
    ensures Toggle(Toggle(s, w), w) == s
  {
    assert forall x :: x in Toggle(Toggle(s, w), w) <==> x in s;
  }

  // ---------------------------------------------------------------------
  // Reading the state
  // ---------------------------------------------------------------------

  /** `Plan_demanda_j || 0` for j in 0..4. */
  function PlanAt(row: ReportRow, j: int): real
  {
    OrZero(if j == 0 then row.plan0 else if j == 1 then row.plan1 else if j == 2 then row.plan2
           else if j == 3 then row.plan3 else if j == 4 then row.plan4 else None)
  }

  /** `escenariosPorSku[key]?.[esc]`. */
  function FiguresFor(cat: Catalogue, key: string, esc: string): Option<Figures>
  {
    if key in cat && esc in cat[key] then Some(cat[key][esc]) else None
  }

  predicate TruthyAt(chosen: Weekly<string>, key: string, w: int)
  {
    At(chosen, key, w).Some? && At(chosen, key, w).value != ""
  }

  /** The scenario a marked week shows: chosen, not `Manual`, and present in the catalogue. */
  function AppliedFigures(marks: Weekly<bool>, chosen: Weekly<string>, cat: Catalogue, key: string, w: int): Option<Figures>
  {
    if At(marks, key, w) == Some(true) && TruthyAt(chosen, key, w) && At(chosen, key, w).value != ManualScenario
    then FiguresFor(cat, key, At(chosen, key, w).value)
    else None
  }

  datatype Projection = Projection(val: int, fromEscenario: bool, fromManual: bool, editable: bool)

  /**
   * `getProjectedValue`: a manual value of an editable week wins; then the
   * applied scenario of an editable week; then the plan of weeks 5..9; any
   * other week shows 0.  Values are rounded as `Math.round` does.
   */
  function Project(manual: Weekly<real>, marks: Weekly<bool>, chosen: Weekly<string>, cat: Catalogue,
                   row: ReportRow, w: int): (p: Projection)
    ensures p.editable <==> Editable(w)
    ensures p.fromManual <==> Editable(w) && At(manual, RowKey(row), w).Some?
    ensures p.fromManual ==> !p.fromEscenario && p.val == Round(At(manual, RowKey(row), w).value)
    ensures p.fromEscenario <==> Editable(w) && At(manual, RowKey(row), w).None?
                                 && AppliedFigures(marks, chosen, cat, RowKey(row), w).Some?
    ensures p.fromEscenario ==> p.val == Round(AppliedFigures(marks, chosen, cat, RowKey(row), w).value.cantidad)
    ensures !p.fromManual && !p.fromEscenario ==> p.val == (if 5 <= w <= 9 then Round(PlanAt(row, w - 5)) else 0)
  {
    var key := RowKey(row);
    var editable := Editable(w);
    if At(manual, key, w).Some? && editable then
      Projection(Round(At(manual, key, w).value), false, true, true)
    else if editable && AppliedFigures(marks, chosen, cat, key, w).Some? then
      Projection(Round(AppliedFigures(marks, chosen, cat, key, w).value.cantidad), true, false, true)
    else if 0 <= w - 5 < 5 then
      Projection(Round(PlanAt(row, w - 5)), false, false, editable)
    else
      Projection(0, false, false, false)
  }

  /** Read-only weeks always show the plan, whatever the session holds. */
  lemma ReadOnlyShowsPlan(manual: Weekly<real>, marks: Weekly<bool>, chosen: Weekly<string>, cat: Catalogue,
                          row: ReportRow, w: int)
    requires 5 <= w <= 6
    ensures Project(manual, marks, chosen, cat, row, w) == Projection(Round(PlanAt(row, w - 5)), false, false, false)
  {
  }

  /** After a manual value is set for an editable week, the cell shows it rounded. */
  lemma ManualValueShown(manual: Weekly<real>, marks: Weekly<bool>, chosen: Weekly<string>, cat: Catalogue,
                         row: ReportRow, w: int, v: real)
    requires Editable(w)
    ensures var p := Project(Put(manual, RowKey(row), w, v), Put(marks, RowKey(row), w, true), chosen, cat, row, w);
            p.fromManual && p.val == Round(v)
  {
    assert At(Put(manual, RowKey(row), w, v), RowKey(row), w) == Some(v);
  }

  /**
   * After a non-manual scenario is chosen for an editable week, the cell
   * shows the scenario's rounded quantity when the catalogue holds it, and
   * the plan otherwise.
   */
  lemma ChosenScenarioShown(manual: Weekly<real>, marks: Weekly<bool>, chosen: Weekly<string>, cat: Catalogue,
                            row: ReportRow, w: int, esc: string)
    requires Editable(w) && esc != ManualScenario && esc != ""
    ensures var key := RowKey(row);
            var p := Project(DropWeeks(manual, key, {w}), Put(marks, key, w, true), Put(chosen, key, w, esc), cat, row, w);
            !p.fromManual
            && (FiguresFor(cat, key, esc).Some? ==> p.fromEscenario && p.val == Round(FiguresFor(cat, key, esc).value.cantidad))
            && (FiguresFor(cat, key, esc).None? ==> !p.fromEscenario && p.val == Round(PlanAt(row, w - 5)))
  {
    var key := RowKey(row);
    assert At(DropWeeks(manual, key, {w}), key, w).None?;
    assert At(Put(marks, key, w, true), key, w) == Some(true);
    assert At(Put(chosen, key, w, esc), key, w) == Some(esc);
  }

  /** Once a SKU's scenario is removed, every week of it shows the plan again. */
  lemma RemovedShowsPlan(manual: Weekly<real>, marks: Weekly<bool>, chosen: Weekly<string>, cat: Catalogue,
                         row: ReportRow, w: int)
    ensures var key := RowKey(row);
            var p := Project(RemoveKey(manual, key), RemoveKey(marks, key), RemoveKey(chosen, key), cat, row, w);
            !p.fromManual && !p.fromEscenario && p.val == (if 5 <= w <= 9 then Round(PlanAt(row, w - 5)) else 0)
  {
    var key := RowKey(row);
    assert At(RemoveKey(manual, key), key, w).None?;
    assert At(RemoveKey(marks, key), key, w).None?;
  }

  /** `getEscenarioSku`: the first truthy scenario among weeks 7, 8, 9, else `Venta`. */
  function SkuScenario(chosen: Weekly<string>, key: string): (e: string)
    ensures (forall w :: 7 <= w <= 9 ==> !TruthyAt(chosen, key, w)) ==> e == DefaultScenario
    ensures forall w :: 7 <= w <= 9 && TruthyAt(chosen, key, w) && (forall v :: 7 <= v < w ==> !TruthyAt(chosen, key, v))
                        ==> e == At(chosen, key, w).value
  {
    if key !in chosen then DefaultScenario
    else if TruthyAt(chosen, key, 7) then At(chosen, key, 7).value
    else if TruthyAt(chosen, key, 8) then At(chosen, key, 8).value
    else if TruthyAt(chosen, key, 9) then At(chosen, key, 9).value
    else DefaultScenario
  }

  /** `tieneEscenarios`: the catalogue holds at least one scenario for the key. */
  predicate HasScenarios(cat: Catalogue, key: string)
  {
    key in cat && cat[key] != map[]
  }

  // ---------------------------------------------------------------------
  // Column labels and cell colour
  // ---------------------------------------------------------------------

  const DefaultLabels: seq<string> := ["S-5", "S-4", "S-3", "S-2", "S-1", "S0", "S+1", "S+2", "S+3", "S+4"]

  /** The week number of column `k`: the five past weeks, then the current and four next. */
  function WeekNumberAt(row: ReportRow, k: int): int
  {
    if k == 0 then row.semanaVR1 else if k == 1 then row.semanaVR2 else if k == 2 then row.semanaVR3
    else if k == 3 then row.semanaVR4 else if k == 4 then row.semanaVR5 else if k == 5 then row.semanaPD0
    else if k == 6 then row.semanaPD1 else if k == 7 then row.semanaPD2 else if k == 8 then row.semanaPD3
    else row.semanaPD4
  }

  /** `getWeekLabels`: `String(week || default)` per column, the defaults without a row. */
  function WeekLabels(row: Option<ReportRow>): (ls: seq<string>)
    ensures |ls| == 10
    ensures forall k :: 0 <= k < 10 ==>
              ls[k] == if row.Some? && WeekNumberAt(row.value, k) != 0 then IntToString(WeekNumberAt(row.value, k)) else DefaultLabels[k]
  {
    if row.None? then DefaultLabels
    else
      seq(10, k requires 0 <= k < 10 =>
        if WeekNumberAt(row.value, k) != 0 then IntToString(WeekNumberAt(row.value, k)) else DefaultLabels[k])
  }

  /** A label reads back as its week number, and a default label reads as no number at all. */
  lemma WeekLabelReadsBack(row: Option<ReportRow>, k: int)
    requires 0 <= k < 10
    ensures ParseInt(WeekLabels(row)[k]) == if row.Some? && WeekNumberAt(row.value, k) != 0 then Some(WeekNumberAt(row.value, k)) else None
  {
    if row.Some? && WeekNumberAt(row.value, k) != 0 {
      ParseIntOfString(WeekNumberAt(row.value, k));
    } else {
      assert WeekLabels(row)[k] == DefaultLabels[k];
      DefaultLabelNoNumber(k);
    }
  }

  /** A default label starts with `S`, so it holds no number. */
  lemma DefaultLabelNoNumber(k: int)
    requires 0 <= k < 10
    ensures ParseInt(DefaultLabels[k]) == None
  {
    var d := DefaultLabels[k];
    assert |d| > 0 && d[0] == 'S';
    assert TrimStart(d) == d;
    assert DropSign(d) == d;
    assert LeadingDigits(d) == 0;
  }

  datatype Heat = Heat0 | Heat1 | Heat2

  /** `heatClass`: 18 and above is the hottest, 10 and above the middle. */
  function HeatClass(v: int): (h: Heat)
    ensures h == Heat2 <==> v >= 18
    ensures h == Heat1 <==> 10 <= v < 18
  {
    if v >= 18 then Heat2 else if v >= 10 then Heat1 else Heat0
  }

  function HeatRank(h: Heat): nat
  {
    match h
    case Heat0 => 0
    case Heat1 => 1
    case Heat2 => 2
  }

  /** A larger value is never shown cooler. */
  lemma HeatMonotone(a: int, b: int)
    requires a <= b
    ensures HeatRank(HeatClass(a)) <= HeatRank(HeatClass(b))
  {
  }

  // ---------------------------------------------------------------------
  // The table filter
  // ---------------------------------------------------------------------

  /** The search text occurs, case-insensitively, in the SKU, the name or the account. */
  predicate SearchHit(row: ReportRow, q: string)
  {
    Includes(ToLower(row.sku), q) || (row.nombre.Some? && Includes(ToLower(row.nombre.value), q)) || Includes(ToLower(row.cuenta), q)
  }

  predicate Shown(row: ReportRow, search: string, portafolio: string, segmentacion: string)
  {
    (search == "" || SearchHit(row, ToLower(search)))
    && (portafolio == "Todos" || row.portafolio == Some(portafolio))
    && (segmentacion == "Todos" || row.segmentacion == Some(segmentacion))
  }

  /** `filteredData`: the rows shown, in table order. */
  function FilteredData(data: seq<ReportRow>, search: string, portafolio: string, segmentacion: string): (r: seq<ReportRow>)
    ensures |r| <= |data|
  {
    if |data| == 0 then []
    else
      var n := |data| - 1;
      FilteredData(data[..n], search, portafolio, segmentacion) + (if Shown(data[n], search, portafolio, segmentacion) then [data[n]] else [])
  }

  /** The filtered table holds exactly the rows that pass the search and both selectors. */
  lemma {:induction false} FilteredMembers(data: seq<ReportRow>, search: string, portafolio: string, segmentacion: string, x: ReportRow)
    ensures x in FilteredData(data, search, portafolio, segmentacion) <==> x in data && Shown(x, search, portafolio, segmentacion)
  {
    if |data| > 0 {
      var n := |data| - 1;
      FilteredMembers(data[..n], search, portafolio, segmentacion, x);
      assert data == data[..n] + [data[n]];
    }
  }

  /** With no search and both selectors on `Todos`, the whole table is shown. */
  lemma {:induction false} NothingFiltered(data: seq<ReportRow>)
    ensures FilteredData(data, "", "Todos", "Todos") == data
  {
    if |data| > 0 {
      var n := |data| - 1;
      NothingFiltered(data[..n]);
      ShownUnfiltered(data[n]);
      assert data == data[..n] + [data[n]];
    }
  }

  lemma ShownUnfiltered(row: ReportRow)
    ensures Shown(row, "", "Todos", "Todos")
  {
  }

  // ---------------------------------------------------------------------
  // The bulk scenario action
  // ---------------------------------------------------------------------

  datatype Scope = AllRows | SelectedRows

  /** `targetSkus`: the selection, or the keys of every row shown. */
  function Targets(scope: Scope, selectedSkus: set<string>, shown: seq<ReportRow>): set<string>
  {
    if scope == SelectedRows then selectedSkus else set i | 0 <= i < |shown| :: RowKey(shown[i])
  }

  /** `!targetSkus.has(key) && aplicarA === 'selected' && !selectedSkus.has(row.Sku_Seller)`. */
  predicate Skipped(scope: Scope, targets: set<string>, selectedSkus: set<string>, row: ReportRow)
  {
    RowKey(row) !in targets && scope == SelectedRows && row.sku !in selectedSkus
  }

  /** The part of the state the bulk action changes. */
  datatype Marking = Marking(chosen: Weekly<string>, marks: Weekly<bool>, pending: seq<string>)

  /** A row the bulk action reaches and that has scenarios. */
  predicate Touched(scope: Scope, targets: set<string>, selectedSkus: set<string>, cat: Catalogue, row: ReportRow)
  {
    !Skipped(scope, targets, selectedSkus, row) && HasScenarios(cat, RowKey(row))
  }

  function ApplyRow(st: Marking, row: ReportRow, weeks: set<int>, esc: string, touched: bool): Marking
  {
    if !touched then st
    else
      var key := RowKey(row);
      Marking(PutAll(st.chosen, key, weeks, esc), PutAll(st.marks, key, weeks, true), AddPending(st.pending, key))
  }

  /** The bulk action over the rows shown, in order. */
  function ApplyRows(st: Marking, rows: seq<ReportRow>, weeks: set<int>, esc: string,
                     scope: Scope, targets: set<string>, selectedSkus: set<string>, cat: Catalogue): Marking
  {
    if |rows| == 0 then st
    else
      var n := |rows| - 1;
      ApplyRow(ApplyRows(st, rows[..n], weeks, esc, scope, targets, selectedSkus, cat), rows[n], weeks, esc,
               Touched(scope, targets, selectedSkus, cat, rows[n]))
  }

  /** Some row of `rows` with key `k` is touched. */
  predicate TouchedKey(rows: seq<ReportRow>, k: string, scope: Scope, targets: set<string>, selectedSkus: set<string>, cat: Catalogue)
  {
    exists i :: 0 <= i < |rows| && RowKey(rows[i]) == k && Touched(scope, targets, selectedSkus, cat, rows[i])
  }

  /**
   * The bulk action sets the chosen scenario and the mark of every
   * selected week of the touched keys, adds those keys to the pending
   * ones, and changes nothing else.
   */
  lemma {:induction false} ApplyRowsEffect(st: Marking, rows: seq<ReportRow>, weeks: set<int>, esc: string,
                                           scope: Scope, targets: set<string>, selectedSkus: set<string>, cat: Catalogue,
                                           k: string, w: int)
    ensures var t := ApplyRows(st, rows, weeks, esc, scope, targets, selectedSkus, cat);
            var hit := TouchedKey(rows, k, scope, targets, selectedSkus, cat);
            At(t.chosen, k, w) == (if hit && w in weeks then Some(esc) else At(st.chosen, k, w))
            && At(t.marks, k, w) == (if hit && w in weeks then Some(true) else At(st.marks, k, w))
            && (k in t.pending <==> k in st.pending || hit)
            && (Distinct(st.pending) ==> Distinct(t.pending))
  {
    if |rows| > 0 {
      var n := |rows| - 1;
      ApplyRowsEffect(st, rows[..n], weeks, esc, scope, targets, selectedSkus, cat, k, w);
      TouchedKeySnoc(rows, k, scope, targets, selectedSkus, cat);
    }
  }

  lemma TouchedKeySnoc(rows: seq<ReportRow>, k: string, scope: Scope, targets: set<string>, selectedSkus: set<string>, cat: Catalogue)
    requires |rows| > 0
    ensures var n := |rows| - 1;
            TouchedKey(rows, k, scope, targets, selectedSkus, cat) <==>
              TouchedKey(rows[..n], k, scope, targets, selectedSkus, cat)
              || (RowKey(rows[n]) == k && Touched(scope, targets, selectedSkus, cat, rows[n]))
  {
    var n := |rows| - 1;
    assert forall i :: 0 <= i < n ==> rows[..n][i] == rows[i];
  }

  /**
   * Which rows the bulk action reaches: every shown row in `all` mode; in
   * `selected` mode only those whose key or whose SKU is selected, and
   * only rows with scenarios are touched.
   */
  lemma TouchedRows(scope: Scope, selectedSkus: set<string>, shown: seq<ReportRow>, cat: Catalogue, i: int)
    requires 0 <= i < |shown|
    ensures var targets := Targets(scope, selectedSkus, shown);
            Touched(scope, targets, selectedSkus, cat, shown[i]) <==>
              HasScenarios(cat, RowKey(shown[i]))
              && (scope == AllRows || RowKey(shown[i]) in selectedSkus || shown[i].sku in selectedSkus)
  {
  }

  // ---------------------------------------------------------------------
  // The change list of a save
  // ---------------------------------------------------------------------

  /** `data.find(r => getSkuKey(r) === key)`. */
  function FindRow(data: seq<ReportRow>, key: string): (r: Option<ReportRow>)
    ensures r.Some? ==> r.value in data && RowKey(r.value) == key
    ensures r.None? ==> forall i :: 0 <= i < |data| ==> RowKey(data[i]) != key
    ensures r.Some? ==> exists i :: 0 <= i < |data| && data[i] == r.value && forall j :: 0 <= j < i ==> RowKey(data[j]) != key
  {
    if |data| == 0 then None
    else if RowKey(data[0]) == key then Some(data[0])
    else
      var r := FindRow(data[1..], key);
      assert forall i :: 1 <= i < |data| ==> data[i] == data[1..][i - 1];
      if r.Some? then
        var i :| 0 <= i < |data[1..]| && data[1..][i] == r.value && forall j :: 0 <= j < i ==> RowKey(data[1..][j]) != key;
        assert data[i + 1] == r.value;
        assert forall j :: 0 <= j < i + 1 ==> RowKey(data[j]) != key by {
          forall j | 0 <= j < i + 1 ensures RowKey(data[j]) != key {
            if j > 0 {
              assert data[j] == data[1..][j - 1];
            }
          }
        }
        r
      else r
  }

  /** The week number a week index is saved under: `Semana_PD_2..4`. */
  function SemanaOf(row: ReportRow, w: int): int
  {
    if w == 7 then row.semanaPD2 else if w == 8 then row.semanaPD3 else if w == 9 then row.semanaPD4 else 0
  }

  /** A piece of `key.split('|')`, `undefined` past the end. */
  function Piece(parts: seq<string>, i: nat): Option<string>
  {
    if i < |parts| then Some(parts[i]) else None
  }

  /** `escenarioSeleccionado[key]?.[w] || 'Venta'`. */
  function WeekScenario(chosen: Weekly<string>, key: string, w: int): (e: string)
    ensures e == if TruthyAt(chosen, key, w) then At(chosen, key, w).value else DefaultScenario
  {
    if TruthyAt(chosen, key, w) then At(chosen, key, w).value else DefaultScenario
  }

  /**
   * The change of one week: none for a week without a week number or
   * without a manual value and a mark.  A manual value is sent with list
   * price 0 and action `Carga_Manual`; otherwise the scenario's quantity
   * and price, 0 when the catalogue lacks them, under the scenario's name.
   */
  function WeekChange(key: string, row: ReportRow, w: int, manual: Weekly<real>, marks: Weekly<bool>,
                      chosen: Weekly<string>, cat: Catalogue): (r: Option<Change>)
    ensures r.Some? <==> SemanaOf(row, w) != 0 && (At(manual, key, w).Some? || At(marks, key, w) == Some(true))
    ensures r.Some? ==> var c := r.value;
              c.semana == Some(SemanaOf(row, w)) && c.plan.Some? && c.pvp.Some? && c.accion.Some?
              && c.escenario == Some(WeekScenario(chosen, key, w))
              && c.nodo == Piece(Split(key, '|'), 0) && c.cuenta == Piece(Split(key, '|'), 1) && c.sku == Piece(Split(key, '|'), 2)
    ensures r.Some? && At(manual, key, w).Some? ==>
              r.value.plan == At(manual, key, w) && r.value.pvp == Some(0.0) && r.value.accion == Some(ManualLoad)
    ensures r.Some? && At(manual, key, w).None? ==>
              var f := FiguresFor(cat, key, WeekScenario(chosen, key, w));
              r.value.plan == Some(if f.Some? then f.value.cantidad else 0.0)
              && r.value.pvp == Some(if f.Some? then f.value.precio else 0.0)
              && r.value.accion == Some(WeekScenario(chosen, key, w))
  {
    var semana := SemanaOf(row, w);
    var parts := Split(key, '|');
    if semana == 0 || (At(manual, key, w).None? && At(marks, key, w) != Some(true)) then None
    else
      var esc := WeekScenario(chosen, key, w);
      var base := Change(Piece(parts, 0), Piece(parts, 1), Piece(parts, 2), Some(semana), None, None, None, Some(esc));
      if At(manual, key, w).Some? then
        Some(base.(plan := At(manual, key, w), pvp := Some(0.0), accion := Some(ManualLoad)))
      else
        var f := FiguresFor(cat, key, esc);
        Some(base.(plan := Some(if f.Some? then f.value.cantidad else 0.0),
                   pvp := Some(if f.Some? then f.value.precio else 0.0), accion := Some(esc)))
  }

  function AsSeq<T>(x: Option<T>): seq<T>
  {
    if x.Some? then [x.value] else []
  }

  /** The changes of weeks 7 .. 7 + n - 1 of one key. */
  function WeeksUpTo(key: string, row: ReportRow, n: nat, manual: Weekly<real>, marks: Weekly<bool>,
                     chosen: Weekly<string>, cat: Catalogue): seq<Change>
  {
    if n == 0 then []
    else WeeksUpTo(key, row, n - 1, manual, marks, chosen, cat) + AsSeq(WeekChange(key, row, 7 + n - 1, manual, marks, chosen, cat))
  }

  /** The changes of one pending key: none when no row of the table has it. */
  function KeyChanges(key: string, data: seq<ReportRow>, manual: Weekly<real>, marks: Weekly<bool>,
                      chosen: Weekly<string>, cat: Catalogue): seq<Change>
  {
    match FindRow(data, key)
    case None => []
    case Some(row) => WeeksUpTo(key, row, 3, manual, marks, chosen, cat)
  }

  /** The changes sent on save, key by key in pending order. */
  function SaveList(keys: seq<string>, data: seq<ReportRow>, manual: Weekly<real>, marks: Weekly<bool>,
                      chosen: Weekly<string>, cat: Catalogue): seq<Change>
  {
    if |keys| == 0 then []
    else SaveList(keys[..|keys| - 1], data, manual, marks, chosen, cat) + KeyChanges(keys[|keys| - 1], data, manual, marks, chosen, cat)
  }

  /** Every change of a key's weeks comes from one of weeks 7..7+n-1. */
  lemma {:induction false} WeeksUpToFrom(key: string, row: ReportRow, n: nat, manual: Weekly<real>, marks: Weekly<bool>,
                                         chosen: Weekly<string>, cat: Catalogue, c: Change)
    requires c in WeeksUpTo(key, row, n, manual, marks, chosen, cat)
    ensures exists w :: 7 <= w < 7 + n && WeekChange(key, row, w, manual, marks, chosen, cat) == Some(c)
  {
    var prev := WeeksUpTo(key, row, n - 1, manual, marks, chosen, cat);
    if c in prev {
      WeeksUpToFrom(key, row, n - 1, manual, marks, chosen, cat, c);
    } else {
      assert WeekChange(key, row, 7 + n - 1, manual, marks, chosen, cat) == Some(c);
    }
  }

  /**
   * Every change on the list comes from a pending key with a row in the
   * table and from one of its editable weeks, with that row's week number.
   */
  lemma {:induction false} SaveListFrom(keys: seq<string>, data: seq<ReportRow>, manual: Weekly<real>, marks: Weekly<bool>,
                                          chosen: Weekly<string>, cat: Catalogue, c: Change)
    requires c in SaveList(keys, data, manual, marks, chosen, cat)
    ensures exists k, w, row :: k in keys && Editable(w) && row in data && RowKey(row) == k
              && WeekChange(k, row, w, manual, marks, chosen, cat) == Some(c)
  {
    var n := |keys| - 1;
    var prev := SaveList(keys[..n], data, manual, marks, chosen, cat);
    if c in prev {
      SaveListFrom(keys[..n], data, manual, marks, chosen, cat, c);
      var k, w, row :| k in keys[..n] && Editable(w) && row in data && RowKey(row) == k
                       && WeekChange(k, row, w, manual, marks, chosen, cat) == Some(c);
      assert k in keys;
    } else {
      var row := FindRow(data, keys[n]).value;
      WeeksUpToFrom(keys[n], row, 3, manual, marks, chosen, cat, c);
      var w :| 7 <= w < 10 && WeekChange(keys[n], row, w, manual, marks, chosen, cat) == Some(c);
      assert keys[n] in keys;
    }
  }

  /** Splitting on `|` a text that holds none before a `|` gives that text as the first piece. */
  lemma {:induction false} SplitFirst(a: string, rest: string, cur: string)
    requires '|' !in a
    ensures SplitFrom(a + "|" + rest, {'|'}, cur) == [cur + a] + SplitFrom(rest, {'|'}, "")
    decreases |a|
  {
    if |a| == 0 {
      assert a + "|" + rest == "|" + rest;
      assert ("|" + rest)[1..] == rest;
      assert cur + a == cur;
    } else {
      assert (a + "|" + rest)[1..] == a[1..] + "|" + rest;
      assert (a + "|" + rest)[0] == a[0];
      SplitFirst(a[1..], rest, cur + [a[0]]);
      assert cur + [a[0]] + a[1..] == cur + a;
    }
  }

  lemma {:induction false} SplitNone(a: string, cur: string)
    requires '|' !in a
    ensures SplitFrom(a, {'|'}, cur) == [cur + a]
    decreases |a|
  {
    if |a| == 0 {
      assert cur + a == cur;
    } else {
      SplitNone(a[1..], cur + [a[0]]);
      assert cur + [a[0]] + a[1..] == cur + a;
    }
  }

  /** `key.split('|')` recovers channel, account and SKU when none of them holds a `|`. */
  lemma SplitSkuKey(nodo: string, cuenta: string, sku: string)
    requires '|' !in nodo && '|' !in cuenta && '|' !in sku
    ensures Split(SkuKey(nodo, cuenta, sku), '|') == [nodo, cuenta, sku]
  {
    assert SkuKey(nodo, cuenta, sku) == nodo + "|" + (cuenta + "|" + sku);
    SplitFirst(nodo, cuenta + "|" + sku, "");
    SplitFirst(cuenta, sku, "");
    SplitNone(sku, "");
    assert "" + nodo == nodo && "" + cuenta == cuenta && "" + sku == sku;
  }

  /**
   * A change built for a row whose channel, account and SKU are non-empty
   * and free of `|` passes the route's key check with that row's key and
   * that week number, and all three fields are written, so its history
   * row says `multiple`.
   */
  lemma SentChangeAccepted(row: ReportRow, w: int, manual: Weekly<real>, marks: Weekly<bool>,
                           chosen: Weekly<string>, cat: Catalogue, current: Option<PlanRow>, who: Sender)
    requires row.nodo != "" && row.cuenta != "" && row.sku != ""
    requires '|' !in row.nodo && '|' !in row.cuenta && '|' !in row.sku
    requires WeekChange(RowKey(row), row, w, manual, marks, chosen, cat).Some?
    ensures var c := WeekChange(RowKey(row), row, w, manual, marks, chosen, cat).value;
            KeyPresent(c) && KeyOf(c) == ByKey(SemanaOf(row, w), row.nodo, row.cuenta, row.sku)
            && |FieldChanges(c, current)| == 3 && HistoryOf(c, FieldChanges(c, current), who).campo == Multiple
  {
    SplitSkuKey(row.nodo, row.cuenta, row.sku);
    var c := WeekChange(RowKey(row), row, w, manual, marks, chosen, cat).value;
    assert |FieldChanges(c, current)| == 3;
  }

  // ---------------------------------------------------------------------
  // The export
  // ---------------------------------------------------------------------

  /**
   * The values of one exported row: identity and name, the five past
   * sales, the projected values of weeks 5..9, the row's scenario and its
   * price.  `show` is `String(x)` on a number that need not be whole.
   */
  function ExportValues(row: ReportRow, manual: Weekly<real>, marks: Weekly<bool>, chosen: Weekly<string>,
                        cat: Catalogue, show: real -> string): (vs: seq<string>)
    ensures |vs| == 16
  {
    var key := RowKey(row);
    var esc := SkuScenario(chosen, key);
    var f := FiguresFor(cat, key, esc);
    [row.nodo, row.cuenta, row.sku, if row.nombre.Some? then row.nombre.value else "",
     show(OrZero(row.ventaReal1)), show(OrZero(row.ventaReal2)), show(OrZero(row.ventaReal3)),
     show(OrZero(row.ventaReal4)), show(OrZero(row.ventaReal5))]
    + seq(5, j requires 0 <= j < 5 => IntToString(Project(manual, marks, chosen, cat, row, 5 + j).val))
    + [esc, show(if f.Some? then f.value.precio else 0.0)]
  }

  /** An exported row: every value in quotes, inner quotes doubled, joined with ','. */
  function ExportLine(row: ReportRow, manual: Weekly<real>, marks: Weekly<bool>, chosen: Weekly<string>,
                      cat: Catalogue, show: real -> string): string
  {
    QuotedLine(ExportValues(row, manual, marks, chosen, cat, show))
  }

  /** An exported row reads back, with a quote-aware scanner, as its sixteen values (trimmed). */
  lemma ExportReadsBack(row: ReportRow, manual: Weekly<real>, marks: Weekly<bool>, chosen: Weekly<string>,
                        cat: Catalogue, show: real -> string)
    ensures ScanEsc(ExportLine(row, manual, marks, chosen, cat, show), ScenarioSeps, "", false)
            == TrimAll(ExportValues(row, manual, marks, chosen, cat, show))
  {
    QuotedLineRoundTrip(ExportValues(row, manual, marks, chosen, cat, show));
  }

  // ---------------------------------------------------------------------
  // The session
  // ---------------------------------------------------------------------

  class Session {
    /** `escenarioSeleccionado`. */
    var chosen: Weekly<string>
    /** `semanasConEscenario`. */
    var marks: Weekly<bool>
    /** `valoresManuales`. */
    var manual: Weekly<real>
    /** `cambiosPendientes`, in insertion order. */
    var pending: seq<string>
    /** `semanasSeleccionadas`. */
    var weeks: set<int>
    var selectedSkus: set<string>
    /** The loaded report and catalogue. */
    var data: seq<ReportRow>
    var catalogue: Catalogue

    ghost predicate Valid()
      reads this
    {
      Distinct(pending) && NoEmpty(manual)
    }

    constructor (rows: seq<ReportRow>, cat: Catalogue)
      ensures Valid()
      ensures chosen == map[] && marks == map[] && manual == map[] && pending == []
      ensures weeks == {7, 8, 9} && selectedSkus == {} && data == rows && catalogue == cat
    {
      chosen, marks, manual, pending := map[], map[], map[], [];
      weeks, selectedSkus := {7, 8, 9}, {};
      data, catalogue := rows, cat;
    }

    function Projected(row: ReportRow, w: int): Projection
      reads this
    {
      Project(manual, marks, chosen, catalogue, row, w)
    }

    /** `cambiarEscenarioSemana`. */
    method ChangeWeekScenario(key: string, w: int, esc: string)
      requires Valid()
      modifies this`chosen, this`marks, this`manual, this`pending
      ensures Valid()
      ensures chosen == Put(old(chosen), key, w, esc)
      ensures marks == Put(old(marks), key, w, true)
      ensures manual == if esc == ManualScenario then old(manual) else DropWeeks(old(manual), key, {w})
      ensures pending == AddPending(old(pending), key)
    {
      if esc == ManualScenario {
        marks := Put(marks, key, w, true);
      } else {
        manual := DropWeeks(manual, key, {w});
        marks := Put(marks, key, w, true);
      }
      chosen := Put(chosen, key, w, esc);
      pending := AddPending(pending, key);
    }

    /** `cambiarEscenarioSku`: the scenario for every selected week. */
    method ChangeSkuScenario(key: string, esc: string)
      requires Valid()
      modifies this`chosen, this`marks, this`manual, this`pending
      ensures Valid()
      ensures chosen == PutAll(old(chosen), key, weeks, esc)
      ensures marks == if esc == ManualScenario then old(marks) else PutAll(old(marks), key, weeks, true)
      ensures manual == if esc == ManualScenario then old(manual) else DropWeeks(old(manual), key, weeks)
      ensures pending == AddPending(old(pending), key)
    {
      chosen := PutAll(chosen, key, weeks, esc);
      if esc != ManualScenario {
        manual := DropWeeks(manual, key, weeks);
        marks := PutAll(marks, key, weeks, true);
      }
      pending := AddPending(pending, key);
    }

    /** `setValorManual`: only that week's value and mark change. */
    method SetManualValue(key: string, w: int, v: real)
      requires Valid()
      modifies this`marks, this`manual, this`pending
      ensures Valid()
      ensures manual == Put(old(manual), key, w, v)
      ensures marks == Put(old(marks), key, w, true)
      ensures pending == AddPending(old(pending), key)
    {
      manual := Put(manual, key, w, v);
      assert manual[key] != map[] by {
        assert At(manual, key, w) == Some(v);
      }
      marks := Put(marks, key, w, true);
      pending := AddPending(pending, key);
    }

    /**
     * `handleCellClick`: a click on an editable cell (weeks 7..9) marks
     * that week of the row's key and makes the key pending; a click on
     * any other cell changes no edit state.
     */
    method ClickCell(row: ReportRow, w: int)
      requires Valid()
      modifies this`marks, this`pending
      ensures Valid()
      ensures Editable(w) ==> marks == Put(old(marks), RowKey(row), w, true) && pending == AddPending(old(pending), RowKey(row))
      ensures !Editable(w) ==> marks == old(marks) && pending == old(pending)
    {
      if 7 <= w <= 9 {
        var key := RowKey(row);
        marks := Put(marks, key, w, true);
        pending := AddPending(pending, key);
      }
    }

    /** `quitarEscenarioSku`: the key leaves the three maps and the pending keys. */
    method RemoveSkuScenario(key: string)
      requires Valid()
      modifies this`chosen, this`marks, this`manual, this`pending
      ensures Valid()
      ensures chosen == RemoveKey(old(chosen), key) && marks == RemoveKey(old(marks), key)
      ensures manual == RemoveKey(old(manual), key)
      ensures pending == RemovePending(old(pending), key)
    {
      marks := RemoveKey(marks, key);
      chosen := RemoveKey(chosen, key);
      manual := RemoveKey(manual, key);
      pending := RemovePending(pending, key);
    }

    /** `toggleSemanaSeleccionada`. */
    method ToggleWeek(w: int)
      modifies this`weeks
      ensures weeks == Toggle(old(weeks), w)
    {
      if w in weeks {
        weeks := weeks - {w};
      } else {
        weeks := weeks + {w};
      }
    }

    /** `toggleSelect`. */
    method ToggleSku(sku: string)
      modifies this`selectedSkus
      ensures sku in selectedSkus <==> sku !in old(selectedSkus)
      ensures forall x :: x != sku ==> (x in selectedSkus <==> x in old(selectedSkus))
    {
      if sku in selectedSkus {
        selectedSkus := selectedSkus - {sku};
      } else {
        selectedSkus := selectedSkus + {sku};
      }
    }

    /** One row of `applyGlobalScenario`. */
    method ApplyStep(row: ReportRow, esc: string, scope: Scope, targets: set<string>)
      requires Distinct(pending)
      modifies this`chosen, this`marks, this`pending
      ensures Distinct(pending)
      ensures Marking(chosen, marks, pending)
              == ApplyRow(Marking(old(chosen), old(marks), old(pending)), row, weeks, esc,
                          Touched(scope, targets, selectedSkus, catalogue, row))
    {
      var key := RowKey(row);
      var skip := key !in targets && scope == SelectedRows && row.sku !in selectedSkus;
      if !skip && HasScenarios(catalogue, key) {
        chosen := PutAll(chosen, key, weeks, esc);
        pending := AddPending(pending, key);
        marks := PutAll(marks, key, weeks, true);
      }
    }

    /**
     * `applyGlobalScenario` over the rows shown: nothing happens without a
     * selected week; otherwise the rows are treated in order as `ApplyRows`
     * says.  Manual values are left as they are.
     */
    method ApplyGlobalScenario(esc: string, scope: Scope, shown: seq<ReportRow>) returns (applied: bool)
      requires Valid()
      modifies this`chosen, this`marks, this`pending
      ensures Valid()
      ensures applied <==> weeks != {}
      ensures !applied ==> chosen == old(chosen) && marks == old(marks) && pending == old(pending)
      ensures applied ==> Marking(chosen, marks, pending)
                          == ApplyRows(Marking(old(chosen), old(marks), old(pending)), shown, weeks, esc,
                                       scope, Targets(scope, selectedSkus, shown), selectedSkus, catalogue)
    {
      if weeks == {} {
        return false;
      }
      var targets := Targets(scope, selectedSkus, shown);
      ghost var st0 := Marking(chosen, marks, pending);
      var i := 0;
      while i < |shown|
        invariant 0 <= i <= |shown|
        invariant Marking(chosen, marks, pending) == ApplyRows(st0, shown[..i], weeks, esc, scope, targets, selectedSkus, catalogue)
        invariant Distinct(pending) && NoEmpty(manual)
      {
        assert shown[..i + 1][..i] == shown[..i];
        ApplyStep(shown[i], esc, scope, targets);
        i := i + 1;
      }
      assert shown[..i] == shown;
      applied := true;
    }

    /** The changes of one pending key, week by week. */
    method KeyStep(key: string) returns (more: seq<Change>)
      ensures more == KeyChanges(key, data, manual, marks, chosen, catalogue)
    {
      more := [];
      var found := FindRow(data, key);
      if found.Some? {
        var row := found.value;
        var n := 0;
        while n < 3
          invariant 0 <= n <= 3
          invariant more == WeeksUpTo(key, row, n, manual, marks, chosen, catalogue)
        {
          var change := WeekChange(key, row, 7 + n, manual, marks, chosen, catalogue);
          if change.Some? {
            more := more + [change.value];
          }
          n := n + 1;
        }
      }
    }

    /** The change list of `saveChanges`, built key by key. */
    method BuildChanges() returns (cs: seq<Change>)
      ensures cs == SaveList(pending, data, manual, marks, chosen, catalogue)
    {
      cs := [];
      var i := 0;
      while i < |pending|
        invariant 0 <= i <= |pending|
        invariant cs == SaveList(pending[..i], data, manual, marks, chosen, catalogue)
      {
        assert pending[..i + 1][..i] == pending[..i];
        var more := KeyStep(pending[i]);
        cs := cs + more;
        i := i + 1;
      }
      assert pending[..i] == pending;
    }

    /**
     * `saveChanges`: nothing is sent without pending keys; otherwise the
     * change list goes to the save route under the user's name (or
     * `Desconocido`), and the pending keys are cleared only when the route
     * reports success.
     */
    method Save(store: Store, username: Option<string>, agent: Option<string>) returns (resp: Option<SaveResponse>)
      requires Valid() && store.Valid()
      modifies this`pending, store`rows, store`writes
      ensures Valid() && store.Valid()
      ensures resp.None? <==> old(pending) == []
      ensures resp.None? ==> store.rows == old(store.rows) && store.writes == old(store.writes)
      ensures resp.Some? ==> pending == if resp.value.Saved? && resp.value.success then [] else old(pending)
      ensures resp.Some? && resp.value.Saved? ==>
                var cs := SaveList(old(pending), data, manual, marks, chosen, catalogue);
                var who := Sender(if Truthy(username) then username.value else Unknown, None, agent);
                var t := SaveAll(Saving(old(store.rows), old(store.writes), [], 0, []), cs, store.failingWrites, who);
                store.rows == t.rows && resp.value.actualizados == t.updated && resp.value.errores == t.errors
      ensures resp == Some(NeedChanges) <==> old(pending) != [] && SaveList(old(pending), data, manual, marks, chosen, catalogue) == []
    {
      if pending == [] {
        return None;
      }
      var cs := BuildChanges();
      var user := if Truthy(username) then username.value else Unknown;
      var r, history := PlanSave.SaveChanges(store, SaveRequest(Listed(cs), Some(user), None, agent));
      if r.Saved? && r.success {
        pending := [];
      }
      resp := Some(r);
    }
  }
}
