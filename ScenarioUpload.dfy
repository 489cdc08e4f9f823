/**
 * The scenario catalogue upload: a CSV of (Nodo, Cuenta, Sku_Seller,
 * Escenario, Cantidad_Venta, Precio_Venta) rows, read with the escaping
 * line scanner, checked against the six scenario names and upserted one
 * by one into the scenario table on the key (Nodo, Cuenta, Sku_Seller,
 * Escenario).
 */
module ScenarioUpload {
  import opened Base
  import opened Csv
  import opened DemandTable

  /** The scenario names a row may carry. */
  const ScenarioNames: seq<string> :=
    ["Venta", "Sobreprecio_5", "Sobreprecio_10", "Descuento_5", "Descuento_10", "Super_Descuento"]

  /** The header names the file must have, compared without regard to case. */
  const RequiredNames: seq<string> := ["Nodo", "Cuenta", "Sku_Seller", "Escenario", "Cantidad_Venta", "Precio_Venta"]

  /** The records are written in slices of this many. */
  const ScenarioBatch: nat := 100

  /** The response lists the first this-many line errors. */
  const DetailLines: nat := 5

  // ---------------------------------------------------------------------
  // Number clean-up (parseNumber)
  // ---------------------------------------------------------------------

  /** `value.replace(/\./g, '')`: every `.` removed, everything else kept in order. */
  function RemoveDots(s: string): (r: string)
    ensures forall c :: c in r <==> c in s && c != '.'
    ensures '.' !in s ==> r == s
  {
    if |s| == 0 then ""
    else
      var rest := RemoveDots(s[1..]);
      assert s == [s[0]] + s[1..];
      if s[0] == '.' then rest else [s[0]] + rest
  }

  lemma {:induction false} RemoveDotsAppend(a: string, b: string)
    ensures RemoveDots(a + b) == RemoveDots(a) + RemoveDots(b)
  {
    if |a| > 0 {
      assert (a + b)[1..] == a[1..] + b;
      RemoveDotsAppend(a[1..], b);
    } else {
      assert a + b == b;
    }
  }

  /** The text `parseFloat` reads: thousands dots removed, then the first `,` made the decimal point. */
  function Cleaned(s: string): string
  {
    ReplaceFirst(RemoveDots(s), ',', '.')
  }

  /** `parseNumber(value)`: 0 for an undefined or empty cell and for text that is not a number. */
  function ParseNumber(value: Option<string>): real
  {
    match value
    case None => 0.0
    case Some(v) => if v == "" then 0.0 else OrZero(ParseFloat(Cleaned(v)))
  }

  /** The cleaned text holds one `.` when the cell held a `,`, and none otherwise, whatever dots the cell held. */
  lemma CleanedPoints(s: string)
    ensures multiset(Cleaned(s))['.'] == (if ',' in s then 1 else 0)
  {
    var t := RemoveDots(s);
    var k := IndexOf(t, ',');
    if k < 0 {
      assert '.' !in multiset(t);
    } else {
      var r := t[..k] + ['.'] + t[k + 1..];
      assert Cleaned(s) == r;
      assert '.' !in t[..k] && '.' !in t[k + 1..] by {
        assert forall c :: c in t[..k] ==> c in t;
        assert forall c :: c in t[k + 1..] ==> c in t;
      }
      assert '.' !in multiset(t[..k]) && '.' !in multiset(t[k + 1..]);
      assert multiset(r) == multiset(t[..k]) + multiset(['.']) + multiset(t[k + 1..]);
    }
  }

  /** A dot between two pieces of a cell is a thousands separator: the value is that of the pieces joined. */
  lemma DotsIgnored(a: string, b: string)
    ensures ParseNumber(Some(a + "." + b)) == ParseNumber(Some(a + b))
  {
    var x, y := a + "." + b, a + b;
    DotDropped(a, b);
    assert Cleaned(x) == Cleaned(y);
    assert |x| > 0;
    if y == "" {
      EmptyCleaned();
    }
  }

  lemma DotDropped(a: string, b: string)
    ensures RemoveDots(a + "." + b) == RemoveDots(a + b)
  {
    RemoveDotsAppend(a + ".", b);
    RemoveDotsAppend(a, ".");
    RemoveDotsAppend(a, b);
    assert RemoveDots(".") == "";
  }

  lemma EmptyCleaned()
    ensures OrZero(ParseFloat(Cleaned(""))) == 0.0
  {
    assert Cleaned("") == "";
    assert ParseFloat("") == None;
  }

  /** A plain numeral reads as its value. */
  lemma ParseNumberOfNat(n: nat)
    ensures ParseNumber(Some(NatToString(n))) == n as real
  {
    var d := NatToString(n);
    assert '.' !in d && ',' !in d by {
      forall i | 0 <= i < |d| ensures d[i] != '.' && d[i] != ',' {
        assert IsDigit(d[i]);
      }
    }
    assert RemoveDots(d) == d;
    assert IndexOf(d, ',') == -1;
    assert Cleaned(d) == d;
    ParseFloatOfNat(n);
    assert ParseNumber(Some(d)) == OrZero(ParseFloat(d)) by {
      assert |d| > 0;
    }
  }

  // ---------------------------------------------------------------------
  // Lines and headers
  // ---------------------------------------------------------------------

  /** A piece of `split(/\r?\n/)` that was followed by a line feed loses one carriage return. */
  function DropCr(s: string): (r: string)
    ensures r == s || r + "\r" == s
  {
    if |s| > 0 && s[|s| - 1] == '\r' then s[..|s| - 1] else s
  }

  /** `text.split(/\r?\n/)`: the pieces between line feeds, each but the last without its final `\r`. */
  function CrLfLines(text: string): (r: seq<string>)
    ensures |r| == |Split(text, '\n')|
  {
    var parts := Split(text, '\n');
    seq(|parts|, k requires 0 <= k < |parts| => if k < |parts| - 1 then DropCr(parts[k]) else parts[k])
  }

  /** `text.split(/\r?\n/).filter(line => line.trim())`. */
  function ScenarioLines(text: string): (r: seq<string>)
    ensures forall k :: 0 <= k < |r| ==> Trim(r[k]) != ""
  {
    NonBlank(CrLfLines(text))
  }

  /** `headers.some(h => h.toLowerCase() === col.toLowerCase())`. */
  predicate HasHeader(headers: seq<string>, col: string)
  {
    exists h :: h in headers && ToLower(h) == ToLower(col)
  }

  /** `COLUMNAS_REQUERIDAS.filter(col => !headers.some(...))`. */
  function MissingNames(required: seq<string>, headers: seq<string>): (r: seq<string>)
    ensures forall x :: x in r <==> x in required && !HasHeader(headers, x)
    ensures |r| <= |required|
  {
    if |required| == 0 then []
    else (if HasHeader(headers, required[0]) then [] else [required[0]]) + MissingNames(required[1..], headers)
  }

  /** The missing names keep the declared order: the check of a list is the checks of its parts, in turn. */
  lemma {:induction false} MissingNamesAppend(a: seq<string>, b: seq<string>, headers: seq<string>)
    ensures MissingNames(a + b, headers) == MissingNames(a, headers) + MissingNames(b, headers)
  {
    if |a| > 0 {
      assert (a + b)[0] == a[0];
      assert (a + b)[1..] == a[1..] + b;
      MissingNamesAppend(a[1..], b, headers);
    } else {
      assert a + b == b;
    }
  }

  /** `headers.findIndex(h => h.toLowerCase() === col.toLowerCase())`. */
  function FindExact(headers: seq<string>, col: string): (k: int)
    ensures -1 <= k < |headers|
    ensures k >= 0 ==> ToLower(headers[k]) == ToLower(col)
    ensures forall j :: 0 <= j < |headers| && (k == -1 || j < k) ==> ToLower(headers[j]) != ToLower(col)
  {
    if |headers| == 0 then -1
    else if ToLower(headers[0]) == ToLower(col) then 0
    else
      var k := FindExact(headers[1..], col);
      assert forall j :: 1 <= j < |headers| ==> headers[j] == headers[1..][j - 1];
      if k == -1 then -1 else k + 1
  }

  /** A column is found by index exactly when it is not reported missing. */
  lemma FoundUnlessMissing(headers: seq<string>, col: string)
    requires col in RequiredNames
    ensures FindExact(headers, col) >= 0 <==> col !in MissingNames(RequiredNames, headers)
  {
    var k := FindExact(headers, col);
    if k >= 0 {
      assert headers[k] in headers;
    } else {
      forall h | h in headers
        ensures ToLower(h) != ToLower(col)
      {
        var j :| 0 <= j < |headers| && headers[j] == h;
      }
    }
  }

  /** The column positions `colIndex`. */
  datatype ScenarioColumns = ScenarioColumns(nodo: int, cuenta: int, sku: int, escenario: int, cantidad: int, precio: int)

  function ColumnsOf(headers: seq<string>): ScenarioColumns
  {
    ScenarioColumns(FindExact(headers, "Nodo"), FindExact(headers, "Cuenta"), FindExact(headers, "Sku_Seller"),
                    FindExact(headers, "Escenario"), FindExact(headers, "Cantidad_Venta"), FindExact(headers, "Precio_Venta"))
  }

  // ---------------------------------------------------------------------
  // Rows
  // ---------------------------------------------------------------------

  datatype ScenarioRecord = ScenarioRecord(nodo: string, cuenta: string, sku: string, escenario: string,
                                           cantidad: real, precio: real)

  /** The reasons a line is refused, with the line number the message shows. */
  datatype LineError =
    | EmptyKey(line: nat)
    | InvalidScenario(line: nat, escenario: Option<string>)
    | NegativeFigure(line: nat)

  datatype Checked = Accepted(rec: ScenarioRecord) | Refused(error: LineError)

  /** What an accepted record always satisfies. */
  predicate ValidRecord(r: ScenarioRecord)
  {
    r.nodo != "" && r.cuenta != "" && r.sku != "" && r.escenario in ScenarioNames && r.cantidad >= 0.0 && r.precio >= 0.0
  }

  predicate KeyPresent(values: seq<string>, c: ScenarioColumns)
  {
    CellText(values, c.nodo) != "" && CellText(values, c.cuenta) != "" && CellText(values, c.sku) != ""
  }

  predicate KnownScenario(e: Option<string>)
  {
    e.Some? && e.value in ScenarioNames
  }

  /**
   * The three checks of one line, in order: the key cells, the scenario
   * name, the two figures; the first that fails is the line's one error.
   */
  function CheckRow(values: seq<string>, c: ScenarioColumns, line: nat): (r: Checked)
    ensures r.Accepted? <==> KeyPresent(values, c) && KnownScenario(OptionalText(values, c.escenario))
                             && ParseNumber(Cell(values, c.cantidad)) >= 0.0 && ParseNumber(Cell(values, c.precio)) >= 0.0
    ensures r.Accepted? ==> ValidRecord(r.rec)
    ensures r.Accepted? ==> r.rec == ScenarioRecord(CellText(values, c.nodo), CellText(values, c.cuenta), CellText(values, c.sku),
                                                    CellText(values, c.escenario), ParseNumber(Cell(values, c.cantidad)),
                                                    ParseNumber(Cell(values, c.precio)))
    ensures r.Refused? ==> r.error.line == line
    ensures r.Refused? ==> (r.error.EmptyKey? <==> !KeyPresent(values, c))
    ensures r.Refused? ==> (r.error.InvalidScenario? <==> KeyPresent(values, c) && !KnownScenario(OptionalText(values, c.escenario)))
    ensures r.Refused? && r.error.InvalidScenario? ==> r.error.escenario == OptionalText(values, c.escenario)
  {
    var escenario := OptionalText(values, c.escenario);
    var cantidad := ParseNumber(Cell(values, c.cantidad));
    var precio := ParseNumber(Cell(values, c.precio));
    if !KeyPresent(values, c) then Refused(EmptyKey(line))
    else if !KnownScenario(escenario) then Refused(InvalidScenario(line, escenario))
    else if cantidad < 0.0 || precio < 0.0 then Refused(NegativeFigure(line))
    else Accepted(ScenarioRecord(CellText(values, c.nodo), CellText(values, c.cuenta), CellText(values, c.sku),
                                 escenario.value, cantidad, precio))
  }

  /** The check of the data line `body[k]`, file line `k + 2`: `None` for a blank line. */
  function CheckLine(body: seq<string>, k: nat, c: ScenarioColumns): Option<Checked>
    requires k < |body|
  {
    var line := Trim(body[k]);
    if line == "" then None else Some(CheckRow(ScanEsc(line, ScenarioSeps, "", false), c, k + 2))
  }

  /** The accepted records and the line errors of the data lines, each in file order. */
  function Reading(body: seq<string>, c: ScenarioColumns): (r: (seq<ScenarioRecord>, seq<LineError>))
    ensures forall k :: 0 <= k < |r.0| ==> ValidRecord(r.0[k])
    ensures forall k :: 0 <= k < |r.1| ==> 2 <= r.1[k].line <= |body| + 1
    ensures |r.0| + |r.1| <= |body|
  {
    if |body| == 0 then ([], [])
    else
      var n := |body| - 1;
      var prev := Reading(body[..n], c);
      match CheckLine(body, n, c)
      case None => prev
      case Some(Accepted(rec)) => (prev.0 + [rec], prev.1)
      case Some(Refused(e)) => (prev.0, prev.1 + [e])
  }

  lemma ReadingSnoc(body: seq<string>, i: nat, c: ScenarioColumns)
    requires i < |body|
    ensures Reading(body[..i + 1], c)
         == var prev := Reading(body[..i], c);
            match CheckLine(body, i, c)
            case None => prev
            case Some(Accepted(rec)) => (prev.0 + [rec], prev.1)
            case Some(Refused(e)) => (prev.0, prev.1 + [e])
  {
    assert body[..i + 1][..i] == body[..i];
    assert CheckLine(body[..i + 1], i, c) == CheckLine(body, i, c);
  }

  /** Every non-blank line gives exactly one of a record or an error. */
  lemma {:induction false} EachLineOnce(body: seq<string>, c: ScenarioColumns)
    requires forall k :: 0 <= k < |body| ==> Trim(body[k]) != ""
    ensures |Reading(body, c).0| + |Reading(body, c).1| == |body|
  {
    if |body| > 0 {
      var n := |body| - 1;
      var prefix := body[..n];
      assert forall k :: 0 <= k < |prefix| ==> Trim(prefix[k]) != "" by {
        forall k | 0 <= k < |prefix| ensures Trim(prefix[k]) != "" {
          assert prefix[k] == body[k];
        }
      }
      EachLineOnce(prefix, c);
      assert CheckLine(body, n, c).Some?;
    }
  }

  /** The row loop: every data line scanned, checked and sorted into records and errors. */
  method ReadRows(body: seq<string>, c: ScenarioColumns) returns (recs: seq<ScenarioRecord>, errors: seq<LineError>)
    ensures (recs, errors) == Reading(body, c)
  {
    recs, errors := [], [];
    var i := 0;
    while i < |body|
      invariant 0 <= i <= |body|
      invariant (recs, errors) == Reading(body[..i], c)
    {
      ReadingSnoc(body, i, c);
      var line := Trim(body[i]);
      if line != "" {
        var values := ParseEscapedCsvLine(line);
        var check := CheckRow(values, c, i + 2);
        if check.Accepted? {
          recs := recs + [check.rec];
        } else {
          errors := errors + [check.error];
        }
      }
      i := i + 1;
    }
    assert body[..i] == body;
  }

  // ---------------------------------------------------------------------
  // The scenario table
  // ---------------------------------------------------------------------

  /** A row of `escenarios_plan_demanda`; the figures are nullable columns. */
  datatype ScenarioRow = ScenarioRow(nodo: string, cuenta: string, sku: string, escenario: string,
                                     cantidad: Option<real>, precio: Option<real>)

  /** Two rows with the same (Nodo, Cuenta, Sku_Seller, Escenario). */
  predicate SameKey(a: ScenarioRow, b: ScenarioRow)
  {
    a.nodo == b.nodo && a.cuenta == b.cuenta && a.sku == b.sku && a.escenario == b.escenario
  }

  /** The conflict target is a unique key of the table. */
  predicate UniqueKeys(rows: seq<ScenarioRow>)
  {
    forall i, j :: 0 <= i < j < |rows| ==> !SameKey(rows[i], rows[j])
  }

  predicate HasKey(rows: seq<ScenarioRow>, row: ScenarioRow)
  {
    exists i :: 0 <= i < |rows| && SameKey(rows[i], row)
  }

  /** `upsert(row, { onConflict: 'Nodo,Cuenta,Sku_Seller,Escenario' })`: the row with the key replaced, or the row appended. */
  function UpsertScenario(rows: seq<ScenarioRow>, row: ScenarioRow): (t: seq<ScenarioRow>)
    ensures |t| == |rows| + (if HasKey(rows, row) then 0 else 1)
    ensures forall i :: 0 <= i < |rows| ==> SameKey(t[i], rows[i])
  {
    seq(|rows|, i requires 0 <= i < |rows| => if SameKey(rows[i], row) then row else rows[i])
      + (if HasKey(rows, row) then [] else [row])
  }

  /**
   * After an upsert exactly one row has the key and it carries the new
   * values, every other row is as it was, and the key stays unique.
   */
  lemma UpsertOnKey(rows: seq<ScenarioRow>, row: ScenarioRow)
    requires UniqueKeys(rows)
    ensures var t := UpsertScenario(rows, row);
            UniqueKeys(t)
            && (exists k :: 0 <= k < |t| && t[k] == row && forall j :: 0 <= j < |t| && j != k ==> !SameKey(t[j], row))
            && (forall i :: 0 <= i < |rows| && !SameKey(rows[i], row) ==> t[i] == rows[i])
  {
    var t := UpsertScenario(rows, row);
    if HasKey(rows, row) {
      var k :| 0 <= k < |rows| && SameKey(rows[k], row);
      assert t[k] == row;
    } else {
      assert t[|rows|] == row;
    }
  }

  /** The row an accepted record writes. */
  function RowOf(rec: ScenarioRecord): ScenarioRow
  {
    ScenarioRow(rec.nodo, rec.cuenta, rec.sku, rec.escenario, Some(rec.cantidad), Some(rec.precio))
  }

  /**
   * The table keyed on (Nodo, Cuenta, Sku_Seller, Escenario).  Write `n`
   * of its life fails when `n` is in `failingWrites`.
   */
  class ScenarioStore {
    var rows: seq<ScenarioRow>
    var writes: nat
    const failingWrites: set<nat>

    ghost predicate Valid()
      reads this
    {
      UniqueKeys(rows)
    }

    constructor (initial: seq<ScenarioRow>, failing: set<nat>)
      requires UniqueKeys(initial)
      ensures Valid() && rows == initial && writes == 0 && failingWrites == failing
    {
      rows := initial;
      writes := 0;
      failingWrites := failing;
    }

    method Upsert(row: ScenarioRow) returns (ok: bool)
      requires Valid()
      modifies this`rows, this`writes
      ensures Valid()
      ensures writes == old(writes) + 1
      ensures ok <==> old(writes) !in failingWrites
      ensures rows == if ok then UpsertScenario(old(rows), row) else old(rows)
    {
      ok := writes !in failingWrites;
      if ok {
        UpsertOnKey(rows, row);
        rows := UpsertScenario(rows, row);
      }
      writes := writes + 1;
    }
  }

  /** The table and the outcome of each write after the records `recs`, the first write numbered `w`. */
  function UpsertAll(rows: seq<ScenarioRow>, w: nat, failing: set<nat>, recs: seq<ScenarioRecord>)
    : (r: (seq<ScenarioRow>, seq<bool>))
    ensures |r.1| == |recs|
  {
    if |recs| == 0 then (rows, [])
    else
      var n := |recs| - 1;
      var prev := UpsertAll(rows, w, failing, recs[..n]);
      var ok := w + n !in failing;
      (if ok then UpsertScenario(prev.0, RowOf(recs[n])) else prev.0, prev.1 + [ok])
  }

  /** The writes keep the key unique. */
  lemma {:induction false} UpsertAllUnique(rows: seq<ScenarioRow>, w: nat, failing: set<nat>, recs: seq<ScenarioRecord>)
    requires UniqueKeys(rows)
    ensures UniqueKeys(UpsertAll(rows, w, failing, recs).0)
  {
    if |recs| > 0 {
      var n := |recs| - 1;
      UpsertAllUnique(rows, w, failing, recs[..n]);
      UpsertOnKey(UpsertAll(rows, w, failing, recs[..n]).0, RowOf(recs[n]));
    }
  }

  /** Every record whose write succeeded has its key in the final table. */
  lemma {:induction false} StoredKeyPresent(rows: seq<ScenarioRow>, w: nat, failing: set<nat>, recs: seq<ScenarioRecord>, k: int)
    requires 0 <= k < |recs| && UpsertAll(rows, w, failing, recs).1[k]
    ensures HasKey(UpsertAll(rows, w, failing, recs).0, RowOf(recs[k]))
  {
    var n := |recs| - 1;
    var prev := UpsertAll(rows, w, failing, recs[..n]);
    var row := RowOf(recs[n]);
    if k == n {
      var t := UpsertScenario(prev.0, row);
      if HasKey(prev.0, row) {
        var i :| 0 <= i < |prev.0| && SameKey(prev.0[i], row);
        assert t[i] == row;
      } else {
        assert t[|prev.0|] == row;
      }
    } else {
      assert prev.1[k] == UpsertAll(rows, w, failing, recs).1[k];
      assert recs[..n][k] == recs[k];
      StoredKeyPresent(rows, w, failing, recs[..n], k);
      var i :| 0 <= i < |prev.0| && SameKey(prev.0[i], RowOf(recs[k]));
      if w + n !in failing {
        assert SameKey(UpsertScenario(prev.0, row)[i], prev.0[i]);
      }
    }
  }

  /** A failed write: the record's `Sku_Seller/Escenario`. */
  datatype DbError = DbError(sku: string, escenario: string)

  function DbErrorsOf(recs: seq<ScenarioRecord>, oks: seq<bool>): (es: seq<DbError>)
    requires |oks| == |recs|
    ensures |es| + CountTrue(oks) == |recs|
  {
    if |recs| == 0 then []
    else
      var n := |recs| - 1;
      assert oks[..n] + [oks[n]] == oks;
      CountTrueSnoc(oks[..n], oks[n]);
      DbErrorsOf(recs[..n], oks[..n]) + (if oks[n] then [] else [DbError(recs[n].sku, recs[n].escenario)])
  }

  /** The write loop's state after the records `done`. */
  ghost predicate StoreProgress(store: ScenarioStore, rows0: seq<ScenarioRow>, w0: nat, done: seq<ScenarioRecord>,
                                inserted: nat, dbErrors: seq<DbError>, oks: seq<bool>)
    reads store
  {
    Progressed(store.rows, store.writes, store.failingWrites, rows0, w0, done, inserted, dbErrors, oks)
  }

  predicate Progressed(rows: seq<ScenarioRow>, writes: nat, failing: set<nat>, rows0: seq<ScenarioRow>, w0: nat,
                       done: seq<ScenarioRecord>, inserted: nat, dbErrors: seq<DbError>, oks: seq<bool>)
  {
    writes == w0 + |done|
    && (rows, oks) == UpsertAll(rows0, w0, failing, done)
    && inserted == CountTrue(oks)
    && dbErrors == DbErrorsOf(done, oks)
  }

  /** The write loop's state after one more record, upserted or failed. */
  lemma ProgressedStep(rows: seq<ScenarioRow>, writes: nat, failing: set<nat>, rows0: seq<ScenarioRow>, w0: nat,
                       done: seq<ScenarioRecord>, inserted: nat, dbErrors: seq<DbError>, oks: seq<bool>, rec: ScenarioRecord, ok: bool)
    requires Progressed(rows, writes, failing, rows0, w0, done, inserted, dbErrors, oks)
    requires ok <==> writes !in failing
    ensures Progressed(if ok then UpsertScenario(rows, RowOf(rec)) else rows, writes + 1, failing, rows0, w0, done + [rec],
                       if ok then inserted + 1 else inserted, if ok then dbErrors else dbErrors + [DbError(rec.sku, rec.escenario)],
                       oks + [ok])
  {
    ProgressStep(rows0, w0, failing, done, rec);
  }

  lemma ProgressStep(rows0: seq<ScenarioRow>, w0: nat, failing: set<nat>, done: seq<ScenarioRecord>, rec: ScenarioRecord)
    ensures var prev := UpsertAll(rows0, w0, failing, done);
            var ok := w0 + |done| !in failing;
            var outs := prev.1 + [ok];
            UpsertAll(rows0, w0, failing, done + [rec]) == (if ok then UpsertScenario(prev.0, RowOf(rec)) else prev.0, outs)
            && CountTrue(outs) == CountTrue(prev.1) + (if ok then 1 else 0)
            && DbErrorsOf(done + [rec], outs) == DbErrorsOf(done, prev.1) + (if ok then [] else [DbError(rec.sku, rec.escenario)])
  {
    var prev := UpsertAll(rows0, w0, failing, done);
    var outs := prev.1 + [w0 + |done| !in failing];
    assert (done + [rec])[..|done|] == done;
    assert outs[..|done|] == prev.1;
    CountTrueSnoc(prev.1, w0 + |done| !in failing);
  }

  /** One record upserted and counted. */
  method StoreOne(store: ScenarioStore, rec: ScenarioRecord, inserted: nat, dbErrors: seq<DbError>,
                  ghost rows0: seq<ScenarioRow>, ghost w0: nat, ghost done: seq<ScenarioRecord>, ghost oks: seq<bool>)
    returns (inserted': nat, dbErrors': seq<DbError>, ghost oks': seq<bool>)
    requires store.Valid() && StoreProgress(store, rows0, w0, done, inserted, dbErrors, oks)
    modifies store`rows, store`writes
    ensures store.Valid() && StoreProgress(store, rows0, w0, done + [rec], inserted', dbErrors', oks')
  {
    ProgressedStep(store.rows, store.writes, store.failingWrites, rows0, w0, done, inserted, dbErrors, oks, rec,
                   store.writes !in store.failingWrites);
    var ok := store.Upsert(RowOf(rec));
    oks' := oks + [ok];
    if ok {
      inserted', dbErrors' := inserted + 1, dbErrors;
    } else {
      inserted', dbErrors' := inserted, dbErrors + [DbError(rec.sku, rec.escenario)];
    }
  }

  /** One slice of records, in order. */
  method StoreBatch(store: ScenarioStore, batch: seq<ScenarioRecord>, inserted: nat, dbErrors: seq<DbError>,
                    ghost rows0: seq<ScenarioRow>, ghost w0: nat, ghost done: seq<ScenarioRecord>, ghost oks: seq<bool>)
    returns (inserted': nat, dbErrors': seq<DbError>, ghost oks': seq<bool>)
    requires store.Valid() && StoreProgress(store, rows0, w0, done, inserted, dbErrors, oks)
    modifies store`rows, store`writes
    ensures store.Valid() && StoreProgress(store, rows0, w0, done + batch, inserted', dbErrors', oks')
  {
    inserted', dbErrors', oks' := inserted, dbErrors, oks;
    var j := 0;
    assert done + batch[..0] == done;
    while j < |batch|
      invariant 0 <= j <= |batch|
      invariant store.Valid() && StoreProgress(store, rows0, w0, done + batch[..j], inserted', dbErrors', oks')
    {
      assert done + batch[..j + 1] == (done + batch[..j]) + [batch[j]];
      inserted', dbErrors', oks' := StoreOne(store, batch[j], inserted', dbErrors', rows0, w0, done + batch[..j], oks');
      j := j + 1;
    }
    assert batch[..j] == batch;
  }

  /** The write loop: the records in slices of a hundred, each upserted; the failed ones reported. */
  method StoreRecords(store: ScenarioStore, recs: seq<ScenarioRecord>)
    returns (inserted: nat, dbErrors: seq<DbError>, ghost oks: seq<bool>)
    requires store.Valid()
    modifies store`rows, store`writes
    ensures store.Valid()
    ensures StoreProgress(store, old(store.rows), old(store.writes), recs, inserted, dbErrors, oks)
  {
    ghost var rows0, w0 := store.rows, store.writes;
    var batches := Batches(recs, ScenarioBatch);
    BatchesCover(recs, ScenarioBatch);
    ghost var done: seq<ScenarioRecord> := [];
    inserted, dbErrors, oks := 0, [], [];
    var b := 0;
    while b < |batches|
      invariant 0 <= b <= |batches|
      invariant done == Flatten(batches[..b])
      invariant rows0 == old(store.rows) && w0 == old(store.writes)
      invariant store.Valid() && StoreProgress(store, rows0, w0, done, inserted, dbErrors, oks)
    {
      inserted, dbErrors, oks := StoreBatch(store, batches[b], inserted, dbErrors, rows0, w0, done, oks);
      assert batches[..b + 1] == batches[..b] + [batches[b]];
      FlattenSnoc(batches[..b], batches[b]);
      done := done + batches[b];
      b := b + 1;
    }
    assert batches[..b] == batches;
  }

  // ---------------------------------------------------------------------
  // The route
  // ---------------------------------------------------------------------

  datatype ScenarioResponse =
    | MissingFile
    | InvalidFileType
    | EmptyFile
    | InvalidStructure(headers: seq<string>, missing: seq<string>)
    | NoValidRecords(errors: seq<LineError>)
    | Imported(inserted: nat, lineErrors: nat, dbErrors: nat, details: seq<LineError>, total: nat)

  /** The header line's fields: `parseCSVLine(lines[0]).map(h => h.trim())`. */
  function HeaderFields(line: string): seq<string>
  {
    TrimAll(ScanEsc(line, ScenarioSeps, "", false))
  }

  /** The records and line errors of a file's lines, the first line being the header. */
  function FileReading(lines: seq<string>): (seq<ScenarioRecord>, seq<LineError>)
    requires |lines| >= 1
  {
    Reading(lines[1..], ColumnsOf(HeaderFields(lines[0])))
  }

  /**
   * The scenario upload.  A missing file, a name not ending in `.csv`
   * (compared with case), fewer than two non-blank lines, a missing column
   * or no acceptable row is refused, exactly in that case, and writes
   * nothing; otherwise the accepted records
   * are upserted, `inserted` and `dbErrors` add up to the records, and the
   * first five line errors are returned.
   */
  method UploadScenarios(store: ScenarioStore, file: Option<UploadedFile>) returns (resp: ScenarioResponse)
    requires store.Valid()
    modifies store`rows, store`writes
    ensures store.Valid()
    ensures resp == MissingFile <==> file.None?
    ensures resp == InvalidFileType <==> file.Some? && !EndsWith(file.value.name, ".csv")
    ensures resp == EmptyFile <==> file.Some? && EndsWith(file.value.name, ".csv") && |ScenarioLines(file.value.text)| < 2
    ensures (file.Some? && EndsWith(file.value.name, ".csv") && var lines := ScenarioLines(file.value.text);
             |lines| >= 2 && |MissingNames(RequiredNames, HeaderFields(lines[0]))| > 0)
            ==> resp.InvalidStructure?
    ensures (file.Some? && EndsWith(file.value.name, ".csv") && var lines := ScenarioLines(file.value.text);
             |lines| >= 2 && |MissingNames(RequiredNames, HeaderFields(lines[0]))| == 0 && |FileReading(lines).0| == 0)
            ==> resp.NoValidRecords?
    ensures resp.InvalidStructure? ==>
              file.Some? && var lines := ScenarioLines(file.value.text);
              |lines| >= 2 && resp.headers == HeaderFields(lines[0])
              && resp.missing == MissingNames(RequiredNames, resp.headers) && |resp.missing| > 0
    ensures resp.NoValidRecords? ==>
              file.Some? && var lines := ScenarioLines(file.value.text);
              |lines| >= 2 && |MissingNames(RequiredNames, HeaderFields(lines[0]))| == 0
              && var read := FileReading(lines);
              |read.0| == 0 && resp.errors == FirstN(read.1, ErrorCap)
    ensures !resp.Imported? ==> store.rows == old(store.rows) && store.writes == old(store.writes)
    ensures resp.Imported? ==>
              file.Some? && var lines := ScenarioLines(file.value.text);
              |lines| >= 2 && |MissingNames(RequiredNames, HeaderFields(lines[0]))| == 0
              && var read := FileReading(lines);
              var done := UpsertAll(old(store.rows), old(store.writes), store.failingWrites, read.0);
              |read.0| > 0
              && store.rows == done.0
              && resp.total == |read.0| && resp.inserted == CountTrue(done.1)
              && resp.inserted + resp.dbErrors == resp.total
              && resp.lineErrors == |read.1| && resp.details == FirstN(read.1, DetailLines)
  {
    if file.None? {
      return MissingFile;
    }
    if !EndsWith(file.value.name, ".csv") {
      return InvalidFileType;
    }
    var lines := ScenarioLines(file.value.text);
    if |lines| < 2 {
      return EmptyFile;
    }
    var fields := ParseEscapedCsvLine(lines[0]);
    var headers := TrimAll(fields);
    var missing := MissingNames(RequiredNames, headers);
    if |missing| > 0 {
      return InvalidStructure(headers, missing);
    }
    var cols := ColumnsOf(headers);
    var recs, errors := ReadRows(lines[1..], cols);
    if |recs| == 0 {
      return NoValidRecords(FirstN(errors, ErrorCap));
    }
    var inserted, dbErrors, oks := StoreRecords(store, recs);
    resp := Imported(inserted, |errors|, |dbErrors|, FirstN(errors, DetailLines), |recs|);
  }

  /** A name in capitals passes the other uploads' extension check but not this one. */
  lemma ExtensionCaseMatters()
    ensures IsCsvName("P.CSV") && !EndsWith("P.CSV", ".csv")
  {
    assert ToLower("P.CSV") == "p.csv";
  }
}
