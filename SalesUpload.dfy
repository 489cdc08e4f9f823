/**
 * The weekly sales upload: the Error / Error_Abs / Perdida_Valorizada
 * calculator and the reconciliation of one (Semana, Nodo) cohort of
 * `Plan_Demanda` against a sales CSV, in the seven steps of the route:
 * map the existing rows, parse the file, split it into updates and
 * inserts, run both in batches of fifty, mark the rows without sales and
 * recompute the metrics of the whole cohort.
 */
module SalesUpload {
  import opened Base
  import opened Csv
  import opened DemandTable

  /** The expected layout shown when required columns are missing. */
  const SalesHint: string := "semana, cliente, seller_sku, total_vendido, precio_promedio, disponibilidad"

  // ---------------------------------------------------------------------
  // calculateMetrics
  // ---------------------------------------------------------------------

  datatype SaleMetrics = SaleMetrics(error: int, errorAbs: int, perdida: int)

  /**
   * calculateMetrics: sales rounded down, plan rounded up, a missing
   * value counted as 0; the error is their difference, the absolute error
   * its size and the loss the error valued at the price used, rounded half
   * up.  The route passes each integer through `parseInt(String(n), 10)`,
   * which gives `n` back (`Base.ParseIntOfString`).
   */
  function CalculateMetrics(ventaReal: Option<real>, planDemanda: Option<real>, pvpProm: Option<real>, pvpPd: Option<real>): (m: SaleMetrics)
    ensures m.error == Floor(OrZero(ventaReal)) - Ceil(OrZero(planDemanda))
    ensures OrZero(ventaReal) - OrZero(planDemanda) - 2.0 < m.error as real <= OrZero(ventaReal) - OrZero(planDemanda)
    ensures m.errorAbs == Abs(m.error) && m.errorAbs >= 0
    ensures -0.5 < m.perdida as real - m.error as real * PriceUsed(OrZero(pvpProm), OrZero(pvpPd)) <= 0.5
  {
    var venta := Floor(OrZero(ventaReal));
    var plan := Ceil(OrZero(planDemanda));
    var precioUsar := PriceUsed(OrZero(pvpProm), OrZero(pvpPd));
    var error := venta - plan;
    var errorAbs := Abs(error);
    var perdida := Round(error as real * precioUsar);
    SaleMetrics(error, errorAbs, perdida)
  }

  /** With whole quantities the error is the plain difference. */
  lemma WholeQuantities(venta: int, plan: int, pvpProm: Option<real>, pvpPd: Option<real>)
    ensures CalculateMetrics(Some(venta as real), Some(plan as real), pvpProm, pvpPd).error == venta - plan
  {
  }

  /** Three units over plan, no average price, list price 9990: a loss of 29970. */
  lemma ListPriceFallbackExample()
    ensures CalculateMetrics(Some(3.0), Some(0.0), Some(0.0), Some(9990.0)) == SaleMetrics(3, 3, 29970)
  {
    var m := CalculateMetrics(Some(3.0), Some(0.0), Some(0.0), Some(9990.0));
    assert m.error == 3;
    assert m.perdida == Round(29970.0);
    RoundOfInteger(29970);
  }

  /** A positive average price is the one the loss is valued at. */
  lemma AveragePriceFirst(venta: Option<real>, plan: Option<real>, pvpProm: real, pvpPd: Option<real>)
    requires pvpProm > 0.0
    ensures CalculateMetrics(venta, plan, Some(pvpProm), pvpPd) == CalculateMetrics(venta, plan, Some(pvpProm), Some(pvpProm))
  {
  }

  // ---------------------------------------------------------------------
  // Columns and rows of the file
  // ---------------------------------------------------------------------

  /** Positions of the columns the route reads, -1 when absent. */
  datatype SalesColumns = SalesColumns(semana: int, cliente: int, sku: int, total: int, precio: int, disponibilidad: int)

  /** `colMap`: each column is the first header containing one of its fragments. */
  function SalesColumnMap(headers: seq<string>): SalesColumns
  {
    SalesColumns(
      FindColumn(headers, ["semana"]),
      FindColumn(headers, ["cliente", "cuenta"]),
      FindColumn(headers, ["sku"]),
      FindColumn(headers, ["vendido", "venta", "total", "qty", "cantidad"]),
      FindColumn(headers, ["precio", "pvp"]),
      FindColumn(headers, ["disponibilidad", "dips"]))
  }

  datatype SalesRecord = SalesRecord(
    semana: Option<int>,
    cliente: string,
    sku: string,
    totalVendido: real,
    precioPromedio: real,
    /** `None`: no such column; `Some(None)`: the cell is not a number. */
    disponibilidad: Option<Option<real>>)

  /** `parseFloat(values[k]?.replace(',', '.'))`, `None` for NaN. */
  function CellFloat(values: seq<string>, k: int): Option<real>
  {
    match Cell(values, k)
    case None => None
    case Some(v) => ParseFloat(ReplaceFirst(v, ',', '.'))
  }

  /** The fields a row needs: one past the last of cliente, sku and total. */
  function RequiredWidth(c: SalesColumns): int
  {
    Max(Max(c.cliente, c.sku), c.total) + 1
  }

  /**
   * One CSV row as a sales record: `None` when the row is narrower than
   * the required columns or its cliente or sku is empty.
   */
  function ParseSalesRecord(values: seq<string>, c: SalesColumns, weekNum: int): (r: Option<SalesRecord>)
    ensures r.Some? <==> |values| >= RequiredWidth(c) && CellText(values, c.cliente) != "" && CellText(values, c.sku) != ""
    ensures r.Some? ==> r.value.cliente == CellText(values, c.cliente) && r.value.sku == CellText(values, c.sku)
    ensures r.Some? ==> r.value.semana == (if c.semana == -1 then Some(weekNum) else CellInt(values, c.semana))
  {
    if |values| < RequiredWidth(c) then None
    else
      var rec := SalesRecord(
        if c.semana != -1 then CellInt(values, c.semana) else Some(weekNum),
        CellText(values, c.cliente),
        CellText(values, c.sku),
        CellNumber(values, c.total),
        if c.precio != -1 then CellNumber(values, c.precio) else 0.0,
        if c.disponibilidad != -1 then Some(CellFloat(values, c.disponibilidad)) else None);
      if rec.cliente == "" || rec.sku == "" then None else Some(rec)
  }

  /** Step 2: the records of the data lines, in order. */
  function SalesRows(body: seq<string>, sep: char, c: SalesColumns, weekNum: int): (rs: seq<SalesRecord>)
    ensures |rs| <= |body|
    ensures forall k :: 0 <= k < |rs| ==> rs[k].cliente != "" && rs[k].sku != ""
  {
    if |body| == 0 then []
    else
      var prev := SalesRows(body[..|body| - 1], sep, c, weekNum);
      match ParseSalesRecord(Scan(body[|body| - 1], {sep}, "", false), c, weekNum)
      case None => prev
      case Some(r) => prev + [r]
  }

  function KeyOf(r: SalesRecord): string
  {
    AccountSkuKey(r.cliente, r.sku)
  }

  /** `skusConVenta`: the keys of the records read. */
  function SaleKeys(sales: seq<SalesRecord>): (keys: set<string>)
    ensures forall r :: r in sales ==> KeyOf(r) in keys
    ensures forall k :: k in keys ==> exists r :: r in sales && KeyOf(r) == k
  {
    set r | r in sales :: KeyOf(r)
  }

  lemma SalesRowsSnoc(body: seq<string>, i: nat, sep: char, c: SalesColumns, weekNum: int)
    requires i < |body|
    ensures SalesRows(body[..i + 1], sep, c, weekNum) == SalesRows(body[..i], sep, c, weekNum) + SalesOfLine(body[i], sep, c, weekNum)
  {
    assert body[..i + 1][..i] == body[..i];
  }

  /** The record of one data line, when it has one. */
  function SalesOfLine(line: string, sep: char, c: SalesColumns, weekNum: int): (rs: seq<SalesRecord>)
    ensures |rs| <= 1
  {
    match ParseSalesRecord(Scan(line, {sep}, "", false), c, weekNum)
    case None => []
    case Some(r) => [r]
  }

  lemma SaleKeysSnoc(sales: seq<SalesRecord>, more: seq<SalesRecord>)
    requires |more| <= 1
    ensures SaleKeys(sales + more) == SaleKeys(sales) + (if |more| == 1 then {KeyOf(more[0])} else {})
  {
    if |more| == 0 {
      assert sales + more == sales;
    }
  }

  /** One data line read with the quote-aware splitter. */
  method ParsedLine(line: string, sep: char, c: SalesColumns, weekNum: int) returns (more: seq<SalesRecord>)
    ensures more == SalesOfLine(line, sep, c, weekNum)
  {
    var values := ParseCsvLine(line, {sep});
    var rec := ParseSalesRecord(values, c, weekNum);
    more := if rec.Some? then [rec.value] else [];
  }

  /** Step 2, the parsing loop. */
  method ParseSalesRows(body: seq<string>, sep: char, c: SalesColumns, weekNum: int) returns (sales: seq<SalesRecord>, keys: set<string>)
    ensures sales == SalesRows(body, sep, c, weekNum)
    ensures keys == SaleKeys(sales)
  {
    sales := [];
    keys := {};
    var i := 0;
    while i < |body|
      invariant 0 <= i <= |body|
      invariant sales == SalesRows(body[..i], sep, c, weekNum)
      invariant keys == SaleKeys(sales)
    {
      SalesRowsSnoc(body, i, sep, c, weekNum);
      var more := ParsedLine(body[i], sep, c, weekNum);
      SaleKeysSnoc(sales, more);
      sales := sales + more;
      if |more| == 1 {
        keys := keys + {KeyOf(more[0])};
      }
      i := i + 1;
    }
    assert body[..i] == body;
  }

  // ---------------------------------------------------------------------
  // Step 1: the existing rows of the cohort by key
  // ---------------------------------------------------------------------

  datatype ExistingRecord = ExistingRecord(id: nat, planDemanda: real, pvpPd: real)

  function RowKey(r: PlanRow): string
  {
    AccountSkuKey(r.cuenta, r.sku)
  }

  function ExistingEntry(r: PlanRow): ExistingRecord
  {
    ExistingRecord(r.id, OrZero(r.planDemanda), OrZero(r.pvpPd))
  }

  /** `existingMap`: each key maps to the entry of its last row. */
  function ExistingMapOf(rows: seq<PlanRow>): (m: map<string, ExistingRecord>)
  {
    if |rows| == 0 then map[]
    else
      var n := |rows| - 1;
      ExistingMapOf(rows[..n])[RowKey(rows[n]) := ExistingEntry(rows[n])]
  }

  /** The map's keys are exactly the keys of the rows. */
  lemma {:induction false} ExistingMapKeys(rows: seq<PlanRow>)
    ensures forall r :: r in rows ==> RowKey(r) in ExistingMapOf(rows)
    ensures forall k :: k in ExistingMapOf(rows) ==> exists r :: r in rows && RowKey(r) == k
  {
    if |rows| > 0 {
      var n := |rows| - 1;
      ExistingMapKeys(rows[..n]);
      assert rows == rows[..n] + [rows[n]];
    }
  }

  /** A later row with the same key overwrites an earlier one. */
  lemma {:induction false} ExistingLastWins(rows: seq<PlanRow>, i: int)
    requires 0 <= i < |rows|
    requires forall j :: i < j < |rows| ==> RowKey(rows[j]) != RowKey(rows[i])
    ensures RowKey(rows[i]) in ExistingMapOf(rows) && ExistingMapOf(rows)[RowKey(rows[i])] == ExistingEntry(rows[i])
  {
    var n := |rows| - 1;
    var prev := ExistingMapOf(rows[..n]);
    assert ExistingMapOf(rows) == prev[RowKey(rows[n]) := ExistingEntry(rows[n])];
    if i < n {
      assert forall j :: i < j < n ==> rows[..n][j] == rows[j];
      ExistingLastWins(rows[..n], i);
      assert prev[RowKey(rows[i])] == ExistingEntry(rows[i]);
      assert RowKey(rows[n]) != RowKey(rows[i]);
    }
  }

  /** Step 1, the map-building loop. */
  method BuildExistingMap(rows: seq<PlanRow>) returns (m: map<string, ExistingRecord>)
    ensures m == ExistingMapOf(rows)
  {
    m := map[];
    var i := 0;
    while i < |rows|
      invariant 0 <= i <= |rows|
      invariant m == ExistingMapOf(rows[..i])
    {
      assert rows[..i + 1][..i] == rows[..i];
      m := m[RowKey(rows[i]) := ExistingEntry(rows[i])];
      i := i + 1;
    }
    assert rows[..i] == rows;
  }

  // ---------------------------------------------------------------------
  // Step 3: updates and inserts
  // ---------------------------------------------------------------------

  /** An update of an existing row, with the sku and account it reports. */
  datatype UpdateItem = UpdateItem(write: Write, sku: string, cuenta: string)

  /** The update of an existing row from a record: actuals from the file, plan and list price from the row. */
  function UpdateFor(rec: SalesRecord, e: ExistingRecord): (u: UpdateItem)
    ensures u.write.id == e.id && u.write.patch.SalesFigures?
    ensures u.write.patch.error == Floor(rec.totalVendido) - Ceil(e.planDemanda)
  {
    var m := CalculateMetrics(Some(rec.totalVendido), Some(e.planDemanda), Some(rec.precioPromedio), Some(e.pvpPd));
    UpdateItem(
      Write(e.id, SalesFigures(rec.totalVendido, rec.precioPromedio, m.error, m.errorAbs, m.perdida, rec.disponibilidad)),
      rec.sku, rec.cliente)
  }

  function Flat(d: Option<Option<real>>): Option<real>
  {
    if d.Some? then d.value else None
  }

  /** The new row for a record without an existing row: no plan, the average price as list price. */
  function InsertFor(rec: SalesRecord, nodo: string): (row: PlanRow)
    ensures row.semana == rec.semana && row.nodo == Some(nodo) && row.cuenta == rec.cliente && row.sku == rec.sku
    ensures row.planDemanda == Some(0.0) && row.pvpPd == Some(rec.precioPromedio) && row.ventaReal == Some(rec.totalVendido)
    ensures row.error == Some(Floor(rec.totalVendido) as real) && row.errorAbs == Some(Abs(Floor(rec.totalVendido)) as real)
  {
    var m := CalculateMetrics(Some(rec.totalVendido), Some(0.0), Some(rec.precioPromedio), Some(rec.precioPromedio));
    PlanRow(0, rec.semana, Some(nodo), rec.cliente, rec.sku,
            Some(0.0), Some(0.0), Some(rec.precioPromedio), None, None,
            Some(rec.totalVendido), Some(rec.precioPromedio),
            Some(m.error as real), Some(m.errorAbs as real), Some(m.perdida as real),
            Flat(rec.disponibilidad), None, None, None)
  }

  function UpdatesOf(sales: seq<SalesRecord>, m: map<string, ExistingRecord>): seq<UpdateItem>
  {
    if |sales| == 0 then []
    else
      var n := |sales| - 1;
      var prev := UpdatesOf(sales[..n], m);
      if KeyOf(sales[n]) in m then prev + [UpdateFor(sales[n], m[KeyOf(sales[n])])] else prev
  }

  function InsertsOf(sales: seq<SalesRecord>, m: map<string, ExistingRecord>, nodo: string): seq<PlanRow>
  {
    if |sales| == 0 then []
    else
      var n := |sales| - 1;
      var prev := InsertsOf(sales[..n], m, nodo);
      if KeyOf(sales[n]) in m then prev else prev + [InsertFor(sales[n], nodo)]
  }

  /**
   * Every record is an update when its key has an existing row and an
   * insert otherwise, and nothing else is in either list.
   */
  lemma PartitionByKey(sales: seq<SalesRecord>, m: map<string, ExistingRecord>, nodo: string)
    ensures |UpdatesOf(sales, m)| + |InsertsOf(sales, m, nodo)| == |sales|
    ensures forall r :: r in sales && KeyOf(r) in m ==> UpdateFor(r, m[KeyOf(r)]) in UpdatesOf(sales, m)
    ensures forall r :: r in sales && KeyOf(r) !in m ==> InsertFor(r, nodo) in InsertsOf(sales, m, nodo)
    ensures forall u :: u in UpdatesOf(sales, m) ==> exists r :: r in sales && KeyOf(r) in m && u == UpdateFor(r, m[KeyOf(r)])
    ensures forall w :: w in InsertsOf(sales, m, nodo) ==> exists r :: r in sales && KeyOf(r) !in m && w == InsertFor(r, nodo)
  {
    SplitSizes(sales, m, nodo);
    UpdatesComplete(sales, m);
    InsertsComplete(sales, m, nodo);
    UpdatesSound(sales, m);
    InsertsSound(sales, m, nodo);
  }

  lemma {:induction false} SplitSizes(sales: seq<SalesRecord>, m: map<string, ExistingRecord>, nodo: string)
    ensures |UpdatesOf(sales, m)| + |InsertsOf(sales, m, nodo)| == |sales|
  {
    if |sales| > 0 {
      SplitSizes(sales[..|sales| - 1], m, nodo);
    }
  }

  lemma {:induction false} UpdatesComplete(sales: seq<SalesRecord>, m: map<string, ExistingRecord>)
    ensures forall r :: r in sales && KeyOf(r) in m ==> UpdateFor(r, m[KeyOf(r)]) in UpdatesOf(sales, m)
  {
    if |sales| > 0 {
      var n := |sales| - 1;
      UpdatesComplete(sales[..n], m);
      assert sales == sales[..n] + [sales[n]];
    }
  }

  lemma {:induction false} InsertsComplete(sales: seq<SalesRecord>, m: map<string, ExistingRecord>, nodo: string)
    ensures forall r :: r in sales && KeyOf(r) !in m ==> InsertFor(r, nodo) in InsertsOf(sales, m, nodo)
  {
    if |sales| > 0 {
      var n := |sales| - 1;
      InsertsComplete(sales[..n], m, nodo);
      assert sales == sales[..n] + [sales[n]];
    }
  }

  lemma {:induction false} UpdatesSound(sales: seq<SalesRecord>, m: map<string, ExistingRecord>)
    ensures forall u :: u in UpdatesOf(sales, m) ==> exists r :: r in sales && KeyOf(r) in m && u == UpdateFor(r, m[KeyOf(r)])
  {
    if |sales| > 0 {
      var n := |sales| - 1;
      UpdatesSound(sales[..n], m);
      forall u | u in UpdatesOf(sales[..n], m)
        ensures exists r :: r in sales && KeyOf(r) in m && u == UpdateFor(r, m[KeyOf(r)])
      {
        var r :| r in sales[..n] && KeyOf(r) in m && u == UpdateFor(r, m[KeyOf(r)]);
        assert r in sales;
      }
      assert sales[n] in sales;
    }
  }

  lemma {:induction false} InsertsSound(sales: seq<SalesRecord>, m: map<string, ExistingRecord>, nodo: string)
    ensures forall w :: w in InsertsOf(sales, m, nodo) ==> exists r :: r in sales && KeyOf(r) !in m && w == InsertFor(r, nodo)
  {
    if |sales| > 0 {
      var n := |sales| - 1;
      InsertsSound(sales[..n], m, nodo);
      forall w | w in InsertsOf(sales[..n], m, nodo)
        ensures exists r :: r in sales && KeyOf(r) !in m && w == InsertFor(r, nodo)
      {
        var r :| r in sales[..n] && KeyOf(r) !in m && w == InsertFor(r, nodo);
        assert r in sales;
      }
      assert sales[n] in sales;
    }
  }

  /** Step 3, the splitting loop. */
  method PartitionSales(sales: seq<SalesRecord>, m: map<string, ExistingRecord>, nodo: string)
    returns (toUpdate: seq<UpdateItem>, toInsert: seq<PlanRow>)
    ensures toUpdate == UpdatesOf(sales, m)
    ensures toInsert == InsertsOf(sales, m, nodo)
  {
    toUpdate := [];
    toInsert := [];
    var i := 0;
    while i < |sales|
      invariant 0 <= i <= |sales|
      invariant toUpdate == UpdatesOf(sales[..i], m)
      invariant toInsert == InsertsOf(sales[..i], m, nodo)
    {
      assert sales[..i + 1][..i] == sales[..i];
      var key := KeyOf(sales[i]);
      if key in m {
        toUpdate := toUpdate + [UpdateFor(sales[i], m[key])];
      } else {
        toInsert := toInsert + [InsertFor(sales[i], nodo)];
      }
      i := i + 1;
    }
    assert sales[..i] == sales;
  }

  // ---------------------------------------------------------------------
  // Step 4: updates in batches
  // ---------------------------------------------------------------------

  datatype SalesError = UpdateFailed(sku: string) | InsertBatchFailed

  function ItemWrites(items: seq<UpdateItem>): (ws: seq<Write>)
    ensures |ws| == |items| && forall k :: 0 <= k < |items| ==> ws[k] == items[k].write
  {
    seq(|items|, k requires 0 <= k < |items| => items[k].write)
  }

  function UpdateDetails(items: seq<UpdateItem>): (ds: seq<Detail>)
    ensures |ds| == |items| && forall k :: 0 <= k < |items| ==> ds[k] == Detail(items[k].sku, items[k].cuenta, "actualizado")
  {
    seq(|items|, k requires 0 <= k < |items| => Detail(items[k].sku, items[k].cuenta, "actualizado"))
  }

  /** One error per update the store refuses, in order. */
  function UpdateFailures(items: seq<UpdateItem>, rejected: set<nat>): seq<SalesError>
  {
    if |items| == 0 then []
    else
      var n := |items| - 1;
      UpdateFailures(items[..n], rejected) + (if items[n].write.id in rejected then [UpdateFailed(items[n].sku)] else [])
  }

  /** The error entries of one batch's results. */
  function FailuresOf(items: seq<UpdateItem>, oks: seq<bool>): seq<SalesError>
    requires |oks| == |items|
  {
    if |items| == 0 then []
    else
      var n := |items| - 1;
      FailuresOf(items[..n], oks[..n]) + (if oks[n] then [] else [UpdateFailed(items[n].sku)])
  }

  lemma {:induction false} FailuresAreRejections(items: seq<UpdateItem>, oks: seq<bool>, rejected: set<nat>)
    requires Accepted(oks, ItemWrites(items), rejected)
    ensures FailuresOf(items, oks) == UpdateFailures(items, rejected)
  {
    if |items| > 0 {
      var n := |items| - 1;
      assert ItemWrites(items[..n]) == ItemWrites(items)[..n];
      FailuresAreRejections(items[..n], oks[..n], rejected);
    }
  }

  lemma {:induction false} UpdateFailuresAppend(a: seq<UpdateItem>, b: seq<UpdateItem>, rejected: set<nat>)
    ensures UpdateFailures(a + b, rejected) == UpdateFailures(a, rejected) + UpdateFailures(b, rejected)
  {
    if |b| == 0 {
      assert a + b == a;
    } else {
      var n := |b| - 1;
      UpdateFailuresAppend(a, b[..n], rejected);
      assert (a + b)[..|a + b| - 1] == a + b[..n];
    }
  }

  lemma ItemListsAppend(a: seq<UpdateItem>, b: seq<UpdateItem>)
    ensures ItemWrites(a + b) == ItemWrites(a) + ItemWrites(b)
    ensures UpdateDetails(a + b) == UpdateDetails(a) + UpdateDetails(b)
  {
    assert ItemWrites(a + b) == ItemWrites(a) + ItemWrites(b);
    assert UpdateDetails(a + b) == UpdateDetails(a) + UpdateDetails(b);
  }

  /**
   * Where the update loop stands after the items `done`: their writes are
   * applied, the accepted ones counted, the refused ones listed as errors
   * and their details listed up to the cap.
   */
  ghost predicate UpdateProgress(rows: seq<PlanRow>, updated: nat, errors: seq<SalesError>, details: seq<Detail>,
                                 rows0: seq<PlanRow>, details0: seq<Detail>, done: seq<UpdateItem>, rejected: set<nat>)
  {
    rows == ApplyWrites(rows0, ItemWrites(done), rejected) && updated == Succeeded(ItemWrites(done), rejected)
    && errors == UpdateFailures(done, rejected) && details == CapAppend(details0, UpdateDetails(done), DetailCap)
  }

  /** One more batch of updates sent: its results extend the counts, errors and details. */
  lemma ProgressUpdated(rows: seq<PlanRow>, updated: nat, errors: seq<SalesError>, details: seq<Detail>,
                        rows0: seq<PlanRow>, details0: seq<Detail>, done: seq<UpdateItem>, rejected: set<nat>,
                        batch: seq<UpdateItem>, oks: seq<bool>)
    requires |details0| <= DetailCap && Accepted(oks, ItemWrites(batch), rejected)
    requires UpdateProgress(rows, updated, errors, details, rows0, details0, done, rejected)
    ensures UpdateProgress(ApplyWrites(rows, ItemWrites(batch), rejected), updated + CountTrue(oks), errors + FailuresOf(batch, oks),
                           CapAppend(details, UpdateDetails(batch), DetailCap), rows0, details0, done + batch, rejected)
  {
    CountAccepted(oks, ItemWrites(batch), rejected);
    FailuresAreRejections(batch, oks, rejected);
    ItemListsAppend(done, batch);
    ApplyWritesAppend(rows0, ItemWrites(done), ItemWrites(batch), rejected);
    SucceededAppend(ItemWrites(done), ItemWrites(batch), rejected);
    UpdateFailuresAppend(done, batch, rejected);
    CapAppendTwice(details0, UpdateDetails(done), UpdateDetails(batch), DetailCap);
  }

  /** One batch of updates: sent by id, each accepted or refused on its own. */
  method UpdateStep(store: Store, batch: seq<UpdateItem>, updated: nat, errors: seq<SalesError>, details: seq<Detail>,
                    ghost rows0: seq<PlanRow>, ghost details0: seq<Detail>, ghost done: seq<UpdateItem>)
    returns (updated': nat, errors': seq<SalesError>, details': seq<Detail>)
    requires store.Valid() && |details0| <= DetailCap && |details| <= DetailCap
    requires UpdateProgress(store.rows, updated, errors, details, rows0, details0, done, store.rejectedIds)
    modifies store`rows
    ensures store.Valid() && |details'| <= DetailCap
    ensures UpdateProgress(store.rows, updated', errors', details', rows0, details0, done + batch, store.rejectedIds)
  {
    ghost var before := store.rows;
    var oks := UpdateBatch(store, ItemWrites(batch));
    ProgressUpdated(before, updated, errors, details, rows0, details0, done, store.rejectedIds, batch, oks);
    updated' := updated + CountTrue(oks);
    errors' := errors + FailuresOf(batch, oks);
    details' := CapAppend(details, UpdateDetails(batch), DetailCap);
  }

  /**
   * Step 4: the updates in batches of fifty; `updated` counts the writes
   * the store accepted, every refused one leaves an error, and the details
   * of the first fifty items are listed whether or not they succeeded.
   */
  method ApplyUpdates(store: Store, items: seq<UpdateItem>, details0: seq<Detail>)
    returns (updated: nat, errors: seq<SalesError>, details: seq<Detail>)
    requires store.Valid() && |details0| <= DetailCap
    modifies store`rows
    ensures store.Valid() && |details| <= DetailCap
    ensures store.rows == ApplyWrites(old(store.rows), ItemWrites(items), store.rejectedIds)
    ensures updated == Succeeded(ItemWrites(items), store.rejectedIds)
    ensures errors == UpdateFailures(items, store.rejectedIds)
    ensures details == CapAppend(details0, UpdateDetails(items), DetailCap)
  {
    ghost var rows0 := store.rows;
    updated := 0;
    errors := [];
    details := details0;
    var i := 0;
    while i < |items|
      invariant 0 <= i <= |items|
      invariant store.Valid() && |details| <= DetailCap
      invariant UpdateProgress(store.rows, updated, errors, details, rows0, details0, items[..i], store.rejectedIds)
    {
      var j := Min(i + BatchSize, |items|);
      updated, errors, details := UpdateStep(store, items[i..j], updated, errors, details, rows0, details0, items[..i]);
      assert items[..i] + items[i..j] == items[..j];
      i := j;
    }
    assert items[..i] == items;
  }

  // ---------------------------------------------------------------------
  // Step 5: inserts in batches
  // ---------------------------------------------------------------------

  function InsertDetails(rows: seq<PlanRow>): (ds: seq<Detail>)
    ensures |ds| == |rows| && forall k :: 0 <= k < |rows| ==> ds[k] == Detail(rows[k].sku, rows[k].cuenta, "insertado (nuevo)")
  {
    seq(|rows|, k requires 0 <= k < |rows| => Detail(rows[k].sku, rows[k].cuenta, "insertado (nuevo)"))
  }

  /** One error per refused batch. */
  function InsertFailures(oks: seq<bool>): (es: seq<SalesError>)
    ensures |es| + CountTrue(oks) == |oks|
    ensures forall k :: 0 <= k < |es| ==> es[k] == InsertBatchFailed
  {
    if |oks| == 0 then []
    else InsertFailures(oks[..|oks| - 1]) + (if oks[|oks| - 1] then [] else [InsertBatchFailed])
  }

  /**
   * Step 5: the new rows in batches of fifty, each batch stored whole or
   * not at all; `inserted` counts the rows of the stored batches, a
   * refused batch leaves one error, and the stored rows' details are
   * listed up to fifty.
   */
  method InsertNewRows(store: Store, rows: seq<PlanRow>, details0: seq<Detail>)
    returns (inserted: nat, errors: seq<SalesError>, details: seq<Detail>, oks: seq<bool>)
    requires store.Valid() && |details0| <= DetailCap
    modifies store`rows, store`nextId, store`writes
    ensures store.Valid()
    ensures |oks| == |Batches(rows, BatchSize)|
    ensures InsertOutcomes(oks, Batches(rows, BatchSize), old(store.writes), store.failingWrites)
    ensures store.rows == old(store.rows) + Stamp(Kept(Batches(rows, BatchSize), oks), old(store.nextId))
    ensures store.rows == old(store.rows) + Inserted(rows, old(store.nextId), old(store.writes), store.failingWrites)
    ensures oks == InsertOks(Batches(rows, BatchSize), old(store.writes), store.failingWrites)
    ensures inserted == |Kept(Batches(rows, BatchSize), oks)|
    ensures errors == InsertFailures(oks)
    ensures details == CapAppend(details0, InsertDetails(Kept(Batches(rows, BatchSize), oks)), DetailCap) && |details| <= DetailCap
  {
    oks := InsertInBatches(store, rows);
    var stored := Kept(Batches(rows, BatchSize), oks);
    inserted := |stored|;
    errors := InsertFailures(oks);
    details := CapAppend(details0, InsertDetails(stored), DetailCap);
  }

  // ---------------------------------------------------------------------
  // Step 6: rows without sales
  // ---------------------------------------------------------------------

  /** `toMarkZero`: the existing rows whose key is not among the file's keys. */
  function NoSaleCandidates(cohort: seq<PlanRow>, keys: set<string>): (c: seq<PlanRow>)
    ensures forall r :: r in c <==> r in cohort && RowKey(r) !in keys
  {
    Select(cohort, r => RowKey(r) !in keys)
  }

  /** Zero sales and the metrics of a zero sale against the row's own plan and list price. */
  function NoSalePatch(r: PlanRow): (p: Patch)
    ensures p.NoSale? && p.error == -Ceil(OrZero(r.planDemanda)) && p.errorAbs == Abs(Ceil(OrZero(r.planDemanda)))
  {
    var m := CalculateMetrics(Some(0.0), r.planDemanda, Some(0.0), r.pvpPd);
    NoSale(m.error, m.errorAbs, m.perdida)
  }

  function NoSaleDetails(rows: seq<PlanRow>): (ds: seq<Detail>)
    ensures |ds| == |rows| && forall k :: 0 <= k < |rows| ==> ds[k] == Detail(rows[k].sku, rows[k].cuenta, "sin venta (0)")
  {
    seq(|rows|, k requires 0 <= k < |rows| => Detail(rows[k].sku, rows[k].cuenta, "sin venta (0)"))
  }

  /** Step 6, the collecting loop: a detail per candidate while fewer than fifty are listed. */
  method CollectNoSale(cohort: seq<PlanRow>, keys: set<string>, details0: seq<Detail>)
    returns (toMarkZero: seq<PlanRow>, details: seq<Detail>)
    requires |details0| <= DetailCap
    ensures toMarkZero == NoSaleCandidates(cohort, keys)
    ensures details == CapAppend(details0, NoSaleDetails(toMarkZero), DetailCap) && |details| <= DetailCap
  {
    toMarkZero := [];
    details := details0;
    var i := 0;
    while i < |cohort|
      invariant 0 <= i <= |cohort|
      invariant toMarkZero == NoSaleCandidates(cohort[..i], keys)
      invariant details == CapAppend(details0, NoSaleDetails(toMarkZero), DetailCap)
    {
      assert cohort[..i + 1][..i] == cohort[..i];
      assert cohort[..i + 1][i] == cohort[i];
      var r := cohort[i];
      if RowKey(r) !in keys {
        var d := Detail(r.sku, r.cuenta, "sin venta (0)");
        assert NoSaleDetails(toMarkZero + [r]) == NoSaleDetails(toMarkZero) + [d];
        CapAppendTwice(details0, NoSaleDetails(toMarkZero), [d], DetailCap);
        toMarkZero := toMarkZero + [r];
        if |details| < DetailCap {
          details := details + [d];
        }
      }
      i := i + 1;
    }
    assert cohort[..i] == cohort;
  }

  /** The no-sale write addressed to an id: the candidate's patch when a candidate has it, none otherwise. */
  lemma NoSaleWriteFor(cohort: seq<PlanRow>, keys: set<string>, id: nat)
    requires DistinctIds(cohort)
    ensures (forall r :: r in cohort && r.id == id ==> RowKey(r) in keys) ==>
              WriteFor(PerRow(NoSaleCandidates(cohort, keys), NoSalePatch), id).None?
    ensures forall r :: r in cohort && r.id == id && RowKey(r) !in keys ==>
              WriteFor(PerRow(NoSaleCandidates(cohort, keys), NoSalePatch), id) == Some(NoSalePatch(r))
  {
    var cands := NoSaleCandidates(cohort, keys);
    SelectDistinct(cohort, r => RowKey(r) !in keys);
    forall r | r in cohort && r.id == id && RowKey(r) !in keys
      ensures WriteFor(PerRow(cands, NoSalePatch), id) == Some(NoSalePatch(r))
    {
      var k :| 0 <= k < |cands| && cands[k] == r;
      WriteForPerRow(cands, NoSalePatch, k);
    }
  }

  /** A no-sale write sets sales, average price and the three metrics, and nothing else. */
  lemma NoSaleFields(r: PlanRow, row: PlanRow)
    ensures var t := Apply(NoSalePatch(r), row);
            t.ventaReal == Some(0.0) && t.pvpProm == Some(0.0) && t.error == Some(-Ceil(OrZero(r.planDemanda)) as real)
            && t.(ventaReal := row.ventaReal, pvpProm := row.pvpProm, error := row.error,
                  errorAbs := row.errorAbs, perdidaValorizada := row.perdidaValorizada) == row
  {
  }

  /**
   * After the no-sale writes, a row whose existing record had a key
   * missing from the file has zero sales and the error of a zero sale
   * against its plan, with every other column as it was; a row with no
   * such record is untouched.
   */
  lemma NoSaleMarking(rows: seq<PlanRow>, cohort: seq<PlanRow>, keys: set<string>, rejected: set<nat>, i: int)
    requires DistinctIds(cohort) && 0 <= i < |rows|
    ensures (forall r :: r in cohort && r.id == rows[i].id ==> RowKey(r) in keys) ==>
              ApplyWrites(rows, PerRow(NoSaleCandidates(cohort, keys), NoSalePatch), rejected)[i] == rows[i]
    ensures forall r :: r in cohort && r.id == rows[i].id && RowKey(r) !in keys && r.id !in rejected ==>
              var t := ApplyWrites(rows, PerRow(NoSaleCandidates(cohort, keys), NoSalePatch), rejected)[i];
              t.ventaReal == Some(0.0) && t.pvpProm == Some(0.0) && t.error == Some(-Ceil(OrZero(r.planDemanda)) as real)
              && t.(ventaReal := rows[i].ventaReal, pvpProm := rows[i].pvpProm, error := rows[i].error,
                    errorAbs := rows[i].errorAbs, perdidaValorizada := rows[i].perdidaValorizada) == rows[i]
  {
    var cands := NoSaleCandidates(cohort, keys);
    SelectDistinct(cohort, r => RowKey(r) !in keys);
    PerRowDistinct(cands, NoSalePatch);
    var ws := PerRow(cands, NoSalePatch);
    ApplyWritesPointwise(rows, ws, rejected);
    NoSaleWriteFor(cohort, keys, rows[i].id);
    forall r | r in cohort && r.id == rows[i].id && RowKey(r) !in keys && r.id !in rejected
      ensures var t := ApplyWrites(rows, ws, rejected)[i];
              t.ventaReal == Some(0.0) && t.pvpProm == Some(0.0) && t.error == Some(-Ceil(OrZero(r.planDemanda)) as real)
              && t.(ventaReal := rows[i].ventaReal, pvpProm := rows[i].pvpProm, error := rows[i].error,
                    errorAbs := rows[i].errorAbs, perdidaValorizada := rows[i].perdidaValorizada) == rows[i]
    {
      assert ApplyWrites(rows, ws, rejected)[i] == Apply(NoSalePatch(r), rows[i]);
      NoSaleFields(r, rows[i]);
    }
  }

  // ---------------------------------------------------------------------
  // Step 7: recompute the cohort
  // ---------------------------------------------------------------------

  /** The metrics of a row from its own stored sales, plan and prices. */
  function RecomputePatch(r: PlanRow): (p: Patch)
    ensures p.Metrics?
  {
    var m := CalculateMetrics(r.ventaReal, r.planDemanda, r.pvpProm, r.pvpPd);
    Metrics(m.error, m.errorAbs, m.perdida)
  }

  /** The three metric columns are set and agree with the calculator on the row's own values. */
  predicate MetricsConsistent(r: PlanRow)
  {
    var m := CalculateMetrics(r.ventaReal, r.planDemanda, r.pvpProm, r.pvpPd);
    r.error == Some(m.error as real) && r.errorAbs == Some(m.errorAbs as real) && r.perdidaValorizada == Some(m.perdida as real)
  }

  /** A recomputed row is consistent, and recomputing a consistent row changes nothing. */
  lemma RecomputeFixpoint(r: PlanRow)
    ensures MetricsConsistent(Apply(RecomputePatch(r), r))
    ensures MetricsConsistent(r) ==> Apply(RecomputePatch(r), r) == r
  {
  }

  /**
   * After step 7 every cohort row the store accepted a write for is
   * consistent, and every other row is as it was.
   */
  lemma RecomputeSettles(rows: seq<PlanRow>, semana: int, nodo: string, rejected: set<nat>, i: int)
    requires DistinctIds(rows) && 0 <= i < |rows|
    ensures var t := ApplyWrites(rows, PerRow(Cohort(rows, semana, nodo), RecomputePatch), rejected)[i];
            (InCohort(rows[i], semana, nodo) && rows[i].id !in rejected ==> t == Apply(RecomputePatch(rows[i]), rows[i]) && MetricsConsistent(t))
            && (!InCohort(rows[i], semana, nodo) || rows[i].id in rejected ==> t == rows[i])
  {
    var c := Cohort(rows, semana, nodo);
    SelectDistinct(rows, r => InCohort(r, semana, nodo));
    PerRowDistinct(c, RecomputePatch);
    var ws := PerRow(c, RecomputePatch);
    ApplyWritesPointwise(rows, ws, rejected);
    if InCohort(rows[i], semana, nodo) {
      assert rows[i] in c;
      var k :| 0 <= k < |c| && c[k] == rows[i];
      WriteForPerRow(c, RecomputePatch, k);
      RecomputeFixpoint(rows[i]);
    } else {
      forall k | 0 <= k < |c| ensures c[k].id != rows[i].id {
        SameIdSameRow(rows, c[k], rows[i]);
      }
      assert WriteFor(ws, rows[i].id).None?;
    }
  }

  // ---------------------------------------------------------------------
  // The table after the seven steps
  // ---------------------------------------------------------------------

  /**
   * Steps 1 to 5 on a table whose next fresh id is `nextId` and whose
   * write counter stands at `w0`: the updates of the matched keys applied
   * in order, then the stored insert batches appended.
   */
  function Merged(rows: seq<PlanRow>, nextId: nat, w0: nat, failing: set<nat>, rejected: set<nat>,
                  sales: seq<SalesRecord>, weekNum: int, nodo: string): seq<PlanRow>
  {
    var m := ExistingMapOf(Cohort(rows, weekNum, nodo));
    ApplyWrites(rows, ItemWrites(UpdatesOf(sales, m)), rejected) + Inserted(InsertsOf(sales, m, nodo), nextId, w0, failing)
  }

  /** Step 6: the no-sale writes for the existing rows whose key the file lacks. */
  function Marked(rows: seq<PlanRow>, existing: seq<PlanRow>, keys: set<string>, rejected: set<nat>): seq<PlanRow>
  {
    ApplyWrites(rows, PerRow(NoSaleCandidates(existing, keys), NoSalePatch), rejected)
  }

  /** Step 7: the metrics of every cohort row from its own stored values. */
  function Recomputed(rows: seq<PlanRow>, weekNum: int, nodo: string, rejected: set<nat>): seq<PlanRow>
  {
    ApplyWrites(rows, PerRow(Cohort(rows, weekNum, nodo), RecomputePatch), rejected)
  }

  /** The table after the whole reconciliation of the records `sales`. */
  function Reconciled(rows: seq<PlanRow>, nextId: nat, w0: nat, failing: set<nat>, rejected: set<nat>,
                      sales: seq<SalesRecord>, weekNum: int, nodo: string): seq<PlanRow>
  {
    var merged := Merged(rows, nextId, w0, failing, rejected, sales, weekNum, nodo);
    Recomputed(Marked(merged, Cohort(rows, weekNum, nodo), SaleKeys(sales), rejected), weekNum, nodo, rejected)
  }

  /**
   * The response's errors before the cut to ten: an entry per update the
   * store refuses, in file order, then one per refused insert batch.
   */
  function SalesErrors(rows: seq<PlanRow>, w0: nat, failing: set<nat>, rejected: set<nat>,
                       sales: seq<SalesRecord>, weekNum: int, nodo: string): seq<SalesError>
  {
    var m := ExistingMapOf(Cohort(rows, weekNum, nodo));
    var bs := Batches(InsertsOf(sales, m, nodo), BatchSize);
    UpdateFailures(UpdatesOf(sales, m), rejected) + InsertFailures(InsertOks(bs, w0, failing))
  }

  /** The details of steps 4 and 5 before any cut: every update, then the rows of the stored insert batches. */
  function MergeDetails(rows: seq<PlanRow>, w0: nat, failing: set<nat>,
                        sales: seq<SalesRecord>, weekNum: int, nodo: string): seq<Detail>
  {
    var m := ExistingMapOf(Cohort(rows, weekNum, nodo));
    var bs := Batches(InsertsOf(sales, m, nodo), BatchSize);
    UpdateDetails(UpdatesOf(sales, m)) + InsertDetails(Kept(bs, InsertOks(bs, w0, failing)))
  }

  /** The response's details before the cut to fifty: those of steps 4 and 5, then the rows without sale. */
  function SalesDetails(rows: seq<PlanRow>, w0: nat, failing: set<nat>,
                        sales: seq<SalesRecord>, weekNum: int, nodo: string): seq<Detail>
  {
    MergeDetails(rows, w0, failing, sales, weekNum, nodo)
      + NoSaleDetails(NoSaleCandidates(Cohort(rows, weekNum, nodo), SaleKeys(sales)))
  }

  /** Every update is either accepted or leaves exactly one error. */
  lemma {:induction false} UpdateFailuresCount(items: seq<UpdateItem>, rejected: set<nat>)
    ensures |UpdateFailures(items, rejected)| + Succeeded(ItemWrites(items), rejected) == |items|
  {
    if |items| > 0 {
      var n := |items| - 1;
      assert ItemWrites(items[..n]) == ItemWrites(items)[..n];
      UpdateFailuresCount(items[..n], rejected);
    }
  }

  /**
   * The error list holds one entry per refused update and one per
   * refused insert batch, and nothing else.
   */
  lemma SalesErrorsCount(rows: seq<PlanRow>, w0: nat, failing: set<nat>, rejected: set<nat>,
                         sales: seq<SalesRecord>, weekNum: int, nodo: string)
    ensures var m := ExistingMapOf(Cohort(rows, weekNum, nodo));
            var us := UpdatesOf(sales, m);
            var bs := Batches(InsertsOf(sales, m, nodo), BatchSize);
            |SalesErrors(rows, w0, failing, rejected, sales, weekNum, nodo)|
              == (|us| - Succeeded(ItemWrites(us), rejected)) + (|bs| - CountTrue(InsertOks(bs, w0, failing)))
  {
    var m := ExistingMapOf(Cohort(rows, weekNum, nodo));
    UpdateFailuresCount(UpdatesOf(sales, m), rejected);
  }

  /** A key of the file that its last record lacks is a key of the records before it. */
  lemma KeyInPrefix(sales: seq<SalesRecord>, k: string)
    requires k in SaleKeys(sales) && KeyOf(sales[|sales| - 1]) != k
    ensures k in SaleKeys(sales[..|sales| - 1])
  {
    var r :| r in sales && KeyOf(r) == k;
    var j :| 0 <= j < |sales| && sales[j] == r;
    assert sales[..|sales| - 1][j] == r;
  }

  /** The position of the last record of the file with key `k`. */
  function LastSaleIndex(sales: seq<SalesRecord>, k: string): (j: nat)
    requires k in SaleKeys(sales)
    ensures j < |sales| && KeyOf(sales[j]) == k
    ensures forall j' :: j < j' < |sales| ==> KeyOf(sales[j']) != k
  {
    var n := |sales| - 1;
    if KeyOf(sales[n]) == k then n
    else
      KeyInPrefix(sales, k);
      var j := LastSaleIndex(sales[..n], k);
      assert forall j' :: j < j' < n ==> sales[..n][j'] == sales[j'];
      j
  }

  /** The last record of the file with key `k`. */
  function LastSale(sales: seq<SalesRecord>, k: string): (r: SalesRecord)
    requires k in SaleKeys(sales)
    ensures r in sales && KeyOf(r) == k
  {
    sales[LastSaleIndex(sales, k)]
  }

  /** Each key of the map holds the entry of a row with that key. */
  lemma {:induction false} ExistingMapValues(rows: seq<PlanRow>)
    ensures forall k :: k in ExistingMapOf(rows) ==>
              exists r :: r in rows && RowKey(r) == k && ExistingMapOf(rows)[k] == ExistingEntry(r)
  {
    if |rows| > 0 {
      var n := |rows| - 1;
      ExistingMapValues(rows[..n]);
      var prev := ExistingMapOf(rows[..n]);
      forall k | k in ExistingMapOf(rows)
        ensures exists r :: r in rows && RowKey(r) == k && ExistingMapOf(rows)[k] == ExistingEntry(r)
      {
        if k == RowKey(rows[n]) {
          assert rows[n] in rows;
        } else {
          var r :| r in rows[..n] && RowKey(r) == k && prev[k] == ExistingEntry(r);
          assert r in rows;
        }
      }
    }
  }

  /** Every update addresses an existing cohort row whose key the file has, and carries sales figures. */
  lemma {:induction false} UpdateTargets(cohort: seq<PlanRow>, sales: seq<SalesRecord>)
    ensures var ws := ItemWrites(UpdatesOf(sales, ExistingMapOf(cohort)));
            forall k :: 0 <= k < |ws| ==>
              ws[k].patch.SalesFigures? && exists r :: r in cohort && r.id == ws[k].id && RowKey(r) in SaleKeys(sales)
  {
    var m := ExistingMapOf(cohort);
    var items := UpdatesOf(sales, m);
    UpdatesSound(sales, m);
    ExistingMapValues(cohort);
    forall k | 0 <= k < |items|
      ensures items[k].write.patch.SalesFigures?
      ensures exists r :: r in cohort && r.id == items[k].write.id && RowKey(r) in SaleKeys(sales)
    {
      assert items[k] in items;
      var rec :| rec in sales && KeyOf(rec) in m && items[k] == UpdateFor(rec, m[KeyOf(rec)]);
      var r :| r in cohort && RowKey(r) == KeyOf(rec) && m[KeyOf(rec)] == ExistingEntry(r);
    }
  }

  /** The last update of a matched row's id comes from the file's last record with its key. */
  lemma {:induction false} LastUpdate(sales: seq<SalesRecord>, m: map<string, ExistingRecord>, k: string)
    requires k in SaleKeys(sales) && k in m
    requires forall k' :: k' in m && m[k'].id == m[k].id ==> k' == k
    ensures WriteFor(ItemWrites(UpdatesOf(sales, m)), m[k].id) == Some(UpdateFor(LastSale(sales, k), m[k]).write.patch)
  {
    var n := |sales| - 1;
    var prev := UpdatesOf(sales[..n], m);
    var key := KeyOf(sales[n]);
    if key in m {
      var u := UpdateFor(sales[n], m[key]);
      ItemListsAppend(prev, [u]);
      WriteForSnoc(ItemWrites(prev), u.write, m[k].id);
    }
    if key != k {
      KeyInPrefix(sales, k);
      LastUpdate(sales[..n], m, k);
    }
  }

  /** Sales figures never touch the plan or the list price. */
  lemma {:induction false} FiguresKeepPlan(rows: seq<PlanRow>, ws: seq<Write>, rejected: set<nat>)
    requires forall k :: 0 <= k < |ws| ==> ws[k].patch.SalesFigures?
    ensures forall i :: 0 <= i < |rows| ==>
              ApplyWrites(rows, ws, rejected)[i].planDemanda == rows[i].planDemanda
              && ApplyWrites(rows, ws, rejected)[i].pvpPd == rows[i].pvpPd
  {
    if |ws| > 0 {
      FiguresKeepPlan(rows, ws[..|ws| - 1], rejected);
    }
  }

  /** A row receives the sales and average price of the last sales write addressed to it. */
  lemma {:induction false} SalesWritten(rows: seq<PlanRow>, ws: seq<Write>, rejected: set<nat>, i: int)
    requires 0 <= i < |rows| && rows[i].id !in rejected
    requires forall k :: 0 <= k < |ws| ==> ws[k].patch.SalesFigures?
    requires WriteFor(ws, rows[i].id).Some?
    ensures var t := ApplyWrites(rows, ws, rejected)[i];
            var p := WriteFor(ws, rows[i].id).value;
            p.SalesFigures? && t.ventaReal == Some(p.venta) && t.pvpProm == Some(p.pvpProm)
  {
    var n := |ws| - 1;
    var prev := ApplyWrites(rows, ws[..n], rejected);
    ApplyWritesIdentity(rows, ws[..n], rejected);
    assert prev[i].id == rows[i].id;
    if ws[n].id == rows[i].id {
      assert WriteFor(ws, rows[i].id) == Some(ws[n].patch);
      assert ApplyWrites(rows, ws, rejected)[i] == Apply(ws[n].patch, prev[i]);
    } else {
      assert WriteFor(ws, rows[i].id) == WriteFor(ws[..n], rows[i].id);
      assert ApplyWrites(rows, ws, rejected)[i] == prev[i];
      SalesWritten(rows, ws[..n], rejected, i);
    }
  }

  /** Steps 1 to 5 keep the old rows in place with their identities, follow them with the stored inserts and keep ids distinct. */
  lemma {:induction false} MergedShape(rows: seq<PlanRow>, nextId: nat, w0: nat, failing: set<nat>, rejected: set<nat>,
                    sales: seq<SalesRecord>, weekNum: int, nodo: string)
    requires IdsBelow(rows, nextId)
    ensures var m := ExistingMapOf(Cohort(rows, weekNum, nodo));
            var t := Merged(rows, nextId, w0, failing, rejected, sales, weekNum, nodo);
            var ins := Inserted(InsertsOf(sales, m, nodo), nextId, w0, failing);
            |t| == |rows| + |ins| && DistinctIds(t)
            && (forall i :: 0 <= i < |rows| ==> t[i] == ApplyWrites(rows, ItemWrites(UpdatesOf(sales, m)), rejected)[i])
            && (forall j :: |rows| <= j < |t| ==> t[j] == ins[j - |rows|] && t[j].id == nextId + (j - |rows|))
  {
    var m := ExistingMapOf(Cohort(rows, weekNum, nodo));
    var ws := ItemWrites(UpdatesOf(sales, m));
    var u := ApplyWrites(rows, ws, rejected);
    var ins := Inserted(InsertsOf(sales, m, nodo), nextId, w0, failing);
    var t := Merged(rows, nextId, w0, failing, rejected, sales, weekNum, nodo);
    assert t == u + ins;
    WritesKeepFresh(rows, ws, rejected, nextId);
    InsertedRows(InsertsOf(sales, m, nodo), nextId, w0, failing);
    ConcatShape(u, nextId, ins);
    assert |u| == |rows|;
  }

  /** Steps 1 to 5 at an old row: the row after the updates, in a table with distinct ids. */
  lemma {:induction false} MergedOld(rows: seq<PlanRow>, nextId: nat, w0: nat, failing: set<nat>, rejected: set<nat>,
                                     sales: seq<SalesRecord>, weekNum: int, nodo: string, i: int)
    requires IdsBelow(rows, nextId) && 0 <= i < |rows|
    ensures var t := Merged(rows, nextId, w0, failing, rejected, sales, weekNum, nodo);
            |rows| <= |t| && DistinctIds(t)
            && t[i] == ApplyWrites(rows, ItemWrites(UpdatesOf(sales, ExistingMapOf(Cohort(rows, weekNum, nodo)))), rejected)[i]
            && SameIdentity(t[i], rows[i])
  {
    MergedShape(rows, nextId, w0, failing, rejected, sales, weekNum, nodo);
    ApplyWritesIdentity(rows, ItemWrites(UpdatesOf(sales, ExistingMapOf(Cohort(rows, weekNum, nodo)))), rejected);
  }

  /** Step 4 leaves alone a row outside the cohort and a row whose key the file lacks. */
  lemma {:induction false} NotUpdated(rows: seq<PlanRow>, sales: seq<SalesRecord>, weekNum: int, nodo: string, rejected: set<nat>, i: int)
    requires DistinctIds(rows) && 0 <= i < |rows|
    requires !InCohort(rows[i], weekNum, nodo) || RowKey(rows[i]) !in SaleKeys(sales)
    ensures ApplyWrites(rows, ItemWrites(UpdatesOf(sales, ExistingMapOf(Cohort(rows, weekNum, nodo)))), rejected)[i] == rows[i]
  {
    var cohort := Cohort(rows, weekNum, nodo);
    var ws := ItemWrites(UpdatesOf(sales, ExistingMapOf(cohort)));
    UpdateTargets(cohort, sales);
    forall k | 0 <= k < |ws| ensures ws[k].id != rows[i].id {
      var r :| r in cohort && r.id == ws[k].id && RowKey(r) in SaleKeys(sales);
      SameIdSameRow(rows, r, rows[i]);
    }
    NotReached(rows, ws, rejected, i);
  }

  /**
   * Step 6 leaves alone a row of `t` with the id of table row `rows[i]`
   * when that row is outside the cohort or its key is in the file.
   */
  lemma {:induction false} NotMarked(t: seq<PlanRow>, rows: seq<PlanRow>, weekNum: int, nodo: string, keys: set<string>,
                                     rejected: set<nat>, i: int)
    requires DistinctIds(rows) && 0 <= i < |rows| && i < |t| && t[i].id == rows[i].id
    requires !InCohort(rows[i], weekNum, nodo) || RowKey(rows[i]) in keys
    ensures Marked(t, Cohort(rows, weekNum, nodo), keys, rejected)[i] == t[i]
  {
    var cohort := Cohort(rows, weekNum, nodo);
    CohortDistinct(rows, weekNum, nodo);
    forall r | r in cohort && r.id == t[i].id ensures RowKey(r) in keys {
      SameIdSameRow(rows, r, rows[i]);
    }
    NoSaleMarking(t, cohort, keys, rejected, i);
  }

  /** Step 7 at row `i` of a table with distinct ids, with the ids of step 6's input. */
  lemma {:induction false} RecomputedAt(t5: seq<PlanRow>, cohort: seq<PlanRow>, keys: set<string>, weekNum: int, nodo: string,
                                        rejected: set<nat>, i: int)
    requires DistinctIds(t5) && 0 <= i < |t5|
    ensures var t6 := Marked(t5, cohort, keys, rejected);
            var t := Recomputed(t6, weekNum, nodo, rejected)[i];
            SameIdentity(t6[i], t5[i])
            && (InCohort(t5[i], weekNum, nodo) && t5[i].id !in rejected ==> t == Apply(RecomputePatch(t6[i]), t6[i]) && MetricsConsistent(t))
            && (!InCohort(t5[i], weekNum, nodo) || t5[i].id in rejected ==> t == t6[i])
  {
    var t6 := Marked(t5, cohort, keys, rejected);
    ApplyWritesIdentity(t5, PerRow(NoSaleCandidates(cohort, keys), NoSalePatch), rejected);
    assert SameIdentity(t6[i], t5[i]);
    RecomputeSettles(t6, weekNum, nodo, rejected, i);
  }

  /** Rows outside the cohort, and rows whose id the store refuses, end as they were. */
  lemma {:induction false} ReconciledElsewhere(rows: seq<PlanRow>, nextId: nat, w0: nat, failing: set<nat>, rejected: set<nat>,
                            sales: seq<SalesRecord>, weekNum: int, nodo: string, i: int)
    requires IdsBelow(rows, nextId) && 0 <= i < |rows|
    requires !InCohort(rows[i], weekNum, nodo) || rows[i].id in rejected
    ensures Reconciled(rows, nextId, w0, failing, rejected, sales, weekNum, nodo)[i] == rows[i]
  {
    var cohort := Cohort(rows, weekNum, nodo);
    var keys := SaleKeys(sales);
    var ws := ItemWrites(UpdatesOf(sales, ExistingMapOf(cohort)));
    var t5 := Merged(rows, nextId, w0, failing, rejected, sales, weekNum, nodo);
    var t6 := Marked(t5, cohort, keys, rejected);
    MergedOld(rows, nextId, w0, failing, rejected, sales, weekNum, nodo, i);
    if rows[i].id in rejected {
      NotReached(rows, ws, rejected, i);
      assert t5[i] == rows[i];
      NotReached(t5, PerRow(NoSaleCandidates(cohort, keys), NoSalePatch), rejected, i);
      assert t6[i] == rows[i];
    } else {
      NotUpdated(rows, sales, weekNum, nodo, rejected, i);
      assert t5[i] == rows[i];
      NotMarked(t5, rows, weekNum, nodo, keys, rejected, i);
    }
    RecomputedAt(t5, cohort, keys, weekNum, nodo, rejected, i);
  }

  /**
   * An existing cohort row whose key the file lacks ends with zero sales
   * and zero average price, the metrics of a zero sale against its own
   * plan, and every other column as it was.
   */
  lemma {:induction false} ReconciledNoSale(rows: seq<PlanRow>, nextId: nat, w0: nat, failing: set<nat>, rejected: set<nat>,
                         sales: seq<SalesRecord>, weekNum: int, nodo: string, i: int)
    requires IdsBelow(rows, nextId) && 0 <= i < |rows|
    requires InCohort(rows[i], weekNum, nodo) && RowKey(rows[i]) !in SaleKeys(sales) && rows[i].id !in rejected
    ensures var t := Reconciled(rows, nextId, w0, failing, rejected, sales, weekNum, nodo)[i];
            t.ventaReal == Some(0.0) && t.pvpProm == Some(0.0) && MetricsConsistent(t)
            && t.error == Some(-Ceil(OrZero(rows[i].planDemanda)) as real)
            && t.(ventaReal := rows[i].ventaReal, pvpProm := rows[i].pvpProm, error := rows[i].error,
                  errorAbs := rows[i].errorAbs, perdidaValorizada := rows[i].perdidaValorizada) == rows[i]
  {
    var cohort := Cohort(rows, weekNum, nodo);
    var keys := SaleKeys(sales);
    var t5 := Merged(rows, nextId, w0, failing, rejected, sales, weekNum, nodo);
    var t6 := Marked(t5, cohort, keys, rejected);
    MergedOld(rows, nextId, w0, failing, rejected, sales, weekNum, nodo, i);
    NotUpdated(rows, sales, weekNum, nodo, rejected, i);
    assert t5[i] == rows[i];
    assert rows[i] in cohort;
    CohortDistinct(rows, weekNum, nodo);
    NoSaleMarking(t5, cohort, keys, rejected, i);
    var t := Reconciled(rows, nextId, w0, failing, rejected, sales, weekNum, nodo)[i];
    assert t == Recomputed(t6, weekNum, nodo, rejected)[i];
    assert t6[i].ventaReal == Some(0.0) && t6[i].pvpProm == Some(0.0)
           && t6[i].(ventaReal := rows[i].ventaReal, pvpProm := rows[i].pvpProm, error := rows[i].error,
                     errorAbs := rows[i].errorAbs, perdidaValorizada := rows[i].perdidaValorizada) == rows[i];
    RecomputedAt(t5, cohort, keys, weekNum, nodo, rejected, i);
    assert t == Apply(RecomputePatch(t6[i]), t6[i]);
    MetricsKeepSales(RecomputePatch(t6[i]), t6[i]);
    assert t.ventaReal == Some(0.0) && t.pvpProm == Some(0.0) && t.planDemanda == rows[i].planDemanda;
    ZeroSaleError(t.planDemanda, t.pvpPd);
    assert t.error == Some(CalculateMetrics(t.ventaReal, t.planDemanda, t.pvpProm, t.pvpPd).error as real);
    SalesColumnsOnly(t, t6[i], rows[i]);
  }

  /** The last update of a cohort row that the map holds for its key. */
  lemma {:induction false} MatchedUpdate(rows: seq<PlanRow>, sales: seq<SalesRecord>, weekNum: int, nodo: string, rejected: set<nat>, i: int)
    requires DistinctIds(rows) && 0 <= i < |rows|
    requires InCohort(rows[i], weekNum, nodo) && RowKey(rows[i]) in SaleKeys(sales) && rows[i].id !in rejected
    requires RowKey(rows[i]) in ExistingMapOf(Cohort(rows, weekNum, nodo))
    requires ExistingMapOf(Cohort(rows, weekNum, nodo))[RowKey(rows[i])].id == rows[i].id
    ensures var t := ApplyWrites(rows, ItemWrites(UpdatesOf(sales, ExistingMapOf(Cohort(rows, weekNum, nodo)))), rejected)[i];
            var rec := LastSale(sales, RowKey(rows[i]));
            t.ventaReal == Some(rec.totalVendido) && t.pvpProm == Some(rec.precioPromedio)
            && t.planDemanda == rows[i].planDemanda && t.pvpPd == rows[i].pvpPd
  {
    var cohort := Cohort(rows, weekNum, nodo);
    var m := ExistingMapOf(cohort);
    var k := RowKey(rows[i]);
    var ws := ItemWrites(UpdatesOf(sales, m));
    CohortDistinct(rows, weekNum, nodo);
    assert rows[i] in cohort;
    ExistingMapValues(cohort);
    forall k' | k' in m && m[k'].id == m[k].id ensures k' == k {
      var r :| r in cohort && RowKey(r) == k' && m[k'] == ExistingEntry(r);
      SameIdSameRow(cohort, r, rows[i]);
    }
    LastUpdate(sales, m, k);
    UpdateTargets(cohort, sales);
    SalesWritten(rows, ws, rejected, i);
    FiguresKeepPlan(rows, ws, rejected);
  }

  /**
   * An existing cohort row that the map holds for its key, when the file
   * has that key, ends with the sales and average price of the file's
   * last record with the key, its own plan and list price, and metrics
   * consistent with those values.
   */
  lemma {:induction false} ReconciledMatched(rows: seq<PlanRow>, nextId: nat, w0: nat, failing: set<nat>, rejected: set<nat>,
                          sales: seq<SalesRecord>, weekNum: int, nodo: string, i: int)
    requires IdsBelow(rows, nextId) && 0 <= i < |rows|
    requires InCohort(rows[i], weekNum, nodo) && RowKey(rows[i]) in SaleKeys(sales) && rows[i].id !in rejected
    requires RowKey(rows[i]) in ExistingMapOf(Cohort(rows, weekNum, nodo))
    requires ExistingMapOf(Cohort(rows, weekNum, nodo))[RowKey(rows[i])].id == rows[i].id
    ensures var t := Reconciled(rows, nextId, w0, failing, rejected, sales, weekNum, nodo)[i];
            var rec := LastSale(sales, RowKey(rows[i]));
            t.ventaReal == Some(rec.totalVendido) && t.pvpProm == Some(rec.precioPromedio)
            && t.planDemanda == rows[i].planDemanda && t.pvpPd == rows[i].pvpPd && MetricsConsistent(t)
  {
    var cohort := Cohort(rows, weekNum, nodo);
    var keys := SaleKeys(sales);
    var t5 := Merged(rows, nextId, w0, failing, rejected, sales, weekNum, nodo);
    MergedOld(rows, nextId, w0, failing, rejected, sales, weekNum, nodo, i);
    MatchedUpdate(rows, sales, weekNum, nodo, rejected, i);
    NotMarked(t5, rows, weekNum, nodo, keys, rejected, i);
    RecomputedAt(t5, cohort, keys, weekNum, nodo, rejected, i);
    var t6 := Marked(t5, cohort, keys, rejected);
    var t := Reconciled(rows, nextId, w0, failing, rejected, sales, weekNum, nodo)[i];
    assert t == Recomputed(t6, weekNum, nodo, rejected)[i];
    assert t == Apply(RecomputePatch(t5[i]), t5[i]);
    MetricsKeepSales(RecomputePatch(t5[i]), t5[i]);
  }

  /**
   * A row that differs from `mid` only in the metrics, where `mid` differs
   * from `r` only in sales, average price and metrics, differs from `r`
   * only in those five columns.
   */
  lemma SalesColumnsOnly(t: PlanRow, mid: PlanRow, r: PlanRow)
    requires t.(error := mid.error, errorAbs := mid.errorAbs, perdidaValorizada := mid.perdidaValorizada) == mid
    requires mid.(ventaReal := r.ventaReal, pvpProm := r.pvpProm, error := r.error,
                  errorAbs := r.errorAbs, perdidaValorizada := r.perdidaValorizada) == r
    ensures t.(ventaReal := r.ventaReal, pvpProm := r.pvpProm, error := r.error,
               errorAbs := r.errorAbs, perdidaValorizada := r.perdidaValorizada) == r
  {
  }

  /** With no sales, the error is minus the rounded-up plan. */
  lemma ZeroSaleError(plan: Option<real>, pvpPd: Option<real>)
    ensures CalculateMetrics(Some(0.0), plan, Some(0.0), pvpPd).error == -Ceil(OrZero(plan))
  {
    assert Floor(0.0) == 0;
  }

  /** A metrics write keeps sales, prices and plan. */
  lemma MetricsKeepSales(p: Patch, r: PlanRow)
    requires p.Metrics?
    ensures var t := Apply(p, r);
            t.ventaReal == r.ventaReal && t.pvpProm == r.pvpProm && t.planDemanda == r.planDemanda && t.pvpPd == r.pvpPd
            && t.(error := r.error, errorAbs := r.errorAbs, perdidaValorizada := r.perdidaValorizada) == r
  {
  }

  /** A new row already carries the metrics of its own values. */
  lemma InsertForConsistent(rec: SalesRecord, nodo: string)
    ensures MetricsConsistent(InsertFor(rec, nodo))
  {
  }

  /** Each stored insert is the row built for a record without an existing row. */
  lemma {:induction false} InsertedBuilt(sales: seq<SalesRecord>, m: map<string, ExistingRecord>, nodo: string,
                                         nextId: nat, w0: nat, failing: set<nat>, k: int)
    requires 0 <= k < |Inserted(InsertsOf(sales, m, nodo), nextId, w0, failing)|
    ensures MetricsConsistent(Inserted(InsertsOf(sales, m, nodo), nextId, w0, failing)[k])
  {
    var ins := Inserted(InsertsOf(sales, m, nodo), nextId, w0, failing);
    InsertedRows(InsertsOf(sales, m, nodo), nextId, w0, failing);
    InsertsSound(sales, m, nodo);
    var x :| x in InsertsOf(sales, m, nodo) && ins[k] == x.(id := nextId + k);
    var rec :| rec in sales && KeyOf(rec) !in m && x == InsertFor(rec, nodo);
    InsertForConsistent(rec, nodo);
  }

  /** Steps 6 and 7 leave a stored insert as built. */
  lemma {:induction false} InsertedAt(rows: seq<PlanRow>, nextId: nat, w0: nat, failing: set<nat>, rejected: set<nat>,
                                      sales: seq<SalesRecord>, weekNum: int, nodo: string, j: int)
    requires IdsBelow(rows, nextId)
    requires |rows| <= j < |Merged(rows, nextId, w0, failing, rejected, sales, weekNum, nodo)|
    ensures var ins := Inserted(InsertsOf(sales, ExistingMapOf(Cohort(rows, weekNum, nodo)), nodo), nextId, w0, failing);
            |Reconciled(rows, nextId, w0, failing, rejected, sales, weekNum, nodo)| == |rows| + |ins|
            && Reconciled(rows, nextId, w0, failing, rejected, sales, weekNum, nodo)[j] == ins[j - |rows|]
  {
    var cohort := Cohort(rows, weekNum, nodo);
    var m := ExistingMapOf(cohort);
    var keys := SaleKeys(sales);
    var t5 := Merged(rows, nextId, w0, failing, rejected, sales, weekNum, nodo);
    var t6 := Marked(t5, cohort, keys, rejected);
    MergedShape(rows, nextId, w0, failing, rejected, sales, weekNum, nodo);
    CohortDistinct(rows, weekNum, nodo);
    forall r | r in cohort ensures r.id < nextId {
      var idx :| 0 <= idx < |rows| && rows[idx] == r;
    }
    NoSaleMarking(t5, cohort, keys, rejected, j);
    RecomputedAt(t5, cohort, keys, weekNum, nodo, rejected, j);
    InsertedBuilt(sales, m, nodo, nextId, w0, failing, j - |rows|);
    RecomputeFixpoint(t6[j]);
  }

  /**
   * The rows after the old ones are the stored insert batches under
   * fresh ids, as built: the no-sale writes and the recompute leave them
   * as they are.
   */
  lemma {:induction false} ReconciledInserted(rows: seq<PlanRow>, nextId: nat, w0: nat, failing: set<nat>, rejected: set<nat>,
                           sales: seq<SalesRecord>, weekNum: int, nodo: string)
    requires IdsBelow(rows, nextId)
    ensures var ins := Inserted(InsertsOf(sales, ExistingMapOf(Cohort(rows, weekNum, nodo)), nodo), nextId, w0, failing);
            var t := Reconciled(rows, nextId, w0, failing, rejected, sales, weekNum, nodo);
            |t| == |rows| + |ins| && t[|rows|..] == ins
  {
    var cohort := Cohort(rows, weekNum, nodo);
    var m := ExistingMapOf(cohort);
    var keys := SaleKeys(sales);
    var ins := Inserted(InsertsOf(sales, m, nodo), nextId, w0, failing);
    var t5 := Merged(rows, nextId, w0, failing, rejected, sales, weekNum, nodo);
    var t6 := Marked(t5, cohort, keys, rejected);
    var t := Reconciled(rows, nextId, w0, failing, rejected, sales, weekNum, nodo);
    MergedShape(rows, nextId, w0, failing, rejected, sales, weekNum, nodo);
    CohortDistinct(rows, weekNum, nodo);
    forall j | |rows| <= j < |t| ensures t[j] == ins[j - |rows|] {
      InsertedAt(rows, nextId, w0, failing, rejected, sales, weekNum, nodo, j);
    }
    assert t[|rows|..] == ins;
  }

  // ---------------------------------------------------------------------
  // The route
  // ---------------------------------------------------------------------

  datatype SalesResponse =
    | MissingFile
    | InvalidFileType
    | EmptyFile
    | InvalidStructure(headers: seq<string>, missing: seq<string>)
    | Processed(updated: nat, inserted: nat, noSales: nat, total: nat, errors: Option<seq<SalesError>>, details: seq<Detail>)

  /**
   * Steps 1 to 5: the cohort's records by key, the file's records, the
   * updates of matched keys and the inserts of the others.
   */
  method MergeSales(store: Store, body: seq<string>, sep: char, cols: SalesColumns, weekNum: int, nodo: string)
    returns (existing: seq<PlanRow>, keys: set<string>, updated: nat, inserted: nat, errors: seq<SalesError>, details: seq<Detail>)
    requires store.Valid()
    modifies store`rows, store`nextId, store`writes
    ensures store.Valid() && |details| <= DetailCap
    ensures existing == Cohort(old(store.rows), weekNum, nodo)
    ensures keys == SaleKeys(SalesRows(body, sep, cols, weekNum))
    ensures updated == Succeeded(ItemWrites(UpdatesOf(SalesRows(body, sep, cols, weekNum), ExistingMapOf(existing))), store.rejectedIds)
    ensures inserted == |Inserted(InsertsOf(SalesRows(body, sep, cols, weekNum), ExistingMapOf(existing), nodo),
                                  old(store.nextId), old(store.writes), store.failingWrites)|
    ensures store.rows == Merged(old(store.rows), old(store.nextId), old(store.writes), store.failingWrites, store.rejectedIds,
                                 SalesRows(body, sep, cols, weekNum), weekNum, nodo)
    ensures errors == SalesErrors(old(store.rows), old(store.writes), store.failingWrites, store.rejectedIds,
                                  SalesRows(body, sep, cols, weekNum), weekNum, nodo)
    ensures details == DetailList(MergeDetails(old(store.rows), old(store.writes), store.failingWrites,
                                               SalesRows(body, sep, cols, weekNum), weekNum, nodo))
  {
    ghost var rows0, w0 := store.rows, store.writes;
    // Step 1: the cohort as it stands, by key.
    existing := Cohort(store.rows, weekNum, nodo);
    var existingMap := BuildExistingMap(existing);
    // Step 2: the records of the file.
    var sales;
    sales, keys := ParseSalesRows(body, sep, cols, weekNum);
    // Step 3: updates and inserts.
    var toUpdate, toInsert := PartitionSales(sales, existingMap, nodo);
    // Step 4.
    var updateErrors, insertErrors;
    var insertOks;
    updated, updateErrors, details := ApplyUpdates(store, toUpdate, []);
    ghost var rows1 := store.rows;
    assert rows1 == ApplyWrites(rows0, ItemWrites(toUpdate), store.rejectedIds);
    DetailListAppend([], UpdateDetails(toUpdate));
    assert [] + UpdateDetails(toUpdate) == UpdateDetails(toUpdate);
    // Step 5.
    assert store.writes == w0;
    ghost var oks0 := InsertOks(Batches(toInsert, BatchSize), w0, store.failingWrites);
    ghost var stored := Kept(Batches(toInsert, BatchSize), oks0);
    inserted, insertErrors, details, insertOks := InsertNewRows(store, toInsert, details);
    assert insertOks == oks0;
    assert store.rows == rows1 + Inserted(toInsert, old(store.nextId), w0, store.failingWrites);
    assert store.rows == Merged(rows0, old(store.nextId), w0, store.failingWrites, store.rejectedIds, sales, weekNum, nodo);
    DetailListAppend(UpdateDetails(toUpdate), InsertDetails(stored));
    errors := updateErrors + insertErrors;
    assert existingMap == ExistingMapOf(Cohort(rows0, weekNum, nodo));
    assert updateErrors == UpdateFailures(toUpdate, store.rejectedIds);
    assert errors == SalesErrors(rows0, w0, store.failingWrites, store.rejectedIds, sales, weekNum, nodo);
    assert details == DetailList(MergeDetails(rows0, w0, store.failingWrites, sales, weekNum, nodo));
  }

  /**
   * Steps 6 and 7: zero sales for the cohort's keys the file does not
   * mention, then the metrics of every cohort row from its own values.
   */
  method MarkAndRecompute(store: Store, existing: seq<PlanRow>, keys: set<string>, weekNum: int, nodo: string,
                          details0: seq<Detail>)
    returns (noSales: nat, details: seq<Detail>)
    requires store.Valid() && |details0| <= DetailCap
    modifies store`rows
    ensures store.Valid() && |details| <= DetailCap
    ensures noSales == Succeeded(PerRow(NoSaleCandidates(existing, keys), NoSalePatch), store.rejectedIds)
    ensures details == CapAppend(details0, NoSaleDetails(NoSaleCandidates(existing, keys)), DetailCap)
    ensures store.rows == Recomputed(Marked(old(store.rows), existing, keys, store.rejectedIds), weekNum, nodo, store.rejectedIds)
    ensures forall i :: 0 <= i < |store.rows| && InCohort(store.rows[i], weekNum, nodo) && store.rows[i].id !in store.rejectedIds
              ==> MetricsConsistent(store.rows[i])
  {
    // Step 6.
    var toMarkZero;
    toMarkZero, details := CollectNoSale(existing, keys, details0);
    var zeroOks := UpdateInBatches(store, PerRow(toMarkZero, NoSalePatch));
    noSales := CountTrue(zeroOks);
    CountAccepted(zeroOks, PerRow(toMarkZero, NoSalePatch), store.rejectedIds);
    // Step 7: an empty cohort makes no writes.
    ghost var before := store.rows;
    var all := Cohort(store.rows, weekNum, nodo);
    var recalculated := UpdateInBatches(store, PerRow(all, RecomputePatch));
    forall i | 0 <= i < |store.rows| && InCohort(store.rows[i], weekNum, nodo) && store.rows[i].id !in store.rejectedIds
      ensures MetricsConsistent(store.rows[i])
    {
      RecomputeSettles(before, weekNum, nodo, store.rejectedIds, i);
    }
  }

  /** The required columns the header of an uploaded text lacks. */
  function SalesMissing(text: string): seq<string>
    requires |NonBlankLines(text)| >= 1
  {
    var first := NonBlankLines(text)[0];
    MissingColumns(SalesRequired, NormalizeAll(HeaderNames(first, DetectSeparator(first))))
  }

  /** The records of an uploaded text: its data lines read under its header. */
  function FileSales(text: string, weekNum: int): seq<SalesRecord>
  {
    var lines := NonBlankLines(text);
    if |lines| < 2 then []
    else
      var sep := DetectSeparator(lines[0]);
      SalesRows(lines[1..], sep, SalesColumnMap(HeaderNames(lines[0], sep)), weekNum)
  }

  /**
   * The sales upload for `weekNum` and the form's channel (`nodoField`,
   * empty for the default).  Each refusal happens exactly when its
   * condition holds and changes nothing; otherwise the table becomes the
   * reconciliation of the file's records, the counts are the accepted
   * writes, the detail and error lists are capped, and every row of the
   * cohort the store accepted writes for carries the metrics of its own
   * values.
   */
  method UploadSales(store: Store, file: Option<UploadedFile>, weekNum: int, nodoField: string)
    returns (resp: SalesResponse)
    requires store.Valid()
    modifies store
    ensures store.Valid()
    ensures resp == MissingFile <==> file.None?
    ensures resp == InvalidFileType <==> file.Some? && !IsCsvName(file.value.name)
    ensures resp == EmptyFile <==> file.Some? && IsCsvName(file.value.name) && |NonBlankLines(file.value.text)| < 2
    ensures resp.InvalidStructure? <==>
              file.Some? && IsCsvName(file.value.name) && |NonBlankLines(file.value.text)| >= 2
              && |SalesMissing(file.value.text)| > 0
    ensures resp.InvalidStructure? ==> resp.missing == SalesMissing(file.value.text)
    ensures !resp.Processed? ==> store.rows == old(store.rows)
    ensures resp.Processed? ==>
              resp.total == resp.updated + resp.inserted + resp.noSales && |resp.details| <= DetailCap
              && (resp.errors.Some? ==> 0 < |resp.errors.value| <= ErrorCap)
    ensures resp.Processed? ==>
              var nodo := if nodoField == "" then DefaultNodo else nodoField;
              var sales := FileSales(file.value.text, weekNum);
              var cohort := Cohort(old(store.rows), weekNum, nodo);
              store.rows == Reconciled(old(store.rows), old(store.nextId), old(store.writes), store.failingWrites,
                                       store.rejectedIds, sales, weekNum, nodo)
              && resp.updated == Succeeded(ItemWrites(UpdatesOf(sales, ExistingMapOf(cohort))), store.rejectedIds)
              && resp.inserted == |Inserted(InsertsOf(sales, ExistingMapOf(cohort), nodo),
                                            old(store.nextId), old(store.writes), store.failingWrites)|
              && resp.noSales == Succeeded(PerRow(NoSaleCandidates(cohort, SaleKeys(sales)), NoSalePatch), store.rejectedIds)
              && resp.errors == ErrorList(SalesErrors(old(store.rows), old(store.writes), store.failingWrites,
                                                      store.rejectedIds, sales, weekNum, nodo))
              && resp.details == DetailList(SalesDetails(old(store.rows), old(store.writes), store.failingWrites,
                                                         sales, weekNum, nodo))
    ensures resp.Processed? ==>
              var nodo := if nodoField == "" then DefaultNodo else nodoField;
              forall i :: 0 <= i < |store.rows| && InCohort(store.rows[i], weekNum, nodo) && store.rows[i].id !in store.rejectedIds
                ==> MetricsConsistent(store.rows[i])
  {
    if file.None? {
      return MissingFile;
    }
    if !IsCsvName(file.value.name) {
      return InvalidFileType;
    }
    var text := file.value.text;
    var nodo := if nodoField == "" then DefaultNodo else nodoField;
    var lines := NonBlankLines(text);
    if |lines| < 2 {
      return EmptyFile;
    }
    var sep := DetectSeparator(lines[0]);
    var headers := HeaderNames(lines[0], sep);
    var check := ValidateHeaders(SalesRequired, headers, SalesHint);
    if !check.valid {
      return InvalidStructure(headers, check.missing);
    }
    resp := ReconcileFile(store, text, weekNum, nodo);
  }

  /** The seven steps on a file whose header has every required column. */
  method ReconcileFile(store: Store, text: string, weekNum: int, nodo: string) returns (resp: SalesResponse)
    requires store.Valid() && |NonBlankLines(text)| >= 2 && |SalesMissing(text)| == 0
    modifies store
    ensures store.Valid() && resp.Processed?
    ensures resp.total == resp.updated + resp.inserted + resp.noSales && |resp.details| <= DetailCap
            && (resp.errors.Some? ==> 0 < |resp.errors.value| <= ErrorCap)
    ensures var sales := FileSales(text, weekNum);
            var cohort := Cohort(old(store.rows), weekNum, nodo);
            store.rows == Reconciled(old(store.rows), old(store.nextId), old(store.writes), store.failingWrites,
                                     store.rejectedIds, sales, weekNum, nodo)
            && resp.updated == Succeeded(ItemWrites(UpdatesOf(sales, ExistingMapOf(cohort))), store.rejectedIds)
            && resp.inserted == |Inserted(InsertsOf(sales, ExistingMapOf(cohort), nodo),
                                          old(store.nextId), old(store.writes), store.failingWrites)|
            && resp.noSales == Succeeded(PerRow(NoSaleCandidates(cohort, SaleKeys(sales)), NoSalePatch), store.rejectedIds)
            && resp.errors == ErrorList(SalesErrors(old(store.rows), old(store.writes), store.failingWrites,
                                                    store.rejectedIds, sales, weekNum, nodo))
            && resp.details == DetailList(SalesDetails(old(store.rows), old(store.writes), store.failingWrites,
                                                       sales, weekNum, nodo))
    ensures forall i :: 0 <= i < |store.rows| && InCohort(store.rows[i], weekNum, nodo) && store.rows[i].id !in store.rejectedIds
              ==> MetricsConsistent(store.rows[i])
  {
    var lines := NonBlankLines(text);
    var sep := DetectSeparator(lines[0]);
    var cols := SalesColumnMap(HeaderNames(lines[0], sep));
    assert FileSales(text, weekNum) == SalesRows(lines[1..], sep, cols, weekNum);
    var existing, keys, updated, inserted, errors, details := MergeSales(store, lines[1..], sep, cols, weekNum, nodo);
    ghost var merged := MergeDetails(old(store.rows), old(store.writes), store.failingWrites,
                                     FileSales(text, weekNum), weekNum, nodo);
    var noSales, details6 := MarkAndRecompute(store, existing, keys, weekNum, nodo, details);
    DetailListAppend(merged, NoSaleDetails(NoSaleCandidates(existing, keys)));
    // The details never exceed the cap, so the final cut to fifty keeps them all.
    resp := Processed(updated, inserted, noSales, updated + inserted + noSales,
                      ErrorList(errors), details6);
  }
}
