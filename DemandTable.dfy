/**
 * The `Plan_Demanda` record store as the routes see it: one row per
 * (week, channel, account, SKU) with the plan, the actuals and the
 * derived loss figures, the partial updates the routes write, and an
 * in-memory store whose write failures are given in advance.  The
 * batch dispatcher groups work items in batches of fifty and runs them
 * one after another.
 */
module DemandTable {
  import opened Base

  /** A row of `Plan_Demanda`; a nullable column is an `Option`. */
  datatype PlanRow = PlanRow(
    id: nat,
    semana: Option<int>,
    nodo: Option<string>,
    cuenta: string,
    sku: string,
    pronostico: Option<real>,
    planDemanda: Option<real>,
    pvpPd: Option<real>,
    accion: Option<string>,
    observaciones: Option<string>,
    ventaReal: Option<real>,
    pvpProm: Option<real>,
    error: Option<real>,
    errorAbs: Option<real>,
    perdidaValorizada: Option<real>,
    dips: Option<real>,
    stockInicio: Option<real>,
    ventaPerdidaStock: Option<real>,
    perdidaStockValorizada: Option<real>)

  /** A row with identity fields only, every other column null (the state before any write sets a value). */
  function BlankRow(semana: Option<int>, nodo: Option<string>, cuenta: string, sku: string): PlanRow
  {
    PlanRow(0, semana, nodo, cuenta, sku, None, None, None, None, None, None, None,
            None, None, None, None, None, None, None)
  }

  /** The channel used when a form sends none. */
  const DefaultNodo: string := "Mercadolibre_Chile"

  /** The price a loss is valued at: the average price when positive, the list price otherwise. */
  function PriceUsed(pvpProm: real, pvpPd: real): real
  {
    if pvpProm > 0.0 then pvpProm else pvpPd
  }

  /** The key the sales upload matches rows on: `${Cuenta}|${Sku_Seller}`. */
  function AccountSkuKey(cuenta: string, sku: string): string
  {
    cuenta + "|" + sku
  }

  /** The six derived columns the stock reconciliation never leaves null. */
  datatype DerivedColumn =
    | VentaPerdidaStockCol
    | PerdidaStockValorizadaCol
    | StockInicioCol
    | ErrorCol
    | ErrorAbsCol
    | PerdidaValorizadaCol

  /** The partial updates the routes send; every column a patch does not name keeps its value. */
  datatype Patch =
      /** Sales upload, existing row: actuals and metrics; `dips` is `None` when the file has no such column. */
    | SalesFigures(venta: real, pvpProm: real, error: int, errorAbs: int, perdida: int, dips: Option<Option<real>>)
      /** Sales upload, row without sales: zero actuals and the metrics of a zero sale. */
    | NoSale(error: int, errorAbs: int, perdida: int)
      /** Sales upload, final pass: the three metrics. */
    | Metrics(error: int, errorAbs: int, perdida: int)
      /** Stock reconciliation: starting stock of the week. */
    | StartingStock(stock: real)
      /** Stock reconciliation: lost units and their valuation. */
    | StockLoss(units: int, valuation: int)
      /** Stock reconciliation: zero written into exactly these columns. */
    | FillZero(columns: set<DerivedColumn>)
      /** Plan editor: the edited fields; `None` leaves a field as it is. */
    | Edit(plan: Option<real>, pvp: Option<real>, accion: Option<string>)
      /** Relative error of the error-rate route. */
    | RelativeErrors(relError: real, relErrorAbs: real)
      /** Plan upload, existing row: the plan figures; `None` text fields are not sent. */
    | PlanFigures(pronostico: real, planValue: real, pvpValue: real, accion: Option<string>, observaciones: Option<string>)

  function ZeroIf(cols: set<DerivedColumn>, c: DerivedColumn, v: Option<real>): Option<real>
  {
    if c in cols then Some(0.0) else v
  }

  function OrKeep<T>(x: Option<T>, v: Option<T>): Option<T>
  {
    if x.Some? then x else v
  }

  /** The row after the store applies `p`; identity fields never change. */
  function Apply(p: Patch, r: PlanRow): (t: PlanRow)
    ensures t.id == r.id && t.semana == r.semana && t.nodo == r.nodo && t.cuenta == r.cuenta && t.sku == r.sku
  {
    match p
    case SalesFigures(v, pp, e, ea, pv, d) =>
      r.(ventaReal := Some(v), pvpProm := Some(pp), error := Some(e as real), errorAbs := Some(ea as real),
         perdidaValorizada := Some(pv as real), dips := if d.Some? then d.value else r.dips)
    case NoSale(e, ea, pv) =>
      r.(ventaReal := Some(0.0), pvpProm := Some(0.0), error := Some(e as real), errorAbs := Some(ea as real),
         perdidaValorizada := Some(pv as real))
    case Metrics(e, ea, pv) =>
      r.(error := Some(e as real), errorAbs := Some(ea as real), perdidaValorizada := Some(pv as real))
    case StartingStock(s) =>
      r.(stockInicio := Some(s))
    case StockLoss(u, v) =>
      r.(ventaPerdidaStock := Some(u as real), perdidaStockValorizada := Some(v as real))
    case FillZero(cols) =>
      r.(ventaPerdidaStock := ZeroIf(cols, VentaPerdidaStockCol, r.ventaPerdidaStock),
         perdidaStockValorizada := ZeroIf(cols, PerdidaStockValorizadaCol, r.perdidaStockValorizada),
         stockInicio := ZeroIf(cols, StockInicioCol, r.stockInicio),
         error := ZeroIf(cols, ErrorCol, r.error),
         errorAbs := ZeroIf(cols, ErrorAbsCol, r.errorAbs),
         perdidaValorizada := ZeroIf(cols, PerdidaValorizadaCol, r.perdidaValorizada))
    case Edit(pl, pv, ac) =>
      r.(planDemanda := OrKeep(pl, r.planDemanda), pvpPd := OrKeep(pv, r.pvpPd), accion := OrKeep(ac, r.accion))
    case RelativeErrors(e, ea) =>
      r.(error := Some(e), errorAbs := Some(ea))
    case PlanFigures(pr, pl, pv, ac, ob) =>
      r.(pronostico := Some(pr), planDemanda := Some(pl), pvpPd := Some(pv),
         accion := OrKeep(ac, r.accion), observaciones := OrKeep(ob, r.observaciones))
  }

  /** Patches whose columns do not depend on the row: applying one twice is applying it once. */
  lemma ApplyIdempotent(p: Patch, r: PlanRow)
    ensures Apply(p, Apply(p, r)) == Apply(p, r)
  {
  }

  // ---------------------------------------------------------------------
  // Row collections
  // ---------------------------------------------------------------------

  predicate DistinctIds(rows: seq<PlanRow>)
  {
    forall i, j :: 0 <= i < j < |rows| ==> rows[i].id != rows[j].id
  }

  predicate InCohort(r: PlanRow, semana: int, nodo: string)
  {
    r.semana == Some(semana) && r.nodo == Some(nodo)
  }

  /** The rows `keep` accepts, in table order (a query filter). */
  function Select(rows: seq<PlanRow>, keep: PlanRow -> bool): (c: seq<PlanRow>)
    ensures forall r :: r in c <==> r in rows && keep(r)
    ensures |c| <= |rows|
  {
    if |rows| == 0 then []
    else
      var prev := Select(rows[..|rows| - 1], keep);
      assert rows == rows[..|rows| - 1] + [rows[|rows| - 1]];
      if keep(rows[|rows| - 1]) then prev + [rows[|rows| - 1]] else prev
  }

  /** A selection from a table with distinct ids has distinct ids. */
  lemma {:induction false} SelectDistinct(rows: seq<PlanRow>, keep: PlanRow -> bool)
    requires DistinctIds(rows)
    ensures DistinctIds(Select(rows, keep))
  {
    if |rows| > 0 {
      var n := |rows| - 1;
      SelectDistinct(rows[..n], keep);
      var prev := Select(rows[..n], keep);
      forall r | r in prev ensures r.id != rows[n].id {
        assert r in rows[..n];
      }
    }
  }

  /** The rows of one week and channel, in table order (`.eq('Semana', w).eq('Nodo', n)`). */
  function Cohort(rows: seq<PlanRow>, semana: int, nodo: string): (c: seq<PlanRow>)
    ensures forall r :: r in c <==> r in rows && InCohort(r, semana, nodo)
    ensures |c| <= |rows|
  {
    Select(rows, r => InCohort(r, semana, nodo))
  }

  lemma CohortDistinct(rows: seq<PlanRow>, semana: int, nodo: string)
    requires DistinctIds(rows)
    ensures DistinctIds(Cohort(rows, semana, nodo))
  {
    SelectDistinct(rows, r => InCohort(r, semana, nodo));
  }

  // ---------------------------------------------------------------------
  // Writes by id and their combined effect
  // ---------------------------------------------------------------------

  /** `update(patch).eq('id', id)`. */
  datatype Write = Write(id: nat, patch: Patch)

  /** The table after an update of the rows with `id`. */
  function PatchById(rows: seq<PlanRow>, id: nat, p: Patch): (t: seq<PlanRow>)
    ensures |t| == |rows|
    ensures forall i :: 0 <= i < |rows| ==> t[i] == (if rows[i].id == id then Apply(p, rows[i]) else rows[i])
  {
    seq(|rows|, i requires 0 <= i < |rows| => if rows[i].id == id then Apply(p, rows[i]) else rows[i])
  }

  /** The table after the writes `ws` in order; the writes to `rejected` ids fail and change nothing. */
  function ApplyWrites(rows: seq<PlanRow>, ws: seq<Write>, rejected: set<nat>): (t: seq<PlanRow>)
    ensures |t| == |rows|
  {
    if |ws| == 0 then rows
    else
      var prev := ApplyWrites(rows, ws[..|ws| - 1], rejected);
      var w := ws[|ws| - 1];
      if w.id in rejected then prev else PatchById(prev, w.id, w.patch)
  }

  lemma ApplyWritesSnoc(rows: seq<PlanRow>, ws: seq<Write>, w: Write, rejected: set<nat>)
    ensures ApplyWrites(rows, ws + [w], rejected)
         == (if w.id in rejected then ApplyWrites(rows, ws, rejected) else PatchById(ApplyWrites(rows, ws, rejected), w.id, w.patch))
  {
    assert (ws + [w])[..|ws|] == ws;
  }

  /** Same id and same identity columns: what no write changes. */
  predicate SameIdentity(a: PlanRow, b: PlanRow)
  {
    a.id == b.id && a.semana == b.semana && a.nodo == b.nodo && a.cuenta == b.cuenta && a.sku == b.sku
  }

  /** Writes keep every row in its place with its identity, so ids stay distinct and cohorts stay put. */
  lemma {:induction false} ApplyWritesIdentity(rows: seq<PlanRow>, ws: seq<Write>, rejected: set<nat>)
    ensures forall i :: 0 <= i < |rows| ==> SameIdentity(ApplyWrites(rows, ws, rejected)[i], rows[i])
    ensures DistinctIds(rows) ==> DistinctIds(ApplyWrites(rows, ws, rejected))
  {
    var t := ApplyWrites(rows, ws, rejected);
    if |ws| > 0 {
      ApplyWritesIdentity(rows, ws[..|ws| - 1], rejected);
    }
    assert forall i :: 0 <= i < |rows| ==> t[i].id == rows[i].id;
  }

  /** The last patch addressed to `id`, if any. */
  function WriteFor(ws: seq<Write>, id: nat): (p: Option<Patch>)
    ensures p.None? <==> forall k :: 0 <= k < |ws| ==> ws[k].id != id
  {
    if |ws| == 0 then None
    else if ws[|ws| - 1].id == id then Some(ws[|ws| - 1].patch)
    else
      var p := WriteFor(ws[..|ws| - 1], id);
      assert forall k :: 0 <= k < |ws| - 1 ==> ws[..|ws| - 1][k] == ws[k];
      p
  }

  lemma WriteForSnoc(ws: seq<Write>, w: Write, id: nat)
    ensures WriteFor(ws + [w], id) == if w.id == id then Some(w.patch) else WriteFor(ws, id)
  {
    assert (ws + [w])[..|ws|] == ws;
  }

  /** What happens to row `r` when `p` is the patch addressed to it. */
  function Outcome(r: PlanRow, p: Option<Patch>, rejected: set<nat>): PlanRow
  {
    if p.Some? && r.id !in rejected then Apply(p.value, r) else r
  }

  predicate DistinctWriteIds(ws: seq<Write>)
  {
    forall a, b :: 0 <= a < b < |ws| ==> ws[a].id != ws[b].id
  }

  /** One write per row, row `k` receiving `f(rows[k])`. */
  function PerRow(rows: seq<PlanRow>, f: PlanRow -> Patch): (ws: seq<Write>)
    ensures |ws| == |rows| && forall k :: 0 <= k < |rows| ==> ws[k] == Write(rows[k].id, f(rows[k]))
  {
    seq(|rows|, k requires 0 <= k < |rows| => Write(rows[k].id, f(rows[k])))
  }

  lemma PerRowDistinct(rows: seq<PlanRow>, f: PlanRow -> Patch)
    requires DistinctIds(rows)
    ensures DistinctWriteIds(PerRow(rows, f))
  {
  }

  /** With distinct ids, the patch addressed to the id of row `k` is `f(rows[k])`. */
  lemma {:induction false} WriteForPerRow(rows: seq<PlanRow>, f: PlanRow -> Patch, k: int)
    requires DistinctIds(rows) && 0 <= k < |rows|
    ensures WriteFor(PerRow(rows, f), rows[k].id) == Some(f(rows[k]))
  {
    var ws := PerRow(rows, f);
    var n := |rows| - 1;
    if k < n {
      assert ws[..n] == PerRow(rows[..n], f);
      assert ws[n].id != rows[k].id;
      WriteForPerRow(rows[..n], f, k);
    }
  }

  /**
   * With one write per id, the writes act row by row: every row receives
   * the patch addressed to it unless its id is rejected, and a row no
   * write addresses is unchanged.
   */
  lemma {:induction false} ApplyWritesPointwise(rows: seq<PlanRow>, ws: seq<Write>, rejected: set<nat>)
    requires DistinctWriteIds(ws)
    ensures forall i :: 0 <= i < |rows| ==>
              ApplyWrites(rows, ws, rejected)[i] == Outcome(rows[i], WriteFor(ws, rows[i].id), rejected)
  {
    if |ws| > 0 {
      var n := |ws| - 1;
      var w := ws[n];
      assert DistinctWriteIds(ws[..n]);
      ApplyWritesPointwise(rows, ws[..n], rejected);
      forall i | 0 <= i < |rows|
        ensures ApplyWrites(rows, ws, rejected)[i] == Outcome(rows[i], WriteFor(ws, rows[i].id), rejected)
      {
        if rows[i].id == w.id {
          assert WriteFor(ws[..n], w.id).None? by {
            forall k | 0 <= k < n ensures ws[..n][k].id != w.id {
              assert ws[..n][k] == ws[k];
            }
          }
        }
      }
    }
  }

  /** Two rows of a table with distinct ids that share an id are the same row. */
  lemma SameIdSameRow(rows: seq<PlanRow>, a: PlanRow, b: PlanRow)
    requires DistinctIds(rows) && a in rows && b in rows
    ensures a.id == b.id ==> a == b
  {
    var i :| 0 <= i < |rows| && rows[i] == a;
    var j :| 0 <= j < |rows| && rows[j] == b;
  }

  /**
   * One write per row of a selection `sub` of the table: a selected row
   * receives its own patch unless its id is rejected, every other row is
   * unchanged.
   */
  lemma PerRowWrites(rows: seq<PlanRow>, sub: seq<PlanRow>, f: PlanRow -> Patch, rejected: set<nat>, i: int)
    requires DistinctIds(rows) && DistinctIds(sub) && 0 <= i < |rows|
    requires forall r :: r in sub ==> r in rows
    ensures rows[i] in sub && rows[i].id !in rejected ==> ApplyWrites(rows, PerRow(sub, f), rejected)[i] == Apply(f(rows[i]), rows[i])
    ensures rows[i] !in sub || rows[i].id in rejected ==> ApplyWrites(rows, PerRow(sub, f), rejected)[i] == rows[i]
  {
    var ws := PerRow(sub, f);
    PerRowDistinct(sub, f);
    ApplyWritesPointwise(rows, ws, rejected);
    if rows[i] in sub {
      var k :| 0 <= k < |sub| && sub[k] == rows[i];
      WriteForPerRow(sub, f, k);
    } else {
      forall k | 0 <= k < |sub| ensures sub[k].id != rows[i].id {
        SameIdSameRow(rows, sub[k], rows[i]);
      }
    }
  }

  // ---------------------------------------------------------------------
  // Batches
  // ---------------------------------------------------------------------

  /** The dispatcher's batch size. */
  const BatchSize: nat := 50

  /** `items` cut into consecutive slices of `size` (the last one shorter). */
  function Batches<T>(items: seq<T>, size: nat): (bs: seq<seq<T>>)
    requires size > 0
    ensures forall b :: 0 <= b < |bs| ==> 0 < |bs[b]| <= size
    decreases |items|
  {
    if |items| == 0 then []
    else if |items| <= size then [items]
    else [items[..size]] + Batches(items[size..], size)
  }

  function Flatten<T>(bs: seq<seq<T>>): seq<T>
  {
    if |bs| == 0 then [] else bs[0] + Flatten(bs[1..])
  }

  lemma {:induction false} FlattenSnoc<T>(bs: seq<seq<T>>, b: seq<T>)
    ensures Flatten(bs + [b]) == Flatten(bs) + b
  {
    if |bs| == 0 {
      assert bs + [b] == [b];
      assert [b][1..] == [];
    } else {
      assert (bs + [b])[1..] == bs[1..] + [b];
      FlattenSnoc(bs[1..], b);
    }
  }

  /** The batches hold every item once, in order: a sequential dispatcher covers the work list exactly. */
  lemma {:induction false} BatchesCover<T>(items: seq<T>, size: nat)
    requires size > 0
    ensures Flatten(Batches(items, size)) == items
    decreases |items|
  {
    if |items| > size {
      BatchesCover(items[size..], size);
      var bs := Batches(items, size);
      assert bs[1..] == Batches(items[size..], size);
      assert items[..size] + items[size..] == items;
    } else if |items| > 0 {
      assert Batches(items, size)[1..] == [];
    }
  }

  function CountTrue(bs: seq<bool>): (n: nat)
    ensures n <= |bs|
  {
    if |bs| == 0 then 0 else CountTrue(bs[..|bs| - 1]) + (if bs[|bs| - 1] then 1 else 0)
  }

  lemma CountTrueSnoc(bs: seq<bool>, b: bool)
    ensures CountTrue(bs + [b]) == CountTrue(bs) + (if b then 1 else 0)
  {
    assert (bs + [b])[..|bs|] == bs;
  }

  /** `if (list.length < cap) list.push(...items.slice(0, cap - list.length))`. */
  function CapAppend<T>(list: seq<T>, items: seq<T>, cap: nat): (r: seq<T>)
    ensures |list| <= cap ==> |r| == Min(cap, |list| + |items|) && r == (list + items)[..|r|]
    ensures |list| >= cap ==> r == list
  {
    if |list| < cap then
      var n := Min(|items|, cap - |list|);
      assert list + items[..n] == (list + items)[..|list| + n];
      list + items[..n]
    else list
  }

  /** Capped appends batch after batch keep the first `cap` items overall. */
  lemma CapAppendTwice<T>(list: seq<T>, a: seq<T>, b: seq<T>, cap: nat)
    requires |list| <= cap
    ensures CapAppend(CapAppend(list, a, cap), b, cap) == CapAppend(list, a + b, cap)
  {
    var x := CapAppend(list, a, cap);
    if |x| < cap {
      assert x == list + a;
      assert list + a + b == list + (a + b);
    } else {
      assert (list + a + b)[..cap] == (list + a)[..cap];
      assert list + (a + b) == list + a + b;
    }
  }

  // ---------------------------------------------------------------------
  // Route responses
  // ---------------------------------------------------------------------

  /** The responses list at most this many details and errors. */
  const DetailCap: nat := 50
  const ErrorCap: nat := 10

  /** An entry of a route's `details` list. */
  datatype Detail = Detail(sku: string, cuenta: string, action: string)

  /** `errors.length > 0 ? errors.slice(0, 10) : undefined`. */
  function ErrorList<T>(errors: seq<T>): (r: Option<seq<T>>)
    ensures r.None? <==> |errors| == 0
    ensures r.Some? ==> 0 < |r.value| <= ErrorCap && |r.value| <= |errors| && r.value == errors[..|r.value|]
    ensures r.Some? && |errors| <= ErrorCap ==> r.value == errors
  {
    if |errors| > 0 then Some(errors[..Min(|errors|, ErrorCap)]) else None
  }

  /** `details.slice(0, 50)`. */
  function DetailList(details: seq<Detail>): (r: seq<Detail>)
    ensures |r| <= DetailCap && |r| <= |details| && r == details[..|r|]
    ensures |details| <= DetailCap ==> r == details
  {
    details[..Min(|details|, DetailCap)]
  }

  /** Appending under the cap to a list already cut to fifty keeps the first fifty of the whole. */
  lemma DetailListAppend(a: seq<Detail>, b: seq<Detail>)
    ensures CapAppend(DetailList(a), b, DetailCap) == DetailList(a + b)
  {
    if |a| >= DetailCap {
      assert (a + b)[..DetailCap] == a[..DetailCap];
    } else {
      assert DetailList(a) == a;
    }
  }

  // ---------------------------------------------------------------------
  // The store
  // ---------------------------------------------------------------------

  /** Rows a filtered update (`update(...).eq(...)...`) reaches. */
  datatype RowFilter =
      /** `.eq('Semana').eq('Nodo').eq('Cuenta').eq('Sku_Seller')`. */
    | ByKey(semana: int, nodo: string, cuenta: string, sku: string)
      /** `.eq('Semana').eq('Nodo').is('Stock_Inicio_Semana', null)`. */
    | NullStock(semana: int, nodo: string)

  predicate Matches(f: RowFilter, r: PlanRow)
  {
    match f
    case ByKey(s, n, c, k) => r.semana == Some(s) && r.nodo == Some(n) && r.cuenta == c && r.sku == k
    case NullStock(s, n) => InCohort(r, s, n) && r.stockInicio.None?
  }

  /**
   * The filter of an upsert on (Semana, Nodo, Cuenta, Sku_Seller).  A row
   * with a null Semana or Nodo conflicts with nothing (NULLs are distinct).
   */
  function ConflictFilter(row: PlanRow): (f: Option<RowFilter>)
    ensures f.Some? <==> row.semana.Some? && row.nodo.Some?
    ensures f.Some? ==> Matches(f.value, row)
  {
    if row.semana.Some? && row.nodo.Some? then Some(ByKey(row.semana.value, row.nodo.value, row.cuenta, row.sku)) else None
  }

  predicate AnyMatch(rows: seq<PlanRow>, f: RowFilter)
  {
    exists i :: 0 <= i < |rows| && Matches(f, rows[i])
  }

  /** `rows` already hold a row with the key of `row`. */
  predicate Conflicting(rows: seq<PlanRow>, row: PlanRow)
  {
    ConflictFilter(row).Some? && AnyMatch(rows, ConflictFilter(row).value)
  }

  /** A row added under a fresh id keeps the ids distinct and below the next one. */
  lemma AppendFresh(rows: seq<PlanRow>, nextId: nat, row: PlanRow)
    requires DistinctIds(rows) && forall i :: 0 <= i < |rows| ==> rows[i].id < nextId && rows[i].semana.Some?
    requires row.semana.Some?
    ensures var t := rows + [row.(id := nextId)];
            DistinctIds(t) && forall i :: 0 <= i < |t| ==> t[i].id < nextId + 1 && t[i].semana.Some?
  {
    var t := rows + [row.(id := nextId)];
    assert forall i :: 0 <= i < |rows| ==> t[i] == rows[i];
  }

  /** The rows after an accepted upsert: the conflicting rows patched, or `row` added with id `nextId`. */
  function UpsertRows(rows: seq<PlanRow>, nextId: nat, row: PlanRow, p: Patch): (t: seq<PlanRow>)
  {
    if Conflicting(rows, row) then PatchWhere(rows, ConflictFilter(row).value, p) else rows + [row.(id := nextId)]
  }

  function PatchWhere(rows: seq<PlanRow>, f: RowFilter, p: Patch): (t: seq<PlanRow>)
    ensures |t| == |rows|
    ensures forall i :: 0 <= i < |rows| ==> t[i] == (if Matches(f, rows[i]) then Apply(p, rows[i]) else rows[i])
  {
    seq(|rows|, i requires 0 <= i < |rows| => if Matches(f, rows[i]) then Apply(p, rows[i]) else rows[i])
  }

  /** A filtered update keeps every row's id and week, and so keeps the ids distinct. */
  lemma PatchWhereKeepsIds(rows: seq<PlanRow>, f: RowFilter, p: Patch)
    ensures forall i :: 0 <= i < |rows| ==> PatchWhere(rows, f, p)[i].id == rows[i].id && PatchWhere(rows, f, p)[i].semana == rows[i].semana
    ensures DistinctIds(rows) ==> DistinctIds(PatchWhere(rows, f, p))
  {
    var t := PatchWhere(rows, f, p);
    assert forall i :: 0 <= i < |rows| ==> t[i].id == rows[i].id && t[i].semana == rows[i].semana;
  }

  /** Rows `news` given consecutive ids from `start`, as the id sequence assigns them. */
  function Stamp(news: seq<PlanRow>, start: nat): (t: seq<PlanRow>)
    ensures |t| == |news|
  {
    if |news| == 0 then []
    else
      var n := |news| - 1;
      Stamp(news[..n], start) + [news[n].(id := start + n)]
  }

  lemma {:induction false} StampAt(news: seq<PlanRow>, start: nat, k: int)
    requires 0 <= k < |news|
    ensures Stamp(news, start)[k] == news[k].(id := start + k)
  {
    var n := |news| - 1;
    if k < n {
      StampAt(news[..n], start, k);
    }
  }

  lemma {:induction false} StampAppend(a: seq<PlanRow>, b: seq<PlanRow>, start: nat)
    ensures Stamp(a, start) + Stamp(b, start + |a|) == Stamp(a + b, start)
  {
    if |b| == 0 {
      assert a + b == a;
    } else {
      var n := |b| - 1;
      StampAppend(a, b[..n], start);
      assert (a + b)[..|a + b| - 1] == a + b[..n];
      assert (a + b)[|a + b| - 1] == b[n];
    }
  }

  /** Every row carries a week (`Semana` is NOT NULL). */
  predicate AllDated(batch: seq<PlanRow>)
  {
    forall k :: 0 <= k < |batch| ==> batch[k].semana.Some?
  }

  /** The items of the batches whose flag is set, in order. */
  function Kept<T>(bs: seq<seq<T>>, oks: seq<bool>): (r: seq<T>)
    requires |oks| == |bs|
  {
    if |bs| == 0 then []
    else
      var n := |bs| - 1;
      Kept(bs[..n], oks[..n]) + (if oks[n] then bs[n] else [])
  }

  /** When every batch is stored, the stored rows are all the batches' rows in order. */
  lemma {:induction false} KeptAll<T>(bs: seq<seq<T>>, oks: seq<bool>)
    requires |oks| == |bs| && forall k :: 0 <= k < |oks| ==> oks[k]
    ensures Kept(bs, oks) == Flatten(bs)
  {
    if |bs| > 0 {
      var n := |bs| - 1;
      KeptAll(bs[..n], oks[..n]);
      FlattenSnoc(bs[..n], bs[n]);
      assert bs[..n] + [bs[n]] == bs;
    }
  }

  /** The stored rows are never more than the rows sent. */
  lemma {:induction false} KeptBound<T>(bs: seq<seq<T>>, oks: seq<bool>)
    requires |oks| == |bs|
    ensures |Kept(bs, oks)| <= |Flatten(bs)|
  {
    if |bs| > 0 {
      var n := |bs| - 1;
      KeptBound(bs[..n], oks[..n]);
      FlattenSnoc(bs[..n], bs[n]);
      assert bs[..n] + [bs[n]] == bs;
    }
  }

  /** Batches of rows that all carry a week carry a week each. */
  lemma {:induction false} BatchesDated(rows: seq<PlanRow>, size: nat)
    requires size > 0 && AllDated(rows)
    ensures forall b :: 0 <= b < |Batches(rows, size)| ==> AllDated(Batches(rows, size)[b])
    decreases |rows|
  {
    if |rows| > size {
      BatchesDated(rows[size..], size);
      var bs := Batches(rows, size);
      assert bs[1..] == Batches(rows[size..], size);
      forall b | 0 <= b < |bs| ensures AllDated(bs[b]) {
        if b > 0 {
          assert bs[b] == Batches(rows[size..], size)[b - 1];
        }
      }
    }
  }

  /**
   * An in-memory `Plan_Demanda`.  Which writes fail is fixed in advance:
   * an update by id fails for the ids in `rejectedIds`, and the n-th
   * insert, upsert or filtered update fails when n is in `failingWrites`.
   * An insert or upsert of a row without `Semana` fails (NOT NULL).
   */
  class Store {
    var rows: seq<PlanRow>
    var nextId: nat
    var writes: nat
    const rejectedIds: set<nat>
    const failingWrites: set<nat>

    ghost predicate Valid()
      reads this
    {
      DistinctIds(rows) && forall i :: 0 <= i < |rows| ==> rows[i].id < nextId && rows[i].semana.Some?
    }

    constructor (initial: seq<PlanRow>, rejected: set<nat>, failing: set<nat>)
      requires DistinctIds(initial)
      requires forall i :: 0 <= i < |initial| ==> initial[i].semana.Some?
      ensures Valid()
      ensures rows == initial && writes == 0 && rejectedIds == rejected && failingWrites == failing
    {
      rows := initial;
      rejectedIds := rejected;
      failingWrites := failing;
      writes := 0;
      nextId := MaxId(initial) + 1;
    }

    /** `update(patch).eq('id', id)`. */
    method UpdateById(id: nat, p: Patch) returns (ok: bool)
      requires Valid()
      modifies this`rows
      ensures Valid()
      ensures ok <==> id !in rejectedIds
      ensures rows == (if ok then PatchById(old(rows), id, p) else old(rows))
    {
      ok := id !in rejectedIds;
      if ok {
        rows := PatchById(rows, id, p);
      }
    }

    /** `insert(batch)`: all rows or none, with fresh ids. */
    method Insert(batch: seq<PlanRow>) returns (ok: bool)
      requires Valid()
      modifies this`rows, this`nextId, this`writes
      ensures Valid()
      ensures writes == old(writes) + 1
      ensures ok <==> old(writes) !in failingWrites && AllDated(batch)
      ensures rows == (if ok then old(rows) + Stamp(batch, old(nextId)) else old(rows))
      ensures nextId == (if ok then old(nextId) + |batch| else old(nextId))
    {
      ok := writes !in failingWrites && AllDated(batch);
      if ok {
        var added := Stamp(batch, nextId);
        forall k | 0 <= k < |added| ensures added[k].id == nextId + k && added[k].semana.Some? {
          StampAt(batch, nextId, k);
        }
        rows := rows + added;
        nextId := nextId + |batch|;
      }
      writes := writes + 1;
    }

    /**
     * `upsert(row, { onConflict: 'Semana,Nodo,Cuenta,Sku_Seller' })`: the
     * rows with the key of `row` receive `p`; without one, `row` is added.
     */
    method Upsert(row: PlanRow, p: Patch) returns (ok: bool)
      requires Valid()
      modifies this`rows, this`nextId, this`writes
      ensures Valid()
      ensures writes == old(writes) + 1
      ensures ok <==> old(writes) !in failingWrites && row.semana.Some?
      ensures rows == (if ok then UpsertRows(old(rows), old(nextId), row, p) else old(rows))
      ensures nextId == (if ok && !Conflicting(old(rows), row) then old(nextId) + 1 else old(nextId))
    {
      ok := writes !in failingWrites && row.semana.Some?;
      if ok {
        if Conflicting(rows, row) {
          PatchWhereKeepsIds(rows, ConflictFilter(row).value, p);
          rows := PatchWhere(rows, ConflictFilter(row).value, p);
        } else {
          AppendFresh(rows, nextId, row);
          rows := rows + [row.(id := nextId)];
          nextId := nextId + 1;
        }
      }
      writes := writes + 1;
    }

    /** A filtered update: every matching row receives `p`; no match is not an error. */
    method UpdateWhere(f: RowFilter, p: Patch) returns (ok: bool)
      requires Valid()
      modifies this`rows, this`writes
      ensures Valid()
      ensures writes == old(writes) + 1
      ensures ok <==> old(writes) !in failingWrites
      ensures rows == (if ok then PatchWhere(old(rows), f, p) else old(rows))
    {
      ok := writes !in failingWrites;
      if ok {
        PatchWhereKeepsIds(rows, f, p);
        rows := PatchWhere(rows, f, p);
      }
      writes := writes + 1;
    }
  }

  /** No two rows share the key `f` selects. */
  predicate AtMostOne(rows: seq<PlanRow>, f: RowFilter)
  {
    forall i, j :: 0 <= i < |rows| && 0 <= j < |rows| && Matches(f, rows[i]) && Matches(f, rows[j]) ==> i == j
  }

  /** Row `k` is the one and only row with the key `f` selects. */
  predicate OnlyAt(rows: seq<PlanRow>, f: RowFilter, k: int)
  {
    0 <= k < |rows| && Matches(f, rows[k]) && forall j :: 0 <= j < |rows| && j != k ==> !Matches(f, rows[j])
  }

  /**
   * An accepted upsert leaves exactly one row with the key, when there was
   * at most one before: the old row patched or the new row; no other row
   * changes.
   */
  lemma UpsertSingleRow(rows: seq<PlanRow>, nextId: nat, row: PlanRow, p: Patch)
    requires ConflictFilter(row).Some? && AtMostOne(rows, ConflictFilter(row).value)
    ensures var f := ConflictFilter(row).value;
            var t := UpsertRows(rows, nextId, row, p);
            exists k :: OnlyAt(t, f, k)
              && t[k] == (if k < |rows| then Apply(p, rows[k]) else row.(id := nextId))
              && |t| == (if k < |rows| then |rows| else |rows| + 1)
              && forall j :: 0 <= j < |rows| && j != k ==> t[j] == rows[j]
  {
    var f := ConflictFilter(row).value;
    var t := UpsertRows(rows, nextId, row, p);
    if Conflicting(rows, row) {
      var k :| 0 <= k < |rows| && Matches(f, rows[k]);
      forall j | 0 <= j < |rows| && j != k ensures t[j] == rows[j] && !Matches(f, t[j]) {
        assert !Matches(f, rows[j]);
      }
      assert OnlyAt(t, f, k);
    } else {
      var k := |rows|;
      assert t[k] == row.(id := nextId);
      forall j | 0 <= j < |rows| ensures t[j] == rows[j] && !Matches(f, t[j]) {
      }
      assert OnlyAt(t, f, k);
    }
  }

  function MaxId(rows: seq<PlanRow>): (m: nat)
    ensures forall i :: 0 <= i < |rows| ==> rows[i].id <= m
  {
    if |rows| == 0 then 0 else Max(MaxId(rows[..|rows| - 1]), rows[|rows| - 1].id)
  }

  /** The success flags of writes by id: exactly the writes to ids the store accepts. */
  predicate Accepted(oks: seq<bool>, ws: seq<Write>, rejected: set<nat>)
  {
    |oks| == |ws| && forall k :: 0 <= k < |ws| ==> (oks[k] <==> ws[k].id !in rejected)
  }

  /** The number of writes in `ws` the store accepts. */
  function Succeeded(ws: seq<Write>, rejected: set<nat>): (n: nat)
    ensures n <= |ws|
  {
    if |ws| == 0 then 0
    else Succeeded(ws[..|ws| - 1], rejected) + (if ws[|ws| - 1].id in rejected then 0 else 1)
  }

  /** The number of rows whose ids the store accepts writes for. */
  function AcceptedCount(rows: seq<PlanRow>, rejected: set<nat>): (n: nat)
    ensures n <= |rows|
  {
    if |rows| == 0 then 0
    else AcceptedCount(rows[..|rows| - 1], rejected) + (if rows[|rows| - 1].id in rejected then 0 else 1)
  }

  /** One write per row succeeds exactly for the accepted rows, whatever the patches. */
  lemma {:induction false} SucceededPerRow(rows: seq<PlanRow>, f: PlanRow -> Patch, rejected: set<nat>)
    ensures Succeeded(PerRow(rows, f), rejected) == AcceptedCount(rows, rejected)
  {
    if |rows| > 0 {
      var n := |rows| - 1;
      assert PerRow(rows, f)[..n] == PerRow(rows[..n], f);
      SucceededPerRow(rows[..n], f, rejected);
    }
  }

  lemma {:induction false} SucceededAppend(a: seq<Write>, b: seq<Write>, rejected: set<nat>)
    ensures Succeeded(a + b, rejected) == Succeeded(a, rejected) + Succeeded(b, rejected)
  {
    if |b| == 0 {
      assert a + b == a;
    } else {
      var n := |b| - 1;
      SucceededAppend(a, b[..n], rejected);
      assert (a + b)[..|a + b| - 1] == a + b[..n];
    }
  }

  /** The successes a dispatcher counts are the writes the store accepts. */
  lemma {:induction false} CountAccepted(oks: seq<bool>, ws: seq<Write>, rejected: set<nat>)
    requires Accepted(oks, ws, rejected)
    ensures CountTrue(oks) == Succeeded(ws, rejected)
  {
    if |ws| > 0 {
      var n := |ws| - 1;
      CountAccepted(oks[..n], ws[..n], rejected);
    }
  }

  lemma {:induction false} ApplyWritesAppend(rows: seq<PlanRow>, a: seq<Write>, b: seq<Write>, rejected: set<nat>)
    ensures ApplyWrites(rows, a + b, rejected) == ApplyWrites(ApplyWrites(rows, a, rejected), b, rejected)
  {
    if |b| == 0 {
      assert a + b == a;
    } else {
      var n := |b| - 1;
      ApplyWritesAppend(rows, a, b[..n], rejected);
      assert (a + b)[..|a + b| - 1] == a + b[..n];
    }
  }

  lemma AcceptedAppend(oks: seq<bool>, ws: seq<Write>, more: seq<bool>, batch: seq<Write>, rejected: set<nat>)
    requires Accepted(oks, ws, rejected) && Accepted(more, batch, rejected)
    ensures Accepted(oks + more, ws + batch, rejected)
  {
    forall k | 0 <= k < |ws + batch| ensures ((oks + more)[k] <==> (ws + batch)[k].id !in rejected) {
      if k >= |ws| {
        assert (ws + batch)[k] == batch[k - |ws|];
        assert (oks + more)[k] == more[k - |ws|];
      }
    }
  }

  /** One batch: its writes by id, each reporting success. */
  method UpdateBatch(store: Store, batch: seq<Write>) returns (oks: seq<bool>)
    requires store.Valid()
    modifies store`rows
    ensures store.Valid()
    ensures Accepted(oks, batch, store.rejectedIds)
    ensures store.rows == ApplyWrites(old(store.rows), batch, store.rejectedIds)
  {
    oks := [];
    var j := 0;
    while j < |batch|
      invariant 0 <= j <= |batch|
      invariant store.Valid()
      invariant Accepted(oks, batch[..j], store.rejectedIds)
      invariant store.rows == ApplyWrites(old(store.rows), batch[..j], store.rejectedIds)
    {
      var ok := store.UpdateById(batch[j].id, batch[j].patch);
      ApplyWritesSnoc(old(store.rows), batch[..j], batch[j], store.rejectedIds);
      assert batch[..j + 1] == batch[..j] + [batch[j]];
      AcceptedAppend(oks, batch[..j], [ok], [batch[j]], store.rejectedIds);
      oks := oks + [ok];
      j := j + 1;
    }
    assert batch[..j] == batch;
  }

  /**
   * The dispatcher for updates by id: the writes in batches of fifty, one
   * batch after another; the table ends as the writes applied in order.
   */
  method UpdateInBatches(store: Store, ws: seq<Write>) returns (oks: seq<bool>)
    requires store.Valid()
    modifies store`rows
    ensures store.Valid()
    ensures Accepted(oks, ws, store.rejectedIds)
    ensures store.rows == ApplyWrites(old(store.rows), ws, store.rejectedIds)
  {
    var batches := Batches(ws, BatchSize);
    BatchesCover(ws, BatchSize);
    ghost var done: seq<Write> := [];
    oks := [];
    var b := 0;
    while b < |batches|
      invariant 0 <= b <= |batches|
      invariant store.Valid()
      invariant done == Flatten(batches[..b])
      invariant Accepted(oks, done, store.rejectedIds)
      invariant store.rows == ApplyWrites(old(store.rows), done, store.rejectedIds)
    {
      var batch := batches[b];
      var more := UpdateBatch(store, batch);
      ApplyWritesAppend(old(store.rows), done, batch, store.rejectedIds);
      AcceptedAppend(oks, done, more, batch, store.rejectedIds);
      assert batches[..b + 1] == batches[..b] + [batch];
      FlattenSnoc(batches[..b], batch);
      oks := oks + more;
      done := done + batch;
      b := b + 1;
    }
    assert batches[..b] == batches;
  }

  // ---------------------------------------------------------------------
  // The insert dispatcher
  // ---------------------------------------------------------------------

  /** Batch `k` is stored exactly when write number `w0 + k` succeeds and all its rows carry a week. */
  predicate InsertOutcomes(oks: seq<bool>, bs: seq<seq<PlanRow>>, w0: nat, failing: set<nat>)
    requires |oks| <= |bs|
  {
    forall k :: 0 <= k < |oks| ==> (oks[k] <==> w0 + k !in failing && AllDated(bs[k]))
  }

  lemma OutcomesSnoc(oks: seq<bool>, bs: seq<seq<PlanRow>>, w0: nat, failing: set<nat>, ok: bool)
    requires |oks| < |bs| && InsertOutcomes(oks, bs, w0, failing)
    requires ok <==> w0 + |oks| !in failing && AllDated(bs[|oks|])
    ensures InsertOutcomes(oks + [ok], bs, w0, failing)
  {
    forall k | 0 <= k < |oks| + 1 ensures ((oks + [ok])[k] <==> w0 + k !in failing && AllDated(bs[k])) {
      if k < |oks| {
        assert (oks + [ok])[k] == oks[k];
      }
    }
  }

  lemma KeptSnoc<T>(bs: seq<seq<T>>, oks: seq<bool>, b: int, ok: bool)
    requires 0 <= b < |bs| && |oks| == b
    ensures Kept(bs[..b + 1], oks + [ok]) == Kept(bs[..b], oks) + (if ok then bs[b] else [])
  {
    assert bs[..b + 1][..b] == bs[..b];
    assert (oks + [ok])[..b] == oks;
  }

  /** After the batches decided by `oks`, the stored ones follow the original rows with fresh ids. */
  ghost predicate InsertProgress(rows: seq<PlanRow>, nextId: nat, rows0: seq<PlanRow>, id0: nat, bs: seq<seq<PlanRow>>, oks: seq<bool>)
    requires |oks| <= |bs|
  {
    var kept := Kept(bs[..|oks|], oks);
    rows == rows0 + Stamp(kept, id0) && nextId == id0 + |kept|
  }

  /** One more batch stored: its rows are stamped after the earlier ones. */
  lemma ProgressStored(rows: seq<PlanRow>, nextId: nat, rows0: seq<PlanRow>, id0: nat, bs: seq<seq<PlanRow>>, oks: seq<bool>)
    requires |oks| < |bs| && InsertProgress(rows, nextId, rows0, id0, bs, oks)
    ensures InsertProgress(rows + Stamp(bs[|oks|], nextId), nextId + |bs[|oks|]|, rows0, id0, bs, oks + [true])
  {
    var b := |oks|;
    var kept := Kept(bs[..b], oks);
    var batch := bs[b];
    KeptSnoc(bs, oks, b, true);
    StampAppend(kept, batch, id0);
    assert rows0 + Stamp(kept, id0) + Stamp(batch, id0 + |kept|) == rows0 + (Stamp(kept, id0) + Stamp(batch, id0 + |kept|));
  }

  /** One more batch refused: nothing is stored. */
  lemma ProgressRefused(rows: seq<PlanRow>, nextId: nat, rows0: seq<PlanRow>, id0: nat, bs: seq<seq<PlanRow>>, oks: seq<bool>)
    requires |oks| < |bs| && InsertProgress(rows, nextId, rows0, id0, bs, oks)
    ensures InsertProgress(rows, nextId, rows0, id0, bs, oks + [false])
  {
    var b := |oks|;
    KeptSnoc(bs, oks, b, false);
    assert Kept(bs[..b], oks) + [] == Kept(bs[..b], oks);
  }

  /** One insert batch, stored whole or not at all. */
  method InsertStep(store: Store, bs: seq<seq<PlanRow>>, oks: seq<bool>, ghost rows0: seq<PlanRow>, ghost id0: nat, ghost w0: nat)
    returns (ok: bool)
    requires |oks| < |bs| && store.Valid()
    requires store.writes == w0 + |oks| && InsertOutcomes(oks, bs, w0, store.failingWrites)
    requires InsertProgress(store.rows, store.nextId, rows0, id0, bs, oks)
    modifies store`rows, store`nextId, store`writes
    ensures store.Valid()
    ensures store.writes == w0 + |oks| + 1 && InsertOutcomes(oks + [ok], bs, w0, store.failingWrites)
    ensures InsertProgress(store.rows, store.nextId, rows0, id0, bs, oks + [ok])
  {
    ghost var before := store.rows;
    ghost var nextBefore := store.nextId;
    ok := store.Insert(bs[|oks|]);
    OutcomesSnoc(oks, bs, w0, store.failingWrites, ok);
    ProgressAfter(before, nextBefore, rows0, id0, bs, oks, ok, store.rows, store.nextId);
  }

  /** The insert dispatcher's progress after one more batch, stored or refused. */
  lemma ProgressAfter(before: seq<PlanRow>, nextBefore: nat, rows0: seq<PlanRow>, id0: nat, bs: seq<seq<PlanRow>>, oks: seq<bool>,
                      ok: bool, rows: seq<PlanRow>, nextId: nat)
    requires |oks| < |bs| && InsertProgress(before, nextBefore, rows0, id0, bs, oks)
    requires rows == (if ok then before + Stamp(bs[|oks|], nextBefore) else before)
    requires nextId == (if ok then nextBefore + |bs[|oks|]| else nextBefore)
    ensures InsertProgress(rows, nextId, rows0, id0, bs, oks + [ok])
  {
    if ok {
      ProgressStored(before, nextBefore, rows0, id0, bs, oks);
    } else {
      ProgressRefused(before, nextBefore, rows0, id0, bs, oks);
    }
  }

  /**
   * The dispatcher for inserts: the rows in batches of fifty, one insert
   * per batch; a stored batch's rows follow the table with fresh ids, a
   * refused batch stores nothing.
   */
  method InsertInBatches(store: Store, rows: seq<PlanRow>) returns (oks: seq<bool>)
    requires store.Valid()
    modifies store`rows, store`nextId, store`writes
    ensures store.Valid()
    ensures |oks| == |Batches(rows, BatchSize)|
    ensures InsertOutcomes(oks, Batches(rows, BatchSize), old(store.writes), store.failingWrites)
    ensures store.rows == old(store.rows) + Stamp(Kept(Batches(rows, BatchSize), oks), old(store.nextId))
    ensures store.nextId == old(store.nextId) + |Kept(Batches(rows, BatchSize), oks)|
    ensures store.writes == old(store.writes) + |Batches(rows, BatchSize)|
    ensures oks == InsertOks(Batches(rows, BatchSize), old(store.writes), store.failingWrites)
    ensures store.rows == old(store.rows) + Inserted(rows, old(store.nextId), old(store.writes), store.failingWrites)
  {
    var batches := Batches(rows, BatchSize);
    ghost var rows0 := store.rows;
    ghost var id0 := store.nextId;
    ghost var w0 := store.writes;
    oks := [];
    var b := 0;
    while b < |batches|
      invariant 0 <= b <= |batches|
      invariant store.Valid()
      invariant |oks| == b
      invariant store.writes == w0 + b
      invariant InsertOutcomes(oks, batches, w0, store.failingWrites)
      invariant InsertProgress(store.rows, store.nextId, rows0, id0, batches, oks)
    {
      var ok := InsertStep(store, batches, oks, rows0, id0, w0);
      oks := oks + [ok];
      b := b + 1;
    }
    assert batches[..b] == batches;
    OutcomesDetermined(oks, batches, w0, store.failingWrites);
  }

  /** The outcome of every insert batch, fixed by the write numbers that fail and by the NOT NULL week. */
  function InsertOks(bs: seq<seq<PlanRow>>, w0: nat, failing: set<nat>): (oks: seq<bool>)
    ensures |oks| == |bs| && InsertOutcomes(oks, bs, w0, failing)
  {
    seq(|bs|, k requires 0 <= k < |bs| => w0 + k !in failing && AllDated(bs[k]))
  }

  /** Flags that agree with the outcomes are the outcomes. */
  lemma OutcomesDetermined(oks: seq<bool>, bs: seq<seq<PlanRow>>, w0: nat, failing: set<nat>)
    requires |oks| == |bs| && InsertOutcomes(oks, bs, w0, failing)
    ensures oks == InsertOks(bs, w0, failing)
  {
  }

  /**
   * The rows an insert dispatcher starting at write number `w0` stores:
   * those of the accepted batches, in order, under ids from `nextId` on.
   */
  function Inserted(news: seq<PlanRow>, nextId: nat, w0: nat, failing: set<nat>): seq<PlanRow>
  {
    var bs := Batches(news, BatchSize);
    Stamp(Kept(bs, InsertOks(bs, w0, failing)), nextId)
  }

  /** Every stored row is a row that was sent, under the next fresh id. */
  lemma InsertedRows(news: seq<PlanRow>, nextId: nat, w0: nat, failing: set<nat>)
    ensures |Inserted(news, nextId, w0, failing)| <= |news|
    ensures forall k :: 0 <= k < |Inserted(news, nextId, w0, failing)| ==>
              Inserted(news, nextId, w0, failing)[k].id == nextId + k
              && exists x :: x in news && Inserted(news, nextId, w0, failing)[k] == x.(id := nextId + k)
  {
    var bs := Batches(news, BatchSize);
    var kept := Kept(bs, InsertOks(bs, w0, failing));
    BatchesCover(news, BatchSize);
    KeptBound(bs, InsertOks(bs, w0, failing));
    KeptMembers(bs, InsertOks(bs, w0, failing));
    forall k | 0 <= k < |kept|
      ensures Stamp(kept, nextId)[k].id == nextId + k
      ensures exists x :: x in news && Stamp(kept, nextId)[k] == x.(id := nextId + k)
    {
      StampAt(kept, nextId, k);
      assert kept[k] in kept;
    }
  }

  lemma {:induction false} KeptMembers<T>(bs: seq<seq<T>>, oks: seq<bool>)
    requires |oks| == |bs|
    ensures forall x :: x in Kept(bs, oks) ==> x in Flatten(bs)
  {
    if |bs| > 0 {
      var n := |bs| - 1;
      KeptMembers(bs[..n], oks[..n]);
      FlattenSnoc(bs[..n], bs[n]);
      assert bs[..n] + [bs[n]] == bs;
    }
  }

  /** Every id lies below `nextId`, and no two rows share one. */
  predicate IdsBelow(rows: seq<PlanRow>, nextId: nat)
  {
    DistinctIds(rows) && forall i :: 0 <= i < |rows| ==> rows[i].id < nextId
  }

  /** Rows numbered from `nextId` on, after rows numbered below it, keep the ids distinct. */
  lemma FreshAppend(rows: seq<PlanRow>, nextId: nat, extra: seq<PlanRow>)
    requires IdsBelow(rows, nextId)
    requires forall k :: 0 <= k < |extra| ==> extra[k].id == nextId + k
    ensures IdsBelow(rows + extra, nextId + |extra|)
  {
    var t := rows + extra;
    forall i, j | 0 <= i < j < |t| ensures t[i].id != t[j].id {
      if j >= |rows| {
        assert t[j] == extra[j - |rows|];
        if i >= |rows| {
          assert t[i] == extra[i - |rows|];
        }
      }
    }
    forall i | 0 <= i < |t| ensures t[i].id < nextId + |extra| {
      if i >= |rows| {
        assert t[i] == extra[i - |rows|];
      }
    }
  }

  /** A table followed by rows under fresh ids: both parts in place, ids distinct. */
  lemma ConcatShape(u: seq<PlanRow>, nextId: nat, ins: seq<PlanRow>)
    requires IdsBelow(u, nextId)
    requires forall k :: 0 <= k < |ins| ==> ins[k].id == nextId + k
    ensures DistinctIds(u + ins)
    ensures forall i :: 0 <= i < |u| ==> (u + ins)[i] == u[i]
    ensures forall j :: |u| <= j < |u| + |ins| ==> (u + ins)[j] == ins[j - |u|] && (u + ins)[j].id == nextId + (j - |u|)
  {
    FreshAppend(u, nextId, ins);
  }

  /** Writes keep every id below the next fresh one. */
  lemma WritesKeepFresh(rows: seq<PlanRow>, ws: seq<Write>, rejected: set<nat>, nextId: nat)
    requires IdsBelow(rows, nextId)
    ensures IdsBelow(ApplyWrites(rows, ws, rejected), nextId)
  {
    var u := ApplyWrites(rows, ws, rejected);
    ApplyWritesIdentity(rows, ws, rejected);
    forall i | 0 <= i < |u| ensures u[i].id < nextId {
      assert SameIdentity(u[i], rows[i]);
    }
  }

  /**
   * A row that no write addresses, or whose id the store refuses, ends as
   * it was.
   */
  lemma {:induction false} NotReached(rows: seq<PlanRow>, ws: seq<Write>, rejected: set<nat>, i: int)
    requires 0 <= i < |rows|
    requires rows[i].id in rejected || forall k :: 0 <= k < |ws| ==> ws[k].id != rows[i].id
    ensures ApplyWrites(rows, ws, rejected)[i] == rows[i]
  {
    if |ws| > 0 {
      var n := |ws| - 1;
      assert rows[i].id in rejected || forall k :: 0 <= k < n ==> ws[..n][k].id != rows[i].id;
      NotReached(rows, ws[..n], rejected, i);
    }
  }
}
