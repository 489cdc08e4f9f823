/**
 * The weekly stock reconciliation of one (Semana, Nodo) cohort of
 * `Plan_Demanda` against the `StockMeli` snapshot taken on the Monday of
 * that week: find the snapshot (ISO date first, then DD-MM-YYYY), map it
 * by SKU, write every plan row's starting stock, insert the SKUs that have
 * stock but no plan row, zero the starting stocks still null, value the
 * sales lost to missing stock and finally zero every derived column left
 * null.
 */
module StockUpdate {
  import opened Base
  import opened Calendar
  import opened DemandTable

  // ---------------------------------------------------------------------
  // The snapshot
  // ---------------------------------------------------------------------

  /** A row of `StockMeli`; a null or non-numeric `stock` is `None`, a null `cliente` is "". */
  datatype StockItem = StockItem(sku: string, stock: Option<real>, cliente: string, fecha: string, pais: string)

  const Country: string := "Chile"

  /** The note written into every row the reconciliation inserts. */
  const NoPlanNote: string := "Producto con stock sin plan"

  /** The diagnostic lists at most this many dates. */
  const DateCap: nat := 5

  /** `.eq('Fecha', fecha).eq('pais', 'Chile')`, in table order. */
  function SnapshotOn(table: seq<StockItem>, fecha: string): (r: seq<StockItem>)
    ensures forall x :: x in r <==> x in table && x.fecha == fecha && x.pais == Country
  {
    if |table| == 0 then []
    else
      var n := |table| - 1;
      var prev := SnapshotOn(table[..n], fecha);
      assert table == table[..n] + [table[n]];
      if table[n].fecha == fecha && table[n].pais == Country then prev + [table[n]] else prev
  }

  /**
   * `[...new Set(dates)].slice(0, 5)`: the first five distinct dates of
   * the diagnostic query, in the order the query returned them.
   */
  function AvailableDates(recent: seq<string>): (r: seq<string>)
    ensures |r| <= DateCap && Distinct(r)
    ensures |r| <= |Dedup(recent)| && r == Dedup(recent)[..|r|]
    ensures forall x :: x in r ==> x in recent
    ensures forall x :: x in recent && x !in r ==> |r| == DateCap
  {
    var d := Dedup(recent);
    d[..Min(DateCap, |d|)]
  }

  // ---------------------------------------------------------------------
  // The stock map
  // ---------------------------------------------------------------------

  datatype StockInfo = StockInfo(stock: real, cliente: string)

  /**
   * A JavaScript `Map` from SKU: the keys in order of first insertion and
   * the value each key was last set to.
   */
  datatype StockMap = StockMap(order: seq<string>, info: map<string, StockInfo>)

  /** The keys in insertion order are exactly the keys held, each once. */
  predicate WellFormed(sm: StockMap)
  {
    Distinct(sm.order) && (forall s :: s in sm.order ==> s in sm.info) && (forall s :: s in sm.info ==> s in sm.order)
  }

  /**
   * The map after `stockMap.set(sku, { stock: Number(stock) || 0, cliente:
   * cliente || '' })` for every snapshot row with a non-empty SKU, in order.
   */
  function StockMapOf(items: seq<StockItem>): StockMap
  {
    if |items| == 0 then StockMap([], map[])
    else
      var n := |items| - 1;
      var prev := StockMapOf(items[..n]);
      var it := items[n];
      if it.sku == "" then prev
      else StockMap(if it.sku in prev.info then prev.order else prev.order + [it.sku],
                    prev.info[it.sku := StockInfo(OrZero(it.stock), it.cliente)])
  }

  /** The non-empty SKUs of the snapshot, in order, repeats included. */
  function Skus(items: seq<StockItem>): (ks: seq<string>)
    ensures forall s :: s in ks <==> s != "" && exists k :: 0 <= k < |items| && items[k].sku == s
  {
    if |items| == 0 then []
    else
      var n := |items| - 1;
      var prev := Skus(items[..n]);
      assert forall k :: 0 <= k < n ==> items[..n][k] == items[k];
      if items[n].sku == "" then prev else prev + [items[n].sku]
  }

  /** The map holds exactly the non-empty SKUs, iterated in order of their first occurrence in the snapshot. */
  lemma {:induction false} StockMapShape(items: seq<StockItem>)
    ensures WellFormed(StockMapOf(items))
    ensures StockMapOf(items).order == Dedup(Skus(items))
    ensures forall s :: s in StockMapOf(items).info <==> s in Skus(items)
  {
    if |items| > 0 {
      var n := |items| - 1;
      StockMapShape(items[..n]);
      var prev := Skus(items[..n]);
      if items[n].sku != "" {
        var ks := prev + [items[n].sku];
        assert Skus(items) == ks;
        assert ks[..|ks| - 1] == prev;
      }
    }
  }

  /** A later row of the same SKU overwrites an earlier one: the last row of each SKU gives its entry. */
  lemma {:induction false} StockLastWins(items: seq<StockItem>, i: int)
    requires 0 <= i < |items| && items[i].sku != ""
    requires forall k :: i < k < |items| ==> items[k].sku != items[i].sku
    ensures items[i].sku in StockMapOf(items).info
    ensures StockMapOf(items).info[items[i].sku] == StockInfo(OrZero(items[i].stock), items[i].cliente)
  {
    var n := |items| - 1;
    if i < n {
      StockLastWins(items[..n], i);
    }
  }

  /** The loop that fills `stockMap`. */
  method BuildStockMap(items: seq<StockItem>) returns (sm: StockMap)
    ensures sm == StockMapOf(items)
  {
    var order: seq<string> := [];
    var info: map<string, StockInfo> := map[];
    var k := 0;
    while k < |items|
      invariant 0 <= k <= |items|
      invariant StockMap(order, info) == StockMapOf(items[..k])
    {
      var it := items[k];
      assert items[..k + 1][..k] == items[..k];
      if it.sku != "" {
        if it.sku !in info {
          order := order + [it.sku];
        }
        info := info[it.sku := StockInfo(OrZero(it.stock), it.cliente)];
      }
      k := k + 1;
    }
    assert items[..k] == items;
    sm := StockMap(order, info);
  }

  // ---------------------------------------------------------------------
  // The plan's SKUs
  // ---------------------------------------------------------------------

  /** `existingSkus`: the non-empty `Sku_Seller` values of the plan rows; the account plays no part. */
  function PlanSkus(rows: seq<PlanRow>): (s: set<string>)
    ensures forall x :: x in s <==> x != "" && exists k :: 0 <= k < |rows| && rows[k].sku == x
  {
    if |rows| == 0 then {}
    else
      var n := |rows| - 1;
      var prev := PlanSkus(rows[..n]);
      assert forall k :: 0 <= k < n ==> rows[..n][k] == rows[k];
      if rows[n].sku != "" then prev + {rows[n].sku} else prev
  }

  method CollectPlanSkus(rows: seq<PlanRow>) returns (s: set<string>)
    ensures s == PlanSkus(rows)
  {
    s := {};
    var k := 0;
    while k < |rows|
      invariant 0 <= k <= |rows|
      invariant s == PlanSkus(rows[..k])
    {
      assert rows[..k + 1][..k] == rows[..k];
      if rows[k].sku != "" {
        s := s + {rows[k].sku};
      }
      k := k + 1;
    }
    assert rows[..k] == rows;
  }

  // ---------------------------------------------------------------------
  // Step 4: starting stock of every plan row
  // ---------------------------------------------------------------------

  /** The stock a plan row is given: its SKU's snapshot stock, or 0 when the snapshot lacks the SKU. */
  function StockValue(sm: StockMap, sku: string): real
  {
    if sku in sm.info then sm.info[sku].stock else 0.0
  }

  function StartPatch(sm: StockMap): PlanRow -> Patch
  {
    (r: PlanRow) => StartingStock(StockValue(sm, r.sku))
  }

  /** The rows whose write is accepted and whose SKU the snapshot has (`matched`) or lacks. */
  function Tally(rows: seq<PlanRow>, info: map<string, StockInfo>, rejected: set<nat>, matched: bool): (n: nat)
    ensures n <= |rows|
  {
    if |rows| == 0 then 0
    else
      var k := |rows| - 1;
      Tally(rows[..k], info, rejected, matched) + (if rows[k].id !in rejected && (rows[k].sku in info) == matched then 1 else 0)
  }

  /** Every accepted starting-stock write is counted once, as `updated` or as `notFound`. */
  lemma {:induction false} TallySplit(rows: seq<PlanRow>, sm: StockMap, rejected: set<nat>)
    ensures Tally(rows, sm.info, rejected, true) + Tally(rows, sm.info, rejected, false)
         == Succeeded(PerRow(rows, StartPatch(sm)), rejected)
  {
    if |rows| > 0 {
      var k := |rows| - 1;
      TallySplit(rows[..k], sm, rejected);
      assert PerRow(rows, StartPatch(sm))[..k] == PerRow(rows[..k], StartPatch(sm));
    }
  }

  /** Each plan row not rejected gets its SKU's stock (0 when unmatched); every other row is unchanged. */
  lemma StartingStockWritten(rows: seq<PlanRow>, semana: int, nodo: string, sm: StockMap, rejected: set<nat>, i: int)
    requires DistinctIds(rows) && 0 <= i < |rows|
    ensures var t := ApplyWrites(rows, PerRow(Cohort(rows, semana, nodo), StartPatch(sm)), rejected)[i];
            if InCohort(rows[i], semana, nodo) && rows[i].id !in rejected
            then t == rows[i].(stockInicio := Some(StockValue(sm, rows[i].sku)))
            else t == rows[i]
  {
    CohortDistinct(rows, semana, nodo);
    PerRowWrites(rows, Cohort(rows, semana, nodo), StartPatch(sm), rejected, i);
  }

  /**
   * Step 4: one write per plan row in batches of fifty; a success counts
   * as `updated` when the snapshot has the SKU (even with stock 0) and as
   * `notFound` otherwise.
   */
  method WriteStartingStock(store: Store, cohort: seq<PlanRow>, sm: StockMap) returns (updated: nat, notFound: nat)
    requires store.Valid()
    modifies store`rows
    ensures store.Valid()
    ensures store.rows == ApplyWrites(old(store.rows), PerRow(cohort, StartPatch(sm)), store.rejectedIds)
    ensures updated == Tally(cohort, sm.info, store.rejectedIds, true)
    ensures notFound == Tally(cohort, sm.info, store.rejectedIds, false)
  {
    var ws := PerRow(cohort, StartPatch(sm));
    var oks := UpdateInBatches(store, ws);
    updated, notFound := 0, 0;
    var k := 0;
    while k < |cohort|
      invariant 0 <= k <= |cohort|
      invariant updated == Tally(cohort[..k], sm.info, store.rejectedIds, true)
      invariant notFound == Tally(cohort[..k], sm.info, store.rejectedIds, false)
    {
      assert cohort[..k + 1][..k] == cohort[..k];
      assert oks[k] <==> cohort[k].id !in store.rejectedIds by {
        assert ws[k].id == cohort[k].id;
      }
      if oks[k] {
        if cohort[k].sku in sm.info {
          updated := updated + 1;
        } else {
          notFound := notFound + 1;
        }
      }
      k := k + 1;
    }
    assert cohort[..k] == cohort;
  }

  // ---------------------------------------------------------------------
  // Step 5: SKUs with stock and no plan row
  // ---------------------------------------------------------------------

  /** `!existingSkus.has(sku) && info.stock > 0`. */
  predicate StockOnly(sm: StockMap, existing: set<string>, sku: string)
  {
    sku in sm.info && sku !in existing && sm.info[sku].stock > 0.0
  }

  /** The row inserted for a stock-only SKU: zero plan, zero figures, the snapshot's stock and account. */
  function StockRow(semana: int, nodo: string, sku: string, info: StockInfo): (row: PlanRow)
    ensures InCohort(row, semana, nodo) && row.sku == sku && row.cuenta == info.cliente
    ensures row.stockInicio == Some(info.stock) && row.planDemanda == Some(0.0) && row.error == Some(0.0)
    ensures LostUnits(row) == 0
  {
    PlanRow(0, Some(semana), Some(nodo), info.cliente, sku,
            Some(0.0), Some(0.0), Some(0.0), Some("0"), Some(NoPlanNote),
            Some(0.0), Some(0.0), Some(0.0), Some(0.0), Some(0.0), Some(0.0),
            Some(info.stock), None, None)
  }

  /** The rows to insert, following the map's iteration order `order`. */
  function StockOnlyRows(order: seq<string>, sm: StockMap, existing: set<string>, semana: int, nodo: string): seq<PlanRow>
  {
    if |order| == 0 then []
    else
      var n := |order| - 1;
      var sku := order[n];
      StockOnlyRows(order[..n], sm, existing, semana, nodo)
        + (if StockOnly(sm, existing, sku) then [StockRow(semana, nodo, sku, sm.info[sku])] else [])
  }

  /** Every row is the one built for a stock-only SKU of `order`. */
  predicate RowsSound(rows: seq<PlanRow>, order: seq<string>, sm: StockMap, existing: set<string>, semana: int, nodo: string)
  {
    forall k :: 0 <= k < |rows| ==>
      rows[k].sku in order && StockOnly(sm, existing, rows[k].sku)
      && rows[k] == StockRow(semana, nodo, rows[k].sku, sm.info[rows[k].sku])
  }

  /** Every stock-only SKU of `order` has a row. */
  predicate RowsComplete(rows: seq<PlanRow>, order: seq<string>, sm: StockMap, existing: set<string>)
  {
    forall sku :: sku in order && StockOnly(sm, existing, sku) ==> exists k :: 0 <= k < |rows| && rows[k].sku == sku
  }

  predicate DistinctSkus(rows: seq<PlanRow>)
  {
    forall a, b :: 0 <= a < b < |rows| ==> rows[a].sku != rows[b].sku
  }

  /**
   * The inserted rows are exactly the stock-only SKUs of the map, one row
   * each, built from the SKU's entry.
   */
  lemma {:induction false} StockOnlyRowsExact(order: seq<string>, sm: StockMap, existing: set<string>, semana: int, nodo: string)
    ensures RowsSound(StockOnlyRows(order, sm, existing, semana, nodo), order, sm, existing, semana, nodo)
    ensures RowsComplete(StockOnlyRows(order, sm, existing, semana, nodo), order, sm, existing)
    ensures Distinct(order) ==> DistinctSkus(StockOnlyRows(order, sm, existing, semana, nodo))
  {
    StockOnlyRowsSound(order, sm, existing, semana, nodo);
    StockOnlyRowsComplete(order, sm, existing, semana, nodo);
    if Distinct(order) {
      StockOnlyRowsDistinct(order, sm, existing, semana, nodo);
    }
  }

  lemma {:induction false} StockOnlyRowsSound(order: seq<string>, sm: StockMap, existing: set<string>, semana: int, nodo: string)
    ensures RowsSound(StockOnlyRows(order, sm, existing, semana, nodo), order, sm, existing, semana, nodo)
  {
    if |order| > 0 {
      var n := |order| - 1;
      var init := order[..n];
      var prev := StockOnlyRows(init, sm, existing, semana, nodo);
      StockOnlyRowsSound(init, sm, existing, semana, nodo);
      var rows := StockOnlyRows(order, sm, existing, semana, nodo);
      assert order == init + [order[n]];
      forall k | 0 <= k < |rows|
        ensures rows[k].sku in order && StockOnly(sm, existing, rows[k].sku)
                && rows[k] == StockRow(semana, nodo, rows[k].sku, sm.info[rows[k].sku])
      {
        if k < |prev| {
          assert rows[k] == prev[k];
        }
      }
    }
  }

  lemma {:induction false} StockOnlyRowsComplete(order: seq<string>, sm: StockMap, existing: set<string>, semana: int, nodo: string)
    ensures RowsComplete(StockOnlyRows(order, sm, existing, semana, nodo), order, sm, existing)
  {
    if |order| > 0 {
      var n := |order| - 1;
      var init := order[..n];
      var sku := order[n];
      var prev := StockOnlyRows(init, sm, existing, semana, nodo);
      StockOnlyRowsComplete(init, sm, existing, semana, nodo);
      var rows := StockOnlyRows(order, sm, existing, semana, nodo);
      assert order == init + [sku];
      forall x | x in order && StockOnly(sm, existing, x)
        ensures exists k :: 0 <= k < |rows| && rows[k].sku == x
      {
        if x == sku {
          assert rows[|prev|].sku == x;
        } else {
          assert x in init;
          var k :| 0 <= k < |prev| && prev[k].sku == x;
          assert rows[k] == prev[k];
        }
      }
    }
  }

  lemma {:induction false} StockOnlyRowsDistinct(order: seq<string>, sm: StockMap, existing: set<string>, semana: int, nodo: string)
    requires Distinct(order)
    ensures DistinctSkus(StockOnlyRows(order, sm, existing, semana, nodo))
  {
    if |order| > 0 {
      var n := |order| - 1;
      var init := order[..n];
      var sku := order[n];
      var prev := StockOnlyRows(init, sm, existing, semana, nodo);
      assert Distinct(init);
      StockOnlyRowsDistinct(init, sm, existing, semana, nodo);
      StockOnlyRowsSound(init, sm, existing, semana, nodo);
      forall k | 0 <= k < |prev| ensures prev[k].sku != sku {
        var m :| 0 <= m < n && init[m] == prev[k].sku;
        assert order[m] == init[m];
      }
    }
  }

  /** The `for (const [sku, info] of stockMap)` loop that fills `skusToInsert`. */
  method CollectStockOnly(sm: StockMap, existing: set<string>, semana: int, nodo: string) returns (rows: seq<PlanRow>)
    ensures rows == StockOnlyRows(sm.order, sm, existing, semana, nodo)
  {
    rows := [];
    var k := 0;
    while k < |sm.order|
      invariant 0 <= k <= |sm.order|
      invariant rows == StockOnlyRows(sm.order[..k], sm, existing, semana, nodo)
    {
      var sku := sm.order[k];
      assert sm.order[..k + 1][..k] == sm.order[..k];
      if sku in sm.info && sku !in existing && sm.info[sku].stock > 0.0 {
        rows := rows + [StockRow(semana, nodo, sku, sm.info[sku])];
      }
      k := k + 1;
    }
    assert sm.order[..k] == sm.order;
  }

  /**
   * Step 5: the stock-only rows inserted in batches of fifty; a batch is
   * stored exactly when its insert succeeds, and `inserted` counts the
   * rows of the stored batches.
   */
  method InsertStockOnly(store: Store, sm: StockMap, existing: set<string>, semana: int, nodo: string)
    returns (toInsert: seq<PlanRow>, inserted: nat, oks: seq<bool>)
    requires store.Valid()
    modifies store`rows, store`nextId, store`writes
    ensures store.Valid()
    ensures toInsert == StockOnlyRows(sm.order, sm, existing, semana, nodo)
    ensures |oks| == |Batches(toInsert, BatchSize)|
    ensures forall k :: 0 <= k < |oks| ==> (oks[k] <==> old(store.writes) + k !in store.failingWrites)
    ensures store.rows == old(store.rows) + Stamp(Kept(Batches(toInsert, BatchSize), oks), old(store.nextId))
    ensures oks == InsertOks(Batches(toInsert, BatchSize), old(store.writes), store.failingWrites)
    ensures store.rows == old(store.rows) + Inserted(toInsert, old(store.nextId), old(store.writes), store.failingWrites)
    ensures inserted == |Kept(Batches(toInsert, BatchSize), oks)|
    ensures inserted == |Inserted(toInsert, old(store.nextId), old(store.writes), store.failingWrites)|
    ensures (forall k :: 0 <= k < |oks| ==> oks[k]) ==> inserted == |toInsert|
    ensures store.writes == old(store.writes) + |oks|
  {
    toInsert := CollectStockOnly(sm, existing, semana, nodo);
    StockOnlyRowsExact(sm.order, sm, existing, semana, nodo);
    assert AllDated(toInsert);
    BatchesDated(toInsert, BatchSize);
    oks := InsertInBatches(store, toInsert);
    var bs := Batches(toInsert, BatchSize);
    inserted := |Kept(bs, oks)|;
    if forall k :: 0 <= k < |oks| ==> oks[k] {
      KeptAll(bs, oks);
      BatchesCover(toInsert, BatchSize);
    }
  }

  // ---------------------------------------------------------------------
  // Step 6: starting stocks still null
  // ---------------------------------------------------------------------

  predicate NullStockRow(r: PlanRow)
  {
    r.stockInicio.None?
  }

  function ZeroStock(r: PlanRow): Patch
  {
    StartingStock(0.0)
  }

  /** The cohort rows whose starting stock is null. */
  function NullStockRows(rows: seq<PlanRow>, semana: int, nodo: string): (c: seq<PlanRow>)
    ensures forall r :: r in c <==> r in rows && InCohort(r, semana, nodo) && r.stockInicio.None?
  {
    Select(Cohort(rows, semana, nodo), NullStockRow)
  }

  /** The fallback writes zero into each null starting stock whose id the store accepts, and nothing else. */
  lemma {:induction false} NullFallbackWritten(rows: seq<PlanRow>, semana: int, nodo: string, rejected: set<nat>, i: int)
    requires DistinctIds(rows) && 0 <= i < |rows|
    ensures var t := ApplyWrites(rows, PerRow(NullStockRows(rows, semana, nodo), ZeroStock), rejected)[i];
            if InCohort(rows[i], semana, nodo) && rows[i].stockInicio.None? && rows[i].id !in rejected
            then t == rows[i].(stockInicio := Some(0.0))
            else t == rows[i]
  {
    var sub := NullStockRows(rows, semana, nodo);
    NullStockRowsDistinct(rows, semana, nodo);
    PerRowWrites(rows, sub, ZeroStock, rejected, i);
    if InCohort(rows[i], semana, nodo) && rows[i].stockInicio.None? && rows[i].id !in rejected {
      assert rows[i] in sub;
      assert Apply(ZeroStock(rows[i]), rows[i]) == rows[i].(stockInicio := Some(0.0));
    } else {
      assert rows[i] !in sub || rows[i].id in rejected;
    }
  }

  lemma NullStockRowsDistinct(rows: seq<PlanRow>, semana: int, nodo: string)
    requires DistinctIds(rows)
    ensures DistinctIds(NullStockRows(rows, semana, nodo))
  {
    CohortDistinct(rows, semana, nodo);
    SelectDistinct(Cohort(rows, semana, nodo), NullStockRow);
  }

  /** No cohort row the store accepts writes for has a null starting stock. */
  predicate StocksSet(rows: seq<PlanRow>, semana: int, nodo: string, rejected: set<nat>)
  {
    forall i :: 0 <= i < |rows| && InCohort(rows[i], semana, nodo) && rows[i].id !in rejected ==> rows[i].stockInicio.Some?
  }

  /** After the one-by-one fallback no accepted cohort row is left with a null starting stock. */
  lemma NullFallbackClears(rows: seq<PlanRow>, semana: int, nodo: string, rejected: set<nat>)
    requires DistinctIds(rows)
    ensures StocksSet(ApplyWrites(rows, PerRow(NullStockRows(rows, semana, nodo), ZeroStock), rejected), semana, nodo, rejected)
  {
    var t := ApplyWrites(rows, PerRow(NullStockRows(rows, semana, nodo), ZeroStock), rejected);
    ApplyWritesIdentity(rows, PerRow(NullStockRows(rows, semana, nodo), ZeroStock), rejected);
    forall i | 0 <= i < |t| && InCohort(t[i], semana, nodo) && t[i].id !in rejected
      ensures t[i].stockInicio.Some?
    {
      assert SameIdentity(t[i], rows[i]);
      NullFallbackWritten(rows, semana, nodo, rejected, i);
    }
  }

  /** After the filtered update no cohort row at all is left with a null starting stock. */
  lemma NullFilterClears(rows: seq<PlanRow>, semana: int, nodo: string, rejected: set<nat>)
    ensures StocksSet(PatchWhere(rows, NullStock(semana, nodo), StartingStock(0.0)), semana, nodo, {})
  {
    var t := PatchWhere(rows, NullStock(semana, nodo), StartingStock(0.0));
    forall i | 0 <= i < |t| && InCohort(t[i], semana, nodo)
      ensures t[i].stockInicio.Some?
    {
      assert InCohort(rows[i], semana, nodo);
    }
  }

  /** The fallback of step 6: each null starting stock zeroed by id, in batches of fifty. */
  method ZeroNullStocks(store: Store, semana: int, nodo: string) returns (n: nat)
    requires store.Valid()
    modifies store`rows
    ensures store.Valid()
    ensures store.rows == ApplyWrites(old(store.rows), PerRow(NullStockRows(old(store.rows), semana, nodo), ZeroStock), store.rejectedIds)
    ensures n == Succeeded(PerRow(NullStockRows(old(store.rows), semana, nodo), ZeroStock), store.rejectedIds)
    ensures StocksSet(store.rows, semana, nodo, store.rejectedIds)
  {
    NullFallbackClears(store.rows, semana, nodo, store.rejectedIds);
    var ws := PerRow(NullStockRows(store.rows, semana, nodo), ZeroStock);
    var oks := UpdateInBatches(store, ws);
    CountAccepted(oks, ws, store.rejectedIds);
    n := CountTrue(oks);
  }

  /**
   * Step 6: when some cohort row still has a null starting stock, one
   * filtered update zeroes them all; when that update fails, the rows are
   * zeroed one by one.  Afterwards no cohort row the store accepts writes
   * for has a null starting stock.
   */
  method SweepNullStock(store: Store, semana: int, nodo: string) returns (nullUpdated: nat, filtered: bool)
    requires store.Valid()
    modifies store`rows, store`writes
    ensures store.Valid()
    ensures var nulls := NullStockRows(old(store.rows), semana, nodo);
            (filtered <==> |nulls| > 0 && old(store.writes) !in store.failingWrites)
            && store.rows == (if |nulls| == 0 then old(store.rows)
                              else if filtered then PatchWhere(old(store.rows), NullStock(semana, nodo), StartingStock(0.0))
                              else ApplyWrites(old(store.rows), PerRow(nulls, ZeroStock), store.rejectedIds))
            && nullUpdated == (if |nulls| == 0 then 0
                               else if filtered then |nulls|
                               else Succeeded(PerRow(nulls, ZeroStock), store.rejectedIds))
    ensures store.writes == old(store.writes) + (if |NullStockRows(old(store.rows), semana, nodo)| > 0 then 1 else 0)
    ensures StocksSet(store.rows, semana, nodo, store.rejectedIds)
  {
    var nulls := NullStockRows(store.rows, semana, nodo);
    nullUpdated, filtered := 0, false;
    if |nulls| > 0 {
      NullFilterClears(store.rows, semana, nodo, store.rejectedIds);
      filtered := store.UpdateWhere(NullStock(semana, nodo), StartingStock(0.0));
      if filtered {
        // The store reports the number of rows the filter matched.
        nullUpdated := |nulls|;
      } else {
        nullUpdated := ZeroNullStocks(store, semana, nodo);
      }
    } else {
      forall i | 0 <= i < |store.rows| && InCohort(store.rows[i], semana, nodo)
        ensures store.rows[i].stockInicio.Some?
      {
        assert store.rows[i] !in nulls;
      }
    }
  }

  // ---------------------------------------------------------------------
  // Step 7: sales lost to missing stock
  // ---------------------------------------------------------------------

  /** The three conditions of the lost-sale rule: a negative error, stock below plan, sales reaching the stock. */
  predicate StockedOut(e: real, s: real, p: real, v: real)
  {
    e < 0.0 && s < p && v >= s
  }

  /**
   * The lost-sale rule on numbers: the stock `s` minus the plan `p`,
   * rounded, when the three conditions hold, and 0 otherwise.  A loss is
   * never positive.
   */
  function UnitsLost(e: real, s: real, p: real, v: real): (u: int)
    ensures u <= 0
    ensures !StockedOut(e, s, p, v) ==> u == 0
    ensures StockedOut(e, s, p, v) ==> u as real - 0.5 <= s - p < u as real + 0.5
  {
    // `parseInt(String(n), 10)` of a whole number is that number (Base.ParseIntOfString).
    Round(if StockedOut(e, s, p, v) then -p + s else 0.0)
  }

  /** The valuation of a loss at `price`, rounded half up; no loss is worth nothing. */
  function ValueLost(units: int, price: real): (v: int)
    requires units <= 0
    ensures units == 0 ==> v == 0
    ensures price >= 0.0 ==> v <= 0
    ensures v as real - 0.5 <= units as real * price < v as real + 0.5
  {
    assert price >= 0.0 ==> units as real * price <= 0.0;
    Round(units as real * price)
  }

  /** `Venta_Perdida_Stock` of a row; a null column counts as 0, so a null error never qualifies. */
  function LostUnits(r: PlanRow): int
  {
    UnitsLost(OrZero(r.error), OrZero(r.stockInicio), OrZero(r.planDemanda), OrZero(r.ventaReal))
  }

  /** `Perdida_Stock_Valorizada` of a row, at the average price when positive and the list price otherwise. */
  function LostValue(r: PlanRow): int
  {
    ValueLost(LostUnits(r), PriceUsed(OrZero(r.pvpProm), OrZero(r.pvpPd)))
  }

  function LossPatch(r: PlanRow): Patch
  {
    StockLoss(LostUnits(r), LostValue(r))
  }

  /** The row's two loss columns hold the rule's values for the row's own figures. */
  predicate LossRecorded(r: PlanRow)
  {
    r.ventaPerdidaStock == Some(LostUnits(r) as real) && r.perdidaStockValorizada == Some(LostValue(r) as real)
  }

  /** After the step, each cohort row the store accepts records its loss; every other row is unchanged. */
  lemma LossSettles(rows: seq<PlanRow>, semana: int, nodo: string, rejected: set<nat>, i: int)
    requires DistinctIds(rows) && 0 <= i < |rows|
    ensures var t := ApplyWrites(rows, PerRow(Cohort(rows, semana, nodo), LossPatch), rejected)[i];
            if InCohort(rows[i], semana, nodo) && rows[i].id !in rejected
            then LossRecorded(t) && t == Apply(LossPatch(rows[i]), rows[i])
            else t == rows[i]
  {
    CohortDistinct(rows, semana, nodo);
    PerRowWrites(rows, Cohort(rows, semana, nodo), LossPatch, rejected, i);
    LossPatchRecords(rows[i]);
  }

  /** The loss patch leaves the figures the rule reads as they were. */
  lemma LossPatchRecords(r: PlanRow)
    ensures LossRecorded(Apply(LossPatch(r), r))
  {
    var t := Apply(LossPatch(r), r);
    assert t.error == r.error && t.stockInicio == r.stockInicio && t.planDemanda == r.planDemanda && t.ventaReal == r.ventaReal;
    assert t.pvpProm == r.pvpProm && t.pvpPd == r.pvpPd;
  }

  /** Step 7: the loss of every cohort row, written in batches of fifty; `calculated` counts the successes. */
  method WriteLosses(store: Store, semana: int, nodo: string) returns (calculated: nat)
    requires store.Valid()
    modifies store`rows
    ensures store.Valid()
    ensures store.rows == ApplyWrites(old(store.rows), PerRow(Cohort(old(store.rows), semana, nodo), LossPatch), store.rejectedIds)
    ensures calculated == Succeeded(PerRow(Cohort(old(store.rows), semana, nodo), LossPatch), store.rejectedIds)
  {
    var ws := PerRow(Cohort(store.rows, semana, nodo), LossPatch);
    var oks := UpdateInBatches(store, ws);
    CountAccepted(oks, ws, store.rejectedIds);
    calculated := CountTrue(oks);
  }

  // ---------------------------------------------------------------------
  // Step 8: derived columns still null
  // ---------------------------------------------------------------------

  function Column(r: PlanRow, c: DerivedColumn): Option<real>
  {
    match c
    case VentaPerdidaStockCol => r.ventaPerdidaStock
    case PerdidaStockValorizadaCol => r.perdidaStockValorizada
    case StockInicioCol => r.stockInicio
    case ErrorCol => r.error
    case ErrorAbsCol => r.errorAbs
    case PerdidaValorizadaCol => r.perdidaValorizada
  }

  predicate HasNullColumn(r: PlanRow)
  {
    r.ventaPerdidaStock.None? || r.perdidaStockValorizada.None? || r.stockInicio.None?
    || r.error.None? || r.errorAbs.None? || r.perdidaValorizada.None?
  }

  /** The columns the sweep writes for a row: exactly its null ones. */
  function NullColumns(r: PlanRow): (cols: set<DerivedColumn>)
    ensures forall c :: c in cols <==> Column(r, c).None?
    ensures cols == {} <==> !HasNullColumn(r)
  {
    (if r.ventaPerdidaStock.None? then {VentaPerdidaStockCol} else {})
    + (if r.perdidaStockValorizada.None? then {PerdidaStockValorizadaCol} else {})
    + (if r.stockInicio.None? then {StockInicioCol} else {})
    + (if r.error.None? then {ErrorCol} else {})
    + (if r.errorAbs.None? then {ErrorAbsCol} else {})
    + (if r.perdidaValorizada.None? then {PerdidaValorizadaCol} else {})
  }

  function FillPatch(r: PlanRow): Patch
  {
    FillZero(NullColumns(r))
  }

  /** The cohort rows the sweep selects. */
  function SweepCandidates(rows: seq<PlanRow>, semana: int, nodo: string): (c: seq<PlanRow>)
    ensures forall r :: r in c <==> r in rows && InCohort(r, semana, nodo) && HasNullColumn(r)
  {
    Select(Cohort(rows, semana, nodo), HasNullColumn)
  }

  /**
   * The sweep writes 0 into the null derived columns only: afterwards none
   * is null, a non-null column keeps its value, the figures are untouched
   * and so are the loss the rule computes and its valuation.
   */
  lemma SweepFills(r: PlanRow)
    ensures var t := Apply(FillPatch(r), r);
            !HasNullColumn(t)
            && (forall c :: Column(t, c) == (if Column(r, c).None? then Some(0.0) else Column(r, c)))
            && t.planDemanda == r.planDemanda && t.ventaReal == r.ventaReal && t.pvpProm == r.pvpProm && t.pvpPd == r.pvpPd
            && LostUnits(t) == LostUnits(r) && LostValue(t) == LostValue(r)
  {
    var cols := NullColumns(r);
    var t := r.(ventaPerdidaStock := ZeroIf(cols, VentaPerdidaStockCol, r.ventaPerdidaStock),
                perdidaStockValorizada := ZeroIf(cols, PerdidaStockValorizadaCol, r.perdidaStockValorizada),
                stockInicio := ZeroIf(cols, StockInicioCol, r.stockInicio),
                error := ZeroIf(cols, ErrorCol, r.error),
                errorAbs := ZeroIf(cols, ErrorAbsCol, r.errorAbs),
                perdidaValorizada := ZeroIf(cols, PerdidaValorizadaCol, r.perdidaValorizada));
    assert Apply(FillPatch(r), r) == t;
    forall c ensures Column(t, c) == (if Column(r, c).None? then Some(0.0) else Column(r, c)) {
      assert c in cols <==> Column(r, c).None?;
    }
    assert OrZero(t.error) == OrZero(r.error);
    assert OrZero(t.stockInicio) == OrZero(r.stockInicio);
  }

  /** Filling a row whose loss is recorded leaves no null column and keeps the loss recorded. */
  lemma FillKeepsLoss(r: PlanRow)
    requires LossRecorded(r)
    ensures var t := Apply(FillPatch(r), r);
            !HasNullColumn(t) && LossRecorded(t)
  {
    var t := Apply(FillPatch(r), r);
    SweepFills(r);
    assert Column(t, VentaPerdidaStockCol) == Column(r, VentaPerdidaStockCol);
    assert Column(t, PerdidaStockValorizadaCol) == Column(r, PerdidaStockValorizadaCol);
  }

  /** Each selected row the store accepts is filled; every other row is unchanged. */
  lemma FillSettles(rows: seq<PlanRow>, semana: int, nodo: string, rejected: set<nat>, i: int)
    requires DistinctIds(rows) && 0 <= i < |rows|
    ensures var t := ApplyWrites(rows, PerRow(SweepCandidates(rows, semana, nodo), FillPatch), rejected)[i];
            if InCohort(rows[i], semana, nodo) && HasNullColumn(rows[i]) && rows[i].id !in rejected
            then t == Apply(FillPatch(rows[i]), rows[i])
            else t == rows[i]
  {
    CohortDistinct(rows, semana, nodo);
    SelectDistinct(Cohort(rows, semana, nodo), HasNullColumn);
    PerRowWrites(rows, SweepCandidates(rows, semana, nodo), FillPatch, rejected, i);
  }

  /** Step 8: the selected rows filled in batches of fifty; `cleanedUp` counts the successes. */
  method FillNulls(store: Store, semana: int, nodo: string) returns (cleanedUp: nat)
    requires store.Valid()
    modifies store`rows
    ensures store.Valid()
    ensures store.rows == ApplyWrites(old(store.rows), PerRow(SweepCandidates(old(store.rows), semana, nodo), FillPatch), store.rejectedIds)
    ensures cleanedUp == Succeeded(PerRow(SweepCandidates(old(store.rows), semana, nodo), FillPatch), store.rejectedIds)
  {
    var ws := PerRow(SweepCandidates(store.rows, semana, nodo), FillPatch);
    var oks := UpdateInBatches(store, ws);
    CountAccepted(oks, ws, store.rejectedIds);
    cleanedUp := CountTrue(oks);
  }

  /**
   * Steps 7 and 8 together: every cohort row the store accepts ends with
   * no null derived column and with its loss recorded.
   */
  lemma LossThenFill(rows: seq<PlanRow>, semana: int, nodo: string, rejected: set<nat>, i: int)
    requires DistinctIds(rows) && 0 <= i < |rows|
    ensures var s7 := ApplyWrites(rows, PerRow(Cohort(rows, semana, nodo), LossPatch), rejected);
            var s8 := ApplyWrites(s7, PerRow(SweepCandidates(s7, semana, nodo), FillPatch), rejected);
            SameIdentity(s8[i], rows[i])
            && (InCohort(rows[i], semana, nodo) && rows[i].id !in rejected ==> !HasNullColumn(s8[i]) && LossRecorded(s8[i]))
  {
    var s7 := ApplyWrites(rows, PerRow(Cohort(rows, semana, nodo), LossPatch), rejected);
    assert Valued(rows, semana, nodo, rejected) == ApplyWrites(s7, PerRow(SweepCandidates(s7, semana, nodo), FillPatch), rejected);
    var s8 := ApplyWrites(s7, PerRow(SweepCandidates(s7, semana, nodo), FillPatch), rejected);
    ApplyWritesIdentity(rows, PerRow(Cohort(rows, semana, nodo), LossPatch), rejected);
    ApplyWritesIdentity(s7, PerRow(SweepCandidates(s7, semana, nodo), FillPatch), rejected);
    LossSettles(rows, semana, nodo, rejected, i);
    FillSettles(s7, semana, nodo, rejected, i);
    if InCohort(rows[i], semana, nodo) && rows[i].id !in rejected && HasNullColumn(s7[i]) {
      FillKeepsLoss(s7[i]);
    }
  }

  // ---------------------------------------------------------------------
  // The route
  // ---------------------------------------------------------------------

  datatype StockResponse =
    | MissingWeek
      /** No snapshot on either date; the dates that do have one, for the message. */
    | NoStockData(iso: string, dmy: string, available: seq<string>)
      /** `notFound` includes the starting stocks the null sweep zeroed. */
    | StockUpdated(updated: nat, inserted: nat, notFound: nat, nullUpdated: nat, calculated: nat,
                   totalStock: nat, mondayDate: string)

  /** Steps 3 to 5: the plan's SKUs, the starting stocks and the stock-only inserts. */
  method StockAndInserts(store: Store, sm: StockMap, semana: int, nodo: string)
    returns (updated: nat, notFound: nat, inserted: nat)
    requires store.Valid()
    modifies store`rows, store`nextId, store`writes
    ensures store.Valid()
    ensures updated == Tally(Cohort(old(store.rows), semana, nodo), sm.info, store.rejectedIds, true)
    ensures notFound == Tally(Cohort(old(store.rows), semana, nodo), sm.info, store.rejectedIds, false)
    ensures inserted <= |StockOnlyOf(old(store.rows), sm, semana, nodo)|
    ensures inserted == |Inserted(StockOnlyOf(old(store.rows), sm, semana, nodo), old(store.nextId), old(store.writes), store.failingWrites)|
    ensures store.rows == Stocked(old(store.rows), old(store.nextId), old(store.writes), store.failingWrites, store.rejectedIds, sm, semana, nodo)
    ensures store.writes == SweepWrite(old(store.rows), old(store.writes), sm, semana, nodo)
  {
    var cohort := Cohort(store.rows, semana, nodo);
    var existing := CollectPlanSkus(cohort);
    updated, notFound := WriteStartingStock(store, cohort, sm);
    var toInsert, oks;
    toInsert, inserted, oks := InsertStockOnly(store, sm, existing, semana, nodo);
    KeptBound(Batches(toInsert, BatchSize), oks);
    BatchesCover(toInsert, BatchSize);
  }

  /** Steps 6 to 8: the null stock sweep, the losses and the final sweep. */
  method SweepAndValue(store: Store, semana: int, nodo: string) returns (nullUpdated: nat, calculated: nat)
    requires store.Valid()
    modifies store`rows, store`writes
    ensures store.Valid()
    ensures store.rows == Valued(Swept(old(store.rows), semana, nodo, old(store.writes), store.failingWrites, store.rejectedIds),
                                 semana, nodo, store.rejectedIds)
    ensures nullUpdated == NullCount(old(store.rows), semana, nodo, old(store.writes), store.failingWrites, store.rejectedIds)
    ensures nullUpdated <= |NullStockRows(old(store.rows), semana, nodo)|
    ensures calculated == AcceptedCount(Cohort(Swept(old(store.rows), semana, nodo, old(store.writes), store.failingWrites,
                                                     store.rejectedIds), semana, nodo), store.rejectedIds)
    ensures forall i :: 0 <= i < |store.rows| && InCohort(store.rows[i], semana, nodo) && store.rows[i].id !in store.rejectedIds
              ==> !HasNullColumn(store.rows[i]) && LossRecorded(store.rows[i])
  {
    nullUpdated := NullSweep(store, semana, nodo);
    calculated := ValueCohort(store, semana, nodo);
  }

  /** Step 6's table, with `w` the write counter when the filtered update is sent. */
  function Swept(rows: seq<PlanRow>, semana: int, nodo: string, w: nat, failing: set<nat>, rejected: set<nat>): seq<PlanRow>
  {
    var nulls := NullStockRows(rows, semana, nodo);
    if |nulls| == 0 then rows
    else if w !in failing then PatchWhere(rows, NullStock(semana, nodo), StartingStock(0.0))
    else ApplyWrites(rows, PerRow(nulls, ZeroStock), rejected)
  }

  /** Step 6's count: the rows the filter matched, or the fallback's successes. */
  function NullCount(rows: seq<PlanRow>, semana: int, nodo: string, w: nat, failing: set<nat>, rejected: set<nat>): nat
  {
    var nulls := NullStockRows(rows, semana, nodo);
    if |nulls| == 0 then 0
    else if w !in failing then |nulls|
    else Succeeded(PerRow(nulls, ZeroStock), rejected)
  }

  /** Step 6 as the route uses it. */
  method NullSweep(store: Store, semana: int, nodo: string) returns (nullUpdated: nat)
    requires store.Valid()
    modifies store`rows, store`writes
    ensures store.Valid()
    ensures store.rows == Swept(old(store.rows), semana, nodo, old(store.writes), store.failingWrites, store.rejectedIds)
    ensures nullUpdated == NullCount(old(store.rows), semana, nodo, old(store.writes), store.failingWrites, store.rejectedIds)
    ensures nullUpdated <= |NullStockRows(old(store.rows), semana, nodo)|
  {
    var filtered;
    nullUpdated, filtered := SweepNullStock(store, semana, nodo);
  }

  /** Steps 7 and 8: the table becomes `Valued`, so every accepted cohort row is valued and without nulls. */
  method ValueCohort(store: Store, semana: int, nodo: string) returns (calculated: nat)
    requires store.Valid()
    modifies store`rows
    ensures store.Valid()
    ensures store.rows == Valued(old(store.rows), semana, nodo, store.rejectedIds)
    ensures calculated == Succeeded(PerRow(Cohort(old(store.rows), semana, nodo), LossPatch), store.rejectedIds)
    ensures calculated == AcceptedCount(Cohort(old(store.rows), semana, nodo), store.rejectedIds)
    ensures forall i :: 0 <= i < |store.rows| && InCohort(store.rows[i], semana, nodo) && store.rows[i].id !in store.rejectedIds
              ==> !HasNullColumn(store.rows[i]) && LossRecorded(store.rows[i])
  {
    ghost var rows6 := store.rows;
    calculated := WriteLosses(store, semana, nodo);
    SucceededPerRow(Cohort(rows6, semana, nodo), LossPatch, store.rejectedIds);
    var cleanedUp := FillNulls(store, semana, nodo);
    ValuedAll(rows6, semana, nodo, store.rejectedIds);
  }

  /** The table after step 7 (the losses) and step 8 (the final sweep). */
  function Valued(rows: seq<PlanRow>, semana: int, nodo: string, rejected: set<nat>): seq<PlanRow>
  {
    var s7 := ApplyWrites(rows, PerRow(Cohort(rows, semana, nodo), LossPatch), rejected);
    ApplyWrites(s7, PerRow(SweepCandidates(s7, semana, nodo), FillPatch), rejected)
  }

  /** Steps 7 and 8 keep every row's identity and leave every accepted cohort row valued and without nulls. */
  lemma ValuedAll(rows: seq<PlanRow>, semana: int, nodo: string, rejected: set<nat>)
    requires DistinctIds(rows)
    ensures var t := Valued(rows, semana, nodo, rejected);
            |t| == |rows|
            && forall i :: 0 <= i < |t| ==>
                 SameIdentity(t[i], rows[i])
                 && (InCohort(t[i], semana, nodo) && t[i].id !in rejected ==> !HasNullColumn(t[i]) && LossRecorded(t[i]))
  {
    var t := Valued(rows, semana, nodo, rejected);
    forall i | 0 <= i < |t|
      ensures SameIdentity(t[i], rows[i])
      ensures InCohort(t[i], semana, nodo) && t[i].id !in rejected ==> !HasNullColumn(t[i]) && LossRecorded(t[i])
    {
      LossThenFill(rows, semana, nodo, rejected, i);
    }
  }

  // ---------------------------------------------------------------------
  // The table after the reconciliation
  // ---------------------------------------------------------------------

  /** Step 4's table: each accepted plan row given its SKU's stock. */
  function Started(rows: seq<PlanRow>, semana: int, nodo: string, sm: StockMap, rejected: set<nat>): seq<PlanRow>
  {
    ApplyWrites(rows, PerRow(Cohort(rows, semana, nodo), StartPatch(sm)), rejected)
  }

  /** The stock-only rows for a table's cohort. */
  function StockOnlyOf(rows: seq<PlanRow>, sm: StockMap, semana: int, nodo: string): seq<PlanRow>
  {
    StockOnlyRows(sm.order, sm, PlanSkus(Cohort(rows, semana, nodo)), semana, nodo)
  }

  /** Steps 3 to 5's table: the starting stocks written, then the stored stock-only batches appended. */
  function Stocked(rows: seq<PlanRow>, nextId: nat, w0: nat, failing: set<nat>, rejected: set<nat>,
                   sm: StockMap, semana: int, nodo: string): seq<PlanRow>
  {
    Started(rows, semana, nodo, sm, rejected) + Inserted(StockOnlyOf(rows, sm, semana, nodo), nextId, w0, failing)
  }

  /** The write counter after step 5 has sent its insert batches, starting from `w0`. */
  function SweepWrite(rows: seq<PlanRow>, w0: nat, sm: StockMap, semana: int, nodo: string): nat
  {
    w0 + |Batches(StockOnlyOf(rows, sm, semana, nodo), BatchSize)|
  }

  /**
   * The table after steps 3 to 8, on a table whose next fresh id is
   * `nextId` and whose write counter is `w0`; `w` is the counter when
   * step 6 sends its filtered update, one past the last insert batch.
   */
  function StockTable(rows: seq<PlanRow>, nextId: nat, w0: nat, w: nat, failing: set<nat>, rejected: set<nat>,
                      sm: StockMap, semana: int, nodo: string): seq<PlanRow>
  {
    Valued(Swept(Stocked(rows, nextId, w0, failing, rejected, sm, semana, nodo), semana, nodo, w, failing, rejected),
           semana, nodo, rejected)
  }

  /** The columns no stock step writes: the identity, the plan and the sales figures. */
  predicate KeepsFigures(t: PlanRow, r: PlanRow)
  {
    SameIdentity(t, r) && t.planDemanda == r.planDemanda && t.ventaReal == r.ventaReal
    && t.pvpProm == r.pvpProm && t.pvpPd == r.pvpPd
  }

  /** The ids of stored rows are the fresh ids in order. */
  lemma {:induction false} InsertedIds(news: seq<PlanRow>, nextId: nat, w0: nat, failing: set<nat>)
    ensures var ins := Inserted(news, nextId, w0, failing);
            forall k :: 0 <= k < |ins| ==> ins[k].id == nextId + k
  {
    InsertedRows(news, nextId, w0, failing);
  }

  /** Steps 3 to 5 keep the old rows in place and follow them with the stored inserts, all ids distinct. */
  lemma {:induction false} StockedIds(rows: seq<PlanRow>, nextId: nat, w0: nat, failing: set<nat>, rejected: set<nat>,
                                      sm: StockMap, semana: int, nodo: string)
    requires IdsBelow(rows, nextId)
    ensures var ins := Inserted(StockOnlyOf(rows, sm, semana, nodo), nextId, w0, failing);
            var t := Stocked(rows, nextId, w0, failing, rejected, sm, semana, nodo);
            t == Started(rows, semana, nodo, sm, rejected) + ins && |t| == |rows| + |ins| && DistinctIds(t)
  {
    var u := Started(rows, semana, nodo, sm, rejected);
    var ins := Inserted(StockOnlyOf(rows, sm, semana, nodo), nextId, w0, failing);
    WritesKeepFresh(rows, PerRow(Cohort(rows, semana, nodo), StartPatch(sm)), rejected, nextId);
    InsertedIds(StockOnlyOf(rows, sm, semana, nodo), nextId, w0, failing);
    ConcatShape(u, nextId, ins);
  }

  /** The filtered update of step 6 on one row. */
  lemma {:induction false} FilterRow(rows: seq<PlanRow>, semana: int, nodo: string, i: int)
    requires DistinctIds(rows) && 0 <= i < |rows|
    ensures var t := PatchWhere(rows, NullStock(semana, nodo), StartingStock(0.0));
            DistinctIds(t) && KeepsFigures(t[i], rows[i])
            && (!InCohort(rows[i], semana, nodo) || rows[i].stockInicio.Some? ==> t[i] == rows[i])
  {
    PatchWhereKeepsIds(rows, NullStock(semana, nodo), StartingStock(0.0));
  }

  /** The one-by-one fallback of step 6 on one row. */
  lemma {:induction false} FallbackRow(rows: seq<PlanRow>, semana: int, nodo: string, rejected: set<nat>, i: int)
    requires DistinctIds(rows) && 0 <= i < |rows|
    ensures var t := ApplyWrites(rows, PerRow(NullStockRows(rows, semana, nodo), ZeroStock), rejected);
            DistinctIds(t) && KeepsFigures(t[i], rows[i])
            && (!InCohort(rows[i], semana, nodo) || rows[i].stockInicio.Some? ==> t[i] == rows[i])
  {
    ApplyWritesIdentity(rows, PerRow(NullStockRows(rows, semana, nodo), ZeroStock), rejected);
    NullFallbackWritten(rows, semana, nodo, rejected, i);
  }

  /** Step 6 on one row: ids stay distinct, figures stay, and a row outside the cohort or with a stock is left alone. */
  lemma {:induction false} SweptRow(rows: seq<PlanRow>, semana: int, nodo: string, w: nat, failing: set<nat>, rejected: set<nat>, i: int)
    requires DistinctIds(rows) && 0 <= i < |rows|
    ensures var t := Swept(rows, semana, nodo, w, failing, rejected);
            |t| == |rows| && DistinctIds(t) && KeepsFigures(t[i], rows[i])
            && (!InCohort(rows[i], semana, nodo) || rows[i].stockInicio.Some? ==> t[i] == rows[i])
  {
    if |NullStockRows(rows, semana, nodo)| > 0 {
      if w !in failing {
        FilterRow(rows, semana, nodo, i);
      } else {
        FallbackRow(rows, semana, nodo, rejected, i);
      }
    }
  }

  /** Step 7 on one row: ids stay distinct, a row keeps its figures and its stock, and only accepted cohort rows change. */
  lemma {:induction false} LossRow(rows: seq<PlanRow>, semana: int, nodo: string, rejected: set<nat>, i: int)
    requires DistinctIds(rows) && 0 <= i < |rows|
    ensures var t := ApplyWrites(rows, PerRow(Cohort(rows, semana, nodo), LossPatch), rejected);
            DistinctIds(t) && KeepsFigures(t[i], rows[i]) && t[i].stockInicio == rows[i].stockInicio
            && (if InCohort(rows[i], semana, nodo) && rows[i].id !in rejected
                then t[i] == Apply(LossPatch(rows[i]), rows[i])
                else t[i] == rows[i])
  {
    ApplyWritesIdentity(rows, PerRow(Cohort(rows, semana, nodo), LossPatch), rejected);
    CohortDistinct(rows, semana, nodo);
    PerRowWrites(rows, Cohort(rows, semana, nodo), LossPatch, rejected, i);
  }

  /** The fill patch keeps the figures and a set starting stock. */
  lemma FillKeeps(r: PlanRow)
    ensures var t := Apply(FillPatch(r), r);
            KeepsFigures(t, r) && (r.stockInicio.Some? ==> t.stockInicio == r.stockInicio)
  {
    assert StockInicioCol in NullColumns(r) <==> r.stockInicio.None?;
  }

  /** Step 8 on one row: ids stay distinct, figures and a set stock stay, and a row without nulls is left alone. */
  lemma {:induction false} FillRow(rows: seq<PlanRow>, semana: int, nodo: string, rejected: set<nat>, i: int)
    requires DistinctIds(rows) && 0 <= i < |rows|
    ensures var t := ApplyWrites(rows, PerRow(SweepCandidates(rows, semana, nodo), FillPatch), rejected);
            KeepsFigures(t[i], rows[i]) && (rows[i].stockInicio.Some? ==> t[i].stockInicio == rows[i].stockInicio)
            && (!InCohort(rows[i], semana, nodo) || !HasNullColumn(rows[i]) || rows[i].id in rejected ==> t[i] == rows[i])
  {
    FillSettles(rows, semana, nodo, rejected, i);
    FillKeeps(rows[i]);
  }

  /** Steps 7 and 8 keep the figures and every set starting stock, and leave rows outside the cohort alone. */
  lemma {:induction false} ValuedRow(rows: seq<PlanRow>, semana: int, nodo: string, rejected: set<nat>, i: int)
    requires DistinctIds(rows) && 0 <= i < |rows|
    ensures var t := Valued(rows, semana, nodo, rejected)[i];
            KeepsFigures(t, rows[i])
            && (rows[i].stockInicio.Some? ==> t.stockInicio == rows[i].stockInicio)
            && (!InCohort(rows[i], semana, nodo) ==> t == rows[i])
  {
    var s7 := ApplyWrites(rows, PerRow(Cohort(rows, semana, nodo), LossPatch), rejected);
    LossRow(rows, semana, nodo, rejected, i);
    FillRow(s7, semana, nodo, rejected, i);
  }

  /**
   * A plan row of the cohort whose id the store accepts ends with its
   * SKU's stock (0 when the snapshot lacks the SKU), its loss recorded,
   * no null derived column, and its identity, plan and sales figures as
   * they were.
   */
  lemma {:induction false} StockTablePlanRow(rows: seq<PlanRow>, nextId: nat, w0: nat, w: nat, failing: set<nat>, rejected: set<nat>,
                                             sm: StockMap, semana: int, nodo: string, i: int)
    requires IdsBelow(rows, nextId) && 0 <= i < |rows|
    requires InCohort(rows[i], semana, nodo) && rows[i].id !in rejected
    ensures var t := StockTable(rows, nextId, w0, w, failing, rejected, sm, semana, nodo)[i];
            t.stockInicio == Some(StockValue(sm, rows[i].sku)) && LossRecorded(t) && !HasNullColumn(t)
            && KeepsFigures(t, rows[i])
  {
    var u := Started(rows, semana, nodo, sm, rejected);
    var t5 := Stocked(rows, nextId, w0, failing, rejected, sm, semana, nodo);
    var t6 := Swept(t5, semana, nodo, w, failing, rejected);
    assert StockTable(rows, nextId, w0, w, failing, rejected, sm, semana, nodo) == Valued(t6, semana, nodo, rejected);
    StockedIds(rows, nextId, w0, failing, rejected, sm, semana, nodo);
    assert t5[i] == u[i];
    StartingStockWritten(rows, semana, nodo, sm, rejected, i);
    SweptRow(t5, semana, nodo, w, failing, rejected, i);
    assert t6[i] == t5[i];
    ValuedRow(t6, semana, nodo, rejected, i);
    LossThenFill(t6, semana, nodo, rejected, i);
  }

  /** A row outside the cohort ends as it was. */
  lemma {:induction false} StockTableElsewhere(rows: seq<PlanRow>, nextId: nat, w0: nat, w: nat, failing: set<nat>, rejected: set<nat>,
                                               sm: StockMap, semana: int, nodo: string, i: int)
    requires IdsBelow(rows, nextId) && 0 <= i < |rows|
    requires !InCohort(rows[i], semana, nodo)
    ensures StockTable(rows, nextId, w0, w, failing, rejected, sm, semana, nodo)[i] == rows[i]
  {
    var u := Started(rows, semana, nodo, sm, rejected);
    var t5 := Stocked(rows, nextId, w0, failing, rejected, sm, semana, nodo);
    var t6 := Swept(t5, semana, nodo, w, failing, rejected);
    assert StockTable(rows, nextId, w0, w, failing, rejected, sm, semana, nodo) == Valued(t6, semana, nodo, rejected);
    StockedIds(rows, nextId, w0, failing, rejected, sm, semana, nodo);
    assert t5[i] == u[i];
    StartingStockWritten(rows, semana, nodo, sm, rejected, i);
    SweptRow(t5, semana, nodo, w, failing, rejected, i);
    ValuedRow(t6, semana, nodo, rejected, i);
  }

  /** A stored stock-only row is the row built for a stock-only SKU, under its fresh id. */
  lemma {:induction false} StoredStockRow(rows: seq<PlanRow>, nextId: nat, w0: nat, failing: set<nat>,
                                          sm: StockMap, semana: int, nodo: string, k: int)
    requires 0 <= k < |Inserted(StockOnlyOf(rows, sm, semana, nodo), nextId, w0, failing)|
    ensures var x := Inserted(StockOnlyOf(rows, sm, semana, nodo), nextId, w0, failing)[k];
            StockOnly(sm, PlanSkus(Cohort(rows, semana, nodo)), x.sku)
            && x == StockRow(semana, nodo, x.sku, sm.info[x.sku]).(id := nextId + k)
  {
    var news := StockOnlyOf(rows, sm, semana, nodo);
    var existing := PlanSkus(Cohort(rows, semana, nodo));
    var bs := Batches(news, BatchSize);
    var oks := InsertOks(bs, w0, failing);
    var kept := Kept(bs, oks);
    assert Inserted(news, nextId, w0, failing) == Stamp(kept, nextId);
    KeptBound(bs, oks);
    BatchesCover(news, BatchSize);
    StampAt(kept, nextId, k);
    KeptMembers(bs, oks);
    assert kept[k] in kept;
    var m :| 0 <= m < |news| && news[m] == kept[k];
    StockOnlyRowsSound(sm.order, sm, existing, semana, nodo);
    assert news[m] == StockRow(semana, nodo, news[m].sku, sm.info[news[m].sku]);
  }

  /** A stock-only row's loss is zero, so step 7 records zeros and leaves no null column behind. */
  lemma StockRowLoss(x: PlanRow, semana: int, nodo: string, sku: string, info: StockInfo, id: nat)
    requires x == StockRow(semana, nodo, sku, info).(id := id)
    ensures Apply(LossPatch(x), x) == x.(ventaPerdidaStock := Some(0.0), perdidaStockValorizada := Some(0.0))
    ensures !HasNullColumn(Apply(LossPatch(x), x))
  {
    assert LostUnits(x) == LostUnits(StockRow(semana, nodo, sku, info));
    assert LostValue(x) == 0;
  }

  /** Steps 7 and 8 on a stock-only row: zero lost units and zero lost value recorded, when its id is accepted. */
  lemma {:induction false} ValuedStockRow(rows: seq<PlanRow>, semana: int, nodo: string, rejected: set<nat>, j: int,
                                          sku: string, info: StockInfo, id: nat)
    requires DistinctIds(rows) && 0 <= j < |rows|
    requires rows[j] == StockRow(semana, nodo, sku, info).(id := id)
    ensures Valued(rows, semana, nodo, rejected)[j]
         == (if id in rejected then rows[j] else rows[j].(ventaPerdidaStock := Some(0.0), perdidaStockValorizada := Some(0.0)))
  {
    var s7 := ApplyWrites(rows, PerRow(Cohort(rows, semana, nodo), LossPatch), rejected);
    assert Valued(rows, semana, nodo, rejected) == ApplyWrites(s7, PerRow(SweepCandidates(s7, semana, nodo), FillPatch), rejected);
    StockRowLoss(rows[j], semana, nodo, sku, info, id);
    LossRow(rows, semana, nodo, rejected, j);
    FillRow(s7, semana, nodo, rejected, j);
  }

  /** Steps 6 to 8 on a stock-only row, in any table with distinct ids. */
  lemma {:induction false} LaterStepsStockRow(rows: seq<PlanRow>, semana: int, nodo: string, w: nat, failing: set<nat>,
                                              rejected: set<nat>, j: int, sku: string, info: StockInfo, id: nat)
    requires DistinctIds(rows) && 0 <= j < |rows|
    requires rows[j] == StockRow(semana, nodo, sku, info).(id := id)
    ensures Valued(Swept(rows, semana, nodo, w, failing, rejected), semana, nodo, rejected)[j]
         == (if id in rejected then rows[j] else rows[j].(ventaPerdidaStock := Some(0.0), perdidaStockValorizada := Some(0.0)))
  {
    var t6 := Swept(rows, semana, nodo, w, failing, rejected);
    SweptRow(rows, semana, nodo, w, failing, rejected, j);
    assert t6[j] == rows[j];
    ValuedStockRow(t6, semana, nodo, rejected, j, sku, info, id);
  }

  /** After step 5, the table's row `j` past the old rows is the stored stock-only row, built for its SKU. */
  lemma {:induction false} StockedInsertedRow(rows: seq<PlanRow>, nextId: nat, w0: nat, failing: set<nat>, rejected: set<nat>,
                                              sm: StockMap, semana: int, nodo: string, j: int)
    requires IdsBelow(rows, nextId)
    requires |rows| <= j < |rows| + |Inserted(StockOnlyOf(rows, sm, semana, nodo), nextId, w0, failing)|
    ensures var t5 := Stocked(rows, nextId, w0, failing, rejected, sm, semana, nodo);
            var x := Inserted(StockOnlyOf(rows, sm, semana, nodo), nextId, w0, failing)[j - |rows|];
            DistinctIds(t5) && j < |t5| && t5[j] == x
            && StockOnly(sm, PlanSkus(Cohort(rows, semana, nodo)), x.sku)
            && x == StockRow(semana, nodo, x.sku, sm.info[x.sku]).(id := nextId + (j - |rows|))
  {
    var ins := Inserted(StockOnlyOf(rows, sm, semana, nodo), nextId, w0, failing);
    var t5 := Stocked(rows, nextId, w0, failing, rejected, sm, semana, nodo);
    StockedIds(rows, nextId, w0, failing, rejected, sm, semana, nodo);
    assert t5[j] == ins[j - |rows|];
    StoredStockRow(rows, nextId, w0, failing, sm, semana, nodo, j - |rows|);
  }

  /**
   * A stored stock-only row is the row built for a stock-only SKU under
   * its fresh id, and ends as built with zero lost units and zero lost
   * value recorded when the store accepts its id.
   */
  lemma {:induction false} StockTableInserted(rows: seq<PlanRow>, nextId: nat, w0: nat, w: nat, failing: set<nat>, rejected: set<nat>,
                                              sm: StockMap, semana: int, nodo: string, j: int)
    requires IdsBelow(rows, nextId)
    requires |rows| <= j < |rows| + |Inserted(StockOnlyOf(rows, sm, semana, nodo), nextId, w0, failing)|
    ensures var x := Inserted(StockOnlyOf(rows, sm, semana, nodo), nextId, w0, failing)[j - |rows|];
            var t := StockTable(rows, nextId, w0, w, failing, rejected, sm, semana, nodo)[j];
            StockOnly(sm, PlanSkus(Cohort(rows, semana, nodo)), x.sku)
            && x == StockRow(semana, nodo, x.sku, sm.info[x.sku]).(id := nextId + (j - |rows|))
            && t == (if x.id in rejected then x else x.(ventaPerdidaStock := Some(0.0), perdidaStockValorizada := Some(0.0)))
  {
    var x := Inserted(StockOnlyOf(rows, sm, semana, nodo), nextId, w0, failing)[j - |rows|];
    var t5 := Stocked(rows, nextId, w0, failing, rejected, sm, semana, nodo);
    assert StockTable(rows, nextId, w0, w, failing, rejected, sm, semana, nodo)
        == Valued(Swept(t5, semana, nodo, w, failing, rejected), semana, nodo, rejected);
    StockedInsertedRow(rows, nextId, w0, failing, rejected, sm, semana, nodo, j);
    LaterStepsStockRow(t5, semana, nodo, w, failing, rejected, j, x.sku, sm.info[x.sku], x.id);
  }

  /** What `formatDateISO` and `formatDateDMY` give for the invalid date of a week that is not a number. */
  const NaNDate: string := "NaN-NaN-NaN"

  /**
   * Steps 3 to 8 for a found snapshot: the table ends as `StockTable`,
   * the counts are the tallies, the stored inserts and the null count,
   * and every accepted cohort row ends valued and without nulls.
   */
  method ReconcileStock(store: Store, sm: StockMap, weekNum: int, nodo: string)
    returns (updated: nat, inserted: nat, notFound: nat, nullUpdated: nat, calculated: nat)
    requires store.Valid()
    modifies store
    ensures store.Valid()
    ensures store.rows == StockTable(old(store.rows), old(store.nextId), old(store.writes),
                                     SweepWrite(old(store.rows), old(store.writes), sm, weekNum, nodo),
                                     store.failingWrites, store.rejectedIds, sm, weekNum, nodo)
    ensures updated == Tally(Cohort(old(store.rows), weekNum, nodo), sm.info, store.rejectedIds, true)
    ensures notFound == Tally(Cohort(old(store.rows), weekNum, nodo), sm.info, store.rejectedIds, false)
    ensures inserted == |Inserted(StockOnlyOf(old(store.rows), sm, weekNum, nodo), old(store.nextId), old(store.writes), store.failingWrites)|
    ensures inserted <= |StockOnlyOf(old(store.rows), sm, weekNum, nodo)|
    ensures nullUpdated == NullCount(Stocked(old(store.rows), old(store.nextId), old(store.writes), store.failingWrites,
                                             store.rejectedIds, sm, weekNum, nodo),
                                     weekNum, nodo, SweepWrite(old(store.rows), old(store.writes), sm, weekNum, nodo),
                                     store.failingWrites, store.rejectedIds)
    ensures calculated == AcceptedCount(Cohort(Swept(Stocked(old(store.rows), old(store.nextId), old(store.writes), store.failingWrites,
                                                             store.rejectedIds, sm, weekNum, nodo),
                                                     weekNum, nodo, SweepWrite(old(store.rows), old(store.writes), sm, weekNum, nodo),
                                                     store.failingWrites, store.rejectedIds),
                                               weekNum, nodo), store.rejectedIds)
    ensures forall i :: 0 <= i < |store.rows| && InCohort(store.rows[i], weekNum, nodo) && store.rows[i].id !in store.rejectedIds
              ==> !HasNullColumn(store.rows[i]) && LossRecorded(store.rows[i])
  {
    updated, notFound, inserted := StockAndInserts(store, sm, weekNum, nodo);
    nullUpdated, calculated := SweepAndValue(store, weekNum, nodo);
  }

  /**
   * POST /api/update-stock.  `week` is the form value as the page sends
   * it, a string (`None` when absent); `table` is `StockMeli`; `recent`
   * is what the diagnostic query (Chile rows, newest date first, ten
   * rows) returns.  The week is refused only when it is falsy, and
   * `parseInt` reads it; a week that is not a number reaches the date
   * lookup with an invalid date.
   */
  method UpdateStock(store: Store, week: Option<string>, nodoField: string, table: seq<StockItem>, recent: seq<string>)
    returns (resp: StockResponse)
    requires store.Valid()
    modifies store
    ensures store.Valid()
    ensures resp == MissingWeek <==> week.None? || week.value == ""
    ensures !resp.StockUpdated? ==> store.rows == old(store.rows)
    ensures resp.NoStockData? ==> resp.available == AvailableDates(recent)
    ensures week.Some? && week.value != "" && ParseInt(week.value).None? ==> resp == NoStockData(NaNDate, NaNDate, AvailableDates(recent))
    ensures resp.NoStockData? && week.Some? && ParseInt(week.value).Some? ==>
              |SnapshotOn(table, resp.iso)| == 0 && |SnapshotOn(table, resp.dmy)| == 0
              && exists d :: ValidDate(d) && DayNumber(d) == MondayNumber(ParseInt(week.value).value)
                             && resp.iso == FormatIso(d) && resp.dmy == FormatDmy(d)
    ensures resp.StockUpdated? ==>
              week.Some? && ParseInt(week.value).Some?
              && exists d :: ValidDate(d) && DayNumber(d) == MondayNumber(ParseInt(week.value).value)
                             && (resp.mondayDate == FormatIso(d)
                                 || (|SnapshotOn(table, FormatIso(d))| == 0 && resp.mondayDate == FormatDmy(d)))
    ensures resp.StockUpdated? && week.Some? && ParseInt(week.value).Some? ==>
              var weekNum := ParseInt(week.value).value;
              var nodo := if nodoField == "" then DefaultNodo else nodoField;
              var cohort := Cohort(old(store.rows), weekNum, nodo);
              var sm := StockMapOf(SnapshotOn(table, resp.mondayDate));
              var news := StockOnlyOf(old(store.rows), sm, weekNum, nodo);
              resp.totalStock == |SnapshotOn(table, resp.mondayDate)| && resp.totalStock > 0
              && store.rows == StockTable(old(store.rows), old(store.nextId), old(store.writes),
                                          SweepWrite(old(store.rows), old(store.writes), sm, weekNum, nodo), store.failingWrites,
                                          store.rejectedIds, sm, weekNum, nodo)
              && resp.updated == Tally(cohort, sm.info, store.rejectedIds, true)
              && resp.notFound == Tally(cohort, sm.info, store.rejectedIds, false) + resp.nullUpdated
              && resp.inserted == |Inserted(news, old(store.nextId), old(store.writes), store.failingWrites)|
              && resp.inserted <= |news|
              && resp.nullUpdated == NullCount(Stocked(old(store.rows), old(store.nextId), old(store.writes), store.failingWrites,
                                                       store.rejectedIds, sm, weekNum, nodo),
                                               weekNum, nodo, SweepWrite(old(store.rows), old(store.writes), sm, weekNum, nodo),
                                               store.failingWrites, store.rejectedIds)
              && resp.calculated == AcceptedCount(Cohort(Swept(Stocked(old(store.rows), old(store.nextId), old(store.writes),
                                                                     store.failingWrites, store.rejectedIds, sm, weekNum, nodo),
                                                             weekNum, nodo, SweepWrite(old(store.rows), old(store.writes), sm, weekNum, nodo),
                                                             store.failingWrites, store.rejectedIds),
                                                       weekNum, nodo), store.rejectedIds)
    ensures resp.StockUpdated? && week.Some? && ParseInt(week.value).Some? ==>
              var nodo := if nodoField == "" then DefaultNodo else nodoField;
              forall i :: 0 <= i < |store.rows| && InCohort(store.rows[i], ParseInt(week.value).value, nodo)
                            && store.rows[i].id !in store.rejectedIds
                ==> !HasNullColumn(store.rows[i]) && LossRecorded(store.rows[i])
  {
    if week.None? || week.value == "" {
      return MissingWeek;
    }
    var parsed := ParseInt(week.value);
    if parsed.None? {
      // The invalid date formats as NaN in both forms; no snapshot is looked up under it.
      return NoStockData(NaNDate, NaNDate, AvailableDates(recent));
    }
    var weekNum := parsed.value;
    var nodo := if nodoField == "" then DefaultNodo else nodoField;
    var monday := MondayOfWeek(weekNum);
    var iso := FormatIso(monday);
    var dmy := FormatDmy(monday);
    var stockData := SnapshotOn(table, iso);
    if |stockData| == 0 {
      stockData := SnapshotOn(table, dmy);
    }
    if |stockData| == 0 {
      return NoStockData(iso, dmy, AvailableDates(recent));
    }
    var mondayStr := stockData[0].fecha;
    assert stockData[0] in stockData;
    assert mondayStr == iso || (|SnapshotOn(table, iso)| == 0 && mondayStr == dmy);
    assert stockData == SnapshotOn(table, mondayStr);
    var sm := BuildStockMap(stockData);
    var updated, inserted, notFound, nullUpdated, calculated := ReconcileStock(store, sm, weekNum, nodo);
    resp := StockUpdated(updated, inserted, notFound + nullUpdated, nullUpdated, calculated, |stockData|, mondayStr);
  }
}
