/**
 * The relative-error route: for one week (and optionally one channel),
 * every row with a recorded sale gets `Error = (venta - plan) / plan` and
 * `Error_Abs = |Error|`, with 1 when there is a sale but no positive plan
 * and 0 when there is neither; the response counts the rows written and
 * averages their absolute errors.
 */
module ErrorRates {
  import opened Base
  import opened DemandTable

  datatype Rates = Rates(error: real, errorAbs: real)

  /**
   * The per-record rule: with a positive plan the error is the sale's
   * deviation relative to the plan; without one, a sale counts as a
   * full (1) error and no sale as none.
   */
  function RelativeError(plan: real, venta: real): (r: Rates)
    ensures r.errorAbs == AbsReal(r.error) && r.errorAbs >= 0.0
    ensures plan > 0.0 ==> r.error * plan == venta - plan
    ensures plan <= 0.0 && venta > 0.0 ==> r == Rates(1.0, 1.0)
    ensures plan <= 0.0 && venta <= 0.0 ==> r == Rates(0.0, 0.0)
  {
    if plan > 0.0 then
      var e := (venta - plan) / plan;
      Rates(e, AbsReal(e))
    else if venta > 0.0 then Rates(1.0, 1.0)
    else Rates(0.0, 0.0)
  }

  /** With a positive plan the error's sign says whether the sale was above, at or below the plan. */
  lemma RelativeErrorSign(plan: real, venta: real)
    requires plan > 0.0
    ensures RelativeError(plan, venta).error > 0.0 <==> venta > plan
    ensures RelativeError(plan, venta).error == 0.0 <==> venta == plan
    ensures RelativeError(plan, venta).error < 0.0 <==> venta < plan
  {
    var e := RelativeError(plan, venta).error;
    assert e * plan == venta - plan;
    if e > 0.0 {
      assert e * plan > 0.0;
    } else if e < 0.0 {
      assert e * plan < 0.0;
    }
  }

  /** A sale that is not negative is never more than 100 % below a positive plan. */
  lemma RelativeErrorFloor(plan: real, venta: real)
    requires plan > 0.0 && venta >= 0.0
    ensures RelativeError(plan, venta).error >= -1.0
  {
    var e := RelativeError(plan, venta).error;
    assert e * plan == venta - plan;
    assert (e + 1.0) * plan == venta;
  }

  /** `record.Plan_demanda || 0` and `record.Venta_Real || 0`. */
  function RecordRates(r: PlanRow): Rates
  {
    RelativeError(OrZero(r.planDemanda), OrZero(r.ventaReal))
  }

  function RatesPatch(r: PlanRow): Patch
  {
    RelativeErrors(RecordRates(r).error, RecordRates(r).errorAbs)
  }

  /** `.eq('Semana', week).not('Venta_Real', 'is', null)`, with `.eq('Nodo', nodo)` when a channel is given. */
  predicate Qualifies(r: PlanRow, week: int, nodo: Option<string>)
  {
    r.semana == Some(week) && r.ventaReal.Some? && (nodo.None? || nodo.value == "" || r.nodo == Some(nodo.value))
  }

  function Records(rows: seq<PlanRow>, week: int, nodo: Option<string>): (c: seq<PlanRow>)
    ensures forall r :: r in c <==> r in rows && Qualifies(r, week, nodo)
  {
    Select(rows, r => Qualifies(r, week, nodo))
  }

  /**
   * The writes of the records, record `k` receiving the rates `rate`
   * gives it; the route's rates are `RecordRates`.
   */
  function RateWrites(rate: PlanRow -> Rates, recs: seq<PlanRow>): (ws: seq<Write>)
    ensures |ws| == |recs|
    ensures forall k :: 0 <= k < |recs| ==> ws[k] == Write(recs[k].id, RelativeErrors(rate(recs[k]).error, rate(recs[k]).errorAbs))
  {
    seq(|recs|, k requires 0 <= k < |recs| => Write(recs[k].id, RelativeErrors(rate(recs[k]).error, rate(recs[k]).errorAbs)))
  }

  lemma RateWritesPerRow(recs: seq<PlanRow>)
    ensures RateWrites(RecordRates, recs) == PerRow(recs, RatesPatch)
  {
  }

  /** The sum of the absolute errors of the records whose write the store accepts. */
  function TotalAbs(rate: PlanRow -> Rates, recs: seq<PlanRow>, rejected: set<nat>): real
  {
    if |recs| == 0 then 0.0
    else
      var n := |recs| - 1;
      TotalAbs(rate, recs[..n], rejected) + (if recs[n].id in rejected then 0.0 else rate(recs[n]).errorAbs)
  }

  /** Absolute errors add up to a total that is never negative. */
  lemma {:induction false} TotalAbsNonNegative(recs: seq<PlanRow>, rejected: set<nat>)
    ensures TotalAbs(RecordRates, recs, rejected) >= 0.0
  {
    if |recs| > 0 {
      TotalAbsNonNegative(recs[..|recs| - 1], rejected);
      assert RecordRates(recs[|recs| - 1]).errorAbs >= 0.0;
    }
  }

  /** `processed > 0 ? totalAbsError / processed : 0`. */
  function Average(total: real, processed: nat): (a: real)
    ensures processed > 0 ==> a * processed as real == total
    ensures processed == 0 ==> a == 0.0
    ensures total >= 0.0 ==> a >= 0.0
  {
    if processed > 0 then total / processed as real else 0.0
  }

  datatype Failure = NoWeek | NoRecords

  datatype ErrorsResponse =
    | Failed(reason: Failure)
    | Computed(processed: nat, avgError: real)

  /** `parseInt(week)` of a given week; a week that reads as no number selects no row. */
  function WeekOf(week: Option<string>): Option<int>
  {
    if week.None? || week.value == "" then None else ParseInt(week.value)
  }

  /**
   * After the route, every selected row whose write the store accepted
   * carries its relative errors, and every other row is as it was.
   */
  lemma RatesWritten(rows: seq<PlanRow>, week: int, nodo: Option<string>, rejected: set<nat>, i: int)
    requires DistinctIds(rows) && 0 <= i < |rows|
    ensures var t := ApplyWrites(rows, RateWrites(RecordRates, Records(rows, week, nodo)), rejected)[i];
            (Qualifies(rows[i], week, nodo) && rows[i].id !in rejected ==>
               t == rows[i].(error := Some(RecordRates(rows[i]).error), errorAbs := Some(RecordRates(rows[i]).errorAbs)))
            && (!Qualifies(rows[i], week, nodo) || rows[i].id in rejected ==> t == rows[i])
  {
    var recs := Records(rows, week, nodo);
    RateWritesPerRow(recs);
    SelectDistinct(rows, r => Qualifies(r, week, nodo));
    PerRowWrites(rows, recs, RatesPatch, rejected, i);
    RatesPatchSets(rows[i]);
    assert rows[i] in recs <==> Qualifies(rows[i], week, nodo);
  }

  /** The patch sets the two error columns and nothing else. */
  lemma RatesPatchSets(r: PlanRow)
    ensures Apply(RatesPatch(r), r) == r.(error := Some(RecordRates(r).error), errorAbs := Some(RecordRates(r).errorAbs))
  {
  }

  lemma {:induction false} TotalAbsSnoc(rate: PlanRow -> Rates, recs: seq<PlanRow>, r: PlanRow, rejected: set<nat>)
    ensures TotalAbs(rate, recs + [r], rejected) == TotalAbs(rate, recs, rejected) + (if r.id in rejected then 0.0 else rate(r).errorAbs)
  {
    assert (recs + [r])[..|recs|] == recs;
  }

  lemma {:induction false} SucceededSnoc(ws: seq<Write>, w: Write, rejected: set<nat>)
    ensures Succeeded(ws + [w], rejected) == Succeeded(ws, rejected) + (if w.id in rejected then 0 else 1)
  {
    assert (ws + [w])[..|ws|] == ws;
  }

  /** The state after the first `i` records. */
  predicate Progress(rows: seq<PlanRow>, rows0: seq<PlanRow>, rate: PlanRow -> Rates, recs: seq<PlanRow>, i: nat,
                     processed: nat, total: real, rejected: set<nat>)
    requires i <= |recs|
  {
    var ws := RateWrites(rate, recs);
    rows == ApplyWrites(rows0, ws[..i], rejected)
    && processed == Succeeded(ws[..i], rejected)
    && total == TotalAbs(rate, recs[..i], rejected)
  }

  lemma ProgressStep(rows: seq<PlanRow>, rows0: seq<PlanRow>, rate: PlanRow -> Rates, recs: seq<PlanRow>, i: nat,
                     processed: nat, total: real, rejected: set<nat>, ok: bool, abs: real,
                     rows': seq<PlanRow>, processed': nat, total': real)
    requires i < |recs| && Progress(rows, rows0, rate, recs, i, processed, total, rejected)
    requires ok <==> recs[i].id !in rejected
    requires abs == rate(recs[i]).errorAbs
    requires rows' == if ok then PatchById(rows, recs[i].id, RelativeErrors(rate(recs[i]).error, rate(recs[i]).errorAbs)) else rows
    requires processed' == (if ok then processed + 1 else processed)
    requires total' == (if ok then total + abs else total)
    ensures Progress(rows', rows0, rate, recs, i + 1, processed', total', rejected)
  {
    var ws := RateWrites(rate, recs);
    assert ws[..i + 1] == ws[..i] + [ws[i]];
    assert recs[..i + 1] == recs[..i] + [recs[i]];
    ApplyWritesSnoc(rows0, ws[..i], ws[i], rejected);
    SucceededSnoc(ws[..i], ws[i], rejected);
    TotalAbsSnoc(rate, recs[..i], recs[i], rejected);
  }

  lemma ProgressDone(rows: seq<PlanRow>, rows0: seq<PlanRow>, rate: PlanRow -> Rates, recs: seq<PlanRow>,
                     processed: nat, total: real, rejected: set<nat>)
    requires Progress(rows, rows0, rate, recs, |recs|, processed, total, rejected)
    ensures rows == ApplyWrites(rows0, RateWrites(rate, recs), rejected)
    ensures processed == Succeeded(RateWrites(rate, recs), rejected)
    ensures total == TotalAbs(rate, recs, rejected)
  {
    assert RateWrites(rate, recs)[..|recs|] == RateWrites(rate, recs) && recs[..|recs|] == recs;
  }

  /** One record's write. */
  method WriteRates(store: Store, rec: PlanRow, rate: PlanRow -> Rates) returns (ok: bool, abs: real)
    requires store.Valid()
    modifies store`rows
    ensures store.Valid()
    ensures ok <==> rec.id !in store.rejectedIds
    ensures store.rows == if ok then PatchById(old(store.rows), rec.id, RelativeErrors(rate(rec).error, rate(rec).errorAbs)) else old(store.rows)
    ensures abs == rate(rec).errorAbs
  {
    var rates := rate(rec);
    ok := store.UpdateById(rec.id, RelativeErrors(rates.error, rates.errorAbs));
    abs := rates.errorAbs;
  }

  /** The loop over the records: one write each, in order, counting the accepted ones. */
  method WriteAll(store: Store, recs: seq<PlanRow>, rate: PlanRow -> Rates) returns (processed: nat, totalAbs: real)
    requires store.Valid()
    modifies store`rows
    ensures store.Valid()
    ensures store.rows == ApplyWrites(old(store.rows), RateWrites(rate, recs), store.rejectedIds)
    ensures processed == Succeeded(RateWrites(rate, recs), store.rejectedIds)
    ensures totalAbs == TotalAbs(rate, recs, store.rejectedIds)
  {
    ghost var rows0 := store.rows;
    processed, totalAbs := 0, 0.0;
    var i := 0;
    while i < |recs|
      invariant 0 <= i <= |recs| && store.Valid()
      invariant Progress(store.rows, rows0, rate, recs, i, processed, totalAbs, store.rejectedIds)
    {
      ghost var before, processedBefore, totalBefore := store.rows, processed, totalAbs;
      var ok, abs := WriteRates(store, recs[i], rate);
      if ok {
        processed := processed + 1;
        totalAbs := totalAbs + abs;
      }
      ProgressStep(before, rows0, rate, recs, i, processedBefore, totalBefore, store.rejectedIds, ok, abs,
                   store.rows, processed, totalAbs);
      i := i + 1;
    }
    ProgressDone(store.rows, rows0, rate, recs, processed, totalAbs, store.rejectedIds);
  }

  /**
   * `POST /api/calculate-errors`: without a week nothing happens; without
   * qualifying records the route fails and writes nothing; otherwise each
   * record is written in turn, the accepted writes are counted, and the
   * average absolute error is taken over them.
   */
  method CalculateErrors(store: Store, week: Option<string>, nodo: Option<string>) returns (resp: ErrorsResponse)
    requires store.Valid()
    modifies store`rows
    ensures store.Valid()
    ensures resp == Failed(NoWeek) <==> week.None? || week.value == ""
    ensures resp == Failed(NoRecords) <==>
              !(week.None? || week.value == "") && (WeekOf(week).None? || Records(old(store.rows), WeekOf(week).value, nodo) == [])
    ensures resp.Failed? ==> store.rows == old(store.rows)
    ensures resp.Computed? ==>
              WeekOf(week).Some?
              && var recs := Records(old(store.rows), WeekOf(week).value, nodo);
                 var ws := RateWrites(RecordRates, recs);
                 store.rows == ApplyWrites(old(store.rows), ws, store.rejectedIds)
                 && resp.processed == Succeeded(ws, store.rejectedIds) && resp.processed <= |recs|
                 && resp.avgError == Average(TotalAbs(RecordRates, recs, store.rejectedIds), resp.processed)
                 && resp.avgError >= 0.0
  {
    if week.None? || week.value == "" {
      return Failed(NoWeek);
    }
    var w := WeekOf(week);
    if w.None? {
      return Failed(NoRecords);
    }
    var recs := Records(store.rows, w.value, nodo);
    if |recs| == 0 {
      return Failed(NoRecords);
    }
    var processed, totalAbs := WriteAll(store, recs, RecordRates);
    TotalAbsNonNegative(recs, store.rejectedIds);
    resp := Computed(processed, Average(totalAbs, processed));
  }
}
