/**
 * The plan upload: a CSV file of plan figures, one row per (week,
 * channel, account, SKU), each written with an upsert on that key and,
 * when the upsert fails, with a plain insert.
 */
module PlanUpload {
  import opened Base
  import opened Csv
  import opened DemandTable

  /** The expected layout shown when required columns are missing. */
  const PlanHint: string := "Semana, Nodo, Cuenta, Sku_Seller, Pronostico, Plan_demanda, PVP_PD, Accion, Observaciones"

  /** The data lines are split on both separators, whichever the header line uses. */
  const PlanSeps: set<char> := {',', ';'}

  // ---------------------------------------------------------------------
  // Header validation
  // ---------------------------------------------------------------------

  /** Only the account and SKU columns are required; every other column has a default. */
  lemma PlanHeadersNeeded(normalized: seq<string>)
    ensures |MissingColumns(PlanRequired, normalized)| == 0
        <==> HasColumn(PlanRequired[0], normalized) && HasColumn(PlanRequired[1], normalized)
    ensures |FoundColumns(PlanRequired, normalized)| + |MissingColumns(PlanRequired, normalized)| == 2
  {
    assert PlanRequired[..1][..0] == [];
    assert PlanRequired[..1] == PlanRequired[..|PlanRequired| - 1];
    PartitionSizes(PlanRequired, normalized);
  }

  // ---------------------------------------------------------------------
  // Records of the data lines
  // ---------------------------------------------------------------------

  datatype PlanColumns = PlanColumns(
    semana: int, nodo: int, cuenta: int, sku: int, pronostico: int,
    planDemanda: int, pvpPd: int, accion: int, observaciones: int)

  /** `colMap`: each column is the first header containing one of its fragments. */
  function PlanColumnMap(headers: seq<string>): PlanColumns
  {
    PlanColumns(
      FindColumn(headers, ["semana"]),
      FindColumn(headers, ["nodo"]),
      FindColumn(headers, ["cuenta", "cliente"]),
      FindColumn(headers, ["sku"]),
      FindColumn(headers, ["pronostico", "pron\U{00F3}stico"]),
      FindColumn(headers, ["plan", "demanda"]),
      FindColumn(headers, ["pvp", "precio"]),
      FindColumn(headers, ["accion", "acci\U{00F3}n"]),
      FindColumn(headers, ["obs", "nota"]))
  }

  /** A plan record as the upload writes it; `fila` is its line number in the file, the header being line 1. */
  datatype PlanRecord = PlanRecord(
    fila: nat,
    semana: Option<int>,
    nodo: Option<string>,
    cuenta: string,
    sku: string,
    pronostico: real,
    planDemanda: real,
    pvpPd: real,
    accion: Option<string>,
    observaciones: Option<string>)

  /**
   * One data line as a record: `None` for a line of fewer than two
   * fields or with an empty account or SKU.  The week and the channel
   * come from their columns when the file has them and from the form
   * otherwise; a number that is missing or does not parse is 0.
   */
  function PlanRecordOf(values: seq<string>, c: PlanColumns, weekNum: Option<int>, nodo: string, fila: nat)
    : (r: Option<PlanRecord>)
    ensures r.Some? <==> |values| >= 2 && CellText(values, c.cuenta) != "" && CellText(values, c.sku) != ""
    ensures r.Some? ==> r.value.fila == fila && r.value.cuenta == CellText(values, c.cuenta) && r.value.sku == CellText(values, c.sku)
    ensures r.Some? && c.semana == -1 ==> r.value.semana == weekNum
    ensures r.Some? && c.semana != -1 ==> r.value.semana == CellInt(values, c.semana)
    ensures r.Some? && c.nodo == -1 ==> r.value.nodo == Some(nodo)
    ensures r.Some? && c.nodo != -1 ==> r.value.nodo == OptionalText(values, c.nodo)
    ensures r.Some? ==> r.value.pronostico == CellNumber(values, c.pronostico)
    ensures r.Some? ==> r.value.planDemanda == CellNumber(values, c.planDemanda)
    ensures r.Some? ==> r.value.pvpPd == CellNumber(values, c.pvpPd)
    ensures r.Some? ==> r.value.accion == OptionalText(values, c.accion)
    ensures r.Some? ==> r.value.observaciones == OptionalText(values, c.observaciones)
  {
    if |values| < 2 then None
    else
      var rec := PlanRecord(
        fila,
        if c.semana != -1 then CellInt(values, c.semana) else weekNum,
        if c.nodo != -1 then OptionalText(values, c.nodo) else Some(nodo),
        CellText(values, c.cuenta),
        CellText(values, c.sku),
        if c.pronostico != -1 then CellNumber(values, c.pronostico) else 0.0,
        if c.planDemanda != -1 then CellNumber(values, c.planDemanda) else 0.0,
        if c.pvpPd != -1 then CellNumber(values, c.pvpPd) else 0.0,
        if c.accion != -1 then OptionalText(values, c.accion) else None,
        if c.observaciones != -1 then OptionalText(values, c.observaciones) else None);
      if rec.cuenta == "" || rec.sku == "" then None else Some(rec)
  }

  /** The records of the data lines `body` (file lines 2, 3, ...), in order. */
  function PlanRecords(body: seq<string>, c: PlanColumns, weekNum: Option<int>, nodo: string): (rs: seq<PlanRecord>)
    ensures |rs| <= |body|
    ensures forall k :: 0 <= k < |rs| ==> rs[k].cuenta != "" && rs[k].sku != "" && 2 <= rs[k].fila <= |body| + 1
  {
    if |body| == 0 then []
    else
      var n := |body| - 1;
      var prev := PlanRecords(body[..n], c, weekNum, nodo);
      prev + LineRecords(body[n], c, weekNum, nodo, n + 2)
  }

  /** The record of one data line, when it has one. */
  function LineRecords(line: string, c: PlanColumns, weekNum: Option<int>, nodo: string, fila: nat): (rs: seq<PlanRecord>)
    ensures |rs| <= 1
    ensures forall k :: 0 <= k < |rs| ==> rs[k].cuenta != "" && rs[k].sku != "" && rs[k].fila == fila
  {
    match PlanRecordOf(Scan(line, PlanSeps, "", false), c, weekNum, nodo, fila)
    case None => []
    case Some(r) => [r]
  }

  lemma PlanRecordsSnoc(body: seq<string>, i: nat, c: PlanColumns, weekNum: Option<int>, nodo: string)
    requires i < |body|
    ensures PlanRecords(body[..i + 1], c, weekNum, nodo)
         == PlanRecords(body[..i], c, weekNum, nodo)
            + LineRecords(body[i], c, weekNum, nodo, i + 2)
  {
    assert body[..i + 1][..i] == body[..i];
  }

  /**
   * Both separators split a data line: in a file separated by `;` a
   * decimal comma ends a field, and the cells after it shift one column.
   */
  lemma DecimalCommaSplits()
    ensures |Scan("a;1,5", PlanSeps, "", false)| == 3
  {
    ScanCount("a;1,5", PlanSeps, "", false);
    assert SepsOutside("5", PlanSeps, false) == 0;
    assert SepsOutside(",5", PlanSeps, false) == 1;
    assert SepsOutside("1,5", PlanSeps, false) == 1;
    assert SepsOutside(";1,5", PlanSeps, false) == 2;
  }

  // ---------------------------------------------------------------------
  // The writes
  // ---------------------------------------------------------------------

  /** The row `insertData` describes. */
  function RowOf(rec: PlanRecord): (row: PlanRow)
    ensures row.semana == rec.semana && row.nodo == rec.nodo && row.cuenta == rec.cuenta && row.sku == rec.sku
  {
    BlankRow(rec.semana, rec.nodo, rec.cuenta, rec.sku).(
      pronostico := Some(rec.pronostico), planDemanda := Some(rec.planDemanda), pvpPd := Some(rec.pvpPd),
      accion := rec.accion, observaciones := rec.observaciones)
  }

  /** The columns an upsert sets on a conflicting row; an undefined text field is not sent. */
  function PatchOf(rec: PlanRecord): Patch
  {
    PlanFigures(rec.pronostico, rec.planDemanda, rec.pvpPd, rec.accion, rec.observaciones)
  }

  /** `r` holds the key and the figures of `rec`, and its text fields wherever `rec` defines them. */
  predicate Carries(r: PlanRow, rec: PlanRecord)
  {
    r.semana == rec.semana && r.nodo == rec.nodo && r.cuenta == rec.cuenta && r.sku == rec.sku
    && r.pronostico == Some(rec.pronostico) && r.planDemanda == Some(rec.planDemanda) && r.pvpPd == Some(rec.pvpPd)
    && (rec.accion.Some? ==> r.accion == rec.accion)
    && (rec.observaciones.Some? ==> r.observaciones == rec.observaciones)
  }

  /**
   * After an accepted upsert of a record with a week and a channel, the
   * table has exactly one row with its key, that row carries the record,
   * and every other row is as it was (when the key was unique before).
   */
  lemma UpsertLandsOnce(rows: seq<PlanRow>, nextId: nat, rec: PlanRecord)
    requires rec.semana.Some? && rec.nodo.Some?
    requires AtMostOne(rows, ConflictFilter(RowOf(rec)).value)
    ensures var f := ConflictFilter(RowOf(rec)).value;
            var t := UpsertRows(rows, nextId, RowOf(rec), PatchOf(rec));
            exists k :: OnlyAt(t, f, k) && Carries(t[k], rec)
              && forall j :: 0 <= j < |rows| && j != k ==> t[j] == rows[j]
  {
    var row := RowOf(rec);
    var f := ConflictFilter(row).value;
    var t := UpsertRows(rows, nextId, row, PatchOf(rec));
    UpsertSingleRow(rows, nextId, row, PatchOf(rec));
    var k :| OnlyAt(t, f, k)
              && t[k] == (if k < |rows| then Apply(PatchOf(rec), rows[k]) else row.(id := nextId))
              && |t| == (if k < |rows| then |rows| else |rows| + 1)
              && forall j :: 0 <= j < |rows| && j != k ==> t[j] == rows[j];
    assert Carries(t[k], rec);
  }

  /** What became of a record: stored by the upsert, stored by the fallback insert, or refused by both. */
  datatype Outcome = Upserted | InsertedAfterFailure | Refused

  /** The store's mutable state as a value. */
  datatype Table = Table(rows: seq<PlanRow>, nextId: nat, writes: nat)

  /** The upsert of `rec`, then the plain insert when the upsert fails; `failing` as in the store. */
  function StoreRecord(t: Table, failing: set<nat>, rec: PlanRecord): (r: (Table, Outcome))
    ensures r.0.writes == t.writes + (if r.1 == Upserted then 1 else 2)
    ensures r.1 == Refused <==> rec.semana.None? || (t.writes in failing && t.writes + 1 in failing)
    ensures r.1 == Refused ==> r.0.rows == t.rows
  {
    var row := RowOf(rec);
    if t.writes !in failing && row.semana.Some? then
      (Table(UpsertRows(t.rows, t.nextId, row, PatchOf(rec)),
             if Conflicting(t.rows, row) then t.nextId else t.nextId + 1, t.writes + 1), Upserted)
    else if t.writes + 1 !in failing && AllDated([row]) then
      (Table(t.rows + Stamp([row], t.nextId), t.nextId + 1, t.writes + 2), InsertedAfterFailure)
    else
      (Table(t.rows, t.nextId, t.writes + 2), Refused)
  }

  /** The records written one after another. */
  function StoreAll(t: Table, failing: set<nat>, recs: seq<PlanRecord>): (r: (Table, seq<Outcome>))
    ensures |r.1| == |recs|
  {
    if |recs| == 0 then (t, [])
    else
      var n := |recs| - 1;
      var prev := StoreAll(t, failing, recs[..n]);
      var last := StoreRecord(prev.0, failing, recs[n]);
      (last.0, prev.1 + [last.1])
  }

  /** The records a write stored. */
  function Stored(outcomes: seq<Outcome>): (n: nat)
    ensures n <= |outcomes|
  {
    if |outcomes| == 0 then 0
    else Stored(outcomes[..|outcomes| - 1]) + (if outcomes[|outcomes| - 1] == Refused then 0 else 1)
  }

  datatype PlanError = RowRefused(fila: nat)

  /** One error per refused record, with its line, in order. */
  function ErrorsOf(recs: seq<PlanRecord>, outcomes: seq<Outcome>): (es: seq<PlanError>)
    requires |outcomes| == |recs|
    ensures |es| + Stored(outcomes) == |recs|
  {
    if |recs| == 0 then []
    else
      var n := |recs| - 1;
      ErrorsOf(recs[..n], outcomes[..n]) + (if outcomes[n] == Refused then [RowRefused(recs[n].fila)] else [])
  }

  /** One detail per stored record, in order. */
  function DetailsOf(recs: seq<PlanRecord>, outcomes: seq<Outcome>): (ds: seq<Detail>)
    requires |outcomes| == |recs|
    ensures |ds| == Stored(outcomes)
  {
    if |recs| == 0 then []
    else
      var n := |recs| - 1;
      DetailsOf(recs[..n], outcomes[..n])
      + (match outcomes[n]
         case Upserted => [Detail(recs[n].sku, recs[n].cuenta, "insertado/actualizado")]
         case InsertedAfterFailure => [Detail(recs[n].sku, recs[n].cuenta, "insertado")]
         case Refused => [])
  }

  /** Whether a record conflicts with a row depends on the row's identity only. */
  lemma ConflictsByIdentity(rec: PlanRecord, a: PlanRow, b: PlanRow)
    requires SameIdentity(a, b)
    ensures Conflicts(rec, a) <==> Conflicts(rec, b)
  {
  }

  /** One record's writes: an old row keeps its identity, and its values too unless it has the record's key. */
  lemma StoreRecordKeeps(t: Table, failing: set<nat>, rec: PlanRecord, i: int)
    requires 0 <= i < |t.rows|
    ensures var f := StoreRecord(t, failing, rec).0;
            |f.rows| >= |t.rows| && SameIdentity(f.rows[i], t.rows[i])
            && (!Conflicts(rec, t.rows[i]) ==> f.rows[i] == t.rows[i])
  {
    var row := RowOf(rec);
    if t.writes !in failing && row.semana.Some? && Conflicting(t.rows, row) {
      var g := PatchWhere(t.rows, ConflictFilter(row).value, PatchOf(rec));
      assert g[i] == (if Matches(ConflictFilter(row).value, t.rows[i]) then Apply(PatchOf(rec), t.rows[i]) else t.rows[i]);
    } else if t.writes !in failing && row.semana.Some? {
      assert StoreRecord(t, failing, rec).0.rows == t.rows + [row.(id := t.nextId)];
    } else if t.writes + 1 !in failing && AllDated([row]) {
      assert StoreRecord(t, failing, rec).0.rows == t.rows + Stamp([row], t.nextId);
    }
  }

  /**
   * Nothing but the records' keys is touched: an old row whose key no
   * record has keeps its values, and every old row keeps its identity.
   */
  lemma {:induction false} StoreAllKeepsOthers(t: Table, failing: set<nat>, recs: seq<PlanRecord>, i: int)
    requires 0 <= i < |t.rows|
    ensures var f := StoreAll(t, failing, recs).0;
            |f.rows| >= |t.rows| && SameIdentity(f.rows[i], t.rows[i])
            && ((forall k :: 0 <= k < |recs| ==> !Conflicts(recs[k], t.rows[i])) ==> f.rows[i] == t.rows[i])
  {
    if |recs| > 0 {
      var n := |recs| - 1;
      StoreAllKeepsOthers(t, failing, recs[..n], i);
      var prev := StoreAll(t, failing, recs[..n]).0;
      StoreRecordKeeps(prev, failing, recs[n], i);
      ConflictsByIdentity(recs[n], prev.rows[i], t.rows[i]);
      if forall k :: 0 <= k < |recs| ==> !Conflicts(recs[k], t.rows[i]) {
        assert forall k :: 0 <= k < n ==> recs[..n][k] == recs[k];
      }
    }
  }

  /** `rec`'s key is the key of `r`. */
  predicate Conflicts(rec: PlanRecord, r: PlanRow)
  {
    ConflictFilter(RowOf(rec)).Some? && Matches(ConflictFilter(RowOf(rec)).value, r)
  }

  // ---------------------------------------------------------------------
  // The route
  // ---------------------------------------------------------------------

  datatype PlanResponse =
    | MissingFile
    | InvalidFileType
    | EmptyFile
    | InvalidStructure(headers: seq<string>, missing: seq<string>)
    | Loaded(inserted: nat, updated: nat, total: nat, errors: Option<seq<PlanError>>, details: seq<Detail>)

  /** One record through the store: the upsert, and the plain insert when the upsert fails. */
  method WriteRecord(store: Store, rec: PlanRecord) returns (outcome: Outcome)
    requires store.Valid()
    modifies store`rows, store`nextId, store`writes
    ensures store.Valid()
    ensures (Table(store.rows, store.nextId, store.writes), outcome)
         == StoreRecord(Table(old(store.rows), old(store.nextId), old(store.writes)), store.failingWrites, rec)
  {
    var row := RowOf(rec);
    var ok := store.Upsert(row, PatchOf(rec));
    if ok {
      outcome := Upserted;
    } else {
      var inserted := store.Insert([row]);
      outcome := if inserted then InsertedAfterFailure else Refused;
    }
  }

  /** The loop state of `LoadRecords` after the records `recs`: the table, the counts and the lists. */
  ghost predicate LoadProgress(store: Store, t0: Table, recs: seq<PlanRecord>, outcomes: seq<Outcome>,
                               inserted: nat, errors: seq<PlanError>, details: seq<Detail>)
    reads store
  {
    LoadedSoFar(Table(store.rows, store.nextId, store.writes), store.failingWrites, t0, recs, outcomes, inserted, errors, details)
  }

  predicate LoadedSoFar(t: Table, failing: set<nat>, t0: Table, recs: seq<PlanRecord>, outcomes: seq<Outcome>,
                        inserted: nat, errors: seq<PlanError>, details: seq<Detail>)
  {
    (t, outcomes) == StoreAll(t0, failing, recs)
    && inserted == Stored(outcomes)
    && errors == ErrorsOf(recs, outcomes)
    && details == DetailsOf(recs, outcomes)
  }

  function DetailFor(r: PlanRecord, o: Outcome): seq<Detail>
  {
    match o
    case Upserted => [Detail(r.sku, r.cuenta, "insertado/actualizado")]
    case InsertedAfterFailure => [Detail(r.sku, r.cuenta, "insertado")]
    case Refused => []
  }

  /** The loop state after one more record, whatever its outcome. */
  lemma LoadStep(t: Table, failing: set<nat>, t0: Table, recs: seq<PlanRecord>, outcomes: seq<Outcome>,
                 inserted: nat, errors: seq<PlanError>, details: seq<Detail>, r: PlanRecord)
    requires LoadedSoFar(t, failing, t0, recs, outcomes, inserted, errors, details)
    ensures var last := StoreRecord(t, failing, r);
            LoadedSoFar(last.0, failing, t0, recs + [r], outcomes + [last.1],
                        if last.1 == Refused then inserted else inserted + 1,
                        if last.1 == Refused then errors + [RowRefused(r.fila)] else errors,
                        details + DetailFor(r, last.1))
  {
    ProgressSnoc(t0, failing, recs, r);
  }

  /** Writing one more record extends every part of the loop state by that record's outcome. */
  lemma ProgressSnoc(t0: Table, failing: set<nat>, recs: seq<PlanRecord>, r: PlanRecord)
    ensures var prev := StoreAll(t0, failing, recs);
            var last := StoreRecord(prev.0, failing, r);
            var outs := prev.1 + [last.1];
            StoreAll(t0, failing, recs + [r]) == (last.0, outs)
            && Stored(outs) == Stored(prev.1) + (if last.1 == Refused then 0 else 1)
            && ErrorsOf(recs + [r], outs) == ErrorsOf(recs, prev.1) + (if last.1 == Refused then [RowRefused(r.fila)] else [])
            && DetailsOf(recs + [r], outs)
               == DetailsOf(recs, prev.1)
                  + (match last.1
                     case Upserted => [Detail(r.sku, r.cuenta, "insertado/actualizado")]
                     case InsertedAfterFailure => [Detail(r.sku, r.cuenta, "insertado")]
                     case Refused => [])
  {
    var prev := StoreAll(t0, failing, recs);
    var outs := prev.1 + [StoreRecord(prev.0, failing, r).1];
    assert (recs + [r])[..|recs|] == recs;
    assert outs[..|recs|] == prev.1;
  }

  /** One line of the file: its record, when it has one, written and reported. */
  method LoadLine(store: Store, line: string, cols: PlanColumns, weekNum: Option<int>, nodo: string, fila: nat,
                  inserted: nat, errors: seq<PlanError>, details: seq<Detail>,
                  ghost t0: Table, ghost recs: seq<PlanRecord>, ghost outcomes: seq<Outcome>)
    returns (inserted': nat, errors': seq<PlanError>, details': seq<Detail>,
             ghost recs': seq<PlanRecord>, ghost outcomes': seq<Outcome>)
    requires store.Valid() && LoadProgress(store, t0, recs, outcomes, inserted, errors, details)
    modifies store`rows, store`nextId, store`writes
    ensures store.Valid() && LoadProgress(store, t0, recs', outcomes', inserted', errors', details')
    ensures recs' == recs + LineRecords(line, cols, weekNum, nodo, fila)
  {
    var values := ParseCsvLine(line, PlanSeps);
    var rec := PlanRecordOf(values, cols, weekNum, nodo, fila);
    inserted', errors', details', recs', outcomes' := inserted, errors, details, recs, outcomes;
    if rec.Some? {
      var r := rec.value;
      LoadStep(Table(store.rows, store.nextId, store.writes), store.failingWrites, t0, recs, outcomes, inserted, errors, details, r);
      var outcome := WriteRecord(store, r);
      recs' := recs + [r];
      outcomes' := outcomes + [outcome];
      if outcome == Refused {
        errors' := errors + [RowRefused(r.fila)];
      } else {
        inserted' := inserted + 1;
        details' := details + [Detail(r.sku, r.cuenta, if outcome == Upserted then "insertado/actualizado" else "insertado")];
      }
    }
  }

  /** Data line `i`, read and written, extends the records read so far by its own. */
  method LoadNext(store: Store, body: seq<string>, i: nat, cols: PlanColumns, weekNum: Option<int>, nodo: string,
                  inserted: nat, errors: seq<PlanError>, details: seq<Detail>,
                  ghost t0: Table, ghost recs: seq<PlanRecord>, ghost outcomes: seq<Outcome>)
    returns (inserted': nat, errors': seq<PlanError>, details': seq<Detail>,
             ghost recs': seq<PlanRecord>, ghost outcomes': seq<Outcome>)
    requires i < |body| && recs == PlanRecords(body[..i], cols, weekNum, nodo)
    requires store.Valid() && LoadProgress(store, t0, recs, outcomes, inserted, errors, details)
    modifies store`rows, store`nextId, store`writes
    ensures store.Valid() && LoadProgress(store, t0, recs', outcomes', inserted', errors', details')
    ensures recs' == PlanRecords(body[..i + 1], cols, weekNum, nodo)
  {
    PlanRecordsSnoc(body, i, cols, weekNum, nodo);
    inserted', errors', details', recs', outcomes' :=
      LoadLine(store, body[i], cols, weekNum, nodo, i + 2, inserted, errors, details, t0, recs, outcomes);
  }

  /**
   * The data lines in order: each accepted record written, the stored
   * ones counted and reported, the refused ones reported as errors.
   */
  method LoadRecords(store: Store, body: seq<string>, cols: PlanColumns, weekNum: Option<int>, nodo: string)
    returns (inserted: nat, errors: seq<PlanError>, details: seq<Detail>, ghost outcomes: seq<Outcome>)
    requires store.Valid()
    modifies store`rows, store`nextId, store`writes
    ensures store.Valid()
    ensures LoadProgress(store, Table(old(store.rows), old(store.nextId), old(store.writes)),
                         PlanRecords(body, cols, weekNum, nodo), outcomes, inserted, errors, details)
  {
    ghost var t0 := Table(store.rows, store.nextId, store.writes);
    ghost var recs: seq<PlanRecord> := [];
    inserted, errors, details, outcomes := 0, [], [], [];
    var i := 0;
    while i < |body|
      invariant 0 <= i <= |body| && store.Valid()
      invariant recs == PlanRecords(body[..i], cols, weekNum, nodo)
      invariant LoadProgress(store, t0, recs, outcomes, inserted, errors, details)
    {
      inserted, errors, details, recs, outcomes :=
        LoadNext(store, body, i, cols, weekNum, nodo, inserted, errors, details, t0, recs, outcomes);
      i := i + 1;
    }
    assert body[..i] == body;
  }

  /**
   * The plan upload for the form's week (`None` when it does not parse)
   * and channel (`nodoField`, empty for the default).  A missing file, a
   * name without `.csv`, a file without a data line or without the
   * required columns is refused, exactly in that case, and changes
   * nothing; otherwise every accepted record is
   * written, `inserted` counts the stored ones, `updated` is 0, and the
   * errors and details are cut to ten and fifty.
   */
  method UploadPlan(store: Store, file: Option<UploadedFile>, weekNum: Option<int>, nodoField: string)
    returns (resp: PlanResponse)
    requires store.Valid()
    modifies store`rows, store`nextId, store`writes
    ensures store.Valid()
    ensures resp == MissingFile <==> file.None?
    ensures resp == InvalidFileType <==> file.Some? && !IsCsvName(file.value.name)
    ensures resp == EmptyFile <==> file.Some? && IsCsvName(file.value.name) && |NonBlankLines(file.value.text)| < 2
    ensures resp.InvalidStructure? ==>
              file.Some? && var lines := NonBlankLines(file.value.text);
              |lines| >= 2 && resp.missing == MissingColumns(PlanRequired, NormalizeAll(HeaderNames(lines[0], DetectSeparator(lines[0]))))
              && |resp.missing| > 0
    ensures (file.Some? && IsCsvName(file.value.name) && var lines := NonBlankLines(file.value.text);
             |lines| >= 2 && |MissingColumns(PlanRequired, NormalizeAll(HeaderNames(lines[0], DetectSeparator(lines[0]))))| > 0)
            ==> resp.InvalidStructure?
    ensures !resp.Loaded? ==> store.rows == old(store.rows)
    ensures resp.Loaded? ==>
              file.Some? && var lines := NonBlankLines(file.value.text);
              var headers := HeaderNames(lines[0], DetectSeparator(lines[0]));
              var recs := PlanRecords(lines[1..], PlanColumnMap(headers), weekNum, if nodoField == "" then DefaultNodo else nodoField);
              var outcomes := StoreAll(Table(old(store.rows), old(store.nextId), old(store.writes)), store.failingWrites, recs).1;
              store.rows == StoreAll(Table(old(store.rows), old(store.nextId), old(store.writes)), store.failingWrites, recs).0.rows
              && resp.inserted == Stored(outcomes) && resp.updated == 0 && resp.total == resp.inserted
              && resp.errors == ErrorList(ErrorsOf(recs, outcomes))
              && resp.details == DetailList(DetailsOf(recs, outcomes))
  {
    if file.None? {
      return MissingFile;
    }
    if !IsCsvName(file.value.name) {
      return InvalidFileType;
    }
    var nodo := if nodoField == "" then DefaultNodo else nodoField;
    var lines := NonBlankLines(file.value.text);
    if |lines| < 2 {
      return EmptyFile;
    }
    var sep := DetectSeparator(lines[0]);
    var headers := HeaderNames(lines[0], sep);
    var check := ValidateHeaders(PlanRequired, headers, PlanHint);
    if !check.valid {
      return InvalidStructure(headers, check.missing);
    }
    var cols := PlanColumnMap(headers);
    var inserted, errors, details, outcomes := LoadRecords(store, lines[1..], cols, weekNum, nodo);
    resp := Loaded(inserted, 0, inserted, ErrorList(errors), DetailList(details));
  }
}
