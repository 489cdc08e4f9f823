/**
 * The write side of the plan editor's route (POST): every change of the
 * request is checked for its key, the current row is looked up, the
 * defined fields among plan, list price and action become one filtered
 * update, and each update that succeeds leaves one audit-history row.
 */
module PlanSave {
  import opened Base
  import opened DemandTable

  /** One element of `cambios`; a JSON field that is not sent is `None`. */
  datatype Change = Change(
    nodo: Option<string>, cuenta: Option<string>, sku: Option<string>, semana: Option<int>,
    plan: Option<real>, pvp: Option<real>, accion: Option<string>, escenario: Option<string>)

  /** A JavaScript string is truthy unless absent or empty. */
  predicate Truthy(s: Option<string>)
  {
    s.Some? && s.value != ""
  }

  /** `Nodo`, `Cuenta`, `Sku_Seller` and `Semana` are all truthy (a week of 0 is not). */
  predicate KeyPresent(c: Change)
  {
    Truthy(c.nodo) && Truthy(c.cuenta) && Truthy(c.sku) && c.semana.Some? && c.semana.value != 0
  }

  /** The rows the lookup and the update select. */
  function KeyOf(c: Change): RowFilter
    requires KeyPresent(c)
  {
    ByKey(c.semana.value, c.nodo.value, c.cuenta.value, c.sku.value)
  }

  // ---------------------------------------------------------------------
  // The lookup of the current row
  // ---------------------------------------------------------------------

  /** The rows `f` selects, in table order. */
  function Matching(rows: seq<PlanRow>, f: RowFilter): (r: seq<PlanRow>)
    ensures |r| <= |rows|
    ensures forall x :: x in r ==> x in rows && Matches(f, x)
  {
    if |rows| == 0 then []
    else
      var n := |rows| - 1;
      Matching(rows[..n], f) + (if Matches(f, rows[n]) then [rows[n]] else [])
  }

  /**
   * `.single()`: the row when exactly one row has the key; with none or
   * several, the lookup reports PGRST116 and the current row is `null`.
   */
  function Current(rows: seq<PlanRow>, f: RowFilter): (r: Option<PlanRow>)
    ensures r.Some? <==> |Matching(rows, f)| == 1
    ensures r.Some? ==> r.value in rows && Matches(f, r.value)
  {
    var m := Matching(rows, f);
    if |m| == 1 then assert m[0] in m; Some(m[0]) else None
  }

  /** When row `k` is the only row with the key, the lookup finds exactly it. */
  lemma {:induction false} MatchingOnlyAt(rows: seq<PlanRow>, f: RowFilter, k: int)
    requires OnlyAt(rows, f, k)
    ensures Matching(rows, f) == [rows[k]]
  {
    var n := |rows| - 1;
    if k < n {
      assert OnlyAt(rows[..n], f, k);
      MatchingOnlyAt(rows[..n], f, k);
      assert !Matches(f, rows[n]);
    } else {
      NoneMatching(rows[..n], f);
    }
  }

  lemma {:induction false} NoneMatching(rows: seq<PlanRow>, f: RowFilter)
    requires forall j :: 0 <= j < |rows| ==> !Matches(f, rows[j])
    ensures Matching(rows, f) == []
  {
    if |rows| > 0 {
      var n := |rows| - 1;
      assert forall j :: 0 <= j < n ==> rows[..n][j] == rows[j];
      NoneMatching(rows[..n], f);
    }
  }

  lemma CurrentOnlyAt(rows: seq<PlanRow>, f: RowFilter, k: int)
    requires OnlyAt(rows, f, k)
    ensures Current(rows, f) == Some(rows[k])
  {
    MatchingOnlyAt(rows, f, k);
  }

  // ---------------------------------------------------------------------
  // The field differences
  // ---------------------------------------------------------------------

  datatype Field = PlanField | PvpField | AccionField

  /** The column name a field is written under. */
  function FieldName(f: Field): string
  {
    match f
    case PlanField => "Plan_demanda"
    case PvpField => "PVP_PD"
    case AccionField => "Accion"
  }

  /** Position of a field in `updateData`'s key order. */
  function Rank(f: Field): nat
  {
    match f
    case PlanField => 0
    case PvpField => 1
    case AccionField => 2
  }

  /** A value in the history: a number, a text, or `null`/`undefined`. */
  datatype Value = Num(x: real) | Text(s: string) | Missing

  function NumValue(v: Option<real>): Value
  {
    if v.Some? then Num(v.value) else Missing
  }

  function TextValue(v: Option<string>): Value
  {
    if v.Some? then Text(v.value) else Missing
  }

  /** `X !== undefined` for the field. */
  predicate Defined(c: Change, f: Field)
  {
    match f
    case PlanField => c.plan.Some?
    case PvpField => c.pvp.Some?
    case AccionField => c.accion.Some?
  }

  function NewValue(c: Change, f: Field): Value
  {
    match f
    case PlanField => NumValue(c.plan)
    case PvpField => NumValue(c.pvp)
    case AccionField => TextValue(c.accion)
  }

  /** `registroActual?.X`: missing when there is no current row. */
  function OldValue(current: Option<PlanRow>, f: Field): Value
  {
    match current
    case None => Missing
    case Some(r) =>
      match f
      case PlanField => NumValue(r.planDemanda)
      case PvpField => NumValue(r.pvpPd)
      case AccionField => TextValue(r.accion)
  }

  /** One entry of `cambiosDetalle`. */
  datatype FieldChange = FieldChange(field: Field, anterior: Value, nuevo: Value)

  function Entry(c: Change, current: Option<PlanRow>, f: Field): seq<FieldChange>
  {
    if Defined(c, f) then [FieldChange(f, OldValue(current, f), NewValue(c, f))] else []
  }

  /** `cambiosDetalle`: the entries of the defined fields in the order plan, list price, action. */
  function FieldChanges(c: Change, current: Option<PlanRow>): (r: seq<FieldChange>)
    ensures |r| <= 3
    ensures |r| == 0 <==> c.plan.None? && c.pvp.None? && c.accion.None?
  {
    Entry(c, current, PlanField) + Entry(c, current, PvpField) + Entry(c, current, AccionField)
  }

  /**
   * There is an entry for each defined field and for no other, in the order
   * plan, list price, action, each holding the current row's value and the
   * new one.
   */
  lemma FieldChangesShape(c: Change, current: Option<PlanRow>)
    ensures var r := FieldChanges(c, current);
            (forall k :: 0 <= k < |r| ==> Defined(c, r[k].field))
            && (forall f :: Defined(c, f) ==> exists k :: 0 <= k < |r| && r[k].field == f)
            && (forall i, j :: 0 <= i < j < |r| ==> Rank(r[i].field) < Rank(r[j].field))
            && (forall k :: 0 <= k < |r| ==> r[k].anterior == OldValue(current, r[k].field) && r[k].nuevo == NewValue(c, r[k].field))
  {
    var a, b, d := Entry(c, current, PlanField), Entry(c, current, PvpField), Entry(c, current, AccionField);
    var r := a + b + d;
    forall k | 0 <= k < |r|
      ensures Defined(c, r[k].field)
      ensures r[k].anterior == OldValue(current, r[k].field) && r[k].nuevo == NewValue(c, r[k].field)
      ensures Rank(r[k].field) == (if k < |a| then 0 else if k < |a| + |b| then 1 else 2)
    {
      if k < |a| {
        assert r[k] == a[k];
      } else if k < |a| + |b| {
        assert r[k] == b[k - |a|];
      } else {
        assert r[k] == d[k - |a| - |b|];
      }
    }
    forall f | Defined(c, f) ensures exists k :: 0 <= k < |r| && r[k].field == f {
      var k := if f == PlanField then 0 else if f == PvpField then |a| else |a| + |b|;
      assert r[k].field == f;
    }
  }

  /** The update the route sends: the defined fields, every other column kept. */
  function EditOf(c: Change): Patch
  {
    Edit(c.plan, c.pvp, c.accion)
  }

  /** A row after the edit holds each defined field's new value and keeps the rest. */
  lemma EditSetsDefined(c: Change, r: PlanRow)
    ensures var t := Apply(EditOf(c), r);
            t.planDemanda == (if c.plan.Some? then c.plan else r.planDemanda)
            && t.pvpPd == (if c.pvp.Some? then c.pvp else r.pvpPd)
            && t.accion == (if c.accion.Some? then c.accion else r.accion)
            && t == r.(planDemanda := t.planDemanda, pvpPd := t.pvpPd, accion := t.accion)
  {
  }

  // ---------------------------------------------------------------------
  // The history row
  // ---------------------------------------------------------------------

  /** Who sent the request: `usuario`, `ipAddress`, `userAgent`. */
  datatype Sender = Sender(usuario: string, ip: Option<string>, agent: Option<string>)

  /** A row of `historial_cambios_plan`. */
  datatype HistoryRow = HistoryRow(
    nodo: string, cuenta: string, sku: string, semana: int,
    campo: string, anterior: Option<Value>, nuevo: Option<Value>, detalle: Option<seq<FieldChange>>,
    escenario: string, usuario: string, ip: Option<string>, agent: Option<string>)

  const Multiple: string := "multiple"
  const ManualLoad: string := "Carga_Manual"

  /** `x || null` on an optional string. */
  function OrNull(s: Option<string>): (r: Option<string>)
    ensures r.Some? <==> Truthy(s)
    ensures r.Some? ==> r == s
  {
    if Truthy(s) then s else None
  }

  function HistoryOf(c: Change, changes: seq<FieldChange>, who: Sender): (h: HistoryRow)
    requires KeyPresent(c)
    ensures h.campo == (if |changes| == 1 then FieldName(changes[0].field) else Multiple)
    ensures h.anterior.Some? <==> |changes| == 1
    ensures h.nuevo.Some? <==> |changes| == 1
    ensures |changes| == 1 ==> h.anterior == Some(changes[0].anterior) && h.nuevo == Some(changes[0].nuevo)
    ensures h.detalle.Some? <==> |changes| > 1
    ensures h.detalle.Some? ==> h.detalle.value == changes
    ensures h.escenario == (if Truthy(c.escenario) then c.escenario.value else ManualLoad)
    ensures h.nodo == c.nodo.value && h.cuenta == c.cuenta.value && h.sku == c.sku.value && h.semana == c.semana.value
    ensures h.usuario == who.usuario && h.ip == OrNull(who.ip) && h.agent == OrNull(who.agent)
  {
    var single := |changes| == 1;
    HistoryRow(
      c.nodo.value, c.cuenta.value, c.sku.value, c.semana.value,
      if single then FieldName(changes[0].field) else Multiple,
      if single then Some(changes[0].anterior) else None,
      if single then Some(changes[0].nuevo) else None,
      if |changes| > 1 then Some(changes) else None,
      if Truthy(c.escenario) then c.escenario.value else ManualLoad,
      who.usuario, OrNull(who.ip), OrNull(who.agent))
  }

  /** `Campo_Modificado` is `multiple` exactly when more than one field changed. */
  lemma CampoMultiple(c: Change, changes: seq<FieldChange>, who: Sender)
    requires KeyPresent(c) && |changes| > 0
    ensures HistoryOf(c, changes, who).campo == Multiple <==> |changes| > 1
  {
    if |changes| == 1 {
      var n := FieldName(changes[0].field);
      assert n[0] != Multiple[0];
    }
  }

  // ---------------------------------------------------------------------
  // The loop over the changes
  // ---------------------------------------------------------------------

  /** An entry of `resultados.errores`. */
  datatype SaveError = InvalidRecord | UpdateFailed(sku: string, semana: int)

  /** The route's state after some of the changes: the table, its write count and the results. */
  datatype Saving = Saving(rows: seq<PlanRow>, writes: nat, errors: seq<SaveError>, updated: nat, history: seq<HistoryRow>)

  /**
   * One change: an incomplete key is an error; no defined field is
   * skipped; otherwise one filtered update, which either fails (an error)
   * or counts and leaves a history row.
   */
  function SaveOne(s: Saving, c: Change, failing: set<nat>, who: Sender): (t: Saving)
  {
    if !KeyPresent(c) then s.(errors := s.errors + [InvalidRecord])
    else
      var changes := FieldChanges(c, Current(s.rows, KeyOf(c)));
      if |changes| == 0 then s
      else if s.writes in failing then s.(writes := s.writes + 1, errors := s.errors + [UpdateFailed(c.sku.value, c.semana.value)])
      else Saving(PatchWhere(s.rows, KeyOf(c), EditOf(c)), s.writes + 1, s.errors, s.updated + 1,
                  s.history + [HistoryOf(c, changes, who)])
  }

  function SaveAll(s: Saving, cs: seq<Change>, failing: set<nat>, who: Sender): Saving
  {
    if |cs| == 0 then s else SaveOne(SaveAll(s, cs[..|cs| - 1], failing, who), cs[|cs| - 1], failing, who)
  }

  /** A change without its key, or with no field defined, writes nothing. */
  lemma NoWriteWithoutKeyOrFields(s: Saving, c: Change, failing: set<nat>, who: Sender)
    requires !KeyPresent(c) || (c.plan.None? && c.pvp.None? && c.accion.None?)
    ensures var t := SaveOne(s, c, failing, who);
            t.rows == s.rows && t.writes == s.writes && t.updated == s.updated && t.history == s.history
            && t.errors == (if KeyPresent(c) then s.errors else s.errors + [InvalidRecord])
  {
  }

  /**
   * A change that counts as updated: the rows with its key hold the defined
   * values, every other row and every other column is as before, and its
   * history row records the field differences against the row looked up.
   */
  lemma SavedChange(s: Saving, c: Change, failing: set<nat>, who: Sender)
    requires SaveOne(s, c, failing, who).updated == s.updated + 1
    ensures KeyPresent(c)
    ensures var t := SaveOne(s, c, failing, who);
            |t.rows| == |s.rows| && t.errors == s.errors && s.writes !in failing
            && (forall i :: 0 <= i < |s.rows| && !Matches(KeyOf(c), s.rows[i]) ==> t.rows[i] == s.rows[i])
            && (forall i :: 0 <= i < |s.rows| && Matches(KeyOf(c), s.rows[i]) ==>
                  t.rows[i].planDemanda == (if c.plan.Some? then c.plan else s.rows[i].planDemanda)
                  && t.rows[i].pvpPd == (if c.pvp.Some? then c.pvp else s.rows[i].pvpPd)
                  && t.rows[i].accion == (if c.accion.Some? then c.accion else s.rows[i].accion))
            && t.history == s.history + [HistoryOf(c, FieldChanges(c, Current(s.rows, KeyOf(c))), who)]
  {
    var t := SaveOne(s, c, failing, who);
    forall i | 0 <= i < |s.rows| && Matches(KeyOf(c), s.rows[i])
      ensures t.rows[i].planDemanda == (if c.plan.Some? then c.plan else s.rows[i].planDemanda)
      ensures t.rows[i].pvpPd == (if c.pvp.Some? then c.pvp else s.rows[i].pvpPd)
      ensures t.rows[i].accion == (if c.accion.Some? then c.accion else s.rows[i].accion)
    {
      EditSetsDefined(c, s.rows[i]);
    }
  }

  function CountInvalid(cs: seq<Change>): (n: nat)
    ensures n <= |cs|
  {
    if |cs| == 0 then 0 else CountInvalid(cs[..|cs| - 1]) + (if KeyPresent(cs[|cs| - 1]) then 0 else 1)
  }

  /** One change adds at most one update or one error, and an invalid-record error exactly when its key is incomplete. */
  predicate OneStep(s: Saving, t: Saving, c: Change)
  {
    ((t.updated == s.updated + 1 && t.errors == s.errors && |t.history| == |s.history| + 1)
     || (t.updated == s.updated && |t.errors| == |s.errors| + 1 && t.history == s.history)
     || (t.updated == s.updated && t.errors == s.errors && t.history == s.history))
    && multiset(t.errors)[InvalidRecord] == multiset(s.errors)[InvalidRecord] + (if KeyPresent(c) then 0 else 1)
    && s.writes <= t.writes <= s.writes + 1
  }

  predicate Counted(s: Saving, t: Saving, cs: seq<Change>)
  {
    t.updated - s.updated + |t.errors| - |s.errors| <= |cs|
    && t.updated >= s.updated && |t.errors| >= |s.errors|
    && |t.history| - |s.history| == t.updated - s.updated
    && multiset(t.errors)[InvalidRecord] == multiset(s.errors)[InvalidRecord] + CountInvalid(cs)
    && s.writes <= t.writes <= s.writes + |cs|
  }

  /** One change adds at most one update or one error, and an invalid-record error exactly when its key is incomplete. */
  lemma SaveOneCounts(s: Saving, c: Change, failing: set<nat>, who: Sender)
    ensures OneStep(s, SaveOne(s, c, failing, who), c)
  {
  }

  lemma CountedSnoc(s: Saving, m: Saving, t: Saving, cs: seq<Change>)
    requires |cs| > 0 && Counted(s, m, cs[..|cs| - 1]) && OneStep(m, t, cs[|cs| - 1])
    ensures Counted(s, t, cs)
  {
  }

  /**
   * Over all changes: each is updated, an error or skipped, so the updates
   * and errors together are at most the changes; every update has one
   * history row, each change writes at most once, and the invalid-record
   * errors are the changes without a key.
   */
  lemma {:induction false} SaveAllCounts(s: Saving, cs: seq<Change>, failing: set<nat>, who: Sender)
    ensures Counted(s, SaveAll(s, cs, failing, who), cs)
  {
    if |cs| > 0 {
      var n := |cs| - 1;
      var m := SaveAll(s, cs[..n], failing, who);
      SaveAllCounts(s, cs[..n], failing, who);
      SaveOneCounts(m, cs[n], failing, who);
      CountedSnoc(s, m, SaveAll(s, cs, failing, who), cs);
    }
  }

  // ---------------------------------------------------------------------
  // The route
  // ---------------------------------------------------------------------

  /** The `cambios` field of the body. */
  datatype ChangeList = NoList | NotAList | Listed(items: seq<Change>)

  datatype SaveRequest = SaveRequest(cambios: ChangeList, usuario: Option<string>, ip: Option<string>, agent: Option<string>)

  datatype SaveResponse =
    | NeedChanges
    | NeedUser
    | Saved(success: bool, actualizados: nat, errores: seq<SaveError>)

  /** One pass of the loop over the changes, as `SaveOne` says. */
  method SaveStep(store: Store, c: Change, who: Sender, errors0: seq<SaveError>, updated0: nat, history0: seq<HistoryRow>)
    returns (errors: seq<SaveError>, updated: nat, history: seq<HistoryRow>)
    requires store.Valid()
    modifies store`rows, store`writes
    ensures store.Valid()
    ensures Saving(store.rows, store.writes, errors, updated, history)
            == SaveOne(Saving(old(store.rows), old(store.writes), errors0, updated0, history0), c, store.failingWrites, who)
  {
    errors, updated, history := errors0, updated0, history0;
    if !KeyPresent(c) {
      errors := errors + [InvalidRecord];
    } else {
      var changes := FieldChanges(c, Current(store.rows, KeyOf(c)));
      if |changes| > 0 {
        var ok := store.UpdateWhere(KeyOf(c), EditOf(c));
        if !ok {
          errors := errors + [UpdateFailed(c.sku.value, c.semana.value)];
        } else {
          updated := updated + 1;
          history := history + [HistoryOf(c, changes, who)];
        }
      }
    }
  }

  /**
   * The POST route.  No change list, or an empty one, and then a missing
   * user are refused before any write; otherwise the changes are applied
   * in order as `SaveAll` says, the history rows are returned, and the
   * response succeeds exactly when no error was recorded.
   */
  method SaveChanges(store: Store, req: SaveRequest) returns (resp: SaveResponse, history: seq<HistoryRow>)
    requires store.Valid()
    modifies store`rows, store`writes
    ensures store.Valid()
    ensures resp == NeedChanges <==> !req.cambios.Listed? || |req.cambios.items| == 0
    ensures resp == NeedUser <==> req.cambios.Listed? && |req.cambios.items| > 0 && !Truthy(req.usuario)
    ensures !resp.Saved? ==> store.rows == old(store.rows) && store.writes == old(store.writes) && history == []
    ensures resp.Saved? ==>
              var t := SaveAll(Saving(old(store.rows), old(store.writes), [], 0, []), req.cambios.items,
                               store.failingWrites, Sender(req.usuario.value, req.ip, req.agent));
              store.rows == t.rows && store.writes == t.writes
              && resp == Saved(|t.errors| == 0, t.updated, t.errors) && history == t.history
    ensures resp.Saved? ==>
              resp.actualizados + |resp.errores| <= |req.cambios.items| && |history| == resp.actualizados
              && multiset(resp.errores)[InvalidRecord] == CountInvalid(req.cambios.items)
  {
    if !req.cambios.Listed? || |req.cambios.items| == 0 {
      return NeedChanges, [];
    }
    if !Truthy(req.usuario) {
      return NeedUser, [];
    }
    var cs := req.cambios.items;
    var who := Sender(req.usuario.value, req.ip, req.agent);
    ghost var s0 := Saving(store.rows, store.writes, [], 0, []);
    var errors: seq<SaveError> := [];
    var updated: nat := 0;
    history := [];
    var i := 0;
    while i < |cs|
      invariant 0 <= i <= |cs|
      invariant store.Valid()
      invariant Saving(store.rows, store.writes, errors, updated, history) == SaveAll(s0, cs[..i], store.failingWrites, who)
    {
      assert cs[..i + 1][..i] == cs[..i];
      errors, updated, history := SaveStep(store, cs[i], who, errors, updated, history);
      i := i + 1;
    }
    assert cs[..i] == cs;
    SaveAllCounts(s0, cs, store.failingWrites, who);
    resp := Saved(|errors| == 0, updated, errors);
  }
}
