/**
 * The administration site's rules for the Institucion singleton and for the
 * Bitácora (audit log) rows: who may add or delete the institution, and which
 * fields of a log entry an edit can change.
 */
module Admin {
  import opened Wrappers
  import opened Models

  // ---------------------------------------------------------------------------
  // InstitucionAdmin
  // ---------------------------------------------------------------------------

  /**
   * The user behind an admin request: whether they are a superuser, and the
   * framework's own answer to "may this user add an Institucion" (the model
   * permission the base ModelAdmin checks).
   */
  datatype Actor = Actor(isSuperuser: bool, modelAddPermission: bool)

  /** has_add_permission: a non-superuser may not add once an Institucion exists. */
  predicate HasAddPermission(institucionExists: bool, actor: Actor) {
    if institucionExists && !actor.isSuperuser then false
    else actor.modelAddPermission
  }

  /** has_delete_permission: only a superuser, whatever the object. */
  predicate HasDeletePermission(actor: Actor, obj: Option<Id>) {
    actor.isSuperuser
  }

  /** The add permission in closed form: blocked exactly by an existing row for a non-superuser. */
  lemma AddPermissionCases(institucionExists: bool, actor: Actor)
    ensures HasAddPermission(institucionExists, actor)
            <==> actor.modelAddPermission && (!institucionExists || actor.isSuperuser)
    ensures !actor.isSuperuser && institucionExists ==> !HasAddPermission(institucionExists, actor)
  {
  }

  /** The delete permission depends on the user alone, never on the row asked about. */
  lemma DeletePermissionIgnoresObject(actor: Actor, a: Option<Id>, b: Option<Id>)
    ensures HasDeletePermission(actor, a) == HasDeletePermission(actor, b)
    ensures HasDeletePermission(actor, a) <==> actor.isSuperuser
  {
  }

  /** The existence check never blocks a superuser: they keep their model permission and may delete. */
  lemma SuperuserNeverBlocked(institucionExists: bool, actor: Actor, obj: Option<Id>)
    requires actor.isSuperuser
    ensures HasAddPermission(institucionExists, actor) == actor.modelAddPermission
    ensures HasDeletePermission(actor, obj)
  {
  }

  /** An admin action on the Institucion table. */
  datatype InstitucionOp =
    | Add(actor: Actor, row: Institucion)
    | Delete(actor: Actor, index: nat)

  /**
   * One action, gated by the permission the admin asks for first; refused
   * actions change nothing. The table grows only from empty or by a
   * superuser, and shrinks only by a superuser.
   */
  function ApplyOp(rows: seq<Institucion>, op: InstitucionOp): (r: seq<Institucion>)
    ensures |rows| - 1 <= |r| <= |rows| + 1
    ensures |r| > |rows| ==> op.Add? && (|rows| == 0 || op.actor.isSuperuser) && r == rows + [op.row]
    ensures |r| < |rows| ==> op.Delete? && op.actor.isSuperuser
    ensures |r| == |rows| ==> r == rows
    ensures |r| > |rows| ==> op.actor.modelAddPermission
    ensures op.Add? && HasAddPermission(|rows| > 0, op.actor) ==> r == rows + [op.row]
    ensures op.Delete? && op.actor.isSuperuser && op.index < |rows| ==> r == rows[..op.index] + rows[op.index + 1..]
    ensures op.Delete? && op.index >= |rows| ==> r == rows
    ensures op.Add? && !HasAddPermission(|rows| > 0, op.actor) ==> r == rows
    ensures op.Delete? && !op.actor.isSuperuser ==> r == rows
  {
    match op
    case Add(actor, row) =>
      if HasAddPermission(|rows| > 0, actor) then rows + [row] else rows
    case Delete(actor, i) =>
      if HasDeletePermission(actor, Some(i)) && i < |rows| then rows[..i] + rows[i + 1..] else rows
  }

  /** A sequence of admin actions, applied in order. */
  function Run(rows: seq<Institucion>, ops: seq<InstitucionOp>): seq<Institucion>
    decreases |ops|
  {
    if ops == [] then rows else Run(ApplyOp(rows, ops[0]), ops[1..])
  }

  /**
   * The singleton guard: from at most one Institucion, any actions by
   * non-superusers leave at most one, and never remove a row (they may not
   * delete), so an existing row survives unchanged.
   */
  lemma {:induction false} NonSuperusersKeepSingleton(rows: seq<Institucion>, ops: seq<InstitucionOp>)
    requires |rows| <= 1
    requires forall i :: 0 <= i < |ops| ==> !ops[i].actor.isSuperuser
    ensures |Run(rows, ops)| <= 1
    ensures rows <= Run(rows, ops)
    decreases |ops|
  {
    if ops != [] {
      var next := ApplyOp(rows, ops[0]);
      assert !ops[0].actor.isSuperuser;
      assert |next| <= 1 && rows <= next;
      forall i | 0 <= i < |ops[1..]|
        ensures !ops[1..][i].actor.isSuperuser
      {
        assert ops[1..][i] == ops[i + 1];
      }
      NonSuperusersKeepSingleton(next, ops[1..]);
    }
  }

  /** Starting from an empty table, non-superusers can create the Institucion at most once. */
  lemma EmptyTableSingleton(ops: seq<InstitucionOp>)
    requires forall i :: 0 <= i < |ops| ==> !ops[i].actor.isSuperuser
    ensures |Run([], ops)| <= 1
  {
    NonSuperusersKeepSingleton([], ops);
  }

  /** The guard binds non-superusers only: a superuser with the model permission adds a second row. */
  lemma SuperuserAddsSecond(first: Institucion, second: Institucion, actor: Actor)
    requires actor.isSuperuser && actor.modelAddPermission
    ensures |Run([first], [Add(actor, second)])| == 2
  {
    assert Run([first], [Add(actor, second)]) == Run([first, second], []);
  }

  // ---------------------------------------------------------------------------
  // Bitácora: the inline on a Tarea and the standalone admin
  // ---------------------------------------------------------------------------

  /** The columns of a Bitácora row. */
  datatype BitacoraField =
    | TareaField | PersonalField | AccionField | DescripcionField
    | FechaAccionField | DatosAnterioresField | DatosNuevosField

  /** BitacoraInline.readonly_fields. */
  const InlineReadonly: set<BitacoraField> := {PersonalField, AccionField, DescripcionField, FechaAccionField}

  /** BitacoraInline.can_delete. */
  const InlineCanDelete: bool := false

  /** BitacoraAdmin.readonly_fields. */
  const AdminReadonly: set<BitacoraField> := {FechaAccionField}

  /**
   * Saving a change form: every field not in `fixed` takes the posted value,
   * every field in `fixed` keeps the stored one.
   */
  function ApplyEdit(stored: Bitacora, posted: Bitacora, fixed: set<BitacoraField>): Bitacora
  {
    Bitacora(
      if TareaField in fixed then stored.tarea else posted.tarea,
      if PersonalField in fixed then stored.personal else posted.personal,
      if AccionField in fixed then stored.accion else posted.accion,
      if DescripcionField in fixed then stored.descripcion else posted.descripcion,
      if FechaAccionField in fixed then stored.fechaAccion else posted.fechaAccion,
      if DatosAnterioresField in fixed then stored.datosAnteriores else posted.datosAnteriores,
      if DatosNuevosField in fixed then stored.datosNuevos else posted.datosNuevos)
  }

  /** One row of a submitted inline formset: the posted values and the DELETE checkbox. */
  datatype InlinePost = InlinePost(values: Bitacora, delete: bool)

  /**
   * Saving an inline formset over the rows shown: a row is deleted only when
   * the formset allows deletion and its box is ticked; otherwise it is edited.
   */
  function FormsetSave(entries: seq<Bitacora>, posted: seq<InlinePost>, canDelete: bool,
                       fixed: set<BitacoraField>): (r: seq<Bitacora>)
    requires |posted| == |entries|
    ensures |r| <= |entries|
    ensures !canDelete ==> |r| == |entries|
    ensures !canDelete ==> forall i :: 0 <= i < |r| ==> r[i] == ApplyEdit(entries[i], posted[i].values, fixed)
    decreases |entries|
  {
    if entries == [] then []
    else
      var rest := FormsetSave(entries[1..], posted[1..], canDelete, fixed);
      if canDelete && posted[0].delete then rest
      else [ApplyEdit(entries[0], posted[0].values, fixed)] + rest
  }

  /**
   * The Bitácora inline on a Tarea's page: the foreign key to the Tarea is
   * the parent's and never a form field, and the inline's read-only fields
   * are kept.
   */
  function InlineSave(entries: seq<Bitacora>, posted: seq<InlinePost>): seq<Bitacora>
    requires |posted| == |entries|
  {
    FormsetSave(entries, posted, InlineCanDelete, InlineReadonly + {TareaField})
  }

  /**
   * Submitting the inline: the forms for the rows shown, plus the extra "Add
   * another" forms the user filled in (an extra form left unchanged is
   * skipped). An extra form offers only the payloads, so the new entry has
   * no author; the non-null `personal` column then refuses the insert, and
   * the change view's transaction undoes the whole save.
   */
  function InlineSubmit(entries: seq<Bitacora>, posted: seq<InlinePost>, added: seq<Bitacora>): (r: Outcome<seq<Bitacora>>)
    requires |posted| == |entries|
    ensures r.Raised? <==> |added| > 0
    ensures r.Returned? ==> r.value == InlineSave(entries, posted)
  {
    if |added| > 0 then Raised else Returned(InlineSave(entries, posted))
  }

  /**
   * The inline never changes how many entries a Tarea has: a save that goes
   * through keeps every shown entry, with its logged facts, and adds none.
   */
  lemma InlineNeverAddsEntries(entries: seq<Bitacora>, posted: seq<InlinePost>, added: seq<Bitacora>)
    requires |posted| == |entries|
    ensures var r := InlineSubmit(entries, posted, added);
      r.Returned? ==>
        (&& |r.value| == |entries|
         && forall i :: 0 <= i < |entries| ==> r.value[i].personal == entries[i].personal && r.value[i].accion == entries[i].accion)
  {
  }

  /**
   * Through the inline no entry can be deleted, and each keeps its Tarea,
   * author, action, description and date, whatever was posted.
   */
  lemma InlineKeepsLoggedFacts(entries: seq<Bitacora>, posted: seq<InlinePost>)
    requires |posted| == |entries|
    ensures |InlineSave(entries, posted)| == |entries|
    ensures forall i :: 0 <= i < |entries| ==>
              var e := InlineSave(entries, posted)[i];
              && e.tarea == entries[i].tarea && e.personal == entries[i].personal
              && e.accion == entries[i].accion && e.descripcion == entries[i].descripcion
              && e.fechaAccion == entries[i].fechaAccion
  {
  }

  /** Through the inline only the before/after payloads are editable. */
  lemma InlineEditsPayloads(entries: seq<Bitacora>, posted: seq<InlinePost>, i: nat)
    requires |posted| == |entries| && i < |entries|
    ensures |InlineSave(entries, posted)| == |entries|
    ensures InlineSave(entries, posted)[i].datosAnteriores == posted[i].values.datosAnteriores
    ensures InlineSave(entries, posted)[i].datosNuevos == posted[i].values.datosNuevos
  {
  }

  /** The inline's save of row `i` is the edit of that row with the inline's fixed fields. */
  lemma InlinePayloadsAt(entries: seq<Bitacora>, posted: seq<InlinePost>, i: nat)
    requires |posted| == |entries| && i < |entries|
    ensures |InlineSave(entries, posted)| == |entries|
    ensures InlineSave(entries, posted)[i] == ApplyEdit(entries[i], posted[i].values, InlineReadonly + {TareaField})
  {
  }

  /** The standalone Bitácora admin keeps the entry's date and accepts every other posted value. */
  lemma AdminEditKeepsOnlyDate(stored: Bitacora, posted: Bitacora)
    ensures ApplyEdit(stored, posted, AdminReadonly) == posted.(fechaAccion := stored.fechaAccion)
  {
  }

  /**
   * The audit log is not immutable there: an edit through the standalone
   * admin can rewrite an entry's action and author.
   */
  lemma AdminEditCanRewriteEntry(stored: Bitacora, accion: TipoAccion, personal: Id)
    ensures var r := ApplyEdit(stored, stored.(accion := accion, personal := personal), AdminReadonly);
      r.accion == accion && r.personal == personal && r.fechaAccion == stored.fechaAccion
  {
    AdminEditKeepsOnlyDate(stored, stored.(accion := accion, personal := personal));
  }
}
