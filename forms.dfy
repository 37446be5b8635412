/**
 * The validation of the two account forms of tareas/forms.py.
 *
 * PersonalForm edits a Personal row together with its linked User: its
 * uniqueness checks leave out the row being edited (and that row's User), and
 * its form-level `clean` decides between choosing an existing Dependencia and
 * creating a new one. RegistroUsuarioForm registers a bare User and checks
 * uniqueness against every existing User.
 *
 * The form being edited is identified by `editing`: the primary key of the
 * Personal row bound to the form, or None for a form that creates one.
 */
module Forms {
  import opened Wrappers
  import opened Models
  import opened Schema

  /** The fields a PersonalForm error can be attached to. */
  datatype Field =
    | CedulaField
    | UsernameField
    | EmailField
    | DependenciaField
    | NuevaDependenciaNombreField
    | NuevaDependenciaTipoField

  /** What a PersonalForm posts, after each field's own conversion. */
  datatype PersonalData = PersonalData(
    cedula: string, nombre: string, apellido: string,
    fechaNac: Date, fechaIngreso: Date,
    dependencia: Option<Id>,
    telefono: Option<string>, direccion: Option<string>,
    username: string, email: string,
    password: string,                           // empty: leave unchanged / use the temporary one
    crearNuevaDependencia: bool,
    nuevaDependenciaNombre: string,
    nuevaDependenciaTipo: Option<TipoDependencia>)  // None: nothing chosen

  // ---------------------------------------------------------------------------
  // Uniqueness checks
  // ---------------------------------------------------------------------------

  /** The User linked to the Personal being edited, if any. */
  function InstanceUser(personal: map<Id, Personal>, editing: Option<Id>): (r: Option<Id>)
    ensures r.Some? <==> editing.Some? && editing.value in personal
    ensures r.Some? ==> r.value == personal[editing.value].usuario
  {
    if editing.Some? && editing.value in personal then Some(personal[editing.value].usuario) else None
  }

  /** Some row other than `exclude` already holds the cedula. */
  predicate CedulaTaken(personal: map<Id, Personal>, cedula: string, exclude: Option<Id>) {
    exists p :: p in personal && Some(p) != exclude && personal[p].cedula == cedula
  }

  /** Some User other than `exclude` already holds the username. */
  predicate UsernameTaken(users: map<Id, User>, username: string, exclude: Option<Id>) {
    exists u :: u in users && Some(u) != exclude && users[u].username == username
  }

  /** Some User other than `exclude` already holds the email. */
  predicate EmailTaken(users: map<Id, User>, email: string, exclude: Option<Id>) {
    exists u :: u in users && Some(u) != exclude && users[u].email == email
  }

  /** PersonalForm.clean_cedula */
  function CleanCedula(personal: map<Id, Personal>, cedula: string, editing: Option<Id>): (r: Result<string, Field>)
    ensures r.Ok? <==> forall p :: p in personal && personal[p].cedula == cedula ==> Some(p) == editing
    ensures r == Ok(cedula) || r == Err(CedulaField)
  {
    if CedulaTaken(personal, cedula, editing) then Err(CedulaField) else Ok(cedula)
  }

  /** PersonalForm.clean_username: the edited row's own User is left out. */
  function CleanUsername(db: Db, username: string, editing: Option<Id>): (r: Result<string, Field>)
    ensures r.Ok? <==> forall u :: u in db.users && db.users[u].username == username
                                  ==> Some(u) == InstanceUser(db.personal, editing)
    ensures r == Ok(username) || r == Err(UsernameField)
  {
    if UsernameTaken(db.users, username, InstanceUser(db.personal, editing)) then Err(UsernameField)
    else Ok(username)
  }

  /** PersonalForm.clean_email: the edited row's own User is left out. */
  function CleanEmail(db: Db, email: string, editing: Option<Id>): (r: Result<string, Field>)
    ensures r.Ok? <==> forall u :: u in db.users && db.users[u].email == email
                                  ==> Some(u) == InstanceUser(db.personal, editing)
    ensures r == Ok(email) || r == Err(EmailField)
  {
    if EmailTaken(db.users, email, InstanceUser(db.personal, editing)) then Err(EmailField)
    else Ok(email)
  }

  /** Re-saving a row with its own cedula, username and email passes all three checks. */
  lemma ResaveOwnValuesAccepted(db: Db, pk: Id)
    requires Valid(db)
    requires pk in db.personal
    requires forall u, v :: u in db.users && v in db.users && db.users[u].username == db.users[v].username ==> u == v
    requires forall u, v :: u in db.users && v in db.users && db.users[u].email == db.users[v].email ==> u == v
    ensures CleanCedula(db.personal, db.personal[pk].cedula, Some(pk)).Ok?
    ensures var u := db.personal[pk].usuario;
            CleanUsername(db, db.users[u].username, Some(pk)).Ok?
            && CleanEmail(db, db.users[u].email, Some(pk)).Ok?
  {
  }

  /** A new row is checked against every existing one. */
  lemma NewRowChecksEveryRow(db: Db, data: PersonalData)
    ensures (CleanCedula(db.personal, data.cedula, None).Err?
             <==> exists p :: p in db.personal && db.personal[p].cedula == data.cedula)
    ensures (CleanUsername(db, data.username, None).Err?
             <==> exists u :: u in db.users && db.users[u].username == data.username)
    ensures (CleanEmail(db, data.email, None).Err?
             <==> exists u :: u in db.users && db.users[u].email == data.email)
  {
  }

  // ---------------------------------------------------------------------------
  // PersonalForm.clean
  // ---------------------------------------------------------------------------

  /** The errors `clean` adds for the Dependencia choice, given the posted flag. */
  function DependenciaErrors(data: PersonalData): (errors: set<Field>)
    ensures errors <= {DependenciaField, NuevaDependenciaNombreField, NuevaDependenciaTipoField}
    ensures NuevaDependenciaNombreField in errors <==> data.crearNuevaDependencia && data.nuevaDependenciaNombre == ""
    ensures NuevaDependenciaTipoField in errors <==> data.crearNuevaDependencia && data.nuevaDependenciaTipo.None?
    ensures DependenciaField in errors <==> !data.crearNuevaDependencia && data.dependencia.None?
  {
    if data.crearNuevaDependencia then
      (if data.nuevaDependenciaNombre == "" then {NuevaDependenciaNombreField} else {})
      + (if data.nuevaDependenciaTipo.None? then {NuevaDependenciaTipoField} else {})
    else if data.dependencia.None? then {DependenciaField}
    else {}
  }

  /**
   * PersonalForm.clean as written: the errors are decided from the posted
   * flag, and only afterwards is the flag forced on when no Dependencia exists.
   */
  function Clean(data: PersonalData, dependenciasExist: bool): (r: (PersonalData, set<Field>))
    ensures r.1 == DependenciaErrors(data)
    ensures r.0.crearNuevaDependencia == (data.crearNuevaDependencia || !dependenciasExist)
    ensures r.0.(crearNuevaDependencia := data.crearNuevaDependencia) == data
  {
    var errors := DependenciaErrors(data);
    var cleaned := if !dependenciasExist then data.(crearNuevaDependencia := true) else data;
    (cleaned, errors)
  }

  /**
   * The evident intent of `clean`: with no Dependencia in the system the form
   * is in "create a new one" mode before the fields are checked.
   */
  function CleanForcingFirst(data: PersonalData, dependenciasExist: bool): (r: (PersonalData, set<Field>))
    ensures !dependenciasExist ==> r.0.crearNuevaDependencia && DependenciaField !in r.1
    ensures !dependenciasExist ==> (NuevaDependenciaNombreField in r.1 <==> data.nuevaDependenciaNombre == "")
    ensures !dependenciasExist ==> (NuevaDependenciaTipoField in r.1 <==> data.nuevaDependenciaTipo.None?)
    ensures !dependenciasExist ==> r.1 <= {NuevaDependenciaNombreField, NuevaDependenciaTipoField}
    ensures r.0.(crearNuevaDependencia := data.crearNuevaDependencia) == data
    ensures dependenciasExist ==> r == Clean(data, dependenciasExist)
  {
    var cleaned := if !dependenciasExist then data.(crearNuevaDependencia := true) else data;
    (cleaned, DependenciaErrors(cleaned))
  }

  /**
   * The defect: with no Dependencia and the flag not posted (its checkbox is
   * rendered disabled), `clean` reports the missing Dependencia even though it
   * then forces creation mode, so a complete new-Dependencia entry is refused.
   */
  lemma CleanKeepsErrorAfterForcing(data: PersonalData)
    requires !data.crearNuevaDependencia && data.dependencia.None?
    requires data.nuevaDependenciaNombre != "" && data.nuevaDependenciaTipo.Some?
    ensures Clean(data, false).0.crearNuevaDependencia
    ensures Clean(data, false).1 == {DependenciaField}
    ensures CleanForcingFirst(data, false).1 == {}
  {
  }

  // ---------------------------------------------------------------------------
  // Whole-form validation
  // ---------------------------------------------------------------------------

  /**
   * The Dependencia choice field: a posted key that names no Dependencia is an
   * invalid choice, reported on the field and dropped from the cleaned data.
   */
  function CleanDependenciaChoice(dependencias: map<Id, Dependencia>, d: Option<Id>): (r: Result<Option<Id>, Field>)
    ensures r.Ok? <==> d.None? || d.value in dependencias
    ensures r.Ok? ==> r.value == d
  {
    if d.Some? && d.value !in dependencias then Err(DependenciaField) else Ok(d)
  }

  /**
   * The errors of the field checks that run before `clean`: the Dependencia
   * choice, the three uniqueness checks, and, when no Dependencia exists, the
   * new Dependencia's name and type, which the form then marks required.
   */
  function FieldErrors(db: Db, data: PersonalData, editing: Option<Id>): (errors: set<Field>)
    ensures DependenciaField in errors <==> CleanDependenciaChoice(db.dependencias, data.dependencia).Err?
    ensures CedulaField in errors <==> CleanCedula(db.personal, data.cedula, editing).Err?
    ensures UsernameField in errors <==> CleanUsername(db, data.username, editing).Err?
    ensures EmailField in errors <==> CleanEmail(db, data.email, editing).Err?
    ensures NuevaDependenciaNombreField in errors <==> |db.dependencias| == 0 && data.nuevaDependenciaNombre == ""
    ensures NuevaDependenciaTipoField in errors <==> |db.dependencias| == 0 && data.nuevaDependenciaTipo.None?
  {
    set f | f in AllFields && FieldFails(db, data, editing, f)
  }

  const AllFields: set<Field> := {CedulaField, UsernameField, EmailField, DependenciaField,
                                  NuevaDependenciaNombreField, NuevaDependenciaTipoField}

  /** Whether the check of field `f` fails before `clean` runs. */
  predicate FieldFails(db: Db, data: PersonalData, editing: Option<Id>, f: Field) {
    match f
    case DependenciaField => CleanDependenciaChoice(db.dependencias, data.dependencia).Err?
    case CedulaField => CleanCedula(db.personal, data.cedula, editing).Err?
    case UsernameField => CleanUsername(db, data.username, editing).Err?
    case EmailField => CleanEmail(db, data.email, editing).Err?
    case NuevaDependenciaNombreField => |db.dependencias| == 0 && data.nuevaDependenciaNombre == ""
    case NuevaDependenciaTipoField => |db.dependencias| == 0 && data.nuevaDependenciaTipo.None?
  }

  /** The data `clean` decides its errors on: the posted data, with the flag forced first in the corrected form. */
  function CheckedData(db: Db, data: PersonalData, forcingFirst: bool): PersonalData {
    if forcingFirst && |db.dependencias| == 0 then data.(crearNuevaDependencia := true) else data
  }

  /**
   * Field checks first, then the form-level `clean` (as written, or forcing
   * creation mode first); valid exactly when neither adds an error, and then
   * the cleaned data is the posted data with the flag forced on when no
   * Dependencia exists. An invalid choice is dropped from the data `clean`
   * sees.
   */
  function ValidateWith(db: Db, data: PersonalData, editing: Option<Id>, forcingFirst: bool): (r: Result<PersonalData, set<Field>>)
    ensures r.Ok? <==> FieldErrors(db, data, editing) == {} && DependenciaErrors(CheckedData(db, data, forcingFirst)) == {}
    ensures r.Ok? ==> r.value == (if |db.dependencias| == 0 then data.(crearNuevaDependencia := true) else data)
    ensures r.Err? ==> forall f :: f in {CedulaField, UsernameField, EmailField} ==>
                         (f in r.error <==> f in FieldErrors(db, data, editing))
  {
    var fieldErrors := FieldErrors(db, data, editing);
    var posted := data.(dependencia := if DependenciaField in fieldErrors then None else data.dependencia);
    var (cleaned, formErrors) := if forcingFirst then CleanForcingFirst(posted, |db.dependencias| > 0)
                                 else Clean(posted, |db.dependencias| > 0);
    assert formErrors <= {DependenciaField, NuevaDependenciaNombreField, NuevaDependenciaTipoField};
    if fieldErrors + formErrors == {} then Ok(cleaned) else Err(fieldErrors + formErrors)
  }

  /** PersonalForm.is_valid() as written. */
  function Validate(db: Db, data: PersonalData, editing: Option<Id>): Result<PersonalData, set<Field>> {
    ValidateWith(db, data, editing, false)
  }

  /** PersonalForm.is_valid() with creation mode forced before `clean` checks the fields. */
  function ValidateForcingFirst(db: Db, data: PersonalData, editing: Option<Id>): Result<PersonalData, set<Field>> {
    ValidateWith(db, data, editing, true)
  }

  /**
   * Reading `instance.usuario` as written. A creating form's instance is an
   * unsaved Personal, which counts as true in the guard; its User link is not
   * nullable and not yet set, so the framework's accessor raises rather than
   * give null.
   */
  function InstanceUsuarioAsWritten(personal: map<Id, Personal>, editing: Option<Id>): (r: Outcome<Option<Id>>)
    ensures r.Raised? <==> editing.None?
    ensures r.Returned? ==> r.value == InstanceUser(personal, editing)
  {
    if editing.None? then Raised else Returned(InstanceUser(personal, editing))
  }

  /**
   * PersonalForm.is_valid() as written: `clean_username` and `clean_email`
   * both read `instance.usuario`, and what that raises is no validation
   * error, so it escapes the form (posted values are taken as already
   * converted by their fields, so both field hooks run).
   */
  function ValidateAsWritten(db: Db, data: PersonalData, editing: Option<Id>): Outcome<Result<PersonalData, set<Field>>> {
    match InstanceUsuarioAsWritten(db.personal, editing)
    case Raised => Raised
    case Returned(_) => Returned(Validate(db, data, editing))
  }

  /** As written, a form creating a Personal never validates: it raises whatever is posted. */
  lemma NewPersonalFormRaises(db: Db, data: PersonalData)
    ensures ValidateAsWritten(db, data, None) == Raised
    ensures forall pk :: ValidateAsWritten(db, data, Some(pk)) == Returned(Validate(db, data, Some(pk)))
  {
  }

  /**
   * The evident intent, which the rest of the model follows: a new Personal
   * has no User, nothing is left out of the checks, and a form whose values
   * nobody holds, with a storable Dependencia choice, validates unchanged.
   */
  lemma NewPersonalAccepted(db: Db, data: PersonalData)
    requires forall p :: p in db.personal ==> db.personal[p].cedula != data.cedula
    requires forall u :: u in db.users ==> db.users[u].username != data.username && db.users[u].email != data.email
    requires data.crearNuevaDependencia ==> data.nuevaDependenciaNombre != "" && data.nuevaDependenciaTipo.Some?
    requires data.crearNuevaDependencia ==> data.dependencia.None? || data.dependencia.value in db.dependencias
    requires !data.crearNuevaDependencia ==> data.dependencia.Some? && data.dependencia.value in db.dependencias
    ensures InstanceUser(db.personal, None).None?
    ensures Validate(db, data, None) == Ok(data)
  {
    ValidateSound(db, data, None);
  }

  /**
   * What `save` needs of its cleaned data: the three uniqueness checks pass,
   * creation mode has a name and a type, otherwise an existing Dependencia is
   * chosen.
   */
  predicate Saveable(db: Db, data: PersonalData, editing: Option<Id>) {
    && CleanCedula(db.personal, data.cedula, editing).Ok?
    && CleanUsername(db, data.username, editing).Ok?
    && CleanEmail(db, data.email, editing).Ok?
    && (data.crearNuevaDependencia ==>
          data.nuevaDependenciaNombre != "" && data.nuevaDependenciaTipo.Some?)
    && (!data.crearNuevaDependencia ==>
          data.dependencia.Some? && data.dependencia.value in db.dependencias)
  }

  /**
   * A form validates exactly when its data is storable and its chosen
   * Dependencia, if any, exists; it then hands `save` its data unchanged.
   * An invalid form reports an error on each failed uniqueness check.
   */
  lemma ValidateSound(db: Db, data: PersonalData, editing: Option<Id>)
    ensures Validate(db, data, editing).Ok?
            <==> Saveable(db, data, editing) && CleanDependenciaChoice(db.dependencias, data.dependencia).Ok?
    ensures var r := Validate(db, data, editing);
      && (r.Ok? ==> r.value == data)
      && (r.Err? ==>
            && (CleanCedula(db.personal, data.cedula, editing).Err? <==> CedulaField in r.error)
            && (CleanUsername(db, data.username, editing).Err? <==> UsernameField in r.error)
            && (CleanEmail(db, data.email, editing).Err? <==> EmailField in r.error))
  {
    if Saveable(db, data, editing) && CleanDependenciaChoice(db.dependencias, data.dependencia).Ok? {
      if |db.dependencias| == 0 {
        assert data.crearNuevaDependencia;
      }
      assert FieldErrors(db, data, editing) == {};
      assert DependenciaErrors(data) == {};
    }
  }

  /**
   * As written, the forced flag never decides anything: with no Dependencia in
   * the system a form validates only if the client itself posted the flag.
   */
  lemma ValidateNeedsPostedFlag(db: Db, data: PersonalData, editing: Option<Id>)
    requires |db.dependencias| == 0
    requires Validate(db, data, editing).Ok?
    ensures data.crearNuevaDependencia
  {
  }

  /**
   * With creation mode forced first, a form that passes the uniqueness checks
   * and names the new Dependencia validates when none exists, flag or not.
   */
  lemma ValidateForcingFirstAcceptsFirstDependencia(db: Db, data: PersonalData, editing: Option<Id>)
    requires |db.dependencias| == 0 && data.dependencia.None?
    requires CleanCedula(db.personal, data.cedula, editing).Ok?
    requires CleanUsername(db, data.username, editing).Ok?
    requires CleanEmail(db, data.email, editing).Ok?
    requires data.nuevaDependenciaNombre != "" && data.nuevaDependenciaTipo.Some?
    ensures ValidateForcingFirst(db, data, editing) == Ok(data.(crearNuevaDependencia := true))
    ensures Saveable(db, data.(crearNuevaDependencia := true), editing)
  {
  }

  /** With creation mode forced first, validation still only hands `save` storable data. */
  lemma ValidateForcingFirstSound(db: Db, data: PersonalData, editing: Option<Id>)
    ensures var r := ValidateForcingFirst(db, data, editing);
      r.Ok? ==> Saveable(db, r.value, editing)
  {
  }

  // ---------------------------------------------------------------------------
  // RegistroUsuarioForm
  // ---------------------------------------------------------------------------

  datatype RegistroField = RegistroUsernameField | RegistroEmailField

  /** What RegistroUsuarioForm posts; the password pair is checked by the framework's form. */
  datatype RegistroData = RegistroData(username: string, firstName: string, lastName: string,
                                       email: string, password: string)

  /** RegistroUsuarioForm.clean_email: no User at all may hold the email. */
  function RegistroCleanEmail(users: map<Id, User>, email: string): (r: Result<string, RegistroField>)
    ensures r.Ok? <==> forall u :: u in users ==> users[u].email != email
    ensures r == Ok(email) || r == Err(RegistroEmailField)
  {
    if EmailTaken(users, email, None) then Err(RegistroEmailField) else Ok(email)
  }

  /** RegistroUsuarioForm.clean_username: no User at all may hold the username. */
  function RegistroCleanUsername(users: map<Id, User>, username: string): (r: Result<string, RegistroField>)
    ensures r.Ok? <==> forall u :: u in users ==> users[u].username != username
    ensures r == Ok(username) || r == Err(RegistroUsernameField)
  {
    if UsernameTaken(users, username, None) then Err(RegistroUsernameField) else Ok(username)
  }

  function RegistroValidate(users: map<Id, User>, data: RegistroData): (r: Result<RegistroData, set<RegistroField>>)
    ensures r.Ok? <==> RegistroCleanEmail(users, data.email).Ok? && RegistroCleanUsername(users, data.username).Ok?
    ensures r.Ok? ==> r.value == data
    ensures r.Err? ==> (RegistroEmailField in r.error <==> RegistroCleanEmail(users, data.email).Err?)
    ensures r.Err? ==> (RegistroUsernameField in r.error <==> RegistroCleanUsername(users, data.username).Err?)
  {
    var errors := (if RegistroCleanEmail(users, data.email).Err? then {RegistroEmailField} else {})
                  + (if RegistroCleanUsername(users, data.username).Err? then {RegistroUsernameField} else {});
    if errors == {} then Ok(data) else Err(errors)
  }

  /**
   * Unlike PersonalForm, registration has no self-exclusion: the username of an
   * existing User is refused even where PersonalForm, editing that User's
   * Personal, accepts it.
   */
  lemma RegistroHasNoSelfExclusion(db: Db, pk: Id)
    requires Valid(db) && pk in db.personal
    requires forall u, v :: u in db.users && v in db.users && db.users[u].username == db.users[v].username ==> u == v
    ensures var u := db.personal[pk].usuario;
            && RegistroCleanUsername(db.users, db.users[u].username).Err?
            && CleanUsername(db, db.users[u].username, Some(pk)).Ok?
  {
  }
}
