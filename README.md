# GestionTareas — a verified model of the Tarea and Personal core

GestionTareas is a Django application for an institution that assigns tasks
(Tareas) to its staff (Personal). Staff belong to departments (Dependencias)
and are located by Estado, Municipio and Parroquia, and every action on a task
is logged in an audit log (Bitácora). This project models three parts of it in
Dafny:

- **The data model** (`models.dfy`, `schema.dfy`): the records and choice
  codes, the validators on `porcentaje_avance` and `cantidad`, and the field
  defaults. It also covers a Tarea's derived values (`esta_vencida`,
  `puede_ser_completada` and the progress CSS class). Finally, it covers the
  database as tables with their foreign keys, unique keys and the CASCADE /
  SET_NULL policy of every foreign key. Each deletion is proved to leave no
  dangling reference and to break no constraint.
- **The account forms** (`forms.dfy`, `store.dfy`):
  - PersonalForm's field checks and its form-level `clean`.
  - Its `save`, modelled imperatively on a `Store` class whose map fields are
    the tables and whose counters hand out primary keys.
  - RegistroUsuarioForm's checks and `save`.
- **The admin rules** (`admin.dfy`):
  - The Institucion singleton guard, over a log of admin actions.
  - The fields of a Bitácora entry that the inline on a Tarea and the
    standalone Bitácora admin let an edit change.

Modelling conventions:

- Dates are day numbers, and "today" is a parameter.
- `cantidad` is an integer number of hundredths, so `max_digits=10,
  decimal_places=2` means fewer than 10^10 hundredths.
- The framework's auth User is a record with an opaque password string.
- Primary keys are integers.
- The form being edited is identified by the primary key of its Personal row
  (`editing`), or None for a form that creates one.

Two behaviours of the code are easy to miss, and the model follows the code:

- Deleting a User deletes its Personal, because `Personal.usuario` is a
  one-to-one CASCADE. Deleting a Personal leaves its User in place.
- A task's `supervisor` and `personal_asignado` are CASCADE, so deleting a
  Personal deletes the Tareas they supervise or are assigned to, together with
  those tasks' log entries.

## Model

| member | source | states |
|---|---|---|
| Models.ParseTipoDependencia | tareas/models.py:58-62 | a stored code reads back as the Dependencia type whose code it is, and an unknown code as none |
| Models.ParseCategoria | tareas/models.py:108-114 | a category code reads back as its category; unknown codes give none |
| Models.ParseModalidad | tareas/models.py:116-120 | a modality code reads back as its modality; unknown codes give none |
| Models.ParseEstadoTarea | tareas/models.py:122-127 | a status code reads back as its status; unknown codes give none |
| Models.ParseTipoAccion | tareas/models.py:198-204 | an audit action code reads back as its action; unknown codes give none |
| Models.ChoiceCodesRoundTrip | tareas/models.py:58-204 | every choice's stored code parses back to that same choice (all five choice lists) |
| Models.ValidatePorcentaje | tareas/models.py:159-162 | the progress is accepted iff it is in 0..100, unchanged; below 0 fails the minimum validator, above 100 the maximum |
| Models.NewTarea | tareas/models.py:129-167 | the field defaults: pending, normal priority, 0%, shown, no participants, reassignment or real end date |
| Models.EstaVencida | tareas/models.py:177-180 | overdue: the planned end date is before today and progress is below 100 |
| Models.PuedeSerCompletada | tareas/models.py:182-184 | completable: progress is 100 and the status is not completed |
| Models.PorcentajeDisplay | tareas/models.py:186-195 | the progress CSS class, tested from 100 down |
| Models.ValidateCantidad | tareas/models.py:158 | a quantity is accepted, unchanged, iff its digit count is at most `max_digits`=10, which is exactly an absolute value below 10^10 hundredths; otherwise the error names the 10-digit limit (exact for quantities written with at most two decimals; see Left out) |
| Models.DigitsBelowPow10 | tareas/models.py:158 | a number has at most k decimal digits iff it is below 10^k |
| Models.NewTareaDefaults | tareas/models.py:129-167 | a task built from its required fields is pending, normal, at 0%, shown, with no participants, reassignment or real end date; it is valid iff its quantity is, not completable, and shown as 'danger' |
| Models.PorcentajeBands | tareas/models.py:186-195 | for any stored progress: 'success' exactly at 100, 'info' at 75..99 or above 100, 'warning' at 50..74, 'danger' below 50 |
| Models.PorcentajeDisplayMonotone | tareas/models.py:186-195 | up to 100, more progress never gives a worse band (above 100 the order breaks, see PorcentajeDisplayAboveRange) |
| Models.PorcentajeDisplayAboveRange | tareas/models.py:186-195 | progress above 100 shows as 'info' and is rejected by the validators, so the bands rely on them |
| Models.NeverOverdueAndCompletable | tareas/models.py:177-184 | no task is both overdue and completable |
| Models.BandAgreesWithDerivedFlags | tareas/models.py:177-195 | a completable task shows 'success'; an overdue one never does |
| Models.OverdueStaysOverdue | tareas/models.py:177-180 | a task overdue today is overdue on every later day until its progress changes |
| Models.CompletedNotCompletable | tareas/models.py:182-184 | a task already marked completed is never completable |
| Schema.PutParentsValid | tareas/models.py:57-79 | adding Dependencias and Users keeps every constraint when no key disappears and every coordinator exists |
| Schema.PutPersonalValid | tareas/models.py:78-87 | writing a Personal row keeps every constraint when its User and Dependencia exist and no other row has its cedula or its User |
| Schema.DeletePersonalPolicy | tareas/models.py:147-154 | deleting a Personal removes it and exactly the Tareas it supervises or is assigned to; every surviving Tarea and Dependencia row is the old one with links to it nulled and it dropped from participants; locations, Users and Instituciones are unchanged |
| Schema.DeletePersonalLogPolicy | tareas/models.py:206-207 | a log entry survives deleting a Personal iff it is not by that Personal and its Tarea survives; survivors are unchanged |
| Schema.DeleteUserPolicy | tareas/models.py:79 | deleting a User removes it and exactly the Personal linked to it; surviving Personal rows are unchanged |
| Schema.DeleteUserCascade | tareas/models.py:79 | with `usuario` one-to-one, deleting a User whose Personal is p is exactly removing the User row and then deleting p, so DeletePersonalPolicy and DeletePersonalLogPolicy give the whole result |
| Schema.DeleteUnlinkedUser | tareas/models.py:79 | deleting a User no Personal is linked to removes only that User row |
| Schema.DeleteDependenciaPolicy | tareas/models.py:86-87 | deleting a Dependencia removes only it; every Personal row is the old one with the link to it nulled; every other table is unchanged |
| Schema.DeleteTareasPolicy | tareas/models.py:206 | deleting Tareas removes exactly them and the log entries on them; everything else is unchanged |
| Schema.DeleteLocationsPolicy | tareas/models.py:137-138 | deleting municipios and parroquias removes exactly those, the Tareas located in any of them and their log entries; survivors are unchanged |
| Schema.DeleteParroquiaPolicy | tareas/models.py:138 | deleting a Parroquia removes it, exactly the Tareas in it and their log entries |
| Schema.DeleteMunicipioPolicy | tareas/models.py:29 | deleting a Municipio removes it, exactly its parroquias, the Tareas in either and their log entries |
| Schema.DeleteEstadoPolicy | tareas/models.py:17 | deleting an Estado removes exactly its municipios, their parroquias, the Tareas located there and their log entries |
| Schema.DeletePersonalsValid | tareas/models.py:147-154 | deleting any set of Personal rows, with its cascades, keeps every constraint |
| Schema.DeletePersonalsRefs | tareas/models.py:147-154 | after deleting Personal rows no foreign key dangles |
| Schema.DeletePersonalsKeys | tareas/models.py:80 | after deleting Personal rows the unique keys and validators still hold |
| Schema.DeletePersonalValid | tareas/models.py:66-207 | deleting one Personal keeps every constraint |
| Schema.DeleteUserValid | tareas/models.py:79 | deleting a User and, by cascade, its Personal keeps every constraint |
| Schema.DeleteDependenciaValid | tareas/models.py:86-87 | deleting a Dependencia keeps every constraint |
| Schema.DeleteTareasValid | tareas/models.py:206 | deleting tasks with their log entries keeps every constraint |
| Schema.DeleteLocationsValid | tareas/models.py:137-138 | deleting municipios with all their parroquias, and every task located in any of them, keeps every constraint |
| Schema.DeleteParroquiaValid | tareas/models.py:138 | deleting a Parroquia and its tasks keeps every constraint |
| Schema.DeleteMunicipioValid | tareas/models.py:29 | deleting a Municipio, its parroquias and their tasks keeps every constraint |
| Schema.DeleteEstadoValid | tareas/models.py:17 | deleting an Estado with everything that cascades from it keeps every constraint |
| Schema.EstadosOnlyConstrainMunicipios | tareas/models.py:17 | the estados table matters to the constraints only through the municipios that reference it |
| Schema.DeletePersonals | tareas/models.py:66-207 | deleting Personal rows with CASCADE to Tareas and log entries and SET_NULL on coordinators, Personal links and reassignments |
| Schema.DeleteUser | tareas/models.py:79 | deleting a User and, by CASCADE, its Personal |
| Schema.DeleteDependencia | tareas/models.py:86-87 | deleting a Dependencia with SET_NULL on Personal |
| Schema.DeleteTareas | tareas/models.py:206 | deleting Tareas with CASCADE to their log entries |
| Schema.DeleteLocations | tareas/models.py:137-138 | deleting municipios and parroquias with CASCADE to the Tareas located there |
| Schema.DeleteParroquia | tareas/models.py:138 | deleting a Parroquia |
| Schema.DeleteMunicipio | tareas/models.py:29 | deleting a Municipio with its parroquias |
| Schema.DeleteEstado | tareas/models.py:17 | deleting an Estado with its municipios |
| Forms.InstanceUser | tareas/forms.py:245-246 | the User left out of the checks is the edited row's linked User, and none for a new row (the intended reading, see Findings) |
| Forms.InstanceUsuarioAsWritten | tareas/forms.py:245 | as written, reading the new row's User raises exactly for a form that creates a Personal, and otherwise gives the edited row's User |
| Forms.ValidateAsWritten | tareas/forms.py:239-263 | is_valid() as written: raises when the accessor does, otherwise the modelled validation |
| Forms.NewPersonalFormRaises | tareas/forms.py:239-263 | as written, validating a form that creates a Personal raises for every posted value; an edit validates as modelled |
| Forms.NewPersonalAccepted | tareas/forms.py:226-263 | with the intended reading, a new Personal whose cedula, username and email nobody holds and whose Dependencia entry is complete validates with its data unchanged |
| Forms.CleanCedula | tareas/forms.py:226-237 | the cedula is accepted iff every row holding it is the edited row; the error is on the cedula field |
| Forms.CleanUsername | tareas/forms.py:239-250 | the username is accepted iff every User holding it is the edited row's own User |
| Forms.CleanEmail | tareas/forms.py:252-263 | the email is accepted iff every User holding it is the edited row's own User |
| Forms.ResaveOwnValuesAccepted | tareas/forms.py:226-263 | re-saving a row with its own cedula, username and email passes all three checks |
| Forms.NewRowChecksEveryRow | tareas/forms.py:231-233 | for a new row each check fails iff some existing row holds the value |
| Forms.DependenciaErrors | tareas/forms.py:208-218 | with the flag set, errors exactly on a missing name or type; without it, an error exactly on a missing Dependencia |
| Forms.Clean | tareas/forms.py:204-224 | the errors are those of the posted flag, and the flag is then forced on when no Dependencia exists; nothing else changes |
| Forms.CleanForcingFirst | tareas/forms.py:220-222 | with no Dependencia the flag is on, no missing-Dependencia error is raised, and the new name and type errors are reported exactly when those values are missing; otherwise the same as `clean`; nothing but the flag changes |
| Forms.CleanKeepsErrorAfterForcing | tareas/forms.py:204-224 | with no Dependencia, flag not posted and a complete new name and type, `clean` forces the flag yet reports the missing Dependencia; the corrected one reports nothing |
| Forms.CleanDependenciaChoice | tareas/forms.py:165-166 | a chosen Dependencia is accepted iff it exists (or none is chosen) |
| Forms.FieldErrors | tareas/forms.py:189-263 | the Dependencia choice, cedula, username and email errors are each present iff that check fails; with no Dependencia, the new name and type errors are present iff those values are missing (they are made required) |
| Forms.ValidateWith | tareas/forms.py:189-263 | the form validates iff no field check fails and `clean` raises nothing; it then returns the posted data, with the flag forced on when no Dependencia exists; an invalid one reports each uniqueness error exactly when its check fails |
| Forms.ValidateSound | tareas/forms.py:204-263 | a form validates iff its data is storable (unique values, complete Dependencia entry) and its chosen Dependencia exists; it then hands `save` its data unchanged; an invalid one reports exactly the failed uniqueness checks |
| Forms.Validate | tareas/forms.py:204-263 | PersonalForm.is_valid() as written (flag forced after the checks) |
| Forms.ValidateForcingFirst | tareas/forms.py:189-196 | the corrected is_valid(), with creation mode forced before the checks |
| Forms.ValidateNeedsPostedFlag | tareas/forms.py:189-222 | as written, with no Dependencia a form validates only if the client posted the flag, although the checkbox is rendered disabled |
| Forms.ValidateForcingFirstAcceptsFirstDependencia | tareas/forms.py:189-196 | with the flag forced first, a form that names a new Dependencia and passes the uniqueness checks validates when none exists, and is storable |
| Forms.ValidateForcingFirstSound | tareas/forms.py:204-224 | with the flag forced first, a validated form is still storable |
| Forms.RegistroCleanEmail | tareas/forms.py:82-89 | a registration email is accepted iff no User holds it |
| Forms.RegistroCleanUsername | tareas/forms.py:91-98 | a registration username is accepted iff no User holds it |
| Forms.RegistroValidate | tareas/forms.py:82-98 | registration validates iff both checks pass, returning the posted data; a rejected one reports the email and username errors each exactly when its check fails |
| Forms.RegistroHasNoSelfExclusion | tareas/forms.py:91-98 | an existing User's username is refused by registration while PersonalForm, editing that User's row, accepts it |
| Store.Store.SavePersonal | tareas/forms.py:265-306 | `save` on a validated form keeps every constraint and the counters above all keys; its new state is the saved-tables function of the old one; each key counter advances by one exactly when its table gets a new row; it returns the saved row's key |
| Store.Store.WritePersonal | tareas/forms.py:265-306 | the writes of `save` in source order leave the saved-tables function of the old state and advance each counter used by one |
| Store.Store.RegisterUser | tareas/forms.py:100-113 | registration keeps the constraints and adds one active User with the posted values only when committing, advancing the User key counter exactly then |
| Store.SaveDependenciaEffect | tareas/forms.py:272-279 | in creation mode exactly one Dependencia is added with the posted name and type, no coordinator, and linked to the row; otherwise the table is unchanged |
| Store.SaveCreatesUser | tareas/forms.py:282-291 | a new row gets exactly one new User with the posted username, email and names, and the posted password or the temporary one |
| Store.SaveUpdatesLinkedUser | tareas/forms.py:292-300 | an edited row's User is updated in place, keeping its active flag; the password changes only when a non-empty one is posted; other Users are unchanged |
| Store.SaveFrame | tareas/forms.py:265-306 | only the Dependencia, User and Personal tables change; without commit the Personal table is untouched while the Dependencia and User writes are the same as with it; other rows are kept |
| Store.PersonalSavedValid | tareas/forms.py:265-306 | on a validated form with fresh keys, the saved tables keep every constraint |
| Store.PersonalSavedStoreValid | tareas/forms.py:265-306 | the saved tables keep every constraint and stay below the advanced counters |
| Store.PersonalSavedKeepsUsersUnique | tareas/forms.py:239-263 | on a validated form, `save` keeps usernames and emails unique across Users |
| Store.UserRegisteredKeepsUsersUnique | tareas/forms.py:82-113 | a validated registration keeps usernames and emails unique and adds exactly one key when committing |
| Store.RegistrationNotRepeatable | tareas/forms.py:91-98 | the same registration submitted again after it committed is refused |
| Store.PersonalSaved | tareas/forms.py:265-306 | the tables after `save`: new Dependencia, new or updated User, and the Personal row when committing |
| Store.UserRegistered | tareas/forms.py:100-113 | the tables after registration: one new active User when committing |
| Admin.AddPermissionCases | tareas/admin.py:25-29 | adding is allowed iff the model permission holds and either no Institucion exists or the user is superuser |
| Admin.DeletePermissionIgnoresObject | tareas/admin.py:31-33 | deleting is allowed iff the user is superuser, for every object |
| Admin.SuperuserNeverBlocked | tareas/admin.py:27-33 | for a superuser the existence check never blocks adding, and deleting is allowed |
| Admin.HasAddPermission | tareas/admin.py:25-29 | has_add_permission: false for a non-superuser once an Institucion exists, else the model permission |
| Admin.HasDeletePermission | tareas/admin.py:31-33 | has_delete_permission: the user is superuser |
| Admin.ApplyOp | tareas/admin.py:25-33 | a permitted add appends the row and a permitted delete of an existing row removes exactly it; a refused add, a non-superuser delete and a delete of a missing row change nothing; the table grows only with the model permission and from empty or for a superuser, and shrinks only for a superuser |
| Admin.Run | tareas/admin.py:25-33 | a log of admin actions applied in order |
| Admin.NonSuperusersKeepSingleton | tareas/admin.py:25-29 | from at most one Institucion, any run of non-superuser actions leaves at most one and keeps the existing row |
| Admin.EmptyTableSingleton | tareas/admin.py:25-29 | from none, non-superusers can create at most one Institucion |
| Admin.SuperuserAddsSecond | tareas/admin.py:27 | the guard does not bind a superuser, who can add a second Institucion |
| Admin.InlineKeepsLoggedFacts | tareas/admin.py:48-52 | through the inline no log entry is deleted, and each keeps its task, author, action, description and date |
| Admin.ApplyEdit | tareas/admin.py:51 | a saved change form: read-only fields keep the stored value, the others take the posted one |
| Admin.FormsetSave | tareas/admin.py:48-52 | a saved inline formset never has more rows than it showed; without deletion it keeps every row, each saved as its edit with the fixed fields kept |
| Admin.InlineSave | tareas/admin.py:48-52 | the Bitácora inline over the rows shown: no deletion, its read-only fields and the parent Tarea kept |
| Admin.InlineSubmit | tareas/admin.py:48-52 | a submitted inline raises iff an extra "Add another" form was filled in (its entry has no author, and `personal` is not nullable); otherwise it is the save of the rows shown |
| Admin.InlineNeverAddsEntries | tareas/admin.py:48-52 | a save through the inline that goes through keeps exactly the entries shown, with their authors and actions, and adds none |
| Admin.InlinePayloadsAt | tareas/admin.py:48-52 | the inline saves each entry as its edit with the read-only fields and its Tarea kept |
| Admin.InlineEditsPayloads | tareas/admin.py:48-52 | through the inline only the before/after payloads take the posted values |
| Admin.AdminEditKeepsOnlyDate | tareas/admin.py:85-91 | the standalone admin keeps only the entry's date and takes every other posted value |
| Admin.AdminEditCanRewriteEntry | tareas/admin.py:90 | through the standalone admin an entry's action and author can be rewritten, so the log is not immutable |

## Left out

- Widgets, labels, help texts, list displays, filters, search fields, the
  `__str__` methods and the `nombre_completo` display property are
  presentation only.
- Views and URL routing are not part of this model. The views do not use the
  modelled forms.
- Password hashing and the framework's UserCreationForm are left out. This
  covers the password1/password2 match and the password strength validators.
  The password is stored as an opaque string.
- The framework's required-field and email-format checks are left out, as are
  CharField `max_length` limits. The model takes posted values as already
  converted by the field types.
- `timezone.now()` is replaced by the `today` parameter. `auto_now_add`
  timestamps (`fecha_creacion`) are not modelled.
- Images (`Institucion.logo`) are not modelled. The Bitácora payloads
  (`datos_anteriores`, `datos_nuevos`) are opaque optional strings, not JSON.
- No code in the repository creates Bitácora entries or enforces status
  transitions. `estado_tarea` is edited freely in TareaAdmin's change form
  (tareas/admin.py:64-67), and the standalone Bitácora admin can add entries;
  the model keeps only the constraints on these rows, the admin edit rules and
  how deletions cascade to them.
- Admin.NonSuperusersKeepSingleton: the existence check and the insert in
  `has_add_permission` are not atomic, so two concurrent adds from an empty
  table can both pass; the model applies admin actions one at a time.
- Schema.Valid: includes the progress and quantity validators as if they were
  stored invariants. The framework runs them only in `full_clean` (admin and
  model forms), so a direct `save()` can store values outside them.
- Forms.FieldErrors: the required new-Dependencia name and type
  (tareas/forms.py:195-196) are modelled; the other required-field checks
  are not (see above).
- Admin.FormsetSave: its rows are the forms for the entries shown; the
  inline's extra "Add another" forms are modelled by `Admin.InlineSubmit`
  only as the error they end in, not as rows.
- Nothing checks that a task's `parroquia` lies in its `municipio`; the
  model does not add that check.
- Models.ValidateCantidad: checks only the 10-digit limit, since
  `decimal_places=2` is already built into the hundredths representation. A
  negative quantity is accepted, as the field accepts it. The framework's
  decimal validator counts digits as the number is written: a value with more
  than 8 whole digits but at most 10 digits in all (such as 123456789) is
  refused for its whole digits rather than its total, and extra trailing
  decimals (such as 1.500) are refused. The hundredths value does not record
  how the number was written, so the model reports every refusal as the
  10-digit one and accepts extra trailing zeros.
- Store.Store.SavePersonal: the Dependencia, User and Personal writes are
  not wrapped in a transaction. The model writes them in source order, and
  `Store.SaveFrame` states that the first two are the same with or without
  commit. A failure between them is not modelled.
- Forms.InstanceUser: for a form that creates a Personal, the framework's
  one-to-one accessor raises when `instance.usuario` is read before a User is
  linked (tareas/forms.py:245, 258 and 282). `Forms.InstanceUsuarioAsWritten`
  and `Forms.ValidateAsWritten` model that raise; `Forms.InstanceUser`,
  `Forms.CleanUsername`, `Forms.CleanEmail`, `Forms.NewRowChecksEveryRow`,
  `Store.SaveCreatesUser` and `Store.Store.SavePersonal` use the intended
  "no User" reading instead (see Findings).
- Store.Store.SavePersonal: `save_m2m` is a no-op here, because the form has
  no many-to-many field.
- Username and email uniqueness across Users are stated as
  `Store.UniqueUsernames` / `Store.UniqueEmails` and proved preserved by both
  forms. They are not part of `Schema.Valid`, because the auth User table
  belongs to the framework.
- Store.UniqueEmails: no table constraint backs email uniqueness; both forms
  check and then insert, so two concurrent registrations or PersonalForm
  saves can both pass the check, and the framework's own User admin does not
  check it at all. The preservation lemmas hold only for saves applied one at
  a time through these two forms.
- Admin.ApplyOp: the base `has_add_permission` (the user's model permission)
  and the admin's own request handling are inputs (`Actor.modelAddPermission`).
  They are not modelled.
- tareas/context_processors.py, the staff search form and the dashboard
  views are not part of this model.

## Findings

| source | as written | input that shows it | evidently intended | confidence | as-written member | corrected member |
|---|---|---|---|---|---|---|
| tareas/forms.py:204-224 | `clean` decides the Dependencia errors from the posted `crear_nueva_dependencia` flag, and forces the flag on only afterwards when no Dependencia exists | editing an existing Personal (a new one raises first, see the next row); an empty Dependencia table; the flag not posted (its checkbox is rendered disabled); no Dependencia chosen; a new name and type filled in | with no Dependencia, the form is in creation mode before the fields are checked, so a complete new-Dependencia entry validates | not executed | Forms.CleanKeepsErrorAfterForcing | Forms.ValidateForcingFirstAcceptsFirstDependencia |
| tareas/forms.py:239-263 | `clean_username` and `clean_email` test `instance and instance.usuario`; on a creating form the instance is an unsaved Personal, which is truthy, and reading its unset non-null one-to-one `usuario` raises RelatedObjectDoesNotExist, which is not a validation error | any post on a form that creates a Personal (no instance passed) whose username or email passes its own field check, so that the hook reading `instance.usuario` runs | a new Personal has no User, so nothing is excluded from the checks and the form validates on unique values | not executed | Forms.NewPersonalFormRaises | Forms.NewPersonalAccepted |
