/**
 * The writes of tareas/forms.py: PersonalForm.save and
 * RegistroUsuarioForm.save, as methods of a store that holds one map per
 * table and one auto-increment counter per table they insert into.
 *
 * Each method is proved against a function on table snapshots
 * (PersonalSaved, UserRegistered); the lemmas after the class state what that
 * function promises: which rows are inserted or updated, what is left alone,
 * and that the integrity constraints and the uniqueness the forms check
 * survive the write.
 */
module Store {
  import opened Wrappers
  import opened Models
  import opened Schema
  import opened Forms

  /** The password `save` gives a new User when the form leaves it empty. */
  const TempPassword: string := "temp_password_123"

  /** No two Users share a username (the auth table's unique key, checked by both forms). */
  predicate UniqueUsernames(users: map<Id, User>) {
    forall u, v :: u in users && v in users && users[u].username == users[v].username ==> u == v
  }

  /** No two Users share an email (checked by both forms, not enforced by the table). */
  predicate UniqueEmails(users: map<Id, User>) {
    forall u, v :: u in users && v in users && users[u].email == users[v].email ==> u == v
  }

  // ---------------------------------------------------------------------------
  // The rows `save` writes
  // ---------------------------------------------------------------------------

  /** The Dependencia created in creation mode, described after the new Personal. */
  function NuevaDependencia(data: PersonalData): Dependencia
    requires data.nuevaDependenciaTipo.Some?
  {
    Dependencia(data.nuevaDependenciaNombre, data.nuevaDependenciaTipo.value, None,
                Some("Creada automáticamente para " + data.nombre + " " + data.apellido))
  }

  /** The User created for a Personal without one. */
  function NewUser(data: PersonalData): User {
    User(data.username, data.email, data.nombre, data.apellido,
         if data.password == "" then TempPassword else data.password, true)
  }

  /** The linked User after an edit: the password only changes when one was typed. */
  function UpdatedUser(u: User, data: PersonalData): User {
    u.(username := data.username, email := data.email, firstName := data.nombre,
       lastName := data.apellido, password := if data.password == "" then u.password else data.password)
  }

  /**
   * The Personal row the form builds: the posted fields over the edited row
   * (or over the defaults of a new one), linked to `dependencia` and `usuario`.
   */
  function BuiltPersonal(data: PersonalData, prior: Option<Personal>, dependencia: Option<Id>, usuario: Id): Personal {
    Personal(usuario, data.cedula, data.nombre, data.apellido, data.fechaNac, data.fechaIngreso,
             dependencia, data.telefono, data.direccion,
             if prior.Some? then prior.value.usuarioCreado else false,
             if prior.Some? then prior.value.passwordTemporal else None,
             if prior.Some? then prior.value.fechaPrimerAcceso else None)
  }

  /** The Personal row being edited must exist, with its User. */
  predicate EditTarget(db: Db, editing: Option<Id>) {
    editing.Some? ==> editing.value in db.personal && db.personal[editing.value].usuario in db.users
  }

  /**
   * The tables after PersonalForm.save(commit): the new Dependencia (key
   * `depId`) in creation mode, then the new User (key `userId`) or the update
   * of the linked one, then, only when committing, the Personal row itself
   * (key `personalId` when new).
   */
  function PersonalSaved(db: Db, data: PersonalData, editing: Option<Id>, commit: bool,
                         depId: Id, userId: Id, personalId: Id): Db
    requires EditTarget(db, editing)
    requires data.crearNuevaDependencia ==> data.nuevaDependenciaTipo.Some?
  {
    var dependencias := if data.crearNuevaDependencia then db.dependencias[depId := NuevaDependencia(data)]
                        else db.dependencias;
    var dependencia := if data.crearNuevaDependencia then Some(depId) else data.dependencia;
    var usuario := if editing.None? then userId else db.personal[editing.value].usuario;
    var users := if editing.None? then db.users[userId := NewUser(data)]
                 else db.users[usuario := UpdatedUser(db.users[usuario], data)];
    var prior := if editing.Some? then Some(db.personal[editing.value]) else None;
    var pk := if editing.Some? then editing.value else personalId;
    var personal := if commit then db.personal[pk := BuiltPersonal(data, prior, dependencia, usuario)]
                    else db.personal;
    db.(dependencias := dependencias, users := users, personal := personal)
  }

  /** The tables after RegistroUsuarioForm.save(commit): an active User when committing. */
  function UserRegistered(users: map<Id, User>, data: RegistroData, commit: bool, userId: Id): map<Id, User> {
    if commit then users[userId := User(data.username, data.email, data.firstName, data.lastName, data.password, true)]
    else users
  }

  /** The constraints hold and every counter is above the keys of its table. */
  predicate StoreValid(db: Db, nextDependenciaId: Id, nextUserId: Id, nextPersonalId: Id) {
    && Schema.Valid(db)
    && (forall k :: k in db.dependencias ==> k < nextDependenciaId)
    && (forall k :: k in db.users ==> k < nextUserId)
    && (forall k :: k in db.personal ==> k < nextPersonalId)
  }

  // ---------------------------------------------------------------------------
  // The store
  // ---------------------------------------------------------------------------

  class Store {
    var estados: map<Id, Estado>
    var municipios: map<Id, Municipio>
    var parroquias: map<Id, Parroquia>
    var instituciones: map<Id, Institucion>
    var dependencias: map<Id, Dependencia>
    var users: map<Id, User>
    var personal: map<Id, Personal>
    var tareas: map<Id, Tarea>
    var bitacoras: map<Id, Bitacora>

    /** The next key of each table `save` inserts into. */
    var nextDependenciaId: Id
    var nextUserId: Id
    var nextPersonalId: Id

    function Snapshot(): Db
      reads this
    {
      Db(estados, municipios, parroquias, instituciones, dependencias, users, personal, tareas, bitacoras)
    }

    /** The constraints hold and every counter is above the keys of its table. */
    ghost predicate Valid()
      reads this
    {
      StoreValid(Snapshot(), nextDependenciaId, nextUserId, nextPersonalId)
    }

    constructor ()
      ensures Valid()
      ensures Snapshot() == Db(map[], map[], map[], map[], map[], map[], map[], map[], map[])
    {
      estados, municipios, parroquias, instituciones := map[], map[], map[], map[];
      dependencias, users, personal, tareas, bitacoras := map[], map[], map[], map[], map[];
      nextDependenciaId, nextUserId, nextPersonalId := 1, 1, 1;
    }

    /**
     * PersonalForm.save(commit) on a validated form. Returns the key of the
     * Personal row: the saved one, or, without commit, the edited one (None
     * for a new row, which stays unsaved).
     */
    method SavePersonal(data: PersonalData, editing: Option<Id>, commit: bool) returns (pk: Option<Id>)
      requires Valid()
      requires EditTarget(Snapshot(), editing)
      requires Saveable(Snapshot(), data, editing)
      modifies this
      ensures Valid()
      ensures Snapshot() == PersonalSaved(old(Snapshot()), data, editing, commit,
                                          old(nextDependenciaId), old(nextUserId), old(nextPersonalId))
      ensures nextDependenciaId == if data.crearNuevaDependencia then old(nextDependenciaId) + 1 else old(nextDependenciaId)
      ensures nextUserId == if editing.None? then old(nextUserId) + 1 else old(nextUserId)
      ensures nextPersonalId == if commit && editing.None? then old(nextPersonalId) + 1 else old(nextPersonalId)
      ensures pk == (if commit && editing.None? then Some(old(nextPersonalId)) else editing)
    {
      PersonalSavedStoreValid(Snapshot(), data, editing, commit, nextDependenciaId, nextUserId, nextPersonalId);
      pk := WritePersonal(data, editing, commit);
    }

    /** The writes of `save`, in the order the form performs them. */
    method WritePersonal(data: PersonalData, editing: Option<Id>, commit: bool) returns (pk: Option<Id>)
      requires EditTarget(Snapshot(), editing)
      requires data.crearNuevaDependencia ==> data.nuevaDependenciaTipo.Some?
      modifies this
      ensures Snapshot() == PersonalSaved(old(Snapshot()), data, editing, commit,
                                          old(nextDependenciaId), old(nextUserId), old(nextPersonalId))
      ensures nextDependenciaId == if data.crearNuevaDependencia then old(nextDependenciaId) + 1 else old(nextDependenciaId)
      ensures nextUserId == if editing.None? then old(nextUserId) + 1 else old(nextUserId)
      ensures nextPersonalId == if commit && editing.None? then old(nextPersonalId) + 1 else old(nextPersonalId)
      ensures pk == (if commit && editing.None? then Some(old(nextPersonalId)) else editing)
    {
      var dependencia := data.dependencia;
      if data.crearNuevaDependencia {
        var id := InsertDependencia(NuevaDependencia(data));
        dependencia := Some(id);
      }
      var usuario: Id;
      var prior: Option<Personal> := None;
      if editing.None? {
        usuario := InsertUser(NewUser(data));
      } else {
        prior := Some(personal[editing.value]);
        usuario := personal[editing.value].usuario;
        users := users[usuario := UpdatedUser(users[usuario], data)];
      }
      pk := editing;
      if commit {
        var row := BuiltPersonal(data, prior, dependencia, usuario);
        if editing.Some? {
          personal := personal[editing.value := row];
        } else {
          var key := InsertPersonal(row);
          pk := Some(key);
        }
      }
    }

    /** Inserts a Dependencia under the next key of its table. */
    method InsertDependencia(d: Dependencia) returns (id: Id)
      modifies this`dependencias, this`nextDependenciaId
      ensures id == old(nextDependenciaId) && nextDependenciaId == id + 1
      ensures dependencias == old(dependencias)[id := d]
    {
      id := nextDependenciaId;
      dependencias := dependencias[id := d];
      nextDependenciaId := id + 1;
    }

    /** Inserts a User under the next key of its table. */
    method InsertUser(u: User) returns (id: Id)
      modifies this`users, this`nextUserId
      ensures id == old(nextUserId) && nextUserId == id + 1
      ensures users == old(users)[id := u]
    {
      id := nextUserId;
      users := users[id := u];
      nextUserId := id + 1;
    }

    /** Inserts a Personal under the next key of its table. */
    method InsertPersonal(p: Personal) returns (id: Id)
      modifies this`personal, this`nextPersonalId
      ensures id == old(nextPersonalId) && nextPersonalId == id + 1
      ensures personal == old(personal)[id := p]
    {
      id := nextPersonalId;
      personal := personal[id := p];
      nextPersonalId := id + 1;
    }

    /** RegistroUsuarioForm.save(commit) on a validated form; returns the new User's key when committing. */
    method RegisterUser(data: RegistroData, commit: bool) returns (uid: Option<Id>)
      requires Valid()
      requires RegistroValidate(users, data).Ok?
      modifies this
      ensures Valid()
      ensures Snapshot() == old(Snapshot()).(users := UserRegistered(old(users), data, commit, old(nextUserId)))
      ensures uid == (if commit then Some(old(nextUserId)) else None)
      ensures nextUserId == if commit then old(nextUserId) + 1 else old(nextUserId)
    {
      uid := None;
      if commit {
        users := users[nextUserId := User(data.username, data.email, data.firstName, data.lastName, data.password, true)];
        uid := Some(nextUserId);
        nextUserId := nextUserId + 1;
      }
    }
  }

  // ---------------------------------------------------------------------------
  // What PersonalForm.save promises
  // ---------------------------------------------------------------------------

  /** In creation mode exactly one Dependencia is added, with the posted name and type; otherwise none. */
  lemma SaveDependenciaEffect(db: Db, data: PersonalData, editing: Option<Id>, commit: bool,
                              depId: Id, userId: Id, personalId: Id)
    requires EditTarget(db, editing)
    requires data.crearNuevaDependencia ==> data.nuevaDependenciaTipo.Some?
    requires depId !in db.dependencias
    ensures var r := PersonalSaved(db, data, editing, commit, depId, userId, personalId);
      if data.crearNuevaDependencia then
        && r.dependencias.Keys == db.dependencias.Keys + {depId}
        && |r.dependencias| == |db.dependencias| + 1
        && r.dependencias[depId].nombre == data.nuevaDependenciaNombre
        && r.dependencias[depId].tipo == data.nuevaDependenciaTipo.value
        && r.dependencias[depId].coordinador.None?
        && (forall d :: d in db.dependencias ==> r.dependencias[d] == db.dependencias[d])
        && (commit ==> r.personal[if editing.Some? then editing.value else personalId].dependencia == Some(depId))
      else
        && r.dependencias == db.dependencias
        && (commit ==> r.personal[if editing.Some? then editing.value else personalId].dependencia == data.dependencia)
  {
  }

  /**
   * A Personal without a User gets exactly one new User holding the posted
   * username, email and names, and the posted password or the temporary one.
   */
  lemma SaveCreatesUser(db: Db, data: PersonalData, commit: bool, depId: Id, userId: Id, personalId: Id)
    requires data.crearNuevaDependencia ==> data.nuevaDependenciaTipo.Some?
    requires userId !in db.users
    ensures var r := PersonalSaved(db, data, None, commit, depId, userId, personalId);
      && r.users.Keys == db.users.Keys + {userId}
      && |r.users| == |db.users| + 1
      && r.users[userId].username == data.username
      && r.users[userId].email == data.email
      && r.users[userId].firstName == data.nombre
      && r.users[userId].lastName == data.apellido
      && r.users[userId].password == (if data.password == "" then TempPassword else data.password)
      && (forall u :: u in db.users ==> r.users[u] == db.users[u])
      && (commit ==> r.personal[personalId].usuario == userId)
  {
  }

  /**
   * A Personal with a User updates that User in place: the other Users and
   * the set of keys are unchanged, and the password only changes when a
   * non-empty one was posted.
   */
  lemma SaveUpdatesLinkedUser(db: Db, data: PersonalData, pk: Id, commit: bool, depId: Id, userId: Id, personalId: Id)
    requires EditTarget(db, Some(pk))
    requires data.crearNuevaDependencia ==> data.nuevaDependenciaTipo.Some?
    ensures var r := PersonalSaved(db, data, Some(pk), commit, depId, userId, personalId);
            var u := db.personal[pk].usuario;
      && r.users.Keys == db.users.Keys
      && r.users[u].username == data.username
      && r.users[u].email == data.email
      && r.users[u].firstName == data.nombre
      && r.users[u].lastName == data.apellido
      && r.users[u].isActive == db.users[u].isActive
      && (r.users[u].password != db.users[u].password ==> data.password != "")
      && (data.password != "" ==> r.users[u].password == data.password)
      && (forall v :: v in db.users && v != u ==> r.users[v] == db.users[v])
      && (commit ==> r.personal[pk].usuario == u)
  {
  }

  /**
   * `save` touches only the Dependencia, User and Personal tables; without
   * commit the Personal table is untouched, but the Dependencia and User
   * writes happen all the same (there is no transaction around them).
   */
  lemma SaveFrame(db: Db, data: PersonalData, editing: Option<Id>, commit: bool, depId: Id, userId: Id, personalId: Id)
    requires EditTarget(db, editing)
    requires personalId !in db.personal
    requires data.crearNuevaDependencia ==> data.nuevaDependenciaTipo.Some?
    ensures var r := PersonalSaved(db, data, editing, commit, depId, userId, personalId);
      && r.estados == db.estados && r.municipios == db.municipios && r.parroquias == db.parroquias
      && r.instituciones == db.instituciones && r.tareas == db.tareas && r.bitacoras == db.bitacoras
      && (!commit ==> r.personal == db.personal)
      && (commit ==> r.personal.Keys == db.personal.Keys + {if editing.Some? then editing.value else personalId})
      && (forall p :: p in db.personal && Some(p) != editing ==> p in r.personal && r.personal[p] == db.personal[p])
    ensures var withCommit := PersonalSaved(db, data, editing, true, depId, userId, personalId);
            var without := PersonalSaved(db, data, editing, false, depId, userId, personalId);
      withCommit.dependencias == without.dependencias && withCommit.users == without.users
  {
  }

  /**
   * On a validated form with fresh keys, `save` keeps every integrity
   * constraint: cedula stays unique because the check left out only the edited
   * row, the User link stays one-to-one because a new Personal gets a new User.
   */
  lemma PersonalSavedValid(db: Db, data: PersonalData, editing: Option<Id>, commit: bool,
                           depId: Id, userId: Id, personalId: Id)
    requires Valid(db)
    requires EditTarget(db, editing)
    requires Saveable(db, data, editing)
    requires depId !in db.dependencias && userId !in db.users && personalId !in db.personal
    ensures Valid(PersonalSaved(db, data, editing, commit, depId, userId, personalId))
  {
    var dependencias := if data.crearNuevaDependencia then db.dependencias[depId := NuevaDependencia(data)]
                        else db.dependencias;
    var usuario := if editing.None? then userId else db.personal[editing.value].usuario;
    var users := if editing.None? then db.users[userId := NewUser(data)]
                 else db.users[usuario := UpdatedUser(db.users[usuario], data)];
    PutParentsValid(db, dependencias, users);
    var mid := db.(dependencias := dependencias, users := users);
    if commit {
      var dependencia := if data.crearNuevaDependencia then Some(depId) else data.dependencia;
      var prior := if editing.Some? then Some(db.personal[editing.value]) else None;
      var pk := if editing.Some? then editing.value else personalId;
      var row := BuiltPersonal(data, prior, dependencia, usuario);
      forall p | p in mid.personal && p != pk
        ensures mid.personal[p].cedula != row.cedula && mid.personal[p].usuario != row.usuario
      {
        assert Some(p) != editing;
        if editing.Some? {
          assert db.personal[p].usuario != db.personal[pk].usuario;
        } else {
          assert db.personal[p].usuario in db.users;
        }
      }
      PutPersonalValid(mid, pk, row);
      assert PersonalSaved(db, data, editing, commit, depId, userId, personalId)
          == mid.(personal := mid.personal[pk := row]);
    } else {
      assert PersonalSaved(db, data, editing, commit, depId, userId, personalId) == mid;
    }
  }

  /** `save` keeps the store's constraints and moves each counter past the key it used. */
  lemma PersonalSavedStoreValid(db: Db, data: PersonalData, editing: Option<Id>, commit: bool,
                                nd: Id, nu: Id, np: Id)
    requires StoreValid(db, nd, nu, np)
    requires EditTarget(db, editing)
    requires Saveable(db, data, editing)
    ensures StoreValid(PersonalSaved(db, data, editing, commit, nd, nu, np),
                       if data.crearNuevaDependencia then nd + 1 else nd,
                       if editing.None? then nu + 1 else nu,
                       if commit && editing.None? then np + 1 else np)
  {
    PersonalSavedValid(db, data, editing, commit, nd, nu, np);
    var r := PersonalSaved(db, data, editing, commit, nd, nu, np);
    assert r.dependencias.Keys <= db.dependencias.Keys + {nd};
    assert r.users.Keys <= db.users.Keys + {nu};
    assert r.personal.Keys <= db.personal.Keys + {np} + (if editing.Some? then {editing.value} else {});
  }

  /**
   * On a validated form, `save` keeps usernames and emails unique: the checks
   * left out only the User that the save overwrites.
   */
  lemma PersonalSavedKeepsUsersUnique(db: Db, data: PersonalData, editing: Option<Id>, commit: bool,
                                      depId: Id, userId: Id, personalId: Id)
    requires EditTarget(db, editing)
    requires Saveable(db, data, editing)
    requires userId !in db.users
    requires UniqueUsernames(db.users) && UniqueEmails(db.users)
    ensures var r := PersonalSaved(db, data, editing, commit, depId, userId, personalId);
      UniqueUsernames(r.users) && UniqueEmails(r.users)
  {
    var u := if editing.None? then userId else db.personal[editing.value].usuario;
    assert InstanceUser(db.personal, editing) == if editing.None? then None else Some(u);
    var x := if editing.None? then NewUser(data) else UpdatedUser(db.users[u], data);
    forall v | v in db.users && v != u
      ensures db.users[v].username != x.username && db.users[v].email != x.email
    {
    }
    WriteKeepsUsersUnique(db.users, u, x);
    assert PersonalSaved(db, data, editing, commit, depId, userId, personalId).users == db.users[u := x];
  }

  /** Writing a User whose username and email no other User has keeps both unique. */
  lemma WriteKeepsUsersUnique(users: map<Id, User>, u: Id, x: User)
    requires UniqueUsernames(users) && UniqueEmails(users)
    requires forall v :: v in users && v != u ==> users[v].username != x.username && users[v].email != x.email
    ensures UniqueUsernames(users[u := x]) && UniqueEmails(users[u := x])
  {
  }

  /** Registration keeps usernames and emails unique, having checked against every User. */
  lemma UserRegisteredKeepsUsersUnique(users: map<Id, User>, data: RegistroData, commit: bool, userId: Id)
    requires RegistroValidate(users, data).Ok?
    requires userId !in users
    requires UniqueUsernames(users) && UniqueEmails(users)
    ensures UniqueUsernames(UserRegistered(users, data, commit, userId))
    ensures UniqueEmails(UserRegistered(users, data, commit, userId))
    ensures commit ==> UserRegistered(users, data, commit, userId).Keys == users.Keys + {userId}
  {
    var r := UserRegistered(users, data, commit, userId);
    if commit {
      forall v | v in r && v != userId
        ensures r[v].username != r[userId].username && r[v].email != r[userId].email
      {
        assert v in users;
      }
    }
  }

  /**
   * A repeated registration of the same data is always refused: after the
   * first one commits, its username (and email) is taken.
   */
  lemma RegistrationNotRepeatable(users: map<Id, User>, data: RegistroData, userId: Id)
    ensures RegistroValidate(UserRegistered(users, data, true, userId), data).Err?
  {
    assert UserRegistered(users, data, true, userId)[userId].username == data.username;
  }
}
