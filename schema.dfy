/**
 * The database of tareas/models.py as in-memory tables, its integrity
 * constraints (foreign keys, unique keys, field validators) and the deletion
 * policy of every foreign key: which rows a deletion cascades to and which
 * references it sets to null. Each deletion is proved to keep the constraints.
 */
module Schema {
  import opened Wrappers
  import opened Models

  /** One map per table, from primary key to row. */
  datatype Db = Db(estados: map<Id, Estado>,
                   municipios: map<Id, Municipio>,
                   parroquias: map<Id, Parroquia>,
                   instituciones: map<Id, Institucion>,
                   dependencias: map<Id, Dependencia>,
                   users: map<Id, User>,
                   personal: map<Id, Personal>,
                   tareas: map<Id, Tarea>,
                   bitacoras: map<Id, Bitacora>)

  // ---------------------------------------------------------------------------
  // Integrity constraints
  // ---------------------------------------------------------------------------

  /** A nullable foreign key: null, or the key of an existing row. */
  predicate NullableRef(r: Option<Id>, keys: set<Id>) {
    r.None? || r.value in keys
  }

  /** Every foreign key of a task names an existing row. */
  predicate TareaRefs(t: Tarea, municipios: set<Id>, parroquias: set<Id>, personal: set<Id>) {
    && t.municipio in municipios
    && t.parroquia in parroquias
    && t.participantes <= personal
    && t.supervisor in personal
    && t.personalAsignado in personal
    && NullableRef(t.personalReasignado, personal)
  }

  /** No dangling foreign key in any table. */
  predicate RefsValid(db: Db) {
    && (forall m :: m in db.municipios ==> db.municipios[m].estado in db.estados)
    && (forall p :: p in db.parroquias ==> db.parroquias[p].municipio in db.municipios)
    && (forall d :: d in db.dependencias ==>
          NullableRef(db.dependencias[d].coordinador, db.personal.Keys))
    && (forall p :: p in db.personal ==>
          db.personal[p].usuario in db.users
          && NullableRef(db.personal[p].dependencia, db.dependencias.Keys))
    && (forall t :: t in db.tareas ==>
          TareaRefs(db.tareas[t], db.municipios.Keys, db.parroquias.Keys, db.personal.Keys))
    && (forall b :: b in db.bitacoras ==>
          db.bitacoras[b].tarea in db.tareas && db.bitacoras[b].personal in db.personal)
  }

  /** `Personal.cedula` is unique. */
  predicate UniqueCedula(personal: map<Id, Personal>) {
    forall p, q :: p in personal && q in personal && personal[p].cedula == personal[q].cedula ==> p == q
  }

  /** `Personal.usuario` is one-to-one: no User is linked twice. */
  predicate UniqueUsuario(personal: map<Id, Personal>) {
    forall p, q :: p in personal && q in personal && personal[p].usuario == personal[q].usuario ==> p == q
  }

  /** `Municipio.cod_mun` is unique. */
  predicate UniqueCodMun(municipios: map<Id, Municipio>) {
    forall m, n :: m in municipios && n in municipios && municipios[m].codMun == municipios[n].codMun ==> m == n
  }

  /** `(Parroquia.municipio, Parroquia.cod_parroquia)` is unique together. */
  predicate UniqueParroquia(parroquias: map<Id, Parroquia>) {
    forall p, q ::
      (p in parroquias && q in parroquias
       && parroquias[p].municipio == parroquias[q].municipio
       && parroquias[p].codParroquia == parroquias[q].codParroquia) ==> p == q
  }

  /** Every stored row satisfies the unique constraints and its field validators. */
  predicate KeysValid(db: Db) {
    && UniqueCedula(db.personal)
    && UniqueUsuario(db.personal)
    && UniqueCodMun(db.municipios)
    && UniqueParroquia(db.parroquias)
    && (forall t :: t in db.tareas ==> ValidTarea(db.tareas[t]))
  }

  predicate Valid(db: Db) {
    RefsValid(db) && KeysValid(db)
  }

  // ---------------------------------------------------------------------------
  // Writes that keep the constraints
  // ---------------------------------------------------------------------------

  /**
   * Adding or updating Dependencia and User rows keeps the constraints as long
   * as no key disappears and every coordinator names an existing Personal.
   */
  lemma PutParentsValid(db: Db, dependencias: map<Id, Dependencia>, users: map<Id, User>)
    requires Valid(db)
    requires db.dependencias.Keys <= dependencias.Keys && db.users.Keys <= users.Keys
    requires forall d :: d in dependencias ==> NullableRef(dependencias[d].coordinador, db.personal.Keys)
    ensures Valid(db.(dependencias := dependencias, users := users))
  {
  }

  /**
   * Writing a Personal row under key `pk` keeps the constraints when its links
   * exist and no other row holds its cedula or its User.
   */
  lemma PutPersonalValid(db: Db, pk: Id, row: Personal)
    requires Valid(db)
    requires row.usuario in db.users && NullableRef(row.dependencia, db.dependencias.Keys)
    requires forall p :: p in db.personal && p != pk ==> db.personal[p].cedula != row.cedula
    requires forall p :: p in db.personal && p != pk ==> db.personal[p].usuario != row.usuario
    ensures Valid(db.(personal := db.personal[pk := row]))
  {
  }

  // ---------------------------------------------------------------------------
  // Deletion policies
  // ---------------------------------------------------------------------------

  /** SET_NULL on `Dependencia.coordinador` when its Personal is deleted. */
  function Uncoordinate(d: Dependencia, ps: set<Id>): Dependencia {
    if d.coordinador.Some? && d.coordinador.value in ps then d.(coordinador := None) else d
  }

  /** SET_NULL on `personal_reasignado`; the many-to-many link rows go with the Personal. */
  function DetachPersonal(t: Tarea, ps: set<Id>): Tarea {
    t.(participantes := t.participantes - ps,
       personalReasignado :=
         if t.personalReasignado.Some? && t.personalReasignado.value in ps then None
         else t.personalReasignado)
  }

  /** The Tareas that a deletion of the Personal rows `ps` cascades to. */
  function TareasOf(tareas: map<Id, Tarea>, ps: set<Id>): set<Id> {
    set t | t in tareas && (tareas[t].supervisor in ps || tareas[t].personalAsignado in ps)
  }

  /**
   * Deleting the Personal rows `ps`: tasks they supervise or are assigned to
   * are deleted (CASCADE) together with those tasks' log entries; log entries
   * they authored are deleted (CASCADE); coordinator and reassignment links to
   * them become null (SET_NULL). Their Users are not touched.
   */
  function DeletePersonals(db: Db, ps: set<Id>): Db {
    var gone := TareasOf(db.tareas, ps);
    db.(dependencias := map d | d in db.dependencias :: Uncoordinate(db.dependencias[d], ps),
        personal := map p | p in db.personal && p !in ps :: db.personal[p],
        tareas := map t | t in db.tareas && t !in gone :: DetachPersonal(db.tareas[t], ps),
        bitacoras := map b | b in db.bitacoras && db.bitacoras[b].tarea !in gone
                                && db.bitacoras[b].personal !in ps :: db.bitacoras[b])
  }

  function DeletePersonal(db: Db, p: Id): Db {
    DeletePersonals(db, {p})
  }

  /** Deleting a User deletes the Personal linked to it (one-to-one CASCADE). */
  function DeleteUser(db: Db, u: Id): Db {
    var linked := set p | p in db.personal && db.personal[p].usuario == u;
    DeletePersonals(db.(users := db.users - {u}), linked)
  }

  /** Deleting a Dependencia nulls `Personal.dependencia` (SET_NULL). */
  function DeleteDependencia(db: Db, d: Id): Db {
    db.(dependencias := db.dependencias - {d},
        personal := map p | p in db.personal ::
          if db.personal[p].dependencia == Some(d) then db.personal[p].(dependencia := None)
          else db.personal[p])
  }

  /** Deleting tasks deletes their log entries (CASCADE). */
  function DeleteTareas(db: Db, ts: set<Id>): Db {
    db.(tareas := map t | t in db.tareas && t !in ts :: db.tareas[t],
        bitacoras := map b | b in db.bitacoras && db.bitacoras[b].tarea !in ts :: db.bitacoras[b])
  }

  function DeleteTarea(db: Db, t: Id): Db {
    DeleteTareas(db, {t})
  }

  /** The Tareas located in one of the municipios `ms` or parroquias `pas`. */
  function TareasIn(tareas: map<Id, Tarea>, ms: set<Id>, pas: set<Id>): set<Id> {
    set t | t in tareas && (tareas[t].municipio in ms || tareas[t].parroquia in pas)
  }

  /** The parroquias of the municipios `ms`. */
  function ParroquiasOf(parroquias: map<Id, Parroquia>, ms: set<Id>): set<Id> {
    set pa | pa in parroquias && parroquias[pa].municipio in ms
  }

  /** The municipios of the estado `e`. */
  function MunicipiosOf(municipios: map<Id, Municipio>, e: Id): set<Id> {
    set m | m in municipios && municipios[m].estado == e
  }

  /**
   * Deleting the municipios `ms` and the parroquias `pas`: every task located
   * in one of them is deleted (both location keys are CASCADE).
   */
  function DeleteLocations(db: Db, ms: set<Id>, pas: set<Id>): Db {
    DeleteTareas(db.(municipios := db.municipios - ms, parroquias := db.parroquias - pas),
                 TareasIn(db.tareas, ms, pas))
  }

  function DeleteParroquia(db: Db, pa: Id): Db {
    DeleteLocations(db, {}, {pa})
  }

  /** Deleting a Municipio cascades to its parroquias and to every task in either. */
  function DeleteMunicipio(db: Db, m: Id): Db {
    DeleteLocations(db, {m}, ParroquiasOf(db.parroquias, {m}))
  }

  /** Deleting an Estado cascades to its municipios and from there downwards. */
  function DeleteEstado(db: Db, e: Id): Db {
    var ms := MunicipiosOf(db.municipios, e);
    DeleteLocations(db, ms, ParroquiasOf(db.parroquias, ms)).(estados := db.estados - {e})
  }

  // ---------------------------------------------------------------------------
  // What the policies do, and that they keep the constraints
  // ---------------------------------------------------------------------------

  /**
   * Deleting a Personal: its tasks as supervisor or assignee disappear, every
   * other task stays with only the reassignment and participation to it
   * removed; every Dependencia stays with only a coordinator link to it
   * nulled; every other Personal, its User and the other tables stay as they
   * were.
   */
  lemma DeletePersonalPolicy(db: Db, p: Id)
    ensures var r := DeletePersonal(db, p);
      && r.estados == db.estados && r.municipios == db.municipios && r.parroquias == db.parroquias
      && r.instituciones == db.instituciones && r.users == db.users
      && r.personal == db.personal - {p}
    ensures var r := DeletePersonal(db, p);
      && r.dependencias.Keys == db.dependencias.Keys
      && (forall d :: d in db.dependencias ==>
            r.dependencias[d] == db.dependencias[d].(coordinador :=
              if db.dependencias[d].coordinador == Some(p) then None else db.dependencias[d].coordinador))
    ensures var r := DeletePersonal(db, p);
      && r.tareas.Keys <= db.tareas.Keys
      && (forall t :: t in db.tareas ==>
            (t in r.tareas <==> db.tareas[t].supervisor != p && db.tareas[t].personalAsignado != p))
    ensures var r := DeletePersonal(db, p);
      forall t :: t in r.tareas ==>
        r.tareas[t] == db.tareas[t].(
          participantes := db.tareas[t].participantes - {p},
          personalReasignado :=
            if db.tareas[t].personalReasignado == Some(p) then None else db.tareas[t].personalReasignado)
  {
  }

  /**
   * The audit-log side of deleting a Personal: an entry stays exactly when
   * it was not written by that Personal and its task survives; the entries
   * that stay are unchanged.
   */
  lemma DeletePersonalLogPolicy(db: Db, p: Id)
    requires RefsValid(db)
    ensures var r := DeletePersonal(db, p);
      forall b :: b in db.bitacoras ==>
        (b in r.bitacoras <==> db.bitacoras[b].personal != p && db.bitacoras[b].tarea in r.tareas)
    ensures var r := DeletePersonal(db, p);
      forall b :: b in r.bitacoras ==> b in db.bitacoras && r.bitacoras[b] == db.bitacoras[b]
  {
  }

  /** Deleting a User deletes exactly the Personal linked to it, and nothing it does not cascade to. */
  lemma DeleteUserPolicy(db: Db, u: Id)
    ensures var r := DeleteUser(db, u);
      && r.users.Keys == db.users.Keys - {u}
      && (forall p :: p in db.personal ==> (p in r.personal <==> db.personal[p].usuario != u))
      && r.personal.Keys <= db.personal.Keys
      && (forall p :: p in r.personal ==> r.personal[p] == db.personal[p])
  {
  }

  /**
   * With `usuario` one-to-one, deleting a User is exactly deleting its one
   * Personal after the User row goes, so `DeletePersonalPolicy` and
   * `DeletePersonalLogPolicy` describe the rest of the result.
   */
  lemma DeleteUserCascade(db: Db, u: Id, p: Id)
    requires UniqueUsuario(db.personal)
    requires p in db.personal && db.personal[p].usuario == u
    ensures DeleteUser(db, u) == DeletePersonal(db.(users := db.users - {u}), p)
  {
    var linked := set q | q in db.personal && db.personal[q].usuario == u;
    forall q | q in linked ensures q == p {
      assert db.personal[q].usuario == db.personal[p].usuario;
    }
    assert linked == {p};
  }

  /** Deleting a User no Personal is linked to removes that row and changes nothing else. */
  lemma DeleteUnlinkedUser(db: Db, u: Id)
    requires forall p :: p in db.personal ==> db.personal[p].usuario != u
    ensures DeleteUser(db, u) == db.(users := db.users - {u})
  {
    var linked := set q | q in db.personal && db.personal[q].usuario == u;
    assert forall q :: q !in linked;
    assert linked == {};
    DeleteNoPersonals(db.(users := db.users - {u}));
  }

  /** Deleting no Personal row changes nothing. */
  lemma DeleteNoPersonals(db: Db)
    ensures DeletePersonals(db, {}) == db
  {
    assert TareasOf(db.tareas, {}) == {};
    var r := DeletePersonals(db, {});
    forall d | d in db.dependencias ensures r.dependencias[d] == db.dependencias[d] {
      assert Uncoordinate(db.dependencias[d], {}) == db.dependencias[d];
    }
    forall t | t in db.tareas ensures r.tareas[t] == db.tareas[t] {
      assert db.tareas[t].participantes - {} == db.tareas[t].participantes;
    }
    assert r.dependencias == db.dependencias;
    assert r.tareas == db.tareas;
  }

  /**
   * Deleting a Dependencia removes only that row; every Personal stays, with
   * only a link to it nulled, and every other table is unchanged.
   */
  lemma DeleteDependenciaPolicy(db: Db, d: Id)
    ensures var r := DeleteDependencia(db, d);
      && r.estados == db.estados && r.municipios == db.municipios && r.parroquias == db.parroquias
      && r.instituciones == db.instituciones && r.users == db.users
      && r.tareas == db.tareas && r.bitacoras == db.bitacoras
      && r.dependencias == db.dependencias - {d}
    ensures var r := DeleteDependencia(db, d);
      && r.personal.Keys == db.personal.Keys
      && (forall p :: p in db.personal ==>
            r.personal[p] == db.personal[p].(dependencia :=
              if db.personal[p].dependencia == Some(d) then None else db.personal[p].dependencia))
      && (forall p :: p in r.personal ==> r.personal[p].dependencia != Some(d))
  {
  }

  /**
   * Deleting tasks removes exactly those tasks and exactly the log entries
   * about them; nothing else changes.
   */
  lemma DeleteTareasPolicy(db: Db, ts: set<Id>)
    ensures var r := DeleteTareas(db, ts);
      && r.estados == db.estados && r.municipios == db.municipios && r.parroquias == db.parroquias
      && r.instituciones == db.instituciones && r.dependencias == db.dependencias
      && r.users == db.users && r.personal == db.personal
      && r.tareas == db.tareas - ts
    ensures var r := DeleteTareas(db, ts);
      && (forall b :: b in db.bitacoras ==> (b in r.bitacoras <==> db.bitacoras[b].tarea !in ts))
      && (forall b :: b in r.bitacoras ==> b in db.bitacoras && r.bitacoras[b] == db.bitacoras[b])
  {
  }

  /**
   * Deleting municipios and parroquias: a task survives exactly when its
   * municipio and its parroquia both survive, a log entry exactly when its
   * task survives; survivors are unchanged, and so are the other tables.
   */
  lemma DeleteLocationsPolicy(db: Db, ms: set<Id>, pas: set<Id>)
    requires RefsValid(db)
    ensures var r := DeleteLocations(db, ms, pas);
      && r.estados == db.estados && r.instituciones == db.instituciones
      && r.dependencias == db.dependencias && r.users == db.users && r.personal == db.personal
      && r.municipios == db.municipios - ms && r.parroquias == db.parroquias - pas
    ensures var r := DeleteLocations(db, ms, pas);
      && (forall t :: t in db.tareas ==>
            (t in r.tareas <==> db.tareas[t].municipio in r.municipios && db.tareas[t].parroquia in r.parroquias))
      && (forall t :: t in r.tareas ==> t in db.tareas && r.tareas[t] == db.tareas[t])
    ensures var r := DeleteLocations(db, ms, pas);
      && (forall b :: b in db.bitacoras ==> (b in r.bitacoras <==> db.bitacoras[b].tarea in r.tareas))
      && (forall b :: b in r.bitacoras ==> b in db.bitacoras && r.bitacoras[b] == db.bitacoras[b])
  {
    var r := DeleteLocations(db, ms, pas);
    var gone := TareasIn(db.tareas, ms, pas);
    DeleteTareasPolicy(db.(municipios := db.municipios - ms, parroquias := db.parroquias - pas), gone);
    forall t | t in db.tareas
      ensures t in r.tareas <==> db.tareas[t].municipio in r.municipios && db.tareas[t].parroquia in r.parroquias
    {
      assert TareaRefs(db.tareas[t], db.municipios.Keys, db.parroquias.Keys, db.personal.Keys);
    }
  }

  /** Deleting a Parroquia deletes exactly the Tareas located in it, and their log entries. */
  lemma DeleteParroquiaPolicy(db: Db, pa: Id)
    requires RefsValid(db)
    ensures var r := DeleteParroquia(db, pa);
      && r.municipios == db.municipios && r.parroquias == db.parroquias - {pa}
      && (forall t :: t in db.tareas ==> (t in r.tareas <==> db.tareas[t].parroquia != pa))
      && (forall b :: b in db.bitacoras ==> (b in r.bitacoras <==> db.bitacoras[b].tarea in r.tareas))
  {
    DeleteLocationsPolicy(db, {}, {pa});
  }

  /**
   * Deleting a Municipio deletes exactly its parroquias, the Tareas located in
   * either, and their log entries.
   */
  lemma DeleteMunicipioPolicy(db: Db, m: Id)
    requires RefsValid(db)
    ensures var r := DeleteMunicipio(db, m);
      && r.municipios == db.municipios - {m}
      && (forall pa :: pa in db.parroquias ==> (pa in r.parroquias <==> db.parroquias[pa].municipio != m))
      && (forall t :: t in db.tareas ==>
            (t in r.tareas <==> db.tareas[t].municipio in r.municipios && db.tareas[t].parroquia in r.parroquias))
      && (forall b :: b in db.bitacoras ==> (b in r.bitacoras <==> db.bitacoras[b].tarea in r.tareas))
  {
    DeleteLocationsPolicy(db, {m}, ParroquiasOf(db.parroquias, {m}));
  }

  /**
   * Deleting an Estado deletes exactly its municipios, their parroquias, the
   * tasks located in any of them, and those tasks' log entries.
   */
  lemma DeleteEstadoPolicy(db: Db, e: Id)
    requires RefsValid(db)
    ensures var r := DeleteEstado(db, e);
      && r.estados == db.estados - {e}
      && (forall m :: m in db.municipios ==> (m in r.municipios <==> db.municipios[m].estado != e))
      && (forall pa :: pa in db.parroquias ==> (pa in r.parroquias <==> db.parroquias[pa].municipio in r.municipios))
    ensures var r := DeleteEstado(db, e);
      && (forall t :: t in db.tareas ==>
            (t in r.tareas <==> db.tareas[t].municipio in r.municipios && db.tareas[t].parroquia in r.parroquias))
      && (forall b :: b in db.bitacoras ==> (b in r.bitacoras <==> db.bitacoras[b].tarea in r.tareas))
  {
    var ms := MunicipiosOf(db.municipios, e);
    DeleteLocationsPolicy(db, ms, ParroquiasOf(db.parroquias, ms));
  }

  lemma DeletePersonalsValid(db: Db, ps: set<Id>)
    requires Valid(db)
    ensures Valid(DeletePersonals(db, ps))
  {
    DeletePersonalsRefs(db, ps);
    DeletePersonalsKeys(db, ps);
  }

  lemma DeletePersonalsRefs(db: Db, ps: set<Id>)
    requires RefsValid(db)
    ensures RefsValid(DeletePersonals(db, ps))
  {
    DeletePersonalsTareaRefs(db, ps);
    DeletePersonalsLogRefs(db, ps);
  }

  /** The Tareas that survive deleting Personal rows reference only surviving rows. */
  lemma DeletePersonalsTareaRefs(db: Db, ps: set<Id>)
    requires RefsValid(db)
    ensures var r := DeletePersonals(db, ps);
      forall t :: t in r.tareas ==> TareaRefs(r.tareas[t], r.municipios.Keys, r.parroquias.Keys, r.personal.Keys)
  {
    var r := DeletePersonals(db, ps);
    var gone := TareasOf(db.tareas, ps);
    forall t | t in r.tareas
      ensures TareaRefs(r.tareas[t], r.municipios.Keys, r.parroquias.Keys, r.personal.Keys)
    {
      assert t in db.tareas && t !in gone;
      assert TareaRefs(db.tareas[t], db.municipios.Keys, db.parroquias.Keys, db.personal.Keys);
    }
  }

  /** The log entries that survive deleting Personal rows reference only surviving rows. */
  lemma DeletePersonalsLogRefs(db: Db, ps: set<Id>)
    requires RefsValid(db)
    ensures var r := DeletePersonals(db, ps);
      forall b :: b in r.bitacoras ==> r.bitacoras[b].tarea in r.tareas && r.bitacoras[b].personal in r.personal
  {
  }

  lemma DeletePersonalsKeys(db: Db, ps: set<Id>)
    requires KeysValid(db)
    ensures KeysValid(DeletePersonals(db, ps))
  {
    var r := DeletePersonals(db, ps);
    assert r.personal.Keys <= db.personal.Keys;
    forall t | t in r.tareas ensures ValidTarea(r.tareas[t]) {
      assert t in db.tareas;
    }
  }

  /** Deleting a Personal leaves no dangling reference and breaks no unique key. */
  lemma DeletePersonalValid(db: Db, p: Id)
    requires Valid(db)
    ensures Valid(DeletePersonal(db, p))
  {
    DeletePersonalsValid(db, {p});
  }

  /** Deleting a User, and with it its Personal, leaves no dangling reference. */
  lemma DeleteUserValid(db: Db, u: Id)
    requires Valid(db)
    ensures Valid(DeleteUser(db, u))
  {
    var linked := set p | p in db.personal && db.personal[p].usuario == u;
    DeletePersonalsKeys(db.(users := db.users - {u}), linked);
    DeletePersonalsRefs(db, linked);
    var q := DeletePersonals(db, linked);
    assert DeleteUser(db, u) == q.(users := db.users - {u});
    forall p | p in q.personal ensures q.personal[p].usuario != u {
      assert p in db.personal && p !in linked;
    }
    DropUnlinkedUserRefs(q, u);
  }

  /** Removing a User no Personal links to keeps every foreign key. */
  lemma DropUnlinkedUserRefs(db: Db, u: Id)
    requires RefsValid(db)
    requires forall p :: p in db.personal ==> db.personal[p].usuario != u
    ensures RefsValid(db.(users := db.users - {u}))
  {
  }

  /** Deleting a Dependencia leaves no dangling reference. */
  lemma DeleteDependenciaValid(db: Db, d: Id)
    requires Valid(db)
    ensures Valid(DeleteDependencia(db, d))
  {
    var r := DeleteDependencia(db, d);
    assert forall p :: p in r.personal ==>
      r.personal[p].cedula == db.personal[p].cedula && r.personal[p].usuario == db.personal[p].usuario;
    assert r.personal.Keys == db.personal.Keys;
    assert KeysValid(r);
    forall t | t in r.tareas
      ensures TareaRefs(r.tareas[t], r.municipios.Keys, r.parroquias.Keys, r.personal.Keys)
    {
      assert TareaRefs(db.tareas[t], db.municipios.Keys, db.parroquias.Keys, db.personal.Keys);
    }
  }

  lemma DeleteTareasValid(db: Db, ts: set<Id>)
    requires Valid(db)
    ensures Valid(DeleteTareas(db, ts))
  {
  }

  /** Deleting municipios and parroquias together with every task located in them. */
  lemma DeleteLocationsValid(db: Db, ms: set<Id>, pas: set<Id>)
    requires Valid(db)
    requires ParroquiasOf(db.parroquias, ms) <= pas
    ensures Valid(DeleteLocations(db, ms, pas))
  {
    var ts := TareasIn(db.tareas, ms, pas);
    var r := DeleteLocations(db, ms, pas);
    forall pa | pa in r.parroquias ensures r.parroquias[pa].municipio in r.municipios {
      assert pa !in ParroquiasOf(db.parroquias, ms);
    }
    forall t | t in r.tareas
      ensures TareaRefs(r.tareas[t], r.municipios.Keys, r.parroquias.Keys, r.personal.Keys)
    {
      assert t in db.tareas && t !in ts;
      assert TareaRefs(db.tareas[t], db.municipios.Keys, db.parroquias.Keys, db.personal.Keys);
    }
  }

  lemma DeleteParroquiaValid(db: Db, pa: Id)
    requires Valid(db)
    ensures Valid(DeleteParroquia(db, pa))
  {
    DeleteLocationsValid(db, {}, {pa});
  }

  lemma DeleteMunicipioValid(db: Db, m: Id)
    requires Valid(db)
    ensures Valid(DeleteMunicipio(db, m))
  {
    DeleteLocationsValid(db, {m}, ParroquiasOf(db.parroquias, {m}));
  }

  lemma DeleteEstadoValid(db: Db, e: Id)
    requires Valid(db)
    ensures Valid(DeleteEstado(db, e))
  {
    var ms := MunicipiosOf(db.municipios, e);
    DeleteLocationsValid(db, ms, ParroquiasOf(db.parroquias, ms));
    var r0 := DeleteLocations(db, ms, ParroquiasOf(db.parroquias, ms));
    forall m | m in r0.municipios ensures r0.municipios[m].estado in db.estados - {e} {
      assert m !in ms;
    }
    EstadosOnlyConstrainMunicipios(r0, db.estados - {e});
  }

  /** The estados table is only referenced by municipios. */
  lemma EstadosOnlyConstrainMunicipios(db: Db, estados: map<Id, Estado>)
    requires Valid(db)
    requires forall m :: m in db.municipios ==> db.municipios[m].estado in estados
    ensures Valid(db.(estados := estados))
  {
  }
}
