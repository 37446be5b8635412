/**
 * The records of the Tarea-tracking application (tareas/models.py): the choice
 * lists with their stored codes, one datatype per table row, the field
 * validators and defaults, and the three values a Tarea derives from its own
 * fields (overdue, completable, progress band).
 *
 * Dates are day numbers; the current date is always passed in explicitly.
 */
module Models {
  import opened Wrappers

  /** Primary keys of every table. */
  type Id = int

  /** A calendar date as a day number: a < b iff a is the earlier day. */
  type Date = int

  // ---------------------------------------------------------------------------
  // Choice lists (the stored code of each choice is the first tuple element)
  // ---------------------------------------------------------------------------

  /** Dependencia.TIPO_DEPENDENCIA */
  datatype TipoDependencia = Coordinacion | Unidad | Seccion {
    function Code(): string {
      match this
      case Coordinacion => "coordinacion"
      case Unidad => "unidad"
      case Seccion => "seccion"
    }
  }

  /** Tarea.CATEGORIA_CHOICES */
  datatype Categoria = Administrativa | Operativa | Tecnica | Logistica | Otra {
    function Code(): string {
      match this
      case Administrativa => "administrativa"
      case Operativa => "operativa"
      case Tecnica => "tecnica"
      case Logistica => "logistica"
      case Otra => "otra"
    }
  }

  /** Tarea.MODALIDAD_CHOICES */
  datatype Modalidad = Normal | Urgente | Prioritaria {
    function Code(): string {
      match this
      case Normal => "normal"
      case Urgente => "urgente"
      case Prioritaria => "prioritaria"
    }
  }

  /** Tarea.ESTADO_TAREA_CHOICES */
  datatype EstadoTarea = Pendiente | EnProgreso | Completada | Rechazada {
    function Code(): string {
      match this
      case Pendiente => "pendiente"
      case EnProgreso => "en_progreso"
      case Completada => "completada"
      case Rechazada => "rechazada"
    }
  }

  /** Bitacora.TIPO_ACCION_CHOICES */
  datatype TipoAccion = Creacion | Actualizacion | Completado | Rechazo | Reasignacion {
    function Code(): string {
      match this
      case Creacion => "creacion"
      case Actualizacion => "actualizacion"
      case Completado => "completado"
      case Rechazo => "rechazo"
      case Reasignacion => "reasignacion"
    }
  }

  /** The choice validation of a `tipo` field: only a listed code is accepted. */
  function ParseTipoDependencia(s: string): (r: Option<TipoDependencia>)
    ensures r.Some? ==> r.value.Code() == s
    ensures r.None? ==> forall c: TipoDependencia :: c.Code() != s
  {
    if s == "coordinacion" then Some(Coordinacion)
    else if s == "unidad" then Some(Unidad)
    else if s == "seccion" then Some(Seccion)
    else None
  }

  /** The choice validation of `categoria`. */
  function ParseCategoria(s: string): (r: Option<Categoria>)
    ensures r.Some? ==> r.value.Code() == s
    ensures r.None? ==> forall c: Categoria :: c.Code() != s
  {
    if s == "administrativa" then Some(Administrativa)
    else if s == "operativa" then Some(Operativa)
    else if s == "tecnica" then Some(Tecnica)
    else if s == "logistica" then Some(Logistica)
    else if s == "otra" then Some(Otra)
    else None
  }

  /** The choice validation of `modalidad`. */
  function ParseModalidad(s: string): (r: Option<Modalidad>)
    ensures r.Some? ==> r.value.Code() == s
    ensures r.None? ==> forall c: Modalidad :: c.Code() != s
  {
    if s == "normal" then Some(Normal)
    else if s == "urgente" then Some(Urgente)
    else if s == "prioritaria" then Some(Prioritaria)
    else None
  }

  /** The choice validation of `estado_tarea`. */
  function ParseEstadoTarea(s: string): (r: Option<EstadoTarea>)
    ensures r.Some? ==> r.value.Code() == s
    ensures r.None? ==> forall c: EstadoTarea :: c.Code() != s
  {
    if s == "pendiente" then Some(Pendiente)
    else if s == "en_progreso" then Some(EnProgreso)
    else if s == "completada" then Some(Completada)
    else if s == "rechazada" then Some(Rechazada)
    else None
  }

  /** The choice validation of `accion`. */
  function ParseTipoAccion(s: string): (r: Option<TipoAccion>)
    ensures r.Some? ==> r.value.Code() == s
    ensures r.None? ==> forall c: TipoAccion :: c.Code() != s
  {
    if s == "creacion" then Some(Creacion)
    else if s == "actualizacion" then Some(Actualizacion)
    else if s == "completado" then Some(Completado)
    else if s == "rechazo" then Some(Rechazo)
    else if s == "reasignacion" then Some(Reasignacion)
    else None
  }

  /** Every stored code reads back as the choice it was written from. */
  lemma ChoiceCodesRoundTrip(t: TipoDependencia, c: Categoria, m: Modalidad, e: EstadoTarea, a: TipoAccion)
    ensures ParseTipoDependencia(t.Code()) == Some(t)
    ensures ParseCategoria(c.Code()) == Some(c)
    ensures ParseModalidad(m.Code()) == Some(m)
    ensures ParseEstadoTarea(e.Code()) == Some(e)
    ensures ParseTipoAccion(a.Code()) == Some(a)
  {
  }

  // ---------------------------------------------------------------------------
  // Rows
  // ---------------------------------------------------------------------------

  datatype Estado = Estado(nombre: string, descripcion: Option<string>)

  /** `estado` is a foreign key; `codMun` is unique across all municipios. */
  datatype Municipio = Municipio(estado: Id, nombre: string, codMun: string)

  /** `(municipio, codParroquia)` is unique; `codMun` is a denormalised copy. */
  datatype Parroquia = Parroquia(municipio: Id, nombre: string, codParroquia: string, codMun: string)

  /** The logo image and the creation timestamp are not modelled. */
  datatype Institucion = Institucion(nombre: string, direccion: Option<string>,
                                     telefono: Option<string>, email: Option<string>)

  /** `coordinador` is a nullable foreign key to Personal (SET_NULL). */
  datatype Dependencia = Dependencia(nombre: string, tipo: TipoDependencia,
                                     coordinador: Option<Id>, descripcion: Option<string>)

  /**
   * The authentication account linked to a Personal. It belongs to the
   * framework's auth subsystem; the password is an opaque string.
   */
  datatype User = User(username: string, email: string, firstName: string,
                       lastName: string, password: string, isActive: bool)

  /**
   * `usuario` is a one-to-one link to a User (deleting the User deletes the
   * Personal); `cedula` is unique; `dependencia` is nullable (SET_NULL).
   */
  datatype Personal = Personal(usuario: Id, cedula: string, nombre: string, apellido: string,
                               fechaNac: Date, fechaIngreso: Date, dependencia: Option<Id>,
                               telefono: Option<string>, direccion: Option<string>,
                               usuarioCreado: bool, passwordTemporal: Option<string>,
                               fechaPrimerAcceso: Option<Date>)

  /**
   * A task. `cantidad` is a decimal with two places, held as a whole number of
   * hundredths. `supervisor` and `personalAsignado` are CASCADE foreign keys,
   * `personalReasignado` is SET_NULL, `participantes` is a many-to-many set.
   */
  datatype Tarea = Tarea(titulo: string, descripcion: string, categoria: Categoria,
                         modalidad: Modalidad, estadoTarea: EstadoTarea,
                         municipio: Id, parroquia: Id,
                         fechaInicio: Date, fechaFinPrevista: Date, fechaFinReal: Option<Date>,
                         participantes: set<Id>, supervisor: Id, personalAsignado: Id,
                         personalReasignado: Option<Id>,
                         unidadMedida: string, cantidad: int, porcentajeAvance: int,
                         mostrar: bool, causaNoCulminacion: Option<string>,
                         observaciones: Option<string>)

  /** An audit-log entry; the JSON snapshots are kept as opaque strings. */
  datatype Bitacora = Bitacora(tarea: Id, personal: Id, accion: TipoAccion, descripcion: string,
                               fechaAccion: Date, datosAnteriores: Option<string>,
                               datosNuevos: Option<string>)

  // ---------------------------------------------------------------------------
  // Field validators and defaults
  // ---------------------------------------------------------------------------

  const PorcentajeMin: int := 0
  const PorcentajeMax: int := 100

  /** `cantidad`: `max_digits=10, decimal_places=2`, so values are held in hundredths. */
  const CantidadMaxDigits: nat := 10

  /** The first magnitude of hundredths with more than `CantidadMaxDigits` digits. */
  const CantidadLimit: int := 10_000_000_000

  datatype ValidationError =
    | BelowMinimum(limit: int)      // MinValueValidator
    | AboveMaximum(limit: int)      // MaxValueValidator
    | TooManyDigits(maxDigits: nat) // DecimalField max_digits

  /** The two validators on `porcentaje_avance`, applied in order. */
  function ValidatePorcentaje(p: int): (r: Result<int, ValidationError>)
    ensures r.Ok? <==> PorcentajeMin <= p <= PorcentajeMax
    ensures r.Ok? ==> r.value == p
    ensures r.Err? ==> r.error == (if p < PorcentajeMin then BelowMinimum(PorcentajeMin)
                                  else AboveMaximum(PorcentajeMax))
  {
    if p < PorcentajeMin then Err(BelowMinimum(PorcentajeMin))
    else if p > PorcentajeMax then Err(AboveMaximum(PorcentajeMax))
    else Ok(p)
  }

  /** The number of decimal digits of `n` (zero has one). */
  function Digits(n: nat): (d: nat)
    ensures d >= 1
  {
    if n < 10 then 1 else 1 + Digits(n / 10)
  }

  function Pow10(k: nat): (p: nat)
    ensures p >= 1
  {
    if k == 0 then 1 else 10 * Pow10(k - 1)
  }

  function Abs(c: int): nat {
    if c < 0 then -c else c
  }

  /** `n` has at most `k` digits exactly when it is below 10^k. */
  lemma {:induction false} DigitsBelowPow10(n: nat, k: nat)
    requires k >= 1
    ensures Digits(n) <= k <==> n < Pow10(k)
    decreases n
  {
    if n >= 10 {
      if k == 1 {
        assert Pow10(1) == 10;
      } else {
        DigitsBelowPow10(n / 10, k - 1);
        assert n / 10 < Pow10(k - 1) <==> n < 10 * Pow10(k - 1);
      }
    } else {
      assert Pow10(k) >= 10 by {
        assert Pow10(k) == 10 * Pow10(k - 1);
      }
    }
  }

  /**
   * The decimal validator of `cantidad`: counted in hundredths, at most
   * `max_digits` digits; equivalently, the magnitude is below 10^10
   * hundredths.
   */
  function ValidateCantidad(c: int): (r: Result<int, ValidationError>)
    ensures r.Ok? <==> -CantidadLimit < c < CantidadLimit
    ensures r.Ok? ==> r.value == c
    ensures r.Err? ==> r.error == TooManyDigits(CantidadMaxDigits)
  {
    DigitsBelowPow10(Abs(c), CantidadMaxDigits);
    assert Pow10(CantidadMaxDigits) == CantidadLimit;
    if Digits(Abs(c)) <= CantidadMaxDigits then Ok(c) else Err(TooManyDigits(CantidadMaxDigits))
  }

  /** A task whose validated fields pass their validators. */
  predicate ValidTarea(t: Tarea) {
    ValidatePorcentaje(t.porcentajeAvance).Ok? && ValidateCantidad(t.cantidad).Ok?
  }

  /**
   * A task built from its required fields only: every other field takes its
   * declared default (modalidad 'normal', estado 'pendiente', progress 0,
   * shown, no participants, no reassignment, no real end date).
   */
  function NewTarea(titulo: string, descripcion: string, categoria: Categoria,
                    municipio: Id, parroquia: Id, fechaInicio: Date, fechaFinPrevista: Date,
                    supervisor: Id, personalAsignado: Id, unidadMedida: string, cantidad: int): (t: Tarea)
  {
    Tarea(titulo, descripcion, categoria, Normal, Pendiente, municipio, parroquia,
          fechaInicio, fechaFinPrevista, None, {}, supervisor, personalAsignado, None,
          unidadMedida, cantidad, 0, true, None, None)
  }

  /** A new task is pending, normal, at 0% progress, and passes validation when its quantity does. */
  lemma NewTareaDefaults(titulo: string, descripcion: string, categoria: Categoria,
                         municipio: Id, parroquia: Id, fechaInicio: Date, fechaFinPrevista: Date,
                         supervisor: Id, personalAsignado: Id, unidadMedida: string, cantidad: int)
    ensures var t := NewTarea(titulo, descripcion, categoria, municipio, parroquia, fechaInicio,
                              fechaFinPrevista, supervisor, personalAsignado, unidadMedida, cantidad);
            && t.estadoTarea == Pendiente && t.modalidad == Normal && t.porcentajeAvance == 0
            && t.mostrar && t.fechaFinReal.None? && t.personalReasignado.None?
            && t.participantes == {}
            && (ValidTarea(t) <==> ValidateCantidad(cantidad).Ok?)
            && !PuedeSerCompletada(t)
            && PorcentajeDisplay(t) == Danger
  {
  }

  // ---------------------------------------------------------------------------
  // Derived values of a task
  // ---------------------------------------------------------------------------

  /** `esta_vencida`: the planned end is past and the Tarea is not at 100%. */
  predicate EstaVencida(t: Tarea, today: Date) {
    t.fechaFinPrevista < today && t.porcentajeAvance < 100
  }

  /** `puede_ser_completada`: at 100% and not already marked completed. */
  predicate PuedeSerCompletada(t: Tarea) {
    t.porcentajeAvance == 100 && t.estadoTarea != Completada
  }

  /** The display band of a progress value, named by its CSS class. */
  datatype Band = Success | Info | Warning | Danger {
    function CssClass(): string {
      match this
      case Success => "success"
      case Info => "info"
      case Warning => "warning"
      case Danger => "danger"
    }

    /** Bands ordered from worst (0) to best (3). */
    function Rank(): nat {
      match this
      case Danger => 0
      case Warning => 1
      case Info => 2
      case Success => 3
    }
  }

  /** `get_porcentaje_display`: exactly 100, then lower bounds 75 and 50. */
  function PorcentajeDisplay(t: Tarea): Band {
    if t.porcentajeAvance == 100 then Success
    else if t.porcentajeAvance >= 75 then Info
    else if t.porcentajeAvance >= 50 then Warning
    else Danger
  }

  /**
   * Each band is an interval of progress, lower bounds inclusive: 'danger'
   * below 50 (negative values included), 'warning' from 50, 'info' from 75
   * except exactly 100, which alone is 'success'.
   */
  lemma PorcentajeBands(t: Tarea)
    ensures PorcentajeDisplay(t) == Success <==> t.porcentajeAvance == 100
    ensures PorcentajeDisplay(t) == Info <==> 75 <= t.porcentajeAvance <= 99 || t.porcentajeAvance > 100
    ensures PorcentajeDisplay(t) == Warning <==> 50 <= t.porcentajeAvance <= 74
    ensures PorcentajeDisplay(t) == Danger <==> t.porcentajeAvance < 50
  {
  }

  /** Up to 100, more progress never gives a worse band. */
  lemma PorcentajeDisplayMonotone(t: Tarea, u: Tarea)
    requires t.porcentajeAvance <= u.porcentajeAvance <= 100
    ensures PorcentajeDisplay(t).Rank() <= PorcentajeDisplay(u).Rank()
  {
  }

  /**
   * Outside the validated range the band is not monotone: 150% shows as
   * 'info', below the 'success' of 100%. The validators are what rule it out.
   */
  lemma PorcentajeDisplayAboveRange(t: Tarea)
    requires t.porcentajeAvance > 100
    ensures PorcentajeDisplay(t) == Info
    ensures !ValidTarea(t)
  {
  }

  /** No task is both overdue and completable. */
  lemma NeverOverdueAndCompletable(t: Tarea, today: Date)
    ensures !(EstaVencida(t, today) && PuedeSerCompletada(t))
  {
  }

  /** A completable task shows the success band; an overdue one never does. */
  lemma BandAgreesWithDerivedFlags(t: Tarea, today: Date)
    ensures PuedeSerCompletada(t) ==> PorcentajeDisplay(t) == Success
    ensures EstaVencida(t, today) ==> PorcentajeDisplay(t) != Success
  {
  }

  /** An overdue task stays overdue on every later day until its progress changes. */
  lemma OverdueStaysOverdue(t: Tarea, today: Date, later: Date)
    requires today <= later
    ensures EstaVencida(t, today) ==> EstaVencida(t, later)
    ensures !EstaVencida(t, later) ==> !EstaVencida(t, today)
  {
  }

  /** A task marked completed is never completable again, whatever its progress. */
  lemma CompletedNotCompletable(t: Tarea)
    requires t.estadoTarea == Completada
    ensures !PuedeSerCompletada(t)
  {
  }
}
