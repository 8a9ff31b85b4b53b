/** The registration page (`registrar_asistencia`, "buscar" then "aceptar")
    and its lookup endpoint (`buscar_profesor`), over a ledger that holds the
    roster and the attendance records. */
module Registro {
  import opened Wrappers
  import opened Models
  import Clock
  import Text
  import Http

  /** `Profesor.objects.get(dni=dni)`: the stored professor with that dni, if any. */
  function FindByDni(roster: seq<Profesor>, dni: string): (r: Option<Profesor>)
    ensures r.Some? ==> r.value in roster && r.value.dni == dni
    ensures r.None? ==> forall p :: p in roster ==> p.dni != dni
  {
    if roster == [] then None
    else if roster[0].dni == dni then Some(roster[0])
    else
      assert roster == [roster[0]] + roster[1..];
      FindByDni(roster[1..], dni)
  }

  /** With unique dnis, the lookup finds exactly the professor holding the dni. */
  lemma FindByDniFindsHolder(roster: seq<Profesor>, p: Profesor)
    requires UniqueKeys(roster) && p in roster
    ensures FindByDni(roster, p.dni) == Some(p)
  {
    DniIdentifies(roster, FindByDni(roster, p.dni).value, p);
  }

  /** The `dni` form or query field, stripped; "" when absent. */
  function DniParam(post: map<string, string>): (r: string)
    ensures "dni" !in post ==> r == []
    ensures "dni" in post ==> r == Text.Strip(post["dni"])
    ensures r != [] ==> !Text.IsSpace(r[0]) && !Text.IsSpace(r[|r| - 1])
  {
    Text.Strip(Http.GetOr(post, "dni", ""))
  }

  /** The two actions the page knows, and everything else. */
  datatype Accion = Buscar | Aceptar | Otra

  /** The `accion` form field, stripped and lower-cased ("buscar" when absent),
      read as one of the known actions. */
  function AccionParam(post: map<string, string>): (r: Accion)
    ensures var t := Text.Lower(Text.Strip(Http.GetOr(post, "accion", "buscar")));
      (r == Buscar <==> t == "buscar") && (r == Aceptar <==> t == "aceptar")
  {
    var t := Text.Lower(Text.Strip(Http.GetOr(post, "accion", "buscar")));
    if t == "buscar" then Buscar else if t == "aceptar" then Aceptar else Otra
  }

  /** What the page answers. `Formulario` is the empty form (a GET, or a POST
      with an action the view does not know); `Mostrado` shows the professor and
      the current time without saving; `NoEncontrado` is "Profesor no encontrado";
      `YaRegistrado` is the "already registered today" warning; `Registrado`
      carries the record just created. */
  datatype Respuesta =
    | Formulario
    | Mostrado(profesor: Profesor, ahora: Clock.Instant)
    | NoEncontrado
    | YaRegistrado
    | Registrado(asistencia: Asistencia)

  /** The answer of `registrar_asistencia` to one request, given the stored
      roster and records. `now` is the clock read the view makes (for the
      shown time, or for today's date); `stamp` is the later read that
      `default=timezone.now` makes when the record is created. */
  function Respond(roster: seq<Profesor>, asistencias: seq<Asistencia>, isPost: bool,
                   dni: string, accion: Accion, now: Clock.Instant, stamp: Clock.Instant): (r: Respuesta)
    ensures r == Formulario <==> !isPost || accion == Otra
    ensures isPost && accion != Otra && (forall p :: p in roster ==> p.dni != dni) ==> r == NoEncontrado
    ensures r == NoEncontrado ==> forall p :: p in roster ==> p.dni != dni
    ensures accion == Buscar ==> !r.Registrado? && r != YaRegistrado
    ensures accion == Aceptar ==> !r.Mostrado?
    ensures r.Mostrado? ==> r.profesor in roster && r.profesor.dni == dni && r.ahora == now
    ensures r.Registrado? ==>
      && r.asistencia == Asistencia(r.asistencia.profesor, stamp, None)
      && r.asistencia.profesor in roster && r.asistencia.profesor.dni == dni
      && !HasRecordOn(asistencias, r.asistencia.profesor.id, Clock.LocalDay(now))
    ensures r == YaRegistrado ==>
      exists p :: p in roster && p.dni == dni && HasRecordOn(asistencias, p.id, Clock.LocalDay(now))
  {
    if !isPost || accion == Otra then Formulario
    else match FindByDni(roster, dni)
      case None => NoEncontrado
      case Some(p) =>
        if accion == Buscar then Mostrado(p, now)
        else if HasRecordOn(asistencias, p.id, Clock.LocalDay(now)) then YaRegistrado
        else Registrado(Asistencia(p, stamp, None))
  }

  /** With unique dnis, a posted dni that some professor holds gets that
      professor shown ("buscar"), and gets a record for them unless one
      already exists today ("aceptar"). */
  lemma {:induction false} RespondToHolder(roster: seq<Profesor>, asistencias: seq<Asistencia>, p: Profesor,
                                           now: Clock.Instant, stamp: Clock.Instant)
    requires UniqueKeys(roster) && p in roster
    ensures Respond(roster, asistencias, true, p.dni, Buscar, now, stamp) == Mostrado(p, now)
    ensures Respond(roster, asistencias, true, p.dni, Aceptar, now, stamp) ==
      if HasRecordOn(asistencias, p.id, Clock.LocalDay(now)) then YaRegistrado
      else Registrado(Asistencia(p, stamp, None))
  {
    FindByDniFindsHolder(roster, p);
  }

  /** The stored roster and attendance ledger. */
  class Ledger {
    var roster: seq<Profesor>
    var asistencias: seq<Asistencia>

    predicate Valid()
      reads this
    {
      Consistent(roster, asistencias)
    }

    constructor (roster: seq<Profesor>)
      requires Consistent(roster, [])
      ensures Valid() && this.roster == roster && asistencias == []
    {
      this.roster := roster;
      asistencias := [];
    }

    /** `registrar_asistencia` handling one request, with the clock reads
        `now` and then `stamp`: the answer is `Respond` of the ledger before
        the call, and the ledger grows by the created record exactly when the
        answer is `Registrado`. When no stored record is dated after `now`,
        no professor gains a second record on one day, and no record is then
        dated after `stamp`. */
    method Registrar(isPost: bool, post: map<string, string>, now: Clock.Instant, stamp: Clock.Instant)
      returns (out: Respuesta)
      requires Valid() && now <= stamp
      modifies this`asistencias
      ensures Valid()
      ensures out == Respond(roster, old(asistencias), isPost, DniParam(post), AccionParam(post), now, stamp)
      ensures asistencias == if out.Registrado? then old(asistencias) + [out.asistencia] else old(asistencias)
      ensures AtMostOnePerDay(old(asistencias)) && NotAfter(old(asistencias), now) ==> AtMostOnePerDay(asistencias)
      ensures NotAfter(old(asistencias), now) ==> NotAfter(asistencias, stamp)
    {
      if !isPost {
        return Formulario;
      }
      var dni := DniParam(post);
      var accion := AccionParam(post);
      if accion == Otra {
        return Formulario;
      }
      var found := FindByDni(roster, dni);
      if found.None? {
        return NoEncontrado;
      }
      if accion == Buscar {
        return Mostrado(found.value, now);
      }
      out := RegistrarHoy(found.value, now, stamp);
    }

    /** The "aceptar" step once the professor is known: unless a record
        already exists on the local day of `now` (`timezone.localdate()`),
        append one stamped `stamp` (`default=timezone.now`). */
    method RegistrarHoy(profesor: Profesor, now: Clock.Instant, stamp: Clock.Instant) returns (out: Respuesta)
      requires Valid() && profesor in roster && now <= stamp
      modifies this`asistencias
      ensures Valid()
      ensures HasRecordOn(old(asistencias), profesor.id, Clock.LocalDay(now)) ==>
        out == YaRegistrado && asistencias == old(asistencias)
      ensures !HasRecordOn(old(asistencias), profesor.id, Clock.LocalDay(now)) ==>
        out == Registrado(Asistencia(profesor, stamp, None)) && asistencias == old(asistencias) + [out.asistencia]
      ensures AtMostOnePerDay(old(asistencias)) && NotAfter(old(asistencias), now) ==> AtMostOnePerDay(asistencias)
      ensures NotAfter(old(asistencias), now) ==> NotAfter(asistencias, stamp)
    {
      var hoy := Clock.LocalDay(now);
      var yaExiste := ExistsOn(asistencias, profesor.id, hoy);
      if yaExiste {
        return YaRegistrado;
      }
      var a := Asistencia(profesor, stamp, None);
      if NotAfter(asistencias, now) {
        NoRecordOnLaterDay(asistencias, profesor.id, now, stamp);
      }
      AppendKeepsInvariants(roster, asistencias, a);
      asistencias := asistencias + [a];
      return Registrado(a);
    }

    /** Deleting a professor: the roster loses it and, by `on_delete=CASCADE`,
        the ledger loses every record of it. */
    method DeleteProfesor(id: ProfesorId)
      requires Valid()
      modifies this
      ensures Valid()
      ensures roster == WithoutProfesor(old(roster), id)
      ensures asistencias == Cascade(old(asistencias), id)
      ensures forall a :: a in asistencias ==> a.profesor.id != id
    {
      WithoutProfesorKeepsConsistent(roster, asistencias, id);
      roster := WithoutProfesor(roster, id);
      asistencias := Cascade(asistencias, id);
    }
  }

  /** `Asistencia.objects.filter(profesor=..., fecha_hora__date=day).exists()`. */
  method ExistsOn(asistencias: seq<Asistencia>, id: ProfesorId, day: Clock.Day) returns (found: bool)
    ensures found <==> HasRecordOn(asistencias, id, day)
  {
    var i := 0;
    while i < |asistencias|
      invariant 0 <= i <= |asistencias|
      invariant !HasRecordOn(asistencias[..i], id, day)
    {
      var a := asistencias[i];
      if a.profesor.id == id && Clock.LocalDay(a.fechaHora) == day {
        assert a in asistencias;
        return true;
      }
      assert asistencias[..i + 1] == asistencias[..i] + [a];
      i := i + 1;
    }
    assert asistencias[..i] == asistencias;
    return false;
  }

  /** Appending a record of a stored professor keeps the tables consistent, and
      keeps the per-day property when that professor has no record that day. */
  lemma AppendKeepsInvariants(roster: seq<Profesor>, asistencias: seq<Asistencia>, a: Asistencia)
    requires Consistent(roster, asistencias) && a.profesor in roster
    ensures Consistent(roster, asistencias + [a])
    ensures AtMostOnePerDay(asistencias) && !HasRecordOn(asistencias, a.profesor.id, Clock.LocalDay(a.fechaHora)) ==>
      AtMostOnePerDay(asistencias + [a])
  {
    if AtMostOnePerDay(asistencias) && !HasRecordOn(asistencias, a.profesor.id, Clock.LocalDay(a.fechaHora)) {
      AppendKeepsAtMostOnePerDay(asistencias, a);
    }
  }

  /** The roster after deleting professor `id`. */
  function WithoutProfesor(roster: seq<Profesor>, id: ProfesorId): (r: seq<Profesor>)
    ensures forall p :: p in r <==> p in roster && p.id != id
    ensures UniqueKeys(roster) ==> UniqueKeys(r)
  {
    if roster == [] then []
    else
      var rest := WithoutProfesor(roster[1..], id);
      assert roster == [roster[0]] + roster[1..];
      if roster[0].id == id then rest
      else
        assert UniqueKeys(roster) ==> forall p :: p in roster[1..] ==> p.dni != roster[0].dni && p.id != roster[0].id;
        [roster[0]] + rest
  }

  lemma WithoutProfesorKeepsConsistent(roster: seq<Profesor>, asistencias: seq<Asistencia>, id: ProfesorId)
    requires Consistent(roster, asistencias)
    ensures Consistent(WithoutProfesor(roster, id), Cascade(asistencias, id))
  {
    var r, c := WithoutProfesor(roster, id), Cascade(asistencias, id);
    forall a | a in c ensures a.profesor in r {
      assert multiset(c)[a] == multiset(asistencias)[a];
    }
  }

  /** The reply of the lookup endpoint: `{"existe": True, ...}` or `{"existe": False}`. */
  datatype Busqueda =
    | Existe(codigo: Option<string>, nombres: string, apellidos: string, condicion: string)
    | NoExiste

  /** `buscar_profesor`: the public fields of the professor whose dni is the
      stripped `dni` query parameter. */
  function BuscarProfesor(roster: seq<Profesor>, get: map<string, string>): (r: Busqueda)
    ensures var dni := DniParam(get);
      && (r.Existe? <==> exists p :: p in roster && p.dni == dni)
      && (r.Existe? ==> exists p :: p in roster && p.dni == dni && r == Existe(p.codigo, p.nombres, p.apellidos, p.condicion))
  {
    var dni := DniParam(get);
    match FindByDni(roster, dni)
    case Some(p) => assert p in roster && p.dni == dni; Existe(p.codigo, p.nombres, p.apellidos, p.condicion)
    case None => NoExiste
  }
}
