/** The history page (`historial_asistencias`): every attendance record,
    newest first, narrowed by the optional text, condition and date filters of
    the query string. The professor filters are shared with the spreadsheet
    report. */
module Historial {
  import opened Wrappers
  import opened Models
  import Text
  import Clock
  import Http
  import Ordering
  import Seqs

  /** A query-string field, stripped; "" when absent. */
  function Param(get: map<string, string>, key: string): (r: string)
    ensures key !in get ==> r == []
    ensures key in get ==> r == Text.Strip(get[key])
    ensures r != [] ==> !Text.IsSpace(r[0]) && !Text.IsSpace(r[|r| - 1])
  {
    Text.Strip(Http.GetOr(get, key, ""))
  }

  /** The `q` search: a case-insensitive substring of the dni, the code (a
      missing code matches nothing), the surnames or the given names. An
      empty search matches everyone; searching for the whole dni, surnames
      or given names (in any case) finds the professor; a match is never
      longer than the longest field searched. */
  predicate MatchesQuery(p: Profesor, q: string): (r: bool)
    ensures q == [] ==> r
    ensures Text.IExact(p.dni, q) || Text.IExact(p.apellidos, q) || Text.IExact(p.nombres, q) ==> r
    ensures r ==> |q| <= |p.dni| || (p.codigo.Some? && |q| <= |p.codigo.value|)
                  || |q| <= |p.apellidos| || |q| <= |p.nombres|
  {
    || Text.IContains(p.dni, q)
    || (p.codigo.Some? && Text.IContains(p.codigo.value, q))
    || Text.IContains(p.apellidos, q)
    || Text.IContains(p.nombres, q)
  }

  /** The professor filters; an empty filter imposes nothing. The exact dni
      and the exact condition select the professor; a selected professor's
      condition has the length of a given condition filter. */
  predicate ProfesorSelected(p: Profesor, q: string, condicion: string): (r: bool)
    ensures q == [] && condicion == [] ==> r
    ensures (q == [] || q == p.dni) && (condicion == [] || condicion == p.condicion) ==> r
    ensures r && q != [] ==> MatchesQuery(p, q)
    ensures r && condicion != [] ==> |p.condicion| == |condicion|
  {
    && (q != [] ==> MatchesQuery(p, q))
    && (condicion != [] ==> Text.IExact(p.condicion, condicion))
  }

  /** The inclusive local-date bounds; `None` imposes nothing. */
  datatype Rango = Rango(desde: Option<Clock.Day>, hasta: Option<Clock.Day>)

  predicate InRango(t: Clock.Instant, rango: Rango)
  {
    && (rango.desde.Some? ==> rango.desde.value <= Clock.LocalDay(t))
    && (rango.hasta.Some? ==> Clock.LocalDay(t) <= rango.hasta.value)
  }

  /** A record passes every filter the page was given. */
  predicate Selected(a: Asistencia, q: string, condicion: string, rango: Rango)
  {
    ProfesorSelected(a.profesor, q, condicion) && InRango(a.fechaHora, rango)
  }

  /** A date bound as the database lookup reads it: an empty field imposes
      nothing; text that `parse_date` rejects, or that names no real day, makes
      the lookup raise. */
  function DateBound(s: string, parseDate: string -> Parsed<Clock.Day>): (r: Option<Option<Clock.Day>>)
    ensures s == [] ==> r == Some(None)
    ensures s != [] && parseDate(s).Value? ==> r == Some(Some(parseDate(s).value))
    ensures s != [] && !parseDate(s).Value? ==> r == None
  {
    if s == [] then Some(None)
    else match parseDate(s)
      case Value(d) => Some(Some(d))
      case _ => None
  }

  /** What the page shows: the records and the stripped filter values it
      echoes back, or the failure of a date bound. */
  datatype Historia =
    | Listado(asistencias: seq<Asistencia>, q: string, desde: string, hasta: string, condicion: string)
    | FechaInvalida

  /** `historial_asistencias`. */
  function Historial(asistencias: seq<Asistencia>, get: map<string, string>,
                     parseDate: string -> Parsed<Clock.Day>): (r: Historia)
    ensures var desde, hasta := Param(get, "desde"), Param(get, "hasta");
      r.FechaInvalida? <==> DateBound(desde, parseDate).None? || DateBound(hasta, parseDate).None?
    ensures r.Listado? ==>
      && r.q == Param(get, "q") && r.condicion == Param(get, "condicion")
      && r.desde == Param(get, "desde") && r.hasta == Param(get, "hasta")
      && Ordering.NewestFirst(r.asistencias)
      && var rango := Rango(DateBound(r.desde, parseDate).value, DateBound(r.hasta, parseDate).value);
         forall a :: multiset(r.asistencias)[a] ==
           if Selected(a, r.q, r.condicion, rango) then multiset(asistencias)[a] else 0
  {
    var q, desde, hasta, condicion := Param(get, "q"), Param(get, "desde"), Param(get, "hasta"), Param(get, "condicion");
    var d, h := DateBound(desde, parseDate), DateBound(hasta, parseDate);
    if d.None? || h.None? then FechaInvalida
    else
      var rango := Rango(d.value, h.value);
      var filtered := Seqs.Filter(asistencias, a => Selected(a, q, condicion, rango));
      var sorted := Ordering.SortNewestFirst(filtered);
      assert multiset(sorted) == multiset(filtered);
      Listado(sorted, q, desde, hasta, condicion)
  }

  /** A record is listed exactly when it is stored and passes every filter. */
  lemma {:induction false} ListedIffSelected(asistencias: seq<Asistencia>, get: map<string, string>,
                                             parseDate: string -> Parsed<Clock.Day>, a: Asistencia)
    requires DateBound(Param(get, "desde"), parseDate).Some? && DateBound(Param(get, "hasta"), parseDate).Some?
    ensures Historial(asistencias, get, parseDate).Listado?
    ensures var r := Historial(asistencias, get, parseDate);
      a in r.asistencias <==>
        a in asistencias && Selected(a, r.q, r.condicion,
                                     Rango(DateBound(r.desde, parseDate).value, DateBound(r.hasta, parseDate).value))
  {
    var r := Historial(asistencias, get, parseDate);
    assert a in r.asistencias <==> multiset(r.asistencias)[a] > 0;
    assert a in asistencias <==> multiset(asistencias)[a] > 0;
  }

  /** With every filter empty the page lists all the records, newest first. */
  lemma {:induction false} NoFiltersListAll(asistencias: seq<Asistencia>, get: map<string, string>,
                                            parseDate: string -> Parsed<Clock.Day>)
    requires Param(get, "q") == [] && Param(get, "condicion") == []
    requires Param(get, "desde") == [] && Param(get, "hasta") == []
    ensures Historial(asistencias, get, parseDate).Listado?
    ensures multiset(Historial(asistencias, get, parseDate).asistencias) == multiset(asistencias)
  {
    var r := Historial(asistencias, get, parseDate);
    forall a ensures multiset(r.asistencias)[a] == multiset(asistencias)[a] {
      assert Selected(a, [], [], Rango(None, None));
    }
  }
}
