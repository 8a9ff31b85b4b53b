/** The two stored record shapes, `Profesor` and `Asistencia`, their field
    bounds, their text forms and the cascade that deleting a professor
    triggers. */
module Models {
  import opened Wrappers
  import Text
  import Clock

  /** The primary key Django gives every row. */
  type ProfesorId = nat

  /** A staff member. `email` is not declared by the model class but is read
      by the weekly mail command, so it is an optional field here. */
  datatype Profesor = Profesor(
    id: ProfesorId,
    codigo: Option<string>,
    dni: string,
    apellidos: string,
    nombres: string,
    condicion: string,
    email: Option<string>)

  /** One attendance record: the professor (the foreign key, joined) and the
      instant it was taken. `tipo` ("E" entry, "S" exit) is not declared by the
      model class but is read by the weekly mail command, so it is optional. */
  datatype Asistencia = Asistencia(profesor: Profesor, fechaHora: Clock.Instant, tipo: Option<string>)

  const DNI_MAX: nat := 8
  const NAME_MAX: nat := 120
  const CONDICION_MAX: nat := 20
  const CODIGO_MAX: nat := 20

  /** The `max_length` bounds the database column types impose. */
  predicate FieldsFit(p: Profesor)
  {
    && |p.dni| <= DNI_MAX
    && |p.apellidos| <= NAME_MAX
    && |p.nombres| <= NAME_MAX
    && |p.condicion| <= CONDICION_MAX
    && (p.codigo.Some? ==> |p.codigo.value| <= CODIGO_MAX)
  }

  /** `dni` is declared `unique=True`; primary keys are unique too. */
  predicate UniqueKeys(roster: seq<Profesor>)
  {
    forall i, j :: 0 <= i < j < |roster| ==> roster[i].dni != roster[j].dni && roster[i].id != roster[j].id
  }

  /** What the database guarantees of the two tables together: field bounds,
      unique keys, and every attendance row pointing at a stored professor.
      Nothing here limits how many rows one professor has on one day. */
  predicate Consistent(roster: seq<Profesor>, asistencias: seq<Asistencia>)
  {
    && UniqueKeys(roster)
    && (forall p :: p in roster ==> FieldsFit(p))
    && (forall a :: a in asistencias ==> a.profesor in roster)
  }

  /** Two different stored professors never share a dni. */
  lemma {:induction false} DniIdentifies(roster: seq<Profesor>, p: Profesor, q: Profesor)
    requires UniqueKeys(roster)
    requires p in roster && q in roster && p.dni == q.dni
    ensures p == q
  {
    var i :| 0 <= i < |roster| && roster[i] == p;
    var j :| 0 <= j < |roster| && roster[j] == q;
    if i != j {
      assert false;
    }
  }

  /** The professor on day `d` has at least one record. */
  predicate HasRecordOn(asistencias: seq<Asistencia>, id: ProfesorId, d: Clock.Day)
  {
    exists a :: a in asistencias && a.profesor.id == id && Clock.LocalDay(a.fechaHora) == d
  }

  /** The property the registration path keeps and the schema does not impose:
      no two records of one professor fall on the same local day. */
  predicate AtMostOnePerDay(asistencias: seq<Asistencia>)
  {
    forall i, j :: 0 <= i < j < |asistencias| ==>
      asistencias[i].profesor.id != asistencias[j].profesor.id
      || Clock.LocalDay(asistencias[i].fechaHora) != Clock.LocalDay(asistencias[j].fechaHora)
  }

  /** Adding a record for a (professor, day) that has none keeps the property. */
  lemma {:induction false} AppendKeepsAtMostOnePerDay(asistencias: seq<Asistencia>, a: Asistencia)
    requires AtMostOnePerDay(asistencias)
    requires !HasRecordOn(asistencias, a.profesor.id, Clock.LocalDay(a.fechaHora))
    ensures AtMostOnePerDay(asistencias + [a])
  {
    var s := asistencias + [a];
    forall i, j | 0 <= i < j < |s|
      ensures s[i].profesor.id != s[j].profesor.id || Clock.LocalDay(s[i].fechaHora) != Clock.LocalDay(s[j].fechaHora)
    {
      if j == |asistencias| {
        assert s[i] in asistencias;
      }
    }
  }

  /** No record is dated after instant `t`: the records were created by
      earlier requests, whose clock read no later than `t`. */
  predicate NotAfter(asistencias: seq<Asistencia>, t: Clock.Instant)
  {
    forall a :: a in asistencias ==> a.fechaHora <= t
  }

  /** When all records predate `now` and none of professor `id` falls on the
      day of `now`, none falls on the day of any later instant either. */
  lemma {:induction false} NoRecordOnLaterDay(asistencias: seq<Asistencia>, id: ProfesorId,
                                             now: Clock.Instant, stamp: Clock.Instant)
    requires NotAfter(asistencias, now) && now <= stamp
    requires !HasRecordOn(asistencias, id, Clock.LocalDay(now))
    ensures !HasRecordOn(asistencias, id, Clock.LocalDay(stamp))
  {
    Clock.LocalDayMonotone(now, stamp);
    forall a | a in asistencias
      ensures Clock.LocalDay(a.fechaHora) <= Clock.LocalDay(now)
    {
      Clock.LocalDayMonotone(a.fechaHora, now);
    }
  }

  /** The schema admits two records of one professor on one day: a consistent
      pair of tables that breaks the per-day property. */
  lemma StorageAdmitsDuplicates(p: Profesor)
    requires FieldsFit(p)
    ensures Consistent([p], [Asistencia(p, 0, None), Asistencia(p, 1, None)])
    ensures !AtMostOnePerDay([Asistencia(p, 0, None), Asistencia(p, 1, None)])
  {
    var s := [Asistencia(p, 0, None), Asistencia(p, 1, None)];
    assert Clock.LocalDay(s[0].fechaHora) == Clock.LocalDay(s[1].fechaHora) == 0;
  }

  /** `Profesor.__str__`: the surnames, one space, the given names. */
  function ProfesorStr(p: Profesor): (r: string)
    ensures |r| == |p.apellidos| + 1 + |p.nombres|
    ensures r[..|p.apellidos|] == p.apellidos && r[|p.apellidos|] == ' ' && r[|p.apellidos| + 1..] == p.nombres
  {
    p.apellidos + " " + p.nombres
  }

  /** The text before the first space, and the text after it. */
  function SplitAtSpace(s: string): (string, string)
  {
    if s == [] then ([], [])
    else if s[0] == ' ' then ([], s[1..])
    else var (a, b) := SplitAtSpace(s[1..]); ([s[0]] + a, b)
  }

  /** When the surnames hold no space the text form gives both names back;
      with a space inside the surnames (two surnames, as is usual) it does not,
      because the text form does not mark where the surnames end. */
  lemma {:induction false} ProfesorStrRoundTrip(p: Profesor)
    requires ' ' !in p.apellidos
    ensures SplitAtSpace(ProfesorStr(p)) == (p.apellidos, p.nombres)
  {
    SplitAfterWord(p.apellidos, p.nombres);
    assert ProfesorStr(p) == p.apellidos + ([' '] + p.nombres);
  }

  lemma {:induction false} SplitAfterWord(w: string, rest: string)
    requires ' ' !in w
    ensures SplitAtSpace(w + ([' '] + rest)) == (w, rest)
  {
    if w != [] {
      SplitAfterWord(w[1..], rest);
      assert (w + ([' '] + rest))[1..] == w[1..] + ([' '] + rest);
      assert [w[0]] + w[1..] == w;
    } else {
      assert (w + ([' '] + rest))[1..] == rest;
    }
  }

  /** `Asistencia.__str__`: the professor's text form, " - ", then the stamp
      rendered by `format` (the `%d/%m/%Y %H:%M` pattern). */
  function AsistenciaStr(a: Asistencia, format: Clock.Instant -> string): (r: string)
    ensures ProfesorStr(a.profesor) + " - " <= r
    ensures r[|ProfesorStr(a.profesor)| + 3..] == format(a.fechaHora)
  {
    ProfesorStr(a.profesor) + " - " + format(a.fechaHora)
  }

  /** `on_delete=CASCADE`: the records that survive deleting professor `id`. */
  function Cascade(asistencias: seq<Asistencia>, id: ProfesorId): (r: seq<Asistencia>)
    ensures forall a :: a in r ==> a.profesor.id != id
    ensures forall a: Asistencia :: a.profesor.id != id ==> multiset(r)[a] == multiset(asistencias)[a]
    ensures |r| <= |asistencias|
  {
    if asistencias == [] then []
    else
      var rest := Cascade(asistencias[..|asistencias| - 1], id);
      var last := asistencias[|asistencias| - 1];
      assert asistencias == asistencias[..|asistencias| - 1] + [last];
      if last.profesor.id == id then rest else rest + [last]
  }
}
