/** The weekly mail command (`enviar_reporte_asistencia`): for every professor,
    in name order, a message listing that professor's records of the current
    Monday-to-Friday week, or the reason no message was sent. Sending is the
    environment's choice; the command only observes success or failure. */
module Semanal {
  import opened Wrappers
  import opened Models
  import Text
  import Clock
  import Ordering
  import Seqs

  /** The instant the command runs and the bounds of its week. */
  datatype Semana = Semana(now: Clock.Instant, desde: Clock.Instant, hasta: Clock.Instant)

  /** `_rango_lun_vie`: Monday 00:00 of the week of `now`, and Friday of the same
      week at 23:59:59.999999. */
  function RangoLunVie(now: Clock.Instant): (r: Semana)
    ensures r.now == now
    ensures r.desde <= now < r.desde + 7 * Clock.MICROS_PER_DAY
    ensures r.desde == Clock.StartOfDay(Clock.LocalDay(r.desde)) && Clock.Weekday(Clock.LocalDay(r.desde)) == 0
    ensures Clock.LocalDay(r.desde) == Clock.LocalDay(now) - Clock.Weekday(Clock.LocalDay(now))
    ensures r.hasta - r.desde == 5 * Clock.MICROS_PER_DAY - 1
    ensures Clock.LocalDay(r.hasta) == Clock.LocalDay(r.desde) + 4
  {
    var hoy := Clock.LocalDay(now);
    var lunes := hoy - Clock.Weekday(hoy);
    Semana(now, Clock.StartOfDay(lunes), Clock.StartOfDay(lunes + 4) + Clock.MICROS_PER_DAY - 1)
  }

  /** The window covers the rest of the week only from Monday to Friday: on
      Saturday and Sunday `now` lies after its end. */
  lemma {:induction false} NowInsideWindowIffWeekday(now: Clock.Instant)
    ensures now <= RangoLunVie(now).hasta <==> Clock.Weekday(Clock.LocalDay(now)) < 5
  {
    var r := RangoLunVie(now);
    var hoy := Clock.LocalDay(now);
    assert Clock.LocalDay(r.desde) == hoy - Clock.Weekday(hoy);
    assert r.hasta == Clock.StartOfDay(hoy - Clock.Weekday(hoy) + 5) - 1;
  }

  /** A record of professor `id` inside the week. */
  predicate EnSemana(a: Asistencia, id: ProfesorId, sem: Semana)
  {
    a.profesor.id == id && sem.desde <= a.fechaHora <= sem.hasta
  }

  /** The professor's records of the week, newest first. */
  function Registros(asistencias: seq<Asistencia>, id: ProfesorId, sem: Semana): (r: seq<Asistencia>)
    ensures Ordering.NewestFirst(r)
    ensures forall a :: multiset(r)[a] == if EnSemana(a, id, sem) then multiset(asistencias)[a] else 0
    ensures forall k :: 0 <= k < |r| ==> EnSemana(r[k], id, sem)
  {
    var f := Seqs.Filter(asistencias, a => EnSemana(a, id, sem));
    var s := Ordering.SortNewestFirst(f);
    assert multiset(s) == multiset(f);
    forall k | 0 <= k < |s| ensures EnSemana(s[k], id, sem) {
      assert s[k] in multiset(f);
    }
    s
  }

  predicate EsEntrada(a: Asistencia) { a.tipo == Some("E") }
  predicate EsSalida(a: Asistencia) { a.tipo == Some("S") }

  /** `entradas` and `salidas` never add up to more than `total`. */
  lemma EntradasSalidasWithinTotal(regs: seq<Asistencia>)
    ensures Seqs.Count(regs, EsEntrada) + Seqs.Count(regs, EsSalida) <= |regs|
  {
    Seqs.CountDisjoint(regs, EsEntrada, EsSalida);
  }

  /** The label of a listed record. */
  function Etiqueta(a: Asistencia): (r: string)
    ensures EsEntrada(a) ==> r == "ENTRADA"
    ensures !EsEntrada(a) ==> r == "SALIDA"
  {
    if EsEntrada(a) then "ENTRADA" else "SALIDA"
  }

  /** One listed record: its `%d/%m/%Y %H:%M` stamp, a bar, its label; the
      line splits back into the three. */
  function Linea(a: Asistencia, fmt: Clock.Instant -> string): (r: string)
    ensures var n := |fmt(a.fechaHora)|;
      && |r| == n + 3 + |Etiqueta(a)|
      && r[..n] == fmt(a.fechaHora) && r[n..n + 3] == " | " && r[n + 3..] == Etiqueta(a)
  {
    fmt(a.fechaHora) + " | " + Etiqueta(a)
  }

  /** The loop over `qs[:limite]`: one line for each of the newest `limite` records. */
  method ListarRegistros(regs: seq<Asistencia>, limite: nat, fmt: Clock.Instant -> string) returns (lines: seq<string>)
    ensures |lines| == Min(limite, |regs|)
    ensures forall k :: 0 <= k < |lines| ==> lines[k] == Linea(regs[k], fmt)
  {
    lines := [];
    var listed := Seqs.Take(regs, limite);
    var i := 0;
    while i < |listed|
      invariant 0 <= i <= |listed|
      invariant |lines| == i
      invariant forall k :: 0 <= k < i ==> lines[k] == Linea(regs[k], fmt)
    {
      lines := lines + [Linea(listed[i], fmt)];
      i := i + 1;
    }
  }

  const SEPARADOR: string := "----------------------------------------"

  /** The lines before the listing: greeting, window, totals and the listing header. */
  function Encabezado(p: Profesor, sem: Semana, regs: seq<Asistencia>, limite: nat, fmt: Clock.Instant -> string): (r: seq<string>)
    ensures |r| == 12
    ensures r[6] == "- Total registros: " + Text.NatToString(|regs|)
    ensures r[10] == "Últimos " + Text.NatToString(Min(limite, |regs|)) + " registros:"
  {
    ["Hola " + Text.Strip(ProfesorStr(p)) + ",",
     "",
     "Reporte de asistencias (Lunes a Viernes)",
     "Desde: " + fmt(sem.desde),
     "Hasta: " + fmt(sem.hasta),
     "",
     "- Total registros: " + Text.NatToString(|regs|),
     "- Entradas (E): " + Text.NatToString(Seqs.Count(regs, EsEntrada)),
     "- Salidas (S): " + Text.NatToString(Seqs.Count(regs, EsSalida)),
     "",
     "Últimos " + Text.NatToString(Min(limite, |regs|)) + " registros:",
     SEPARADOR]
  }

  /** The header's greeting names the professor and its window gives both
      ends of the week. */
  lemma EncabezadoSaludo(p: Profesor, sem: Semana, regs: seq<Asistencia>, limite: nat,
                         fmt: Clock.Instant -> string)
    ensures var r := Encabezado(p, sem, regs, limite, fmt);
      && r[0] == "Hola " + Text.Strip(ProfesorStr(p)) + ","
      && r[2] == "Reporte de asistencias (Lunes a Viernes)"
      && r[3] == "Desde: " + fmt(sem.desde) && r[4] == "Hasta: " + fmt(sem.hasta)
      && r[1] == "" && r[5] == "" && r[9] == "" && r[11] == SEPARADOR
  {
  }

  /** The header's entry and exit totals are the sizes of the filtered
      records (`qs.filter(tipo=...).count()`). */
  lemma {:induction false} EncabezadoTotales(p: Profesor, sem: Semana, regs: seq<Asistencia>, limite: nat,
                                             fmt: Clock.Instant -> string)
    ensures var r := Encabezado(p, sem, regs, limite, fmt);
      && r[7] == "- Entradas (E): " + Text.NatToString(|Seqs.Filter(regs, EsEntrada)|)
      && r[8] == "- Salidas (S): " + Text.NatToString(|Seqs.Filter(regs, EsSalida)|)
  {
    Seqs.CountIsFilterLength(regs, EsEntrada);
    Seqs.CountIsFilterLength(regs, EsSalida);
  }

  /** The message body, line by line, before it is joined with newlines. */
  function Cuerpo(p: Profesor, sem: Semana, regs: seq<Asistencia>, limite: nat, fmt: Clock.Instant -> string): (r: seq<string>)
    ensures |r| == 14 + Min(limite, |regs|)
    ensures r[..12] == Encabezado(p, sem, regs, limite, fmt)
    ensures forall k :: 0 <= k < Min(limite, |regs|) ==> r[12 + k] == Linea(regs[k], fmt)
    ensures r[|r| - 2] == "" && r[|r| - 1] == "Saludos."
  {
    Encabezado(p, sem, regs, limite, fmt)
    + seq(Min(limite, |regs|), k requires 0 <= k < Min(limite, |regs|) => Linea(regs[k], fmt))
    + ["", "Saludos."]
  }

  /** The header announces exactly as many records as the body lists. */
  lemma {:induction false} HeaderMatchesListing(p: Profesor, sem: Semana, regs: seq<Asistencia>, limite: nat,
                                                fmt: Clock.Instant -> string)
    ensures var body := Cuerpo(p, sem, regs, limite, fmt);
      body[10] == "Últimos " + Text.NatToString(|body| - 14) + " registros:"
  {
    var body := Cuerpo(p, sem, regs, limite, fmt);
    assert body[10] == body[..12][10];
  }

  /** What the command does for one professor, before the send. */
  datatype Plan =
    | Saltar
    | Vacio
    | Correo(to: string, regs: seq<Asistencia>)

  /** `(prof.email or "").strip()`. */
  function Email(p: Profesor): (r: string)
    ensures p.email.None? ==> r == []
    ensures p.email.Some? ==> r == Text.Strip(p.email.value)
    ensures r != [] ==> !Text.IsSpace(r[0]) && !Text.IsSpace(r[|r| - 1])
  {
    Text.Strip(if p.email.Some? then p.email.value else "")
  }

  /** A blank address skips the professor, no record of the week gives nothing
      to send, otherwise a message to the stripped address. */
  function PlanFor(p: Profesor, asistencias: seq<Asistencia>, sem: Semana): (r: Plan)
    ensures r.Saltar? <==> Email(p) == []
    ensures r.Vacio? <==> Email(p) != [] && Registros(asistencias, p.id, sem) == []
    ensures r.Correo? ==> r.to == Email(p) && r.regs == Registros(asistencias, p.id, sem) && r.regs != []
  {
    var email := Email(p);
    if email == [] then Saltar
    else
      var regs := Registros(asistencias, p.id, sem);
      if regs == [] then Vacio else Correo(email, regs)
  }

  /** The fate of one professor. */
  datatype Resultado =
    | Saltado
    | SinRegistros
    | Enviado(to: string, body: seq<string>)
    | FalloEnvio(to: string, body: seq<string>)

  /** `res` is an outcome the command can reach for plan `plan`: a message
      needs a non-negative `limite`; in a dry run it is only printed and still
      counts as sent; otherwise the send may succeed or fail. */
  predicate Conforme(res: Resultado, plan: Plan, p: Profesor, sem: Semana, limite: int,
                     dryRun: bool, fmt: Clock.Instant -> string)
  {
    match plan
    case Saltar => res == Saltado
    case Vacio => res == SinRegistros
    case Correo(to, regs) =>
      && limite >= 0
      && var body := Cuerpo(p, sem, regs, limite as nat, fmt);
         res == Enviado(to, body) || (!dryRun && res == FalloEnvio(to, body))
  }

  predicate IsEnviado(r: Resultado) { r.Enviado? }
  predicate IsSaltado(r: Resultado) { r.Saltado? }
  predicate IsSinRegistros(r: Resultado) { r.SinRegistros? }
  predicate IsFallo(r: Resultado) { r.FalloEnvio? }

  /** The body as `handle` assembles it: the header lines, the listed records,
      a blank line and the closing. */
  method Mensaje(p: Profesor, sem: Semana, regs: seq<Asistencia>, limite: nat, fmt: Clock.Instant -> string)
    returns (body: seq<string>)
    ensures body == Cuerpo(p, sem, regs, limite, fmt)
  {
    var lines := ListarRegistros(regs, limite, fmt);
    assert lines == seq(Min(limite, |regs|), k requires 0 <= k < Min(limite, |regs|) => Linea(regs[k], fmt));
    body := Encabezado(p, sem, regs, limite, fmt) + lines + ["", "Saludos."];
  }

  /** One message: printed in a dry run, otherwise handed to the mail
      transport, whose success the command cannot predict. */
  method Enviar(to: string, body: seq<string>, dryRun: bool) returns (res: Resultado)
    ensures res == Enviado(to, body) || (!dryRun && res == FalloEnvio(to, body))
    ensures dryRun ==> res == Enviado(to, body)
  {
    if dryRun {
      return Enviado(to, body);
    }
    var delivered: bool :| true;
    res := if delivered then Enviado(to, body) else FalloEnvio(to, body);
  }

  /** One iteration of the loop of `handle`: the outcome for professor `p`, or
      `None` when the slice `qs[:limite]` raises because `limite` is negative. */
  method Atender(p: Profesor, asistencias: seq<Asistencia>, sem: Semana, limite: int,
                 dryRun: bool, fmt: Clock.Instant -> string) returns (res: Option<Resultado>)
    ensures res.None? <==> limite < 0 && PlanFor(p, asistencias, sem).Correo?
    ensures res.Some? ==> Conforme(res.value, PlanFor(p, asistencias, sem), p, sem, limite, dryRun, fmt)
  {
    match PlanFor(p, asistencias, sem)
    case Saltar => return Some(Saltado);
    case Vacio => return Some(SinRegistros);
    case Correo(to, regs) =>
      if limite < 0 {
        return None;
      }
      var body := Mensaje(p, sem, regs, limite, fmt);
      var sent := Enviar(to, body, dryRun);
      return Some(sent);
  }

  /** What `handle` leaves behind: the three counters it prints, the outcome of
      every professor it reached, and whether it stopped on an exception. */
  datatype Salida = Salida(enviados: nat, saltados: nat, sinRegistros: nat, resultados: seq<Resultado>, aborted: bool)

  /** Every professor reached so far has an outcome that conforms to its plan. */
  predicate Handled(rs: seq<Resultado>, profs: seq<Profesor>, asistencias: seq<Asistencia>, sem: Semana,
                    limite: int, dryRun: bool, fmt: Clock.Instant -> string)
  {
    |rs| <= |profs| &&
    (rs != [] ==>
      && Handled(rs[..|rs| - 1], profs, asistencias, sem, limite, dryRun, fmt)
      && Conforme(rs[|rs| - 1], PlanFor(profs[|rs| - 1], asistencias, sem), profs[|rs| - 1], sem, limite, dryRun, fmt))
  }

  lemma HandledAppend(rs: seq<Resultado>, r: Resultado, profs: seq<Profesor>, asistencias: seq<Asistencia>,
                      sem: Semana, limite: int, dryRun: bool, fmt: Clock.Instant -> string)
    requires Handled(rs, profs, asistencias, sem, limite, dryRun, fmt) && |rs| < |profs|
    requires Conforme(r, PlanFor(profs[|rs|], asistencias, sem), profs[|rs|], sem, limite, dryRun, fmt)
    ensures Handled(rs + [r], profs, asistencias, sem, limite, dryRun, fmt)
  {
    assert (rs + [r])[..|rs|] == rs;
  }

  /** The outcome of each reached professor conforms to that professor's plan. */
  lemma {:induction false} HandledAt(rs: seq<Resultado>, profs: seq<Profesor>, asistencias: seq<Asistencia>,
                                     sem: Semana, limite: int, dryRun: bool, fmt: Clock.Instant -> string, k: nat)
    requires Handled(rs, profs, asistencias, sem, limite, dryRun, fmt) && k < |rs|
    ensures Conforme(rs[k], PlanFor(profs[k], asistencias, sem), profs[k], sem, limite, dryRun, fmt)
  {
    if k < |rs| - 1 {
      HandledAt(rs[..|rs| - 1], profs, asistencias, sem, limite, dryRun, fmt, k);
      assert rs[..|rs| - 1][k] == rs[k];
    }
  }

  /** The three printed counters count the outcomes of their kind. */
  predicate Tallied(enviados: nat, saltados: nat, sinRegistros: nat, rs: seq<Resultado>)
  {
    && enviados == Seqs.Count(rs, IsEnviado)
    && saltados == Seqs.Count(rs, IsSaltado)
    && sinRegistros == Seqs.Count(rs, IsSinRegistros)
  }

  lemma TalliedAppend(enviados: nat, saltados: nat, sinRegistros: nat, rs: seq<Resultado>, r: Resultado)
    requires Tallied(enviados, saltados, sinRegistros, rs)
    ensures Tallied(enviados + (if r.Enviado? then 1 else 0), saltados + (if r.Saltado? then 1 else 0),
                    sinRegistros + (if r.SinRegistros? then 1 else 0), rs + [r])
  {
    Seqs.CountAppend(rs, r, IsEnviado);
    Seqs.CountAppend(rs, r, IsSaltado);
    Seqs.CountAppend(rs, r, IsSinRegistros);
  }

  /** `handle`. A negative `limite` makes the slice `qs[:limite]` raise at the
      first professor that has an address and records; the professors before
      that one have been handled, and their messages sent. */
  method Handle(roster: seq<Profesor>, asistencias: seq<Asistencia>, now: Clock.Instant, limite: int,
                dryRun: bool, fmt: Clock.Instant -> string) returns (out: Salida)
    ensures var profs, sem := Ordering.SortByName(roster), RangoLunVie(now);
      && Handled(out.resultados, profs, asistencias, sem, limite, dryRun, fmt)
      && (out.aborted <==> |out.resultados| < |profs|)
      && (out.aborted ==> limite < 0 && PlanFor(profs[|out.resultados|], asistencias, sem).Correo?)
      && Tallied(out.enviados, out.saltados, out.sinRegistros, out.resultados)
  {
    out := Recorrer(Ordering.SortByName(roster), asistencias, RangoLunVie(now), limite, dryRun, fmt);
  }

  /** The loop of `handle` over the professors in name order. */
  method Recorrer(profs: seq<Profesor>, asistencias: seq<Asistencia>, sem: Semana, limite: int,
                  dryRun: bool, fmt: Clock.Instant -> string) returns (out: Salida)
    ensures Handled(out.resultados, profs, asistencias, sem, limite, dryRun, fmt)
    ensures out.aborted <==> |out.resultados| < |profs|
    ensures out.aborted ==> limite < 0 && PlanFor(profs[|out.resultados|], asistencias, sem).Correo?
    ensures Tallied(out.enviados, out.saltados, out.sinRegistros, out.resultados)
  {
    var enviados, saltados, sinRegistros := 0, 0, 0;
    var resultados: seq<Resultado> := [];
    var i := 0;
    while i < |profs|
      invariant 0 <= i <= |profs| && |resultados| == i
      invariant Handled(resultados, profs, asistencias, sem, limite, dryRun, fmt)
      invariant Tallied(enviados, saltados, sinRegistros, resultados)
    {
      var step := Atender(profs[i], asistencias, sem, limite, dryRun, fmt);
      if step.None? {
        return Salida(enviados, saltados, sinRegistros, resultados, true);
      }
      var res := step.value;
      HandledAppend(resultados, res, profs, asistencias, sem, limite, dryRun, fmt);
      TalliedAppend(enviados, saltados, sinRegistros, resultados, res);
      enviados := enviados + if res.Enviado? then 1 else 0;
      saltados := saltados + if res.Saltado? then 1 else 0;
      sinRegistros := sinRegistros + if res.SinRegistros? then 1 else 0;
      resultados := resultados + [res];
      i := i + 1;
    }
    return Salida(enviados, saltados, sinRegistros, resultados, false);
  }

  /** Every reached professor is in exactly one of the four buckets, so the
      three printed counters never exceed the professors reached, and in a dry
      run (no send can fail) they add up to exactly that number. */
  lemma {:induction false} BucketsPartition(rs: seq<Resultado>)
    ensures Seqs.Count(rs, IsEnviado) + Seqs.Count(rs, IsSaltado) + Seqs.Count(rs, IsSinRegistros)
            + Seqs.Count(rs, IsFallo) == |rs|
  {
    if rs != [] {
      BucketsPartition(rs[1..]);
    }
  }

  lemma {:induction false} DryRunCountsAll(rs: seq<Resultado>)
    requires forall k :: 0 <= k < |rs| ==> !rs[k].FalloEnvio?
    ensures Seqs.Count(rs, IsEnviado) + Seqs.Count(rs, IsSaltado) + Seqs.Count(rs, IsSinRegistros) == |rs|
  {
    BucketsPartition(rs);
    NoFallos(rs);
  }

  lemma {:induction false} NoFallos(rs: seq<Resultado>)
    requires forall k :: 0 <= k < |rs| ==> !rs[k].FalloEnvio?
    ensures Seqs.Count(rs, IsFallo) == 0
  {
    if rs != [] {
      NoFallos(rs[1..]);
    }
  }

  /** In a dry run no send fails. */
  lemma DryRunNeverFails(rs: seq<Resultado>, profs: seq<Profesor>, asistencias: seq<Asistencia>,
                         sem: Semana, limite: int, fmt: Clock.Instant -> string)
    requires Handled(rs, profs, asistencias, sem, limite, true, fmt)
    ensures forall k :: 0 <= k < |rs| ==> !rs[k].FalloEnvio?
  {
    forall k | 0 <= k < |rs| ensures !rs[k].FalloEnvio? {
      HandledAt(rs, profs, asistencias, sem, limite, true, fmt, k);
    }
  }

  /** The printed counters never exceed the number of professors; a dry run
      that completes accounts for every professor in them. */
  lemma CountersAccountForProfessors(roster: seq<Profesor>, asistencias: seq<Asistencia>, now: Clock.Instant,
                                     limite: int, dryRun: bool, fmt: Clock.Instant -> string, out: Salida)
    requires var profs, sem := Ordering.SortByName(roster), RangoLunVie(now);
      && Handled(out.resultados, profs, asistencias, sem, limite, dryRun, fmt)
      && (out.aborted <==> |out.resultados| < |profs|)
      && Tallied(out.enviados, out.saltados, out.sinRegistros, out.resultados)
    ensures out.enviados + out.saltados + out.sinRegistros <= |roster|
    ensures dryRun && !out.aborted ==> out.enviados + out.saltados + out.sinRegistros == |roster|
  {
    var profs, sem := Ordering.SortByName(roster), RangoLunVie(now);
    BucketsPartition(out.resultados);
    if dryRun {
      DryRunNeverFails(out.resultados, profs, asistencias, sem, limite, fmt);
      DryRunCountsAll(out.resultados);
    }
  }
}
