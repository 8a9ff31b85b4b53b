/** The one-day spreadsheet report (`exportar_reporte_excel`): every professor
    passing the history page's professor filters, in name order, numbered from
    1, marked as present (with the time of the first record of the day) or
    absent, and the column widths fitted to the longest cell. Styling and the
    file itself are not modelled; the sheet is its grid of cell texts. */
module Reporte {
  import opened Wrappers
  import opened Models
  import Text
  import Clock
  import Ordering
  import Historial
  import Seqs

  /** The day the report evaluates: the `desde` field when `parse_date` reads a
      day from it, today when the field is empty or does not look like a date,
      and `None` when it looks like a date that does not exist (`parse_date`
      raises and the request fails). */
  function FechaEval(desde: string, parseDate: string -> Parsed<Clock.Day>, today: Clock.Day): (r: Option<Clock.Day>)
    ensures desde == [] ==> r == Some(today)
    ensures desde != [] ==> match parseDate(desde)
      case NoMatch => r == Some(today)
      case Malformed => r == None
      case Value(d) => r == Some(d)
  {
    if desde == [] then Some(today)
    else match parseDate(desde)
      case NoMatch => Some(today)
      case Malformed => None
      case Value(d) => Some(d)
  }

  /** The report's professors: the selected ones, ordered by surnames then names. */
  function Seleccion(roster: seq<Profesor>, q: string, condicion: string): (r: seq<Profesor>)
    ensures Ordering.ByName(r)
    ensures forall p :: multiset(r)[p] == if Historial.ProfesorSelected(p, q, condicion) then multiset(roster)[p] else 0
    ensures |r| <= |roster|
  {
    var f := Seqs.Filter(roster, p => Historial.ProfesorSelected(p, q, condicion));
    var s := Ordering.SortByName(f);
    assert multiset(s) == multiset(f);
    s
  }

  /** `t` is the time of the first record of professor `id` on `day`. */
  predicate IsFirstOfDay(asistencias: seq<Asistencia>, id: ProfesorId, day: Clock.Day, t: Clock.Instant)
  {
    && (exists a :: a in asistencias && a.profesor.id == id && Clock.LocalDay(a.fechaHora) == day && a.fechaHora == t)
    && (forall a :: a in asistencias && a.profesor.id == id && Clock.LocalDay(a.fechaHora) == day ==> t <= a.fechaHora)
  }

  /** What the first-time map promises: a key for exactly the professors with
      a record on `day`, holding the time of their first one. */
  ghost predicate FirstTimesOf(m: map<ProfesorId, Clock.Instant>, asistencias: seq<Asistencia>, day: Clock.Day)
  {
    && (forall id :: id in m <==> HasRecordOn(asistencias, id, day))
    && (forall id :: id in m ==> IsFirstOfDay(asistencias, id, day, m[id]))
  }

  /** The `profesor_id -> Min(fecha_hora)` map of the records dated `day`. */
  method FirstTimes(asistencias: seq<Asistencia>, day: Clock.Day) returns (m: map<ProfesorId, Clock.Instant>)
    ensures FirstTimesOf(m, asistencias, day)
  {
    m := map[];
    var i := 0;
    while i < |asistencias|
      invariant 0 <= i <= |asistencias|
      invariant FirstTimesOf(m, asistencias[..i], day)
    {
      var a := asistencias[i];
      assert asistencias[..i + 1] == asistencias[..i] + [a];
      if Clock.LocalDay(a.fechaHora) == day && (a.profesor.id !in m || a.fechaHora < m[a.profesor.id]) {
        m := m[a.profesor.id := a.fechaHora];
      }
      i := i + 1;
    }
    assert asistencias[..i] == asistencias;
  }

  datatype Estado = Asistio | Falto

  /** The text of the `Estado` cell. */
  function EstadoText(e: Estado): (r: string)
    ensures e == Asistio ==> r == "ASISTIÓ"
    ensures e == Falto ==> r == "FALTÓ"
    ensures r == "ASISTIÓ" <==> e == Asistio
  {
    match e
    case Asistio => "ASISTIÓ"
    case Falto => "FALTÓ"
  }

  /** One data row: number, the professor's dni, code, surnames, names and
      condition, then the state and the time. */
  datatype Fila = Fila(numero: nat, dni: string, codigo: Option<string>, apellidos: string,
                       nombres: string, condicion: string, estado: Estado, hora: string)

  /** Row `f` shows professor `p` under number `numero`. */
  predicate RowOf(f: Fila, numero: nat, p: Profesor)
  {
    && f.numero == numero && f.dni == p.dni && f.codigo == p.codigo
    && f.apellidos == p.apellidos && f.nombres == p.nombres && f.condicion == p.condicion
  }

  /** Row `f` reads its state and time from the first-time map. */
  predicate RowFromMap(f: Fila, id: ProfesorId, primera: map<ProfesorId, Clock.Instant>)
  {
    && (f.estado == Asistio <==> id in primera)
    && (f.estado == Asistio ==> f.hora == Clock.Hhmm(primera[id]))
    && (f.estado == Falto ==> f.hora == [])
  }

  /** Row `f` says whether professor `id` has a record on `day` and, if so,
      shows the time of the first one. */
  ghost predicate RowReports(f: Fila, id: ProfesorId, asistencias: seq<Asistencia>, day: Clock.Day)
  {
    && (f.estado == Asistio <==> HasRecordOn(asistencias, id, day))
    && (f.estado == Asistio ==> exists t :: IsFirstOfDay(asistencias, id, day, t) && f.hora == Clock.Hhmm(t))
    && (f.estado == Falto ==> f.hora == [])
  }

  /** A row read from a first-time map of `day` reports on `day`. */
  lemma RowFromMapReports(f: Fila, id: ProfesorId, primera: map<ProfesorId, Clock.Instant>,
                          asistencias: seq<Asistencia>, day: Clock.Day)
    requires FirstTimesOf(primera, asistencias, day) && RowFromMap(f, id, primera)
    ensures RowReports(f, id, asistencias, day)
  {
    if f.estado == Asistio {
      assert IsFirstOfDay(asistencias, id, day, primera[id]);
    }
  }

  /** The loop over the ordered professors, numbering rows from 1. */
  method BuildRows(profesores: seq<Profesor>, primera: map<ProfesorId, Clock.Instant>) returns (filas: seq<Fila>)
    ensures |filas| == |profesores|
    ensures forall i :: 0 <= i < |filas| ==> RowOf(filas[i], i + 1, profesores[i]) && RowFromMap(filas[i], profesores[i].id, primera)
  {
    filas := [];
    var i := 0;
    while i < |profesores|
      invariant 0 <= i <= |profesores|
      invariant |filas| == i
      invariant forall k :: 0 <= k < i ==> RowOf(filas[k], k + 1, profesores[k]) && RowFromMap(filas[k], profesores[k].id, primera)
    {
      var p := profesores[i];
      var estado, hora;
      if p.id in primera {
        estado, hora := Asistio, Clock.Hhmm(primera[p.id]);
      } else {
        estado, hora := Falto, "";
      }
      filas := filas + [Fila(i + 1, p.dni, p.codigo, p.apellidos, p.nombres, p.condicion, estado, hora)];
      i := i + 1;
    }
  }

  /** A cell of the sheet: the text `str(value)` writes, or nothing. */
  type Cell = Option<string>

  const HEADERS: seq<string> := ["#", "DNI", "Código", "Apellidos", "Nombres", "Condición", "Estado", "Hora"]
  const COLUMNS: nat := 8
  const MAX_WIDTH: int := 40

  /** The cells of one data row, in the order of the headers: the number
      (written in decimal, so it reads back), the professor's fields, the
      state's text and the time. Only a missing code leaves a cell empty. */
  function RowCells(f: Fila): (r: seq<Cell>)
    ensures |r| == COLUMNS
    ensures forall c :: 0 <= c < COLUMNS && c != 2 ==> r[c].Some?
    ensures r[0] == Some(Text.NatToString(f.numero)) && Text.DigitsValue(r[0].value) == f.numero
    ensures r[1] == Some(f.dni) && r[2] == f.codigo && r[3] == Some(f.apellidos)
    ensures r[4] == Some(f.nombres) && r[5] == Some(f.condicion)
    ensures r[6] == Some(EstadoText(f.estado)) && r[7] == Some(f.hora)
  {
    Text.NatToStringRoundTrip(f.numero);
    [Some(Text.NatToString(f.numero)), Some(f.dni), f.codigo, Some(f.apellidos),
     Some(f.nombres), Some(f.condicion), Some(EstadoText(f.estado)), Some(f.hora)]
  }

  /** The grid: the title in the first cell of row 1 (the rest of the merged
      row is empty), the headers in row 2, then one row per data row. */
  function Sheet(titulo: string, filas: seq<Fila>): (r: seq<seq<Cell>>)
    ensures |r| == |filas| + 2
    ensures |r[0]| == COLUMNS && r[0][0] == Some(titulo) && r[1] == seq(COLUMNS, c requires 0 <= c < COLUMNS => Some(HEADERS[c]))
    ensures forall i :: 0 <= i < |filas| ==> r[i + 2] == RowCells(filas[i])
  {
    [[Some(titulo), None, None, None, None, None, None, None],
     seq(COLUMNS, c requires 0 <= c < COLUMNS => Some(HEADERS[c]))]
    + seq(|filas|, i requires 0 <= i < |filas| => RowCells(filas[i]))
  }

  function CellAt(row: seq<Cell>, c: nat): Cell
  {
    if c < |row| then row[c] else None
  }

  function CellLength(cell: Cell): nat
  {
    if cell.Some? then |cell.value| else 0
  }

  /** The length of the longest text in column `c`, 0 when it holds none. */
  function ColumnMax(sheet: seq<seq<Cell>>, c: nat): (r: nat)
    ensures forall k :: 0 <= k < |sheet| ==> CellLength(CellAt(sheet[k], c)) <= r
    ensures r == 0 || exists k :: 0 <= k < |sheet| && CellLength(CellAt(sheet[k], c)) == r
  {
    if sheet == [] then 0
    else
      var rest := ColumnMax(sheet[..|sheet| - 1], c);
      var last := CellLength(CellAt(sheet[|sheet| - 1], c));
      assert forall k :: 0 <= k < |sheet| - 1 ==> sheet[..|sheet| - 1][k] == sheet[k];
      if last > rest then last else rest
  }

  /** Each of the eight columns is two wider than its longest text, capped at 40. */
  predicate WidthsFit(sheet: seq<seq<Cell>>, widths: seq<int>)
  {
    |widths| == COLUMNS && forall c :: 0 <= c < COLUMNS ==> widths[c] == Min(ColumnMax(sheet, c) + 2, MAX_WIDTH)
  }

  /** The width setting loop. */
  method ColumnWidths(sheet: seq<seq<Cell>>) returns (widths: seq<int>)
    ensures WidthsFit(sheet, widths)
    ensures forall c :: 0 <= c < COLUMNS ==> 2 <= widths[c] <= MAX_WIDTH
    ensures forall c, k :: 0 <= c < COLUMNS && 0 <= k < |sheet| ==>
      widths[c] == MAX_WIDTH || CellLength(CellAt(sheet[k], c)) + 2 <= widths[c]
  {
    widths := [];
    var col := 0;
    while col < COLUMNS
      invariant 0 <= col <= COLUMNS
      invariant |widths| == col
      invariant forall c :: 0 <= c < col ==> widths[c] == Min(ColumnMax(sheet, c) + 2, MAX_WIDTH)
    {
      var maxLen := 0;
      var k := 0;
      while k < |sheet|
        invariant 0 <= k <= |sheet|
        invariant maxLen == ColumnMax(sheet[..k], col)
      {
        assert sheet[..k + 1][..k] == sheet[..k];
        var cell := CellAt(sheet[k], col);
        if cell.Some? {
          maxLen := Max(maxLen, |cell.value|);
        }
        k := k + 1;
      }
      assert sheet[..k] == sheet;
      widths := widths + [Min(maxLen + 2, MAX_WIDTH)];
      col := col + 1;
    }
  }

  /** The report as computed: the evaluated day, the rows, the sheet and the
      column widths. */
  datatype Informe = Informe(fecha: Clock.Day, filas: seq<Fila>, hoja: seq<seq<Cell>>, anchos: seq<int>)

  /** `exportar_reporte_excel` up to writing the file. `dateText` is the
      `%d/%m/%Y` rendering of a day used in the title. The result is `None`
      when the `desde` field names a day that does not exist. */
  method Exportar(roster: seq<Profesor>, asistencias: seq<Asistencia>, get: map<string, string>,
                  parseDate: string -> Parsed<Clock.Day>, today: Clock.Day, dateText: Clock.Day -> string)
    returns (r: Option<Informe>)
    ensures r.None? <==> FechaEval(Historial.Param(get, "desde"), parseDate, today).None?
    ensures r.Some? ==>
      var inf, profesores := r.value, Seleccion(roster, Historial.Param(get, "q"), Historial.Param(get, "condicion"));
      && inf.fecha == FechaEval(Historial.Param(get, "desde"), parseDate, today).value
      && |inf.filas| == |profesores|
      && (forall i :: 0 <= i < |inf.filas| ==>
            RowOf(inf.filas[i], i + 1, profesores[i]) && RowReports(inf.filas[i], profesores[i].id, asistencias, inf.fecha))
      && inf.hoja == Sheet("REPORTE DE ASISTENCIA - " + dateText(inf.fecha), inf.filas)
      && WidthsFit(inf.hoja, inf.anchos)
  {
    var fecha := FechaEval(Historial.Param(get, "desde"), parseDate, today);
    if fecha.None? {
      return None;
    }
    var profesores := Seleccion(roster, Historial.Param(get, "q"), Historial.Param(get, "condicion"));
    var primera := FirstTimes(asistencias, fecha.value);
    var filas := BuildRows(profesores, primera);
    forall i | 0 <= i < |filas|
      ensures RowReports(filas[i], profesores[i].id, asistencias, fecha.value)
    {
      RowFromMapReports(filas[i], profesores[i].id, primera, asistencias, fecha.value);
    }
    var hoja := Sheet("REPORTE DE ASISTENCIA - " + dateText(fecha.value), filas);
    var anchos := ColumnWidths(hoja);
    return Some(Informe(fecha.value, filas, hoja, anchos));
  }
}
