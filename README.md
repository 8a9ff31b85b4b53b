# Attendance ledger of `asistencias`, in Dafny

This project models the core of a Django attendance application in Dafny and proves properties of the model:

- **Registration.** Staff members (`Profesor`, keyed by a unique `dni`) register at most one attendance record (`Asistencia`) per local day through the search-then-accept page.
- **History.** A history page filters the records and lists them newest first.
- **Daily spreadsheet.** A one-day spreadsheet report marks every selected professor as present, with the time of their first record, or absent.
- **Weekly mail.** A management command mails each professor their records of the current Monday-to-Friday week.
- **Login audit, lockout and middleware.** On the login side:
  - the audit stores one evidence record per login attempt;
  - the lockout handler remembers in the session when a lock ends;
  - a middleware drops that value once it has expired or once the lockout library has no attempts for the address.

## Modelling conventions

- **Time.**
  - An instant (`Clock.Instant`) is an integer number of microseconds of local wall-clock time, counted from a Monday midnight. The deployment zone, America/Lima, keeps a fixed offset.
  - The local date of an instant (`timezone.localdate`, the `__date` lookups) is therefore `t / MICROS_PER_DAY`.
  - Python's `weekday()` is that day number `% 7`.
  - `%H:%M` is computed exactly (`Clock.Hhmm`).
- **Parsers and formatters are parameters.** Django's `parse_date` and `parse_datetime`, `Decimal(...)`, `isoformat()` and the `%d/%m/%Y` renderings are passed in as functions.
  - A parser answers with `Parsed`: `NoMatch` where Django returns `None`, `Malformed` where Django raises, or a value.
- **State.**
  - The database tables become fields of classes: `Registro.Ledger` holds the roster and the records, and `Auditoria.AuditLog` holds the evidence records.
  - The session is `Http.Session`, with its `data` map and `modified` flag.
  - The wrapped handler of the middleware records what it saw in `Middleware.ClearAxesUnlockAt.handled`.
- **Environment choices.** The outcome of a mail send and of an audit insert is left to the environment, written as a nondeterministic choice. The command and the receivers only observe it.
- **Clock reads.** The registration view reads the clock more than once. `now` is the read the answer depends on: the shown time for "buscar" (`views.py` line 30), today's date for "aceptar" (line 54). `stamp` is the later read of `default=timezone.now` when the record is created (line 66). The clock never runs backwards, so `now <= stamp`. The two may fall on different days near midnight. "At most one record per day" is therefore proved for a ledger whose records all predate `now` (`Models.NotAfter`), and such a ledger is kept.
- **Text.** `str.strip()` removes the characters Python's `str.isspace` accepts. Django's `__icontains` and `__iexact` lookups compare after `Text.Lower`.

## Model

| member | source | states |
|---|---|---|
| Models.DniIdentifies | asistencias/models.py:6 | two stored professors with the same dni are the same professor |
| Models.NoRecordOnLaterDay | asistencias/views.py:54-66 | when no record postdates `now` and none of the professor falls on the day of `now`, none falls on the day of a later creation stamp either |
| Models.AppendKeepsAtMostOnePerDay | asistencias/views.py:54-66 | appending a record for a professor with no record on its local day keeps "at most one record per professor and day" |
| Models.StorageAdmitsDuplicates | asistencias/models.py:15-17 | the stored tables admit two records of one professor on one day, so the once-per-day rule comes only from the view |
| Models.ProfesorStr | asistencias/models.py:11-12 | `__str__` is the surnames, one space, then the names |
| Models.ProfesorStrRoundTrip | asistencias/models.py:11-12 | when the surnames contain no space, splitting the text form at its first space gives back surnames and names |
| Models.SplitAfterWord | asistencias/models.py:11-12 | splitting `w + " " + rest` at the first space gives `w` and `rest` when `w` has no space |
| Models.AsistenciaStr | asistencias/models.py:19-20 | the record's text form is the professor's text form, `" - "`, then the formatted instant |
| Models.Cascade | asistencias/models.py:16 | deleting a professor removes exactly that professor's records and keeps every other record with its multiplicity |
| Clock.LocalDay | asistencias/views.py:54-58 | the local day of an instant is the day whose midnight-to-midnight range contains it |
| Clock.Weekday | asistencias/management/commands/enviar_reporte_asistencia.py:25 | the weekday of a day lies in 0..6 |
| Clock.MinuteOfDay | asistencias/views.py:217-219 | the minute of the day lies in 0..1439, and the instant falls inside that minute of its local day |
| Clock.Hhmm | asistencias/views.py:219 | `%H:%M` is five characters: two digits, a colon, two digits, with hours below 24, minutes below 60, and together the minute of the day |
| Clock.HhmmSameMinute | asistencias/views.py:219 | two instants print the same `%H:%M` exactly when they fall in the same minute of the day |
| Text.Strip | asistencias/views.py:26 | stripping never lengthens the text and leaves no whitespace at either end |
| Text.StripIsInterior | asistencias/views.py:26 | the stripped text is the slice of the input left after cutting off its leading and trailing whitespace, and all that is cut off is whitespace |
| Text.StripEmptyIffBlank | asistencias/management/commands/enviar_reporte_asistencia.py:45-46 | a text strips to empty exactly when every character is whitespace |
| Text.StripKeepsTrimmed | asistencias/views.py:107-110 | a text without whitespace at its ends is left unchanged by stripping |
| Text.StripIdempotent | asistencias/views.py:107-110 | stripping twice is stripping once |
| Text.Lower | asistencias/views.py:27 | lower-casing keeps the length |
| Text.IContains | asistencias/views.py:113-118 | the empty search text is found in every text; a text found is never longer than the one searched; a text that differs only in case is found |
| Text.IExact | asistencias/views.py:121 | equal texts match; a match has the same length and is also an `icontains` match |
| Text.BeforeComma | asistencias/axes.py:15 | `split(",")[0]` is a prefix without commas that ends at the first comma or at the end of the text |
| Text.NatToString | asistencias/views.py:224 | `str(n)` is non-empty, all digits, and has no leading zero |
| Text.NatToStringRoundTrip | asistencias/management/commands/enviar_reporte_asistencia.py:74-78 | reading back the digits of `str(n)` gives `n` |
| Text.NatToStringInjective | asistencias/management/commands/enviar_reporte_asistencia.py:74-78 | different counts print differently |
| Seqs.Filter | asistencias/views.py:113-126 | `.filter(...)` keeps exactly the elements that pass, each with its multiplicity, and nothing longer than the input |
| Seqs.Count | asistencias/management/commands/enviar_reporte_asistencia.py:56-62 | `.count()` is at most the total, and zero exactly when nothing passes |
| Seqs.CountIsFilterLength | asistencias/management/commands/enviar_reporte_asistencia.py:61-62 | `.filter(...).count()` is the length of the filtered records |
| Seqs.CountDisjoint | asistencias/management/commands/enviar_reporte_asistencia.py:61-62 | two conditions that no element meets together count at most the total between them |
| Seqs.Take | asistencias/management/commands/enviar_reporte_asistencia.py:82 | `qs[:n]` is a prefix of length min(n, total) |
| Http.GetOr | asistencias/views.py:26 | `d.get(key, default)` is the value when the key is present, otherwise the default |
| Http.Lookup | asistencias/signals.py:24 | `d.get(key)` is present exactly when the key is, and then holds its value |
| Ordering.InsertNewest | asistencias/views.py:105 | inserting into a newest-first list keeps it newest first and adds exactly that record |
| Ordering.SortNewestFirst | asistencias/views.py:105 | `order_by("-fecha_hora")` yields a newest-first permutation of its input |
| Ordering.TextLeTotal | asistencias/views.py:160 | the text order compares any two texts |
| Ordering.TextLeTransitive | asistencias/views.py:160 | the text order is transitive |
| Ordering.TextLeAntisymmetric | asistencias/views.py:160 | texts ordered both ways are equal |
| Ordering.NameLeTotal | asistencias/views.py:160 | the (surnames, names) order compares any two professors |
| Ordering.NameLeTransitive | asistencias/views.py:160 | the (surnames, names) order is transitive |
| Ordering.InsertByName | asistencias/views.py:160 | inserting into a name-ordered list keeps it ordered and adds exactly that professor |
| Ordering.BeforeHeadBeforeAll | asistencias/views.py:160 | a professor ordered before the head of a name-ordered list can be put in front of it |
| Ordering.HeadBeforeInsertion | asistencias/views.py:160 | the head stays first after an insertion behind it |
| Ordering.SortByName | asistencias/management/commands/enviar_reporte_asistencia.py:38 | `order_by("apellidos", "nombres")` yields a name-ordered permutation of its input |
| Registro.FindByDni | asistencias/views.py:36-37 | the lookup finds a stored professor with that dni, or reports that none has it |
| Registro.FindByDniFindsHolder | asistencias/views.py:36-39 | with unique dnis, looking up a stored professor's dni finds exactly that professor |
| Registro.DniParam | asistencias/views.py:26 | the `dni` field (of the form here, of the query string at line 83) stripped, "" when missing, with no whitespace at either end |
| Registro.AccionParam | asistencias/views.py:27 | the action is "buscar" or "aceptar" exactly when the stripped, lower-cased field (default "buscar") is that word |
| Registro.Respond | asistencias/views.py:25-75 | the empty form exactly for a GET or an unknown action; "not found" whenever no stored professor has the dni, and only then; "buscar" never creates or warns, "aceptar" never only shows; a shown professor holds the dni with the current time; the warning means the holder has a record on the day of `now`; a created record belongs to a holder without one that day and is stamped at creation time |
| Registro.RespondToHolder | asistencias/views.py:34-69 | with unique dnis, posting a held dni shows that professor for "buscar", and for "aceptar" gives the warning when they have a record today and otherwise their new record |
| Registro.Ledger.Registrar | asistencias/views.py:20-75 | the answer is `Respond` on the ledger before the call; the ledger grows by the created record only when one is created and is otherwise unchanged; the database invariants are preserved, and "at most one record per day" and "no record postdates the clock" are preserved when no record postdates `now` |
| Registro.Ledger.RegistrarHoy | asistencias/views.py:54-69 | with a record on the day of `now` the answer is the warning and the ledger is unchanged; otherwise exactly one record of the professor stamped `stamp` is appended; "at most one per day" is kept when no record postdates `now` |
| Registro.Ledger.DeleteProfesor | asistencias/models.py:16 | deleting a professor removes it from the roster and cascades to its records, keeping the database invariants |
| Registro.ExistsOn | asistencias/views.py:56-59 | the loop finds a record exactly when the professor has one on that day |
| Registro.AppendKeepsInvariants | asistencias/views.py:61-66 | appending a record of a stored professor keeps the database invariants, and keeps "at most one per day" when the professor has no record on its day |
| Registro.WithoutProfesor | asistencias/models.py:16 | the roster without a professor keeps exactly the others and stays unique-keyed |
| Registro.WithoutProfesorKeepsConsistent | asistencias/models.py:16 | after the cascade the remaining records still point at stored professors |
| Registro.BuscarProfesor | asistencias/views.py:82-97 | `existe` is true exactly when a stored professor has the stripped dni, and then the answer carries that professor's code, names, surnames and condition |
| Historial.Param | asistencias/views.py:107-110 | a query field is read stripped, "" when missing, with no whitespace at either end |
| Historial.MatchesQuery | asistencias/views.py:112-118 | an empty search matches everyone; the whole dni, surnames or names in any case find the professor; a match is never longer than the longest field searched |
| Historial.ProfesorSelected | asistencias/views.py:112-121 | empty filters select everyone; the exact dni and the exact condition select the professor; a selected professor matches the search and has a condition as long as the condition filter |
| Historial.DateBound | asistencias/views.py:123-126 | an empty bound imposes nothing; a parsed day is the bound; an unparsable one makes the page fail |
| Historial.Historial | asistencias/views.py:104-134 | the page fails exactly when a non-empty date bound does not parse; otherwise it echoes the stripped filters and lists, newest first, each record with its multiplicity when it passes every non-empty filter (bounds inclusive) and not at all otherwise |
| Historial.ListedIffSelected | asistencias/views.py:112-126 | when both date bounds read, the page lists, and a record is listed exactly when it is stored and passes every filter |
| Historial.NoFiltersListAll | asistencias/views.py:105-126 | with every filter empty all records are listed |
| Reporte.FechaEval | asistencias/views.py:154-157 | the evaluated day is today for an empty or non-date `desde`, the parsed day otherwise, and a failure when `desde` looks like a date but names no day |
| Reporte.Seleccion | asistencias/views.py:160-174 | the report's professors are exactly the selected ones, each with its multiplicity, ordered by (surnames, names) |
| Reporte.FirstTimes | asistencias/views.py:176-183 | the map has a key for exactly the professors with a record on the day, holding the earliest time of that day |
| Reporte.EstadoText | asistencias/views.py:216-222 | present reads ASISTIÓ, absent reads FALTÓ, and the two texts differ |
| Reporte.RowFromMapReports | asistencias/views.py:214-222 | a row read from the first-time map says ASISTIÓ exactly when the professor has a record that day, shows the `%H:%M` of the first one, and shows "" when absent |
| Reporte.BuildRows | asistencias/views.py:213-224 | one row per professor, in order, numbered 1..n, carrying that professor's fields and the map's state and time |
| Reporte.RowCells | asistencias/views.py:224 | the eight cells of a row, in header order: the number in decimal (reading back as the number), dni, code (empty only when missing), surnames, names, condition, state text and time |
| Reporte.Sheet | asistencias/views.py:190-224 | the title is in the first cell, the headers in row 2, then one row per data row in order |
| Reporte.ColumnMax | asistencias/views.py:250-254 | the measured width bounds every text length in the column and is attained by one of them, or is 0 |
| Reporte.ColumnWidths | asistencias/views.py:249-255 | every width is min(longest text + 2, 40), so it lies in 2..40 and fits every cell unless capped |
| Reporte.Exportar | asistencias/views.py:141-255 | the report fails exactly when the evaluated day does; otherwise one row per selected professor in name order, numbered from 1, each ASISTIÓ with the first time of the day exactly when there is a record that day, the titled sheet of those rows, and widths fitted to that sheet |
| Semanal.RangoLunVie | asistencias/management/commands/enviar_reporte_asistencia.py:17-30 | `desde` is midnight of the Monday of the week of `now`, with `desde <= now` less than a week later; `hasta` is Friday of that week, 5 days minus one microsecond after `desde` |
| Semanal.NowInsideWindowIffWeekday | asistencias/management/commands/enviar_reporte_asistencia.py:18-20 | `now` lies inside the window exactly when it is Monday to Friday |
| Semanal.Registros | asistencias/management/commands/enviar_reporte_asistencia.py:50-54 | the professor's records with `desde <= fecha_hora <= hasta`, each with its multiplicity, newest first |
| Semanal.EntradasSalidasWithinTotal | asistencias/management/commands/enviar_reporte_asistencia.py:56-62 | entries plus exits never exceed the total |
| Semanal.Etiqueta | asistencias/management/commands/enviar_reporte_asistencia.py:84 | the label is ENTRADA exactly when `tipo` is "E", otherwise SALIDA |
| Semanal.Linea | asistencias/management/commands/enviar_reporte_asistencia.py:83-85 | a listed line splits back into the formatted stamp, " \| " and the label |
| Semanal.ListarRegistros | asistencias/management/commands/enviar_reporte_asistencia.py:82-85 | the listing has min(limite, total) lines, the k-th describing the k-th newest record |
| Semanal.Encabezado | asistencias/management/commands/enviar_reporte_asistencia.py:64-80 | twelve header lines, announcing the total and min(limite, total) listed records |
| Semanal.EncabezadoSaludo | asistencias/management/commands/enviar_reporte_asistencia.py:64-79 | the header greets the stripped "surnames names", gives the title, both ends of the window, and the blank lines and separator in place |
| Semanal.EncabezadoTotales | asistencias/management/commands/enviar_reporte_asistencia.py:61-76 | the header's entry and exit totals are the numbers of records with `tipo` "E" and "S" |
| Semanal.Cuerpo | asistencias/management/commands/enviar_reporte_asistencia.py:67-87 | the body is the header, one line per listed record, then a blank line and "Saludos." |
| Semanal.HeaderMatchesListing | asistencias/management/commands/enviar_reporte_asistencia.py:78-85 | the header announces exactly as many records as the body lists |
| Semanal.Email | asistencias/management/commands/enviar_reporte_asistencia.py:45 | the address is the stripped `email`, "" when there is none, with no whitespace at either end |
| Semanal.PlanFor | asistencias/management/commands/enviar_reporte_asistencia.py:45-59 | skipped exactly when the stripped address is blank, no records exactly when the address is set and the week is empty, otherwise a message to the stripped address with the week's records |
| Semanal.Mensaje | asistencias/management/commands/enviar_reporte_asistencia.py:67-89 | the assembled body is `Cuerpo` |
| Semanal.Enviar | asistencias/management/commands/enviar_reporte_asistencia.py:93-104 | a dry run always counts as sent; otherwise the send succeeds or fails |
| Semanal.Atender | asistencias/management/commands/enviar_reporte_asistencia.py:45-104 | the iteration raises exactly when `limite` is negative for a professor to be mailed; otherwise its outcome conforms to the professor's plan |
| Semanal.HandledAppend | asistencias/management/commands/enviar_reporte_asistencia.py:44-104 | one more conforming outcome extends the handled prefix |
| Semanal.HandledAt | asistencias/management/commands/enviar_reporte_asistencia.py:44-104 | each reached professor's outcome conforms to that professor's plan |
| Semanal.TalliedAppend | asistencias/management/commands/enviar_reporte_asistencia.py:40-102 | each counter grows by one exactly for an outcome of its kind |
| Semanal.Handle | asistencias/management/commands/enviar_reporte_asistencia.py:32-108 | professors are taken in name order, each reached one with a conforming outcome; the run stops early only for a negative `limite` at a professor to be mailed; the counters count sent, skipped and record-less outcomes |
| Semanal.Recorrer | asistencias/management/commands/enviar_reporte_asistencia.py:44-104 | the loop's outcomes and counters, as for `Handle` |
| Semanal.BucketsPartition | asistencias/management/commands/enviar_reporte_asistencia.py:44-104 | every outcome lies in exactly one of the four buckets |
| Semanal.DryRunCountsAll | asistencias/management/commands/enviar_reporte_asistencia.py:93-96 | without failed sends the three counters add up to the professors reached |
| Semanal.NoFallos | asistencias/management/commands/enviar_reporte_asistencia.py:93-96 | without failed sends the failure bucket is empty |
| Semanal.DryRunNeverFails | asistencias/management/commands/enviar_reporte_asistencia.py:93-96 | in a dry run no outcome is a failed send |
| Semanal.CountersAccountForProfessors | asistencias/management/commands/enviar_reporte_asistencia.py:40-107 | enviados + saltados + sin_registros never exceed the number of professors, and equal it for a completed dry run |
| Auditoria.ToDecimal | asistencias/signals.py:9-15 | missing or empty gives nothing; otherwise the parse result, nothing when the parse fails; nothing is raised |
| Auditoria.ClientIp | asistencias/signals.py:18-24 | no request gives nothing; a non-empty X-Forwarded-For gives its first entry, stripped and comma-free; otherwise REMOTE_ADDR, possibly missing |
| Auditoria.StripKeepsAbsent | asistencias/signals.py:23 | stripping cannot introduce a character, so the first forwarded entry has no comma |
| Auditoria.PostVal | asistencias/signals.py:27-30 | no request gives the default untouched; otherwise the field, or the default when the field is missing or empty, stripped |
| Auditoria.Evidencia | asistencias/signals.py:39-51 | the record has the geolocation, device and address fields read from the request, and the username, geolocation-status and permission fields cut to 150, 50 and 20 |
| Auditoria.EvidenciaExitosa | asistencias/signals.py:34-51 | a successful login records the user with `exito` set, and the user's username or, when empty, the posted one, cut to 150 |
| Auditoria.UsernameIntentado | asistencias/signals.py:63-65 | the attempted name is the `username` credential, else `email`, else "", and "" when the credentials are not a dictionary; never over 150 |
| Auditoria.EvidenciaFallida | asistencias/signals.py:58-79 | a failed login records no user, `exito` unset, and the attempted name |
| Auditoria.AuditLog.Store | asistencias/signals.py:38-54 | the insert adds the record or nothing |
| Auditoria.AuditLog.OnLoginSucceeded | asistencias/signals.py:33-54 | at most the success record is added, and no failure reaches the login |
| Auditoria.AuditLog.OnLoginFailed | asistencias/signals.py:57-81 | at most the failure record is added, and no failure reaches the login |
| Axes.ClientIp | asistencias/axes.py:12-16 | the first entry of a non-empty X-Forwarded-For, stripped and comma-free, else REMOTE_ADDR, else ""; the middleware's `_get_client_ip` (middleware.py lines 22-26) is the same function |
| Axes.ClientIpAgreesWithAudit | asistencias/axes.py:12-16 | the audit and lockout addresses agree exactly when X-Forwarded-For is set or REMOTE_ADDR is present |
| Axes.Cooloff | asistencias/axes.py:19-25 | unset or unrecognised settings give 15 minutes; whole hours (a boolean counting as 0 or 1) scale to hours; a span is kept unchanged; the middleware's `_cooloff_td` (middleware.py lines 13-19, never called there) is the same normalisation |
| Axes.Relevant | asistencias/axes.py:32-36 | the attempts of this username and address when there are any, otherwise those of the address; empty exactly when the address has no attempts |
| Axes.Latest | asistencias/axes.py:38-39 | the latest attempt time is one of the times and is not before any of them |
| Axes.UnlockTime | asistencias/axes.py:28-46 | nothing exactly when the address has no attempts; otherwise the latest relevant attempt time plus the lock length, which is not before any relevant attempt time plus that length |
| Axes.LockedUsername | asistencias/axes.py:54-56 | the `username` credential, or "" when it is missing or the credentials are not a dictionary |
| Axes.NextUrl | asistencias/axes.py:63-64 | the posted `next` when non-empty, else the query-string one when non-empty, else none |
| Axes.Lockout | asistencias/axes.py:49-68 | the session gets `axes_unlock_at` (and `modified`) exactly when there is an unlock time and is otherwise untouched; the redirect goes to the login page carrying the chosen `next` |
| Axes.NoAttemptsNoUnlock | asistencias/axes.py:32-36 | with no attempts there is no unlock time |
| Axes.UnlockAfterOwnAttempts | asistencias/axes.py:32-46 | the unlock time comes no earlier than the lock length after every attempt by the same name and address |
| Middleware.Decide | asistencias/middleware.py:38-55 | a missing or empty value is kept; reading it raises exactly for a malformed value or one without an offset; it is cleared exactly when it reads back and either has passed or the attempt store is present, the address non-empty and without attempts |
| Middleware.ClearAxesUnlockAt.Call | asistencias/middleware.py:38-57 | clearing removes only `axes_unlock_at` and sets `modified`, otherwise the session is unchanged; the handler is called exactly once unless reading raised |
| Middleware.ClearRemovesOnlyUnlockKey | asistencias/middleware.py:45-54 | removing the unlock key keeps every other key and its value |
| Middleware.LockoutThenMiddleware | asistencias/middleware.py:43-55 | a value written by the lockout is cleared once its time has come and kept before that, since the address still has attempts |
| Middleware.ResetClearsPending | asistencias/middleware.py:48-55 | after the attempts are reset, a readable value is cleared whatever its time, if the address is known |

## Left out

- Excel styling, the merged title cells, the table object, the file name and the HTTP response of the report. The sheet is modelled as its grid of cell texts and the column widths.
- E-mail delivery, the subject line, the sender address and console output of the weekly mail command. A send is a nondeterministic success or failure.
- Concurrency. The check-then-create of a registration is not atomic in the source, and the model covers sequential requests only. It makes no claim about two simultaneous "aceptar" requests.
- Django's parsers, formatters and the `Decimal` grammar. These are parameters.
- Middleware.Decide assumes `timezone.now()` is aware (`USE_TZ` on), because the settings are not part of this model. With `USE_TZ` off, an aware stored value would raise instead of a naive one.
- Axes.Cooloff: a `float` number of hours is not modelled; only whole hours, booleans and spans are.
- Axes.Cooloff, Axes.UnlockTime and Axes.Lockout always succeed: Python's `datetime` range is not modelled. Instants are unbounded integers, so the `OverflowError` that `timedelta(hours=...)` (`axes.py` line 22) or the addition of the lock length (line 46) can raise is not modelled.
- Axes.UnlockTime: an attempt whose `attempt_time` is empty (`axes.py` lines 39-41) is not modelled, since the lockout library always sets it.
- Axes.UnlockTime: naive attempt times are treated like aware ones. `make_aware` changes no instant in the local-time scale used here.
- Text.Lower folds ASCII letters only. The view's `.lower()`, and the database's case-insensitive lookups, fold all of Unicode.
- Ordering.SortByName orders texts by code point. The database may use a locale collation.
- The `messages` flash texts, page templates, the login-required redirects and the JSON encoding are not modelled. Only the answer kinds are.
- `LoginEvidencia` is imported by the audit from the models module, but no such model is declared there. Its fields are taken from the receivers.
- The `email` of a professor and the `tipo` of a record are read by the weekly command but not declared by the models. They are optional fields here.
- Views `scan_page`, `api_scan_asistencia`, `post_login_redirect` and `trigger_reporte_asistencia` are named by the URL configuration, but their code is not part of this model.
- The admin configuration, URL files, app configuration, storage backend, the superuser commands and the login page script are not modelled.
- Auditoria.PostVal returns the default unstripped when there is no request, as the code does. A stripped default would differ only for a non-blank default with surrounding whitespace, and every call site passes "".
