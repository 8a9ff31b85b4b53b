/** The login audit (`signals.py`): on every successful or failed login one
    evidence record is appended to the audit log, built from the request's
    form fields and headers; a failure to store it is swallowed so that the
    login itself is never affected. */
module Auditoria {
  import opened Wrappers
  import Text
  import Http
  import Seqs

  /** A decimal number as `Decimal` holds it: coefficient times ten to the exponent. */
  datatype Decimal = Decimal(coefficient: int, exponent: int)

  /** `_to_decimal`: nothing for a missing or empty value, otherwise what
      `Decimal(str(value))` reads, where `decimal` stands for that parse and
      answers `None` when it raises. */
  function ToDecimal(value: Option<string>, decimal: string -> Option<Decimal>): (r: Option<Decimal>)
    ensures value.None? || value == Some([]) ==> r.None?
    ensures r.Some? ==> value.Some? && decimal(value.value) == r
    ensures value.Some? && value.value != [] ==> r == decimal(value.value)
  {
    match value
    case None => None
    case Some(s) => if s == [] then None else decimal(s)
  }

  /** `_get_client_ip` of the audit: no request gives nothing; a non-empty
      `X-Forwarded-For` gives its first comma-separated entry, stripped;
      otherwise `REMOTE_ADDR`, which may be missing. */
  function ClientIp(request: Option<Http.Request>): (r: Option<string>)
    ensures request.None? ==> r.None?
    ensures request.Some? && Http.GetOr(request.value.meta, "HTTP_X_FORWARDED_FOR", "") != [] ==>
      var xff := request.value.meta["HTTP_X_FORWARDED_FOR"];
      && r.Some? && ',' !in r.value
      && (r.value != [] ==> !Text.IsSpace(r.value[0]) && !Text.IsSpace(r.value[|r.value| - 1]))
      && r.value == Text.Strip(Text.BeforeComma(xff))
    ensures request.Some? && Http.GetOr(request.value.meta, "HTTP_X_FORWARDED_FOR", "") == [] ==>
      r == Http.Lookup(request.value.meta, "REMOTE_ADDR")
  {
    match request
    case None => None
    case Some(req) =>
      var xff := Http.GetOr(req.meta, "HTTP_X_FORWARDED_FOR", "");
      if xff != [] then
        var ip := Text.Strip(Text.BeforeComma(xff));
        StripKeepsAbsent(Text.BeforeComma(xff), ',');
        Some(ip)
      else Http.Lookup(req.meta, "REMOTE_ADDR")
  }

  /** Stripping only removes characters, so a character absent from the text
      stays absent. */
  lemma StripKeepsAbsent(s: string, c: char)
    requires c !in s
    ensures c !in Text.Strip(s)
  {
    var t := Text.StripStart(s);
    assert t == s[Text.LeadingSpaces(s)..];
    assert c !in t;
    assert Text.Strip(s) == t[..|t| - Text.TrailingSpaces(t)];
  }

  /** `_post_val`: the default, untouched, when there is no request; otherwise
      the form field, or the default when the field is missing or empty,
      stripped. */
  function PostVal(request: Option<Http.Request>, key: string, default: string): (r: string)
    ensures request.None? ==> r == default
    ensures request.Some? ==>
      var raw := Http.GetOr(request.value.post, key, "");
      r == Text.Strip(if raw != [] then raw else default)
    ensures request.Some? && r != [] ==> !Text.IsSpace(r[0]) && !Text.IsSpace(r[|r| - 1])
  {
    match request
    case None => default
    case Some(req) =>
      var raw := Http.GetOr(req.post, key, "");
      Text.Strip(if raw != [] then raw else default)
  }

  /** The user that logged in; Django users always carry a (possibly empty) username. */
  datatype User = User(username: string)

  /** The `credentials` argument of the failure signal: a dictionary of text
      values, or anything else. */
  datatype Credentials = NotADict | Dict(entries: map<string, string>)

  const USERNAME_MAX: nat := 150
  const ESTADO_GEO_MAX: nat := 50
  const PERMISO_GEO_MAX: nat := 20

  /** One evidence record, with the fields the receivers fill in. */
  datatype LoginEvidencia = LoginEvidencia(
    usuario: Option<User>,
    usernameIntentado: string,
    exito: bool,
    fechaHoraCliente: string,
    latitud: Option<Decimal>,
    longitud: Option<Decimal>,
    precisionM: Option<Decimal>,
    estadoGeo: string,
    permisoGeo: string,
    deviceInfo: string,
    ip: Option<string>)

  /** The fields both receivers fill in the same way from the request. */
  predicate GeoFieldsFrom(e: LoginEvidencia, request: Option<Http.Request>, decimal: string -> Option<Decimal>)
  {
    && e.fechaHoraCliente == PostVal(request, "geo_time", "")
    && e.latitud == ToDecimal(Some(PostVal(request, "geo_lat", "")), decimal)
    && e.longitud == ToDecimal(Some(PostVal(request, "geo_lng", "")), decimal)
    && e.precisionM == ToDecimal(Some(PostVal(request, "geo_acc", "")), decimal)
    && e.estadoGeo == Seqs.Take(PostVal(request, "geo_status", ""), ESTADO_GEO_MAX)
    && e.permisoGeo == Seqs.Take(PostVal(request, "geo_perm_state", ""), PERMISO_GEO_MAX)
    && e.deviceInfo == PostVal(request, "device_info", "")
    && e.ip == ClientIp(request)
  }

  /** The stored text fields never exceed their column sizes. */
  predicate WithinCaps(e: LoginEvidencia)
  {
    |e.usernameIntentado| <= USERNAME_MAX && |e.estadoGeo| <= ESTADO_GEO_MAX && |e.permisoGeo| <= PERMISO_GEO_MAX
  }

  function Evidencia(usuario: Option<User>, username: string, exito: bool, request: Option<Http.Request>,
                     decimal: string -> Option<Decimal>): (r: LoginEvidencia)
    ensures GeoFieldsFrom(r, request, decimal) && WithinCaps(r)
    ensures r.usuario == usuario && r.exito == exito && r.usernameIntentado == Seqs.Take(username, USERNAME_MAX)
  {
    LoginEvidencia(
      usuario, Seqs.Take(username, USERNAME_MAX), exito,
      PostVal(request, "geo_time", ""),
      ToDecimal(Some(PostVal(request, "geo_lat", "")), decimal),
      ToDecimal(Some(PostVal(request, "geo_lng", "")), decimal),
      ToDecimal(Some(PostVal(request, "geo_acc", "")), decimal),
      Seqs.Take(PostVal(request, "geo_status", ""), ESTADO_GEO_MAX),
      Seqs.Take(PostVal(request, "geo_perm_state", ""), PERMISO_GEO_MAX),
      PostVal(request, "device_info", ""),
      ClientIp(request))
  }

  /** The record of `guardar_evidencia_login_exitoso`: the user, `exito` set,
      and the user's username (or, when it is empty, the posted one) cut to 150. */
  function EvidenciaExitosa(request: Option<Http.Request>, user: User, decimal: string -> Option<Decimal>): (r: LoginEvidencia)
    ensures r.exito && r.usuario == Some(user)
    ensures GeoFieldsFrom(r, request, decimal) && WithinCaps(r)
    ensures user.username != [] ==> r.usernameIntentado == Seqs.Take(user.username, USERNAME_MAX)
    ensures user.username == [] ==> r.usernameIntentado == Seqs.Take(PostVal(request, "username", ""), USERNAME_MAX)
  {
    Evidencia(Some(user), if user.username != [] then user.username else PostVal(request, "username", ""), true, request, decimal)
  }

  /** The attempted name of a failed login: the `username` credential, else
      the `email` one, else empty; empty when the credentials are no
      dictionary; cut to 150. */
  function UsernameIntentado(credentials: Credentials): (r: string)
    ensures |r| <= USERNAME_MAX
    ensures credentials.NotADict? ==> r == []
    ensures credentials.Dict? ==>
      var u, e := Http.GetOr(credentials.entries, "username", ""), Http.GetOr(credentials.entries, "email", "");
      r == Seqs.Take(if u != [] then u else e, USERNAME_MAX)
  {
    match credentials
    case NotADict => []
    case Dict(entries) =>
      var u := Http.GetOr(entries, "username", "");
      Seqs.Take(if u != [] then u else Http.GetOr(entries, "email", ""), USERNAME_MAX)
  }

  /** The record of `guardar_evidencia_login_fallido`: no user, `exito` unset. */
  function EvidenciaFallida(request: Option<Http.Request>, credentials: Credentials, decimal: string -> Option<Decimal>): (r: LoginEvidencia)
    ensures !r.exito && r.usuario.None?
    ensures GeoFieldsFrom(r, request, decimal) && WithinCaps(r)
    ensures r.usernameIntentado == UsernameIntentado(credentials)
  {
    var r := Evidencia(None, UsernameIntentado(credentials), false, request, decimal);
    assert Seqs.Take(UsernameIntentado(credentials), USERNAME_MAX) == UsernameIntentado(credentials);
    r
  }

  /** The `LoginEvidencia` table as the receivers see it. */
  class AuditLog {
    var entries: seq<LoginEvidencia>

    constructor ()
      ensures entries == []
    {
      entries := [];
    }

    /** The store refuses or accepts the row; the environment decides. The
        receivers catch every exception this raises. */
    method Store(e: LoginEvidencia)
      modifies this
      ensures entries == old(entries) || entries == old(entries) + [e]
    {
      var accepted: bool :| true;
      if accepted {
        entries := entries + [e];
      }
    }

    /** `guardar_evidencia_login_exitoso`: at most one record is added, and
        nothing reaches the caller either way. */
    method OnLoginSucceeded(request: Option<Http.Request>, user: User, decimal: string -> Option<Decimal>)
      modifies this
      ensures entries == old(entries) || entries == old(entries) + [EvidenciaExitosa(request, user, decimal)]
    {
      Store(EvidenciaExitosa(request, user, decimal));
    }

    /** `guardar_evidencia_login_fallido`. */
    method OnLoginFailed(request: Option<Http.Request>, credentials: Credentials, decimal: string -> Option<Decimal>)
      modifies this
      ensures entries == old(entries) || entries == old(entries) + [EvidenciaFallida(request, credentials, decimal)]
    {
      Store(EvidenciaFallida(request, credentials, decimal));
    }
  }
}
