/** The lockout handler (`axes.py`): when too many failed logins lock a client
    out, the session remembers when the lock ends and the browser is sent back
    to the login page, keeping the page it wanted to reach. */
module Axes {
  import opened Wrappers
  import Text
  import Clock
  import Http
  import Seqs
  import Auditoria

  /** The session key holding the end of the lock. */
  const UNLOCK_KEY: string := "axes_unlock_at"

  /** `_get_client_ip` of the lockout handler and of the middleware: the first
      entry of a non-empty `X-Forwarded-For`, stripped, else `REMOTE_ADDR`,
      else "". */
  function ClientIp(meta: map<string, string>): (r: string)
    ensures Http.GetOr(meta, "HTTP_X_FORWARDED_FOR", "") != [] ==>
      ',' !in r && r == Text.Strip(Text.BeforeComma(meta["HTTP_X_FORWARDED_FOR"]))
    ensures Http.GetOr(meta, "HTTP_X_FORWARDED_FOR", "") == [] ==> r == Http.GetOr(meta, "REMOTE_ADDR", "")
  {
    var xff := Http.GetOr(meta, "HTTP_X_FORWARDED_FOR", "");
    if xff != [] then
      Auditoria.StripKeepsAbsent(Text.BeforeComma(xff), ',');
      Text.Strip(Text.BeforeComma(xff))
    else Http.GetOr(meta, "REMOTE_ADDR", "")
  }

  /** The audit's address and this one differ only where `REMOTE_ADDR` is
      missing: the audit then records no address, this one "". */
  lemma ClientIpAgreesWithAudit(request: Http.Request)
    ensures Auditoria.ClientIp(Some(request)) == Some(ClientIp(request.meta))
      <==> Http.GetOr(request.meta, "HTTP_X_FORWARDED_FOR", "") != [] || "REMOTE_ADDR" in request.meta
  {
  }

  /** The `AXES_COOLOFF_TIME` setting, by its Python type: unset, a number of
      hours (an `int`; a `bool` counts as 0 or 1), a `timedelta` in
      microseconds, or anything else. */
  datatype CooloffSetting = Unset | Hours(hours: int) | Flag(flag: bool) | Span(micros: int) | Other

  const DEFAULT_COOLOFF: int := 15 * Clock.MICROS_PER_MINUTE

  /** `_get_cooloff_td` (and the middleware's identical `_cooloff_td`): the lock
      length in microseconds. */
  function Cooloff(setting: CooloffSetting): (r: int)
    ensures setting.Unset? || setting.Other? ==> r == DEFAULT_COOLOFF
    ensures setting.Hours? ==> r == setting.hours * Clock.MICROS_PER_HOUR
    ensures setting.Flag? ==> r == if setting.flag then Clock.MICROS_PER_HOUR else 0
    ensures setting.Span? ==> r == setting.micros
  {
    match setting
    case Unset => DEFAULT_COOLOFF
    case Hours(h) => h * Clock.MICROS_PER_HOUR
    case Flag(b) => if b then Clock.MICROS_PER_HOUR else 0
    case Span(d) => d
    case Other => DEFAULT_COOLOFF
  }

  /** A row of the lockout library's `AccessAttempt` table. */
  datatype Attempt = Attempt(username: string, ip: string, time: Clock.Instant)

  predicate SameClient(a: Attempt, username: string, ip: string)
  {
    a.username == username && a.ip == ip
  }

  predicate SameIp(a: Attempt, ip: string)
  {
    a.ip == ip
  }

  /** The attempts the unlock time is read from: those of this username and
      address, or, when there are none, those of the address alone. */
  function Relevant(attempts: seq<Attempt>, username: string, ip: string): (r: seq<Attempt>)
    ensures forall k :: 0 <= k < |r| ==> r[k] in attempts && SameIp(r[k], ip)
    ensures r == [] <==> forall a :: a in attempts ==> !SameIp(a, ip)
    ensures (exists a :: a in attempts && SameClient(a, username, ip)) ==>
      forall a :: a in r <==> a in attempts && SameClient(a, username, ip)
    ensures (forall a :: a in attempts ==> !SameClient(a, username, ip)) ==>
      forall a :: a in r <==> a in attempts && SameIp(a, ip)
  {
    var own := Seqs.Filter(attempts, a => SameClient(a, username, ip));
    InFilter(attempts, a => SameClient(a, username, ip));
    InFilter(attempts, a => SameIp(a, ip));
    if own != [] then
      assert own[0] in attempts && SameIp(own[0], ip);
      own
    else Seqs.Filter(attempts, a => SameIp(a, ip))
  }

  /** Membership in a filtered sequence, from its multiset contract. */
  lemma InFilter<T(!new)>(s: seq<T>, keep: T -> bool)
    ensures forall x :: x in Seqs.Filter(s, keep) <==> x in s && keep(x)
  {
    forall x ensures x in Seqs.Filter(s, keep) <==> x in s && keep(x) {
      assert x in Seqs.Filter(s, keep) <==> multiset(Seqs.Filter(s, keep))[x] > 0;
      assert x in s <==> multiset(s)[x] > 0;
    }
  }

  /** The latest attempt time of a non-empty sequence. */
  function Latest(s: seq<Attempt>): (t: Clock.Instant)
    requires s != []
    ensures exists k :: 0 <= k < |s| && s[k].time == t
    ensures forall k :: 0 <= k < |s| ==> s[k].time <= t
  {
    if |s| == 1 then s[0].time
    else
      var rest := Latest(s[1..]);
      assert forall k :: 1 <= k < |s| ==> s[k] == s[1..][k - 1];
      if s[0].time >= rest then s[0].time else rest
  }

  /** `_get_unlock_time`: the latest relevant attempt plus the lock length, or
      nothing when the address has no attempts at all. */
  function UnlockTime(meta: map<string, string>, username: string, attempts: seq<Attempt>,
                      setting: CooloffSetting): (r: Option<Clock.Instant>)
    ensures r.None? <==> forall a :: a in attempts ==> !SameIp(a, ClientIp(meta))
    ensures r.Some? ==>
      var rel := Relevant(attempts, username, ClientIp(meta));
      && (exists k :: 0 <= k < |rel| && r.value == rel[k].time + Cooloff(setting))
      && (forall k :: 0 <= k < |rel| ==> rel[k].time + Cooloff(setting) <= r.value)
  {
    var ip := ClientIp(meta);
    var rel := Relevant(attempts, username, ip);
    if rel == [] then None else Some(Latest(rel) + Cooloff(setting))
  }

  /** The name the lockout is looked up by: the `username` credential, or "". */
  function LockedUsername(credentials: Auditoria.Credentials): (r: string)
    ensures credentials.NotADict? ==> r == []
    ensures credentials.Dict? && "username" in credentials.entries ==> r == credentials.entries["username"]
    ensures credentials.Dict? && "username" !in credentials.entries ==> r == []
  {
    match credentials
    case NotADict => []
    case Dict(entries) => Http.GetOr(entries, "username", "")
  }

  /** Where the login page should send the user after logging in: the posted
      `next`, else the query-string one, when non-empty. */
  function NextUrl(request: Http.Request): (r: Option<string>)
    ensures r.Some? ==> r.value != []
    ensures Http.GetOr(request.post, "next", "") != [] ==> r == Some(request.post["next"])
    ensures Http.GetOr(request.post, "next", "") == [] ==>
      r == if Http.GetOr(request.get, "next", "") != [] then Some(request.get["next"]) else None
  {
    var p := Http.GetOr(request.post, "next", "");
    if p != [] then Some(p)
    else
      var g := Http.GetOr(request.get, "next", "");
      if g != [] then Some(g) else None
  }

  /** A redirect to the login page, with its `next` parameter when present. */
  datatype Redirect = ToLogin(next: Option<string>)

  /** `lockout`: stores the unlock time (as `iso` writes it) in the session
      when there is one, and redirects to the login page. */
  method Lockout(request: Http.Request, session: Http.Session, credentials: Auditoria.Credentials,
                 attempts: seq<Attempt>, setting: CooloffSetting, iso: Clock.Instant -> string)
    returns (redirect: Redirect)
    modifies session
    ensures var unlock := UnlockTime(request.meta, LockedUsername(credentials), attempts, setting);
      && (unlock.Some? ==> session.data == old(session.data)[UNLOCK_KEY := iso(unlock.value)] && session.modified)
      && (unlock.None? ==> session.data == old(session.data) && session.modified == old(session.modified))
    ensures redirect == ToLogin(NextUrl(request))
  {
    var username := LockedUsername(credentials);
    var unlock := UnlockTime(request.meta, username, attempts, setting);
    if unlock.Some? {
      session.data := session.data[UNLOCK_KEY := iso(unlock.value)];
      session.modified := true;
    }
    redirect := ToLogin(NextUrl(request));
  }

  /** A lockout with no attempts on record for the address leaves the session
      alone. */
  lemma NoAttemptsNoUnlock(meta: map<string, string>, username: string, setting: CooloffSetting)
    ensures UnlockTime(meta, username, [], setting).None?
  {
  }

  /** The unlock time comes no earlier than the lock length after every
      attempt by the same name and address. */
  lemma {:induction false} UnlockAfterOwnAttempts(meta: map<string, string>, username: string,
                                                  attempts: seq<Attempt>, setting: CooloffSetting, a: Attempt)
    requires a in attempts && SameClient(a, username, ClientIp(meta))
    ensures UnlockTime(meta, username, attempts, setting).Some?
    ensures a.time + Cooloff(setting) <= UnlockTime(meta, username, attempts, setting).value
  {
    var rel := Relevant(attempts, username, ClientIp(meta));
    assert a in rel;
    var k :| 0 <= k < |rel| && rel[k] == a;
  }
}
