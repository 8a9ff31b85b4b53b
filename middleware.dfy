/** `ClearAxesUnlockAtMiddleware` (`middleware.py`): before every request the
    remembered end of a lockout is dropped from the session once it has
    passed, or once the lockout library holds no failed attempts for the
    client's address any more. */
module Middleware {
  import opened Wrappers
  import Clock
  import Http
  import Axes
  import Auditoria

  /** What `parse_datetime` yields: an instant, and whether it carries a UTC offset. */
  datatype DateTime = DateTime(instant: Clock.Instant, aware: bool)

  /** What the middleware does with the session before handing the request on:
      leave it, drop the unlock key, or raise (a malformed date raises
      `ValueError`; comparing a date without an offset against the aware
      current time raises `TypeError`). */
  datatype Decision = Keep | Clear | Fail

  /** The unlock value has passed: it parses, carries an offset and is not
      later than now. */
  predicate Expired(value: string, parse: string -> Parsed<DateTime>, now: Clock.Instant)
  {
    parse(value).Value? && parse(value).value.aware && parse(value).value.instant <= now
  }

  /** Reading the unlock value raises. */
  predicate Raises(value: string, parse: string -> Parsed<DateTime>)
  {
    parse(value).Malformed? || (parse(value).Value? && !parse(value).value.aware)
  }

  /** The lockout library is installed and has no attempt for this address. */
  predicate AttemptsGone(meta: map<string, string>, store: Option<seq<Axes.Attempt>>)
  {
    var ip := Axes.ClientIp(meta);
    store.Some? && ip != [] && forall a :: a in store.value ==> !Axes.SameIp(a, ip)
  }

  /** The decision of `__call__` for the session contents `data`; `store` is
      the attempts table, or `None` when the library cannot be imported. */
  function Decide(data: map<string, string>, meta: map<string, string>, parse: string -> Parsed<DateTime>,
                  now: Clock.Instant, store: Option<seq<Axes.Attempt>>): (d: Decision)
    ensures Axes.UNLOCK_KEY !in data || data[Axes.UNLOCK_KEY] == [] ==> d == Keep
    ensures d == Fail <==> Axes.UNLOCK_KEY in data && data[Axes.UNLOCK_KEY] != [] && Raises(data[Axes.UNLOCK_KEY], parse)
    ensures d == Clear <==>
      && Axes.UNLOCK_KEY in data && data[Axes.UNLOCK_KEY] != []
      && !Raises(data[Axes.UNLOCK_KEY], parse)
      && (Expired(data[Axes.UNLOCK_KEY], parse, now) || AttemptsGone(meta, store))
  {
    var value := Http.GetOr(data, Axes.UNLOCK_KEY, "");
    if value == [] then Keep
    else match parse(value)
      case Malformed => Fail
      case Value(dt) =>
        if !dt.aware then Fail
        else if dt.instant <= now then Clear
        else if AttemptsGone(meta, store) then Clear
        else Keep
      case NoMatch => if AttemptsGone(meta, store) then Clear else Keep
  }

  /** The middleware with the handler it wraps; `handled` records the session
      contents each call of the handler saw. */
  class ClearAxesUnlockAt {
    var handled: seq<map<string, string>>

    constructor ()
      ensures handled == []
    {
      handled := [];
    }

    /** `__call__`: applies the decision to the session, then calls the handler
        exactly once, unless reading the session raised. */
    method Call(session: Http.Session, meta: map<string, string>, parse: string -> Parsed<DateTime>,
                now: Clock.Instant, store: Option<seq<Axes.Attempt>>)
      returns (ok: bool)
      modifies this, session
      ensures var d := Decide(old(session.data), meta, parse, now, store);
        && (ok <==> d != Fail)
        && (d == Clear ==> session.data == old(session.data) - {Axes.UNLOCK_KEY} && session.modified)
        && (d != Clear ==> session.data == old(session.data) && session.modified == old(session.modified))
        && (handled == if ok then old(handled) + [session.data] else old(handled))
    {
      var d := Decide(session.data, meta, parse, now, store);
      if d == Fail {
        ok := false;
        return;
      }
      if d == Clear {
        session.data := session.data - {Axes.UNLOCK_KEY};
        session.modified := true;
      }
      handled := handled + [session.data];
      ok := true;
    }
  }

  /** Clearing takes out the unlock key and nothing else. */
  lemma ClearRemovesOnlyUnlockKey(data: map<string, string>, key: string)
    requires key != Axes.UNLOCK_KEY
    ensures key in data - {Axes.UNLOCK_KEY} <==> key in data
    ensures key in data ==> (data - {Axes.UNLOCK_KEY})[key] == data[key]
    ensures Axes.UNLOCK_KEY !in data - {Axes.UNLOCK_KEY}
  {
  }

  /** The instant stored by a lockout reads back, once it has passed, as
      expired, so the next request clears it; before that it stays while the
      address still has attempts on record. The lockout writes the unlock time
      with `isoformat`, including its offset, which `parse_datetime` reads back. */
  lemma {:induction false} LockoutThenMiddleware(request: Http.Request, data: map<string, string>,
                                                 credentials: Auditoria.Credentials,
                                                 attempts: seq<Axes.Attempt>, setting: Axes.CooloffSetting,
                                                 t: Clock.Instant, iso: Clock.Instant -> string,
                                                 parse: string -> Parsed<DateTime>, now: Clock.Instant)
    requires Axes.UnlockTime(request.meta, Axes.LockedUsername(credentials), attempts, setting) == Some(t)
    requires iso(t) != [] && parse(iso(t)) == Value(DateTime(t, true))
    ensures t <= now ==> Decide(data[Axes.UNLOCK_KEY := iso(t)], request.meta, parse, now, Some(attempts)) == Clear
    ensures now < t ==> Decide(data[Axes.UNLOCK_KEY := iso(t)], request.meta, parse, now, Some(attempts)) == Keep
  {
    var ip := Axes.ClientIp(request.meta);
    var stored := data[Axes.UNLOCK_KEY := iso(t)];
    assert Http.GetOr(stored, Axes.UNLOCK_KEY, "") == iso(t);
    assert exists a :: a in attempts && Axes.SameIp(a, ip);
    assert !AttemptsGone(request.meta, Some(attempts));
  }

  /** Once the attempts table is emptied (`axes_reset`), a pending unlock value
      that reads back is cleared whatever its time, provided the address is known. */
  lemma ResetClearsPending(data: map<string, string>, meta: map<string, string>,
                           parse: string -> Parsed<DateTime>, now: Clock.Instant)
    requires Axes.UNLOCK_KEY in data && data[Axes.UNLOCK_KEY] != []
    requires !Raises(data[Axes.UNLOCK_KEY], parse)
    requires Axes.ClientIp(meta) != []
    ensures Decide(data, meta, parse, now, Some([])) == Clear
  {
  }
}
