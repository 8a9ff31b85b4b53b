/** Time as the source uses it. An instant is a whole number of microseconds of
    local wall-clock time (the deployment's zone, America/Lima, keeps a fixed
    offset), counted from a Monday 00:00. A day is a day number on the same
    scale, so the local date of an instant and its weekday are integer
    division and remainder. */
module Clock {
  import Text

  type Instant = int
  type Day = int

  const MICROS_PER_SECOND: int := 1_000_000
  const MICROS_PER_MINUTE: int := 60 * MICROS_PER_SECOND
  const MICROS_PER_HOUR: int := 60 * MICROS_PER_MINUTE
  const MICROS_PER_DAY: int := 24 * MICROS_PER_HOUR
  const MINUTES_PER_DAY: int := 24 * 60

  /** `timezone.localtime(t).date()`: the local day an instant falls on. */
  function LocalDay(t: Instant): (d: Day)
    ensures StartOfDay(d) <= t < StartOfDay(d + 1)
  {
    t / MICROS_PER_DAY
  }

  /** A later instant never falls on an earlier day. */
  lemma LocalDayMonotone(s: Instant, t: Instant)
    requires s <= t
    ensures LocalDay(s) <= LocalDay(t)
  {
  }

  /** Local midnight at the start of day `d`. */
  function StartOfDay(d: Day): Instant
  {
    d * MICROS_PER_DAY
  }

  /** Python's `date.weekday()`: Monday is 0 and Sunday is 6. */
  function Weekday(d: Day): (w: int)
    ensures 0 <= w < 7
  {
    d % 7
  }

  /** The minutes elapsed since local midnight, as shown by `%H:%M`. */
  function MinuteOfDay(t: Instant): (m: int)
    ensures 0 <= m < MINUTES_PER_DAY
    ensures StartOfDay(LocalDay(t)) + m * MICROS_PER_MINUTE <= t
    ensures t < StartOfDay(LocalDay(t)) + (m + 1) * MICROS_PER_MINUTE
  {
    (t - StartOfDay(LocalDay(t))) / MICROS_PER_MINUTE
  }

  /** A number below 100 written with two digits, as `%H` and `%M` do. */
  function TwoDigits(n: nat): (r: string)
    requires n < 100
    ensures |r| == 2 && '0' <= r[0] <= '9' && '0' <= r[1] <= '9'
    ensures Text.DigitsValue(r) == n
  {
    var r := [Text.DigitChar(n / 10), Text.DigitChar(n % 10)];
    assert r[..1] == [r[0]] && r[..1][..0] == [];
    assert Text.DigitsValue(r[..1]) == n / 10;
    r
  }

  /** `t.strftime("%H:%M")`: five characters, hour and minute of the local time. */
  function Hhmm(t: Instant): (r: string)
    ensures |r| == 5 && r[2] == ':'
    ensures forall k :: 0 <= k < 5 && k != 2 ==> '0' <= r[k] <= '9'
    ensures Text.DigitsValue(r[..2]) < 24 && Text.DigitsValue(r[3..]) < 60
    ensures Text.DigitsValue(r[..2]) * 60 + Text.DigitsValue(r[3..]) == MinuteOfDay(t)
  {
    var m := MinuteOfDay(t);
    var r := TwoDigits(m / 60) + ":" + TwoDigits(m % 60);
    assert r[..2] == TwoDigits(m / 60) && r[3..] == TwoDigits(m % 60);
    r
  }

  /** Two instants show the same `%H:%M` exactly when they fall in the same
      minute of their days. */
  lemma {:induction false} HhmmSameMinute(s: Instant, t: Instant)
    ensures Hhmm(s) == Hhmm(t) <==> MinuteOfDay(s) == MinuteOfDay(t)
  {
    var a, b := Hhmm(s), Hhmm(t);
    if a == b {
      assert a[..2] == b[..2] && a[3..] == b[3..];
    }
  }
}
