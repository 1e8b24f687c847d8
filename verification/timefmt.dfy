/**
 * `time_since` (app-3.py lines 73-83) over the elapsed seconds it computes.
 * Parsing the ISO-8601 timestamp and reading the clock happen outside the
 * model. The input is `None` whenever the source reaches the placeholder
 * before formatting: an empty or missing timestamp, or any exception inside
 * the `try` (a timestamp that does not parse, one without a UTC offset whose
 * naive datetime cannot be subtracted from the aware clock, or a value that
 * is not a string). Otherwise it is the whole number of seconds since the
 * timestamp.
 */
module TimeFormat {
  import opened Wrappers
  import opened Text

  /** The shapes `time_since` renders. */
  datatype Since =
    | Placeholder
    | Secs(seconds: int)
    | Mins(minutes: nat)
    | HoursMins(hours: nat, minutes: nat)

  const SecondsPerMinute: nat := 60
  const SecondsPerHour: nat := 3600

  /**
   * The relative time of `elapsed`: seconds below a minute (negative values
   * included), whole minutes below an hour, otherwise whole hours and the
   * remaining whole minutes.
   */
  function TimeSince(elapsed: Option<int>): (r: Since)
    ensures r.Placeholder? <==> elapsed.None?
    ensures r.Secs? <==> elapsed.Some? && elapsed.value < SecondsPerMinute
    ensures r.Secs? ==> r.seconds == elapsed.value
    ensures r.Mins? <==> elapsed.Some? && SecondsPerMinute <= elapsed.value < SecondsPerHour
    ensures r.Mins? ==> 1 <= r.minutes <= 59
    ensures r.Mins? ==>
      r.minutes * 60 <= elapsed.value < r.minutes * 60 + 60
    ensures r.HoursMins? <==> elapsed.Some? && elapsed.value >= SecondsPerHour
    ensures r.HoursMins? ==> r.hours >= 1 && r.minutes <= 59
    ensures r.HoursMins? ==>
      r.hours * 3600 + r.minutes * 60 <= elapsed.value < r.hours * 3600 + r.minutes * 60 + 60
  {
    match elapsed
    case None => Placeholder
    case Some(diff) =>
      if diff < SecondsPerMinute then Secs(diff)
      else if diff < SecondsPerHour then Mins(diff / SecondsPerMinute)
      else HoursMins(diff / SecondsPerHour, (diff % SecondsPerHour) / SecondsPerMinute)
  }

  /** The placeholder shown for a missing or unreadable timestamp. */
  const PlaceholderText: string := "—"

  /**
   * `t` shows the shape `s`: the amounts in canonical decimal, seconds with
   * their sign and an `s`, minutes with an `m`, and hours and minutes as
   * `<h>h <m>m`.
   */
  predicate Shows(t: string, s: Since) {
    match s
    case Placeholder => t == PlaceholderText
    case Secs(n) =>
      && |t| >= 2 && t[|t| - 1] == 's'
      && (if n >= 0 then Decimal(t[..|t| - 1], n)
          else |t| >= 3 && t[0] == '-' && Decimal(t[1..|t| - 1], -n))
    case Mins(m) =>
      |t| >= 2 && t[|t| - 1] == 'm' && Decimal(t[..|t| - 1], m)
    case HoursMins(h, m) =>
      && |t| >= 2 && t[|t| - 1] == 'm'
      && exists k :: 0 <= k < |t| && HoursSplit(t, k, h, m)
  }

  /** `t` is `<h>h <m>m` with the `h` at index `k`. */
  predicate HoursSplit(t: string, k: int, h: nat, m: nat) {
    && 1 <= k && k + 3 <= |t|
    && t[k..k + 2] == "h "
    && Decimal(t[..k], h)
    && Decimal(t[k + 2..|t| - 1], m)
  }

  /** The text `time_since` returns for each shape. */
  function Render(s: Since): (t: string)
    ensures s.Placeholder? <==> t == PlaceholderText
    ensures Shows(t, s)
  {
    match s
    case Placeholder => PlaceholderText
    case Secs(n) =>
      SecsShown(n);
      IntDigits(n) + "s"
    case Mins(m) =>
      MinsShown(m);
      NatDigits(m) + "m"
    case HoursMins(h, m) =>
      HoursMinsShown(h, m);
      NatDigits(h) + "h " + NatDigits(m) + "m"
  }

  lemma SecsShown(n: int)
    ensures Shows(IntDigits(n) + "s", Secs(n))
  {
    var t := IntDigits(n) + "s";
    assert t[..|t| - 1] == IntDigits(n);
    assert n < 0 ==> t[1..|t| - 1] == IntDigits(n)[1..];
  }

  lemma MinsShown(m: nat)
    ensures Shows(NatDigits(m) + "m", Mins(m))
  {
    var t := NatDigits(m) + "m";
    NatDigitsRoundTrip(m);
    assert t[..|t| - 1] == NatDigits(m);
  }

  lemma HoursMinsShown(h: nat, m: nat)
    ensures Shows(NatDigits(h) + "h " + NatDigits(m) + "m", HoursMins(h, m))
  {
    var t := NatDigits(h) + "h " + NatDigits(m) + "m";
    var k := |NatDigits(h)|;
    NatDigitsRoundTrip(h);
    NatDigitsRoundTrip(m);
    assert t[..k] == NatDigits(h);
    assert t[k..k + 2] == "h ";
    assert t[k + 2..|t| - 1] == NatDigits(m);
    assert HoursSplit(t, k, h, m);
  }

  /** The `h` of a `<h>h <m>m` text sits right after the leading digits. */
  lemma HoursSplitPosition(t: string, k1: int, h1: nat, m1: nat, k2: int, h2: nat, m2: nat)
    requires HoursSplit(t, k1, h1, m1) && HoursSplit(t, k2, h2, m2)
    ensures k1 == k2
  {
    if k1 < k2 {
      HoursAt(t, k1, h1, m1);
      PrefixDigit(t, k2, h2, k1);
    } else if k2 < k1 {
      HoursAt(t, k2, h2, m2);
      PrefixDigit(t, k1, h1, k2);
    }
  }

  lemma HoursAt(t: string, k: int, h: nat, m: nat)
    requires HoursSplit(t, k, h, m)
    ensures t[k] == 'h'
  {
    assert t[k..k + 2][0] == t[k];
  }

  lemma PrefixDigit(t: string, k: int, n: nat, i: int)
    requires 0 <= i < k <= |t| && Decimal(t[..k], n)
    ensures '0' <= t[i] <= '9'
  {
    assert t[..k][i] == t[i];
  }

  /** A `<h>h <m>m` text is not a number followed by its unit. */
  lemma HoursSplitNotDecimal(t: string, k: int, h: nat, m: nat, n: nat)
    requires HoursSplit(t, k, h, m)
    ensures !Decimal(t[..|t| - 1], n)
  {
    assert t[..|t| - 1][k] == t[k..k + 2][0];
  }

  /** A text shows at most one shape. */
  lemma ShowsUnique(t: string, a: Since, b: Since)
    requires Shows(t, a) && Shows(t, b)
    ensures a == b
  {
    match a
    case Placeholder =>
    case Secs(n) =>
    case Mins(m) =>
      if b.HoursMins? {
        var k :| HoursSplit(t, k, b.hours, b.minutes);
        HoursSplitNotDecimal(t, k, b.hours, b.minutes, m);
      }
    case HoursMins(h, m) =>
      var k1 :| HoursSplit(t, k1, h, m);
      if b.HoursMins? {
        var k2 :| HoursSplit(t, k2, b.hours, b.minutes);
        HoursSplitPosition(t, k1, h, m, k2, b.hours, b.minutes);
      } else if b.Mins? {
        HoursSplitNotDecimal(t, k1, h, m, b.minutes);
      }
  }

  /**
   * The text determines the shape and the amounts: two shapes that render
   * alike are the same.
   */
  lemma RenderInjective(a: Since, b: Since)
    requires Render(a) == Render(b)
    ensures a == b
  {
    ShowsUnique(Render(a), a, b);
  }

  /** The worked values: 59 seconds, 90 seconds, 2 hours 5 minutes and 5 seconds ahead. */
  lemma RenderExamples()
    ensures Render(TimeSince(None)) == "—"
    ensures Render(TimeSince(Some(59))) == "59s"
    ensures Render(TimeSince(Some(90))) == "1m"
    ensures Render(TimeSince(Some(7500))) == "2h 5m"
    ensures Render(TimeSince(Some(-5))) == "-5s"
  {
    assert TimeSince(Some(59)) == Secs(59);
    assert NatDigits(59) == NatDigits(5) + [DigitChar(9)];
    assert TimeSince(Some(90)) == Mins(1);
    assert TimeSince(Some(7500)) == HoursMins(2, 5);
    assert TimeSince(Some(-5)) == Secs(-5);
  }
}
