/**
  The relative-time label the dashboard and the board print beside each log
  entry: whole seconds since the timestamp, reported in the largest unit
  that fits, from "just now" up to days.
 */
module TimeAgo {
  import opened Wrappers
  import opened Text

  /** What a label says: under a minute, or a whole number of minutes, hours or days. */
  datatype Elapsed = JustNow | MinutesAgo(minutes: nat) | HoursAgo(hours: nat) | DaysAgo(days: nat)

  /** `Math.floor((now - timestamp) / 1000)`: whole seconds, rounded toward minus infinity. */
  function Seconds(now: int, timestamp: int): (s: int)
    ensures 1000 * s <= now - timestamp < 1000 * (s + 1)
  {
    (now - timestamp) / 1000
  }

  /** The bucket a number of seconds falls in; a timestamp in the future reads as "just now". */
  function ElapsedSince(now: int, timestamp: int): (r: Elapsed)
    ensures r.JustNow? <==> Seconds(now, timestamp) < 60
    ensures r.MinutesAgo? <==> 60 <= Seconds(now, timestamp) < 3600
    ensures r.HoursAgo? <==> 3600 <= Seconds(now, timestamp) < 86400
    ensures r.DaysAgo? <==> 86400 <= Seconds(now, timestamp)
    ensures r.MinutesAgo? ==> 1 <= r.minutes < 60 && 60 * r.minutes <= Seconds(now, timestamp) < 60 * (r.minutes + 1)
    ensures r.HoursAgo? ==> 1 <= r.hours < 24 && 3600 * r.hours <= Seconds(now, timestamp) < 3600 * (r.hours + 1)
    ensures r.DaysAgo? ==> 1 <= r.days && 86400 * r.days <= Seconds(now, timestamp) < 86400 * (r.days + 1)
  {
    var s := Seconds(now, timestamp);
    if s < 60 then JustNow
    else if s < 3600 then MinutesAgo(s / 60)
    else if s < 86400 then HoursAgo(s / 3600)
    else DaysAgo(s / 86400)
  }

  /** `<n><unit> ago`. */
  function Amount(n: nat, unit: char): string {
    NatToString(n) + [unit] + " ago"
  }

  /** `<n>` digits, then the unit letter, then ` ago`. */
  lemma AmountShape(n: nat, unit: char)
    ensures var s := Amount(n, unit);
      |s| > 5 && s[|s| - 4..] == " ago" && s[|s| - 5] == unit && AllDigits(s[..|s| - 5]) && s != "just now"
  {
    var s := Amount(n, unit);
    assert s[..|s| - 5] == NatToString(n);
    assert s[|s| - 4..] == " ago";
    assert "just now"[|"just now"| - 4..] == " now";
  }

  /**
    The text of a label: `just now`, `<n>m ago`, `<n>h ago` or `<n>d ago`.
    Only the first says `just now`; the others are digits, a unit letter
    naming the bucket, and ` ago`.
   */
  function Render(e: Elapsed): (r: string)
    ensures r == "just now" <==> e.JustNow?
    ensures !e.JustNow? ==> |r| > 5 && r[|r| - 4..] == " ago" && AllDigits(r[..|r| - 5])
    ensures e.MinutesAgo? ==> r[|r| - 5] == 'm'
    ensures e.HoursAgo? ==> r[|r| - 5] == 'h'
    ensures e.DaysAgo? ==> r[|r| - 5] == 'd'
  {
    match e
    case JustNow => "just now"
    case MinutesAgo(n) => AmountShape(n, 'm'); Amount(n, 'm')
    case HoursAgo(n) => AmountShape(n, 'h'); Amount(n, 'h')
    case DaysAgo(n) => AmountShape(n, 'd'); Amount(n, 'd')
  }

  /**
    `formatTimeAgo(timestamp)` with the clock reading `now`: the text reads
    back as the bucket the elapsed seconds fall in, and it is `just now`
    exactly when less than a minute has passed.
   */
  function FormatTimeAgo(now: int, timestamp: int): (r: string)
    ensures Parse(r) == Some(ElapsedSince(now, timestamp))
    ensures r == "just now" <==> Seconds(now, timestamp) < 60
  {
    ParseRender(ElapsedSince(now, timestamp));
    Render(ElapsedSince(now, timestamp))
  }

  predicate AllDigits(s: string) {
    forall i :: 0 <= i < |s| ==> IsDigit(s[i])
  }

  /** The label an amount with that unit letter stands for. */
  function WithUnit(unit: char, n: nat): Option<Elapsed> {
    match unit
    case 'm' => Some(MinutesAgo(n))
    case 'h' => Some(HoursAgo(n))
    case 'd' => Some(DaysAgo(n))
    case _ => None
  }

  /** Reads a label back: the inverse of `Render`. */
  function Parse(s: string): Option<Elapsed> {
    if s == "just now" then Some(JustNow)
    else if |s| <= 5 || s[|s| - 4..] != " ago" || !AllDigits(s[..|s| - 5]) then None
    else WithUnit(s[|s| - 5], ParseDigits(s[..|s| - 5]))
  }

  /** An amount reads back as its number and unit. */
  lemma ParseAmount(n: nat, unit: char)
    ensures Parse(Amount(n, unit)) == WithUnit(unit, n)
  {
    var digits := NatToString(n);
    var s := Amount(n, unit);
    assert s[0] == digits[0];
    assert "just now"[0] == 'j';
    assert s[|s| - 4..] == " ago";
    assert s[..|s| - 5] == digits;
    ParseNatToString(n);
  }

  /** Every label reads back as what it says. */
  lemma ParseRender(e: Elapsed)
    ensures Parse(Render(e)) == Some(e)
  {
    match e
    case JustNow =>
    case MinutesAgo(n) => ParseAmount(n, 'm');
    case HoursAgo(n) => ParseAmount(n, 'h');
    case DaysAgo(n) => ParseAmount(n, 'd');
  }

  /** Distinct labels have distinct texts. */
  lemma RenderInjective(a: Elapsed, b: Elapsed)
    requires Render(a) == Render(b)
    ensures a == b
  {
    ParseRender(a);
    ParseRender(b);
  }

  /** The least number of seconds a label can stand for. */
  function Magnitude(e: Elapsed): int {
    match e
    case JustNow => 0
    case MinutesAgo(n) => 60 * n
    case HoursAgo(n) => 3600 * n
    case DaysAgo(n) => 86400 * n
  }

  /** A label never overstates the time passed, and as the clock advances a label never goes back. */
  lemma ElapsedMonotone(now1: int, now2: int, timestamp: int)
    requires now1 <= now2
    ensures Magnitude(ElapsedSince(now1, timestamp)) <= Magnitude(ElapsedSince(now2, timestamp))
    ensures ElapsedSince(now1, timestamp).JustNow? || Magnitude(ElapsedSince(now1, timestamp)) <= Seconds(now1, timestamp)
  {
  }
}
