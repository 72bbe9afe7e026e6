/**
 * Display values of one report card (src/components/AlertCard.tsx): the
 * relative-time label, the capitalised status label and the colour classes.
 */
module AlertCard {
  import opened Reports

  const MsPerMinute: int := 60000
  const MsPerHour: int := 3600000
  const MsPerDay: int := 86400000

  datatype TimeUnit = Minutes | Hours | Days

  function UnitMs(u: TimeUnit): int
  {
    match u
    case Minutes => MsPerMinute
    case Hours => MsPerHour
    case Days => MsPerDay
  }

  /** How long ago, in one unit: the value behind "{n}m ago", "{n}h ago", "{n}d ago". */
  datatype Elapsed = Elapsed(amount: int, unit: TimeUnit)

  /**
   * The three floor divisions of `formatDate` and its threshold choice. The
   * difference is now minus the creation time, in milliseconds; a creation
   * time in the future gives a negative difference. Dafny's `/` by a positive
   * divisor rounds down, as `Math.floor` of the quotient does.
   */
  function RelativeTime(diffMs: int): (e: Elapsed)
    ensures UnitMs(e.unit) * e.amount <= diffMs < UnitMs(e.unit) * (e.amount + 1)
    ensures e.unit == Minutes <==> diffMs < MsPerHour
    ensures e.unit == Hours <==> MsPerHour <= diffMs < MsPerDay
    ensures e.unit == Days <==> MsPerDay <= diffMs
    ensures e.unit == Minutes ==> e.amount <= 59
    ensures e.unit == Hours ==> 1 <= e.amount <= 23
    ensures e.unit == Days ==> e.amount >= 1
  {
    var diffMins := diffMs / MsPerMinute;
    var diffHours := diffMs / MsPerHour;
    var diffDays := diffMs / MsPerDay;
    if diffMins < 60 then Elapsed(diffMins, Minutes)
    else if diffHours < 24 then Elapsed(diffHours, Hours)
    else Elapsed(diffDays, Days)
  }

  /** A report created in the future always reads as a negative number of minutes. */
  lemma FutureIsMinutes(diffMs: int)
    requires diffMs < 0
    ensures RelativeTime(diffMs).unit == Minutes && RelativeTime(diffMs).amount < 0
  {
  }

  /** The decimal digit for `d`. */
  function DigitChar(d: int): (c: char)
    requires 0 <= d < 10
    ensures '0' <= c <= '9' && c as int - '0' as int == d
  {
    (d + '0' as int) as char
  }

  predicate IsDigits(s: string)
  {
    forall i :: 0 <= i < |s| ==> '0' <= s[i] <= '9'
  }

  /** How a non-negative integer number renders in a template literal: decimal digits. */
  function NatToString(n: nat): (s: string)
    ensures s != [] && IsDigits(s)
    ensures n > 0 ==> s[0] != '0'
  {
    if n < 10 then [DigitChar(n)] else NatToString(n / 10) + [DigitChar(n % 10)]
  }

  /** How an integer number renders in a template literal: a minus sign for negatives. */
  function IntToString(i: int): string
  {
    if i < 0 then "-" + NatToString(-i) else NatToString(i)
  }

  /** The value of a string of decimal digits. */
  function DigitsValue(s: string): nat
    requires IsDigits(s)
  {
    if s == [] then 0 else DigitsValue(s[..|s| - 1]) * 10 + (s[|s| - 1] as int - '0' as int)
  }

  /** Reading an optionally signed decimal number back. */
  function ParseInt(s: string): Option<int>
  {
    if s != [] && s[0] == '-' && s[1..] != [] && IsDigits(s[1..]) then Some(-(DigitsValue(s[1..]) as int))
    else if s != [] && IsDigits(s) then Some(DigitsValue(s))
    else None
  }

  lemma {:induction false} NatToStringRoundTrip(n: nat)
    ensures DigitsValue(NatToString(n)) == n
  {
    if n >= 10 {
      NatToStringRoundTrip(n / 10);
      var s := NatToString(n / 10) + [DigitChar(n % 10)];
      assert s[..|s| - 1] == NatToString(n / 10);
    }
  }

  /** Rendering an integer loses nothing: it parses back to itself. */
  lemma IntToStringRoundTrip(i: int)
    ensures ParseInt(IntToString(i)) == Some(i)
  {
    var text := IntToString(i);
    if i < 0 {
      var digits := NatToString(-i);
      NatToStringRoundTrip(-i);
      assert text[0] == '-' && text[1..] == digits;
    } else {
      var digits := NatToString(i);
      NatToStringRoundTrip(i);
      assert text == digits && '0' <= text[0] <= '9';
    }
  }

  function UnitSuffix(u: TimeUnit): string
  {
    match u
    case Minutes => "m ago"
    case Hours => "h ago"
    case Days => "d ago"
  }

  /**
   * `formatDate`, given the millisecond difference: the label ends in the
   * chosen unit's suffix and starts with a minus sign exactly for a creation
   * time in the future.
   */
  function FormatDate(diffMs: int): (text: string)
    ensures |text| > 5 && text[|text| - 5..] == UnitSuffix(RelativeTime(diffMs).unit)
    ensures text[0] == '-' <==> diffMs < 0
  {
    var e := RelativeTime(diffMs);
    var digits := IntToString(e.amount);
    assert e.amount < 0 <==> diffMs < 0;
    assert digits[0] == '-' <==> e.amount < 0;
    digits + UnitSuffix(e.unit)
  }

  /** Reads a label back into the amount and unit it shows. */
  function ParseLabel(text: string): Option<Elapsed>
  {
    if |text| <= 5 then None
    else
      var suffix := text[|text| - 5..];
      var unit :=
        if suffix == "m ago" then Some(Minutes)
        else if suffix == "h ago" then Some(Hours)
        else if suffix == "d ago" then Some(Days)
        else None;
      match (unit, ParseInt(text[..|text| - 5]))
      case (Some(u), Some(n)) => Some(Elapsed(n, u))
      case _ => None
  }

  /** The label shows exactly the bucketed amount and unit of the difference. */
  lemma FormatDateRoundTrip(diffMs: int)
    ensures ParseLabel(FormatDate(diffMs)) == Some(RelativeTime(diffMs))
    ensures var text := FormatDate(diffMs); text[0] == '0' ==> text[..|text| - 5] == "0"
    ensures var text := FormatDate(diffMs); text[0] == '-' ==> '1' <= text[1] <= '9'
  {
    var e := RelativeTime(diffMs);
    var digits := IntToString(e.amount);
    var text := digits + UnitSuffix(e.unit);
    IntToStringRoundTrip(e.amount);
    assert text[..|text| - 5] == digits;
    assert text[|text| - 5..] == UnitSuffix(e.unit);
    if e.amount < 0 {
      assert text[1] == NatToString(-e.amount)[0];
    } else if e.amount == 0 {
      assert digits == "0";
    }
  }

  /** An ASCII lower-case letter in upper case; every other character unchanged. */
  function UpperAscii(c: char): char
  {
    if 'a' <= c <= 'z' then (c as int - 32) as char else c
  }

  /** `s.charAt(0).toUpperCase() + s.slice(1)`, also for the empty string. */
  function Capitalize(s: string): (r: string)
    ensures |r| == |s|
    ensures s != [] ==> r[0] == UpperAscii(s[0]) && r[1..] == s[1..]
  {
    if s == [] then [] else [UpperAscii(s[0])] + s[1..]
  }

  /** The status chip's text: the status with only its first letter upper-cased. */
  function StatusLabel(st: Status): (text: string)
    ensures st == Active ==> text == "Active"
    ensures st == Investigating ==> text == "Investigating"
    ensures st == Resolved ==> text == "Resolved"
  {
    assert StatusName(Active)[1..] == "ctive";
    assert StatusName(Investigating)[1..] == "nvestigating";
    assert StatusName(Resolved)[1..] == "esolved";
    Capitalize(StatusName(st))
  }

  /** `severityColors`: a class for each of the four severities. */
  function SeverityClass(s: Severity): string
  {
    match s
    case Low => "bg-blue-50 " + "text-blue-700 border-blue-200"
    case Medium => "bg-yellow-50 " + "text-yellow-700 border-yellow-200"
    case High => "bg-orange-50 " + "text-orange-700 border-orange-200"
    case Critical => "bg-red-50 " + "text-red-700 border-red-200"
  }

  /** `statusColors`: a class for each of the three statuses (the location view uses the same map). */
  function StatusClass(s: Status): string
  {
    match s
    case Active => "bg-red-100 text-red-800"
    case Investigating => "bg-yellow-100 text-yellow-800"
    case Resolved => "bg-green-100 text-green-800"
  }

  /** Both maps are total over their enums and tell every value apart. */
  lemma ColourClassesDistinct(a: Severity, b: Severity, c: Status, d: Status)
    ensures SeverityClass(a) == SeverityClass(b) ==> a == b
    ensures StatusClass(c) == StatusClass(d) ==> c == d
  {
    var low, medium, high, critical := SeverityClass(Low), SeverityClass(Medium), SeverityClass(High), SeverityClass(Critical);
    assert low[3] == 'b' && medium[3] == 'y' && high[3] == 'o' && critical[3] == 'r';
    var active, investigating, resolved := StatusClass(Active), StatusClass(Investigating), StatusClass(Resolved);
    assert active[3] == 'r' && investigating[3] == 'y' && resolved[3] == 'g';
  }
}
