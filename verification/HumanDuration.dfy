/** Ages as `kubectl get` prints them (`printer.rs` `human_duration`). */
module HumanDuration {
  import opened JsonValue

  function Digit(d: nat): char
    requires d < 10
  {
    "0123456789"[d]
  }

  function Decimal(n: nat): (s: string)
    ensures s != []
  {
    if n < 10 then [Digit(n)] else Decimal(n / 10) + [Digit(n % 10)]
  }

  function Count(n: nat, unit: char): string {
    Decimal(n) + [unit]
  }

  /** A count of one unit, and of a smaller one when that is not zero. */
  datatype Age = Age(n: nat, unit: char, m: nat, small: char)

  function Of(seconds: nat): Age {
    if seconds < 60 * 2 then Age(seconds, 's', 0, 's')
    else
      var minutes := seconds / 60;
      if minutes < 10 then Age(minutes, 'm', seconds % 60, 's')
      else if minutes < 60 * 3 then Age(minutes, 'm', 0, 's')
      else
        var hours := seconds / 3600;
        if hours < 8 then Age(hours, 'h', minutes % 60, 'm')
        else if hours < 48 then Age(hours, 'h', 0, 'm')
        else if hours < 24 * 8 then Age(hours / 24, 'd', hours % 24, 'h')
        else if hours < 24 * 365 * 2 then Age(hours / 24, 'd', 0, 'h')
        else if hours < 24 * 365 * 8 then Age(hours / 24 / 365, 'y', (hours / 24) % 365, 'd')
        else Age(hours / 24 / 365, 'y', 0, 'd')
  }

  function Spell(age: Age): string {
    if age.m == 0 then Count(age.n, age.unit) else Count(age.n, age.unit) + Count(age.m, age.small)
  }

  function Render(seconds: int): string {
    if seconds < -1 then "<invalid>" else if seconds < 0 then "0s" else Spell(Of(seconds))
  }

  // ---- what a text says ------------------------------------------------------------------

  predicate IsDigit(c: char) {
    '0' <= c <= '9'
  }

  function DigitsAt(s: string): (n: nat)
    ensures n <= |s| && (forall i | 0 <= i < n :: IsDigit(s[i])) && (n < |s| ==> !IsDigit(s[n]))
  {
    if s == [] || !IsDigit(s[0]) then 0 else 1 + DigitsAt(s[1..])
  }

  function DigitValue(c: char): nat {
    if IsDigit(c) then c as int - '0' as int else 0
  }

  function Number(s: string): nat {
    if s == [] then 0 else 10 * Number(s[..|s| - 1]) + DigitValue(s[|s| - 1])
  }

  /** `n` of a unit in seconds; a year is 365 days. */
  function Worth(n: nat, unit: char): Option<nat> {
    match unit
    case 's' => Some(n)
    case 'm' => Some(n * 60)
    case 'h' => Some(n * 3600)
    case 'd' => Some(n * 86400)
    case 'y' => Some(n * 31536000)
    case _ => None
  }

  function Sum(first: Option<nat>, rest: Option<nat>): Option<nat> {
    if first.None? || rest.None? then None else Some(first.value + rest.value)
  }

  /** The seconds a run of counted units adds up to; none when the text is not one. */
  function Denoted(s: string): Option<nat>
    decreases |s|
  {
    if s == [] then Some(0)
    else
      var n := DigitsAt(s);
      if n == 0 || n == |s| then None
      else
        Sum(Worth(Number(s[..n]), s[n]), Denoted(s[n + 1..]))
  }

  lemma {:induction false} DecimalReadsBack(n: nat)
    ensures forall c | c in Decimal(n) :: IsDigit(c)
    ensures Number(Decimal(n)) == n
  {
    if n >= 10 {
      DecimalReadsBack(n / 10);
      assert Decimal(n)[..|Decimal(n)| - 1] == Decimal(n / 10);
    } else {
      assert Decimal(n)[..|Decimal(n)| - 1] == [];
    }
  }

  lemma {:induction false} DigitsEnd(s: string, c: char, rest: string)
    requires (forall d | d in s :: IsDigit(d)) && !IsDigit(c)
    ensures DigitsAt(s + [c] + rest) == |s|
  {
    if s == [] {
      assert s + [c] + rest == [c] + rest;
    } else {
      assert (s + [c] + rest)[1..] == s[1..] + [c] + rest;
      DigitsEnd(s[1..], c, rest);
    }
  }

  lemma PieceCuts(digits: string, unit: char, rest: string)
    ensures var s, k := digits + [unit] + rest, |digits|;
            s != [] && s[k] == unit && s[..k] == digits && s[k + 1..] == rest
  {
  }

  lemma PieceDenotes(digits: string, unit: char, rest: string)
    requires digits != [] && (forall d | d in digits :: IsDigit(d)) && !IsDigit(unit)
    ensures Denoted(digits + [unit] + rest) == Sum(Worth(Number(digits), unit), Denoted(rest))
  {
    DigitsEnd(digits, unit, rest);
    PieceCuts(digits, unit, rest);
  }

  /** One counted unit, and two. */
  lemma PiecesDenote(a: string, unit: char, b: string, small: char)
    requires a != [] && (forall d | d in a :: IsDigit(d)) && !IsDigit(unit)
    requires b != [] && (forall d | d in b :: IsDigit(d)) && !IsDigit(small)
    ensures Denoted(a + [unit]) == Sum(Worth(Number(a), unit), Some(0))
    ensures Denoted(a + [unit] + (b + [small])) == Sum(Worth(Number(a), unit), Sum(Worth(Number(b), small), Some(0)))
  {
    PieceDenotes(a, unit, "");
    assert a + [unit] + "" == a + [unit];
    PieceDenotes(b, small, "");
    assert b + [small] + "" == b + [small];
    PieceDenotes(a, unit, b + [small]);
  }

  /** What an age is worth, unit by unit. */
  function Value(age: Age): Option<nat> {
    Sum(Worth(age.n, age.unit), Worth(age.m, age.small))
  }

  lemma DecimalsDenote(n: nat, unit: char, m: nat, small: char)
    requires !IsDigit(unit) && !IsDigit(small)
    ensures Denoted(Count(n, unit)) == Sum(Worth(n, unit), Some(0))
    ensures Denoted(Count(n, unit) + Count(m, small)) == Sum(Worth(n, unit), Sum(Worth(m, small), Some(0)))
  {
    DecimalReadsBack(n);
    DecimalReadsBack(m);
    PiecesDenote(Decimal(n), unit, Decimal(m), small);
  }

  lemma SpellDenotes(age: Age)
    requires Value(age).Some?
    ensures Denoted(Spell(age)) == Value(age)
  {
    DecimalsDenote(age.n, age.unit, age.m, age.small);
  }

  // ---- how close it is ---------------------------------------------------------------------

  /** An age cut to the second, minute, hour, day or year: the next unit from eight of it on,
      the minute from ten. */
  function Shown(seconds: nat): nat {
    if seconds < 600 then seconds
    else if seconds < 28800 then seconds / 60 * 60
    else if seconds < 691200 then seconds / 3600 * 3600
    else if seconds < 252288000 then seconds / 86400 * 86400
    else seconds / 31536000 * 31536000
  }

  lemma DaysAndYears(seconds: nat)
    ensures seconds / 3600 / 24 == seconds / 86400 && seconds / 3600 / 24 / 365 == seconds / 31536000
    ensures seconds / 3600 / 24 * 86400 + seconds / 3600 % 24 * 3600 == seconds / 3600 * 3600
    ensures seconds / 31536000 * 31536000 + seconds / 86400 % 365 * 86400 == seconds / 86400 * 86400
  {
  }

  lemma ValueOfMinutes(seconds: nat)
    requires seconds < 28800
    ensures Value(Of(seconds)) == Some(Shown(seconds))
  {
    var minutes, hours := seconds / 60, seconds / 3600;
    if minutes < 10 {
      assert minutes * 60 + seconds % 60 == seconds;
    } else if minutes >= 180 {
      assert hours * 3600 + minutes % 60 * 60 == minutes * 60;
    }
  }

  lemma ValueOfHours(seconds: nat)
    requires 28800 <= seconds < 691200
    ensures Value(Of(seconds)) == Some(Shown(seconds))
  {
    var hours := seconds / 3600;
    assert hours / 24 * 86400 + hours % 24 * 3600 == hours * 3600;
  }

  lemma ValueOfDays(seconds: nat)
    requires seconds >= 691200
    ensures Value(Of(seconds)) == Some(Shown(seconds))
  {
    DaysAndYears(seconds);
    var days := seconds / 86400;
    assert seconds / 3600 / 24 == days;
    if seconds < 252288000 {
      assert days / 365 * 31536000 + days % 365 * 86400 == days * 86400;
    }
  }

  /** The printed age says the age cut to its unit, exactly. */
  lemma RenderDenotes(seconds: nat)
    ensures Denoted(Render(seconds)) == Some(Shown(seconds))
  {
    if seconds < 28800 {
      ValueOfMinutes(seconds);
    } else if seconds < 691200 {
      ValueOfHours(seconds);
    } else {
      ValueOfDays(seconds);
    }
    SpellDenotes(Of(seconds));
  }

  lemma OfShownDays(seconds: nat)
    requires seconds >= 691200
    ensures Of(Shown(seconds)) == Of(seconds)
  {
    DaysAndYears(seconds);
    DaysAndYears(Shown(seconds));
  }

  lemma OfShownHours(seconds: nat)
    requires 28800 <= seconds < 691200
    ensures Of(Shown(seconds)) == Of(seconds)
  {
    assert Shown(seconds) / 3600 == seconds / 3600;
  }

  lemma OfShownMinutes(seconds: nat)
    requires seconds < 28800
    ensures Of(Shown(seconds)) == Of(seconds)
  {
    assert Shown(seconds) / 60 == seconds / 60;
    assert Shown(seconds) / 3600 == seconds / 3600;
  }

  /** The age a text says prints as that text. */
  lemma ShownAgain(seconds: nat)
    ensures Render(Shown(seconds)) == Render(seconds)
  {
    if seconds >= 691200 {
      OfShownDays(seconds);
    } else if seconds >= 28800 {
      OfShownHours(seconds);
    } else {
      OfShownMinutes(seconds);
    }
  }

  /** Every printed age says a time not above the age and short of it by at most an eighth,
      and that time prints the same. */
  lemma PrintedAgeIsClose(seconds: nat)
    ensures var v := Denoted(Render(seconds));
            v.Some? && v.value <= seconds && 8 * (seconds - v.value) <= seconds && Render(v.value) == Render(seconds)
  {
    RenderDenotes(seconds);
    ShownAgain(seconds);
  }

  /** Where an age is cut to a larger unit, the cut is no less than every smaller age. */
  lemma ShownWithin(seconds: nat)
    ensures Shown(seconds) <= seconds
    ensures seconds >= 600 ==> Shown(seconds) >= 600
    ensures seconds >= 28800 ==> Shown(seconds) >= 28800
    ensures seconds >= 691200 ==> Shown(seconds) >= 691200
    ensures seconds >= 252288000 ==> Shown(seconds) >= 252288000
  {
  }

  lemma SameUnitIsMonotone(a: nat, b: nat, unit: nat)
    requires a <= b && unit in {60, 3600, 86400, 31536000}
    ensures a / unit * unit <= b / unit * unit
  {
  }

  lemma ShownIsMonotone(a: nat, b: nat)
    requires a <= b
    ensures Shown(a) <= Shown(b)
  {
    ShownWithin(a);
    ShownWithin(b);
    if a >= 252288000 {
      SameUnitIsMonotone(a, b, 31536000);
    } else if a >= 691200 && b < 252288000 {
      SameUnitIsMonotone(a, b, 86400);
    } else if 28800 <= a && b < 691200 {
      SameUnitIsMonotone(a, b, 3600);
    } else if 600 <= a && b < 28800 {
      SameUnitIsMonotone(a, b, 60);
    }
  }

  /** An older thing never prints a younger age. */
  lemma PrintedAgesGrow(a: nat, b: nat)
    requires a <= b
    ensures var v, w := Denoted(Render(a)), Denoted(Render(b));
            v.Some? && w.Some? && v.value <= w.value
  {
    RenderDenotes(a);
    RenderDenotes(b);
    ShownIsMonotone(a, b);
  }

  /** Two ages print alike exactly when they round to the same one. */
  lemma SameTextIff(a: nat, b: nat)
    ensures Render(a) == Render(b) <==> Shown(a) == Shown(b)
  {
    RenderDenotes(a);
    RenderDenotes(b);
    ShownAgain(a);
    ShownAgain(b);
  }

  /** A clock a second behind still prints an age; further behind is not an age. */
  lemma BehindTheClock(seconds: int)
    requires seconds < 0
    ensures Denoted(Render(seconds)) == if seconds == -1 then Some(0) else None
  {
    if seconds == -1 {
      PiecesDenote("0", 's', "0", 's');
      assert "0" + ['s'] == "0s" && Number("0") == 0;
    } else {
      assert !IsDigit("<invalid>"[0]);
    }
  }

  // ---- the units it is said in ---------------------------------------------------------------

  /** A text without its digits. */
  function Units(s: string): string {
    if s == [] then [] else (if IsDigit(s[0]) then [] else [s[0]]) + Units(s[1..])
  }

  lemma {:induction false} UnitsOfDigits(s: string, rest: string)
    requires forall c | c in s :: IsDigit(c)
    ensures Units(s + rest) == Units(rest)
  {
    if s == [] {
      assert s + rest == rest;
    } else {
      assert (s + rest)[0] == s[0] && (s + rest)[1..] == s[1..] + rest;
      UnitsOfDigits(s[1..], rest);
    }
  }

  lemma UnitsOfCount(n: nat, unit: char, rest: string)
    requires !IsDigit(unit)
    ensures Units(Count(n, unit) + rest) == [unit] + Units(rest)
  {
    DecimalReadsBack(n);
    assert Count(n, unit) + rest == Decimal(n) + ([unit] + rest);
    UnitsOfDigits(Decimal(n), [unit] + rest);
    assert ([unit] + rest)[1..] == rest;
  }

  lemma UnitsOfAge(age: Age)
    requires !IsDigit(age.unit) && !IsDigit(age.small)
    ensures Units(Spell(age)) == if age.m == 0 then [age.unit] else [age.unit, age.small]
  {
    UnitsOfCount(age.n, age.unit, "");
    UnitsOfCount(age.m, age.small, "");
    UnitsOfCount(age.n, age.unit, Count(age.m, age.small));
    assert Count(age.n, age.unit) + "" == Count(age.n, age.unit);
    assert Count(age.m, age.small) + "" == Count(age.m, age.small);
  }

  /** Seconds for two minutes, minutes for three hours, hours for two days, days for two years,
      then years; each with the next smaller unit beside it, unless there is none of that, for the
      first ten minutes, eight hours, eight days and eight years. */
  lemma UnitsPrinted(seconds: nat)
    ensures Units(Render(seconds)) ==
            if seconds < 120 then "s"
            else if seconds < 600 && seconds % 60 != 0 then "ms"
            else if seconds < 10800 then "m"
            else if seconds < 28800 && seconds / 60 % 60 != 0 then "hm"
            else if seconds < 172800 then "h"
            else if seconds < 691200 && seconds / 3600 % 24 != 0 then "dh"
            else if seconds < 63072000 then "d"
            else if seconds < 252288000 && seconds / 86400 % 365 != 0 then "yd"
            else "y"
  {
    UnitsOfAge(Of(seconds));
    DaysAndYears(seconds);
  }
}
