/**
 * `isTimeBetween` (src/utils.ts): both "H:M" strings become minutes since
 * midnight, the clock reading becomes `hours * 60 + minutes`, and the window
 * test is inclusive at both ends. The clock is a parameter.
 */
module Utils {
  import opened Common

  predicate IsDigit(c: char)
  {
    '0' <= c <= '9'
  }

  predicate AllDigits(s: string)
  {
    forall i :: 0 <= i < |s| ==> IsDigit(s[i])
  }

  /** `s.split(sep)`: the pieces between separators, at least one, none holding
      the separator; a string without the separator is one piece. */
  function Split(s: string, sep: char): (r: seq<string>)
    ensures |r| >= 1
    ensures forall i :: 0 <= i < |r| ==> sep !in r[i]
    ensures sep !in s ==> r == [s]
    decreases |s|
  {
    if s == [] then [""]
    else
      var rest := Split(s[1..], sep);
      assert [s[0]] + s[1..] == s;
      if s[0] == sep then [""] + rest else [[s[0]] + rest[0]] + rest[1..]
  }

  /** `pieces.join(sep)`. */
  function Join(pieces: seq<string>, sep: char): string
    requires |pieces| >= 1
    decreases |pieces|
  {
    if |pieces| == 1 then pieces[0] else pieces[0] + [sep] + Join(pieces[1..], sep)
  }

  /** Joining the pieces with the separator gives the string back. */
  lemma {:induction false} SplitJoin(s: string, sep: char)
    ensures Join(Split(s, sep), sep) == s
    decreases |s|
  {
    if s != [] {
      var rest := Split(s[1..], sep);
      SplitJoin(s[1..], sep);
      assert [s[0]] + s[1..] == s;
      var r := Split(s, sep);
      if s[0] == sep {
        assert r[1..] == rest;
      } else if |rest| > 1 {
        assert r[1..] == rest[1..];
      }
    }
  }

  lemma {:induction false} SplitNoSeparator(a: string, sep: char, tail: string)
    requires sep !in a
    ensures Split(a + [sep] + tail, sep) == [a] + Split(tail, sep)
    decreases |a|
  {
    if a == [] {
      assert a + [sep] + tail == [sep] + tail;
      assert ([sep] + tail)[1..] == tail;
    } else {
      SplitNoSeparator(a[1..], sep, tail);
      assert (a + [sep] + tail)[1..] == a[1..] + [sep] + tail;
      assert [a[0]] + a[1..] == a;
    }
  }

  /** Splitting "a:b" gives back exactly `a` and `b` when neither holds a colon. */
  lemma {:induction false} SplitTwo(a: string, b: string)
    requires ':' !in a && ':' !in b
    ensures Split(a + ":" + b, ':') == [a, b]
  {
    SplitNoSeparator(a, ':', b);
  }

  /** The value of a string of decimal digits; "" is 0, as `Number("")` is. */
  function DigitsValue(s: string): nat
    requires AllDigits(s)
  {
    if s == [] then 0
    else
      assert IsDigit(s[|s| - 1]);
      DigitsValue(s[..|s| - 1]) * 10 + (s[|s| - 1] as int - '0' as int)
  }

  /** `Number(part)` for the parts this model covers: a digit string gives its
      value; anything else, and a missing part, is `None` (JavaScript's NaN,
      or a form outside the model). */
  function Number(part: Option<string>): (r: Option<nat>)
    ensures r.Some? <==> part.Some? && AllDigits(part.value)
    ensures r.Some? ==> r.value == DigitsValue(part.value)
    ensures part == Some("") ==> r == Some(0)
  {
    if part.Some? && AllDigits(part.value) then Some(DigitsValue(part.value)) else None
  }

  /** `Number(parts[0]) * 60 + Number(parts[1])` of "H:M"; `None` stands for NaN.
      Without a colon there is no minute part, so the time is NaN. */
  function TimeToMinutes(t: string): (r: Option<nat>)
    ensures ':' !in t ==> r == None
  {
    PartsToMinutes(Split(t, ':'))
  }

  /** `Number(parts[0]) * 60 + Number(parts[1])`: a missing second part is NaN,
      and parts after the second play no part. */
  function PartsToMinutes(parts: seq<string>): (r: Option<nat>)
    requires |parts| >= 1
    ensures |parts| < 2 ==> r == None
    ensures r.Some? ==>
      |parts| >= 2 && AllDigits(parts[0]) && AllDigits(parts[1]) &&
      r.value == DigitsValue(parts[0]) * 60 + DigitsValue(parts[1])
    ensures |parts| > 2 ==> r == PartsToMinutes(parts[..2])
  {
    var h := Number(Some(parts[0]));
    var m := Number(if |parts| >= 2 then Some(parts[1]) else None);
    if h.Some? && m.Some? then Some(h.value * 60 + m.value) else None
  }

  /** The clock reading `getHours() * 60 + getMinutes()`: seconds play no part. */
  function Now(hours: nat, minutes: nat): (r: nat)
    requires hours < 24 && minutes < 60
    ensures r <= 1439
    ensures r / 60 == hours && r % 60 == minutes
  {
    hours * 60 + minutes
  }

  /** The result of `isTimeBetween(startTime, endTime)` at the given clock
      reading. A NaN bound makes both comparisons false. */
  function IsTimeBetween(startTime: string, endTime: string, hours: nat, minutes: nat): (r: bool)
    requires hours < 24 && minutes < 60
    // only a well-formed window that does not cross midnight can hold
    ensures r ==> ':' in startTime && ':' in endTime
    ensures r ==>
      TimeToMinutes(startTime).Some? && TimeToMinutes(endTime).Some? &&
      TimeToMinutes(startTime).value <= TimeToMinutes(endTime).value
  {
    var start := TimeToMinutes(startTime);
    var end := TimeToMinutes(endTime);
    var now := Now(hours, minutes);
    start.Some? && end.Some? && start.value <= now && now <= end.value
  }

  // ---------------------------------------------------------------------
  // Formatting "H:M" and reading it back

  function DigitChar(d: nat): char
    requires d < 10
  {
    ('0' as int + d) as char
  }

  /** The decimal digits of `n`, without leading zeros. */
  function Digits(n: nat): (r: string)
    ensures |r| >= 1
    ensures AllDigits(r)
  {
    if n < 10 then [DigitChar(n)] else Digits(n / 10) + [DigitChar(n % 10)]
  }

  lemma {:induction false} DigitsValueOfDigits(n: nat)
    ensures DigitsValue(Digits(n)) == n
  {
    var s := Digits(n);
    if n >= 10 {
      DigitsValueOfDigits(n / 10);
      assert s[..|s| - 1] == Digits(n / 10);
    }
  }

  /** `Number` reads back the decimal digits of `n` as `n`. */
  lemma NumberOfDigits(n: nat)
    ensures Number(Some(Digits(n))) == Some(n)
  {
    DigitsValueOfDigits(n);
  }

  /** The string `"H:M"` for the given hour and minute numbers. */
  function Format(h: nat, m: nat): string
  {
    Digits(h) + ":" + Digits(m)
  }

  /** "a:b" with two digit strings reads as `a * 60 + b` minutes. */
  lemma {:induction false} DigitPartsToMinutes(a: string, b: string)
    requires AllDigits(a) && AllDigits(b)
    ensures TimeToMinutes(a + ":" + b) == Some(DigitsValue(a) * 60 + DigitsValue(b))
  {
    assert ':' !in a by {
      forall i | 0 <= i < |a| ensures a[i] != ':' { assert IsDigit(a[i]); }
    }
    assert ':' !in b by {
      forall i | 0 <= i < |b| ensures b[i] != ':' { assert IsDigit(b[i]); }
    }
    SplitTwo(a, b);
    assert Number(Some(a)) == Some(DigitsValue(a));
    assert Number(Some(b)) == Some(DigitsValue(b));
    assert PartsToMinutes([a, b]) == Some(DigitsValue(a) * 60 + DigitsValue(b));
  }

  /** Reading back a formatted time gives `h * 60 + m`. */
  lemma {:induction false} FormatRoundTrip(h: nat, m: nat)
    ensures TimeToMinutes(Format(h, m)) == Some(h * 60 + m)
  {
    DigitPartsToMinutes(Digits(h), Digits(m));
    DigitsValueOfDigits(h);
    DigitsValueOfDigits(m);
  }

  // ---------------------------------------------------------------------
  // The window test

  /** True exactly when both bounds parse and the reading lies between them, both ends included. */
  lemma InclusiveWindow(startTime: string, endTime: string, hours: nat, minutes: nat, start: nat, end: nat)
    requires hours < 24 && minutes < 60
    requires TimeToMinutes(startTime) == Some(start) && TimeToMinutes(endTime) == Some(end)
    ensures IsTimeBetween(startTime, endTime, hours, minutes) <==> start <= hours * 60 + minutes <= end
  {
  }

  /** A bound that is not a number makes the result false. */
  lemma MalformedBoundNeverTrue(startTime: string, endTime: string, hours: nat, minutes: nat)
    requires hours < 24 && minutes < 60
    requires TimeToMinutes(startTime).None? || TimeToMinutes(endTime).None?
    ensures !IsTimeBetween(startTime, endTime, hours, minutes)
  {
  }

  /** A window that crosses midnight (start after end) is never true. */
  lemma CrossMidnightNeverTrue(startTime: string, endTime: string, hours: nat, minutes: nat)
    requires hours < 24 && minutes < 60
    requires TimeToMinutes(startTime).Some? && TimeToMinutes(endTime).Some?
    requires TimeToMinutes(startTime).value > TimeToMinutes(endTime).value
    ensures !IsTimeBetween(startTime, endTime, hours, minutes)
  {
  }

  /** A window whose ends coincide is true in that one minute only. */
  lemma SingleMinuteWindow(startTime: string, endTime: string, hours: nat, minutes: nat)
    requires hours < 24 && minutes < 60
    requires TimeToMinutes(startTime).Some? && TimeToMinutes(startTime) == TimeToMinutes(endTime)
    ensures IsTimeBetween(startTime, endTime, hours, minutes) <==>
      hours * 60 + minutes == TimeToMinutes(startTime).value
  {
  }

  /** The bounds of the working-hours window read as 540 and 1020 minutes. */
  lemma WorkingHoursStart()
    ensures TimeToMinutes("9:00") == Some(540)
  {
    DigitPartsToMinutes("9", "00");
    assert "9" + ":" + "00" == "9:00";
    assert DigitsValue("9") == 9 by { assert "9"[..0] == ""; }
    assert DigitsValue("00") == 0 by { assert "00"[..1] == "0" && "0"[..0] == ""; }
  }

  lemma WorkingHoursEnd()
    ensures TimeToMinutes("17:00") == Some(1020)
  {
    DigitPartsToMinutes("17", "00");
    assert "17" + ":" + "00" == "17:00";
    assert DigitsValue("17") == 17 by { assert "17"[..1] == "1" && "1"[..0] == ""; }
    assert DigitsValue("00") == 0 by { assert "00"[..1] == "0" && "0"[..0] == ""; }
  }

  /** The working-hours window "9:00"-"17:00": 9:00 and 17:00 are inside, 8:59 and 17:01 are not. */
  lemma WorkingHours()
    ensures IsTimeBetween("9:00", "17:00", 9, 0) && IsTimeBetween("9:00", "17:00", 17, 0)
    ensures !IsTimeBetween("9:00", "17:00", 8, 59) && !IsTimeBetween("9:00", "17:00", 17, 1)
  {
    WorkingHoursStart();
    WorkingHoursEnd();
  }
}
