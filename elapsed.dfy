/**
 * The "time since last commit" counter of the commit browser: a
 * non-negative millisecond difference broken down into whole days, hours
 * modulo 24, minutes modulo 60 and seconds modulo 60, rendered as
 * "{d}d {h}h {m}m {s}s".
 *
 * The source computes each field with `Math.floor(diff / unit) % period`;
 * for a non-negative `diff` JavaScript's floor division and `%` agree with
 * Dafny's `/` and `%`, so the fields are written with them directly.
 */
module Elapsed {
  import opened Wrappers

  const MsPerSecond: nat := 1000
  const MsPerMinute: nat := 1000 * 60
  const MsPerHour: nat := 1000 * 60 * 60
  const MsPerDay: nat := 1000 * 60 * 60 * 24

  /** A broken-down duration, one field per unit shown. */
  datatype Duration = Duration(days: nat, hours: nat, minutes: nat, seconds: nat)

  /** Every field below its unit's period; days are unbounded. */
  predicate InRange(d: Duration) {
    d.hours < 24 && d.minutes < 60 && d.seconds < 60
  }

  /** The number of whole seconds a duration stands for. */
  function TotalSeconds(d: Duration): nat {
    d.days * 86400 + d.hours * 3600 + d.minutes * 60 + d.seconds
  }

  /**
   * The four fields of `calculateTimeElapsed` for `diff` milliseconds: each
   * in its range, and together exactly the whole seconds in `diff`.
   */
  function Decompose(diff: int): (d: Duration)
    requires diff >= 0
    ensures InRange(d)
    ensures TotalSeconds(d) == diff / MsPerSecond
  {
    DecomposeReconstructs(diff);
    Duration(diff / MsPerDay, (diff / MsPerHour) % 24, (diff / MsPerMinute) % 60, (diff / MsPerSecond) % 60)
  }

  /** The source's four divisions recombine into the whole seconds of `diff`. */
  lemma DecomposeReconstructs(diff: nat)
    ensures (diff / MsPerDay) * 86400 + ((diff / MsPerHour) % 24) * 3600
            + ((diff / MsPerMinute) % 60) * 60 + (diff / MsPerSecond) % 60
            == diff / MsPerSecond
  {
    var t := diff / 1000;
    var m := t / 60;
    var h := m / 60;
    var dd := h / 24;
    assert diff / MsPerMinute == m;
    assert diff / MsPerHour == h;
    assert diff / MsPerDay == dd;
    assert t == 60 * m + t % 60;
    assert m == 60 * h + m % 60;
    assert h == 24 * dd + h % 24;
    calc {
      dd * 86400 + (h % 24) * 3600 + (m % 60) * 60 + t % 60;
      (24 * dd + h % 24) * 3600 + (m % 60) * 60 + t % 60;
      h * 3600 + (m % 60) * 60 + t % 60;
      (60 * h + m % 60) * 60 + t % 60;
      m * 60 + t % 60;
      t;
    }
  }

  /** Decimal digits '0'..'9'. */
  predicate IsDigit(c: char) {
    '0' <= c <= '9'
  }

  function DigitChar(n: nat): (c: char)
    requires n < 10
    ensures IsDigit(c)
  {
    ['0', '1', '2', '3', '4', '5', '6', '7', '8', '9'][n]
  }

  function DigitValue(c: char): (n: nat)
    requires IsDigit(c)
    ensures n < 10 && DigitChar(n) == c
  {
    (c as int) - ('0' as int)
  }

  /**
   * `${n}` for a whole number: its decimal digits, with no leading zero
   * except for zero itself.
   */
  function NatToString(n: nat): (s: string)
    ensures |s| > 0
    ensures forall i :: 0 <= i < |s| ==> IsDigit(s[i])
    ensures s[0] == '0' ==> s == "0"
    decreases n
  {
    if n < 10 then [DigitChar(n)] else NatToString(n / 10) + [DigitChar(n % 10)]
  }

  /** The value of a run of decimal digits. */
  function ParseDigits(s: string): nat
    requires forall i :: 0 <= i < |s| ==> IsDigit(s[i])
  {
    if s == [] then 0 else ParseDigits(s[..|s| - 1]) * 10 + DigitValue(s[|s| - 1])
  }

  /** Reading back the decimal rendering of `n` gives `n`. */
  lemma {:induction false} ParseDigitsOfNatToString(n: nat)
    ensures ParseDigits(NatToString(n)) == n
    decreases n
  {
    var s := NatToString(n);
    if n >= 10 {
      assert s[..|s| - 1] == NatToString(n / 10);
      ParseDigitsOfNatToString(n / 10);
      assert DigitValue(s[|s| - 1]) == n % 10;
    } else {
      assert s[..|s| - 1] == [];
    }
  }

  /** The length of the leading run of digits of `s`. */
  function DigitRun(s: string): (k: nat)
    ensures k <= |s|
    ensures forall i :: 0 <= i < k ==> IsDigit(s[i])
    ensures k < |s| ==> !IsDigit(s[k])
  {
    if s == [] || !IsDigit(s[0]) then 0 else 1 + DigitRun(s[1..])
  }

  /** A run of digits followed by a non-digit (or nothing) is read exactly. */
  lemma {:induction false} DigitRunOfDigitsThen(p: string, q: string)
    requires forall i :: 0 <= i < |p| ==> IsDigit(p[i])
    requires q == [] || !IsDigit(q[0])
    ensures DigitRun(p + q) == |p|
  {
    if p != [] {
      assert (p + q)[1..] == p[1..] + q;
      DigitRunOfDigitsThen(p[1..], q);
    } else {
      assert p + q == q;
    }
  }

  /**
   * Reads one field "<digits><unit>" from the front of `s`, where the digits
   * have no leading zero unless they are "0"; on success gives the field's
   * value and what follows the unit.
   */
  function ParseField(s: string, unit: string): Option<(nat, string)> {
    var k := DigitRun(s);
    if 0 < k && (k == 1 || s[0] != '0') && unit <= s[k..] then Some((ParseDigits(s[..k]), s[k + |unit|..])) else None
  }

  /** Rendering a number and its unit, then reading the field back, is the identity. */
  lemma ParseFieldOfRendered(n: nat, unit: string, rest: string)
    requires unit != [] && !IsDigit(unit[0])
    ensures ParseField(NatToString(n) + unit + rest, unit) == Some((n, rest))
  {
    var p := NatToString(n);
    var s := p + unit + rest;
    assert s == p + (unit + rest);
    DigitRunOfDigitsThen(p, unit + rest);
    assert s[..|p|] == p;
    assert s[|p|..] == unit + rest;
    assert s[|p| + |unit|..] == rest;
    ParseDigitsOfNatToString(n);
  }

  /** Digits in canonical form: non-empty, with no leading zero unless they are "0". */
  predicate IsCanonicalDigits(p: string) {
    |p| > 0 && (|p| == 1 || p[0] != '0') && forall i :: 0 <= i < |p| ==> IsDigit(p[i])
  }

  /** Digits that do not start with '0' have a positive value. */
  lemma {:induction false} ParseDigitsPositive(p: string)
    requires |p| > 0 && p[0] != '0' && forall i :: 0 <= i < |p| ==> IsDigit(p[i])
    ensures ParseDigits(p) > 0
  {
    if |p| > 1 {
      ParseDigitsPositive(p[..|p| - 1]);
    }
  }

  /** Canonical digits are the decimal rendering of their own value. */
  lemma {:induction false} NatToStringOfParseDigits(p: string)
    requires IsCanonicalDigits(p)
    ensures NatToString(ParseDigits(p)) == p
  {
    var q, c := p[..|p| - 1], p[|p| - 1];
    if |p| > 1 {
      assert IsCanonicalDigits(q);
      ParseDigitsPositive(q);
      NatToStringOfParseDigits(q);
      var n := ParseDigits(p);
      assert n == ParseDigits(q) * 10 + DigitValue(c);
      assert n / 10 == ParseDigits(q) && n % 10 == DigitValue(c);
      assert p == q + [c];
    }
  }

  /** A field that parses was rendered from its value: the text before `rest` is exactly `${n}` and the unit. */
  lemma ParseFieldCanonical(s: string, unit: string, n: nat, rest: string)
    requires ParseField(s, unit) == Some((n, rest))
    ensures s == NatToString(n) + unit + rest
  {
    var k := DigitRun(s);
    assert IsCanonicalDigits(s[..k]);
    NatToStringOfParseDigits(s[..k]);
    assert s == s[..k] + s[k..k + |unit|] + s[k + |unit|..];
  }

  /** Reads a text of the shape "{d}d {h}h {m}m {s}s" back into a duration. */
  function ParseFormatted(s: string): Option<Duration> {
    match ParseField(s, "d ")
    case None => None
    case Some((days, r1)) =>
      match ParseField(r1, "h ")
      case None => None
      case Some((hours, r2)) =>
        match ParseField(r2, "m ")
        case None => None
        case Some((minutes, r3)) =>
          match ParseField(r3, "s")
          case None => None
          case Some((seconds, r4)) =>
            if r4 == [] then Some(Duration(days, hours, minutes, seconds)) else None
  }

  /** The four rendered fields with their units read back as the duration they came from. */
  lemma RenderedFieldsReadBack(d: Duration)
    ensures ParseFormatted(NatToString(d.days) + "d " + (NatToString(d.hours) + "h "
      + (NatToString(d.minutes) + "m " + (NatToString(d.seconds) + "s")))) == Some(d)
  {
    var sd, sh, sm, ss := NatToString(d.days), NatToString(d.hours), NatToString(d.minutes), NatToString(d.seconds);
    var r3 := ss + "s";
    var r2 := sm + "m " + r3;
    var r1 := sh + "h " + r2;
    ParseFieldOfRendered(d.days, "d ", r1);
    ParseFieldOfRendered(d.hours, "h ", r2);
    ParseFieldOfRendered(d.minutes, "m ", r3);
    assert r3 == ss + "s" + [];
    ParseFieldOfRendered(d.seconds, "s", []);
  }

  /**
   * The text "{d}d {h}h {m}m {s}s" of a duration: it reads back as exactly
   * that duration, so it has that shape and loses no field.
   */
  function Format(d: Duration): (s: string)
    ensures ParseFormatted(s) == Some(d)
  {
    RenderedFieldsReadBack(d);
    NatToString(d.days) + "d " + (NatToString(d.hours) + "h "
      + (NatToString(d.minutes) + "m " + (NatToString(d.seconds) + "s")))
  }

  /** Reading is exact: the only text that reads back as `d` is the formatted text of `d`. */
  lemma ParseFormattedOnlyFormat(s: string, d: Duration)
    requires ParseFormatted(s) == Some(d)
    ensures s == Format(d)
  {
    var (days, r1) := ParseField(s, "d ").value;
    var (hours, r2) := ParseField(r1, "h ").value;
    var (minutes, r3) := ParseField(r2, "m ").value;
    var (seconds, r4) := ParseField(r3, "s").value;
    assert r4 == [] && d == Duration(days, hours, minutes, seconds);
    ParseFieldCanonical(r3, "s", seconds, r4);
    var t3 := NatToString(seconds) + "s";
    assert r3 == t3;
    ParseFieldCanonical(r2, "m ", minutes, r3);
    var t2 := NatToString(minutes) + "m " + t3;
    assert r2 == t2;
    ParseFieldCanonical(r1, "h ", hours, r2);
    var t1 := NatToString(hours) + "h " + t2;
    assert r1 == t1;
    ParseFieldCanonical(s, "d ", days, r1);
    assert s == NatToString(days) + "d " + t1;
  }

  /**
   * `calculateTimeElapsed`: the text shown `now - lastCommit` milliseconds
   * after the last commit. It reads back as the source's four fields, which
   * are in range and recombine into the whole seconds elapsed.
   */
  function CalculateTimeElapsed(now: int, lastCommit: int): (s: string)
    requires now >= lastCommit
    ensures ParseFormatted(s) == Some(Decompose(now - lastCommit))
  {
    Format(Decompose(now - lastCommit))
  }

  /** 90,061 seconds after the last commit the counter reads "1d 1h 1m 1s". */
  lemma OneDayOneHourOneMinuteOneSecond(lastCommit: int)
    ensures CalculateTimeElapsed(lastCommit + 90061000, lastCommit) == "1d 1h 1m 1s"
  {
    assert Decompose(90061000) == Duration(1, 1, 1, 1);
    assert NatToString(1) == "1";
  }

  /** A later instant never shows fewer elapsed seconds or fewer days. */
  lemma ElapsedMonotone(diff1: int, diff2: int)
    requires 0 <= diff1 <= diff2
    ensures TotalSeconds(Decompose(diff1)) <= TotalSeconds(Decompose(diff2))
    ensures Decompose(diff1).days <= Decompose(diff2).days
  {
  }
}
