/**
 * Two display helpers of static/js/app.js: `formatDuration` on whole seconds
 * and `getFileName`, the base name of a path with either separator.
 */
module ClientFormat {
  import opened Common
  import opened Strings

  /** `n.toString().padStart(2, '0')`. */
  function Pad2(n: nat): string {
    PadStart(Dec(n), 2, '0')
  }

  /** `formatDuration(seconds)`: `h:mm:ss` from one hour on, `m:ss` below. */
  function FormatDuration(seconds: nat): string {
    Clock(seconds / 3600, (seconds % 3600) / 60, seconds % 60)
  }

  /** The text for whole hours, minutes and seconds. */
  function Clock(hours: nat, minutes: nat, secs: nat): string {
    if hours > 0 then Dec(hours) + ":" + Pad2(minutes) + ":" + Pad2(secs)
    else Dec(minutes) + ":" + Pad2(secs)
  }

  /** A field of exactly two digits. */
  predicate TwoDigitField(s: string) {
    |s| == 2 && AllDigits(s)
  }

  /** Reads back a duration: `h:mm:ss` or `m:ss`, the last fields exactly two digits. */
  function ParseDuration(s: string): Option<nat> {
    var f := Split(s, ':');
    if |f| == 3 && |f[0]| > 0 && AllDigits(f[0]) && TwoDigitField(f[1]) && TwoDigitField(f[2]) then
      Some(ParseNat(f[0]) * 3600 + ParseNat(f[1]) * 60 + ParseNat(f[2]))
    else if |f| == 2 && |f[0]| > 0 && AllDigits(f[0]) && TwoDigitField(f[1]) then
      Some(ParseNat(f[0]) * 60 + ParseNat(f[1]))
    else None
  }

  lemma DigitsHaveNoColon(s: string)
    requires AllDigits(s)
    ensures ':' !in s
  {
  }

  /** Digit fields joined with ':' split back into the same fields. */
  lemma SplitDigitFields(parts: seq<string>)
    requires |parts| >= 1
    requires forall i :: 0 <= i < |parts| ==> AllDigits(parts[i])
    ensures Split(Join(parts, ':'), ':') == parts
  {
    forall i | 0 <= i < |parts| ensures ':' !in parts[i] {
      DigitsHaveNoColon(parts[i]);
    }
    SplitJoin(parts, ':');
  }

  lemma Join2(a: string, b: string)
    ensures Join([a, b], ':') == a + ":" + b
  {
    assert [a, b][1..] == [b];
  }

  lemma Join3(a: string, b: string, c: string)
    ensures Join([a, b, c], ':') == a + ":" + b + ":" + c
  {
    assert [a, b, c][1..] == [b, c];
    Join2(b, c);
  }

  /** The fields a clock text is made of. */
  function ClockParts(hours: nat, minutes: nat, secs: nat): seq<string> {
    if hours > 0 then [Dec(hours), Pad2(minutes), Pad2(secs)] else [Dec(minutes), Pad2(secs)]
  }

  lemma ClockIsJoin(hours: nat, minutes: nat, secs: nat)
    ensures Clock(hours, minutes, secs) == Join(ClockParts(hours, minutes, secs), ':')
  {
    if hours > 0 {
      Join3(Dec(hours), Pad2(minutes), Pad2(secs));
    } else {
      Join2(Dec(minutes), Pad2(secs));
    }
  }

  lemma ClockPartsAreDigits(hours: nat, minutes: nat, secs: nat)
    requires minutes < 60 && secs < 60
    ensures |ClockParts(hours, minutes, secs)| >= 1
    ensures forall i :: 0 <= i < |ClockParts(hours, minutes, secs)| ==> AllDigits(ClockParts(hours, minutes, secs)[i])
  {
    var p := ClockParts(hours, minutes, secs);
    if hours > 0 {
      assert p == [Dec(hours), Pad2(minutes), Pad2(secs)];
      forall i | 0 <= i < |p| ensures AllDigits(p[i]) {
        if i == 1 {
          TwoDigits(minutes);
        } else if i == 2 {
          TwoDigits(secs);
        }
      }
    } else {
      assert p == [Dec(minutes), Pad2(secs)];
      forall i | 0 <= i < |p| ensures AllDigits(p[i]) {
        if i == 1 {
          TwoDigits(secs);
        }
      }
    }
  }

  /** The fields of a clock text, read back. */
  lemma ClockFields(hours: nat, minutes: nat, secs: nat)
    requires minutes < 60 && secs < 60
    ensures Split(Clock(hours, minutes, secs), ':') == ClockParts(hours, minutes, secs)
  {
    var parts := ClockParts(hours, minutes, secs);
    ClockIsJoin(hours, minutes, secs);
    ClockPartsAreDigits(hours, minutes, secs);
    SplitDigitFields(parts);
  }

  /** Hours, minutes and seconds add back up to the duration. */
  lemma DurationArithmetic(n: nat)
    ensures (n % 3600) / 60 < 60 && n % 60 < 60
    ensures (n / 3600) * 3600 + ((n % 3600) / 60) * 60 + n % 60 == n
    ensures n / 3600 > 0 <==> n >= 3600
  {
    var r := n % 3600;
    assert n == (n / 3600) * 3600 + r;
    assert r == (r / 60) * 60 + r % 60;
    assert n % 60 == r % 60 by {
      assert n == ((n / 3600) * 60) * 60 + r;
    }
  }

  /** A leading field: decimal digits without a leading zero that read back as `n`. */
  lemma LeadField(n: nat)
    ensures |Dec(n)| > 0 && AllDigits(Dec(n))
    ensures |Dec(n)| > 1 ==> Dec(n)[0] != '0'
    ensures ParseNat(Dec(n)) == n
  {
    ParseDec(n);
  }

  /** A padded field: two digits that read back as `n`. */
  lemma PaddedField(n: nat)
    requires n < 60
    ensures |Pad2(n)| == 2 && AllDigits(Pad2(n)) && ParseNat(Pad2(n)) == n
  {
    TwoDigits(n);
  }

  /** The fields of a clock text with hours. */
  lemma ClockLong(hours: nat, minutes: nat, secs: nat)
    requires hours > 0 && minutes < 60 && secs < 60
    ensures var f := Split(Clock(hours, minutes, secs), ':');
      |f| == 3 && f[0] == Dec(hours) && f[1] == Pad2(minutes) && f[2] == Pad2(secs)
  {
    ClockFields(hours, minutes, secs);
  }

  /** The fields of a clock text without hours. */
  lemma ClockShort(minutes: nat, secs: nat)
    requires minutes < 60 && secs < 60
    ensures var f := Split(Clock(0, minutes, secs), ':');
      |f| == 2 && f[0] == Dec(minutes) && f[1] == Pad2(secs)
  {
    ClockFields(0, minutes, secs);
  }

  /** From one hour on the display has three fields: the hours without a leading zero, then
      minutes and seconds as two digits each, and they add back up to the duration. */
  lemma DurationFieldsLong(n: nat)
    requires n >= 3600
    ensures var f := Split(FormatDuration(n), ':');
      && |f| == 3
      && |f[0]| > 0 && AllDigits(f[0]) && (|f[0]| > 1 ==> f[0][0] != '0') && ParseNat(f[0]) > 0
      && TwoDigitField(f[1]) && ParseNat(f[1]) < 60
      && TwoDigitField(f[2]) && ParseNat(f[2]) < 60
      && ParseNat(f[0]) * 3600 + ParseNat(f[1]) * 60 + ParseNat(f[2]) == n
  {
    var hours, minutes, secs := n / 3600, (n % 3600) / 60, n % 60;
    DurationArithmetic(n);
    assert FormatDuration(n) == Clock(hours, minutes, secs);
    ClockLong(hours, minutes, secs);
    LeadField(hours);
    PaddedField(minutes);
    PaddedField(secs);
  }

  /** Below one hour the display has two fields: the minutes without a leading zero and the
      seconds as two digits, and they add back up to the duration. */
  lemma DurationFieldsShort(n: nat)
    requires n < 3600
    ensures var f := Split(FormatDuration(n), ':');
      && |f| == 2
      && |f[0]| > 0 && AllDigits(f[0]) && (|f[0]| > 1 ==> f[0][0] != '0') && ParseNat(f[0]) < 60
      && TwoDigitField(f[1]) && ParseNat(f[1]) < 60
      && ParseNat(f[0]) * 60 + ParseNat(f[1]) == n
  {
    var minutes, secs := (n % 3600) / 60, n % 60;
    DurationArithmetic(n);
    assert n / 3600 == 0;
    assert FormatDuration(n) == Clock(0, minutes, secs);
    ClockShort(minutes, secs);
    LeadField(minutes);
    PaddedField(secs);
  }

  /** `ParseDuration` on a text with three well-formed fields. */
  lemma ParseThreeFields(s: string)
    requires var f := Split(s, ':');
      |f| == 3 && |f[0]| > 0 && AllDigits(f[0]) && TwoDigitField(f[1]) && TwoDigitField(f[2])
    ensures var f := Split(s, ':');
      ParseDuration(s) == Some(ParseNat(f[0]) * 3600 + ParseNat(f[1]) * 60 + ParseNat(f[2]))
  {
  }

  /** `ParseDuration` on a text with two well-formed fields. */
  lemma ParseTwoFields(s: string)
    requires var f := Split(s, ':');
      |f| == 2 && |f[0]| > 0 && AllDigits(f[0]) && TwoDigitField(f[1])
    ensures var f := Split(s, ':');
      ParseDuration(s) == Some(ParseNat(f[0]) * 60 + ParseNat(f[1]))
  {
  }

  /** Reading a formatted duration back gives the duration. */
  lemma FormatDurationRoundTrip(n: nat)
    ensures ParseDuration(FormatDuration(n)) == Some(n)
  {
    if n >= 3600 {
      DurationFieldsLong(n);
      ParseThreeFields(FormatDuration(n));
    } else {
      DurationFieldsShort(n);
      ParseTwoFields(FormatDuration(n));
    }
  }

  /** Different durations are displayed differently. */
  lemma FormatDurationInjective(a: nat, b: nat)
    requires FormatDuration(a) == FormatDuration(b)
    ensures a == b
  {
    FormatDurationRoundTrip(a);
    FormatDurationRoundTrip(b);
  }

  /** A path separator `getFileName` splits on. */
  predicate IsSeparator(c: char) {
    c == '/' || c == '\\'
  }

  /** `filepath.split('/').pop().split('\\').pop()`. */
  function GetFileName(path: string): string {
    LastPart(LastPart(path, '/'), '\\')
  }

  /** A suffix of a text without `c` has no `c` either. */
  lemma SuffixLacks(a: string, r: string, c: char)
    requires |r| <= |a| && a[|a| - |r|..] == r && c !in a
    ensures c !in r
  {
    forall i | 0 <= i < |r| ensures r[i] != c {
      assert r[i] == a[|a| - |r| + i];
    }
  }

  /** The file name is the longest suffix of the path without a separator: it contains
      none, it is a suffix, and it is either the whole path or preceded by a separator. */
  lemma GetFileNameIsBaseName(path: string)
    ensures var r := GetFileName(path);
      && (forall i :: 0 <= i < |r| ==> !IsSeparator(r[i]))
      && |r| <= |path| && path[|path| - |r|..] == r
      && (|r| < |path| ==> IsSeparator(path[|path| - |r| - 1]))
  {
    var a := LastPart(path, '/');
    var r := LastPart(a, '\\');
    LastPartIsSuffix(path, '/');
    LastPartIsSuffix(a, '\\');
    SuffixLacks(a, r, '/');
    assert path[|path| - |a|..][|a| - |r|..] == r;
    if |r| < |path| && |r| < |a| {
      assert path[|path| - |r| - 1] == a[|a| - |r| - 1];
    }
  }

  /** A path without separators is its own file name. */
  lemma GetFileNameOfPlainName(path: string)
    requires forall i :: 0 <= i < |path| ==> !IsSeparator(path[i])
    ensures GetFileName(path) == path
  {
    GetFileNameIsBaseName(path);
  }

  /** Taking the file name twice is taking it once. */
  lemma GetFileNameIdempotent(path: string)
    ensures GetFileName(GetFileName(path)) == GetFileName(path)
  {
    GetFileNameIsBaseName(path);
    GetFileNameOfPlainName(GetFileName(path));
  }
}
