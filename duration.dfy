/** `format_duration` in main.py: turn an ISO 8601 duration of the form PT<h>H<m>M
    (section 4.4.3.2 of ISO 8601) into "<h> hours <m> minutes" by string slicing,
    `split`, `replace` and `int`. */
module Duration {
  import opened Wrappers

  /** The exception `int()` raises, with the text it was given. */
  datatype Exception = ValueError(literal: string)

  predicate IsDigit(c: char) {
    '0' <= c <= '9'
  }

  /** A non-empty string of ASCII digits: the only input `int()` accepts in this model. */
  predicate IsDecimal(s: string) {
    |s| > 0 && forall i :: 0 <= i < |s| ==> IsDigit(s[i])
  }

  function DigitValue(c: char): nat
    requires IsDigit(c)
  {
    c as int - '0' as int
  }

  function DigitsValue(s: string): nat
    requires forall i :: 0 <= i < |s| ==> IsDigit(s[i])
  {
    if s == [] then 0 else 10 * DigitsValue(s[..|s| - 1]) + DigitValue(s[|s| - 1])
  }

  /** `int(s)`: the decimal value of a digit string, ValueError otherwise. */
  function ParseInt(s: string): (r: Result<nat, Exception>)
    ensures r.Ok? <==> IsDecimal(s)
    ensures r.Ok? ==> r.value == DigitsValue(s)
    ensures r.Err? ==> r.error == ValueError(s)
  {
    if IsDecimal(s) then Ok(DigitsValue(s)) else Err(ValueError(s))
  }

  function DigitChar(d: nat): char
    requires d < 10
  {
    ('0' as int + d) as char
  }

  /** `str(n)` for a non-negative integer: its decimal digits without leading zeros. */
  function Show(n: nat): (s: string)
    ensures IsDecimal(s)
  {
    if n < 10 then [DigitChar(n)] else Show(n / 10) + [DigitChar(n % 10)]
  }

  /** `int(str(n)) == n`. */
  lemma {:induction false} ParseShow(n: nat)
    ensures ParseInt(Show(n)) == Ok(n)
  {
    if n >= 10 {
      ParseShow(n / 10);
      var s := Show(n);
      assert s[..|s| - 1] == Show(n / 10);
      assert DigitValue(s[|s| - 1]) == n % 10;
      assert DigitsValue(s) == 10 * (n / 10) + n % 10;
    }
  }

  /** Python's `s[n:]`: empty when `s` is shorter than `n`. */
  function Drop(s: string, n: nat): string {
    if |s| <= n then [] else s[n..]
  }

  /** `s.split(sep)` for a one-character separator. */
  function Split(s: string, sep: char): (parts: seq<string>)
    ensures |parts| >= 1
    ensures forall i :: 0 <= i < |parts| ==> sep !in parts[i]
  {
    if s == [] then [""]
    else
      var rest := Split(s[1..], sep);
      if s[0] == sep then [""] + rest else [[s[0]] + rest[0]] + rest[1..]
  }

  /** `sep.join(parts)`. */
  function Join(parts: seq<string>, sep: char): string {
    if parts == [] then ""
    else if |parts| == 1 then parts[0]
    else parts[0] + [sep] + Join(parts[1..], sep)
  }

  /** Splitting loses nothing: joining the pieces gives the string back. */
  lemma {:induction false} JoinSplit(s: string, sep: char)
    ensures Join(Split(s, sep), sep) == s
  {
    if s != [] {
      var rest := Split(s[1..], sep);
      JoinSplit(s[1..], sep);
      if s[0] == sep {
        assert ([""] + rest)[1..] == rest;
      } else {
        var parts := [[s[0]] + rest[0]] + rest[1..];
        assert parts[1..] == rest[1..];
        if |rest| == 1 {
          assert Join(rest, sep) == rest[0];
        } else {
          assert Join(rest, sep) == rest[0] + [sep] + Join(rest[1..], sep);
        }
      }
    }
  }

  lemma {:induction false} SplitWithout(s: string, sep: char)
    requires sep !in s
    ensures Split(s, sep) == [s]
  {
    if s != [] {
      assert sep !in s[1..];
      SplitWithout(s[1..], sep);
      assert [s[0]] + s[1..] == s;
    }
  }

  lemma {:induction false} SplitAt(a: string, b: string, sep: char)
    requires sep !in a
    ensures Split(a + [sep] + b, sep) == [a] + Split(b, sep)
  {
    if a == [] {
      assert a + [sep] + b == [sep] + b;
      assert ([sep] + b)[1..] == b;
    } else {
      var s := a + [sep] + b;
      assert s[1..] == a[1..] + [sep] + b;
      assert sep !in a[1..];
      SplitAt(a[1..], b, sep);
      assert [a[0]] + a[1..] == a;
    }
  }

  /** A separator in the string gives at least two pieces. */
  lemma {:induction false} SplitHasTwo(s: string, sep: char)
    requires sep in s
    ensures |Split(s, sep)| >= 2
  {
    if s[0] != sep {
      assert sep in s[1..] by {
        var i :| 0 <= i < |s| && s[i] == sep;
        assert i > 0 && s[1..][i - 1] == sep;
      }
      SplitHasTwo(s[1..], sep);
    }
  }

  function Last(parts: seq<string>): string
    requires parts != []
  {
    parts[|parts| - 1]
  }

  /** Text before the first separator does not change the last piece. */
  lemma {:induction false} SplitLastSkipsPrefix(a: string, b: string, sep: char)
    requires sep !in a && sep in b
    ensures Last(Split(a + b, sep)) == Last(Split(b, sep))
  {
    if a != [] {
      assert (a + b)[1..] == a[1..] + b;
      assert (a + b)[0] == a[0] && a[0] != sep;
      assert sep !in a[1..];
      assert sep in a[1..] + b by {
        var i :| 0 <= i < |b| && b[i] == sep;
        assert (a[1..] + b)[|a| - 1 + i] == sep;
      }
      SplitHasTwo(a[1..] + b, sep);
      SplitLastSkipsPrefix(a[1..], b, sep);
      var rest := Split(a[1..] + b, sep);
      var parts := [[a[0]] + rest[0]] + rest[1..];
      assert Split(a + b, sep) == parts;
      assert |rest| >= 2;
      assert parts[|parts| - 1] == rest[|rest| - 1];
    } else {
      assert a + b == b;
    }
  }

  /** `s.replace(c, "")` for a one-character `c`. */
  function RemoveAll(s: string, c: char): (r: string)
    ensures c !in r
  {
    if s == [] then [] else (if s[0] == c then [] else [s[0]]) + RemoveAll(s[1..], c)
  }

  lemma {:induction false} RemoveAllAbsent(s: string, c: char)
    requires c !in s
    ensures RemoveAll(s, c) == s
  {
    if s != [] {
      assert c !in s[1..];
      RemoveAllAbsent(s[1..], c);
      assert [s[0]] + s[1..] == s;
    }
  }

  lemma {:induction false} RemoveAllAppend(a: string, b: string, c: char)
    ensures RemoveAll(a + b, c) == RemoveAll(a, c) + RemoveAll(b, c)
  {
    if a != [] {
      assert (a + b)[1..] == a[1..] + b;
      RemoveAllAppend(a[1..], b, c);
    } else {
      assert a + b == b;
    }
  }

  /** "<hours> hours <minutes> minutes". */
  function Phrase(hours: nat, minutes: nat): string {
    Show(hours) + " hours " + Show(minutes) + " minutes"
  }

  /** The outcome once both numbers are read: the hours are read first, so their
      error is the one raised when both fail. */
  function Combine(hours: Result<nat, Exception>, minutes: Result<nat, Exception>): Result<string, Exception> {
    if hours.Err? then Err(hours.error)
    else if minutes.Err? then Err(minutes.error)
    else Ok(Phrase(hours.value, minutes.value))
  }

  /** The hours: the text between the first two characters and the first 'H', or 0
      when there is no 'H'. */
  function HoursField(d: string): Result<nat, Exception> {
    if 'H' in d then ParseInt(Split(Drop(d, 2), 'H')[0]) else Ok(0)
  }

  /** The minutes as written: the text after the last 'H' with every 'M' removed, or
      0 when there is no 'M'. Without an 'H' that text still starts with "PT". */
  function MinutesField(d: string): Result<nat, Exception> {
    if 'M' in d then ParseInt(RemoveAll(Last(Split(d, 'H')), 'M')) else Ok(0)
  }

  /** `format_duration` as written. */
  function FormatDuration(d: string): Result<string, Exception> {
    Combine(HoursField(d), MinutesField(d))
  }

  lemma DecimalHasNo(s: string, c: char)
    requires IsDecimal(s) && !IsDigit(c)
    ensures c !in s
  {
  }

  /** A digit string followed by one 'M' loses exactly that 'M'. */
  lemma StripM(m: string)
    requires IsDecimal(m)
    ensures RemoveAll(m + "M", 'M') == m
  {
    DecimalHasNo(m, 'M');
    RemoveAllAppend(m, "M", 'M');
    RemoveAllAbsent(m, 'M');
    assert RemoveAll("M", 'M') == [];
  }

  /** The hours of PT<h>H<rest>. */
  lemma HoursOf(h: string, rest: string)
    requires IsDecimal(h)
    ensures HoursField("PT" + h + "H" + rest) == Ok(DigitsValue(h))
  {
    var d := "PT" + h + "H" + rest;
    assert d[2 + |h|] == 'H';
    assert Drop(d, 2) == h + ['H'] + rest;
    DecimalHasNo(h, 'H');
    SplitAt(h, rest, 'H');
  }

  /** PT<h>H<m>M gives "<h> hours <m> minutes", each number read as a decimal. */
  lemma FormatHoursMinutes(h: string, m: string)
    requires IsDecimal(h) && IsDecimal(m)
    ensures FormatDuration("PT" + h + "H" + m + "M") == Ok(Phrase(DigitsValue(h), DigitsValue(m)))
  {
    var d := "PT" + h + "H" + m + "M";
    HoursOf(h, m + "M");
    assert d == "PT" + h + "H" + (m + "M");
    MinutesOf(h, m);
  }

  /** The minutes of PT<h>H<m>M. */
  lemma MinutesOf(h: string, m: string)
    requires IsDecimal(h) && IsDecimal(m)
    ensures MinutesField("PT" + h + "H" + m + "M") == Ok(DigitsValue(m))
  {
    var d := "PT" + h + "H" + m + "M";
    assert d[|d| - 1] == 'M';
    DecimalHasNo(h, 'H');
    assert 'H' !in "PT" + h;
    assert d == ("PT" + h) + ['H'] + (m + "M");
    SplitAt("PT" + h, m + "M", 'H');
    DecimalHasNo(m, 'H');
    assert 'H' !in m + "M";
    SplitWithout(m + "M", 'H');
    StripM(m);
  }

  /** The same on numbers: PT<h>H<m>M with h and m written by `str` formats back
      to exactly those numbers. */
  lemma FormatHoursMinutesShow(h: nat, m: nat)
    ensures FormatDuration("PT" + Show(h) + "H" + Show(m) + "M") == Ok(Phrase(h, m))
  {
    FormatHoursMinutes(Show(h), Show(m));
    ParseShow(h);
    ParseShow(m);
  }

  /** PT<h>H gives "<h> hours 0 minutes". */
  lemma FormatHoursOnly(h: string)
    requires IsDecimal(h)
    ensures FormatDuration("PT" + h + "H") == Ok(Phrase(DigitsValue(h), 0))
  {
    HoursOf(h, "");
    assert "PT" + h + "H" + "" == "PT" + h + "H";
    DecimalHasNo(h, 'M');
    assert 'M' !in "PT" + h + "H";
  }

  /** PT<m>M with no 'H' fails: the minutes text is "PT<m>", which `int` rejects. */
  lemma FormatMinutesOnlyFails(m: string)
    requires IsDecimal(m)
    ensures FormatDuration("PT" + m + "M") == Err(ValueError("PT" + m))
  {
    var d := "PT" + m + "M";
    DecimalHasNo(m, 'H');
    assert 'H' !in d;
    assert HoursField(d) == Ok(0);
    assert MinutesField(d) == Err(ValueError("PT" + m)) by {
      assert d[|d| - 1] == 'M';
      SplitWithout(d, 'H');
      DecimalHasNo(m, 'M');
      assert 'M' !in "PT" + m;
      assert d == ("PT" + m) + "M";
      RemoveAllAppend("PT" + m, "M", 'M');
      RemoveAllAbsent("PT" + m, 'M');
      assert RemoveAll("M", 'M') == [];
      assert Last(Split(d, 'H')) == d;
      assert RemoveAll(d, 'M') == "PT" + m;
      assert !IsDecimal("PT" + m) by {
        assert !IsDigit(("PT" + m)[0]);
      }
    }
  }

  /** The examples "PT2H30M", "PT3H" and "PT45M". */
  lemma ExampleHoursMinutes()
    ensures FormatDuration("PT2H30M") == Ok("2 hours 30 minutes")
  {
    ReadPT2H30M();
    PhraseTwoThirty();
  }

  lemma PhraseTwoThirty()
    ensures Phrase(2, 30) == "2 hours 30 minutes"
  {
    Thirty();
    assert Phrase(2, 30) == "2" + " hours " + "30" + " minutes";
    assert "2" + " hours " + "30" + " minutes" == "2 hours 30 minutes";
  }

  lemma ReadPT2H30M()
    ensures FormatDuration("PT2H30M") == Ok(Phrase(2, 30))
  {
    var h, m := "2", "30";
    FormatHoursMinutes(h, m);
    assert DigitsValue(h) == 2 by { assert h[..0] == ""; }
    Thirty();
    assert "PT" + h + "H" + m + "M" == "PT2H30M";
  }

  /** "30" is read as 30 and 30 is written as "30". */
  lemma Thirty()
    ensures DigitsValue("30") == 30 && Show(30) == "30"
  {
    assert "30"[..1] == "3";
    assert DigitsValue("3") == 3 by { assert "3"[..0] == ""; }
    assert 30 / 10 == 3 && 30 % 10 == 0;
    assert Show(3) == "3";
  }

  lemma ExampleHoursOnly()
    ensures FormatDuration("PT3H") == Ok("3 hours 0 minutes")
  {
    var h := "3";
    FormatHoursOnly(h);
    assert DigitsValue(h) == 3 by { assert h[..0] == ""; }
    assert Show(3) == h && Show(0) == "0";
    assert Phrase(3, 0) == "3" + " hours " + "0" + " minutes";
    assert "3" + " hours " + "0" + " minutes" == "3 hours 0 minutes";
    assert "PT" + h + "H" == "PT3H";
  }

  lemma ExampleMinutesOnly()
    ensures FormatDuration("PT45M") == Err(ValueError("PT45"))
  {
    var m := "45";
    FormatMinutesOnlyFails(m);
    assert "PT" + m + "M" == "PT45M";
    assert "PT" + m == "PT45";
  }

  /** The minutes taken after the same two-character cut as the hours:
      `int(duration_str[2:].split("H")[-1].replace("M", ""))`. */
  function FixedMinutesField(d: string): Result<nat, Exception> {
    if 'M' in d then ParseInt(RemoveAll(Last(Split(Drop(d, 2), 'H')), 'M')) else Ok(0)
  }

  /** `format_duration` with that fix. */
  function FormatDurationFixed(d: string): Result<string, Exception> {
    Combine(HoursField(d), FixedMinutesField(d))
  }

  /** With the fix, PT<m>M gives "0 hours <m> minutes". */
  lemma FixedMinutesOnly(m: string)
    requires IsDecimal(m)
    ensures FormatDurationFixed("PT" + m + "M") == Ok(Phrase(0, DigitsValue(m)))
  {
    var d := "PT" + m + "M";
    DecimalHasNo(m, 'H');
    assert 'H' !in d;
    assert HoursField(d) == Ok(0);
    assert FixedMinutesField(d) == Ok(DigitsValue(m)) by {
      assert d[|d| - 1] == 'M';
      assert Drop(d, 2) == m + "M";
      assert 'H' !in m + "M";
      SplitWithout(m + "M", 'H');
      StripM(m);
    }
  }

  /** Without an 'H', a PT-prefixed duration that has an 'M' cannot be read. */
  lemma NoHoursThenNoMinutes(r: string)
    requires 'H' !in "PT" + r
    ensures 'M' in "PT" + r ==> MinutesField("PT" + r).Err?
  {
    var d := "PT" + r;
    if 'M' in d {
      SplitWithout(d, 'H');
      RemoveAllAppend("PT", r, 'M');
      assert RemoveAll("PT", 'M') == "PT";
      assert RemoveAll(d, 'M')[0] == 'P';
    }
  }

  /** The fix changes nothing the original already got right: on every PT-prefixed
      duration that `format_duration` formats, the fixed version gives the same text. */
  lemma FixedAgrees(r: string)
    requires FormatDuration("PT" + r).Ok?
    ensures FormatDurationFixed("PT" + r) == FormatDuration("PT" + r)
  {
    var d := "PT" + r;
    assert Drop(d, 2) == r;
    if 'H' in d {
      assert 'H' in r by {
        var i :| 0 <= i < |d| && d[i] == 'H';
        assert i >= 2 && r[i - 2] == 'H';
      }
      assert 'H' !in "PT";
      SplitLastSkipsPrefix("PT", r, 'H');
    } else {
      NoHoursThenNoMinutes(r);
    }
  }
}
