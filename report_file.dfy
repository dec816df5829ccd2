/**
 * The file name `save_report` writes a report to:
 * `f"reports/{clean_email}_{timestamp}.txt"`, where `clean_email` replaces every
 * `@` by `_at_` and then every `.` by `_dot_`, and `timestamp` is
 * `strftime("%Y%m%d_%H%M%S")` of the moment of saving, given here as a Moment.
 */
module ReportFile {
  import opened Strings

  // ----- The sanitised target -----

  /** `email.replace('@', '_at_').replace('.', '_dot_')`: no `@` and no `.` remain. */
  function CleanEmail(email: string): (clean: string)
    ensures '@' !in clean && '.' !in clean
  {
    var once := Replace(email, '@', "_at_");
    ReplaceRemoves(email, '@', "_at_");
    ReplaceKeepsAbsent(once, '.', "_dot_", '@');
    ReplaceRemoves(once, '.', "_dot_");
    Replace(once, '.', "_dot_")
  }

  function EncodeChar(c: char): string {
    if c == '@' then "_at_" else if c == '.' then "_dot_" else [c]
  }

  /** The two replacements done in one pass, character by character. */
  function Encode(s: string): string {
    if |s| == 0 then "" else EncodeChar(s[0]) + Encode(s[1..])
  }

  lemma {:induction false} EncodeAppend(a: string, b: string)
    ensures Encode(a + b) == Encode(a) + Encode(b)
  {
    if |a| == 0 {
      assert a + b == b;
    } else {
      assert (a + b)[0] == a[0];
      assert (a + b)[1..] == a[1..] + b;
      EncodeAppend(a[1..], b);
    }
  }

  lemma {:induction false} EncodeKeeps(s: string)
    requires '@' !in s && '.' !in s
    ensures Encode(s) == s
  {
    if |s| > 0 {
      EncodeKeeps(s[1..]);
      assert s == [s[0]] + s[1..];
    }
  }

  /** Replacing `@` and then `.` is the one-pass encoding. */
  lemma {:induction false} CleanEmailIsEncode(email: string)
    ensures CleanEmail(email) == Encode(email)
  {
    if |email| > 0 {
      var head := if email[0] == '@' then "_at_" else [email[0]];
      var tail := Replace(email[1..], '@', "_at_");
      assert Replace(email, '@', "_at_") == head + tail;
      ReplaceAppend(head, tail, '.', "_dot_");
      if email[0] == '@' {
        ReplaceAbsent("_at_", '.', "_dot_");
      } else {
        assert Replace([email[0]], '.', "_dot_") == EncodeChar(email[0]);
      }
      CleanEmailIsEncode(email[1..]);
    }
  }

  /** Reads `_at_` back as `@` and `_dot_` as `.`. */
  function Restore(s: string): string
    decreases |s|
  {
    if |s| == 0 then ""
    else if |s| >= 4 && s[..4] == "_at_" then "@" + Restore(s[4..])
    else if |s| >= 5 && s[..5] == "_dot_" then "." + Restore(s[5..])
    else [s[0]] + Restore(s[1..])
  }

  lemma {:induction false} RestoreEncode(e: string)
    requires '_' !in e
    ensures Restore(Encode(e)) == e
  {
    if |e| > 0 {
      var rest := Encode(e[1..]);
      var s := Encode(e);
      assert s == EncodeChar(e[0]) + rest;
      RestoreEncode(e[1..]);
      if e[0] == '@' {
        assert s[..4] == "_at_" && s[4..] == rest;
      } else if e[0] == '.' {
        assert s[..4] != "_at_" by { assert s[2] == 'o'; }
        assert s[..5] == "_dot_" && s[5..] == rest;
      } else {
        assert s[0] == e[0] && s[1..] == rest;
      }
      assert e == [e[0]] + e[1..];
    }
  }

  /** The target can be read back from the file name when the address has no `_`. */
  lemma CleanEmailRoundTrip(email: string)
    requires '_' !in email
    ensures Restore(CleanEmail(email)) == email
  {
    CleanEmailIsEncode(email);
    RestoreEncode(email);
  }

  /**
   * With `_` allowed the encoding is not injective: `x.y` and `x_dot_y` (for instance
   * `a.b@c.de` and `a_dot_b@c.de`) are different addresses with the same clean form.
   */
  lemma CleanEmailCollision(x: string, y: string)
    ensures x + "." + y != x + "_dot_" + y
    ensures CleanEmail(x + "." + y) == CleanEmail(x + "_dot_" + y)
  {
    assert |x + "." + y| != |x + "_dot_" + y|;
    CleanEmailIsEncode(x + "." + y);
    CleanEmailIsEncode(x + "_dot_" + y);
    EncodeAppend(x + ".", y);
    EncodeAppend(x, ".");
    EncodeAppend(x + "_dot_", y);
    EncodeAppend(x, "_dot_");
    EncodeKeeps("_dot_");
    assert Encode(".") == "_dot_";
  }

  // ----- The timestamp -----

  /** The moment of saving, as the fields `strftime` reads. */
  datatype Moment = Moment(year: nat, month: nat, day: nat, hour: nat, minute: nat, second: nat)

  /** The ranges of `datetime`'s fields (four-digit years only, see README). */
  predicate ValidMoment(m: Moment) {
    1000 <= m.year <= 9999 && 1 <= m.month <= 12 && 1 <= m.day <= 31
    && m.hour < 24 && m.minute < 60 && m.second < 60
  }

  function Pow10(n: nat): nat {
    if n == 0 then 1 else 10 * Pow10(n - 1)
  }

  /** The last `width` decimal digits of n, zero-padded: `%02d`, `%04d`. */
  function Pad(n: nat, width: nat): (r: string)
    ensures |r| == width
    ensures forall i :: 0 <= i < width ==> IsDigit(r[i])
  {
    if width == 0 then "" else Pad(n / 10, width - 1) + [DigitChar(n % 10)]
  }

  /** A number below 10^width is read back from its padded digits. */
  lemma {:induction false} PadValue(n: nat, width: nat)
    requires n < Pow10(width)
    ensures DigitsValue(Pad(n, width)) == n
  {
    if width > 0 {
      var s := Pad(n, width);
      assert s[..|s| - 1] == Pad(n / 10, width - 1);
      PadValue(n / 10, width - 1);
    }
  }

  lemma PadInjective(m: nat, n: nat, width: nat)
    requires m < Pow10(width) && n < Pow10(width)
    requires Pad(m, width) == Pad(n, width)
    ensures m == n
  {
    PadValue(m, width);
    PadValue(n, width);
  }

  /** `strftime("%Y%m%d_%H%M%S")`: fifteen characters, digits around one `_`. */
  function Timestamp(m: Moment): (stamp: string)
    ensures |stamp| == 15 && stamp[8] == '_'
    ensures forall i :: 0 <= i < 15 && i != 8 ==> IsDigit(stamp[i])
  {
    Pad(m.year, 4) + Pad(m.month, 2) + Pad(m.day, 2) + "_"
    + Pad(m.hour, 2) + Pad(m.minute, 2) + Pad(m.second, 2)
  }

  /** Distinct moments give distinct timestamps. */
  lemma TimestampInjective(m1: Moment, m2: Moment)
    requires ValidMoment(m1) && ValidMoment(m2)
    requires Timestamp(m1) == Timestamp(m2)
    ensures m1 == m2
  {
    var t1, t2 := Timestamp(m1), Timestamp(m2);
    assert Pow10(2) == 100 && Pow10(4) == 10000;
    assert t1[0..4] == Pad(m1.year, 4) && t2[0..4] == Pad(m2.year, 4);
    assert t1[4..6] == Pad(m1.month, 2) && t2[4..6] == Pad(m2.month, 2);
    assert t1[6..8] == Pad(m1.day, 2) && t2[6..8] == Pad(m2.day, 2);
    assert t1[9..11] == Pad(m1.hour, 2) && t2[9..11] == Pad(m2.hour, 2);
    assert t1[11..13] == Pad(m1.minute, 2) && t2[11..13] == Pad(m2.minute, 2);
    assert t1[13..15] == Pad(m1.second, 2) && t2[13..15] == Pad(m2.second, 2);
    PadInjective(m1.year, m2.year, 4);
    PadInjective(m1.month, m2.month, 2);
    PadInjective(m1.day, m2.day, 2);
    PadInjective(m1.hour, m2.hour, 2);
    PadInjective(m1.minute, m2.minute, 2);
    PadInjective(m1.second, m2.second, 2);
  }

  // ----- The path -----

  function ReportPath(email: string, m: Moment): string {
    "reports/" + CleanEmail(email) + "_" + Timestamp(m) + ".txt"
  }

  /** The path is `reports/`, the cleaned name, `_`, the stamp and `.txt`, and carries no `@`. */
  lemma ReportPathShape(email: string, m: Moment)
    ensures var path := ReportPath(email, m);
            |path| == 28 + |CleanEmail(email)| &&
            path[..8] == "reports/" && path[|path| - 4..] == ".txt" &&
            path[8..|path| - 20] == CleanEmail(email) && path[|path| - 20] == '_' &&
            path[|path| - 19..|path| - 4] == Timestamp(m) &&
            '@' !in path
  {
    var path := ReportPath(email, m);
    var clean, stamp := CleanEmail(email), Timestamp(m);
    assert '@' !in stamp by {
      forall i | 0 <= i < 15 ensures stamp[i] != '@' {
        if i != 8 { assert IsDigit(stamp[i]); }
      }
    }
    assert '@' !in "reports/" && '@' !in "_" && '@' !in ".txt";
    assert forall i :: 0 <= i < |path| ==> path[i] != '@';
  }

  /** A path names its moment and its sanitised target. */
  lemma ReportPathDecodes(e1: string, m1: Moment, e2: string, m2: Moment)
    requires ValidMoment(m1) && ValidMoment(m2)
    requires ReportPath(e1, m1) == ReportPath(e2, m2)
    ensures m1 == m2 && CleanEmail(e1) == CleanEmail(e2)
  {
    ReportPathShape(e1, m1);
    ReportPathShape(e2, m2);
    TimestampInjective(m1, m2);
  }

  /** Two reports for the same target saved in different seconds never share a file. */
  lemma NoOverwriteAcrossSeconds(email: string, m1: Moment, m2: Moment)
    requires ValidMoment(m1) && ValidMoment(m2) && m1 != m2
    ensures ReportPath(email, m1) != ReportPath(email, m2)
  {
    if ReportPath(email, m1) == ReportPath(email, m2) {
      ReportPathDecodes(email, m1, email, m2);
    }
  }

  /** The collision carries over to the path: the second report overwrites the first. */
  lemma ReportPathCollision(x: string, y: string, m: Moment)
    ensures ReportPath(x + "." + y, m) == ReportPath(x + "_dot_" + y, m)
  {
    CleanEmailCollision(x, y);
  }
}
