/**
 * The text form of a time of day: PHP's explode(':', ...), the padding of the
 * pieces to hour, minute and second, the conversion of a numeric string to an
 * integer, and the 'H:i:s' format of date().
 */
module TimeText {

  const Colon: char := ':'

  /** explode(':', s): the pieces of `s` between colons; an empty string gives one empty piece. */
  function Explode(s: string): (parts: seq<string>)
    ensures |parts| >= 1
    ensures forall i :: 0 <= i < |parts| ==> Colon !in parts[i]
  {
    if |s| == 0 then [""]
    else if s[0] == Colon then [""] + Explode(s[1..])
    else
      var rest := Explode(s[1..]);
      [[s[0]] + rest[0]] + rest[1..]
  }

  /** implode(':', parts): the pieces joined with colons. */
  function Implode(parts: seq<string>): string
    requires |parts| >= 1
  {
    if |parts| == 1 then parts[0] else parts[0] + [Colon] + Implode(parts[1..])
  }

  /** Joining the pieces gives back the string that was split. */
  lemma {:induction false} ImplodeExplode(s: string)
    ensures Implode(Explode(s)) == s
  {
    if |s| > 0 {
      ImplodeExplode(s[1..]);
      var rest := Explode(s[1..]);
      if s[0] != Colon {
        assert Explode(s) == [[s[0]] + rest[0]] + rest[1..];
        if |rest| == 1 {
          assert s == [s[0]] + s[1..];
        } else {
          assert Explode(s)[1..] == rest[1..];
          assert s == [s[0]] + s[1..];
        }
      } else {
        assert Explode(s) == [""] + rest;
        assert (Explode(s))[1..] == rest;
        assert s == [Colon] + s[1..];
      }
    }
  }

  lemma {:induction false} ExplodePiece(a: string, tail: seq<string>)
    requires Colon !in a && |tail| >= 1
    ensures tail == [""] ==> Explode(a) == [a]
    ensures Explode(a + [Colon] + Implode(tail)) == [a] + Explode(Implode(tail))
  {
    if |a| == 0 {
      assert a + [Colon] + Implode(tail) == [Colon] + Implode(tail);
      assert ([Colon] + Implode(tail))[1..] == Implode(tail);
    } else {
      ExplodePiece(a[1..], tail);
      var s := a + [Colon] + Implode(tail);
      assert s[0] == a[0];
      assert s[1..] == a[1..] + [Colon] + Implode(tail);
      if tail == [""] {
        assert a[0] != Colon;
        assert a == [a[0]] + a[1..];
      }
      assert [a[0]] + a[1..] == a;
    }
  }

  /** Splitting joined pieces that hold no colon gives the pieces back. */
  lemma {:induction false} ExplodeImplode(parts: seq<string>)
    requires |parts| >= 1
    requires forall i :: 0 <= i < |parts| ==> Colon !in parts[i]
    ensures Explode(Implode(parts)) == parts
  {
    if |parts| == 1 {
      ExplodePiece(parts[0], [""]);
    } else {
      ExplodeImplode(parts[1..]);
      ExplodePiece(parts[0], parts[1..]);
      assert parts == [parts[0]] + parts[1..];
    }
  }

  /** The loop that appends '00' to the pieces of the default time until there are three of them. */
  method PadTimeParts(parts: seq<string>) returns (padded: seq<string>)
    ensures |padded| == if |parts| < 3 then 3 else |parts|
    ensures padded[..|parts|] == parts
    ensures forall i :: |parts| <= i < |padded| ==> padded[i] == "00"
  {
    padded := parts;
    while |padded| < 3
      invariant |parts| <= |padded| <= if |parts| < 3 then 3 else |parts|
      invariant padded[..|parts|] == parts
      invariant forall i :: |parts| <= i < |padded| ==> padded[i] == "00"
      decreases 3 - |padded|
    {
      padded := padded + ["00"];
    }
  }

  predicate IsDigit(c: char) {
    '0' <= c <= '9'
  }

  /** The characters PHP skips before the digits of a numeric string. */
  predicate IsBlank(c: char) {
    c == ' ' || c == '\t' || c == '\n' || c == '\r' || c as int == 11 || c as int == 12
  }

  /**
   * The integer PHP reads from a string passed where an integer is expected:
   * leading blanks are skipped, an optional sign is applied to the value of the
   * digits that follow, and a string with no such digits reads as 0.
   */
  function IntOfString(s: string): int {
    var t := SkipBlanks(s);
    if |t| > 0 && t[0] == '-' then -(LeadingValue(t[1..], 0) as int)
    else if |t| > 0 && t[0] == '+' then LeadingValue(t[1..], 0)
    else LeadingValue(t, 0)
  }

  /** `s` without its leading blanks. */
  function SkipBlanks(s: string): (t: string)
    ensures |t| == 0 || !IsBlank(t[0])
  {
    if |s| > 0 && IsBlank(s[0]) then SkipBlanks(s[1..]) else s
  }

  function LeadingValue(s: string, acc: nat): nat {
    if |s| == 0 || !IsDigit(s[0]) then acc
    else LeadingValue(s[1..], acc * 10 + (s[0] as int - '0' as int))
  }

  /** Field `i` of the time that setTime receives from the pieces: a missing piece reads as '00'. */
  function TimeField(parts: seq<string>, i: nat): int {
    if i < |parts| then IntOfString(parts[i]) else 0
  }

  /** A number below 100 written with two digits, as date('H'), date('i') and date('s') write it. */
  function TwoDigits(n: int): (s: string)
    requires 0 <= n < 100
    ensures |s| == 2 && IsDigit(s[0]) && IsDigit(s[1])
  {
    [('0' as int + n / 10) as char, ('0' as int + n % 10) as char]
  }

  /** date('H:i:s') for the clock time h:mi:s. */
  function ClockText(h: int, mi: int, s: int): string
    requires 0 <= h < 24 && 0 <= mi < 60 && 0 <= s < 60
  {
    TwoDigits(h) + [Colon] + TwoDigits(mi) + [Colon] + TwoDigits(s)
  }

  lemma TwoDigitsValue(n: int)
    requires 0 <= n < 100
    ensures Colon !in TwoDigits(n)
    ensures IntOfString(TwoDigits(n)) == n
  {
    var s := TwoDigits(n);
    var d0, d1 := s[0] as int - '0' as int, s[1] as int - '0' as int;
    assert d0 == n / 10 && d1 == n % 10;
    assert s[1..][0] == s[1] && s[1..][1..] == [];
    assert SkipBlanks(s) == s;
    calc {
      IntOfString(s);
      LeadingValue(s, 0);
      LeadingValue(s[1..], d0);
      LeadingValue(s[1..][1..], d0 * 10 + d1);
      n;
    }
  }

  /** A clock text splits into its three fields, and is '00:00:00' only at midnight. */
  lemma ClockTextSplits(h: int, mi: int, s: int)
    requires 0 <= h < 24 && 0 <= mi < 60 && 0 <= s < 60
    ensures Explode(ClockText(h, mi, s)) == [TwoDigits(h), TwoDigits(mi), TwoDigits(s)]
    ensures ClockText(h, mi, s) == "00:00:00" <==> h == 0 && mi == 0 && s == 0
    ensures ClockText(h, mi, s) != ""
  {
    var parts := [TwoDigits(h), TwoDigits(mi), TwoDigits(s)];
    assert Implode(parts[2..]) == TwoDigits(s);
    assert Implode(parts[1..]) == TwoDigits(mi) + [Colon] + TwoDigits(s);
    assert Implode(parts) == ClockText(h, mi, s);
    assert Colon !in TwoDigits(h) && Colon !in TwoDigits(mi) && Colon !in TwoDigits(s);
    ExplodeImplode(parts);
    var c := ClockText(h, mi, s);
    if c == "00:00:00" {
      assert c[0] == '0' && c[1] == '0' && c[3] == '0' && c[4] == '0' && c[6] == '0' && c[7] == '0';
    }
  }

  /** A clock text splits into its three fields, reads back as the clock time, and is '00:00:00' only at midnight. */
  lemma ClockTextFields(h: int, mi: int, s: int)
    requires 0 <= h < 24 && 0 <= mi < 60 && 0 <= s < 60
    ensures Explode(ClockText(h, mi, s)) == [TwoDigits(h), TwoDigits(mi), TwoDigits(s)]
    ensures TimeField(Explode(ClockText(h, mi, s)), 0) == h
    ensures TimeField(Explode(ClockText(h, mi, s)), 1) == mi
    ensures TimeField(Explode(ClockText(h, mi, s)), 2) == s
    ensures ClockText(h, mi, s) == "00:00:00" <==> h == 0 && mi == 0 && s == 0
    ensures ClockText(h, mi, s) != ""
  {
    ClockTextSplits(h, mi, s);
    TwoDigitsValue(h);
    TwoDigitsValue(mi);
    TwoDigitsValue(s);
  }

  /** The default times the date-range class passes, and the padding of short ones. */
  lemma DefaultTimeExamples()
    ensures Explode("23:59:59") == ["23", "59", "59"]
    ensures TimeField(Explode("23:59:59"), 0) == 23
    ensures TimeField(Explode("23:59:59"), 1) == 59
    ensures TimeField(Explode("23:59:59"), 2) == 59
    ensures Explode("21") == ["21"]
    ensures TimeField(Explode("21"), 0) == 21 && TimeField(Explode("21"), 1) == 0
    ensures Explode("21:30") == ["21", "30"]
    ensures TimeField(Explode("21:30"), 1) == 30 && TimeField(Explode("21:30"), 2) == 0
  {
    assert "23:59:59" == ClockText(23, 59, 59);
    ClockTextFields(23, 59, 59);
    assert TwoDigits(21) == "21" && TwoDigits(30) == "30";
    TwoDigitsValue(21);
    TwoDigitsValue(30);
    ExplodePiece("21", [""]);
    assert Implode(["30"]) == "30";
    ExplodeImplode(["21", "30"]);
    assert "21:30" == Implode(["21", "30"]);
  }

  /** A blank in front of a numeric piece changes nothing: ' 5' reads as 5. */
  lemma LeadingBlankIgnored(c: char, s: string)
    requires IsBlank(c)
    ensures IntOfString([c] + s) == IntOfString(s)
  {
    assert ([c] + s)[1..] == s;
  }

  /** A sign in front of digits applies to their value: '-1' reads as -1 and '+1' as 1. */
  lemma SignApplies(s: string)
    requires |s| > 0 && IsDigit(s[0])
    ensures IntOfString("-" + s) == -IntOfString(s)
    ensures IntOfString("+" + s) == IntOfString(s)
  {
    assert SkipBlanks(s) == s;
    assert SkipBlanks("-" + s) == "-" + s && ("-" + s)[1..] == s;
    assert SkipBlanks("+" + s) == "+" + s && ("+" + s)[1..] == s;
  }

  /** A piece that starts with neither a blank, a sign nor a digit reads as 0. */
  lemma NonNumericReadsZero(s: string)
    requires |s| == 0 || !(IsBlank(s[0]) || s[0] == '-' || s[0] == '+' || IsDigit(s[0]))
    ensures IntOfString(s) == 0
  {
    assert SkipBlanks(s) == s;
  }

  /** Signed and blank-led pieces of a default time, read as setTime receives them. */
  lemma NumericPieceExamples()
    ensures IntOfString("-1") == -1
    ensures IntOfString(" 5") == 5
    ensures IntOfString("+30") == 30
    ensures IntOfString("07") == 7
    ensures IntOfString("x1") == 0
  {
    TwoDigitsValue(7);
    TwoDigitsValue(30);
    assert TwoDigits(7) == "07" && TwoDigits(30) == "30";
    assert LeadingValue("1", 0) == 1 by {
      assert "1"[1..] == [];
    }
    assert LeadingValue("5", 0) == 5 by {
      assert "5"[1..] == [];
    }
    assert SkipBlanks("5") == "5";
    SignApplies("1");
    assert SkipBlanks("1") == "1";
    SignApplies("30");
    LeadingBlankIgnored(' ', "5");
    assert " 5" == [' '] + "5";
    NonNumericReadsZero("x1");
  }

  /** The default time '-1:00:00' splits into the hour -1 and two zero fields. */
  lemma NegativeHourFields()
    ensures Explode("-1:00:00") == ["-1", "00", "00"]
    ensures TimeField(Explode("-1:00:00"), 0) == -1
    ensures TimeField(Explode("-1:00:00"), 1) == 0
    ensures TimeField(Explode("-1:00:00"), 2) == 0
  {
    var parts := ["-1", "00", "00"];
    assert TwoDigits(0) == "00";
    TwoDigitsValue(0);
    NumericPieceExamples();
    assert Implode(parts[2..]) == "00";
    assert Implode(parts[1..]) == "00:00";
    assert Implode(parts) == "-1:00:00";
    assert Colon !in "-1" && Colon !in "00";
    ExplodeImplode(parts);
  }
}
