/** The Python string operations the modelled code relies on: `strip`,
    `split('\n')`, `replace(c, "")`, `lower`, `startswith`/`endswith`,
    `str(int)` and `int(str)` for base 10. Strings are `seq<char>` over
    Unicode scalar values. */
module Text {
  import opened Wrappers

  /** The characters for which Python's `str.isspace` holds: the ASCII
      whitespace and separator controls plus the Unicode White_Space set. */
  predicate IsSpace(c: char) {
    || c == ' ' || c == '\t' || c == '\n' || c == '\r' || c == '\U{B}' || c == '\U{C}'
    || ('\U{1C}' <= c <= '\U{1F}') || c == '\U{85}' || c == '\U{A0}' || c == '\U{1680}'
    || ('\U{2000}' <= c <= '\U{200A}') || c == '\U{2028}' || c == '\U{2029}'
    || c == '\U{202F}' || c == '\U{205F}' || c == '\U{3000}'
  }

  predicate AllSpace(s: string) {
    forall i :: 0 <= i < |s| ==> IsSpace(s[i])
  }

  predicate StartsWith(s: string, prefix: string) {
    |prefix| <= |s| && s[..|prefix|] == prefix
  }

  predicate EndsWith(s: string, suffix: string) {
    |suffix| <= |s| && s[|s| - |suffix|..] == suffix
  }

  // ---------------------------------------------------------------------
  // strip
  // ---------------------------------------------------------------------

  /** `s.lstrip()`: drops the leading whitespace and nothing else. */
  function LStrip(s: string): (r: string)
    ensures |r| <= |s| && r == s[|s| - |r|..]
    ensures r == [] || !IsSpace(r[0])
    ensures AllSpace(s[..|s| - |r|])
  {
    if |s| > 0 && IsSpace(s[0]) then LStrip(s[1..]) else s
  }

  /** `s.rstrip()`: drops the trailing whitespace and nothing else. */
  function RStrip(s: string): (r: string)
    ensures |r| <= |s| && r == s[..|r|]
    ensures r == [] || !IsSpace(r[|r| - 1])
    ensures AllSpace(s[|r|..])
  {
    if |s| > 0 && IsSpace(s[|s| - 1]) then
      var r := RStrip(s[..|s| - 1]);
      assert s[|r|..] == s[..|s| - 1][|r|..] + [s[|s| - 1]];
      r
    else s
  }

  /** `s.strip()`: the middle of `s` between a whitespace-only prefix and a
      whitespace-only suffix, starting and ending with a non-space. */
  function Strip(s: string): (r: string)
    ensures r == [] || (!IsSpace(r[0]) && !IsSpace(r[|r| - 1]))
    ensures exists i, j :: 0 <= i <= j <= |s| && r == s[i..j] && AllSpace(s[..i]) && AllSpace(s[j..])
  {
    var l := LStrip(s);
    var r := RStrip(l);
    var i := |s| - |l|;
    assert r == s[i..i + |r|];
    assert s[i + |r|..] == l[|r|..];
    r
  }

  /** The whitespace `strip` removes in front and behind. */
  lemma StripSplit(s: string) returns (before: string, after: string)
    ensures s == before + (Strip(s) + after)
    ensures AllSpace(before) && AllSpace(after)
  {
    var i, j :| 0 <= i <= j <= |s| && Strip(s) == s[i..j] && AllSpace(s[..i]) && AllSpace(s[j..]);
    before, after := s[..i], s[j..];
    assert s == s[..i] + (s[i..j] + s[j..]);
  }

  lemma {:induction false} LStripAllSpace(s: string)
    requires AllSpace(s)
    ensures LStrip(s) == []
    decreases |s|
  {
    if |s| > 0 {
      LStripAllSpace(s[1..]);
    }
  }

  lemma RStripEmpty()
    ensures RStrip([]) == []
  {
  }

  /** A string strips to nothing exactly when it is all whitespace. */
  lemma StripEmptyIffAllSpace(s: string)
    ensures Strip(s) == [] <==> AllSpace(s)
  {
    if AllSpace(s) {
      LStripAllSpace(s);
    }
    if Strip(s) == [] {
      var l := LStrip(s);
      var n := |s| - |l|;
      assert l[0..] == l;
      forall i | 0 <= i < |s| ensures IsSpace(s[i]) {
        if i < n {
          assert s[..n][i] == s[i];
        } else {
          assert l[i - n] == s[i];
        }
      }
    }
  }

  /** Whitespace in front of a string does not change what it strips to. */
  lemma StripSpaceCons(c: char, s: string)
    requires IsSpace(c)
    ensures Strip([c] + s) == Strip(s)
  {
    assert ([c] + s)[1..] == s;
  }

  lemma {:induction false} LStripSnoc(s: string, c: char)
    ensures LStrip(s + [c]) == if AllSpace(s) && IsSpace(c) then [] else LStrip(s) + [c]
    decreases |s|
  {
    if |s| == 0 {
      assert [] + [c] == [c];
      assert [c][1..] == [];
    } else if IsSpace(s[0]) {
      assert (s + [c])[1..] == s[1..] + [c];
      LStripSnoc(s[1..], c);
      assert AllSpace(s) <==> AllSpace(s[1..]) by {
        if AllSpace(s[1..]) {
          forall i | 0 <= i < |s| ensures IsSpace(s[i]) {
            if i > 0 {
              assert s[i] == s[1..][i - 1];
            }
          }
        }
      }
    } else {
      assert !AllSpace(s);
    }
  }

  /** Whitespace after a string does not change what it strips to. */
  lemma StripSpaceSnoc(s: string, c: char)
    requires IsSpace(c)
    ensures Strip(s + [c]) == Strip(s)
  {
    LStripSnoc(s, c);
    if AllSpace(s) {
      LStripAllSpace(s);
    } else {
      var l := LStrip(s);
      assert (l + [c])[..|l + [c]| - 1] == l;
    }
  }

  /** A string that neither starts nor ends with whitespace strips to itself. */
  lemma StripUnchanged(s: string)
    requires s == [] || (!IsSpace(s[0]) && !IsSpace(s[|s| - 1]))
    ensures Strip(s) == s
  {
  }

  // ---------------------------------------------------------------------
  // split / join on one separator character
  // ---------------------------------------------------------------------

  /** `s.split(sep)` for a one-character separator: never empty, and no
      field holds the separator. */
  function Split(s: string, sep: char): (parts: seq<string>)
    ensures |parts| >= 1
    ensures forall i :: 0 <= i < |parts| ==> sep !in parts[i]
    decreases |s|
  {
    if |s| == 0 then [""]
    else
      var rest := Split(s[1..], sep);
      if s[0] == sep then [""] + rest else [[s[0]] + rest[0]] + rest[1..]
  }

  /** `sep.join(parts)`. */
  function Join(parts: seq<string>, sep: char): string
  {
    if |parts| == 0 then ""
    else if |parts| == 1 then parts[0]
    else parts[0] + [sep] + Join(parts[1..], sep)
  }

  lemma JoinConsHead(c: char, p: string, tail: seq<string>, sep: char)
    ensures Join([[c] + p] + tail, sep) == [c] + Join([p] + tail, sep)
  {
    if |tail| > 0 {
      assert ([[c] + p] + tail)[1..] == tail;
      assert ([p] + tail)[1..] == tail;
    }
  }

  /** Joining the fields of a split gives back the original string. */
  lemma {:induction false} JoinSplit(s: string, sep: char)
    ensures Join(Split(s, sep), sep) == s
    decreases |s|
  {
    if |s| > 0 {
      var rest := Split(s[1..], sep);
      JoinSplit(s[1..], sep);
      if s[0] == sep {
        assert ([""] + rest)[1..] == rest;
        assert s == [sep] + s[1..];
      } else {
        assert rest == [rest[0]] + rest[1..];
        JoinConsHead(s[0], rest[0], rest[1..], sep);
        assert s == [s[0]] + s[1..];
      }
    }
  }

  lemma {:induction false} SplitNoSeparator(p: string, sep: char)
    requires sep !in p
    ensures Split(p, sep) == [p]
    decreases |p|
  {
    if |p| > 0 {
      SplitNoSeparator(p[1..], sep);
      assert p == [p[0]] + p[1..];
    }
  }

  lemma {:induction false} SplitField(p: string, sep: char, t: string)
    requires sep !in p
    ensures Split(p + [sep] + t, sep) == [p] + Split(t, sep)
    decreases |p|
  {
    if |p| == 0 {
      assert p + [sep] + t == [sep] + t;
      assert ([sep] + t)[1..] == t;
    } else {
      var s := p + [sep] + t;
      assert s[1..] == p[1..] + [sep] + t;
      SplitField(p[1..], sep, t);
      assert p == [p[0]] + p[1..];
    }
  }

  /** A separator between two strings separates their fields. */
  lemma {:induction false} SplitAround(a: string, sep: char, b: string)
    ensures Split(a + [sep] + b, sep) == Split(a, sep) + Split(b, sep)
    decreases |a|
  {
    if |a| == 0 {
      assert a + [sep] + b == [sep] + b;
      assert ([sep] + b)[1..] == b;
    } else {
      var s := a + [sep] + b;
      assert s[1..] == a[1..] + [sep] + b;
      SplitAround(a[1..], sep, b);
    }
  }

  /** Splitting a join of separator-free fields gives back the fields. */
  lemma {:induction false} SplitJoin(parts: seq<string>, sep: char)
    requires |parts| >= 1
    requires forall i :: 0 <= i < |parts| ==> sep !in parts[i]
    ensures Split(Join(parts, sep), sep) == parts
    decreases |parts|
  {
    if |parts| == 1 {
      SplitNoSeparator(parts[0], sep);
    } else {
      SplitJoin(parts[1..], sep);
      SplitField(parts[0], sep, Join(parts[1..], sep));
      assert parts == [parts[0]] + parts[1..];
    }
  }

  /** Appending the separator opens a new, empty last field. */
  lemma {:induction false} SplitSnocSeparator(s: string, sep: char)
    ensures Split(s + [sep], sep) == Split(s, sep) + [""]
    decreases |s|
  {
    if |s| == 0 {
      assert s + [sep] == [sep];
      assert [sep][1..] == [];
    } else {
      assert (s + [sep])[1..] == s[1..] + [sep];
      SplitSnocSeparator(s[1..], sep);
      var rest := Split(s[1..], sep);
      if s[0] == sep {
        assert [""] + (rest + [""]) == ([""] + rest) + [""];
      } else {
        var rest' := Split(s[1..] + [sep], sep);
        assert rest'[0] == rest[0];
        assert rest'[1..] == rest[1..] + [""];
      }
    }
  }

  /** The fields with `c` added to the last one. */
  function AppendLast(p: seq<string>, c: char): (r: seq<string>)
    requires |p| >= 1
    ensures |r| == |p|
  {
    p[..|p| - 1] + [p[|p| - 1] + [c]]
  }

  lemma AppendLastCons(x: string, p: seq<string>, c: char)
    requires |p| >= 1
    ensures AppendLast([x] + p, c) == [x] + AppendLast(p, c)
  {
    assert ([x] + p)[..|p|] == [x] + p[..|p| - 1];
  }

  lemma AppendLastHead(h: char, p: seq<string>, c: char)
    requires |p| >= 1
    ensures var q := AppendLast(p, c);
      AppendLast([[h] + p[0]] + p[1..], c) == [[h] + q[0]] + q[1..]
  {
    if |p| == 1 {
      assert [h] + (p[0] + [c]) == ([h] + p[0]) + [c];
    } else {
      AppendLastCons([h] + p[0], p[1..], c);
      AppendLastCons(p[0], p[1..], c);
      assert p == [p[0]] + p[1..];
    }
  }

  /** Appending any other character extends the last field. */
  lemma {:induction false} SplitSnocOther(s: string, c: char, sep: char)
    requires c != sep
    ensures Split(s + [c], sep) == AppendLast(Split(s, sep), c)
    decreases |s|
  {
    if |s| == 0 {
      assert s + [c] == [c];
      assert [c][1..] == [];
      assert Split([c], sep) == [[c] + ""];
      assert [c] + "" == "" + [c];
    } else {
      assert (s + [c])[1..] == s[1..] + [c];
      SplitSnocOther(s[1..], c, sep);
      var rest := Split(s[1..], sep);
      if s[0] == sep {
        AppendLastCons("", rest, c);
      } else {
        AppendLastHead(s[0], rest, c);
      }
    }
  }

  // ---------------------------------------------------------------------
  // replace(c, "") and lower()
  // ---------------------------------------------------------------------

  /** `s.replace(c, "")`: every occurrence of `c` removed, every other
      character kept. */
  function Remove(s: string, c: char): (r: string)
    ensures c !in r
    ensures |r| <= |s|
    ensures forall x :: x in r ==> x in s
    ensures forall x :: x in s && x != c ==> x in r
  {
    if |s| == 0 then ""
    else (if s[0] == c then "" else [s[0]]) + Remove(s[1..], c)
  }

  lemma {:induction false} RemoveAbsent(s: string, c: char)
    requires c !in s
    ensures Remove(s, c) == s
    decreases |s|
  {
    if |s| > 0 {
      RemoveAbsent(s[1..], c);
      assert s == [s[0]] + s[1..];
    }
  }

  /** `c.lower()` on ASCII letters; other characters are unchanged. */
  function LowerChar(c: char): char {
    if 'A' <= c <= 'Z' then (c as int + 32) as char else c
  }

  function Lower(s: string): string {
    seq(|s|, i requires 0 <= i < |s| => LowerChar(s[i]))
  }

  // ---------------------------------------------------------------------
  // str(int) and int(str), base 10
  // ---------------------------------------------------------------------

  predicate IsDigit(c: char) {
    '0' <= c <= '9'
  }

  function DigitChar(d: nat): char
    requires d < 10
  {
    (d + '0' as int) as char
  }

  function DigitValue(c: char): nat
    requires IsDigit(c)
  {
    c as int - '0' as int
  }

  /** The value of a string of ASCII digits. */
  function DigitsValue(s: string): nat
    requires forall i :: 0 <= i < |s| ==> IsDigit(s[i])
  {
    if |s| == 0 then 0
    else DigitsValue(s[..|s| - 1]) * 10 + DigitValue(s[|s| - 1])
  }

  /** `str(n)` for a non-negative `n`: digits only, no leading zero. */
  function NatToString(n: nat): (s: string)
    ensures |s| >= 1
    ensures forall i :: 0 <= i < |s| ==> IsDigit(s[i])
    ensures s[0] == '0' ==> n == 0
  {
    if n < 10 then [DigitChar(n)] else NatToString(n / 10) + [DigitChar(n % 10)]
  }

  /** `str(i)`: a minus sign in front of the digits of a negative number. */
  function IntToString(i: int): string {
    if i < 0 then "-" + NatToString(-i) else NatToString(i)
  }

  /** The digits and single underscores `int()` accepts between an optional
      sign and the end: a digit first and last, and a digit after every
      underscore. */
  predicate IsNumeral(s: string) {
    && |s| >= 1
    && IsDigit(s[0])
    && IsDigit(s[|s| - 1])
    && (forall i :: 0 <= i < |s| ==> IsDigit(s[i]) || s[i] == '_')
    && (forall i :: 0 <= i < |s| - 1 && s[i] == '_' ==> IsDigit(s[i + 1]))
  }

  lemma NumeralDigits(s: string)
    requires IsNumeral(s)
    ensures forall i :: 0 <= i < |Remove(s, '_')| ==> IsDigit(Remove(s, '_')[i])
  {
    forall i | 0 <= i < |Remove(s, '_')| ensures IsDigit(Remove(s, '_')[i]) {
      var x := Remove(s, '_')[i];
      assert x in Remove(s, '_');
    }
  }

  function NumeralValue(s: string): nat
    requires IsNumeral(s)
  {
    NumeralDigits(s);
    DigitsValue(Remove(s, '_'))
  }

  /** Python's `int(s)` in base 10 over ASCII digits: surrounding whitespace,
      an optional sign, digits with single underscores between them; `None`
      stands for the `ValueError` raised on anything else. */
  function ParseInt(s: string): Option<int> {
    ParseStripped(Strip(s))
  }

  /** `int()` once surrounding whitespace is gone: sign, then numeral. */
  function ParseStripped(t: string): Option<int> {
    if |t| > 0 && (t[0] == '+' || t[0] == '-') then
      if IsNumeral(t[1..]) then
        var v: int := NumeralValue(t[1..]);
        Some(if t[0] == '-' then -v else v)
      else None
    else if IsNumeral(t) then Some(NumeralValue(t))
    else None
  }

  lemma {:induction false} DigitsValueOfNat(n: nat)
    ensures DigitsValue(NatToString(n)) == n
  {
    if n >= 10 {
      DigitsValueOfNat(n / 10);
      var s := NatToString(n);
      assert s[..|s| - 1] == NatToString(n / 10);
    }
  }

  lemma NatStringNumeral(n: nat)
    ensures IsNumeral(NatToString(n))
    ensures NumeralValue(NatToString(n)) == n
  {
    var s := NatToString(n);
    assert forall k :: 0 <= k < |s| ==> s[k] != '_';
    RemoveAbsent(s, '_');
    DigitsValueOfNat(n);
  }

  /** `int(str(i)) == i`: printing an integer and parsing it back is the
      identity, so a code given as an `int` and as its decimal text mean
      the same thing. */
  lemma ParseIntString(i: int)
    ensures ParseInt(IntToString(i)) == Some(i)
  {
    var s := IntToString(i);
    var n: nat := if i < 0 then -i else i;
    NatStringNumeral(n);
    StripUnchanged(s);
    if i < 0 {
      assert s[1..] == NatToString(n);
    } else {
      assert s == NatToString(n);
    }
  }

  /** `int()` ignores whitespace on either side of its argument. */
  lemma ParseIntSurroundingSpace(c: char, s: string)
    requires IsSpace(c)
    ensures ParseInt([c] + s) == ParseInt(s)
    ensures ParseInt(s + [c]) == ParseInt(s)
  {
    StripSpaceCons(c, s);
    StripSpaceSnoc(s, c);
  }
}
