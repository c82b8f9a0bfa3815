/** The handful of Python string operations the source relies on:
    `str.split(sep)`, `sep.join(parts)`, `str.strip()`, `str.strip(chars)`,
    `str.startswith`, `str.replace` on one character, `int()` and `str()` of
    an integer, and `"%s" % value` of a possibly-`None` value.
 */
module Text {
  import opened Wrappers

  /** Python's whitespace for `str.strip()`: space, \t, \n, \x0b, \x0c, \r. */
  predicate IsSpace(c: char) {
    c == ' ' || ('\t' <= c <= '\r')
  }

  predicate IsDigit(c: char) {
    '0' <= c <= '9'
  }

  predicate StartsWith(s: string, prefix: string) {
    |prefix| <= |s| && s[..|prefix|] == prefix
  }

  /** `"%s" % v` where `v` may be `None`. */
  function Show(v: Option<string>): (r: string)
    ensures v.Some? ==> r == v.value
    ensures v.None? ==> r == "None"
  {
    match v
    case Some(s) => s
    case None => "None"
  }

  // ---------------------------------------------------------------- split / join

  /** `s.split(sep)`: the pieces between occurrences of `sep`, never empty. */
  function Split(s: string, sep: char): (parts: seq<string>)
    ensures |parts| >= 1
    ensures forall i :: 0 <= i < |parts| ==> sep !in parts[i]
  {
    if |s| == 0 then [""]
    else
      var rest := Split(s[1..], sep);
      if s[0] == sep then [""] + rest
      else
        assert forall i :: 1 <= i < |rest| ==> sep !in rest[i];
        [[s[0]] + rest[0]] + rest[1..]
  }

  /** `sep.join(parts)`. */
  function Join(parts: seq<string>, sep: char): string {
    if |parts| == 0 then ""
    else if |parts| == 1 then parts[0]
    else parts[0] + [sep] + Join(parts[1..], sep)
  }

  lemma JoinCons(p: string, parts: seq<string>, sep: char)
    requires |parts| >= 1
    ensures Join([p] + parts, sep) == p + [sep] + Join(parts, sep)
  {
    assert ([p] + parts)[1..] == parts;
  }

  /** Splitting and joining again gives back the original string. */
  lemma {:induction false} JoinSplit(s: string, sep: char)
    ensures Join(Split(s, sep), sep) == s
  {
    if |s| == 0 {
    } else {
      var rest := Split(s[1..], sep);
      JoinSplit(s[1..], sep);
      if s[0] == sep {
        JoinCons("", rest, sep);
        assert s == [sep] + s[1..];
      } else {
        if |rest| == 1 {
          assert Split(s, sep) == [[s[0]] + rest[0]];
          assert s == [s[0]] + s[1..];
        } else {
          var head := [s[0]] + rest[0];
          assert Split(s, sep) == [head] + rest[1..];
          JoinCons(head, rest[1..], sep);
          JoinCons(rest[0], rest[1..], sep);
          assert rest == [rest[0]] + rest[1..];
          assert s == [s[0]] + s[1..];
        }
      }
    }
  }

  /** Joining pieces that do not contain the separator and splitting again
      gives back the pieces. */
  lemma {:induction false} SplitJoin(parts: seq<string>, sep: char)
    requires |parts| >= 1
    requires forall i :: 0 <= i < |parts| ==> sep !in parts[i]
    ensures Split(Join(parts, sep), sep) == parts
    decreases |parts|, |parts[0]|
  {
    if |parts| == 1 {
      SplitNoSep(parts[0], sep);
    } else if |parts[0]| == 0 {
      var s := Join(parts, sep);
      JoinCons(parts[0], parts[1..], sep);
      assert parts == [parts[0]] + parts[1..];
      assert s == [sep] + Join(parts[1..], sep);
      assert s[1..] == Join(parts[1..], sep);
      SplitJoin(parts[1..], sep);
    } else {
      var s := Join(parts, sep);
      var tail := [parts[0][1..]] + parts[1..];
      assert tail[1..] == parts[1..];
      JoinCons(parts[0], parts[1..], sep);
      JoinCons(parts[0][1..], parts[1..], sep);
      assert parts[0] == [parts[0][0]] + parts[0][1..];
      assert s[0] == parts[0][0];
      assert s[1..] == Join(tail, sep);
      assert parts[0][0] != sep by {
        assert parts[0][0] in parts[0];
      }
      assert forall i :: 0 <= i < |tail| ==> sep !in tail[i] by {
        forall i | 0 <= i < |tail|
          ensures sep !in tail[i]
        {
          if i == 0 {
            assert forall c :: c in parts[0][1..] ==> c in parts[0];
          } else {
            assert tail[i] == parts[i];
          }
        }
      }
      SplitJoin(tail, sep);
      assert [parts[0][0]] + tail[0] == parts[0];
      assert parts == [parts[0]] + tail[1..];
    }
  }

  /** Splitting at the first separator of a separator-free head. */
  lemma {:induction false} SplitAtFirst(k: string, v: string, sep: char)
    requires sep !in k
    ensures Split(k + [sep] + v, sep) == [k] + Split(v, sep)
  {
    if |k| == 0 {
      assert ([] + [sep] + v)[1..] == v;
    } else {
      assert sep !in k[1..] by {
        assert forall c :: c in k[1..] ==> c in k;
      }
      SplitAtFirst(k[1..], v, sep);
      assert (k + [sep] + v)[1..] == k[1..] + [sep] + v;
      assert k == [k[0]] + k[1..];
    }
  }

  lemma {:induction false} SplitNoSep(s: string, sep: char)
    requires sep !in s
    ensures Split(s, sep) == [s]
  {
    if |s| > 0 {
      assert sep !in s[1..] by {
        assert forall c :: c in s[1..] ==> c in s;
      }
      SplitNoSep(s[1..], sep);
      assert s == [s[0]] + s[1..];
    }
  }

  // ---------------------------------------------------------------- strip

  /** Number of leading characters of `s` that satisfy `drop`. */
  function LeadCount(s: string, drop: char -> bool): (n: nat)
    ensures n <= |s|
    ensures forall k :: 0 <= k < n ==> drop(s[k])
    ensures n < |s| ==> !drop(s[n])
  {
    if |s| == 0 || !drop(s[0]) then 0
    else 1 + LeadCount(s[1..], drop)
  }

  /** Number of trailing characters of `s` that satisfy `drop`. */
  function TrailCount(s: string, drop: char -> bool): (n: nat)
    ensures n <= |s|
    ensures forall k :: |s| - n <= k < |s| ==> drop(s[k])
    ensures n < |s| ==> !drop(s[|s| - n - 1])
  {
    if |s| == 0 || !drop(s[|s| - 1]) then 0
    else 1 + TrailCount(s[..|s| - 1], drop)
  }

  /** `s.strip(chars)` with `drop` the membership test of `chars`. */
  function StripBy(s: string, drop: char -> bool): (r: string)
    ensures |r| <= |s|
    ensures |r| > 0 ==> !drop(r[0]) && !drop(r[|r| - 1])
    ensures LeadCount(s, drop) + |r| <= |s|
    ensures r == s[LeadCount(s, drop)..LeadCount(s, drop) + |r|]
    ensures forall k :: LeadCount(s, drop) + |r| <= k < |s| ==> drop(s[k])
  {
    var a := LeadCount(s, drop);
    var rest := s[a..];
    var b := TrailCount(rest, drop);
    var r := rest[..|rest| - b];
    assert s[a..a + |r|] == r;
    r
  }

  /** `s.strip()`. */
  function Strip(s: string): (r: string)
    ensures |r| <= |s|
    ensures |r| > 0 ==> !IsSpace(r[0]) && !IsSpace(r[|r| - 1])
  {
    StripBy(s, IsSpace)
  }

  /** Stripping is idempotent. */
  lemma StripByIdempotent(s: string, drop: char -> bool)
    ensures StripBy(StripBy(s, drop), drop) == StripBy(s, drop)
  {
    var r := StripBy(s, drop);
    if |r| > 0 {
      assert LeadCount(r, drop) == 0;
      assert r[0..] == r;
      assert TrailCount(r, drop) == 0;
      assert r[..|r|] == r;
    }
  }

  /** A string without whitespace at either end is unchanged by `strip()`. */
  lemma StripTrimmed(s: string)
    requires |s| > 0 ==> !IsSpace(s[0]) && !IsSpace(s[|s| - 1])
    ensures Strip(s) == s
  {
    if |s| > 0 {
      assert LeadCount(s, IsSpace) == 0;
      assert s[0..] == s;
      assert TrailCount(s, IsSpace) == 0;
      assert s[..|s|] == s;
    }
  }

  /** Leading whitespace in front of a trimmed string is removed by `strip()`. */
  lemma StripLeadingSpace(c: char, s: string)
    requires IsSpace(c)
    requires |s| > 0 && !IsSpace(s[0]) && !IsSpace(s[|s| - 1])
    ensures Strip([c] + s) == s
  {
    var t := [c] + s;
    assert LeadCount(t[1..], IsSpace) == 0 by { assert t[1..] == s; }
    assert LeadCount(t, IsSpace) == 1;
    assert t[1..] == s;
    assert TrailCount(s, IsSpace) == 0;
    assert s[..|s|] == s;
  }

  /** A trimmed string framed by one dropped character on each side is
      recovered by stripping. */
  lemma StripByFramed(a: char, s: string, b: char, drop: char -> bool)
    requires drop(a) && drop(b)
    requires |s| > 0 && !drop(s[0]) && !drop(s[|s| - 1])
    ensures StripBy([a] + s + [b], drop) == s
  {
    var t := [a] + s + [b];
    assert t[1..] == s + [b];
    assert LeadCount(t[1..], drop) == 0;
    assert LeadCount(t, drop) == 1;
    var rest := t[1..];
    assert rest[..|rest| - 1] == s;
    assert TrailCount(rest[..|rest| - 1], drop) == 0;
    assert TrailCount(rest, drop) == 1;
  }

  // ---------------------------------------------------------------- replace

  /** `s.replace(a, b)` for one-character `a` and `b`. */
  function ReplaceChar(s: string, a: char, b: char): (r: string)
    ensures |r| == |s|
    ensures forall k :: 0 <= k < |s| ==> r[k] == (if s[k] == a then b else s[k])
  {
    if |s| == 0 then "" else [if s[0] == a then b else s[0]] + ReplaceChar(s[1..], a, b)
  }

  // ---------------------------------------------------------------- integers

  function DigitChar(d: nat): (c: char)
    requires d < 10
    ensures IsDigit(c)
  {
    "0123456789"[d]
  }

  function DigitValue(c: char): (d: nat)
    requires IsDigit(c)
    ensures d < 10
  {
    (c as int - '0' as int) as nat
  }

  lemma DigitRoundTrip(d: nat)
    requires d < 10
    ensures DigitValue(DigitChar(d)) == d
  {
  }

  /** `str(n)` for a natural number. */
  function NatToString(n: nat): (s: string)
    ensures |s| >= 1
    ensures forall k :: 0 <= k < |s| ==> IsDigit(s[k])
  {
    if n < 10 then [DigitChar(n)] else NatToString(n / 10) + [DigitChar(n % 10)]
  }

  /** `str(i)` for any integer. */
  function IntToString(i: int): (s: string)
    ensures |s| >= 1
    ensures s == if i < 0 then "-" + NatToString(-i) else NatToString(i)
  {
    if i < 0 then "-" + NatToString(-i) else NatToString(i)
  }

  /** The value of a non-empty run of decimal digits. */
  function DigitsValue(s: string): (n: nat)
    requires forall k :: 0 <= k < |s| ==> IsDigit(s[k])
  {
    if |s| == 0 then 0 else 10 * DigitsValue(s[..|s| - 1]) + DigitValue(s[|s| - 1])
  }

  predicate AllDigits(s: string) {
    |s| >= 1 && forall k :: 0 <= k < |s| ==> IsDigit(s[k])
  }

  /** `int(s)`: optional surrounding whitespace, an optional sign, then at
      least one decimal digit.  `None` where Python raises ValueError. */
  function ParseInt(s: string): (r: Option<int>)
    ensures r.Some? ==> |Strip(s)| >= 1
  {
    var t := Strip(s);
    if |t| >= 1 && (t[0] == '-' || t[0] == '+') then
      if AllDigits(t[1..]) then
        var v: int := DigitsValue(t[1..]);
        Some(if t[0] == '-' then -v else v)
      else None
    else if AllDigits(t) then Some(DigitsValue(t))
    else None
  }

  lemma {:induction false} DigitsOfNat(n: nat)
    ensures DigitsValue(NatToString(n)) == n
  {
    var s := NatToString(n);
    if n < 10 {
      DigitRoundTrip(n);
    } else {
      DigitsOfNat(n / 10);
      assert s[..|s| - 1] == NatToString(n / 10);
      DigitRoundTrip(n % 10);
    }
  }

  /** A trimmed string of digits parses as their value. */
  lemma ParseDigits(t: string)
    requires Strip(t) == t && AllDigits(t)
    ensures ParseInt(t) == Some(DigitsValue(t) as int)
  {
    assert t[0] != '-' && t[0] != '+';
  }

  /** A trimmed minus sign and digits parse as the negated value. */
  lemma ParseMinus(t: string)
    requires Strip(t) == t && |t| >= 1 && t[0] == '-' && AllDigits(t[1..])
    ensures ParseInt(t) == Some(-(DigitsValue(t[1..]) as int))
  {
  }

  lemma {:induction false} ParseNatString(n: nat)
    ensures ParseInt(NatToString(n)) == Some(n)
  {
    var s := NatToString(n);
    assert IsDigit(s[0]) && IsDigit(s[|s| - 1]);
    StripTrimmed(s);
    ParseDigits(s);
    DigitsOfNat(n);
  }

  lemma {:induction false} ParseNegString(n: nat)
    requires n > 0
    ensures ParseInt(IntToString(-(n as int))) == Some(-(n as int))
  {
    var d := NatToString(n);
    var s := "-" + d;
    assert IsDigit(d[|d| - 1]);
    assert s[|s| - 1] == d[|d| - 1];
    StripTrimmed(s);
    assert s[1..] == d;
    ParseMinus(s);
    DigitsOfNat(n);
  }

  /** `int(str(i)) == i`. */
  lemma {:induction false} ParseIntToString(i: int)
    ensures ParseInt(IntToString(i)) == Some(i)
  {
    if i < 0 {
      ParseNegString(-i);
    } else {
      ParseNatString(i);
    }
  }

  /** A decimal numeral has no dot. */
  lemma NoDotInNat(n: nat)
    ensures '.' !in NatToString(n)
  {
    var s := NatToString(n);
    assert forall k :: 0 <= k < |s| ==> IsDigit(s[k]);
  }

  /** `a.b.rest` splits into `a`, `b` and the pieces of `rest`. */
  lemma SplitDotted(a: nat, b: nat, rest: string)
    ensures Split(NatToString(a) + "." + NatToString(b) + "." + rest, '.') == [NatToString(a), NatToString(b)] + Split(rest, '.')
  {
    var sa := NatToString(a);
    var sb := NatToString(b);
    NoDotInNat(a);
    NoDotInNat(b);
    assert sa + "." + sb + "." + rest == sa + ['.'] + (sb + ['.'] + rest);
    SplitAtFirst(sa, sb + "." + rest, '.');
    SplitAtFirst(sb, rest, '.');
  }
}
