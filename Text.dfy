/** The string helpers of Go's standard library that the sidecar relies on:
    `strings.TrimSpace`, `strings.Split` with a one-character separator and
    `strconv.Atoi`. Strings are sequences of Unicode code points. */
module Text {
  import opened Wrappers

  // ---------------------------------------------------------------------
  // strings.TrimSpace
  // ---------------------------------------------------------------------

  /** Go's `unicode.IsSpace`: the ASCII spaces, NEL, NBSP and the other
      code points of the Unicode White_Space property. */
  predicate IsSpace(c: char) {
    || c == '\t' || c == '\n' || c == '\U{000B}' || c == '\U{000C}' || c == '\r' || c == ' '
    || c == '\U{0085}' || c == '\U{00A0}' || c == '\U{1680}'
    || ('\U{2000}' <= c <= '\U{200A}')
    || c == '\U{2028}' || c == '\U{2029}' || c == '\U{202F}' || c == '\U{205F}' || c == '\U{3000}'
  }

  /** Within Latin-1, white space is exactly the eight characters that
      `unicode.IsSpace` tests directly. */
  lemma IsSpaceLatin1(c: char)
    requires c <= '\U{00FF}'
    ensures IsSpace(c) <==> c in "\t\n\U{000B}\U{000C}\r \U{0085}\U{00A0}"
  {
  }

  predicate AllSpace(s: string) {
    forall i :: 0 <= i < |s| ==> IsSpace(s[i])
  }

  /** Neither begins nor ends with white space. */
  predicate IsTrimmed(s: string) {
    s == [] || (!IsSpace(s[0]) && !IsSpace(s[|s| - 1]))
  }

  /** Drops the leading white space: what is left is a suffix of `s`, all
      that was dropped is white space, and what is left does not start with
      white space. */
  function TrimLeft(s: string): (r: string)
    ensures |r| <= |s| && r == s[|s| - |r|..]
    ensures AllSpace(s[..|s| - |r|])
    ensures r == [] || !IsSpace(r[0])
  {
    if |s| > 0 && IsSpace(s[0]) then
      var r := TrimLeft(s[1..]);
      assert s[..|s| - |r|] == [s[0]] + s[1..][..|s| - 1 - |r|];
      r
    else
      s
  }

  /** Drops the trailing white space: what is left is a prefix of `s`, all
      that was dropped is white space, and what is left does not end with
      white space. */
  function TrimRight(s: string): (r: string)
    ensures |r| <= |s| && r == s[..|r|]
    ensures AllSpace(s[|r|..])
    ensures r == [] || !IsSpace(r[|r| - 1])
  {
    if |s| > 0 && IsSpace(s[|s| - 1]) then
      var r := TrimRight(s[..|s| - 1]);
      assert s[|r|..] == s[..|s| - 1][|r|..] + [s[|s| - 1]];
      r
    else
      s
  }

  /** `strings.TrimSpace`. */
  function TrimSpace(s: string): (r: string)
    ensures IsTrimmed(r)
  {
    TrimRight(TrimLeft(s))
  }

  /** `TrimSpace` only removes white space from the two ends of `s`. */
  lemma TrimSpaceDecomposes(s: string)
    ensures exists i, j :: 0 <= i <= j <= |s| && s[i..j] == TrimSpace(s) && AllSpace(s[..i]) && AllSpace(s[j..])
  {
    var l := TrimLeft(s);
    var r := TrimRight(l);
    var i := |s| - |l|;
    var j := i + |r|;
    assert s[i..j] == l[..|r|];
    assert s[j..] == l[|r|..];
  }

  lemma {:induction false} TrimLeftOfPadded(w: string, u: string)
    requires AllSpace(w)
    requires u == [] || !IsSpace(u[0])
    ensures TrimLeft(w + u) == u
  {
    if w != [] {
      assert (w + u)[1..] == w[1..] + u;
      TrimLeftOfPadded(w[1..], u);
    } else {
      assert w + u == u;
    }
  }

  lemma {:induction false} TrimRightOfPadded(u: string, w: string)
    requires AllSpace(w)
    requires u == [] || !IsSpace(u[|u| - 1])
    ensures TrimRight(u + w) == u
  {
    if w != [] {
      assert (u + w)[..|u + w| - 1] == u + w[..|w| - 1];
      TrimRightOfPadded(u, w[..|w| - 1]);
    } else {
      assert u + w == u;
    }
  }

  /** White space around a trimmed string is exactly what `TrimSpace`
      removes; together with TrimSpaceDecomposes this determines `TrimSpace`. */
  lemma TrimSpaceOfPadded(w1: string, t: string, w2: string)
    requires AllSpace(w1) && AllSpace(w2) && IsTrimmed(t)
    ensures TrimSpace(w1 + t + w2) == t
  {
    if t == [] {
      assert w1 + t + w2 == (w1 + w2) + [];
      TrimLeftOfPadded(w1 + w2, []);
    } else {
      assert w1 + t + w2 == w1 + (t + w2);
      TrimLeftOfPadded(w1, t + w2);
      TrimRightOfPadded(t, w2);
    }
  }

  /** `TrimSpace` yields the empty string exactly for all-white-space input. */
  lemma TrimSpaceEmpty(s: string)
    ensures TrimSpace(s) == [] <==> AllSpace(s)
  {
    if AllSpace(s) {
      assert s == s + [] + [];
      TrimSpaceOfPadded(s, [], []);
    }
    if TrimSpace(s) == [] {
      var l := TrimLeft(s);
      assert AllSpace(l[0..]);
      assert s == s[..|s| - |l|] + l;
    }
  }

  /** White space added around any string, trimmed or not, does not change
      what `TrimSpace` gives. */
  lemma TrimSpaceIgnoresPadding(w1: string, t: string, w2: string)
    requires AllSpace(w1) && AllSpace(w2)
    ensures TrimSpace(w1 + t + w2) == TrimSpace(t)
  {
    var a, b := TrimmedSides(t);
    DoublyPadded(w1, a, TrimSpace(t), b, w2);
  }

  /** The white space that `TrimSpace` removes from either end. */
  lemma TrimmedSides(t: string) returns (a: string, b: string)
    ensures AllSpace(a) && AllSpace(b) && t == a + TrimSpace(t) + b
  {
    var l := TrimLeft(t);
    var m := TrimRight(l);
    a := t[..|t| - |l|];
    b := l[|m|..];
    assert t == a + l;
    assert l == m + b;
  }

  lemma DoublyPadded(w1: string, a: string, m: string, b: string, w2: string)
    requires AllSpace(w1) && AllSpace(a) && AllSpace(b) && AllSpace(w2) && IsTrimmed(m)
    ensures TrimSpace(w1 + (a + m + b) + w2) == m
  {
    assert w1 + (a + m + b) + w2 == (w1 + a) + m + (b + w2);
    assert AllSpace(w1 + a) && AllSpace(b + w2);
    TrimSpaceOfPadded(w1 + a, m, b + w2);
  }

  lemma TrimSpaceIdempotent(s: string)
    ensures TrimSpace(TrimSpace(s)) == TrimSpace(s)
  {
    var t := TrimSpace(s);
    assert t == [] + t + [];
    TrimSpaceOfPadded([], t, []);
  }

  // ---------------------------------------------------------------------
  // strings.Split and strings.Join with a one-character separator
  // ---------------------------------------------------------------------

  /** Number of occurrences of `c` in `s`. */
  function Count(s: string, c: char): nat {
    if s == [] then 0 else (if s[0] == c then 1 else 0) + Count(s[1..], c)
  }

  /** `strings.Split(s, string(sep))`: one piece more than there are
      separators, and no piece holds a separator. Empty pieces are kept, and
      the empty string yields one empty piece. */
  function Split(s: string, sep: char): (r: seq<string>)
    ensures |r| == Count(s, sep) + 1
    ensures forall k :: 0 <= k < |r| ==> sep !in r[k]
    decreases |s|
  {
    if s == [] then
      [[]]
    else
      var rest := Split(s[1..], sep);
      if s[0] == sep then [[]] + rest
      else [[s[0]] + rest[0]] + rest[1..]
  }

  /** `strings.Join(parts, string(sep))`. */
  function Join(parts: seq<string>, sep: char): string {
    if |parts| == 0 then []
    else if |parts| == 1 then parts[0]
    else parts[0] + [sep] + Join(parts[1..], sep)
  }

  /** Joining the pieces of a split gives back the original string. */
  lemma {:induction false} JoinSplit(s: string, sep: char)
    ensures Join(Split(s, sep), sep) == s
    decreases |s|
  {
    if s != [] {
      var rest := Split(s[1..], sep);
      JoinSplit(s[1..], sep);
      if s[0] == sep {
        assert Split(s, sep) == [[]] + rest;
        assert ([[]] + rest)[1..] == rest;
      } else {
        var parts := Split(s, sep);
        assert parts == [[s[0]] + rest[0]] + rest[1..];
        if |rest| == 1 {
          assert Join(rest, sep) == rest[0];
        } else {
          assert Join(rest, sep) == rest[0] + [sep] + Join(rest[1..], sep);
          assert parts[1..] == rest[1..];
        }
      }
    }
  }

  /** Splitting a join of separator-free pieces gives back the pieces. */
  lemma {:induction false} SplitJoin(parts: seq<string>, sep: char)
    requires |parts| >= 1
    requires forall k :: 0 <= k < |parts| ==> sep !in parts[k]
    ensures Split(Join(parts, sep), sep) == parts
    decreases |parts|, |parts[0]|
  {
    var p := parts[0];
    if p == [] {
      if |parts| > 1 {
        var tail := Join(parts[1..], sep);
        assert Join(parts, sep) == [sep] + tail;
        assert ([sep] + tail)[1..] == tail;
        SplitJoin(parts[1..], sep);
        assert parts == [[]] + parts[1..];
      }
    } else {
      var shorter := [p[1..]] + parts[1..];
      assert shorter[1..] == parts[1..];
      forall k | 0 <= k < |shorter| ensures sep !in shorter[k] {
        if k == 0 {
          assert forall c :: c in p[1..] ==> c in p;
        }
      }
      SplitJoin(shorter, sep);
      var j := Join(parts, sep);
      assert j == [p[0]] + Join(shorter, sep) by {
        if |parts| == 1 {
          assert p == [p[0]] + p[1..];
        } else {
          assert p + [sep] + Join(parts[1..], sep) == [p[0]] + (p[1..] + [sep] + Join(parts[1..], sep));
        }
      }
      assert j[1..] == Join(shorter, sep);
      assert j[0] == p[0] && p[0] != sep;
      var rest := Split(j[1..], sep);
      assert Split(j, sep) == [[p[0]] + rest[0]] + rest[1..];
      assert [p[0]] + p[1..] == p;
      assert parts == [p] + parts[1..];
    }
  }

  // ---------------------------------------------------------------------
  // strconv.Atoi (64-bit int)
  // ---------------------------------------------------------------------

  const MinInt64: int := -0x8000_0000_0000_0000
  const MaxInt64: int := 0x7FFF_FFFF_FFFF_FFFF

  predicate IsDigit(c: char) {
    '0' <= c <= '9'
  }

  predicate AllDigits(s: string) {
    forall i :: 0 <= i < |s| ==> IsDigit(s[i])
  }

  function DigitValue(c: char): (d: nat)
    requires IsDigit(c)
    ensures d < 10
  {
    c as int - '0' as int
  }

  function DigitChar(d: nat): (c: char)
    requires d < 10
    ensures IsDigit(c) && DigitValue(c) == d
  {
    ('0' as int + d) as char
  }

  /** The value of a string of decimal digits, read most significant first. */
  function DigitsValue(s: string): nat
    requires AllDigits(s)
  {
    if s == [] then 0 else DigitsValue(s[..|s| - 1]) * 10 + DigitValue(s[|s| - 1])
  }

  /** The digits of `s` once an optional leading sign is removed. */
  function Unsigned(s: string): string {
    if |s| > 0 && (s[0] == '-' || s[0] == '+') then s[1..] else s
  }

  /** `strconv.Atoi` on a 64-bit platform: an optional `+` or `-` followed by
      at least one ASCII digit, whose value lies in the 64-bit range; any other
      input is an error (None). Leading zeros are accepted. */
  function Atoi(s: string): (r: Option<int>)
    ensures r.Some? ==> MinInt64 <= r.value <= MaxInt64
    ensures r.Some? ==> |Unsigned(s)| > 0 && AllDigits(Unsigned(s))
  {
    var digits := Unsigned(s);
    if |digits| == 0 || !AllDigits(digits) then None
    else
      var v: int := if s[0] == '-' then -(DigitsValue(digits) as int) else DigitsValue(digits);
      if MinInt64 <= v <= MaxInt64 then Some(v) else None
  }

  /** A character other than a digit after the optional sign makes `Atoi` fail. */
  lemma AtoiRejectsNonDigit(s: string, i: nat)
    requires i < |Unsigned(s)| && !IsDigit(Unsigned(s)[i])
    ensures Atoi(s) == None
  {
  }

  /** The decimal rendering of a natural number, without leading zeros. */
  function FormatNat(n: nat): (s: string)
    ensures |s| > 0 && AllDigits(s)
  {
    if n < 10 then [DigitChar(n)] else FormatNat(n / 10) + [DigitChar(n % 10)]
  }

  /** `strconv.Itoa`: the canonical rendering of an integer. */
  function FormatInt(n: int): string {
    if n < 0 then "-" + FormatNat(-n) else FormatNat(n)
  }

  lemma {:induction false} DigitsValueOfFormat(n: nat)
    ensures DigitsValue(FormatNat(n)) == n
  {
    if n >= 10 {
      var s := FormatNat(n);
      assert s[..|s| - 1] == FormatNat(n / 10);
      DigitsValueOfFormat(n / 10);
    }
  }

  /** Parsing the rendering of any 64-bit integer gives the integer back. */
  lemma AtoiFormatInt(n: int)
    requires MinInt64 <= n <= MaxInt64
    ensures Atoi(FormatInt(n)) == Some(n)
  {
    if n < 0 {
      var s := FormatInt(n);
      assert Unsigned(s) == FormatNat(-n);
      DigitsValueOfFormat(-n);
    } else {
      DigitsValueOfFormat(n);
      assert FormatNat(n)[0] != '-';
    }
  }

  predicate AllZero(z: string) {
    forall i :: 0 <= i < |z| ==> z[i] == '0'
  }

  lemma {:induction false} DigitsValueOfZeros(z: string)
    requires AllZero(z)
    ensures AllDigits(z) && DigitsValue(z) == 0
  {
    if z != [] {
      DigitsValueOfZeros(z[..|z| - 1]);
    }
  }

  /** Leading zeros do not change the value of a digit string. */
  lemma {:induction false} DigitsValueLeadingZeros(z: string, d: string)
    requires AllZero(z) && AllDigits(d)
    ensures AllDigits(z + d) && DigitsValue(z + d) == DigitsValue(d)
    decreases |d|
  {
    if d == [] {
      assert z + d == z;
      DigitsValueOfZeros(z);
    } else {
      var s := z + d;
      assert s[..|s| - 1] == z + d[..|d| - 1];
      DigitsValueLeadingZeros(z, d[..|d| - 1]);
    }
  }

  /** A sign, any run of leading zeros and the digits of `n`: `Atoi` gives the
      signed `n` when it fits in 64 bits and fails otherwise, so "007" and
      "+007" give 7 and "9223372036854775808" is rejected. */
  lemma AtoiSignedDigits(sign: string, z: string, n: nat)
    requires sign == "" || sign == "+" || sign == "-"
    requires AllZero(z)
    ensures Atoi(sign + z + FormatNat(n)) ==
      var v: int := if sign == "-" then -(n as int) else n;
      if MinInt64 <= v <= MaxInt64 then Some(v) else None
  {
    var f := FormatNat(n);
    var d := z + f;
    DigitsValueLeadingZeros(z, f);
    DigitsValueOfFormat(n);
    assert |d| > 0 && AllDigits(d) && DigitsValue(d) == n;
    var s := sign + d;
    assert sign + z + f == s;
    assert Unsigned(s) == d && (s[0] == '-' <==> sign == "-") by {
      if sign == "" {
        assert s == d && IsDigit(d[0]);
      } else {
        assert s[1..] == d && s[0] == sign[0];
      }
    }
  }

  lemma AtoiFortyTwo()
    ensures Atoi("42") == Some(42)
  {
    assert "42"[..1] == "4" && "4"[..0] == [];
  }

  lemma AtoiOneTwoThreeFour()
    ensures Atoi("1234") == Some(1234)
  {
    AtoiFormatInt(1234);
    assert FormatInt(1234) == "1234" by {
      assert FormatNat(1234) == FormatNat(123) + "4";
      assert FormatNat(123) == FormatNat(12) + "3";
      assert FormatNat(12) == FormatNat(1) + "2";
    }
  }

  lemma AtoiMinusFive()
    ensures Atoi("-5") == Some(-5)
  {
    assert Unsigned("-5") == "5" && "5"[..0] == [];
  }

  /** A leading `+` changes nothing. */
  lemma AtoiPlusSign(s: string)
    requires |s| > 0 && IsDigit(s[0])
    ensures Atoi("+" + s) == Atoi(s)
  {
    assert Unsigned("+" + s) == s;
  }
}
