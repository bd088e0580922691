/** The optional value that a query or a parse may fail to produce. */
module Optional {
  datatype Option<T> = None | Some(value: T)
}

/**
  The string operations the tracker relies on: Python's `str.strip()` and
  `int()` as the menu uses them, and the `BINARY` collation by which SQLite
  orders `TEXT` values.
*/
module Text {
  import opened Optional

  /** The characters for which Python's `str.isspace()` holds. */
  predicate IsSpace(c: char) {
    || ('\t' <= c <= '\r') || ('\U{1C}' <= c <= ' ') || c == '\U{85}' || c == '\U{A0}'
    || c == '\U{1680}' || ('\U{2000}' <= c <= '\U{200A}') || c == '\U{2028}' || c == '\U{2029}'
    || c == '\U{202F}' || c == '\U{205F}' || c == '\U{3000}'
  }

  /**
    The white space `int()` skips around a number: the `isspace` characters
    except the four ASCII separators U+001C to U+001F, which `int()` leaves
    in place and then rejects.
  */
  predicate IsIntSpace(c: char) {
    IsSpace(c) && !('\U{1C}' <= c <= '\U{1F}')
  }

  /** The length of the run of `ws` characters at the front of `s`. */
  function LeadingRun(s: string, ws: char -> bool): (n: nat)
    ensures n <= |s|
    ensures forall k :: 0 <= k < n ==> ws(s[k])
    ensures n < |s| ==> !ws(s[n])
  {
    if s == [] || !ws(s[0]) then 0 else 1 + LeadingRun(s[1..], ws)
  }

  /** `t` without the run of `ws` characters at its end. */
  function TrimEnd(t: string, ws: char -> bool): (r: string)
    ensures |r| <= |t| && r == t[..|r|]
    ensures forall k :: |r| <= k < |t| ==> ws(t[k])
    ensures r == [] || !ws(r[|r| - 1])
  {
    if t == [] || !ws(t[|t| - 1]) then t else TrimEnd(t[..|t| - 1], ws)
  }

  /**
    `s` with the `ws` characters at both ends removed. It is a contiguous
    piece of `s`, everything cut off is a `ws` character, and it neither
    starts nor ends with one.
  */
  function Trim(s: string, ws: char -> bool): (r: string)
    ensures |r| <= |s|
    ensures r == [] || (!ws(r[0]) && !ws(r[|r| - 1]))
    ensures r == [] <==> forall k :: 0 <= k < |s| ==> ws(s[k])
    ensures LeadingRun(s, ws) + |r| <= |s| && r == s[LeadingRun(s, ws)..LeadingRun(s, ws) + |r|]
    ensures forall k :: LeadingRun(s, ws) + |r| <= k < |s| ==> ws(s[k])
  {
    var i := LeadingRun(s, ws);
    var t := s[i..];
    var r := TrimEnd(t, ws);
    assert r == s[i..i + |r|];
    assert forall k :: i + |r| <= k < |s| ==> s[k] == t[k - i];
    if i == |s| then r
    else
      assert t[0] == s[i] && !ws(t[0]);
      assert r != [] && r[0] == s[i];
      r
  }

  /** Python's `s.strip()`. */
  function Strip(s: string): string {
    Trim(s, IsSpace)
  }

  /** Stripping a stripped string changes nothing. */
  lemma StripIdempotent(s: string)
    ensures Strip(Strip(s)) == Strip(s)
  {
    var r := Strip(s);
    assert LeadingRun(r, IsSpace) == 0;
  }

  predicate IsDigit(c: char) {
    '0' <= c <= '9'
  }

  /**
    The digit part of a literal that Python's `int()` accepts: ASCII digits,
    where single underscores may separate two digits.
  */
  predicate IsDigitRun(d: string) {
    && |d| > 0
    && IsDigit(d[0])
    && forall i :: 0 <= i < |d| ==> DigitOrJoin(d, i)
  }

  /** `d[i]` is a digit, or an underscore with a digit after it. */
  predicate DigitOrJoin(d: string, i: nat)
    requires i < |d|
  {
    IsDigit(d[i]) || (d[i] == '_' && i + 1 < |d| && IsDigit(d[i + 1]))
  }

  /** The number the digits of `d` spell, underscores skipped. */
  function DigitsValue(d: string): nat {
    if d == [] then 0
    else
      var last := d[|d| - 1];
      if IsDigit(last) then 10 * DigitsValue(d[..|d| - 1]) + (last as int - '0' as int)
      else DigitsValue(d[..|d| - 1])
  }

  /**
    `sys.int_info.default_max_str_digits`: `int()` refuses a decimal text
    with more digits than this.
  */
  const MaxStrDigits: nat := 4300

  /** How many decimal digits `d` holds; underscores do not count, leading zeros do. */
  function DigitCount(d: string): (n: nat)
    ensures n <= |d|
  {
    if d == [] then 0 else (if IsDigit(d[0]) then 1 else 0) + DigitCount(d[1..])
  }

  /**
    The literal `int()` reads once the white space around it is gone: an
    optional sign, then a digit run of at most `MaxStrDigits` digits.
  */
  function ParseLiteral(t: string): (r: Option<int>)
    ensures r.Some? ==> t != [] && (IsDigit(t[0]) || (|t| > 1 && IsDigit(t[1])))
    ensures r.Some? ==> forall k :: 0 <= k < |t| ==>
      IsDigit(t[k]) || t[k] == '_' || (k == 0 && (t[0] == '+' || t[0] == '-'))
  {
    if |t| > 0 && (t[0] == '+' || t[0] == '-') then
      if IsDigitRun(t[1..]) && DigitCount(t[1..]) <= MaxStrDigits then
        DigitRunChars(t, t[1..], 1);
        var v: int := DigitsValue(t[1..]);
        Some(if t[0] == '-' then -v else v)
      else None
    else if IsDigitRun(t) && DigitCount(t) <= MaxStrDigits then
      DigitRunChars(t, t, 0);
      Some(DigitsValue(t))
    else None
  }

  /**
    Python's `int(s)` for base 10: surrounding white space is ignored, one
    optional sign may come first, and at most `MaxStrDigits` digits follow;
    anything else raises `ValueError`, which is `None` here.
  */
  function ParseInt(s: string): (r: Option<int>)
    ensures r.Some? ==> exists k :: 0 <= k < |s| && IsDigit(s[k])
    ensures r.Some? ==> forall k :: 0 <= k < |s| ==>
      IsIntSpace(s[k]) || IsDigit(s[k]) || s[k] == '_' || s[k] == '+' || s[k] == '-'
  {
    var t := Trim(s, IsIntSpace);
    var r := ParseLiteral(t);
    if r.Some? then
      var i := LeadingRun(s, IsIntSpace);
      assert forall k :: i <= k < i + |t| ==> s[k] == t[k - i];
      assert s[i] == t[0] && (|t| > 1 ==> s[i + 1] == t[1]);
      r
    else r
  }

  /**
    Every answer `int()` accepts holds at most `MaxStrDigits` digits: a
    longer numeral raises `ValueError`, whatever surrounds it.
  */
  lemma ParseIntLimit(s: string)
    ensures ParseInt(s).Some? ==> DigitCount(s) <= MaxStrDigits
  {
    TrimDigits(s);
    LiteralLimit(Trim(s, IsIntSpace));
  }

  lemma LiteralLimit(t: string)
    ensures ParseLiteral(t).Some? ==> DigitCount(t) <= MaxStrDigits
  {
    if |t| > 0 && (t[0] == '+' || t[0] == '-') {
      assert DigitCount(t) == DigitCount(t[1..]);
    }
  }

  /** Trimming `int()` white space keeps every digit. */
  lemma TrimDigits(s: string)
    ensures DigitCount(Trim(s, IsIntSpace)) == DigitCount(s)
  {
    var i := LeadingRun(s, IsIntSpace);
    var t := Trim(s, IsIntSpace);
    assert s == s[..i] + t + s[i + |t|..];
    PaddedCount(s, s[..i], t, s[i + |t|..]);
  }

  lemma PaddedCount(s: string, p: string, t: string, q: string)
    requires s == p + t + q
    requires forall k :: 0 <= k < |p| ==> IsIntSpace(p[k])
    requires forall k :: 0 <= k < |q| ==> IsIntSpace(q[k])
    ensures DigitCount(s) == DigitCount(t)
  {
    DigitCountAppend(p + t, q);
    DigitCountAppend(p, t);
    SpaceCount(p);
    SpaceCount(q);
  }

  lemma {:induction false} SpaceCount(a: string)
    requires forall k :: 0 <= k < |a| ==> IsIntSpace(a[k])
    ensures DigitCount(a) == 0
  {
    if a != [] {
      assert IsIntSpace(a[0]);
      SpaceCount(a[1..]);
    }
  }

  lemma {:induction false} DigitCountAppend(a: string, b: string)
    ensures DigitCount(a + b) == DigitCount(a) + DigitCount(b)
  {
    if a == [] {
      assert a + b == b;
    } else {
      assert (a + b)[0] == a[0] && (a + b)[1..] == a[1..] + b;
      DigitCountAppend(a[1..], b);
    }
  }

  /** The characters of a digit run found at offset `i` of `s`. */
  lemma DigitRunChars(s: string, d: string, i: nat)
    requires i + |d| <= |s| && d == s[i..i + |d|]
    requires IsDigitRun(d)
    ensures IsDigit(s[i])
    ensures forall k :: i <= k < i + |d| ==> IsDigit(s[k]) || s[k] == '_'
  {
    forall k | i <= k < i + |d| ensures IsDigit(s[k]) || s[k] == '_' {
      assert s[k] == d[k - i];
      assert DigitOrJoin(d, k - i);
    }
  }

  function DigitChar(d: nat): (c: char)
    requires d < 10
    ensures IsDigit(c) && c as int - '0' as int == d
  {
    ('0' as int + d) as char
  }

  /** The decimal digits of `n`, most significant first, without leading zeros. */
  function Digits(n: nat): (d: string)
    ensures |d| > 0 && forall k :: 0 <= k < |d| ==> IsDigit(d[k])
  {
    if n < 10 then [DigitChar(n)] else Digits(n / 10) + [DigitChar(n % 10)]
  }

  /** How Python formats an integer, `f"{n}"`. */
  function Show(n: int): (s: string)
    ensures s != [] && (s[0] == '-' <==> n < 0)
    ensures forall k :: (if n < 0 then 1 else 0) <= k < |s| ==> IsDigit(s[k])
  {
    if n < 0 then "-" + Digits(-n) else Digits(n)
  }

  lemma {:induction false} DigitsParse(n: nat)
    ensures forall k :: 0 <= k < |Digits(n)| ==> IsDigit(Digits(n)[k])
    ensures IsDigitRun(Digits(n))
    ensures DigitsValue(Digits(n)) == n
  {
    if n >= 10 {
      DigitsParse(n / 10);
      var d := Digits(n);
      assert d[..|d| - 1] == Digits(n / 10);
    }
  }

  lemma TrimUnpadded(t: string, ws: char -> bool)
    requires t != [] && !ws(t[0]) && !ws(t[|t| - 1])
    ensures Trim(t, ws) == t
  {
    assert LeadingRun(t, ws) == 0;
  }

  /** What Python prints for an integer has no white space to strip. */
  lemma TrimShow(n: int, ws: char -> bool)
    requires forall c :: ws(c) ==> IsSpace(c)
    ensures Trim(Show(n), ws) == Show(n)
  {
    var m := if n < 0 then -n else n;
    DigitsParse(m);
    var d := Digits(m);
    assert IsDigit(d[0]) && IsDigit(d[|d| - 1]);
    if n < 0 {
      var t := "-" + d;
      assert t[|t| - 1] == d[|d| - 1];
      TrimUnpadded(t, ws);
    } else {
      TrimUnpadded(d, ws);
    }
  }

  /** A piece with white space only around it, and none at its ends, is what trimming leaves. */
  lemma TrimPadded(p: string, m: string, q: string, ws: char -> bool)
    requires forall k :: 0 <= k < |p| ==> ws(p[k])
    requires forall k :: 0 <= k < |q| ==> ws(q[k])
    requires m != [] && !ws(m[0]) && !ws(m[|m| - 1])
    ensures Trim(p + m + q, ws) == m
  {
    var s := p + m + q;
    assert forall k :: 0 <= k < |p| ==> s[k] == p[k];
    assert s[|p|] == m[0];
    assert LeadingRun(s, ws) == |p|;
    var r := Trim(s, ws);
    assert s[|p| + |m| - 1] == m[|m| - 1];
    assert forall k :: |p| + |m| <= k < |s| ==> s[k] == q[k - |p| - |m|];
    assert |r| == |m|;
    assert s[|p|..|p| + |m|] == m;
  }

  function Abs(n: int): nat {
    if n < 0 then -n else n
  }

  lemma {:induction false} ZerosValue(z: string, d: string)
    requires forall k :: 0 <= k < |z| ==> z[k] == '0'
    ensures DigitsValue(z + d) == DigitsValue(d)
    decreases |z| + |d|
  {
    if d == [] {
      assert z + d == z;
      if z != [] {
        ZerosValue(z[..|z| - 1], []);
        assert z[..|z| - 1] + [] == z[..|z| - 1];
      }
    } else {
      assert (z + d)[..|z + d| - 1] == z + d[..|d| - 1];
      ZerosValue(z, d[..|d| - 1]);
    }
  }

  lemma {:induction false} AllDigitsCount(d: string)
    requires forall k :: 0 <= k < |d| ==> IsDigit(d[k])
    ensures DigitCount(d) == |d|
  {
    if d != [] {
      AllDigitsCount(d[1..]);
    }
  }

  lemma AllDigitsRun(d: string)
    requires d != [] && forall k :: 0 <= k < |d| ==> IsDigit(d[k])
    ensures IsDigitRun(d)
  {
    forall k | 0 <= k < |d| ensures DigitOrJoin(d, k) {
      assert IsDigit(d[k]);
    }
  }

  /**
    What `int()` makes of a numeral as a user may type it: white space it
    skips on either side, an optional sign, leading zeros, then the digits
    of `n`. It is `n` with the sign applied, unless the digits, the zeros
    included, exceed the limit.
  */
  lemma ParseNumeral(p: string, sign: string, z: string, n: nat, q: string)
    requires forall k :: 0 <= k < |p| ==> IsIntSpace(p[k])
    requires forall k :: 0 <= k < |q| ==> IsIntSpace(q[k])
    requires sign == "" || sign == "+" || sign == "-"
    requires forall k :: 0 <= k < |z| ==> z[k] == '0'
    ensures ParseInt(p + sign + z + Digits(n) + q)
         == if |z| + |Digits(n)| <= MaxStrDigits then Some(if sign == "-" then -(n as int) else n as int) else None
  {
    assert DigitsValue(Digits(n)) == n by {
      DigitsParse(n);
    }
    ParseZeroPadded(p + sign + z + Digits(n) + q, p, sign, z, Digits(n), q, n);
  }

  /** As `ParseNumeral`, for any run of digits `d` that spells `v`. */
  lemma ParseZeroPadded(s: string, p: string, sign: string, z: string, d: string, q: string, v: nat)
    requires s == p + sign + z + d + q
    requires forall k :: 0 <= k < |p| ==> IsIntSpace(p[k])
    requires forall k :: 0 <= k < |q| ==> IsIntSpace(q[k])
    requires sign == "" || sign == "+" || sign == "-"
    requires forall k :: 0 <= k < |z| ==> z[k] == '0'
    requires d != [] && forall k :: 0 <= k < |d| ==> IsDigit(d[k])
    requires DigitsValue(d) == v
    ensures ParseInt(s)
         == if |z| + |d| <= MaxStrDigits then Some(if sign == "-" then -(v as int) else v as int) else None
  {
    var m := sign + (z + d);
    assert ParseInt(s) == ParseLiteral(m) by {
      ZeroPaddedLiteral(sign, z, d, v);
      Regroup(p, sign, z, d, q);
      ParsePadded(s, p, m, q);
    }
    ZeroPaddedLiteral(sign, z, d, v);
  }

  lemma ZeroPaddedLiteral(sign: string, z: string, d: string, v: nat)
    requires sign == "" || sign == "+" || sign == "-"
    requires forall k :: 0 <= k < |z| ==> z[k] == '0'
    requires d != [] && forall k :: 0 <= k < |d| ==> IsDigit(d[k])
    requires DigitsValue(d) == v
    ensures var m := sign + (z + d);
      && m != [] && !IsIntSpace(m[0]) && !IsIntSpace(m[|m| - 1])
      && ParseLiteral(m)
         == if |z| + |d| <= MaxStrDigits then Some(if sign == "-" then -(v as int) else v as int) else None
  {
    ZeroPadded(z, d);
    SignedLiteral(sign, z + d);
  }

  lemma Regroup(p: string, sign: string, z: string, d: string, q: string)
    ensures p + sign + z + d + q == p + (sign + (z + d)) + q
  {
  }

  /** Only the literal between the white space matters to `int()`. */
  lemma ParsePadded(s: string, p: string, m: string, q: string)
    requires s == p + m + q
    requires forall k :: 0 <= k < |p| ==> IsIntSpace(p[k])
    requires forall k :: 0 <= k < |q| ==> IsIntSpace(q[k])
    requires m != [] && !IsIntSpace(m[0]) && !IsIntSpace(m[|m| - 1])
    ensures ParseInt(s) == ParseLiteral(m)
  {
    TrimPadded(p, m, q, IsIntSpace);
  }

  /** A literal made of a sign and a digit run. */
  lemma SignedLiteral(sign: string, d: string)
    requires sign == "" || sign == "+" || sign == "-"
    requires IsDigitRun(d) && IsDigit(d[|d| - 1])
    ensures sign + d != [] && !IsIntSpace((sign + d)[0]) && !IsIntSpace((sign + d)[|sign + d| - 1])
    ensures ParseLiteral(sign + d)
         == if DigitCount(d) <= MaxStrDigits then Some(if sign == "-" then -(DigitsValue(d) as int) else DigitsValue(d) as int) else None
  {
    var m := sign + d;
    assert m[|m| - 1] == d[|d| - 1];
    NotSpace(d[|d| - 1]);
    if sign == "" {
      assert m == d;
      NotSpace(d[0]);
      assert d[0] != '+' && d[0] != '-';
    } else {
      assert m[0] == sign[0] && m[1..] == d;
      NotSpace(sign[0]);
    }
  }

  lemma NotSpace(c: char)
    requires IsDigit(c) || c == '+' || c == '-'
    ensures !IsSpace(c) && !IsIntSpace(c)
  {
  }

  /** Leading zeros in front of a run of digits leave a run of digits that spells the same number. */
  lemma ZeroPadded(z: string, d: string)
    requires forall k :: 0 <= k < |z| ==> z[k] == '0'
    requires d != [] && forall k :: 0 <= k < |d| ==> IsDigit(d[k])
    ensures IsDigitRun(z + d) && IsDigit((z + d)[|z + d| - 1])
    ensures DigitCount(z + d) == |z| + |d|
    ensures DigitsValue(z + d) == DigitsValue(d)
  {
    var w := z + d;
    assert forall k :: 0 <= k < |w| ==> IsDigit(w[k]) by {
      forall k | 0 <= k < |w| ensures IsDigit(w[k]) {
        if k >= |z| {
          assert w[k] == d[k - |z|];
        }
      }
    }
    AllDigitsRun(w);
    AllDigitsCount(w);
    ZerosValue(z, d);
  }

  /**
    Reading back the number the menu prints gives that number, as long as
    its digits stay within the limit.
  */
  lemma ParseShow(n: int)
    ensures ParseInt(Show(n)) == if |Digits(Abs(n))| <= MaxStrDigits then Some(n) else None
  {
    var sign := if n < 0 then "-" else "";
    ShowAsNumeral(n);
    assert DigitsValue(Digits(Abs(n))) == Abs(n) by {
      DigitsParse(Abs(n));
    }
    ParseZeroPadded(Show(n), [], sign, [], Digits(Abs(n)), [], Abs(n));
  }

  lemma ShowAsNumeral(n: int)
    ensures Show(n) == [] + (if n < 0 then "-" else "") + [] + Digits(Abs(n)) + []
  {
    if n < 0 {
      assert Show(n) == "-" + Digits(Abs(n));
    }
  }



  /**
    `int()` and `strip()` disagree on the ASCII separators: with U+001C in
    front of a numeral, `int()` fails while `strip()` removes it.
  */
  lemma SeparatorIsNotIntSpace()
    ensures ParseInt("\U{1C}1") == None
    ensures Strip("\U{1C}1") == "1"
  {
    var s := "\U{1C}1";
    assert LeadingRun(s, IsIntSpace) == 0;
    assert Trim(s, IsIntSpace) == s;
    assert LeadingRun(s, IsSpace) == 1;
    assert s[1..] == "1";
  }

  /** SQLite's `BINARY` collation: code point by code point, a prefix first. */
  predicate LexLe(a: string, b: string) {
    a == [] || (b != [] && (a[0] < b[0] || (a[0] == b[0] && LexLe(a[1..], b[1..]))))
  }

  lemma {:induction false} LexLeTotal(a: string, b: string)
    ensures LexLe(a, b) || LexLe(b, a)
  {
    if a != [] && b != [] && a[0] == b[0] {
      LexLeTotal(a[1..], b[1..]);
    }
  }

  lemma {:induction false} LexLeTransitive(a: string, b: string, c: string)
    requires LexLe(a, b) && LexLe(b, c)
    ensures LexLe(a, c)
  {
    if a != [] && a[0] == b[0] && b[0] == c[0] {
      LexLeTransitive(a[1..], b[1..], c[1..]);
    }
  }
}
