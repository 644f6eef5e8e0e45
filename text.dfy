/** Character classes and string helpers of ECMAScript that the core relies on. */
module Text {

  /**
   * The ECMAScript WhiteSpace and LineTerminator code points: the characters matched
   * by `\s` in a regular expression and removed by `String.prototype.trim`.
   */
  predicate IsWhitespace(c: char) {
    c == '\t' || c == '\n' || c == '\U{000B}' || c == '\U{000C}' || c == '\r' || c == ' '
    || c == '\U{00A0}' || c == '\U{1680}' || ('\U{2000}' <= c <= '\U{200A}')
    || c == '\U{2028}' || c == '\U{2029}' || c == '\U{202F}' || c == '\U{205F}'
    || c == '\U{3000}' || c == '\U{FEFF}'
  }

  predicate AllWhitespace(s: string) {
    forall i :: 0 <= i < |s| ==> IsWhitespace(s[i])
  }

  /** `trimStart`: drops the leading whitespace. */
  function TrimStart(s: string): (r: string)
    ensures |r| <= |s| && r == s[|s| - |r|..]
    ensures AllWhitespace(s[..|s| - |r|])
    ensures r == [] || !IsWhitespace(r[0])
  {
    if s != [] && IsWhitespace(s[0]) then
      var r := TrimStart(s[1..]);
      assert s[1..][..|s| - 1 - |r|] == s[1..|s| - |r|];
      r
    else s
  }

  /** `trimEnd`: drops the trailing whitespace. */
  function TrimEnd(s: string): (r: string)
    ensures |r| <= |s| && r == s[..|r|]
    ensures AllWhitespace(s[|r|..])
    ensures r == [] || !IsWhitespace(r[|r| - 1])
  {
    if s != [] && IsWhitespace(s[|s| - 1]) then TrimEnd(s[..|s| - 1]) else s
  }

  /** `String.prototype.trim`. */
  function Trim(s: string): (r: string)
    ensures |r| <= |s|
    ensures r == [] || (!IsWhitespace(r[0]) && !IsWhitespace(r[|r| - 1]))
  {
    var t := TrimStart(s);
    var r := TrimEnd(t);
    assert r != [] ==> r[0] == t[0];
    r
  }

  /** `trim()` keeps the middle of the string: it cuts whitespace off the two ends and nothing else. */
  lemma TrimIsMiddle(s: string)
    ensures exists k :: (0 <= k <= |s| - |Trim(s)| && Trim(s) == s[k..k + |Trim(s)|]
      && AllWhitespace(s[..k]) && AllWhitespace(s[k + |Trim(s)|..]))
  {
    TrimCutsEnd(s);
    MiddlePiece(s, TrimStart(s), Trim(s));
  }

  /** The second cut of `trim()` drops only trailing whitespace from what the first cut left. */
  lemma TrimCutsEnd(s: string)
    ensures |Trim(s)| <= |TrimStart(s)| && Trim(s) == TrimStart(s)[..|Trim(s)|]
    ensures AllWhitespace(TrimStart(s)[|Trim(s)|..])
  {
    assert Trim(s) == TrimEnd(TrimStart(s));
  }

  /** A prefix `r` of a suffix `t` of `s` is a middle piece of `s`; what lies around it is what the two cuts dropped. */
  lemma MiddlePiece(s: string, t: string, r: string)
    requires |t| <= |s| && t == s[|s| - |t|..] && AllWhitespace(s[..|s| - |t|])
    requires |r| <= |t| && r == t[..|r|] && AllWhitespace(t[|r|..])
    ensures exists k :: (0 <= k <= |s| - |r| && r == s[k..k + |r|]
      && AllWhitespace(s[..k]) && AllWhitespace(s[k + |r|..]))
  {
    var k := |s| - |t|;
    assert s[k + |r|..] == t[|r|..];
    assert r == s[k..k + |r|] && AllWhitespace(s[..k]) && AllWhitespace(s[k + |r|..]);
  }

  /** `!s.trim()`: a string is blank exactly when it consists of whitespace only. */
  lemma BlankIffAllWhitespace(s: string)
    ensures Trim(s) == [] <==> AllWhitespace(s)
  {
    var t := TrimStart(s);
    if t != [] {
      assert t[0] == s[|s| - |t|];
      assert IsWhitespace(t[0]) ==> !AllWhitespace(s);
      assert t[0..] == t;
    }
    assert s[..|s|] == s;
  }

  /** The test `!s.trim()` of the handlers. */
  method IsBlank(s: string) returns (blank: bool)
    ensures blank <==> AllWhitespace(s)
  {
    BlankIffAllWhitespace(s);
    blank := Trim(s) == [];
  }

  /** `s.filter(keep)` on the characters of a string: keeps the kept ones, in order. */
  function Filter(s: string, keep: char -> bool): (r: string)
    ensures |r| <= |s|
    ensures forall c :: c in r ==> c in s && keep(c)
  {
    if s == [] then []
    else if keep(s[0]) then [s[0]] + Filter(s[1..], keep)
    else Filter(s[1..], keep)
  }

  lemma {:induction false} FilterAppend(a: string, b: string, keep: char -> bool)
    ensures Filter(a + b, keep) == Filter(a, keep) + Filter(b, keep)
  {
    if a != [] {
      assert (a + b)[0] == a[0];
      assert (a + b)[1..] == a[1..] + b;
      FilterAppend(a[1..], b, keep);
    } else {
      assert a + b == b;
    }
  }

  /** Filtering a string whose every character is kept changes nothing. */
  lemma {:induction false} FilterAllKept(s: string, keep: char -> bool)
    requires forall i :: 0 <= i < |s| ==> keep(s[i])
    ensures Filter(s, keep) == s
  {
    if s != [] {
      FilterAllKept(s[1..], keep);
    }
  }

  /** Filtering by a narrower class after a wider one is filtering by the narrower class. */
  lemma {:induction false} FilterNarrower(s: string, wide: char -> bool, narrow: char -> bool)
    requires forall c :: narrow(c) ==> wide(c)
    ensures Filter(Filter(s, wide), narrow) == Filter(s, narrow)
  {
    if s != [] {
      FilterNarrower(s[1..], wide, narrow);
      if wide(s[0]) {
        var t := [s[0]] + Filter(s[1..], wide);
        assert t[0] == s[0] && t[1..] == Filter(s[1..], wide);
      }
    }
  }

  /** A kept first character stays first. */
  lemma FilterKeepsFirst(s: string, keep: char -> bool)
    requires s != [] && keep(s[0])
    ensures Filter(s, keep) != [] && Filter(s, keep)[0] == s[0]
  {
  }

  /** A kept last character stays last. */
  lemma FilterKeepsLast(s: string, keep: char -> bool)
    requires s != [] && keep(s[|s| - 1])
    ensures Filter(s, keep) != [] && Filter(s, keep)[|Filter(s, keep)| - 1] == s[|s| - 1]
  {
    var n := |s| - 1;
    assert s == s[..n] + [s[n]];
    FilterAppend(s[..n], [s[n]], keep);
    assert Filter([s[n]], keep) == [s[n]] by {
      assert [s[n]][1..] == [];
    }
  }

  /** The decimal digits of a natural number, as a template literal `${n}` prints it. */
  function DecimalText(n: nat): (r: string)
    ensures r != [] && (forall i :: 0 <= i < |r| ==> '0' <= r[i] <= '9')
    ensures n >= 10 ==> |r| >= 2
    ensures r[|r| - 1] == (('0' as int) + n % 10) as char
  {
    if n < 10 then [(('0' as int) + n) as char]
    else DecimalText(n / 10) + [(('0' as int) + n % 10) as char]
  }

  /** Different numbers print differently. */
  lemma {:induction false} DecimalTextInjective(a: nat, b: nat)
    requires DecimalText(a) == DecimalText(b)
    ensures a == b
  {
    var ra, rb := DecimalText(a), DecimalText(b);
    assert a % 10 == b % 10 by {
      assert ra[|ra| - 1] == rb[|rb| - 1];
    }
    if a >= 10 && b >= 10 {
      assert DecimalText(a / 10) == ra[..|ra| - 1];
      assert DecimalText(b / 10) == rb[..|rb| - 1];
      DecimalTextInjective(a / 10, b / 10);
    }
  }

  /** A fixed prefix and suffix around two strings: equal wholes have equal middles. */
  lemma InfixDetermined(p: string, a: string, b: string, q: string)
    requires p + a + q == p + b + q
    ensures a == b
  {
    var w := p + a + q;
    assert |a| == |b|;
    assert w[|p|..|p| + |a|] == a;
    assert (p + b + q)[|p|..|p| + |b|] == b;
  }
}
