/**
 * The JavaScript string operations the screens rely on: `trim()`,
 * `split(',')` and `Number.prototype.toString()` on a list length.
 */
module Text {

  /** The characters `String.prototype.trim` removes: ECMAScript's WhiteSpace and LineTerminator sets. */
  predicate IsJsSpace(c: char)
  {
    || c == '\t' || c == '\n' || c == '\U{000B}' || c == '\U{000C}' || c == '\r' || c == ' '
    || c == '\U{00A0}' || c == '\U{1680}' || ('\U{2000}' <= c <= '\U{200A}')
    || c == '\U{2028}' || c == '\U{2029}' || c == '\U{202F}' || c == '\U{205F}'
    || c == '\U{3000}' || c == '\U{FEFF}'
  }

  ghost predicate AllSpace(s: string)
  {
    forall i :: 0 <= i < |s| ==> IsJsSpace(s[i])
  }

  /** Neither starts nor ends with a space: the shape `trim()` produces. */
  predicate Trimmed(s: string)
  {
    s == [] || (!IsJsSpace(s[0]) && !IsJsSpace(s[|s| - 1]))
  }

  /** Drops the leading spaces. */
  function TrimStart(s: string): (r: string)
    ensures |r| <= |s|
  {
    if |s| > 0 && IsJsSpace(s[0]) then TrimStart(s[1..]) else s
  }

  /** What `TrimStart` keeps is a suffix, only spaces were dropped, and what is kept does not start with one. */
  lemma {:induction false} TrimStartIsSuffix(s: string)
    ensures TrimStart(s) == s[|s| - |TrimStart(s)|..]
    ensures AllSpace(s[..|s| - |TrimStart(s)|])
    ensures TrimStart(s) == [] || !IsJsSpace(TrimStart(s)[0])
    decreases |s|
  {
    if |s| > 0 && IsJsSpace(s[0]) {
      var r := TrimStart(s[1..]);
      TrimStartIsSuffix(s[1..]);
      assert s[..|s| - |r|] == [s[0]] + s[1..][..|s| - 1 - |r|];
    }
  }

  /** Drops the trailing spaces. */
  function TrimEnd(s: string): (r: string)
    ensures |r| <= |s|
  {
    if |s| > 0 && IsJsSpace(s[|s| - 1]) then TrimEnd(s[..|s| - 1]) else s
  }

  /** What `TrimEnd` keeps is a prefix, only spaces were dropped, and what is kept does not end with one. */
  lemma {:induction false} TrimEndIsPrefix(s: string)
    ensures TrimEnd(s) == s[..|TrimEnd(s)|]
    ensures AllSpace(s[|TrimEnd(s)|..])
    ensures TrimEnd(s) == [] || !IsJsSpace(TrimEnd(s)[|TrimEnd(s)| - 1])
    decreases |s|
  {
    if |s| > 0 && IsJsSpace(s[|s| - 1]) {
      var r := TrimEnd(s[..|s| - 1]);
      TrimEndIsPrefix(s[..|s| - 1]);
      assert s[|r|..] == s[..|s| - 1][|r|..] + [s[|s| - 1]];
    }
  }

  /** Number of leading spaces of `s`. */
  function LeadingSpace(s: string): (k: nat)
    ensures k <= |s|
  {
    |s| - |TrimStart(s)|
  }

  /** `String.prototype.trim`: cuts the spaces off both ends. */
  function Trim(s: string): (r: string)
    ensures |r| <= |s|
  {
    TrimEnd(TrimStart(s))
  }

  /**
   * What `trim()` keeps is trimmed, and it is the infix of `s` between a run
   * of leading and a run of trailing spaces.
   */
  lemma TrimIsInfix(s: string)
    ensures Trimmed(Trim(s))
    ensures LeadingSpace(s) + |Trim(s)| <= |s|
    ensures Trim(s) == s[LeadingSpace(s)..LeadingSpace(s) + |Trim(s)|]
    ensures AllSpace(s[..LeadingSpace(s)]) && AllSpace(s[LeadingSpace(s) + |Trim(s)|..])
  {
    var t := TrimStart(s);
    var r := TrimEnd(t);
    TrimStartIsSuffix(s);
    TrimEndIsPrefix(t);
    assert r != [] ==> r[0] == t[0];
    assert s[LeadingSpace(s) + |r|..] == t[|r|..];
  }

  /** A character `trim()` keeps was in the input. */
  lemma TrimKeepsOnlyInputChars(s: string, c: char)
    ensures c in Trim(s) ==> c in s
  {
    TrimIsInfix(s);
  }

  lemma {:induction false} TrimStartOfPadded(a: string, u: string)
    requires AllSpace(a)
    requires u == [] || !IsJsSpace(u[0])
    ensures TrimStart(a + u) == u
    decreases |a|
  {
    if a != [] {
      assert (a + u)[1..] == a[1..] + u;
      TrimStartOfPadded(a[1..], u);
    }
  }

  lemma {:induction false} TrimEndOfPadded(u: string, b: string)
    requires AllSpace(b)
    requires u == [] || !IsJsSpace(u[|u| - 1])
    ensures TrimEnd(u + b) == u
    decreases |b|
  {
    if b != [] {
      assert (u + b)[..|u + b| - 1] == u + b[..|b| - 1];
      TrimEndOfPadded(u, b[..|b| - 1]);
    }
  }

  /**
   * `trim()` is determined by its two promises: padding a trimmed string with
   * spaces on either side and trimming gives that string back.
   */
  lemma TrimOfPadded(a: string, t: string, b: string)
    requires AllSpace(a) && AllSpace(b) && Trimmed(t)
    ensures Trim(a + t + b) == t
  {
    if t == [] {
      assert a + t + b == a + b;
      TrimStartOfPadded(a + b, []);
      assert a + b + [] == a + b;
    } else {
      assert a + t + b == a + (t + b);
      TrimStartOfPadded(a, t + b);
      TrimEndOfPadded(t, b);
    }
  }

  /** Trimming a trimmed string changes nothing; in particular `trim()` is idempotent. */
  lemma TrimOfTrimmed(t: string)
    requires Trimmed(t)
    ensures Trim(t) == t
  {
    assert [] + t + [] == t;
    TrimOfPadded([], t, []);
  }

  /** `!s.trim()` holds exactly for the strings made of spaces only (the empty string included). */
  lemma TrimEmptyIffAllSpace(s: string)
    ensures Trim(s) == [] <==> AllSpace(s)
  {
    if AllSpace(s) {
      assert s + [] + [] == s;
      TrimOfPadded(s, [], []);
    }
    if Trim(s) == [] {
      TrimIsInfix(s);
      var k := LeadingSpace(s);
      assert s == s[..k] + s[k..];
    }
  }

  /** `pieces.join(sep)` */
  function Join(pieces: seq<string>, sep: char): string
  {
    if pieces == [] then []
    else if |pieces| == 1 then pieces[0]
    else pieces[0] + [sep] + Join(pieces[1..], sep)
  }

  /**
   * `s.split(sep)` for a one-character separator: always at least one piece,
   * no piece contains the separator, and joining the pieces back gives `s`.
   */
  function Split(s: string, sep: char): (r: seq<string>)
    ensures |r| >= 1
    ensures forall i :: 0 <= i < |r| ==> sep !in r[i]
    ensures Join(r, sep) == s
  {
    if s == [] then [[]]
    else
      var rest := Split(s[1..], sep);
      if s[0] == sep then
        assert s == [sep] + s[1..];
        [[]] + rest
      else
        var r := [[s[0]] + rest[0]] + rest[1..];
        assert r[1..] == rest[1..];
        assert s == [s[0]] + s[1..];
        r
  }

  /** Splitting undoes joining pieces that do not contain the separator. */
  lemma {:induction false} SplitOfJoin(pieces: seq<string>, sep: char)
    requires |pieces| >= 1
    requires forall i :: 0 <= i < |pieces| ==> sep !in pieces[i]
    ensures Split(Join(pieces, sep), sep) == pieces
    decreases |Join(pieces, sep)|
  {
    var p := pieces[0];
    if p == [] {
      if |pieces| > 1 {
        var tail := pieces[1..];
        assert Join(pieces, sep) == [sep] + Join(tail, sep);
        assert forall i :: 0 <= i < |tail| ==> sep !in tail[i] by {
          forall i | 0 <= i < |tail| ensures sep !in tail[i] { assert tail[i] == pieces[i + 1]; }
        }
        SplitOfJoin(tail, sep);
        assert ([sep] + Join(tail, sep))[1..] == Join(tail, sep);
        assert pieces == [[]] + tail;
      }
    } else {
      var shorter := [p[1..]] + pieces[1..];
      assert shorter[1..] == pieces[1..];
      assert Join(pieces, sep) == [p[0]] + Join(shorter, sep);
      assert sep !in p[1..] by { assert forall c :: c in p[1..] ==> c in p; }
      assert forall i :: 0 <= i < |shorter| ==> sep !in shorter[i] by {
        forall i | 0 <= i < |shorter| ensures sep !in shorter[i] {
          if i > 0 { assert shorter[i] == pieces[i]; }
        }
      }
      SplitOfJoin(shorter, sep);
      assert ([p[0]] + Join(shorter, sep))[1..] == Join(shorter, sep);
      assert p[0] != sep by { assert p[0] in p; }
      assert [[p[0]] + p[1..]] + pieces[1..] == pieces by { assert [p[0]] + p[1..] == p; }
    }
  }

  /** A decimal digit character. */
  function DigitChar(d: nat): (c: char)
    requires d < 10
    ensures '0' <= c <= '9'
  {
    (48 + d) as char
  }

  predicate IsDigits(s: string)
  {
    forall i :: 0 <= i < |s| ==> '0' <= s[i] <= '9'
  }

  /** `n.toString()` for a non-negative integer: its decimal numeral without leading zeros. */
  function NatToString(n: nat): (r: string)
    ensures |r| >= 1 && IsDigits(r)
    ensures r[0] != '0' || n == 0
  {
    if n < 10 then [DigitChar(n)]
    else NatToString(n / 10) + [DigitChar(n % 10)]
  }

  /** Reads a decimal numeral back (most significant digit first). */
  function ParseDecimal(s: string): nat
    requires IsDigits(s)
  {
    if s == [] then 0
    else ParseDecimal(s[..|s| - 1]) * 10 + ((s[|s| - 1] as int) - 48)
  }

  lemma {:induction false} ParseNatToString(n: nat)
    ensures ParseDecimal(NatToString(n)) == n
  {
    if n >= 10 {
      var r := NatToString(n);
      assert r[..|r| - 1] == NatToString(n / 10);
      ParseNatToString(n / 10);
    }
  }

  /** Distinct numbers have distinct decimal strings. */
  lemma NatToStringInjective(m: nat, n: nat)
    ensures NatToString(m) == NatToString(n) ==> m == n
  {
    ParseNatToString(m);
    ParseNatToString(n);
  }
}
