/** The string operations of the source: whitespace, `strip`, decimal numerals. */
module Text {
  /** Python's `str.isspace` for one character; the same set `str.strip` removes. */
  predicate IsSpace(c: char) {
    var n := c as int;
    || 0x09 <= n <= 0x0D || 0x1C <= n <= 0x20 || n == 0x85 || n == 0xA0 || n == 0x1680
    || 0x2000 <= n <= 0x200A || n == 0x2028 || n == 0x2029 || n == 0x202F || n == 0x205F || n == 0x3000
  }

  function StripLeft(s: string): (r: string)
    ensures r == [] || !IsSpace(r[0])
    ensures |r| <= |s| && r == s[|s| - |r|..]
    ensures forall i | 0 <= i < |s| - |r| :: IsSpace(s[i])
  {
    if s != [] && IsSpace(s[0]) then StripLeft(s[1..]) else s
  }

  function StripRight(s: string): (r: string)
    ensures r == [] || !IsSpace(r[|r| - 1])
    ensures |r| <= |s| && r == s[..|r|]
    ensures forall i | |r| <= i < |s| :: IsSpace(s[i])
  {
    if s != [] && IsSpace(s[|s| - 1]) then StripRight(s[..|s| - 1]) else s
  }

  /** Python's `str.strip`. */
  function Strip(s: string): string {
    StripRight(StripLeft(s))
  }

  /** `not s.strip()`, said directly. */
  predicate Blank(s: string) {
    forall i | 0 <= i < |s| :: IsSpace(s[i])
  }

  predicate Every(blank: char -> bool, s: string) {
    forall i | 0 <= i < |s| :: blank(s[i])
  }

  /** What is left of a text without its outer blanks: nothing, or a text with no blank at either end. */
  ghost predicate Trimmed(blank: char -> bool, s: string, t: string) {
    && (exists a: string, b: string :: Every(blank, a) && Every(blank, b) && s == a + t + b)
    && (t != "" ==> !blank(t[0]) && !blank(t[|t| - 1]))
  }

  lemma JoinedAt(a: string, b: string, c: string, k: nat)
    requires k < |a + b + c|
    ensures (a + b + c)[k] == if k < |a| then a[k] else if k < |a| + |b| then b[k - |a|] else c[k - |a| - |b|]
  {
  }

  lemma TrimmedStarts(blank: char -> bool, a: string, t: string, b: string, c: string, u: string, d: string)
    requires a + t + b == c + u + d && Every(blank, c) && t != "" && !blank(t[0])
    ensures |c| <= |a|
  {
    JoinedAt(a, t, b, |a|);
    JoinedAt(c, u, d, |a|);
  }

  lemma TrimmedEnds(blank: char -> bool, a: string, t: string, b: string, c: string, u: string, d: string)
    requires a + t + b == c + u + d && Every(blank, d) && t != "" && !blank(t[|t| - 1])
    ensures |a| + |t| <= |c| + |u|
  {
    JoinedAt(a, t, b, |a| + |t| - 1);
    JoinedAt(c, u, d, |a| + |t| - 1);
  }

  lemma TrimmedNothing(blank: char -> bool, a: string, b: string, c: string, u: string, d: string)
    requires a + b == c + u + d && Every(blank, a) && Every(blank, b) && (u != "" ==> !blank(u[0]))
    ensures u == ""
  {
    if |c| < |c + u + d| {
      JoinedAt(c, u, d, |c|);
      assert blank((a + b)[|c|]);
    }
  }

  /** There is only one such text. */
  lemma TrimmedOnce(blank: char -> bool, s: string, t: string, u: string)
    requires Trimmed(blank, s, t) && Trimmed(blank, s, u)
    ensures t == u
  {
    var a: string, b: string :| Every(blank, a) && Every(blank, b) && s == a + t + b;
    var c: string, d: string :| Every(blank, c) && Every(blank, d) && s == c + u + d;
    if t == "" {
      assert a + b == a + t + b;
      TrimmedNothing(blank, a, b, c, u, d);
    } else if u == "" {
      assert c + d == c + u + d;
      TrimmedNothing(blank, c, d, a, t, b);
    } else {
      TrimmedStarts(blank, a, t, b, c, u, d);
      TrimmedStarts(blank, c, u, d, a, t, b);
      TrimmedEnds(blank, a, t, b, c, u, d);
      TrimmedEnds(blank, c, u, d, a, t, b);
      assert t == s[|a|..|a| + |t|] && u == s[|c|..|c| + |u|];
    }
  }

  lemma StripLeftCuts(s: string)
    ensures var left := StripLeft(s);
            s == s[..|s| - |left|] + left && Every(IsSpace, s[..|s| - |left|])
  {
  }

  lemma StripRightCuts(s: string)
    ensures var t := StripRight(s);
            s == t + s[|t|..] && Every(IsSpace, s[|t|..])
  {
  }

  lemma TrimmedBy(blank: char -> bool, s: string, a: string, left: string, t: string, b: string)
    requires s == a + left && left == t + b && Every(blank, a) && Every(blank, b)
    requires t != "" ==> !blank(t[0]) && !blank(t[|t| - 1])
    ensures Trimmed(blank, s, t)
  {
    Associate(a, t, b);
  }

  lemma StripIs(s: string)
    ensures Trimmed(IsSpace, s, Strip(s))
  {
    var left, t := StripLeft(s), Strip(s);
    StripLeftCuts(s);
    StripRightCuts(left);
    TrimmedBy(IsSpace, s, s[..|s| - |left|], left, t, left[|t|..]);
  }

  lemma BlankIffNothingLeft(s: string)
    ensures Blank(s) <==> Strip(s) == []
  {
    var left := StripLeft(s);
    assert left != [] ==> left[0] == s[|s| - |left|];
  }

  predicate IsDigit(c: char) {
    '0' <= c <= '9'
  }

  function Digit(d: nat): (c: char)
    requires d < 10
    ensures IsDigit(c)
  {
    "0123456789"[d]
  }

  function NatText(n: nat): (r: string)
    ensures r != [] && forall i | 0 <= i < |r| :: IsDigit(r[i])
  {
    if n < 10 then [Digit(n)] else NatText(n / 10) + [Digit(n % 10)]
  }

  /** The number a decimal numeral stands for. */
  function ValueOf(s: string): int {
    if s == [] then 0 else 10 * ValueOf(s[..|s| - 1]) + (s[|s| - 1] as int - '0' as int)
  }

  /** The decimal numeral of a number, without leading zeros. */
  predicate Numeral(s: string, n: nat) {
    s != [] && (s[0] == '0' ==> |s| == 1) && (forall i | 0 <= i < |s| :: IsDigit(s[i])) && ValueOf(s) == n
  }

  lemma DigitIs(d: nat)
    requires d < 10
    ensures Digit(d) as int == '0' as int + d
  {
  }

  lemma {:induction false} NatTextIs(n: nat)
    ensures Numeral(NatText(n), n) && (n > 0 ==> NatText(n)[0] != '0')
  {
    DigitIs(n % 10);
    var s := NatText(n);
    if n >= 10 {
      NatTextIs(n / 10);
      assert s[..|s| - 1] == NatText(n / 10);
    } else {
      assert s[..|s| - 1] == [] && ValueOf([]) == 0;
    }
  }

  lemma {:induction false} NumeralPositive(s: string)
    requires s != [] && s[0] != '0' && forall i | 0 <= i < |s| :: IsDigit(s[i])
    ensures ValueOf(s) > 0
  {
    if |s| > 1 {
      NumeralPositive(s[..|s| - 1]);
    } else {
      assert ValueOf(s[..0]) == 0;
    }
  }

  /** There is only one such numeral. */
  lemma {:induction false} NumeralOnce(s: string, t: string, n: nat)
    requires Numeral(s, n) && Numeral(t, n)
    ensures s == t
    decreases |s|
  {
    var a, b := s[..|s| - 1], t[..|t| - 1];
    assert s == a + [s[|s| - 1]] && t == b + [t[|t| - 1]];
    assert ValueOf(a) == ValueOf(b) && s[|s| - 1] == t[|t| - 1];
    if a != [] {
      NumeralPositive(a);
    }
    if b != [] {
      NumeralPositive(b);
    }
    if a != [] && b != [] {
      NumeralOnce(a, b, ValueOf(a));
    }
  }

  lemma NatTextInjective(a: nat, b: nat)
    requires NatText(a) == NatText(b)
    ensures a == b
  {
    NatTextIs(a);
    NatTextIs(b);
  }

  /** Concatenation may be regrouped. */
  lemma Associate<T>(a: seq<T>, b: seq<T>, c: seq<T>)
    ensures a + (b + c) == (a + b) + c
  {
  }

  // ---- `str.split` ----

  /** `s.split(sep)` for one character. */
  function Split(s: string, sep: char): (r: seq<string>)
    ensures r != []
  {
    if s == [] then [[]]
    else
      var rest := Split(s[1..], sep);
      if s[0] == sep then [[]] + rest else [[s[0]] + rest[0]] + rest[1..]
  }

  lemma {:induction false} SplitNone(p: string, sep: char)
    requires sep !in p
    ensures Split(p, sep) == [p]
  {
    if p != [] {
      SplitNone(p[1..], sep);
      assert p == [p[0]] + p[1..];
    }
  }

  lemma {:induction false} SplitAt(p: string, sep: char, rest: string)
    requires sep !in p
    ensures Split(p + [sep] + rest, sep) == [p] + Split(rest, sep)
  {
    var s := p + [sep] + rest;
    if p == [] {
      assert s == [sep] + rest && s[1..] == rest;
    } else {
      SplitAt(p[1..], sep, rest);
      assert s[1..] == p[1..] + [sep] + rest;
      assert ([p[1..]] + Split(rest, sep))[1..] == Split(rest, sep);
      assert p == [p[0]] + p[1..];
    }
  }
}
