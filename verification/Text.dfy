/** Strings as the program sees them: Unicode scalars, UTF-8 lengths, decimal numbers. */
module Text {

  /** The characters `str::trim` removes. */
  predicate IsWhitespace(c: char) {
    var n := c as int;
    || 0x9 <= n <= 0xD || n == 0x20 || n == 0x85 || n == 0xA0 || n == 0x1680
    || 0x2000 <= n <= 0x200A || n == 0x2028 || n == 0x2029 || n == 0x202F
    || n == 0x205F || n == 0x3000
  }

  function TrimStart(s: string): string {
    if s != "" && IsWhitespace(s[0]) then TrimStart(s[1..]) else s
  }

  function TrimEnd(s: string): string {
    if s != "" && IsWhitespace(s[|s| - 1]) then TrimEnd(s[..|s| - 1]) else s
  }

  function Trim(s: string): string {
    TrimEnd(TrimStart(s))
  }

  predicate Blank(s: string) {
    Trim(s) == ""
  }

  predicate AllWhitespace(s: string) {
    forall c | c in s :: IsWhitespace(c)
  }

  /** `t` is what is left of `s` when white space is taken off both ends until none is there. */
  ghost predicate IsTrimmed(s: string, t: string) {
    && (t != "" ==> !IsWhitespace(t[0]) && !IsWhitespace(t[|t| - 1]))
    && exists front, back :: AllWhitespace(front) && AllWhitespace(back) && s == front + t + back
  }

  lemma {:induction false} TrimStartSplits(s: string) returns (front: string)
    ensures AllWhitespace(front) && s == front + TrimStart(s)
    ensures TrimStart(s) != "" ==> !IsWhitespace(TrimStart(s)[0])
    decreases |s|
  {
    front := "";
    if s != "" && IsWhitespace(s[0]) {
      front := TrimStartSplits(s[1..]);
      front := [s[0]] + front;
      assert s == [s[0]] + s[1..];
    }
  }

  lemma {:induction false} TrimEndSplits(s: string) returns (back: string)
    ensures AllWhitespace(back) && s == TrimEnd(s) + back
    ensures TrimEnd(s) != "" ==> !IsWhitespace(TrimEnd(s)[|TrimEnd(s)| - 1])
    decreases |s|
  {
    back := "";
    if s != "" && IsWhitespace(s[|s| - 1]) {
      back := TrimEndSplits(s[..|s| - 1]);
      back := back + [s[|s| - 1]];
      assert s == s[..|s| - 1] + [s[|s| - 1]];
    }
  }

  /** Trimming takes off all the white space at both ends, and nothing else. */
  lemma TrimIsInnermost(s: string)
    ensures IsTrimmed(s, Trim(s))
  {
    var front := TrimStartSplits(s);
    var back := TrimEndSplits(TrimStart(s));
    var t := Trim(s);
    assert s == front + t + back;
    if t != "" { assert t[0] == TrimStart(s)[0]; }
  }

  lemma NothingSolid(s: string, f: string, t: string, b: string)
    requires s == f + t + b && AllWhitespace(f) && AllWhitespace(b) && (t != "" ==> !IsWhitespace(t[0]))
    ensures AllWhitespace(s) <==> t == ""
  {
    if t != "" { assert s[|f|] == t[0] && s[|f|] in s; }
  }

  lemma SolidIsBehind(s: string, front: string, rest: string, i: nat)
    requires s == front + rest && AllWhitespace(front) && i < |s| && !IsWhitespace(s[i])
    ensures |front| <= i
  {
    assert forall k | 0 <= k < |front| :: s[k] == front[k];
  }

  lemma SolidIsBefore(s: string, rest: string, back: string, i: nat)
    requires s == rest + back && AllWhitespace(back) && i < |s| && !IsWhitespace(s[i])
    ensures i < |rest|
  {
    assert forall k | 0 <= k < |back| :: s[|rest| + k] == back[k];
  }

  lemma FirstSolid(s: string, f: string, t: string, b: string)
    requires s == f + t + b && t != "" && !IsWhitespace(t[0]) && !IsWhitespace(t[|t| - 1])
    ensures |f| < |s| && !IsWhitespace(s[|f|]) && !IsWhitespace(s[|f| + |t| - 1])
  {
    assert s[|f|] == t[0] && s[|f| + |t| - 1] == t[|t| - 1];
  }

  lemma SameInnermost(f: string, t: string, b: string, g: string, u: string, c: string)
    requires AllWhitespace(f) && AllWhitespace(b) && AllWhitespace(g) && AllWhitespace(c)
    requires f + t + b == g + u + c
    requires t != "" ==> !IsWhitespace(t[0]) && !IsWhitespace(t[|t| - 1])
    requires u != "" ==> !IsWhitespace(u[0]) && !IsWhitespace(u[|u| - 1])
    ensures t == u
  {
    var s := f + t + b;
    NothingSolid(s, f, t, b);
    NothingSolid(s, g, u, c);
    if t != "" {
      FirstSolid(s, f, t, b);
      FirstSolid(s, g, u, c);
      assert s == f + (t + b) && s == g + (u + c);
      SolidIsBehind(s, f, t + b, |g|);
      SolidIsBehind(s, g, u + c, |f|);
      SolidIsBefore(s, f + t, b, |g| + |u| - 1);
      SolidIsBefore(s, g + u, c, |f| + |t| - 1);
      assert t == (f + t + b)[|f|..|f| + |t|] && u == (g + u + c)[|g|..|g| + |u|];
    }
  }

  /** There is only one text that is left. */
  lemma TrimmedExactlyWhen(s: string, t: string)
    ensures t == Trim(s) <==> IsTrimmed(s, t)
  {
    TrimIsInnermost(s);
    if IsTrimmed(s, t) {
      var f, b :| AllWhitespace(f) && AllWhitespace(b) && s == f + t + b;
      var g, c :| AllWhitespace(g) && AllWhitespace(c) && s == g + Trim(s) + c;
      SameInnermost(f, t, b, g, Trim(s), c);
    }
  }

  lemma BlankExactlyWhen(s: string)
    ensures Blank(s) <==> AllWhitespace(s)
  {
    assert s == s + "" + "" && AllWhitespace("");
    if AllWhitespace(s) { assert IsTrimmed(s, ""); }
    TrimmedExactlyWhen(s, "");
  }

  lemma TrimKeepsSolid(s: string)
    requires forall c | c in s :: !IsWhitespace(c)
    ensures Trim(s) == s
  {
  }

  function Utf8Len(c: char): nat {
    var n := c as int;
    if n < 0x80 then 1 else if n < 0x800 then 2 else if n < 0x10000 then 3 else 4
  }

  /** `str::len`: bytes, not characters. */
  function ByteLen(s: string): nat {
    if s == "" then 0 else Utf8Len(s[0]) + ByteLen(s[1..])
  }

  predicate IsDigit(c: char) {
    '0' <= c <= '9'
  }

  function Digit(n: nat): char
    requires n < 10
  {
    ('0' as int + n) as char
  }

  function Decimal(n: nat): (s: string)
    ensures s != "" && forall c | c in s :: IsDigit(c)
  {
    if n < 10 then [Digit(n)] else Decimal(n / 10) + [Digit(n % 10)]
  }

  function Value(s: string): nat
    requires forall c | c in s :: IsDigit(c)
  {
    if s == "" then 0
    else
      var last := s[|s| - 1];
      assert last in s && IsDigit(last);
      10 * Value(s[..|s| - 1]) + (last as int - '0' as int)
  }

  lemma {:induction false} ValueOfDecimal(n: nat)
    ensures Value(Decimal(n)) == n
  {
    var s := Decimal(n);
    if n < 10 {
      assert Value(s[..0]) == 0;
    } else {
      assert s[..|s| - 1] == Decimal(n / 10);
      ValueOfDecimal(n / 10);
    }
  }

  function DigitPrefix(s: string): (n: nat)
    ensures n <= |s| && forall i | 0 <= i < n :: IsDigit(s[i])
    ensures n < |s| ==> !IsDigit(s[n])
  {
    if s != "" && IsDigit(s[0]) then 1 + DigitPrefix(s[1..]) else 0
  }

  lemma DigitPrefixOfDecimal(n: nat, rest: string)
    requires rest != "" && !IsDigit(rest[0])
    ensures DigitPrefix(Decimal(n) + rest) == |Decimal(n)|
  {
    var s := Decimal(n) + rest;
    var k := DigitPrefix(s);
    assert forall i | 0 <= i < |Decimal(n)| :: s[i] == Decimal(n)[i] && s[i] in Decimal(n);
    assert s[|Decimal(n)|] == rest[0];
  }
}
