/** Bare JSON web tokens, three base64url segments of which the first starts with `eyJ`, become `***`. */
module JwtRedaction {
  import opened Common
  import opened Cuts

  predicate IsBase64Url(c: char) {
    'A' <= c <= 'Z' || 'a' <= c <= 'z' || '0' <= c <= '9' || c == '_' || c == '-'
  }

  const MASK := "***"

  // ---------------------------------------------------------------- what a token is

  predicate Segment(s: string, from: nat, to: nat) {
    from <= to <= |s| && forall k | from <= k < to :: IsBase64Url(s[k])
  }

  predicate StartsAt(s: string, a: nat) {
    a + 3 <= |s| && s[a] == 'e' && s[a + 1] == 'y' && s[a + 2] == 'J'
  }

  /** A token in compact form starts at `a`: its dots are at `d1` and `d2`. */
  predicate TokenWithDots(s: string, a: nat, d1: nat, d2: nat) {
    && a + 3 <= d1 < d2 && d1 + 1 < d2 && d2 + 1 < |s|
    && StartsAt(s, a)
    && Segment(s, a, d1) && s[d1] == '.'
    && Segment(s, d1 + 1, d2) && s[d2] == '.'
    && IsBase64Url(s[d2 + 1])
  }

  ghost predicate TokenAt(s: string, a: nat) {
    exists d1: nat, d2: nat :: TokenWithDots(s, a, d1, d2)
  }

  ghost predicate TokenFree(s: string) {
    forall a: nat :: !TokenAt(s, a)
  }

  // ---------------------------------------------------------------- what is masked, what is kept

  /** A whole token: from where it starts to the end of its last base64url run. */
  predicate TokenFills(s: string, a: nat, d1: nat, d2: nat, end: nat) {
    TokenWithDots(s, a, d1, d2) && Segment(s, d2 + 1, end) && (end < |s| ==> !IsBase64Url(s[end]))
  }

  ghost predicate MasksToken(s: string, c: Cut) {
    c.put == "***" && exists d1: nat, d2: nat :: TokenFills(s, c.from, d1, d2, c.to)
  }

  /**
  From `at` on, `out` is the text with whole tokens masked: between them every
  character is kept, and no token starts there.
  */
  ghost predicate CutsTokens(s: string, at: nat, cuts: seq<Cut>, out: string) {
    && InOrder(s, at, cuts) && out == Patched(s, at, cuts)
    && (forall x | 0 <= x < |cuts| :: MasksToken(s, cuts[x]))
    && (forall a: nat | at <= a && TokenAt(s, a) :: Within(cuts, a))
  }

  ghost predicate TokensMasked(s: string, out: string) {
    exists cuts :: CutsTokens(s, 0, cuts, out)
  }

  // ---------------------------------------------------------------- the scan

  /** The end of the base64url run that starts at `i`. */
  function Run(s: string, i: nat): (r: nat)
    requires i <= |s|
    ensures i <= r <= |s| && Segment(s, i, r) && (r < |s| ==> !IsBase64Url(s[r]))
    decreases |s| - i
  {
    if i < |s| && IsBase64Url(s[i]) then Run(s, i + 1) else i
  }

  /** Where the token at `i` ends, if one is recognised there. */
  function TokenEnd(s: string, i: nat): (r: Option<nat>)
    requires i < |s|
    ensures r.Some? ==> i < r.value <= |s|
  {
    if StartsAt(s, i) then
      var j := Run(s, i);
      if j < |s| && s[j] == '.' then
        var k := Run(s, j + 1);
        if k < |s| && s[k] == '.' then
          var m := Run(s, k + 1);
          if j - i >= 3 && k - (j + 1) >= 1 && m - (k + 1) >= 1 then Some(m) else None
        else None
      else None
    else None
  }

  function Redact(s: string, i: nat): string
    requires i <= |s|
    decreases |s| - i
  {
    if i == |s| then ""
    else
      var end := TokenEnd(s, i);
      if end.Some? then MASK + Redact(s, end.value) else [s[i]] + Redact(s, i + 1)
  }

  method ScanRun(s: string, i: nat) returns (j: nat)
    requires i <= |s|
    ensures j == Run(s, i)
  {
    j := i;
    while j < |s| && IsBase64Url(s[j])
      invariant i <= j <= |s| && Run(s, i) == Run(s, j)
    {
      j := j + 1;
    }
  }

  method ScanToken(s: string, i: nat) returns (end: Option<nat>)
    requires i < |s|
    ensures end == TokenEnd(s, i)
  {
    if StartsAt(s, i) {
      var j := ScanRun(s, i);
      if j < |s| && s[j] == '.' {
        var k := ScanRun(s, j + 1);
        if k < |s| && s[k] == '.' {
          var m := ScanRun(s, k + 1);
          if j - i >= 3 && k - (j + 1) >= 1 && m - (k + 1) >= 1 { return Some(m); }
        }
      }
    }
    return None;
  }

  // ---------------------------------------------------------------- it finds every token

  lemma {:induction false} RunStopsAt(s: string, i: nat, j: nat)
    requires Segment(s, i, j) && (j < |s| ==> !IsBase64Url(s[j]))
    ensures Run(s, i) == j
    decreases j - i
  {
    if i < j { RunStopsAt(s, i + 1, j); }
  }

  lemma ScanFindsTokens(s: string, i: nat)
    requires i < |s|
    ensures TokenEnd(s, i).Some? <==> TokenAt(s, i)
  {
    if TokenEnd(s, i).Some? {
      var j := Run(s, i);
      var k := Run(s, j + 1);
      assert k + 1 < Run(s, k + 1);
      assert TokenWithDots(s, i, j, k);
    }
    if TokenAt(s, i) {
      var d1: nat, d2: nat :| TokenWithDots(s, i, d1, d2);
      RunStopsAt(s, i, d1);
      RunStopsAt(s, d1 + 1, d2);
    }
  }

  // ---------------------------------------------------------------- text beside a token is kept

  lemma EndIsWhole(s: string, i: nat)
    requires i < |s| && TokenEnd(s, i).Some?
    ensures MasksToken(s, Cut(i, TokenEnd(s, i).value, MASK))
  {
    var j := Run(s, i);
    var k := Run(s, j + 1);
    assert k + 1 < Run(s, k + 1);
    assert TokenFills(s, i, j, k, Run(s, k + 1));
  }

  lemma TokenIsCut(s: string, i: nat, cuts: seq<Cut>)
    requires i < |s| && TokenEnd(s, i).Some?
    requires CutsTokens(s, TokenEnd(s, i).value, cuts, Redact(s, TokenEnd(s, i).value))
    ensures CutsTokens(s, i, [Cut(i, TokenEnd(s, i).value, MASK)] + cuts, Redact(s, i))
  {
    var c := Cut(i, TokenEnd(s, i).value, MASK);
    EndIsWhole(s, i);
    CutOne(s, i, c, cuts);
    forall a: nat | i <= a && TokenAt(s, a) ensures Within([c] + cuts, a) { StaysWithin(c, cuts, a); }
  }

  lemma CharIsKept(s: string, i: nat, cuts: seq<Cut>)
    requires i < |s| && TokenEnd(s, i).None? && CutsTokens(s, i + 1, cuts, Redact(s, i + 1))
    ensures CutsTokens(s, i, cuts, Redact(s, i))
  {
    KeepOne(s, i, cuts);
    ScanFindsTokens(s, i);
  }

  lemma {:induction false} RedactCutsTokens(s: string, i: nat) returns (cuts: seq<Cut>)
    requires i <= |s|
    ensures CutsTokens(s, i, cuts, Redact(s, i))
    decreases |s| - i
  {
    if i == |s| {
      cuts := [];
    } else if TokenEnd(s, i).Some? {
      var end := TokenEnd(s, i).value;
      cuts := RedactCutsTokens(s, end);
      TokenIsCut(s, i, cuts);
      cuts := [Cut(i, end, MASK)] + cuts;
    } else {
      cuts := RedactCutsTokens(s, i + 1);
      CharIsKept(s, i, cuts);
    }
  }

  /** The output is the text with its tokens masked and everything beside them kept. */
  lemma TextBesideTokensStays(s: string)
    ensures TokensMasked(s, Redact(s, 0))
  {
    var cuts := RedactCutsTokens(s, 0);
  }

  lemma TokenHasOneEnd(s: string, c: Cut, d: Cut)
    requires MasksToken(s, c) && MasksToken(s, d) && c.from == d.from
    ensures c == d
  {
    var c1: nat, c2: nat :| TokenFills(s, c.from, c1, c2, c.to);
    var d1: nat, d2: nat :| TokenFills(s, d.from, d1, d2, d.to);
    RunStopsAt(s, c.from, c1);
    RunStopsAt(s, c.from, d1);
    RunStopsAt(s, c1 + 1, c2);
    RunStopsAt(s, c1 + 1, d2);
    RunStopsAt(s, c2 + 1, c.to);
    RunStopsAt(s, c2 + 1, d.to);
  }

  lemma CutsStartWithin(s: string, xs: seq<Cut>, out: string, ys: seq<Cut>, other: string)
    requires CutsTokens(s, 0, xs, out) && CutsTokens(s, 0, ys, other)
    ensures StartsWithin(xs, ys)
  {
    forall x | 0 <= x < |xs| ensures Within(ys, xs[x].from) {
      var d1: nat, d2: nat :| TokenFills(s, xs[x].from, d1, d2, xs[x].to);
      assert TokenAt(s, xs[x].from);
    }
  }

  lemma TokensAreCutOneWay(s: string, xs: seq<Cut>, out: string, ys: seq<Cut>, other: string)
    requires CutsTokens(s, 0, xs, out) && CutsTokens(s, 0, ys, other)
    ensures OneAtEachPlace(xs, ys)
  {
    forall x, y | 0 <= x < |xs| && 0 <= y < |ys| && xs[x].from == ys[y].from ensures xs[x] == ys[y] {
      TokenHasOneEnd(s, xs[x], ys[y]);
    }
  }

  /** There is only one text with the tokens masked and everything beside them kept. */
  lemma OneMaskedText(s: string, out: string, other: string)
    requires TokensMasked(s, out) && TokensMasked(s, other)
    ensures out == other
  {
    var xs: seq<Cut> :| CutsTokens(s, 0, xs, out);
    var ys: seq<Cut> :| CutsTokens(s, 0, ys, other);
    CutsStartWithin(s, xs, out, ys, other);
    CutsStartWithin(s, ys, other, xs, out);
    TokensAreCutOneWay(s, xs, out, ys, other);
    OneWayToCut(s, 0, xs, ys);
  }

  method RedactBareJwts(s: string) returns (out: string)
    ensures out == Redact(s, 0)
    ensures TokensMasked(s, out)
  {
    out := "";
    var i: nat := 0;
    while i < |s|
      invariant i <= |s| && Redact(s, 0) == out + Redact(s, i)
    {
      var end := ScanToken(s, i);
      if end.Some? {
        out := out + MASK;
        i := end.value;
      } else {
        out := out + [s[i]];
        i := i + 1;
      }
    }
    TextBesideTokensStays(s);
  }

  // ---------------------------------------------------------------- none is left

  predicate NoMask(s: string, n: nat)
    requires n <= |s|
  {
    forall x | 0 <= x < n :: s[x] != '*'
  }

  /** The output one step on. */
  lemma OneCopied(s: string, i: nat, n: nat)
    requires i < |s| && 0 < n <= |Redact(s, i)| && NoMask(Redact(s, i), n)
    ensures Redact(s, i) == [s[i]] + Redact(s, i + 1) && NoMask(Redact(s, i + 1), n - 1)
  {
    var r, rest := Redact(s, i), Redact(s, i + 1);
    assert r[0] != '*';
    assert r == [s[i]] + rest;
    forall x | 0 <= x < n - 1 ensures rest[x] != '*' { assert r[x + 1] == rest[x]; }
  }

  lemma Chain(s: string, i: nat, j: nat, whole: string, rest: string, tail: string)
    requires i < j <= |s| && whole == [s[i]] + rest && rest == s[i + 1..j] + tail
    ensures whole == s[i..j] + tail
  {
    assert s[i..j] == [s[i]] + s[i + 1..j];
  }

  lemma {:induction false} UnmaskedIsInput(s: string, i: nat, n: nat)
    requires i <= |s| && n <= |Redact(s, i)| && NoMask(Redact(s, i), n)
    ensures i + n <= |s| && Redact(s, i) == s[i..i + n] + Redact(s, i + n)
    decreases n
  {
    if n > 0 {
      OneCopied(s, i, n);
      UnmaskedIsInput(s, i + 1, n - 1);
      Chain(s, i, i + n, Redact(s, i), Redact(s, i + 1), Redact(s, i + n));
    }
  }

  /** As long as the output shows no mask, it is the input. */
  lemma CopiesUntilMask(s: string, i: nat, n: nat)
    requires i <= |s| && n <= |Redact(s, i)| && NoMask(Redact(s, i), n)
    ensures i + n <= |s| && Redact(s, i)[..n] == s[i..i + n]
    ensures Redact(s, i)[n..] == Redact(s, i + n)
  {
    UnmaskedIsInput(s, i, n);
  }

  lemma TokenShowsNoMask(r: string, d1: nat, d2: nat)
    requires TokenWithDots(r, 0, d1, d2)
    ensures NoMask(r, d2 + 2)
  {
    forall x | 0 <= x < d2 + 2 ensures r[x] != '*' {
      assert x < d1 || x == d1 || d1 < x < d2 || x == d2 || x == d2 + 1;
    }
  }

  lemma TokenMoves(s: string, a: nat, t: string, b: nat, d1: nat, d2: nat)
    requires TokenWithDots(s, a, a + d1, a + d2)
    requires b + d2 + 2 <= |t| && s[a..a + d2 + 2] == t[b..b + d2 + 2]
    ensures TokenWithDots(t, b, b + d1, b + d2)
  {
    forall k | b <= k < b + d2 + 2 ensures t[k] == s[k - b + a] {
      assert s[a..a + d2 + 2][k - b] == t[b..b + d2 + 2][k - b];
    }
  }

  /** A token at the head of the rest of the output is one of the input. */
  lemma HeadTokenIsInput(s: string, i: nat)
    requires i < |s| && TokenEnd(s, i).None?
    ensures !TokenAt(Redact(s, i), 0)
  {
    var r := Redact(s, i);
    if TokenAt(r, 0) {
      var d1: nat, d2: nat :| TokenWithDots(r, 0, d1, d2);
      TokenShowsNoMask(r, d1, d2);
      CopiesUntilMask(s, i, d2 + 2);
      TokenMoves(r, 0, s, i, d1, d2);
      ScanFindsTokens(s, i);
    }
  }

  lemma TokenShifts(x: string, y: string, a: nat)
    requires TokenAt(x + y, a) && a >= |x|
    ensures TokenAt(y, a - |x|)
  {
    var d1: nat, d2: nat :| TokenWithDots(x + y, a, d1, d2);
    TokenMoves(x + y, a, y, a - |x|, d1 - a, d2 - a);
    assert TokenWithDots(y, a - |x|, d1 - |x|, d2 - |x|);
  }

  lemma {:induction false} RestIsTokenFree(s: string, i: nat)
    requires i <= |s|
    ensures TokenFree(Redact(s, i))
    decreases |s| - i
  {
    var r := Redact(s, i);
    if i < |s| {
      var end := TokenEnd(s, i);
      var head := if end.Some? then MASK else [s[i]];
      var next := if end.Some? then end.value else i + 1;
      RestIsTokenFree(s, next);
      forall a: nat ensures !TokenAt(r, a) {
        assert end.Some? && a < |MASK| ==> r[a] == '*';
        if TokenAt(r, a) && a >= |head| {
          TokenShifts(head, Redact(s, next), a);
        } else if end.None? {
          HeadTokenIsInput(s, i);
        }
      }
    }
  }

  lemma {:induction false} KeepsTokenFree(s: string, i: nat)
    requires i <= |s| && TokenFree(s)
    ensures Redact(s, i) == s[i..]
    decreases |s| - i
  {
    if i < |s| {
      ScanFindsTokens(s, i);
      KeepsTokenFree(s, i + 1);
    }
  }

  /**
  The output holds no token; the text is unchanged exactly when it held none;
  and redacting again changes nothing.
  */
  lemma NoJwtIsLeft(s: string)
    ensures TokenFree(Redact(s, 0))
    ensures Redact(s, 0) == s <==> TokenFree(s)
    ensures Redact(Redact(s, 0), 0) == Redact(s, 0)
  {
    RestIsTokenFree(s, 0);
    if TokenFree(s) { KeepsTokenFree(s, 0); }
    KeepsTokenFree(Redact(s, 0), 0);
  }
}
