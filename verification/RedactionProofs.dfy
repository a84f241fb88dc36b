/** What the two redaction passes leave behind: no token, and no exposed value. */
module RedactionProofs {
  import opened Common
  import J = JwtRedaction
  import opened QueryRedaction

  // ---------------------------------------------------------------- text that is already redacted

  lemma MaskEnds(s: string, v: nat)
    requires MaskedAt(s, v)
    ensures ValueEnd(s, v) == v + 3
  {
    assert ValueEnd(s, v + 1) == ValueEnd(s, v);
    assert ValueEnd(s, v + 2) == ValueEnd(s, v + 1);
    assert ValueEnd(s, v + 3) == v + 3;
  }

  lemma HiddenIsRewritten(s: string, i: nat, key: string)
    requires i < |s| && Hidden(s, KeyStart(s, i), key)
    ensures s[i..KeyStart(s, i) + |key| + 4] == Written(s, i, key)
  {
    var q := KeyStart(s, i);
    var v := q + |key| + 1;
    assert s[v..v + 3] == J.MASK;
    assert s[q..v + 3] == s[q..q + |key|] + [s[q + |key|]] + s[v..v + 3];
    assert s[i..v + 3] == s[i..q] + s[q..v + 3];
  }

  lemma HiddenMatch(rules: Rules, s: string, i: nat)
    requires PlainRules(rules) && AllHidden(rules, s) && i < |s| && Match(rules, s, i).Some?
    ensures var key := Match(rules, s, i).value;
            var end := KeyStart(s, i) + |key| + 4;
            end <= |s| && ValueEnd(s, end - 3) == end && s[i..end] == Written(s, i, key)
  {
    var key := Match(rules, s, i).value;
    MatchIsExposed(rules, s, i, key);
    MaskEnds(s, KeyStart(s, i) + |key| + 1);
    HiddenIsRewritten(s, i, key);
  }

  /** A match over redacted text writes what was there. */
  lemma MatchCopies(rules: Rules, s: string, i: nat)
    requires PlainRules(rules) && AllHidden(rules, s) && i < |s| && Match(rules, s, i).Some?
    ensures var end := KeyStart(s, i) + |Match(rules, s, i).value| + 4;
            i < end <= |s| && RedactFrom(rules, s, i) == s[i..end] + RedactFrom(rules, s, end)
  {
    HiddenMatch(rules, s, i);
    MatchWrites(rules, s, i);
  }

  lemma MissCopies(rules: Rules, s: string, i: nat)
    requires i < |s| && Match(rules, s, i).None?
    ensures RedactFrom(rules, s, i) == s[i..i + 1] + RedactFrom(rules, s, i + 1)
  {
    assert s[i..i + 1] == [s[i]];
  }

  lemma MatchIsKept(rules: Rules, s: string, i: nat, end: nat)
    requires PlainRules(rules) && AllHidden(rules, s) && i < |s| && Match(rules, s, i).Some?
    requires end == KeyStart(s, i) + |Match(rules, s, i).value| + 4
    requires i < end <= |s| ==> RedactFrom(rules, s, end) == s[end..]
    ensures i < end <= |s| && RedactFrom(rules, s, i) == s[i..]
  {
    MatchCopies(rules, s, i);
    Glue(s, i, end, RedactFrom(rules, s, i), RedactFrom(rules, s, end));
  }

  lemma MissIsKept(rules: Rules, s: string, i: nat)
    requires i < |s| && Match(rules, s, i).None? && RedactFrom(rules, s, i + 1) == s[i + 1..]
    ensures RedactFrom(rules, s, i) == s[i..]
  {
    MissCopies(rules, s, i);
    Glue(s, i, i + 1, RedactFrom(rules, s, i), RedactFrom(rules, s, i + 1));
  }

  lemma {:induction false} KeepsHidden(rules: Rules, s: string, i: nat)
    requires PlainRules(rules) && AllHidden(rules, s) && i <= |s|
    ensures RedactFrom(rules, s, i) == s[i..]
    decreases |s| - i
  {
    if i < |s| {
      if Match(rules, s, i).Some? {
        var end := KeyStart(s, i) + |Match(rules, s, i).value| + 4;
        if i < end <= |s| { KeepsHidden(rules, s, end); }
        MatchIsKept(rules, s, i, end);
      } else {
        KeepsHidden(rules, s, i + 1);
        MissIsKept(rules, s, i);
      }
    }
  }

  lemma Glue(s: string, i: nat, j: nat, whole: string, tail: string)
    requires i < j <= |s| && whole == s[i..j] + tail && tail == s[j..]
    ensures whole == s[i..]
  {
  }

  // ---------------------------------------------------------------- what the scan copies

  predicate NoDelimiter(s: string, n: nat)
    requires n <= |s|
  {
    forall x | 0 <= x < n :: !Delimiter(s[x])
  }

  lemma Cons(c: char, rest: string, n: nat)
    requires 0 < n <= |rest| + 1
    ensures ([c] + rest)[..n] == [c] + rest[..n - 1]
    ensures NoDelimiter([c] + rest, n) ==> NoDelimiter(rest, n - 1)
  {
    if NoDelimiter([c] + rest, n) {
      forall x | 0 <= x < n - 1 ensures !Delimiter(rest[x]) { assert ([c] + rest)[x + 1] == rest[x]; }
    }
  }

  /** After the start, a match begins with its delimiter. */
  lemma FirstIsCopied(rules: Rules, s: string, i: nat)
    requires 0 < i < |s|
    ensures RedactFrom(rules, s, i) != "" && RedactFrom(rules, s, i)[0] == s[i]
    ensures !Delimiter(s[i]) ==> RedactFrom(rules, s, i) == [s[i]] + RedactFrom(rules, s, i + 1)
  {
  }

  lemma {:induction false} CopiesUntilDelimiter(rules: Rules, s: string, i: nat, n: nat)
    requires 0 < i <= |s| && n <= |RedactFrom(rules, s, i)| && NoDelimiter(RedactFrom(rules, s, i), n)
    ensures i + n <= |s| && s[i..i + n] == RedactFrom(rules, s, i)[..n]
    decreases n
  {
    if n > 0 {
      FirstIsCopied(rules, s, i);
      assert !Delimiter(RedactFrom(rules, s, i)[0]);
      Cons(s[i], RedactFrom(rules, s, i + 1), n);
      CopiesUntilDelimiter(rules, s, i + 1, n - 1);
      assert s[i..i + n] == [s[i]] + s[i + 1..i + n];
    }
  }

  /** The characters of a key and its `=`. */
  lemma KeyText(s: string, q: nat, key: string, x: nat)
    requires KeyAt(s, q, key) && PlainKey(key) && x <= |key|
    ensures !Delimiter(s[q + x]) && s[q + x] != '*'
  {
    if x < |key| {
      assert KeyChar(key[x]);
      KeyCharAt(s, q, key, x);
    }
  }

  lemma KeyMoves(s: string, q: nat, t: string, j: nat, key: string)
    requires KeyAt(s, q, key) && j + |key| < |t|
    requires s[q..q + |key| + 1] == t[j..j + |key| + 1]
    ensures KeyAt(t, j, key) && (Spelled(t, j, key) <==> Spelled(s, q, key))
  {
    var n := |key| + 1;
    forall y | j <= y < j + n ensures t[y] == s[y - j + q] {
      assert s[q..q + n][y - j] == t[j..j + n][y - j];
    }
    forall x | 0 <= x < |key| ensures Lower(t[j + x]) == Lower(key[x]) {
      assert Lower(s[q + x]) == Lower(key[x]);
    }
    assert s[q..q + |key|] == s[q..q + |key| + 1][..|key|];
    assert t[j..j + |key|] == t[j..j + |key| + 1][..|key|];
  }

  // ---------------------------------------------------------------- no exposed value is left

  /** `r` goes on from `p` as the scan goes on from `i`. */
  ghost predicate Follows(rules: Rules, s: string, i: nat, r: string, p: nat) {
    i <= |s| && p <= |r| && r[p..] == RedactFrom(rules, s, i) && (i == 0 <==> p == 0)
  }

  /** A piece of the output that shows no delimiter is a piece of the input. */
  lemma PieceIsCopied(rules: Rules, s: string, i: nat, r: string, p: nat, n: nat)
    requires 0 < i <= |s| && p + n <= |r| && r[p..] == RedactFrom(rules, s, i)
    requires forall x | p <= x < p + n :: !Delimiter(r[x])
    ensures i + n <= |s| && s[i..i + n] == r[p..p + n]
  {
    var rest := RedactFrom(rules, s, i);
    forall x | 0 <= x < n ensures !Delimiter(rest[x]) { assert rest[x] == r[p + x]; }
    CopiesUntilDelimiter(rules, s, i, n);
    assert r[p..p + n] == r[p..][..n];
  }

  lemma KeyHasNoDelimiter(s: string, q: nat, key: string)
    requires KeyAt(s, q, key) && PlainKey(key)
    ensures forall x | q <= x <= q + |key| :: !Delimiter(s[x]) && s[x] != '*'
  {
    forall x | q <= x <= q + |key| ensures !Delimiter(s[x]) && s[x] != '*' { KeyText(s, q, key, x - q); }
  }

  lemma UnmatchedIsCopied(rules: Rules, s: string, i: nat, r: string, p: nat)
    requires Follows(rules, s, i, r, p) && i < |s| && Match(rules, s, i).None?
    ensures p < |r| && r[p] == s[i] && Follows(rules, s, i + 1, r, p + 1)
  {
    assert r[p..] == [s[i]] + RedactFrom(rules, s, i + 1);
    assert r[p] == r[p..][0];
    assert r[p + 1..] == r[p..][1..];
  }

  /** An exposed key in front of which nothing was rewritten was exposed in the input, hence matched. */
  lemma CopiedKeyIsMatched(rules: Rules, s: string, i: nat, r: string, p: nat, q: nat, key: string)
    requires PlainRules(rules) && Follows(rules, s, i, r, p) && i < |s|
    requires (q == p + 1 || q == p == 0) && Exposed(rules, r, q, key)
    ensures Match(rules, s, i).Some?
  {
    if Match(rules, s, i).None? {
      UnmatchedIsCopied(rules, s, i, r, p);
      KeyHasNoDelimiter(r, q, key);
      if q == 0 {
        StartIsCopied(rules, s, r, key);
      } else {
        PieceIsCopied(rules, s, i + 1, r, p + 1, |key| + 1);
        KeyMoves(r, q, s, i + 1, key);
      }
      MatchIsExposed(rules, s, i, key);
    }
  }

  lemma StartIsCopied(rules: Rules, s: string, r: string, key: string)
    requires PlainKey(key) && KeyAt(r, 0, key)
    requires s != "" && r[0] == s[0] && Follows(rules, s, 1, r, 1)
    ensures KeyAt(s, 0, key)
  {
    KeyHasNoDelimiter(r, 0, key);
    var n := |key| + 1;
    PieceIsCopied(rules, s, 1, r, 1, n - 1);
    assert r[0..n] == [r[0]] + r[1..n];
    assert s[0..n] == [s[0]] + s[1..n];
    KeyMoves(r, 0, s, 0, key);
  }

  /** `key=***` stands at `q`, spelled as listed, with `rest` behind it. */
  predicate Shows(r: string, q: nat, key: string, rest: string) {
    && KeyAt(r, q, key) && Spelled(r, q, key) && q + |key| + 4 <= |r|
    && r[q + |key| + 1] == '*' && r[q + |key| + 2] == '*' && r[q + |key| + 3] == '*'
    && r[q + |key| + 4..] == rest
  }

  /** What a match wrote, seen in the output at `p`. */
  lemma WrittenAt(s: string, i: nat, key: string, r: string, p: nat, rest: string, q: nat)
    requires i < |s| && p <= |r| && r[p..] == Written(s, i, key) + rest && q == p + KeyStart(s, i) - i
    ensures |Written(s, i, key)| == q - p + |key| + 4
    ensures Shows(r, q, key, rest) && (q > p ==> r[p] == s[i])
  {
    var w := Written(s, i, key);
    assert r[p..] == w + rest;
    forall x | 0 <= x < |w| ensures r[p + x] == w[x] { assert r[p..][x] == (w + rest)[x]; }
    assert w == s[i..KeyStart(s, i)] + key + "=" + J.MASK;
    forall x | 0 <= x < |key| ensures r[q + x] == key[x] { assert r[p + (q - p + x)] == w[q - p + x]; }
    assert r[q..q + |key|] == key;
    assert w[q - p + |key|] == '=' && w[q - p + |key| + 1] == w[q - p + |key| + 2] == w[q - p + |key| + 3] == '*';
    assert r[p + |w|..] == r[p..][|w|..];
  }

  lemma ShownHasNoDelimiter(r: string, q: nat, k: string, rest: string)
    requires Shows(r, q, k, rest) && PlainKey(k)
    ensures forall x | q <= x < q + |k| + 4 :: !Delimiter(r[x])
  {
    KeyHasNoDelimiter(r, q, k);
  }

  /** No key is exposed behind the one a match wrote, up to the end of the mask. */
  lemma NotExposedInside(rules: Rules, r: string, at: nat, k: string, rest: string, q: nat, key: string)
    requires Shows(r, at, k, rest) && PlainKey(k) && at < q <= at + |k| + 4
    ensures !Exposed(rules, r, q, key)
  {
    ShownHasNoDelimiter(r, at, k, rest);
  }

  lemma SameKey(rules: Rules, r: string, q: nat, k: string, rest: string, key: string)
    requires Shows(r, q, k, rest) && Exposed(rules, r, q, key) && PlainKey(k) && PlainKey(key)
    ensures key == k
  {
    OneKeyAt(r, q, k, key);
  }

  lemma NoDelimiterAtKey(rules: Rules, r: string, q: nat, key: string)
    requires Exposed(rules, r, q, key) && PlainKey(key)
    ensures q < |r| && !Delimiter(r[q])
  {
    KeyText(r, q, key, 0);
  }

  /** The only key exposed in what a match wrote is the one it wrote. */
  lemma OnlyItsKey(rules: Rules, s: string, i: nat, k: string, r: string, p: nat, rest: string, q: nat, key: string)
    requires i < |s| && p <= |r| && r[p..] == Written(s, i, k) + rest && PlainKey(k) && PlainKey(key)
    requires From(p, q) && q <= p + |Written(s, i, k)| && Exposed(rules, r, q, key)
    ensures key == k && Shows(r, q, k, rest)
  {
    var at := p + KeyStart(s, i) - i;
    WrittenAt(s, i, k, r, p, rest, at);
    NoDelimiterAtKey(rules, r, q, key);
    if q > at { NotExposedInside(rules, r, at, k, rest, q, key); }
    SameKey(rules, r, at, k, rest, key);
  }

  lemma MatchedKeyIsHidden(rules: Rules, s: string, i: nat, r: string, p: nat, q: nat, key: string)
    requires PlainRules(rules) && Follows(rules, s, i, r, p) && i < |s| && Match(rules, s, i).Some?
    requires From(p, q) && q <= p + |Written(s, i, Match(rules, s, i).value)|
    requires Exposed(rules, r, q, key)
    ensures Hidden(r, q, key)
  {
    var k := Match(rules, s, i).value;
    MatchIsExposed(rules, s, i, k);
    var end := ValueEnd(s, KeyStart(s, i) + |k| + 1);
    var rest := RedactFrom(rules, s, end);
    OnlyItsKey(rules, s, i, k, r, p, rest, q, key);
    if end < |s| { FirstIsCopied(rules, s, end); }
    ShownIsHidden(r, q, k, rest);
  }

  lemma ShownIsHidden(r: string, q: nat, k: string, rest: string)
    requires Shows(r, q, k, rest) && (rest != "" ==> Terminator(rest[0]))
    ensures Hidden(r, q, k)
  {
    if q + |k| + 4 < |r| { assert r[q + |k| + 4..][0] == r[q + |k| + 4]; }
  }

  lemma {:induction false} ExposedIsHidden(rules: Rules, s: string, i: nat, r: string, p: nat, q: nat, key: string)
    requires PlainRules(rules) && Follows(rules, s, i, r, p) && From(p, q) && Exposed(rules, r, q, key)
    ensures Hidden(r, q, key)
    decreases |s| - i
  {
    assert i < |s| by { assert |r[p..]| > 0; }
    var m := Match(rules, s, i);
    if m.None? {
      UnmatchedIsCopied(rules, s, i, r, p);
      if q == p + 1 || q == 0 {
        CopiedKeyIsMatched(rules, s, i, r, p, q, key);
      } else {
        ExposedIsHidden(rules, s, i + 1, r, p + 1, q, key);
      }
    } else {
      var w := |Written(s, i, m.value)|;
      var end := ValueEnd(s, KeyStart(s, i) + |m.value| + 1);
      if q <= p + w {
        MatchedKeyIsHidden(rules, s, i, r, p, q, key);
      } else {
        assert r[p + w..] == r[p..][w..] == RedactFrom(rules, s, end);
        ExposedIsHidden(rules, s, end, r, p + w, q, key);
      }
    }
  }

  /**
  In the output every listed key at a boundary, in any case, is spelled as
  listed and its value is the mask up to a terminator or the end. The text is
  unchanged exactly when that was so before, and a second pass changes nothing.
  */
  lemma QueryValuesAreHidden(rules: Rules, s: string)
    requires PlainRules(rules)
    ensures AllHidden(rules, RedactFrom(rules, s, 0))
    ensures RedactFrom(rules, s, 0) == s <==> AllHidden(rules, s)
    ensures RedactFrom(rules, RedactFrom(rules, s, 0), 0) == RedactFrom(rules, s, 0)
  {
    var r := RedactFrom(rules, s, 0);
    forall q: nat, key: string | Exposed(rules, r, q, key) ensures Hidden(r, q, key) {
      assert r[0..] == r;
      ExposedIsHidden(rules, s, 0, r, 0, q, key);
    }
    KeepsHidden(rules, r, 0);
    if AllHidden(rules, s) { KeepsHidden(rules, s, 0); }
  }

  // ---------------------------------------------------------------- the token pass keeps it so

  /** Masks and terminators do not start a token, so they are copied. */
  lemma MaskIsCopied(t: string, v: nat)
    requires MaskedAt(t, v)
    ensures MaskedAt(J.Redact(t, v), 0)
  {
    assert J.Redact(t, v) == [t[v]] + J.Redact(t, v + 1);
    assert J.Redact(t, v + 1) == [t[v + 1]] + J.Redact(t, v + 2);
    assert J.Redact(t, v + 2) == [t[v + 2]] + J.Redact(t, v + 3);
    assert v + 3 < |t| ==> J.Redact(t, v + 3) == [t[v + 3]] + J.Redact(t, v + 4);
  }

  lemma MaskSurvives(t: string, v: nat, r: string, u: nat)
    requires MaskedAt(t, v) && u <= |r| && r[u..] == J.Redact(t, v)
    ensures MaskedAt(r, u)
  {
    MaskIsCopied(t, v);
    var rest := r[u..];
    assert rest[0] == r[u] && rest[1] == r[u + 1] && rest[2] == r[u + 2];
    assert 3 < |rest| ==> rest[3] == r[u + 3];
  }

  /** A piece of the output that shows no mask is a piece of the input. */
  lemma PieceSurvives(t: string, j: nat, r: string, q: nat, n: nat)
    requires j <= |t| && q + n <= |r| && r[q..] == J.Redact(t, j)
    requires forall x | q <= x < q + n :: r[x] != '*'
    ensures j + n <= |t| && r[q..q + n] == t[j..j + n] && r[q + n..] == J.Redact(t, j + n)
  {
    var rest := J.Redact(t, j);
    forall x | 0 <= x < n ensures rest[x] != '*' { assert rest[x] == r[q + x]; }
    J.CopiesUntilMask(t, j, n);
    assert r[q..q + n] == r[q..][..n];
    assert r[q + n..] == r[q..][n..];
  }

  /** A key that shows at `q` was copied from `j`, with what follows it. */
  lemma KeyIsCopied(t: string, j: nat, r: string, q: nat, key: string, n: nat)
    requires PlainKey(key) && KeyAt(r, q, key) && n == |key| + 1
    requires j <= |t| && r[q..] == J.Redact(t, j)
    ensures j + n <= |t| && r[q..q + n] == t[j..j + n] && r[q + n..] == J.Redact(t, j + n)
  {
    assert forall x | q <= x < q + n :: r[x] != '*' by { KeyHasNoDelimiter(r, q, key); }
    PieceSurvives(t, j, r, q, n);
  }

  lemma MaskBehindSurvives(t: string, j: nat, r: string, q: nat, key: string, n: nat)
    requires n == |key| + 1 && KeyAt(r, q, key) && Spelled(r, q, key)
    requires MaskedAt(t, j + n) && r[q + n..] == J.Redact(t, j + n)
    ensures Hidden(r, q, key)
  {
    MaskSurvives(t, j + n, r, q + n);
  }

  /** A key the token pass leaves exposed at `q` was hidden at `j`, and still is. */
  lemma KeySurvives(t: string, j: nat, r: string, q: nat, key: string)
    requires PlainKey(key) && KeyAt(r, q, key)
    requires j <= |t| && r[q..] == J.Redact(t, j)
    ensures KeyAt(t, j, key)
    ensures Hidden(t, j, key) ==> Hidden(r, q, key)
  {
    var n := |key| + 1;
    KeyIsCopied(t, j, r, q, key, n);
    assert KeyAt(t, j, key) && (Spelled(t, j, key) <==> Spelled(r, q, key)) by { KeyMoves(r, q, t, j, key); }
    if Hidden(t, j, key) { MaskBehindSurvives(t, j, r, q, key, n); }
  }

  /** One turn of the token pass: a mask, or one character as it is. */
  lemma TokenPassStep(t: string, i: nat, r: string, p: nat) returns (next: nat, p': nat)
    requires i < |t| && p <= |r| && r[p..] == J.Redact(t, i)
    ensures i < next <= |t| && p < p' <= |r| && r[p'..] == J.Redact(t, next)
    ensures if J.TokenEnd(t, i).Some? then forall x | p <= x < p' :: r[x] == '*'
            else next == i + 1 && p' == p + 1 && r[p] == t[i]
  {
    var end := J.TokenEnd(t, i);
    var head := if end.Some? then J.MASK else [t[i]];
    next := if end.Some? then end.value else i + 1;
    p' := p + |head|;
    assert r[p..] == head + J.Redact(t, next);
    assert r[p'..] == r[p..][|head|..] == J.Redact(t, next);
    forall x | p <= x < p' ensures r[x] == head[x - p] { assert r[p..][x - p] == r[x]; }
  }

  /** The key after a copied delimiter. */
  lemma NeighbourSurvives(rules: Rules, t: string, j: nat, r: string, q: nat, key: string)
    requires PlainRules(rules) && AllHidden(rules, t) && Exposed(rules, r, q, key) && q > 0
    requires 0 < j <= |t| && r[q..] == J.Redact(t, j) && t[j - 1] == r[q - 1]
    ensures Hidden(r, q, key)
  {
    KeySurvives(t, j, r, q, key);
    assert Exposed(rules, t, j, key);
  }

  lemma {:induction false} StillHidden(rules: Rules, t: string, i: nat, r: string, p: nat, q: nat, key: string)
    requires PlainRules(rules) && AllHidden(rules, t)
    requires i <= |t| && p <= |r| && r[p..] == J.Redact(t, i) && (i == 0 <==> p == 0)
    requires From(p, q) && Exposed(rules, r, q, key)
    ensures Hidden(r, q, key)
    decreases |t| - i
  {
    assert i < |t| by { assert |r[p..]| > 0; }
    if q == 0 {
      KeySurvives(t, 0, r, 0, key);
      assert Exposed(rules, t, 0, key);
    } else {
      var next, p' := TokenPassStep(t, i, r, p);
      if q > p' {
        StillHidden(rules, t, next, r, p', q, key);
      } else {
        assert !Delimiter('*');
        NeighbourSurvives(rules, t, i + 1, r, q, key);
      }
    }
  }

  // ---------------------------------------------------------------- both passes, with the program's keys

  const TOKEN_KEYS: seq<string> :=
    ["token", "access_token", "accesstoken", "refresh_token", "refreshtoken", "id_token", "idtoken"]

  const PASSWORD_KEYS: seq<string> :=
    ["password", "passwd", "pwd", "api_key", "apikey", "client_secret", "clientsecret", "tokenvalue"]

  const SESSION_KEYS: seq<string> :=
    ["local-auth-workspace", "x-csrf-token", "passcode", "passcodereferenceid", "secret"]

  const RULES := Rules(TOKEN_KEYS + PASSWORD_KEYS + SESSION_KEYS, ["code", "sig"])

  lemma TokenKeysArePlain(key: string)
    requires key in TOKEN_KEYS
    ensures PlainKey(key)
  {
    var x :| 0 <= x < |TOKEN_KEYS| && TOKEN_KEYS[x] == key;
  }

  lemma PasswordKeysArePlain(key: string)
    requires key in PASSWORD_KEYS
    ensures PlainKey(key)
  {
    var x :| 0 <= x < |PASSWORD_KEYS| && PASSWORD_KEYS[x] == key;
  }

  lemma SessionKeysArePlain(key: string)
    requires key in SESSION_KEYS
    ensures PlainKey(key)
  {
    var x :| 0 <= x < |SESSION_KEYS| && SESSION_KEYS[x] == key;
  }

  lemma RulesArePlain()
    ensures PlainRules(RULES)
  {
    forall key | key in RULES.anywhere || key in RULES.inQuery ensures PlainKey(key) {
      if key in TOKEN_KEYS { TokenKeysArePlain(key); }
      else if key in PASSWORD_KEYS { PasswordKeysArePlain(key); }
      else if key in SESSION_KEYS { SessionKeysArePlain(key); }
    }
  }

  /** The two passes in the program's order. */
  function RedactText(s: string): string {
    J.Redact(RedactFrom(RULES, s, 0), 0)
  }

  /** Every exposed value and then every token is masked; all text beside them is kept. */
  ghost predicate BothMasked(s: string, out: string) {
    exists t :: PairsMasked(RULES, s, t) && J.TokensMasked(t, out)
  }

  method RunBothPasses(s: string) returns (out: string)
    ensures out == RedactText(s) && BothMasked(s, out)
  {
    RulesArePlain();
    var t := RedactQueryParams(RULES, s);
    out := J.RedactBareJwts(t);
    assert PairsMasked(RULES, s, t) && J.TokensMasked(t, out);
  }

  /** No other text is `s` with these masked and everything beside them kept. */
  lemma RedactedTextIsDetermined(s: string, out: string)
    ensures BothMasked(s, out) <==> out == RedactText(s)
  {
    RulesArePlain();
    var t := RedactFrom(RULES, s, 0);
    TextBesideValuesStays(RULES, s);
    J.TextBesideTokensStays(t);
    assert PairsMasked(RULES, s, t) && J.TokensMasked(t, RedactText(s));
    if BothMasked(s, out) {
      var u :| PairsMasked(RULES, s, u) && J.TokensMasked(u, out);
      OneMaskedText(RULES, s, t, u);
      J.OneMaskedText(t, RedactText(s), out);
    }
  }

  lemma BothHold(rules: Rules, s: string)
    requires PlainRules(rules)
    ensures var r := J.Redact(RedactFrom(rules, s, 0), 0); J.TokenFree(r) && AllHidden(rules, r)
  {
    var t := RedactFrom(rules, s, 0);
    var r := J.Redact(t, 0);
    QueryValuesAreHidden(rules, s);
    J.NoJwtIsLeft(t);
    forall q: nat, key: string | Exposed(rules, r, q, key) ensures Hidden(r, q, key) {
      assert r[0..] == r;
      StillHidden(rules, t, 0, r, 0, q, key);
    }
  }

  /**
  After both passes there is neither a token nor an exposed value, although the
  second pass runs over the first one's output; text without either is left as
  it is; and redacting redacted text changes nothing.
  */
  lemma RedactedTextIsClean(s: string)
    ensures J.TokenFree(RedactText(s)) && AllHidden(RULES, RedactText(s))
    ensures RedactText(s) == s <==> J.TokenFree(s) && AllHidden(RULES, s)
    ensures RedactText(RedactText(s)) == RedactText(s)
  {
    RulesArePlain();
    BothHold(RULES, s);
    Fixed(RULES, RedactText(s));
    if J.TokenFree(s) && AllHidden(RULES, s) { Fixed(RULES, s); }
  }

  lemma Fixed(rules: Rules, s: string)
    requires PlainRules(rules) && J.TokenFree(s) && AllHidden(rules, s)
    ensures J.Redact(RedactFrom(rules, s, 0), 0) == s
  {
    KeepsHidden(rules, s, 0);
    J.KeepsTokenFree(s, 0);
  }
}
