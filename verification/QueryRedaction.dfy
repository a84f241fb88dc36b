/** Values of secret-bearing `key=value` pairs become `***`, keys matched without regard to case. */
module QueryRedaction {
  import opened Common
  import opened Cuts
  import opened JwtRedaction

  /** Keys that are secret anywhere, and common words that are secret directly after `?` or `&`. */
  datatype Rules = Rules(anywhere: seq<string>, inQuery: seq<string>)

  predicate Terminator(c: char) {
    c == '&' || c == ' ' || c == '"' || c == '\'' || c == '\n' || c == '\r' || c == '\t' || c == ','
  }

  predicate QueryDelimiter(c: char) { c == '&' || c == '?' }

  predicate Delimiter(c: char) { QueryDelimiter(c) || c == ' ' || c == '"' || c == '\'' }

  function Lower(c: char): char {
    if 'A' <= c <= 'Z' then (c as int + 32) as char else c
  }

  predicate SameIgnoringCase(s: string, from: nat, key: string)
    requires from + |key| <= |s|
  {
    forall x | 0 <= x < |key| :: Lower(s[from + x]) == Lower(key[x])
  }

  // ---------------------------------------------------------------- what is exposed, what is masked

  predicate Listed(rules: Rules, key: string, afterQuery: bool) {
    key in rules.anywhere || (afterQuery && key in rules.inQuery)
  }

  /** `key=` stands at `q`, whatever its case. */
  predicate KeyAt(s: string, q: nat, key: string) {
    q + |key| < |s| && SameIgnoringCase(s, q, key) && s[q + |key|] == '='
  }

  /** A secret-bearing key stands at `q`: after a delimiter or at the very start. */
  predicate Exposed(rules: Rules, s: string, q: nat, key: string) {
    && KeyAt(s, q, key)
    && (if q == 0 then Listed(rules, key, false)
        else Delimiter(s[q - 1]) && Listed(rules, key, QueryDelimiter(s[q - 1])))
  }

  /** Its value at `v` is the mask, then a terminator or the end. */
  predicate MaskedAt(s: string, v: nat) {
    && v + 3 <= |s| && s[v] == '*' && s[v + 1] == '*' && s[v + 2] == '*'
    && (v + 3 < |s| ==> Terminator(s[v + 3]))
  }

  predicate Spelled(s: string, q: nat, key: string)
    requires q + |key| <= |s|
  {
    s[q..q + |key|] == key
  }

  predicate Hidden(s: string, q: nat, key: string) {
    KeyAt(s, q, key) && Spelled(s, q, key) && MaskedAt(s, q + |key| + 1)
  }

  ghost predicate AllHidden(rules: Rules, s: string) {
    forall q: nat, key: string | Exposed(rules, s, q, key) :: Hidden(s, q, key)
  }

  /** A place from `p` on where a key may be exposed. */
  predicate From(p: nat, q: nat) {
    q > p || (q == 0 && p == 0)
  }

  /** A key with its value: up to the first terminator, or the end. */
  predicate PairFills(s: string, c: Cut, key: string) {
    && KeyAt(s, c.from, key) && c.from + |key| + 1 <= c.to <= |s| && c.put == key + "=***"
    && (forall x | c.from + |key| + 1 <= x < c.to :: !Terminator(s[x])) && (c.to < |s| ==> Terminator(s[c.to]))
  }

  ghost predicate MasksPair(rules: Rules, s: string, c: Cut) {
    exists key :: Exposed(rules, s, c.from, key) && PairFills(s, c, key)
  }

  /**
  From `at` on, `out` is the text with exposed pairs masked: the key as listed, the
  mask for the value. Between them every character is kept, and no key is exposed.
  */
  ghost predicate CutsPairs(rules: Rules, s: string, at: nat, cuts: seq<Cut>, out: string) {
    && InOrder(s, at, cuts) && out == Patched(s, at, cuts)
    && (forall x | 0 <= x < |cuts| :: MasksPair(rules, s, cuts[x]))
    && (forall q: nat, key: string | From(at, q) && Exposed(rules, s, q, key) :: Within(cuts, q))
  }

  ghost predicate PairsMasked(rules: Rules, s: string, out: string) {
    exists cuts :: CutsPairs(rules, s, 0, cuts, out)
  }

  // ---------------------------------------------------------------- the scan

  function FirstKey(s: string, q: nat, keys: seq<string>): (r: Option<string>)
    ensures r.Some? ==> r.value in keys && KeyAt(s, q, r.value)
    ensures r.None? ==> forall key | key in keys :: !KeyAt(s, q, key)
    decreases |keys|
  {
    if keys == [] then None
    else if KeyAt(s, q, keys[0]) then Some(keys[0])
    else
      var r := FirstKey(s, q, keys[1..]);
      assert r.None? ==> forall key | key in keys :: key == keys[0] || key in keys[1..];
      r
  }

  /** The key that starts here, at the start of the text or after the delimiter at `i`. */
  function Match(rules: Rules, s: string, i: nat): Option<string>
    requires i < |s|
  {
    if Delimiter(s[i]) then
      FirstKey(s, i + 1, rules.anywhere + if QueryDelimiter(s[i]) then rules.inQuery else [])
    else if i == 0 then FirstKey(s, 0, rules.anywhere)
    else None
  }

  function KeyStart(s: string, i: nat): nat
    requires i < |s|
  {
    if Delimiter(s[i]) then i + 1 else i
  }

  /** The end of the value that starts at `v`. */
  function ValueEnd(s: string, v: nat): (r: nat)
    requires v <= |s|
    ensures v <= r <= |s| && (r < |s| ==> Terminator(s[r]))
    decreases |s| - v
  {
    if v == |s| || Terminator(s[v]) then v else ValueEnd(s, v + 1)
  }

  /** What a match at `i` writes. */
  function Written(s: string, i: nat, key: string): string
    requires i < |s|
  {
    (if Delimiter(s[i]) then [s[i]] else "") + key + "=" + MASK
  }

  function RedactFrom(rules: Rules, s: string, i: nat): string
    requires i <= |s|
    decreases |s| - i
  {
    if i == |s| then ""
    else
      var key := Match(rules, s, i);
      if key.Some? then
        Written(s, i, key.value) + RedactFrom(rules, s, ValueEnd(s, KeyStart(s, i) + |key.value| + 1))
      else [s[i]] + RedactFrom(rules, s, i + 1)
  }

  method SkipValue(s: string, v: nat) returns (end: nat)
    requires v <= |s|
    ensures end == ValueEnd(s, v)
  {
    end := v;
    while end < |s| && !Terminator(s[end])
      invariant v <= end <= |s| && ValueEnd(s, v) == ValueEnd(s, end)
    {
      end := end + 1;
    }
  }

  method FindKey(s: string, q: nat, keys: seq<string>) returns (matched: Option<string>)
    ensures matched == FirstKey(s, q, keys)
  {
    var n: nat := 0;
    assert keys[0..] == keys;
    while n < |keys|
      invariant n <= |keys| && FirstKey(s, q, keys) == FirstKey(s, q, keys[n..])
    {
      if KeyAt(s, q, keys[n]) { return Some(keys[n]); }
      assert keys[n..][1..] == keys[n + 1..];
      n := n + 1;
    }
    return None;
  }

  method MatchHere(rules: Rules, s: string, i: nat) returns (key: Option<string>)
    requires i < |s|
    ensures key == Match(rules, s, i)
  {
    if Delimiter(s[i]) {
      key := FindKey(s, i + 1, rules.anywhere + if QueryDelimiter(s[i]) then rules.inQuery else []);
    } else if i == 0 {
      key := FindKey(s, i, rules.anywhere);
    } else {
      key := None;
    }
  }

  /** Write the delimiter, the key as listed, and the mask in place of the value. */
  method MaskPair(s: string, i: nat, key: string) returns (written: string, end: nat)
    requires i < |s| && KeyStart(s, i) + |key| + 1 <= |s|
    ensures written == Written(s, i, key) && end == ValueEnd(s, KeyStart(s, i) + |key| + 1)
  {
    written := if Delimiter(s[i]) then [s[i]] else "";
    written := written + key + "=";
    end := SkipValue(s, KeyStart(s, i) + |key| + 1);
    written := written + MASK;
  }

  lemma MatchWrites(rules: Rules, s: string, i: nat)
    requires i < |s| && Match(rules, s, i).Some?
    ensures var key := Match(rules, s, i).value;
            var end := ValueEnd(s, KeyStart(s, i) + |key| + 1);
            i < end && RedactFrom(rules, s, i) == Written(s, i, key) + RedactFrom(rules, s, end)
  {
  }

  lemma CharIsWritten(rules: Rules, s: string, i: nat)
    requires i < |s| && Match(rules, s, i).None?
    ensures RedactFrom(rules, s, i) == [s[i]] + RedactFrom(rules, s, i + 1)
  {
  }

  /** One turn of the scan: a masked pair, or one character as it is. */
  method ScanOne(rules: Rules, s: string, i: nat) returns (written: string, next: nat)
    requires i < |s|
    ensures i < next <= |s| && RedactFrom(rules, s, i) == written + RedactFrom(rules, s, next)
  {
    var key := MatchHere(rules, s, i);
    if key.Some? {
      MatchWrites(rules, s, i);
      written, next := MaskPair(s, i, key.value);
    } else {
      CharIsWritten(rules, s, i);
      written, next := [s[i]], i + 1;
    }
  }

  // ---------------------------------------------------------------- keys

  predicate KeyChar(c: char) { 'a' <= c <= 'z' || c == '_' || c == '-' }

  predicate PlainKey(key: string) {
    key != "" && forall x | 0 <= x < |key| :: KeyChar(key[x])
  }

  /** Keys as they are listed: lower-case letters, `_` and `-`. */
  ghost predicate PlainRules(rules: Rules) {
    forall key | key in rules.anywhere || key in rules.inQuery :: PlainKey(key)
  }

  lemma KeyCharAt(s: string, q: nat, key: string, x: nat)
    requires KeyAt(s, q, key) && PlainKey(key) && x < |key|
    ensures Lower(s[q + x]) == key[x] && s[q + x] != '='
  {
    assert KeyChar(key[x]) && Lower(s[q + x]) == Lower(key[x]);
  }

  /** A key is recognised in any mixture of cases, and in no other spelling. */
  lemma KeyInAnyCase(s: string, q: nat, key: string)
    requires PlainKey(key)
    ensures KeyAt(s, q, key) <==>
              && q + |key| < |s| && s[q + |key|] == '='
              && forall x | 0 <= x < |key| :: s[q + x] == key[x] || IsUpperCaseOf(s[q + x], key[x])
  {
    if q + |key| < |s| {
      forall x | 0 <= x < |key|
        ensures Lower(s[q + x]) == Lower(key[x]) <==> s[q + x] == key[x] || IsUpperCaseOf(s[q + x], key[x])
      {
        assert KeyChar(key[x]);
      }
    }
  }

  predicate IsUpperCaseOf(c: char, d: char) {
    'A' <= c <= 'Z' && d as int == c as int + 32
  }

  /** Two keys cannot stand at the same place: both end at the first `=`. */
  lemma OneKeyAt(s: string, q: nat, k: string, l: string)
    requires KeyAt(s, q, k) && KeyAt(s, q, l) && PlainKey(k) && PlainKey(l)
    ensures k == l
  {
    if |k| < |l| { KeyCharAt(s, q, l, |k|); }
    if |l| < |k| { KeyCharAt(s, q, k, |l|); }
    forall x | 0 <= x < |k| ensures k[x] == l[x] {
      KeyCharAt(s, q, k, x);
      KeyCharAt(s, q, l, x);
    }
  }

  /** The scan matches at `i` exactly the key exposed there. */
  lemma MatchIsExposed(rules: Rules, s: string, i: nat, key: string)
    requires PlainRules(rules) && i < |s|
    ensures Match(rules, s, i) == Some(key) ==> Exposed(rules, s, KeyStart(s, i), key)
    ensures (Delimiter(s[i]) || i == 0) && Exposed(rules, s, KeyStart(s, i), key) ==> Match(rules, s, i) == Some(key)
  {
    var m := Match(rules, s, i);
    if (Delimiter(s[i]) || i == 0) && Exposed(rules, s, KeyStart(s, i), key) && m.Some? {
      OneKeyAt(s, KeyStart(s, i), key, m.value);
    }
  }
  // ---------------------------------------------------------------- text beside a value is kept

  /** Keys start with a character that neither ends a value nor stands in front of a key. */
  lemma KeyStartsPlain(rules: Rules, s: string, q: nat, key: string)
    requires PlainRules(rules) && Exposed(rules, s, q, key)
    ensures q < |s| && !Terminator(s[q]) && !Delimiter(s[q])
  {
    assert PlainKey(key) && KeyChar(key[0]);
    KeyCharAt(s, q, key, 0);
  }

  /** Without a match at `i`, no key is exposed at `i` or behind it. */
  lemma NoneExposedHere(rules: Rules, s: string, i: nat, q: nat, key: string)
    requires PlainRules(rules) && i < |s| && Match(rules, s, i).None? && (q == i + 1 || q == i == 0)
    ensures !Exposed(rules, s, q, key)
  {
    if Exposed(rules, s, q, key) {
      KeyStartsPlain(rules, s, q, key);
      MatchIsExposed(rules, s, i, key);
    }
  }

  lemma {:induction false} ValueHasNoTerminator(s: string, v: nat)
    requires v <= |s|
    ensures forall x | v <= x < ValueEnd(s, v) :: !Terminator(s[x])
    decreases |s| - v
  {
    if v < |s| && !Terminator(s[v]) { ValueHasNoTerminator(s, v + 1); }
  }

  /** The pair matched at `i`, as a cut. */
  function PairCut(s: string, i: nat, key: string): Cut
    requires i < |s| && KeyStart(s, i) + |key| + 1 <= |s|
  {
    Cut(KeyStart(s, i), ValueEnd(s, KeyStart(s, i) + |key| + 1), key + "=***")
  }

  lemma MatchIsPair(rules: Rules, s: string, i: nat, key: string)
    requires PlainRules(rules) && i < |s| && Match(rules, s, i) == Some(key)
    ensures KeyStart(s, i) + |key| + 1 <= |s| && MasksPair(rules, s, PairCut(s, i, key))
  {
    MatchIsExposed(rules, s, i, key);
    ValueHasNoTerminator(s, KeyStart(s, i) + |key| + 1);
    assert PairFills(s, PairCut(s, i, key), key);
  }

  /** A key exposed from `i` on lies in the pair matched there, or behind it. */
  lemma ExposedInOrBehind(rules: Rules, s: string, i: nat, end: nat, q: nat, key: string)
    requires PlainRules(rules) && i < |s| && Match(rules, s, i).Some? && i < end <= |s|
    requires end < |s| ==> Terminator(s[end])
    requires From(i, q) && Exposed(rules, s, q, key)
    ensures KeyStart(s, i) <= q < end || From(end, q)
  {
    KeyStartsPlain(rules, s, q, key);
  }

  lemma PairIsWritten(s: string, i: nat, key: string, rest: string)
    requires i < |s|
    ensures Written(s, i, key) + rest == s[i..KeyStart(s, i)] + (key + "=***") + rest
  {
    assert s[i..KeyStart(s, i)] == if Delimiter(s[i]) then [s[i]] else "";
  }

  lemma SamePieces(whole: string, written: string, front: string, put: string, rest: string, patched: string)
    requires whole == written + rest && written + rest == front + put + rest && patched == front + put + rest
    ensures whole == patched
  {
  }

  /** What the scan writes for a pair is the text with that cut made. */
  lemma PairIsPatched(rules: Rules, s: string, i: nat, key: string, cuts: seq<Cut>)
    requires i < |s| && Match(rules, s, i) == Some(key) && KeyStart(s, i) + |key| + 1 <= |s|
    requires InOrder(s, PairCut(s, i, key).to, cuts)
    requires RedactFrom(rules, s, PairCut(s, i, key).to) == Patched(s, PairCut(s, i, key).to, cuts)
    ensures InOrder(s, i, [PairCut(s, i, key)] + cuts)
    ensures RedactFrom(rules, s, i) == Patched(s, i, [PairCut(s, i, key)] + cuts)
  {
    var c := PairCut(s, i, key);
    var rest, patched := RedactFrom(rules, s, c.to), Patched(s, c.to, cuts);
    assert InOrder(s, i, [c] + cuts) && Patched(s, i, [c] + cuts) == s[i..c.from] + c.put + patched by {
      CutOne(s, i, c, cuts);
    }
    assert RedactFrom(rules, s, i) == Written(s, i, key) + rest by { MatchWrites(rules, s, i); }
    assert Written(s, i, key) + rest == s[i..c.from] + c.put + rest by { PairIsWritten(s, i, key, rest); }
    SamePieces(RedactFrom(rules, s, i), Written(s, i, key), s[i..c.from], c.put, rest, Patched(s, i, [c] + cuts));
  }

  lemma PairIsCut(rules: Rules, s: string, i: nat, key: string, cuts: seq<Cut>)
    requires PlainRules(rules) && i < |s| && Match(rules, s, i) == Some(key)
    requires KeyStart(s, i) + |key| + 1 <= |s|
    requires CutsPairs(rules, s, PairCut(s, i, key).to, cuts, RedactFrom(rules, s, PairCut(s, i, key).to))
    ensures CutsPairs(rules, s, i, [PairCut(s, i, key)] + cuts, RedactFrom(rules, s, i))
  {
    var c := PairCut(s, i, key);
    MatchIsPair(rules, s, i, key);
    PairIsPatched(rules, s, i, key, cuts);
    forall q: nat, k: string | From(i, q) && Exposed(rules, s, q, k) ensures Within([c] + cuts, q) {
      ExposedInOrBehind(rules, s, i, c.to, q, k);
      StaysWithin(c, cuts, q);
    }
  }

  lemma CharIsKept(rules: Rules, s: string, i: nat, cuts: seq<Cut>)
    requires PlainRules(rules) && i < |s| && Match(rules, s, i).None?
    requires CutsPairs(rules, s, i + 1, cuts, RedactFrom(rules, s, i + 1))
    ensures CutsPairs(rules, s, i, cuts, RedactFrom(rules, s, i))
  {
    KeepOne(s, i, cuts);
    forall q: nat, key: string | From(i, q) && Exposed(rules, s, q, key) ensures Within(cuts, q) {
      if q == i + 1 || q == i { NoneExposedHere(rules, s, i, q, key); }
    }
  }

  lemma {:induction false} RedactCutsPairs(rules: Rules, s: string, i: nat) returns (cuts: seq<Cut>)
    requires PlainRules(rules) && i <= |s|
    ensures CutsPairs(rules, s, i, cuts, RedactFrom(rules, s, i))
    decreases |s| - i
  {
    if i == |s| {
      cuts := [];
      forall q: nat, key: string | From(i, q) ensures !Exposed(rules, s, q, key) { }
    } else if Match(rules, s, i).Some? {
      var key := Match(rules, s, i).value;
      var c := PairCut(s, i, key);
      cuts := RedactCutsPairs(rules, s, c.to);
      PairIsCut(rules, s, i, key, cuts);
      cuts := [c] + cuts;
    } else {
      cuts := RedactCutsPairs(rules, s, i + 1);
      CharIsKept(rules, s, i, cuts);
    }
  }

  /** The output is the text with its exposed pairs masked and everything beside them kept. */
  lemma TextBesideValuesStays(rules: Rules, s: string)
    requires PlainRules(rules)
    ensures PairsMasked(rules, s, RedactFrom(rules, s, 0))
  {
    var cuts := RedactCutsPairs(rules, s, 0);
  }

  lemma PairHasOneEnd(rules: Rules, s: string, c: Cut, d: Cut)
    requires PlainRules(rules) && MasksPair(rules, s, c) && MasksPair(rules, s, d) && c.from == d.from
    ensures c == d
  {
    var k :| Exposed(rules, s, c.from, k) && PairFills(s, c, k);
    var l :| Exposed(rules, s, d.from, l) && PairFills(s, d, l);
    OneKeyAt(s, c.from, k, l);
  }

  lemma PairsAreCutOneWay(rules: Rules, s: string, xs: seq<Cut>, out: string, ys: seq<Cut>, other: string)
    requires PlainRules(rules) && CutsPairs(rules, s, 0, xs, out) && CutsPairs(rules, s, 0, ys, other)
    ensures OneAtEachPlace(xs, ys)
  {
    forall x, y | 0 <= x < |xs| && 0 <= y < |ys| && xs[x].from == ys[y].from ensures xs[x] == ys[y] {
      PairHasOneEnd(rules, s, xs[x], ys[y]);
    }
  }

  lemma CutsStartWithin(rules: Rules, s: string, xs: seq<Cut>, out: string, ys: seq<Cut>, other: string)
    requires CutsPairs(rules, s, 0, xs, out) && CutsPairs(rules, s, 0, ys, other)
    ensures StartsWithin(xs, ys)
  {
    forall x | 0 <= x < |xs| ensures Within(ys, xs[x].from) {
      var key :| Exposed(rules, s, xs[x].from, key) && PairFills(s, xs[x], key);
    }
  }

  /** There is only one text with the exposed pairs masked and everything beside them kept. */
  lemma OneMaskedText(rules: Rules, s: string, out: string, other: string)
    requires PlainRules(rules) && PairsMasked(rules, s, out) && PairsMasked(rules, s, other)
    ensures out == other
  {
    var xs: seq<Cut> :| CutsPairs(rules, s, 0, xs, out);
    var ys: seq<Cut> :| CutsPairs(rules, s, 0, ys, other);
    CutsStartWithin(rules, s, xs, out, ys, other);
    CutsStartWithin(rules, s, ys, other, xs, out);
    PairsAreCutOneWay(rules, s, xs, out, ys, other);
    OneWayToCut(s, 0, xs, ys);
  }

  method RedactQueryParams(rules: Rules, s: string) returns (out: string)
    ensures out == RedactFrom(rules, s, 0)
    ensures PlainRules(rules) ==> PairsMasked(rules, s, out)
  {
    out := "";
    var i: nat := 0;
    while i < |s|
      invariant i <= |s| && RedactFrom(rules, s, 0) == out + RedactFrom(rules, s, i)
    {
      var written, next := ScanOne(rules, s, i);
      assert (out + written) + RedactFrom(rules, s, next) == out + (written + RedactFrom(rules, s, next));
      out := out + written;
      i := next;
    }
    if PlainRules(rules) { TextBesideValuesStays(rules, s); }
  }
}
