/** API operations up to query, trailing slashes, parameter names and method case. */
module CanonicalOperation {
  import opened Common

  // ---------------------------------------------------------------- segments

  predicate Plain(segment: string) {
    forall c | c in segment :: c != '/'
  }

  /** The pieces between slashes; there is always at least one. */
  function Split(s: string): (r: seq<string>)
    ensures r != [] && forall x | x in r :: Plain(x)
    ensures Join(r) == s
  {
    if s == "" then [""]
    else
      var rest := Split(s[1..]);
      assert forall x | x in rest[1..] :: x in rest;
      assert rest[0] in rest;
      if s[0] == '/' then
        assert Join([""] + rest) == "" + "/" + Join(rest) by { assert ([""] + rest)[1..] == rest; }
        [""] + rest
      else
        var r := [[s[0]] + rest[0]] + rest[1..];
        assert r[1..] == rest[1..];
        r
  }

  function Join(segments: seq<string>): string
    requires segments != []
  {
    if |segments| == 1 then segments[0] else segments[0] + "/" + Join(segments[1..])
  }

  /** Plain segments are recovered from the path they make. */
  lemma {:induction false} SplitUndoesJoin(segments: seq<string>)
    requires segments != [] && forall x | x in segments :: Plain(x)
    ensures Split(Join(segments)) == segments
    decreases |segments|, |segments[0]|
  {
    var s := Join(segments);
    if segments[0] == "" {
      if |segments| > 1 {
        assert s[0] == '/' && s[1..] == Join(segments[1..]);
        SplitUndoesJoin(segments[1..]);
      }
    } else {
      var c, tail := segments[0][0], segments[0][1..];
      var shorter := [tail] + segments[1..];
      assert c in segments[0] && segments[0] in segments && c != '/';
      assert shorter[1..] == segments[1..];
      forall x | x in shorter ensures Plain(x) {
        if x == tail { assert forall d | d in tail :: d in segments[0]; } else { assert x in segments; }
      }
      assert s[1..] == Join(shorter) && s[0] == c;
      SplitUndoesJoin(shorter);
      assert segments[0] == [c] + tail;
    }
  }

  // ---------------------------------------------------------------- one operation

  type Key = (string, string)

  function UpperChar(c: char): char {
    if 'a' <= c <= 'z' then (c as int - 32) as char else c
  }

  function Upper(s: string): string {
    seq(|s|, i requires 0 <= i < |s| => UpperChar(s[i]))
  }

  predicate NoQuery(s: string) {
    forall i | 0 <= i < |s| :: s[i] != '?' && s[i] != '#'
  }

  function BeforeQuery(s: string): (r: string)
    ensures NoQuery(r) && r <= s
  {
    if s == "" || s[0] == '?' || s[0] == '#' then "" else [s[0]] + BeforeQuery(s[1..])
  }

  function TrimSlashes(s: string): (r: string)
    ensures r <= s && (r != "" ==> r[|r| - 1] != '/')
  {
    if s != "" && s[|s| - 1] == '/' then TrimSlashes(s[..|s| - 1]) else s
  }

  predicate Rooted(s: string) {
    "/v4/" <= s || s == "/v4"
  }

  predicate Parameter(segment: string) {
    && |segment| >= 2
    && ((segment[0] == '{' && segment[|segment| - 1] == '}') || segment[0] == ':')
  }

  const PLACEHOLDER := "{}"

  function Generic(segment: string): string {
    if Parameter(segment) then PLACEHOLDER else segment
  }

  function Generics(segments: seq<string>): (r: seq<string>)
    ensures |r| == |segments| && forall i | 0 <= i < |r| :: r[i] == Generic(segments[i])
  {
    seq(|segments|, i requires 0 <= i < |segments| => Generic(segments[i]))
  }

  function CanonicalOp(method_: string, path: string): Option<Key> {
    var trimmed := TrimSlashes(BeforeQuery(path));
    if Rooted(trimmed) then Some((Upper(method_), Join(Generics(Split(trimmed))))) else None
  }

  // ---------------------------------------------------------------- it is a canonical form

  lemma {:induction false} JoinChars(segments: seq<string>)
    requires segments != []
    ensures forall c | c in Join(segments) :: c == '/' || exists x | x in segments :: c in x
    decreases |segments|
  {
    if |segments| > 1 {
      JoinChars(segments[1..]);
      forall c | c in Join(segments) ensures c == '/' || exists x | x in segments :: c in x {
        if c in segments[0] {
          assert segments[0] in segments;
        } else if c != '/' {
          assert c in Join(segments[1..]);
          var x :| x in segments[1..] && c in x;
          assert x in segments;
        }
      }
    } else {
      assert segments[0] in segments;
    }
  }

  lemma {:induction false} JoinHasChars(segments: seq<string>, x: string, c: char)
    requires x in segments && c in x
    ensures c in Join(segments)
    decreases |segments|
  {
    if |segments| > 1 && x != segments[0] { JoinHasChars(segments[1..], x, c); }
  }

  lemma {:induction false} LastOfJoin(segments: seq<string>)
    requires segments != []
    ensures var s, last := Join(segments), segments[|segments| - 1];
            && (last != "" ==> s != "" && s[|s| - 1] == last[|last| - 1])
            && (|segments| > 1 && last == "" ==> s != "" && s[|s| - 1] == '/')
    decreases |segments|
  {
    if |segments| > 1 { LastOfJoin(segments[1..]); }
  }

  lemma {:induction false} NoQueryIsKept(s: string)
    requires NoQuery(s)
    ensures BeforeQuery(s) == s
    decreases |s|
  {
    if s != "" {
      NoQueryIsKept(s[1..]);
    }
  }

  lemma GenericsAddNoQuery(t: string)
    requires NoQuery(t)
    ensures NoQuery(Join(Generics(Split(t))))
  {
    var segments := Split(t);
    var g := Generics(segments);
    var r := Join(g);
    JoinChars(g);
    forall k | 0 <= k < |r| ensures r[k] != '?' && r[k] != '#' {
      var c := r[k];
      if c != '/' {
        assert c in r;
        var x :| x in g && c in x;
        var i :| 0 <= i < |g| && g[i] == x;
        if !Parameter(segments[i]) {
          JoinHasChars(segments, segments[i], c);
          var j :| 0 <= j < |t| && t[j] == c;
        }
      }
    }
  }

  lemma GenericsAddNoSlash(t: string)
    requires t != "" && t[|t| - 1] != '/'
    ensures var r := Join(Generics(Split(t))); r != "" && r[|r| - 1] != '/'
  {
    var segments := Split(t);
    LastOfJoin(segments);
    var last := segments[|segments| - 1];
    assert last != "";
    assert Plain(last) && last[|last| - 1] in last;
    LastOfGenerics(segments);
  }

  lemma LastOfGenerics(segments: seq<string>)
    requires segments != []
    requires var last := segments[|segments| - 1]; last != "" && last[|last| - 1] != '/'
    ensures var r := Join(Generics(segments)); r != "" && r[|r| - 1] != '/'
  {
    LastOfJoin(Generics(segments));
  }

  lemma GenericsStayRooted(t: string)
    requires Rooted(t)
    ensures Rooted(Join(Generics(Split(t))))
  {
    RootedSegments(t);
    var g := Generics(Split(t));
    var tail := g[1..];
    assert g[0] == "" && tail[0] == "v4";
    if |tail| > 1 { assert Join(g) == "/v4/" + Join(tail[1..]); } else { assert Join(g) == "/v4"; }
  }

  lemma RootedSegments(t: string)
    requires Rooted(t)
    ensures |Split(t)| >= 2 && Split(t)[0] == "" && Split(t)[1] == "v4"
  {
    var rest := if t == "/v4" then [] else Split(t[4..]);
    var segments := ["", "v4"] + rest;
    assert segments[1..] == ["v4"] + rest;
    assert segments[1..][1..] == rest;
    if rest == [] {
      assert Join(["v4"]) == "v4";
    } else {
      assert Join(segments[1..]) == "v4/" + Join(rest);
      assert t == "/v4/" + t[4..];
    }
    assert Join(segments) == t;
    forall x | x in segments ensures Plain(x) {
      if x !in rest { assert x == "" || x == "v4"; }
    }
    SplitUndoesJoin(segments);
  }

  lemma GenericsAreFixed(t: string)
    ensures var r := Join(Generics(Split(t))); Join(Generics(Split(r))) == r
  {
    var segments := Split(t);
    var g := Generics(segments);
    forall x | x in g ensures Plain(x) {
      var i :| 0 <= i < |g| && g[i] == x;
      assert segments[i] in segments;
    }
    SplitUndoesJoin(g);
    assert Generics(g) == g;
  }

  /** A canonical operation is its own canonical form. */
  lemma CanonicalIsIdempotent(verb: string, path: string)
    requires CanonicalOp(verb, path).Some?
    ensures var key := CanonicalOp(verb, path).value; CanonicalOp(key.0, key.1) == Some(key)
  {
    var t := TrimSlashes(BeforeQuery(path));
    var r := Join(Generics(Split(t)));
    var key := CanonicalOp(verb, path).value;
    assert key == (Upper(verb), r);
    GenericPathIsTrimmed(t);
    TrimmedPathIsKept(key.0, key.1);
    UpperIsIdempotent(verb);
  }

  lemma UpperIsIdempotent(s: string)
    ensures Upper(Upper(s)) == Upper(s)
  {
  }

  lemma GenericPathIsTrimmed(t: string)
    requires NoQuery(t) && Rooted(t) && t[|t| - 1] != '/'
    ensures var r := Join(Generics(Split(t)));
            NoQuery(r) && Rooted(r) && r[|r| - 1] != '/' && Join(Generics(Split(r))) == r
  {
    GenericsAddNoQuery(t);
    GenericsAddNoSlash(t);
    GenericsStayRooted(t);
    GenericsAreFixed(t);
  }

  lemma TrimmedPathIsKept(verb: string, r: string)
    requires NoQuery(r) && Rooted(r) && r[|r| - 1] != '/'
    ensures CanonicalOp(verb, r) == Some((Upper(verb), Join(Generics(Split(r)))))
  {
    NoQueryIsKept(r);
    assert TrimSlashes(r) == r;
  }

  /** Query, fragment and trailing slashes do not matter. */
  lemma {:induction false} QueryDoesNotMatter(verb: string, path: string, slashes: nat, query: string)
    requires NoQuery(path) && (query != "" ==> query[0] == '?' || query[0] == '#')
    ensures CanonicalOp(verb, path + seq(slashes, i => '/') + query) == CanonicalOp(verb, path)
  {
    var tail := seq(slashes, i => '/');
    StopsAtQuery(path + tail, query);
    NoQueryIsKept(path);
    SlashesAreTrimmed(path, slashes);
  }

  lemma {:induction false} StopsAtQuery(s: string, query: string)
    requires NoQuery(s) && (query != "" ==> query[0] == '?' || query[0] == '#')
    ensures BeforeQuery(s + query) == s
    decreases |s|
  {
    if s == "" {
      assert s + query == query;
    } else {
      assert (s + query)[1..] == s[1..] + query;
      StopsAtQuery(s[1..], query);
    }
  }

  lemma {:induction false} SlashesAreTrimmed(s: string, n: nat)
    ensures TrimSlashes(s + seq(n, i => '/')) == TrimSlashes(s)
    decreases n
  {
    var t := s + seq(n, i => '/');
    if n == 0 {
      assert t == s;
    } else {
      assert t[..|t| - 1] == s + seq(n - 1, i => '/');
      SlashesAreTrimmed(s, n - 1);
    }
  }
  // ---------------------------------------------------------------- what a key keeps

  /** `{name}`, with any name, or `:name`, with one that is not empty. */
  ghost predicate NamesParameter(segment: string) {
    || (exists name :: segment == "{" + name + "}")
    || (exists name :: name != "" && segment == ":" + name)
  }

  lemma ParameterIsNamed(segment: string)
    ensures Parameter(segment) <==> NamesParameter(segment)
  {
    if Parameter(segment) {
      var n := |segment|;
      if segment[0] == ':' {
        assert segment == ":" + segment[1..];
      } else {
        assert segment == "{" + segment[1..n - 1] + "}";
      }
    }
  }

  /** A path of plain segments, without query, and with something behind its last slash. */
  ghost predicate PathSegments(segments: seq<string>) {
    && segments != [] && segments[|segments| - 1] != ""
    && forall x | x in segments :: Plain(x) && NoQuery(x)
  }

  /** Parameters have lost their names, and everything else is as it was. */
  ghost predicate OnlyNamesLost(segments: seq<string>, kept: seq<string>) {
    && |kept| == |segments|
    && forall i | 0 <= i < |segments| ::
         if NamesParameter(segments[i]) then kept[i] == "{}" else kept[i] == segments[i]
  }

  lemma JoinHasNoQuery(segments: seq<string>)
    requires PathSegments(segments)
    ensures NoQuery(Join(segments)) && TrimSlashes(Join(segments)) == Join(segments)
  {
    var s := Join(segments);
    JoinChars(segments);
    forall i | 0 <= i < |s| ensures s[i] != '?' && s[i] != '#' {
      if s[i] != '/' {
        assert s[i] in s;
        var x :| x in segments && s[i] in x;
        var j :| 0 <= j < |x| && x[j] == s[i];
      }
    }
    LastOfJoin(segments);
    var last := segments[|segments| - 1];
    assert last in segments && last[|last| - 1] in last;
  }

  lemma RootedBehindV4(rest: seq<string>)
    ensures Rooted(Join(["", "v4"] + rest))
  {
    var segments := ["", "v4"] + rest;
    assert segments[1..] == ["v4"] + rest;
    assert Join(segments) == "/" + Join(segments[1..]);
    if rest == [] {
      assert Join(segments[1..]) == "v4";
    } else {
      assert segments[1..][1..] == rest;
      assert Join(segments[1..]) == "v4/" + Join(rest);
    }
  }

  predicate StartsWithV4(segments: seq<string>) {
    |segments| >= 2 && segments[0] == "" && segments[1] == "v4"
  }

  lemma RootedExactlyWhen(segments: seq<string>)
    requires PathSegments(segments)
    ensures Rooted(Join(segments)) <==> StartsWithV4(segments)
  {
    SplitUndoesJoin(segments);
    if StartsWithV4(segments) {
      assert segments == ["", "v4"] + segments[2..];
      RootedBehindV4(segments[2..]);
    } else if Rooted(Join(segments)) {
      RootedSegments(Join(segments));
    }
  }

  lemma GenericsLoseNames(segments: seq<string>)
    ensures OnlyNamesLost(segments, Generics(segments))
  {
    forall i | 0 <= i < |segments|
      ensures if NamesParameter(segments[i]) then Generics(segments)[i] == "{}"
              else Generics(segments)[i] == segments[i]
    {
      ParameterIsNamed(segments[i]);
    }
  }

  /**
  An operation has a key exactly if `v4` is the first segment of its path. The
  segments of the key are those of the path, but for the names of parameters.
  */
  lemma KeyKeepsAllButNames(verb: string, segments: seq<string>, slashes: nat, query: string)
    requires PathSegments(segments) && (query != "" ==> query[0] == '?' || query[0] == '#')
    ensures var key := CanonicalOp(verb, Join(segments) + seq(slashes, i => '/') + query);
            && (key.Some? <==> StartsWithV4(segments))
            && (key.Some? ==> key.value.0 == Upper(verb) && OnlyNamesLost(segments, Split(key.value.1)))
  {
    var path := Join(segments);
    JoinHasNoQuery(segments);
    QueryDoesNotMatter(verb, path, slashes, query);
    NoQueryIsKept(path);
    RootedExactlyWhen(segments);
    SplitUndoesJoin(segments);
    GenericsLoseNames(segments);
    GenericsArePlain(segments);
    SplitUndoesJoin(Generics(segments));
  }

  lemma GenericsArePlain(segments: seq<string>)
    requires forall x | x in segments :: Plain(x)
    ensures forall x | x in Generics(segments) :: Plain(x)
  {
    forall x | x in Generics(segments) ensures Plain(x) {
      var i :| 0 <= i < |segments| && Generics(segments)[i] == x;
      assert segments[i] in segments;
    }
  }

  /** The same letters, but for their case. */
  predicate SameButCase(a: string, b: string) {
    && |a| == |b|
    && forall i | 0 <= i < |a| ::
         a[i] == b[i] || ('a' <= a[i] <= 'z' && b[i] as int == a[i] as int - 32)
         || ('a' <= b[i] <= 'z' && a[i] as int == b[i] as int - 32)
  }

  lemma UpperIgnoresCase(a: string, b: string)
    ensures Upper(a) == Upper(b) <==> SameButCase(a, b)
  {
    if SameButCase(a, b) {
      forall i | 0 <= i < |a| ensures Upper(a)[i] == Upper(b)[i] { }
    } else if Upper(a) == Upper(b) {
      assert |Upper(a)| == |a| && |Upper(b)| == |b|;
      forall i | 0 <= i < |a|
        ensures a[i] == b[i] || ('a' <= a[i] <= 'z' && b[i] as int == a[i] as int - 32)
                || ('a' <= b[i] <= 'z' && a[i] as int == b[i] as int - 32)
      {
        assert Upper(a)[i] == Upper(b)[i];
      }
    }
  }
  /** The same segments, but for the names of parameters. */
  ghost predicate SameButNames(xs: seq<string>, ys: seq<string>) {
    && |xs| == |ys|
    && forall i | 0 <= i < |xs| :: xs[i] == ys[i] || (NamesParameter(xs[i]) && NamesParameter(ys[i]))
  }

  lemma SameWithoutNames(xs: seq<string>, xkept: seq<string>, ys: seq<string>, ykept: seq<string>)
    requires OnlyNamesLost(xs, xkept) && OnlyNamesLost(ys, ykept)
    ensures xkept == ykept <==> SameButNames(xs, ys)
  {
    assert NamesParameter("{}") by { ParameterIsNamed("{}"); }
    if SameButNames(xs, ys) {
      forall i | 0 <= i < |xs| ensures xkept[i] == ykept[i] { }
    } else if xkept == ykept {
      forall i | 0 <= i < |xs| ensures xs[i] == ys[i] || (NamesParameter(xs[i]) && NamesParameter(ys[i])) {
        assert xkept[i] == ykept[i];
      }
    }
  }

  /** Two operations have one key exactly if they differ in the case of the verb and the names of parameters only. */
  lemma OneKeyExactlyWhen(verb: string, xs: seq<string>, other: string, ys: seq<string>)
    requires PathSegments(xs) && PathSegments(ys) && StartsWithV4(xs) && StartsWithV4(ys)
    ensures CanonicalOp(verb, Join(xs)) == CanonicalOp(other, Join(ys)) <==>
              SameButCase(verb, other) && SameButNames(xs, ys)
  {
    var x, y := CanonicalOp(verb, Join(xs)), CanonicalOp(other, Join(ys));
    KeyKeepsAllButNames(verb, xs, 0, "");
    KeyKeepsAllButNames(other, ys, 0, "");
    assert Join(xs) + seq(0, i => '/') + "" == Join(xs) && Join(ys) + seq(0, i => '/') + "" == Join(ys);
    SameWithoutNames(xs, Split(x.value.1), ys, Split(y.value.1));
    UpperIgnoresCase(verb, other);
    assert x.value.1 == Join(Split(x.value.1)) && y.value.1 == Join(Split(y.value.1));
  }
}
