/** The order of strings and of lists of strings, and sorting by such keys. */
module Ordering {

  /** Scalar by scalar, which is also the order of the UTF-8 bytes. */
  predicate TextLeq(a: string, b: string) {
    a == "" || (b != "" && (a[0] < b[0] || (a[0] == b[0] && TextLeq(a[1..], b[1..]))))
  }

  /** The first place where two keys differ decides. */
  predicate KeyLeq(a: seq<string>, b: seq<string>) {
    a == [] || (b != [] && if a[0] == b[0] then KeyLeq(a[1..], b[1..]) else TextLeq(a[0], b[0]))
  }

  lemma {:induction false} TextOrder(a: string, b: string, c: string)
    ensures TextLeq(a, b) || TextLeq(b, a)
    ensures TextLeq(a, b) && TextLeq(b, a) ==> a == b
    ensures TextLeq(a, b) && TextLeq(b, c) ==> TextLeq(a, c)
    decreases |a|
  {
    if a != "" && b != "" && a[0] == b[0] {
      assert a == [a[0]] + a[1..] && b == [b[0]] + b[1..];
      TextOrder(a[1..], b[1..], if c != "" then c[1..] else "");
    }
  }

  lemma {:induction false} KeyOrder(a: seq<string>, b: seq<string>, c: seq<string>)
    ensures KeyLeq(a, b) || KeyLeq(b, a)
    ensures KeyLeq(a, b) && KeyLeq(b, a) ==> a == b
    ensures KeyLeq(a, b) && KeyLeq(b, c) ==> KeyLeq(a, c)
    decreases |a|
  {
    if a != [] && b != [] {
      var d := if c != [] then c[0] else "";
      TextOrder(a[0], b[0], d);
      TextOrder(b[0], a[0], d);
      TextOrder(b[0], d, a[0]);
      if a[0] == b[0] {
        assert a == [a[0]] + a[1..] && b == [b[0]] + b[1..];
        KeyOrder(a[1..], b[1..], if c != [] then c[1..] else []);
      }
    }
  }

  ghost predicate SortedBy<T>(key: T -> seq<string>, s: seq<T>) {
    forall i, j | 0 <= i < j < |s| :: KeyLeq(key(s[i]), key(s[j]))
  }

  /** One more element, behind all that are not larger. */
  method Insert<T>(key: T -> seq<string>, s: seq<T>, x: T) returns (r: seq<T>)
    requires SortedBy(key, s)
    ensures SortedBy(key, r) && multiset(r) == multiset(s) + multiset{x}
  {
    var n := |s|;
    while n > 0 && !KeyLeq(key(s[n - 1]), key(x))
      invariant 0 <= n <= |s|
      invariant forall j | n <= j < |s| :: KeyLeq(key(x), key(s[j]))
    {
      KeyOrder(key(s[n - 1]), key(x), []);
      n := n - 1;
    }
    if n > 0 {
      forall i | 0 <= i < n ensures KeyLeq(key(s[i]), key(x)) {
        KeyOrder(key(s[i]), key(s[n - 1]), key(x));
      }
    }
    r := s[..n] + [x] + s[n..];
    assert s == s[..n] + s[n..];
  }

  method Sort<T>(key: T -> seq<string>, s: seq<T>) returns (r: seq<T>)
    ensures SortedBy(key, r) && multiset(r) == multiset(s)
  {
    r := [];
    for n := 0 to |s|
      invariant SortedBy(key, r) && multiset(r) == multiset(s[..n])
    {
      assert s[..n + 1] == s[..n] + [s[n]];
      r := Insert(key, r, s[n]);
    }
    assert s[..|s|] == s;
  }
}
