/** A text with some of its parts replaced, and everything between them kept. */
module Cuts {

  /** `put` stands for the characters from `from` up to `to`. */
  datatype Cut = Cut(from: nat, to: nat, put: string)

  /** The cuts lie in `s` from `at` on, one behind the other. */
  predicate InOrder(s: string, at: nat, cuts: seq<Cut>)
    decreases |cuts|
  {
    if cuts == [] then at <= |s|
    else at <= cuts[0].from < cuts[0].to <= |s| && InOrder(s, cuts[0].to, cuts[1..])
  }

  /** The text from `at` on with its cuts made. */
  function Patched(s: string, at: nat, cuts: seq<Cut>): string
    requires InOrder(s, at, cuts)
    decreases |cuts|
  {
    if cuts == [] then s[at..]
    else s[at..cuts[0].from] + cuts[0].put + Patched(s, cuts[0].to, cuts[1..])
  }

  /** `a` lies in a part that is replaced. */
  ghost predicate Within(cuts: seq<Cut>, a: nat) {
    exists x | 0 <= x < |cuts| :: cuts[x].from <= a < cuts[x].to
  }

  /** One more character is kept in front. */
  lemma KeepOne(s: string, at: nat, cuts: seq<Cut>)
    requires at < |s| && InOrder(s, at + 1, cuts)
    ensures InOrder(s, at, cuts) && Patched(s, at, cuts) == [s[at]] + Patched(s, at + 1, cuts)
  {
    if cuts == [] {
      assert s[at..] == [s[at]] + s[at + 1..];
    } else {
      assert s[at..cuts[0].from] == [s[at]] + s[at + 1..cuts[0].from];
    }
  }

  /** One more cut is made in front. */
  lemma CutOne(s: string, at: nat, c: Cut, cuts: seq<Cut>)
    requires at <= c.from < c.to && InOrder(s, c.to, cuts)
    ensures InOrder(s, at, [c] + cuts)
    ensures Patched(s, at, [c] + cuts) == s[at..c.from] + c.put + Patched(s, c.to, cuts)
  {
    FitsText(s, c.to, cuts);
    assert ([c] + cuts)[1..] == cuts;
  }

  lemma FitsText(s: string, at: nat, cuts: seq<Cut>)
    requires InOrder(s, at, cuts)
    ensures at <= |s|
  {
  }

  lemma StaysWithin(c: Cut, cuts: seq<Cut>, a: nat)
    requires c.from <= a < c.to || Within(cuts, a)
    ensures Within([c] + cuts, a)
  {
    var all := [c] + cuts;
    if c.from <= a < c.to {
      assert all[0] == c;
    } else {
      var x :| 0 <= x < |cuts| && cuts[x].from <= a < cuts[x].to;
      assert all[x + 1] == cuts[x];
    }
  }

  // ---------------------------------------------------------------- one way to cut

  lemma {:induction false} StartsLater(s: string, at: nat, cuts: seq<Cut>, x: nat)
    requires InOrder(s, at, cuts) && x < |cuts|
    ensures at <= cuts[x].from < cuts[x].to
    decreases |cuts|
  {
    if x > 0 { StartsLater(s, cuts[0].to, cuts[1..], x - 1); }
  }

  /** What starts in one list lies within the other. */
  ghost predicate StartsWithin(xs: seq<Cut>, ys: seq<Cut>) {
    forall x | 0 <= x < |xs| :: Within(ys, xs[x].from)
  }

  /** Cuts that start at the same place are the same. */
  predicate OneAtEachPlace(xs: seq<Cut>, ys: seq<Cut>) {
    forall x, y | 0 <= x < |xs| && 0 <= y < |ys| && xs[x].from == ys[y].from :: xs[x] == ys[y]
  }

  lemma FirstIsNotLater(s: string, at: nat, xs: seq<Cut>, ys: seq<Cut>)
    requires InOrder(s, at, ys) && xs != [] && StartsWithin(xs, ys)
    ensures ys != [] && ys[0].from <= xs[0].from
  {
    assert Within(ys, xs[0].from);
    var y :| 0 <= y < |ys| && ys[y].from <= xs[0].from < ys[y].to;
    if y > 0 { StartsLater(s, ys[0].to, ys[1..], y - 1); }
  }

  lemma RestStartsWithin(s: string, at: nat, xs: seq<Cut>, ys: seq<Cut>)
    requires InOrder(s, at, xs) && StartsWithin(xs, ys) && xs != [] && ys != [] && xs[0] == ys[0]
    ensures StartsWithin(xs[1..], ys[1..])
  {
    assert forall x | 0 <= x < |xs[1..]| :: xs[1..][x] == xs[x + 1];
    forall x | 0 <= x < |xs[1..]| ensures Within(ys[1..], xs[1..][x].from) {
      StartsLater(s, xs[0].to, xs[1..], x);
      assert Within(ys, xs[x + 1].from);
      var y :| 0 <= y < |ys| && ys[y].from <= xs[x + 1].from < ys[y].to;
      assert ys[1..][y - 1] == ys[y];
    }
  }

  lemma FirstIsTheSame(s: string, at: nat, xs: seq<Cut>, ys: seq<Cut>)
    requires InOrder(s, at, xs) && InOrder(s, at, ys) && OneAtEachPlace(xs, ys)
    requires StartsWithin(xs, ys) && StartsWithin(ys, xs) && xs != []
    ensures ys != [] && xs[0] == ys[0]
  {
    FirstIsNotLater(s, at, xs, ys);
    FirstIsNotLater(s, at, ys, xs);
  }

  lemma OneAtEachLaterPlace(xs: seq<Cut>, ys: seq<Cut>)
    requires OneAtEachPlace(xs, ys) && xs != [] && ys != []
    ensures OneAtEachPlace(xs[1..], ys[1..])
  {
  }

  lemma SameFirstAndRest<T>(xs: seq<T>, ys: seq<T>)
    requires xs != [] && ys != [] && xs[0] == ys[0] && xs[1..] == ys[1..]
    ensures xs == ys
  {
    assert xs == [xs[0]] + xs[1..] && ys == [ys[0]] + ys[1..];
  }

  /** Two lists of which each covers where the other starts are the same. */
  lemma {:induction false} OneWayToCut(s: string, at: nat, xs: seq<Cut>, ys: seq<Cut>)
    requires InOrder(s, at, xs) && InOrder(s, at, ys) && OneAtEachPlace(xs, ys)
    requires StartsWithin(xs, ys) && StartsWithin(ys, xs)
    ensures xs == ys
    decreases |xs|
  {
    if xs == [] {
      if ys != [] { FirstIsNotLater(s, at, ys, xs); }
    } else {
      FirstIsTheSame(s, at, xs, ys);
      RestStartsWithin(s, at, xs, ys);
      RestStartsWithin(s, at, ys, xs);
      OneAtEachLaterPlace(xs, ys);
      OneWayToCut(s, xs[0].to, xs[1..], ys[1..]);
      SameFirstAndRest(xs, ys);
    }
  }
}
