/** The coverage diff between an API specification and the wired inventory. */
module Coverage {
  import opened Common
  import opened CanonicalOperation
  import opened Ordering

  datatype Row = Row(verb: string, path: string, commands: seq<string>)

  datatype Operation = Operation(verb: string, path: string)

  datatype Stale = Stale(verb: string, path: string, commands: seq<string>)

  datatype Missing = Missing(verb: string, path: string)

  /** How operations are identified; the program's is `CanonicalOp`. */
  type Canon = (string, string) -> Option<Key>

  datatype Outside = Outside(verb: string, path: string, commands: seq<string>)

  /** The comparison itself, before its results are put in order. */
  datatype Report = Report(
    specOperations: nat, inventoryOperations: nat, inventoryTotal: nat, covered: nat, comparableSpec: nat,
    missing: seq<Missing>, stale: map<Key, Stale>, unmatched: seq<Operation>, outside: map<Key, seq<string>>)

  const HTTP_METHODS: set<string> := {"GET", "PUT", "POST", "DELETE", "PATCH", "HEAD", "OPTIONS", "TRACE"}

  predicate Http(o: Operation) { Upper(o.verb) in HTTP_METHODS }

  function KeyOf(canon: Canon, r: Row): Option<Key> { canon(r.verb, r.path) }

  function SpecKey(canon: Canon, base: string, o: Operation): Option<Key> { canon(o.verb, base + o.path) }

  // ---------------------------------------------------------------- what the report is about

  ghost function InventoryKeys(canon: Canon, inv: seq<Row>): set<Key> {
    set r | r in inv && KeyOf(canon, r).Some? :: KeyOf(canon, r).value
  }

  ghost function SpecKeys(canon: Canon, base: string, ops: seq<Operation>): set<Key> {
    set o | o in ops && Http(o) && SpecKey(canon, base, o).Some? :: SpecKey(canon, base, o).value
  }

  ghost function RawRows(inv: seq<Row>): set<Key> {
    set r | r in inv :: (r.verb, r.path)
  }

  ghost function OutsideRows(canon: Canon, inv: seq<Row>): set<Key> {
    set r | r in inv && KeyOf(canon, r).None? :: (r.verb, r.path)
  }

  /** Every command wired to some row with this key. */
  ghost function CommandsOf(canon: Canon, inv: seq<Row>, key: Key): set<string> {
    set r, c | r in inv && KeyOf(canon, r) == Some(key) && c in r.commands :: c
  }

  function HttpCount(ops: seq<Operation>): nat {
    if ops == [] then 0 else HttpCount(ops[..|ops| - 1]) + if Http(ops[|ops| - 1]) then 1 else 0
  }

  /** The operations the namespace cannot describe, in order. */
  function Unmatched(canon: Canon, base: string, ops: seq<Operation>): seq<Operation> {
    if ops == [] then []
    else
      var o := ops[|ops| - 1];
      Unmatched(canon, base, ops[..|ops| - 1]) + if Http(o) && SpecKey(canon, base, o).None? then [o] else []
  }

  predicate NoRepeats<T(==)>(s: seq<T>) {
    forall i, j | 0 <= i < j < |s| :: s[i] != s[j]
  }

  function Elements<T>(s: seq<T>): set<T> {
    set x | x in s
  }

  lemma ElementsGrow<T>(s: seq<T>, x: T)
    ensures Elements(s + [x]) == Elements(s) + {x}
  {
    assert forall y | y in s + [x] :: y in s || y == x;
    assert forall y | y in s :: y in s + [x];
    assert (s + [x])[|s|] == x;
  }

  // ---------------------------------------------------------------- the loops

  method Merge(into: seq<string>, commands: seq<string>) returns (all: seq<string>)
    requires NoRepeats(into)
    ensures NoRepeats(all) && Elements(all) == Elements(into) + Elements(commands)
  {
    all := into;
    for n := 0 to |commands|
      invariant NoRepeats(all) && Elements(all) == Elements(into) + Elements(commands[..n])
    {
      assert commands[..n + 1] == commands[..n] + [commands[n]];
      ElementsGrow(commands[..n], commands[n]);
      ElementsGrow(all, commands[n]);
      if commands[n] !in all { all := all + [commands[n]]; }
    }
    assert commands[..|commands|] == commands;
  }

  ghost predicate Gathered(canon: Canon, inv: seq<Row>, meta: map<Key, Stale>, outside: map<Key, seq<string>>) {
    && meta.Keys == InventoryKeys(canon, inv)
    && (forall k | k in meta :: NoRepeats(meta[k].commands) && Elements(meta[k].commands) == CommandsOf(canon, inv, k))
    && (forall k | k in meta :: NamedByFirst(canon, inv, k, meta[k]))
    && outside.Keys == OutsideRows(canon, inv)
    && (forall k | k in outside :: FirstWith(inv, k, outside[k]))
  }

  /** `commands` are those of the first row with this method and path. */
  ghost predicate FirstWith(inv: seq<Row>, raw: Key, commands: seq<string>) {
    exists i: nat :: IsFirst(inv, i, raw) && inv[i].commands == commands
  }

  predicate IsFirst(inv: seq<Row>, i: nat, raw: Key) {
    && i < |inv| && (inv[i].verb, inv[i].path) == raw
    && forall j | 0 <= j < i :: (inv[j].verb, inv[j].path) != raw
  }

  /** The entry has the method and path of the first row with this key. */
  ghost predicate NamedByFirst(canon: Canon, inv: seq<Row>, key: Key, entry: Stale) {
    exists i: nat :: IsFirstOfKey(canon, inv, i, key) && inv[i].verb == entry.verb && inv[i].path == entry.path
  }

  predicate IsFirstOfKey(canon: Canon, inv: seq<Row>, i: nat, key: Key) {
    && i < |inv| && KeyOf(canon, inv[i]) == Some(key)
    && forall j | 0 <= j < i :: KeyOf(canon, inv[j]) != Some(key)
  }

  lemma NameStays(canon: Canon, inv: seq<Row>, r: Row, key: Key, entry: Stale)
    requires NamedByFirst(canon, inv, key, entry)
    ensures NamedByFirst(canon, inv + [r], key, entry)
  {
    var i: nat :| IsFirstOfKey(canon, inv, i, key) && inv[i].verb == entry.verb && inv[i].path == entry.path;
    assert IsFirstOfKey(canon, inv + [r], i, key);
  }

  lemma NewKeyIsNamed(canon: Canon, inv: seq<Row>, r: Row, key: Key, entry: Stale)
    requires KeyOf(canon, r) == Some(key) && key !in InventoryKeys(canon, inv)
    requires entry.verb == r.verb && entry.path == r.path
    ensures NamedByFirst(canon, inv + [r], key, entry)
  {
    forall j | 0 <= j < |inv| ensures KeyOf(canon, inv[j]) != Some(key) {
      assert inv[j] in inv;
    }
    assert IsFirstOfKey(canon, inv + [r], |inv|, key);
  }

  lemma FirstStays(inv: seq<Row>, r: Row, raw: Key, commands: seq<string>)
    requires FirstWith(inv, raw, commands)
    ensures FirstWith(inv + [r], raw, commands)
  {
    var i: nat :| IsFirst(inv, i, raw) && inv[i].commands == commands;
    assert IsFirst(inv + [r], i, raw);
  }

  /** Whether a row is outside depends on its method and path alone. */
  lemma NewOutsideIsFirst(canon: Canon, inv: seq<Row>, r: Row)
    requires KeyOf(canon, r).None? && (r.verb, r.path) !in OutsideRows(canon, inv)
    ensures FirstWith(inv + [r], (r.verb, r.path), r.commands)
  {
    forall j | 0 <= j < |inv| ensures (inv[j].verb, inv[j].path) != (r.verb, r.path) {
      assert inv[j] in inv;
    }
    assert IsFirst(inv + [r], |inv|, (r.verb, r.path));
  }

  lemma OneMoreRow(canon: Canon, inv: seq<Row>, r: Row)
    ensures InventoryKeys(canon, inv + [r])
         == InventoryKeys(canon, inv) + if KeyOf(canon, r).Some? then {KeyOf(canon, r).value} else {}
    ensures OutsideRows(canon, inv + [r])
         == OutsideRows(canon, inv) + if KeyOf(canon, r).None? then {(r.verb, r.path)} else {}
    ensures RawRows(inv + [r]) == RawRows(inv) + {(r.verb, r.path)}
  {
    var more := inv + [r];
    assert forall x | x in more :: x in inv || x == r;
    assert forall x | x in inv :: x in more;
    assert r in more;
  }

  lemma OneMoreCommands(canon: Canon, inv: seq<Row>, r: Row, key: Key)
    ensures CommandsOf(canon, inv + [r], key)
         == CommandsOf(canon, inv, key) + if KeyOf(canon, r) == Some(key) then Elements(r.commands) else {}
  {
    var more := inv + [r];
    assert forall x | x in more :: x in inv || x == r;
    assert forall x | x in inv :: x in more;
    assert r in more;
  }

  lemma NoCommandsYet(canon: Canon, inv: seq<Row>, key: Key)
    requires key !in InventoryKeys(canon, inv)
    ensures CommandsOf(canon, inv, key) == {}
  {
    assert forall r | r in inv && KeyOf(canon, r).Some? :: KeyOf(canon, r).value in InventoryKeys(canon, inv);
  }

  /** A row outside the namespace; of several with the same method and path the first is kept. */
  lemma AddOutside(canon: Canon, inv: seq<Row>, meta: map<Key, Stale>, outside: map<Key, seq<string>>, r: Row)
    requires Gathered(canon, inv, meta, outside) && KeyOf(canon, r).None?
    ensures var raw := (r.verb, r.path);
            Gathered(canon, inv + [r], meta, if raw in outside then outside else outside[raw := r.commands])
  {
    OneMoreRow(canon, inv, r);
    forall k | k in meta
      ensures CommandsOf(canon, inv + [r], k) == CommandsOf(canon, inv, k)
      ensures NamedByFirst(canon, inv + [r], k, meta[k])
    {
      OneMoreCommands(canon, inv, r, k);
      NameStays(canon, inv, r, k, meta[k]);
    }
    forall k | k in outside ensures FirstWith(inv + [r], k, outside[k]) {
      FirstStays(inv, r, k, outside[k]);
    }
    if (r.verb, r.path) !in outside { NewOutsideIsFirst(canon, inv, r); }
  }

  lemma AddKey(canon: Canon, inv: seq<Row>, meta: map<Key, Stale>, outside: map<Key, seq<string>>, r: Row, entry: Stale)
    requires Gathered(canon, inv, meta, outside) && KeyOf(canon, r).Some?
    requires var key := KeyOf(canon, r).value;
             && NoRepeats(entry.commands)
             && (entry.verb, entry.path) == (if key in meta then (meta[key].verb, meta[key].path) else (r.verb, r.path))
             && Elements(entry.commands)
                == (if key in meta then Elements(meta[key].commands) else {}) + Elements(r.commands)
    ensures Gathered(canon, inv + [r], meta[KeyOf(canon, r).value := entry], outside)
  {
    var key := KeyOf(canon, r).value;
    OneMoreRow(canon, inv, r);
    if key !in meta { NoCommandsYet(canon, inv, key); }
    var more := meta[key := entry];
    forall k | k in more
      ensures NoRepeats(more[k].commands) && Elements(more[k].commands) == CommandsOf(canon, inv + [r], k)
      ensures NamedByFirst(canon, inv + [r], k, more[k])
    {
      OneMoreCommands(canon, inv, r, k);
      if k in meta { NameStays(canon, inv, r, k, meta[k]); } else { NewKeyIsNamed(canon, inv, r, k, more[k]); }
    }
    forall k | k in outside ensures FirstWith(inv + [r], k, outside[k]) {
      FirstStays(inv, r, k, outside[k]);
    }
  }

  /** One pass over the rows. A key that comes again keeps its first name and gains commands. */
  method Inventory(canon: Canon, inv: seq<Row>)
    returns (meta: map<Key, Stale>, outside: map<Key, seq<string>>, raw: set<Key>)
    ensures Gathered(canon, inv, meta, outside) && raw == RawRows(inv)
  {
    meta, outside, raw := map[], map[], {};
    for n := 0 to |inv|
      invariant Gathered(canon, inv[..n], meta, outside) && raw == RawRows(inv[..n])
    {
      var r := inv[n];
      var key := KeyOf(canon, r);
      assert inv[..n + 1] == inv[..n] + [r];
      OneMoreRow(canon, inv[..n], r);
      raw := raw + {(r.verb, r.path)};
      if key.None? {
        AddOutside(canon, inv[..n], meta, outside, r);
        if (r.verb, r.path) !in outside { outside := outside[(r.verb, r.path) := r.commands]; }
      } else {
        var entry := if key.value in meta then meta[key.value] else Stale(r.verb, r.path, []);
        var all := Merge(entry.commands, r.commands);
        AddKey(canon, inv[..n], meta, outside, r, entry.(commands := all));
        meta := meta[key.value := entry.(commands := all)];
      }
    }
    assert inv[..|inv|] == inv;
  }

  // ---------------------------------------------------------------- the diff

  ghost function MissingKeys(canon: Canon, base: string, missing: seq<Missing>): set<Key> {
    set m | m in missing && canon(m.verb, base + m.path).Some? :: canon(m.verb, base + m.path).value
  }

  /** The state after some specification entries. */
  ghost predicate Compared(
    canon: Canon, base: string, ops: seq<Operation>, invKeys: set<Key>,
    specKeys: set<Key>, missing: seq<Missing>, unmatched: seq<Operation>, count: nat)
  {
    && specKeys == SpecKeys(canon, base, ops)
    && MissingKeys(canon, base, missing) == specKeys - invKeys
    && (forall m | m in missing :: canon(m.verb, base + m.path).Some?)
    && unmatched == Unmatched(canon, base, ops)
    && count == HttpCount(ops)
  }

  lemma OneMoreOperation(canon: Canon, base: string, ops: seq<Operation>, o: Operation)
    ensures SpecKeys(canon, base, ops + [o])
         == SpecKeys(canon, base, ops)
            + if Http(o) && SpecKey(canon, base, o).Some? then {SpecKey(canon, base, o).value} else {}
    ensures HttpCount(ops + [o]) == HttpCount(ops) + if Http(o) then 1 else 0
    ensures Unmatched(canon, base, ops + [o])
         == Unmatched(canon, base, ops) + if Http(o) && SpecKey(canon, base, o).None? then [o] else []
  {
    var more := ops + [o];
    assert forall x | x in more :: x in ops || x == o;
    assert forall x | x in ops :: x in more;
    assert o in more;
    assert more[..|ops|] == ops;
  }

  lemma OneMoreMissing(canon: Canon, base: string, missing: seq<Missing>, m: Missing, key: Key)
    requires canon(m.verb, base + m.path) == Some(key)
    ensures MissingKeys(canon, base, missing + [m]) == MissingKeys(canon, base, missing) + {key}
  {
    var more := missing + [m];
    assert forall x | x in more :: x in missing || x == m;
    assert forall x | x in missing :: x in more;
    assert m in more;
  }

  ghost predicate CaseBlind(canon: Canon) {
    forall verb: string, path: string :: canon(Upper(verb), path) == canon(verb, path)
  }

  /** A key carries its verb in upper case. */
  ghost predicate KeepsVerb(canon: Canon) {
    forall verb: string, path: string | canon(verb, path).Some? :: canon(verb, path).value.0 == Upper(verb)
  }

  method Compare(canon: Canon, base: string, ops: seq<Operation>, invKeys: set<Key>)
    returns (specKeys: set<Key>, missing: seq<Missing>, unmatched: seq<Operation>, count: nat)
    requires CaseBlind(canon) && KeepsVerb(canon)
    ensures Compared(canon, base, ops, invKeys, specKeys, missing, unmatched, count)
  {
    specKeys, missing, unmatched, count := {}, [], [], 0;
    for n := 0 to |ops|
      invariant Compared(canon, base, ops[..n], invKeys, specKeys, missing, unmatched, count)
    {
      var o := ops[n];
      assert ops[..n + 1] == ops[..n] + [o];
      OneMoreOperation(canon, base, ops[..n], o);
      if Http(o) {
        count := count + 1;
        var key := SpecKey(canon, base, o);
        if key.None? {
          unmatched := unmatched + [o];
        } else {
          specKeys := specKeys + {key.value};
          if key.value !in invKeys {
            var m := Missing(key.value.0, o.path);
            assert canon(Upper(o.verb), base + o.path) == key;
            OneMoreMissing(canon, base, missing, m, key.value);
            missing := missing + [m];
          }
        }
      }
    }
    assert ops[..|ops|] == ops;
  }

  /** What each part of a report says about its inputs. */
  ghost predicate Right(canon: Canon, base: string, ops: seq<Operation>, inv: seq<Row>, r: Report) {
    && r.specOperations == HttpCount(ops)
    && r.inventoryOperations == |InventoryKeys(canon, inv)|
    && r.inventoryTotal == |RawRows(inv)|
    && r.covered == |InventoryKeys(canon, inv) * SpecKeys(canon, base, ops)|
    && r.comparableSpec == |SpecKeys(canon, base, ops)|
    && MissingKeys(canon, base, r.missing) == SpecKeys(canon, base, ops) - InventoryKeys(canon, inv)
    && r.stale.Keys == InventoryKeys(canon, inv) - SpecKeys(canon, base, ops)
    && (forall k | k in r.stale ::
          NamedByFirst(canon, inv, k, r.stale[k]) && Elements(r.stale[k].commands) == CommandsOf(canon, inv, k))
    && (forall k | k in r.outside :: FirstWith(inv, k, r.outside[k]))
    && r.unmatched == Unmatched(canon, base, ops)
    && r.outside.Keys == OutsideRows(canon, inv)
  }

  lemma StaleIsRight(canon: Canon, inv: seq<Row>, meta: map<Key, Stale>, outside: map<Key, seq<string>>, spec: set<Key>)
    requires Gathered(canon, inv, meta, outside)
    ensures (meta - spec).Keys == InventoryKeys(canon, inv) - spec
    ensures forall k | k in meta - spec ::
              NamedByFirst(canon, inv, k, (meta - spec)[k])
              && Elements((meta - spec)[k].commands) == CommandsOf(canon, inv, k)
    ensures outside.Keys == OutsideRows(canon, inv) && forall k | k in outside :: FirstWith(inv, k, outside[k])
  {
  }

  /** `comparableSpec` is what the percentage is taken of; no percentage is given when it is zero. */
  method Diff(canon: Canon, base: string, ops: seq<Operation>, inv: seq<Row>) returns (r: Report)
    requires CaseBlind(canon) && KeepsVerb(canon)
    ensures Right(canon, base, ops, inv, r)
  {
    var meta, outside, raw := Inventory(canon, inv);
    var keys := meta.Keys;
    var specKeys, missing, unmatched, count := Compare(canon, base, ops, keys);
    StaleIsRight(canon, inv, meta, outside, specKeys);
    r := Report(count, |keys|, |raw|, |specKeys * keys|, |specKeys|, missing, meta - specKeys, unmatched, outside);
    assert specKeys * keys == keys * specKeys;
  }

  // ---------------------------------------------------------------- nothing is lost in the counts

  lemma {:induction false} ImageIsNoLarger(canon: Canon, xs: set<Key>, ys: set<Key>)
    requires forall y | y in ys :: exists x :: x in xs && canon(x.0, x.1) == Some(y)
    ensures |ys| <= |xs|
    decreases xs
  {
    if ys != {} {
      var y :| y in ys;
      var x :| x in xs && canon(x.0, x.1) == Some(y);
      forall z | z in ys - {y} ensures exists w :: w in xs - {x} && canon(w.0, w.1) == Some(z) {
        var w :| w in xs && canon(w.0, w.1) == Some(z);
        assert w in xs - {x};
      }
      ImageIsNoLarger(canon, xs - {x}, ys - {y});
    }
  }

  lemma SplitCount(a: set<Key>, b: set<Key>)
    ensures |a| == |a * b| + |a - b|
  {
    assert a == a * b + (a - b);
  }

  lemma CountsAddUp(canon: Canon, base: string, ops: seq<Operation>, inv: seq<Row>, r: Report)
    requires Right(canon, base, ops, inv, r)
    ensures r.covered + |r.stale| == r.inventoryOperations
    ensures r.covered + |MissingKeys(canon, base, r.missing)| == r.comparableSpec
  {
    var inventory, spec := InventoryKeys(canon, inv), SpecKeys(canon, base, ops);
    SplitCount(inventory, spec);
    SplitCount(spec, inventory);
    assert inventory * spec == spec * inventory;
    assert |r.stale| == |r.stale.Keys|;
  }

  lemma TotalCoversBoth(canon: Canon, inv: seq<Row>)
    ensures |RawRows(inv)| >= |InventoryKeys(canon, inv)| + |OutsideRows(canon, inv)|
  {
    var outside := OutsideRows(canon, inv);
    var inside := RawRows(inv) - outside;
    assert outside <= RawRows(inv);
    assert RawRows(inv) == inside + outside;
    forall y | y in InventoryKeys(canon, inv) ensures exists x :: x in inside && canon(x.0, x.1) == Some(y) {
      var row :| row in inv && KeyOf(canon, row) == Some(y);
      assert (row.verb, row.path) in inside;
    }
    ImageIsNoLarger(canon, inside, InventoryKeys(canon, inv));
  }

  lemma StaleNamesAll(canon: Canon, base: string, ops: seq<Operation>, inv: seq<Row>, r: Report, row: Row, c: string)
    requires Right(canon, base, ops, inv, r)
    requires row in inv && c in row.commands && KeyOf(canon, row).Some? && KeyOf(canon, row).value in r.stale
    ensures c in r.stale[KeyOf(canon, row).value].commands
  {
    var key := KeyOf(canon, row).value;
    assert c in CommandsOf(canon, inv, key);
    assert c in Elements(r.stale[key].commands);
  }

  /** The program's identification of operations meets what the diff relies on. */
  lemma ProgramCanon()
    ensures CaseBlind(CanonicalOp) && KeepsVerb(CanonicalOp)
  {
    forall verb: string, path: string ensures CanonicalOp(Upper(verb), path) == CanonicalOp(verb, path) {
      assert Upper(Upper(verb)) == Upper(verb);
    }
  }

  // ---------------------------------------------------------------- the report as it is printed

  /** `tenths` is the percentage covered, in tenths; none is given when nothing is comparable. */
  datatype Listing = Listing(
    tenths: Option<nat>, missing: seq<Missing>, stale: seq<Stale>, unmatched: seq<Operation>, outside: seq<Outside>)

  /** What follows `/v4/`, up to the next slash. */
  function ResourceOf(path: string): string {
    UpToSlash(if "/v4/" <= path then path[4..] else path)
  }

  function UpToSlash(s: string): string {
    if s == "" || s[0] == '/' then "" else [s[0]] + UpToSlash(s[1..])
  }

  function MissingOrder(canon: Canon, base: string): Missing -> seq<string> {
    (m: Missing) =>
      var key := canon(m.verb, base + m.path);
      [if key.Some? then ResourceOf(key.value.1) else "", m.path, m.verb]
  }

  const STALE_ORDER: Stale -> seq<string> := (s: Stale) => [s.path, s.verb]

  const OUTSIDE_ORDER: Outside -> seq<string> := (o: Outside) => [o.path, o.verb]

  const UNMATCHED_ORDER: Operation -> seq<string> := (o: Operation) => [Upper(o.verb) + " " + o.path]

  /** The nearest number of tenths of a percent, halves rounded up. */
  ghost predicate Nearest(tenths: nat, covered: nat, total: nat) {
    2000 * covered - total < 2 * total * tenths <= 2000 * covered + total
  }

  /** Each key of `meta` has its entry in `s`, once. */
  ghost predicate ListsEntries(meta: map<Key, Stale>, s: seq<Stale>) {
    && NoRepeats(s)
    && (forall e | e in s :: e in meta.Values)
    && (forall k | k in meta :: meta[k] in s)
  }

  ghost predicate ListsOutside(outside: map<Key, seq<string>>, s: seq<Outside>) {
    && NoRepeats(s)
    && (forall o | o in s :: (o.verb, o.path) in outside && outside[(o.verb, o.path)] == o.commands)
    && (forall k | k in outside :: Outside(k.0, k.1, outside[k]) in s)
  }

  /** The listing says in order what the comparison found. */
  ghost predicate Presents(canon: Canon, base: string, r: Report, l: Listing) {
    && (l.tenths.None? <==> r.comparableSpec == 0)
    && (l.tenths.Some? ==> Nearest(l.tenths.value, r.covered, r.comparableSpec))
    && SortedBy(MissingOrder(canon, base), l.missing) && multiset(l.missing) == multiset(r.missing)
    && SortedBy(STALE_ORDER, l.stale) && ListsEntries(r.stale, l.stale)
    && SortedBy(UNMATCHED_ORDER, l.unmatched) && multiset(l.unmatched) == multiset(r.unmatched)
    && SortedBy(OUTSIDE_ORDER, l.outside) && ListsOutside(r.outside, l.outside)
  }

  method Percentage(covered: nat, total: nat) returns (tenths: Option<nat>)
    ensures tenths.None? <==> total == 0
    ensures tenths.Some? ==> Nearest(tenths.value, covered, total)
  {
    if total == 0 { return None; }
    tenths := Some((2000 * covered + total) / (2 * total));
    var x, y := 2000 * covered + total, 2 * total;
    assert x == y * (x / y) + x % y && 0 <= x % y < y;
  }

  lemma SameElements<T>(s: seq<T>, t: seq<T>)
    requires multiset(s) == multiset(t)
    ensures forall x :: x in s <==> x in t
    ensures NoRepeats(s) ==> NoRepeats(t)
  {
    forall x ensures x in s <==> x in t {
      assert x in multiset(s) <==> x in multiset(t);
    }
    if NoRepeats(s) && !NoRepeats(t) {
      var i, j :| 0 <= i < j < |t| && t[i] == t[j];
      OnceOnly(s, t[i]);
      TwiceAtLeast(t, i, j);
    }
  }

  lemma {:induction false} OnceOnly<T>(s: seq<T>, x: T)
    requires NoRepeats(s)
    ensures multiset(s)[x] <= 1
    decreases |s|
  {
    if s != [] {
      var n := |s| - 1;
      assert s == s[..n] + [s[n]];
      OnceOnly(s[..n], x);
      if s[n] == x { assert x !in s[..n]; }
    }
  }

  lemma TwiceAtLeast<T>(t: seq<T>, i: nat, j: nat)
    requires i < j < |t| && t[i] == t[j]
    ensures multiset(t)[t[i]] >= 2
  {
    assert t == t[..j] + [t[j]] + t[j + 1..];
    assert t[i] in t[..j];
  }

  /** The entries, in whatever order the hash map yields them, and then sorted. */
  method ListStale(canon: Canon, meta: map<Key, Stale>) returns (s: seq<Stale>)
    requires forall k | k in meta :: canon(meta[k].verb, meta[k].path) == Some(k)
    ensures SortedBy(STALE_ORDER, s) && ListsEntries(meta, s)
  {
    var found: seq<Stale> := [];
    var todo := meta.Keys;
    while todo != {}
      invariant todo <= meta.Keys && NoRepeats(found)
      invariant forall e | e in found :: exists k :: k in meta.Keys - todo && meta[k] == e
      invariant forall k | k in meta.Keys - todo :: meta[k] in found
      decreases todo
    {
      var k :| k in todo;
      assert meta[k] !in found;
      found := found + [meta[k]];
      todo := todo - {k};
    }
    s := Sort(STALE_ORDER, found);
    SameElements(found, s);
  }

  method ListOutside(outside: map<Key, seq<string>>) returns (s: seq<Outside>)
    ensures SortedBy(OUTSIDE_ORDER, s) && ListsOutside(outside, s)
  {
    var found: seq<Outside> := [];
    var todo := outside.Keys;
    while todo != {}
      invariant todo <= outside.Keys && NoRepeats(found)
      invariant forall o | o in found ::
                  (o.verb, o.path) in outside.Keys - todo && outside[(o.verb, o.path)] == o.commands
      invariant forall k | k in outside.Keys - todo :: Outside(k.0, k.1, outside[k]) in found
      decreases todo
    {
      var k :| k in todo;
      found := found + [Outside(k.0, k.1, outside[k])];
      todo := todo - {k};
    }
    s := Sort(OUTSIDE_ORDER, found);
    SameElements(found, s);
  }

  /** The report of the program: the comparison, sorted, with its percentage. */
  method CoverageReport(base: string, ops: seq<Operation>, inv: seq<Row>) returns (r: Report, l: Listing)
    ensures Right(CanonicalOp, base, ops, inv, r) && Presents(CanonicalOp, base, r, l)
  {
    ProgramCanon();
    r := Diff(CanonicalOp, base, ops, inv);
    var tenths := Percentage(r.covered, r.comparableSpec);
    var missing := Sort(MissingOrder(CanonicalOp, base), r.missing);
    StaleKeysAreTheirEntries(CanonicalOp, base, ops, inv, r);
    var stale := ListStale(CanonicalOp, r.stale);
    var unmatched := Sort(UNMATCHED_ORDER, r.unmatched);
    var outside := ListOutside(r.outside);
    l := Listing(tenths, missing, stale, unmatched, outside);
  }

  lemma StaleKeysAreTheirEntries(canon: Canon, base: string, ops: seq<Operation>, inv: seq<Row>, r: Report)
    requires Right(canon, base, ops, inv, r)
    ensures forall k | k in r.stale :: canon(r.stale[k].verb, r.stale[k].path) == Some(k)
  {
    forall k | k in r.stale ensures canon(r.stale[k].verb, r.stale[k].path) == Some(k) {
      assert NamedByFirst(canon, inv, k, r.stale[k]);
    }
  }

  lemma AllTenths(tenths: nat, covered: nat, total: nat, missing: nat)
    requires covered + missing == total && total > 0 && Nearest(tenths, covered, total)
    ensures tenths == 1000 <==> 2000 * missing <= total
  {
    if tenths < 1000 { Times(2 * total, tenths, 999); }
    if tenths > 1000 { Times(2 * total, 1001, tenths); }
  }

  lemma Times(x: nat, y: nat, z: nat)
    requires y <= z
    ensures x * y <= x * z
  {
    assert x * z == x * y + x * (z - y);
  }

  /**
  The report shows 100.0 percent exactly when at most one operation in two
  thousand is missing, not exactly when none is.
  */
  lemma ShowsFullCoverageExactlyWhen(
    canon: Canon, base: string, ops: seq<Operation>, inv: seq<Row>, r: Report, l: Listing)
    requires Right(canon, base, ops, inv, r) && Presents(canon, base, r, l) && r.comparableSpec > 0
    ensures l.tenths == Some(1000) <==> 2000 * |MissingKeys(canon, base, r.missing)| <= r.comparableSpec
  {
    CountsAddUp(canon, base, ops, inv, r);
    AllTenths(l.tenths.value, r.covered, r.comparableSpec, |MissingKeys(canon, base, r.missing)|);
  }

  /**
  Every comparable inventory key is covered or stale, every comparable
  specification key covered or missing, each exactly once; a stale entry names
  every command that shares its key; and the raw total is at least what was
  compared plus what could not be.
  */
  lemma NothingIsLost(canon: Canon, base: string, ops: seq<Operation>, inv: seq<Row>, r: Report)
    requires Right(canon, base, ops, inv, r)
    ensures r.covered + |r.stale| == r.inventoryOperations
    ensures r.covered + |MissingKeys(canon, base, r.missing)| == r.comparableSpec
    ensures r.inventoryTotal >= r.inventoryOperations + |r.outside|
    ensures forall row, c |
              row in inv && c in row.commands && KeyOf(canon, row).Some? && KeyOf(canon, row).value in r.stale ::
              c in r.stale[KeyOf(canon, row).value].commands
  {
    CountsAddUp(canon, base, ops, inv, r);
    TotalCoversBoth(canon, inv);
    assert |r.outside| == |r.outside.Keys|;
    forall row, c | row in inv && c in row.commands && KeyOf(canon, row).Some? && KeyOf(canon, row).value in r.stale
      ensures c in r.stale[KeyOf(canon, row).value].commands
    {
      StaleNamesAll(canon, base, ops, inv, r, row, c);
    }
  }
}
