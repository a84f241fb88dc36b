/** Saved workspace credentials: their identities, selection, and the legacy key migration. */
module WorkspaceCredentials {
  import opened Common
  import opened Text

  /** One secret slot: a value, a reference to one, both or neither. */
  datatype Secret = Secret(value: Option<string>, reference: Option<string>)

  datatype Credential = Credential(
    workspaceId: Option<string>, workspaceGid: Option<string>, workspaceName: Option<string>,
    health: Option<string>,
    accessToken: Secret, refreshToken: Secret, workspacePassword: Secret,
    clientSecret: Secret, spClientSecret: Secret)

  type Credentials = map<string, Credential>

  const CURRENT_SCHEMA := 1

  predicate Numeric(id: string) {
    id != "" && forall c | c in id :: IsDigit(c)
  }

  predicate Identified(c: Credential) {
    c.workspaceId.Some?
  }

  predicate Clash(a: Option<string>, b: Option<string>) {
    a.Some? && a == b
  }

  /** No two identified records share an ID, a GID or a name. */
  ghost predicate IdentitiesOk(m: Credentials) {
    && (forall k | k in m && Identified(m[k]) :: Numeric(m[k].workspaceId.value))
    && (forall k, l | k in m && l in m && k != l && Identified(m[k]) && Identified(m[l]) ::
          Distinct(m[k], m[l]))
  }

  predicate Distinct(a: Credential, b: Credential) {
    && !Clash(a.workspaceId, b.workspaceId)
    && !Clash(a.workspaceGid, b.workspaceGid)
    && !Clash(a.workspaceName, b.workspaceName)
  }

  // ---------------------------------------------------------------- the migration's meaning

  function TargetKey(k: string, c: Credential): string {
    if Identified(c) && Numeric(c.workspaceId.value) then c.workspaceId.value else k
  }

  function Mark(c: Credential): Credential {
    if Identified(c) && Numeric(c.workspaceId.value) then c else c.(health := Some("stale"))
  }

  ghost predicate NoCollision(m: Credentials) {
    forall k, l | k in m && l in m && k != l :: TargetKey(k, m[k]) != TargetKey(l, m[l])
  }

  /** `r` holds each record of `m` once, under its target key, and nothing else. */
  ghost predicate Rekeyed(m: Credentials, r: Credentials) {
    && (forall k | k in m :: TargetKey(k, m[k]) in r && r[TargetKey(k, m[k])] == Mark(m[k]))
    && (forall t | t in r :: exists k | k in m :: TargetKey(k, m[k]) == t)
    && |r| == |m|
  }

  predicate HasNumericId(c: Credential) {
    c.workspaceId.Some? && Numeric(c.workspaceId.value)
  }

  /** Under its ID and as it was; or, without an ID to go by, in place and changed in its health alone. */
  predicate RecordKept(k: string, c: Credential, r: Credentials) {
    if HasNumericId(c) then c.workspaceId.value in r && r[c.workspaceId.value] == c
    else k in r && r[k].health == Some("stale") && r[k].(health := c.health) == c
  }

  /** Each record of `m` is kept exactly once, and there are no others. */
  ghost predicate AllKept(m: Credentials, r: Credentials) {
    && |r| == |m|
    && (forall k | k in m :: RecordKept(k, m[k], r))
    && (forall t | t in r :: (t in m && !HasNumericId(m[t])) || Claimed(m, t))
  }

  /** Some record has the ID `t`. */
  ghost predicate Claimed(m: Credentials, t: string) {
    exists k | k in m :: HasNumericId(m[k]) && m[k].workspaceId.value == t
  }

  /** No ID of a record is the key of another record that has no ID. */
  ghost predicate KeysAreFree(m: Credentials) {
    forall k | k in m && Identified(m[k]) && m[k].workspaceId.value in m ::
      m[k].workspaceId.value == k || Identified(m[m[k].workspaceId.value])
  }

  /** The records that are not under their own IDs yet. */
  function Misplaced(m: Credentials): set<string> {
    set k | k in m && m[k].workspaceId.Some? && m[k].workspaceId.value != k
  }

  lemma RekeyedKeepsAll(m: Credentials, r: Credentials)
    requires Rekeyed(m, r)
    ensures AllKept(m, r)
  {
    forall k | k in m ensures RecordKept(k, m[k], r) {
      assert r[TargetKey(k, m[k])] == Mark(m[k]);
    }
    forall t | t in r ensures (t in m && !HasNumericId(m[t])) || Claimed(m, t) {
      var k :| k in m && TargetKey(k, m[k]) == t;
      if HasNumericId(m[k]) { assert Claimed(m, t); }
    }
  }

  lemma FreeKeysDoNotCollide(m: Credentials)
    requires IdentitiesOk(m)
    ensures NoCollision(m) <==> KeysAreFree(m)
    ensures Moved(m) == Misplaced(m)
  {
    if KeysAreFree(m) {
      forall k, l | k in m && l in m && k != l ensures TargetKey(k, m[k]) != TargetKey(l, m[l]) {
        if Identified(m[k]) && Identified(m[l]) { assert Distinct(m[k], m[l]); }
      }
    } else {
      var k :| k in m && Identified(m[k]) && m[k].workspaceId.value in m
               && m[k].workspaceId.value != k && !Identified(m[m[k].workspaceId.value]);
      var l := m[k].workspaceId.value;
      assert TargetKey(k, m[k]) == l == TargetKey(l, m[l]);
    }
  }

  function Moved(m: Credentials): set<string> {
    set k | k in m && TargetKey(k, m[k]) != k
  }

  /** Nothing is left to move or to mark. */
  ghost predicate Canonical(m: Credentials) {
    forall k | k in m :: TargetKey(k, m[k]) == k && Mark(m[k]) == m[k]
  }

  lemma RekeyedIsCanonical(m: Credentials, r: Credentials)
    requires Rekeyed(m, r)
    ensures Canonical(r) && NoCollision(r) && Moved(r) == {}
  {
    forall t | t in r ensures TargetKey(t, r[t]) == t && Mark(r[t]) == r[t] {
      var k :| k in m && TargetKey(k, m[k]) == t;
      assert r[t] == Mark(m[k]);
    }
  }

  /** Distinctness does not depend on the keys, so re-keying cannot break it. */
  lemma RekeyingKeepsIdentities(m: Credentials, r: Credentials)
    requires IdentitiesOk(m) && Rekeyed(m, r)
    ensures IdentitiesOk(r)
  {
    forall s, t | s in r && t in r && s != t && Identified(r[s]) && Identified(r[t])
      ensures Distinct(r[s], r[t])
    {
      MovedStayDistinct(m, r, s, t);
    }
    forall t | t in r && Identified(r[t]) ensures Numeric(r[t].workspaceId.value) {
      var k :| k in m && TargetKey(k, m[k]) == t;
      assert r[t] == Mark(m[k]);
    }
  }

  lemma MovedStayDistinct(m: Credentials, r: Credentials, s: string, t: string)
    requires IdentitiesOk(m) && Rekeyed(m, r)
    requires s in r && t in r && s != t && Identified(r[s]) && Identified(r[t])
    ensures Distinct(r[s], r[t])
  {
    var k :| k in m && TargetKey(k, m[k]) == s;
    var l :| l in m && TargetKey(l, m[l]) == t;
    assert r[s] == Mark(m[k]) && r[t] == Mark(m[l]);
    assert k != l;
  }

  datatype MigrationError = SchemaTooNew | BadIdentities | WouldMerge(key: string)

  // ---------------------------------------------------------------- the profile object

  class AlteryxOneProfile {
    var schemaVersion: nat
    var credentials: Credentials

    constructor (schemaVersion: nat, credentials: Credentials)
      ensures this.schemaVersion == schemaVersion && this.credentials == credentials
    {
      this.schemaVersion := schemaVersion;
      this.credentials := credentials;
    }

    method ValidateWorkspaceIdentities() returns (ok: bool)
      ensures ok <==> IdentitiesOk(credentials)
    {
      ok := CheckIdentities(credentials);
    }

    /**
    An error leaves the profile as it was; success loses no record, invents
    none, and counts the keys that moved.  The closing validation cannot fail.
    */
    method MigrateWorkspaceCredentials() returns (r: Result<nat, MigrationError>)
      modifies this
      ensures r.Err? ==> schemaVersion == old(schemaVersion) && credentials == old(credentials)
      ensures r.Ok? <==> old(schemaVersion) <= CURRENT_SCHEMA && IdentitiesOk(old(credentials))
                         && KeysAreFree(old(credentials))
      ensures r.Ok? ==> AllKept(old(credentials), credentials) && schemaVersion == CURRENT_SCHEMA
      ensures r.Ok? ==>
                r.value == |Misplaced(old(credentials))| + if old(schemaVersion) == CURRENT_SCHEMA then 0 else 1
      ensures r.Ok? ==> Rekeyed(old(credentials), credentials)
    {
      if schemaVersion > CURRENT_SCHEMA { return Err(SchemaTooNew); }
      var ok := ValidateWorkspaceIdentities();
      if !ok { return Err(BadIdentities); }
      var changes := if schemaVersion != CURRENT_SCHEMA then 1 else 0;
      FreeKeysDoNotCollide(credentials);
      var normalized := Normalize(credentials);
      if normalized.Err? { return Err(normalized.error); }
      changes := changes + normalized.value.1;
      RekeyingKeepsIdentities(credentials, normalized.value.0);
      RekeyedKeepsAll(credentials, normalized.value.0);
      credentials := normalized.value.0;
      schemaVersion := CURRENT_SCHEMA;
      ok := ValidateWorkspaceIdentities();
      assert ok;
      return Ok(changes);
    }
  }

  datatype Field = Id | Gid | Name

  function Get(c: Credential, f: Field): Option<string> {
    match f
    case Id => c.workspaceId
    case Gid => c.workspaceGid
    case Name => c.workspaceName
  }

  /** A table maps each ID, GID or name to the one identified record that claimed it. */
  ghost predicate Claims(m: Credentials, seen: set<string>, table: map<string, string>, f: Field) {
    && seen <= m.Keys
    && (forall k | k in seen && Identified(m[k]) && Get(m[k], f).Some? ::
          Get(m[k], f).value in table && table[Get(m[k], f).value] == k)
    && (forall x | x in table :: table[x] in seen && Identified(m[table[x]]) && Get(m[table[x]], f) == Some(x))
  }

  /** Enter one record's value in a table, unless another record has it. */
  method Claim(table: map<string, string>, k: string, f: Field, m: Credentials, ghost seen: set<string>)
    returns (ok: bool, table': map<string, string>)
    requires Claims(m, seen, table, f) && k in m && k !in seen && Identified(m[k])
    ensures ok <==> forall l | l in seen && Identified(m[l]) :: !Clash(Get(m[k], f), Get(m[l], f))
    ensures ok ==> Claims(m, seen + {k}, table', f)
  {
    var value := Get(m[k], f);
    table' := table;
    if value.None? { return true, table; }
    if value.value in table {
      assert Clash(Get(m[k], f), Get(m[table[value.value]], f));
      return false, table;
    }
    return true, table[value.value := k];
  }

  lemma SkipUnidentified(m: Credentials, seen: set<string>, table: map<string, string>, f: Field, k: string)
    requires Claims(m, seen, table, f) && k in m && !Identified(m[k])
    ensures Claims(m, seen + {k}, table, f)
  {
  }

  /** The records of `seen` are identified consistently. */
  ghost predicate SeenOk(m: Credentials, seen: set<string>) {
    && seen <= m.Keys
    && (forall k | k in seen && Identified(m[k]) :: Numeric(m[k].workspaceId.value))
    && (forall k, l | k in seen && l in seen && k != l && Identified(m[k]) && Identified(m[l]) ::
          Distinct(m[k], m[l]))
  }

  lemma SeenOneMore(m: Credentials, seen: set<string>, k: string)
    requires SeenOk(m, seen) && k in m && Identified(m[k]) && Numeric(m[k].workspaceId.value)
    requires forall l, f: Field | l in seen && Identified(m[l]) :: !Clash(Get(m[k], f), Get(m[l], f))
    ensures SeenOk(m, seen + {k})
  {
    forall l | l in seen && Identified(m[l]) ensures Distinct(m[k], m[l]) && Distinct(m[l], m[k]) {
      assert !Clash(Get(m[k], Id), Get(m[l], Id));
      assert !Clash(Get(m[k], Gid), Get(m[l], Gid));
      assert !Clash(Get(m[k], Name), Get(m[l], Name));
    }
  }

  lemma ClashIsFatal(m: Credentials, seen: set<string>, k: string, f: Field)
    requires seen <= m.Keys && k in m && k !in seen && Identified(m[k])
    requires exists l :: l in seen && Identified(m[l]) && Clash(Get(m[k], f), Get(m[l], f))
    ensures !IdentitiesOk(m)
  {
    var l :| l in seen && Identified(m[l]) && Clash(Get(m[k], f), Get(m[l], f));
    assert !Distinct(m[k], m[l]);
  }

  datatype Tables = Tables(ids: map<string, string>, gids: map<string, string>, names: map<string, string>)

  ghost predicate AllClaims(m: Credentials, seen: set<string>, t: Tables) {
    Claims(m, seen, t.ids, Id) && Claims(m, seen, t.gids, Gid) && Claims(m, seen, t.names, Name)
  }

  /** One identified record: numeric, and first to claim its ID, GID and name. */
  method Enter(m: Credentials, k: string, t: Tables, ghost seen: set<string>) returns (ok: bool, t': Tables)
    requires AllClaims(m, seen, t) && SeenOk(m, seen) && k in m && k !in seen && Identified(m[k])
    ensures ok ==> AllClaims(m, seen + {k}, t') && SeenOk(m, seen + {k})
    ensures !ok ==> !IdentitiesOk(m)
  {
    t' := t;
    if !Numeric(m[k].workspaceId.value) { return false, t; }
    var ids, gids, names;
    ok, ids := Claim(t.ids, k, Id, m, seen);
    if !ok { ClashIsFatal(m, seen, k, Id); return; }
    ok, gids := Claim(t.gids, k, Gid, m, seen);
    if !ok { ClashIsFatal(m, seen, k, Gid); return; }
    ok, names := Claim(t.names, k, Name, m, seen);
    if !ok { ClashIsFatal(m, seen, k, Name); return; }
    forall l, f: Field | l in seen && Identified(m[l]) ensures !Clash(Get(m[k], f), Get(m[l], f)) {
      match f case Id => case Gid => case Name =>
    }
    SeenOneMore(m, seen, k);
    t' := Tables(ids, gids, names);
  }

  lemma Skip(m: Credentials, seen: set<string>, t: Tables, k: string)
    requires AllClaims(m, seen, t) && SeenOk(m, seen) && k in m && !Identified(m[k])
    ensures AllClaims(m, seen + {k}, t) && SeenOk(m, seen + {k})
  {
    SkipUnidentified(m, seen, t.ids, Id, k);
    SkipUnidentified(m, seen, t.gids, Gid, k);
    SkipUnidentified(m, seen, t.names, Name, k);
  }

  lemma AllSeen(m: Credentials)
    ensures SeenOk(m, m.Keys) <==> IdentitiesOk(m)
  {
  }

  /** `validate_workspace_identities`: one pass with three tables of claims. */
  method CheckIdentities(m: Credentials) returns (ok: bool)
    ensures ok <==> IdentitiesOk(m)
  {
    var t := Tables(map[], map[], map[]);
    var todo := m.Keys;
    ghost var seen: set<string> := {};
    while todo != {}
      invariant todo + seen == m.Keys && todo !! seen
      invariant AllClaims(m, seen, t) && SeenOk(m, seen)
      decreases todo
    {
      var k :| k in todo;
      todo := todo - {k};
      if Identified(m[k]) {
        ok, t := Enter(m, k, t, seen);
        if !ok { return; }
      } else {
        Skip(m, seen, t, k);
      }
      seen := seen + {k};
    }
    assert seen == m.Keys;
    AllSeen(m);
    return true;
  }

  /** The records of `seen` are in `r` under their target keys; `origin` says whose each entry is. */
  ghost predicate Partly(m: Credentials, seen: set<string>, r: Credentials, origin: map<string, string>) {
    && seen <= m.Keys && origin.Keys == r.Keys && |r| == |seen|
    && (forall k | k in seen ::
          var t := TargetKey(k, m[k]); t in r && r[t] == Mark(m[k]) && origin[t] == k)
    && (forall t | t in r :: origin[t] in seen && TargetKey(origin[t], m[origin[t]]) == t)
  }

  lemma PartlyOneMore(m: Credentials, seen: set<string>, r: Credentials, origin: map<string, string>, k: string)
    requires Partly(m, seen, r, origin) && k in m && k !in seen && TargetKey(k, m[k]) !in r
    ensures var t := TargetKey(k, m[k]);
            Partly(m, seen + {k}, r[t := Mark(m[k])], origin[t := k])
  {
    var t := TargetKey(k, m[k]);
    var r', origin' := r[t := Mark(m[k])], origin[t := k];
    assert |r'| == |seen + {k}| by {
      assert r'.Keys == r.Keys + {t};
      assert |r'.Keys| == |r.Keys| + 1;
    }
    assert origin'.Keys == r'.Keys;
    forall l | l in seen + {k}
      ensures TargetKey(l, m[l]) in r' && r'[TargetKey(l, m[l])] == Mark(m[l]) && origin'[TargetKey(l, m[l])] == l
    {
      EntryStays(m, seen, r, origin, k, l);
    }
    forall u | u in r' ensures origin'[u] in seen + {k} && TargetKey(origin'[u], m[origin'[u]]) == u {
      if u != t { assert u in r; }
    }
  }

  lemma EntryStays(
    m: Credentials, seen: set<string>, r: Credentials, origin: map<string, string>, k: string, l: string)
    requires Partly(m, seen, r, origin) && k in m && k !in seen && TargetKey(k, m[k]) !in r && l in seen + {k}
    ensures var t, u := TargetKey(k, m[k]), TargetKey(l, m[l]);
            && u in r[t := Mark(m[k])] && r[t := Mark(m[k])][u] == Mark(m[l])
            && u in origin[t := k] && origin[t := k][u] == l
  {
    if l != k { assert l in seen && TargetKey(l, m[l]) in r; }
  }

  lemma PartlyAll(m: Credentials, r: Credentials, origin: map<string, string>)
    requires Partly(m, m.Keys, r, origin)
    ensures Rekeyed(m, r) && NoCollision(m)
  {
    forall t | t in r ensures exists k | k in m :: TargetKey(k, m[k]) == t {
      assert origin[t] in m;
    }
  }

  lemma CollisionFound(m: Credentials, seen: set<string>, r: Credentials, origin: map<string, string>, k: string)
    requires Partly(m, seen, r, origin) && k in m && k !in seen && TargetKey(k, m[k]) in r
    ensures !NoCollision(m) && Wanted(m, TargetKey(k, m[k]))
  {
    var l := origin[TargetKey(k, m[k])];
    assert TargetKey(l, m[l]) == TargetKey(k, m[k]);
  }

  function MovedAmong(m: Credentials, seen: set<string>): set<string> {
    set k | k in seen && k in m && TargetKey(k, m[k]) != k
  }

  ghost predicate Counted(m: Credentials, seen: set<string>, n: nat) {
    n == |MovedAmong(m, seen)|
  }

  lemma CountedOneMore(m: Credentials, seen: set<string>, n: nat, k: string)
    requires Counted(m, seen, n) && k in m && k !in seen
    ensures Counted(m, seen + {k}, if TargetKey(k, m[k]) != k then n + 1 else n)
  {
    assert MovedAmong(m, seen + {k}) == MovedAmong(m, seen) + if TargetKey(k, m[k]) != k then {k} else {};
  }

  lemma CountedAll(m: Credentials, n: nat)
    requires Counted(m, m.Keys, n)
    ensures n == |Moved(m)|
  {
    assert MovedAmong(m, m.Keys) == Moved(m);
  }

  /** Everything known once the records of `seen` have been placed. */
  ghost predicate Placed(m: Credentials, seen: set<string>, r: Credentials, origin: map<string, string>, changes: nat) {
    Partly(m, seen, r, origin) && Counted(m, seen, changes)
  }

  /** Two records want this key. */
  ghost predicate Wanted(m: Credentials, key: string) {
    exists k, l | k in m && l in m && k != l :: TargetKey(k, m[k]) == key && TargetKey(l, m[l]) == key
  }

  /** One iteration: re-key or mark one record, unless its place is taken. */
  method Place(
    m: Credentials, k: string, normalized: Credentials, changes: nat,
    ghost seen: set<string>, ghost origin: map<string, string>)
    returns (taken: bool, targetKey: string, normalized': Credentials, changes': nat)
    requires Placed(m, seen, normalized, origin, changes) && k in m && k !in seen
    ensures taken ==> !NoCollision(m) && Wanted(m, targetKey)
    ensures !taken ==> Placed(m, seen + {k}, normalized', origin[targetKey := k], changes')
  {
    var credential := m[k];
    targetKey := k;
    if credential.workspaceId.Some? && Numeric(credential.workspaceId.value) {
      targetKey := credential.workspaceId.value;
    } else {
      credential := credential.(health := Some("stale"));
    }
    changes' := if targetKey != k then changes + 1 else changes;
    CountedOneMore(m, seen, changes, k);
    taken := targetKey in normalized;
    normalized' := normalized[targetKey := credential];
    if taken {
      CollisionFound(m, seen, normalized, origin, k);
    } else {
      PartlyOneMore(m, seen, normalized, origin, k);
    }
  }

  /** The re-keyed map and the number of keys that moved, or the key two records want. */
  method Normalize(m: Credentials) returns (r: Result<(Credentials, nat), MigrationError>)
    ensures r.Ok? <==> NoCollision(m)
    ensures r.Ok? ==> Rekeyed(m, r.value.0) && AllKept(m, r.value.0) && r.value.1 == |Moved(m)|
    ensures r.Err? ==> r.error.WouldMerge? && Wanted(m, r.error.key)
  {
    var normalized: Credentials := map[];
    var changes := 0;
    var todo := m.Keys;
    ghost var origin: map<string, string> := map[];
    NothingPlaced(m);
    while todo != {}
      invariant todo <= m.Keys
      invariant Placed(m, m.Keys - todo, normalized, origin, changes)
      decreases todo
    {
      var k :| k in todo;
      var taken, targetKey;
      taken, targetKey, normalized, changes := Place(m, k, normalized, changes, m.Keys - todo, origin);
      if taken { return Err(WouldMerge(targetKey)); }
      origin := origin[targetKey := k];
      OneDone(m.Keys, todo, k);
      todo := todo - {k};
    }
    AllPlaced(m, normalized, origin, changes);
    RekeyedKeepsAll(m, normalized);
    return Ok((normalized, changes));
  }

  lemma OneDone(all: set<string>, todo: set<string>, k: string)
    requires k in todo && todo <= all
    ensures all - (todo - {k}) == (all - todo) + {k}
  {
  }

  lemma AllPlaced(m: Credentials, r: Credentials, origin: map<string, string>, changes: nat)
    requires Placed(m, m.Keys - {}, r, origin, changes)
    ensures Rekeyed(m, r) && NoCollision(m) && changes == |Moved(m)|
  {
    assert m.Keys - {} == m.Keys;
    CountedAll(m, changes);
    PartlyAll(m, r, origin);
  }

  lemma NothingPlaced(m: Credentials)
    ensures Placed(m, m.Keys - m.Keys, map[], map[], 0)
  {
    assert m.Keys - m.Keys == {};
    assert MovedAmong(m, {}) == {};
  }

  lemma MigratedIsSettled(m: Credentials, r: Credentials)
    requires IdentitiesOk(m) && Rekeyed(m, r)
    ensures IdentitiesOk(r) && Canonical(r) && KeysAreFree(r) && Misplaced(r) == {}
  {
    RekeyingKeepsIdentities(m, r);
    RekeyedIsCanonical(m, r);
    FreeKeysDoNotCollide(r);
  }

  /** Migrating a migrated profile succeeds, reports nothing and changes nothing. */
  method MigrateTwice(p: AlteryxOneProfile)
    returns (first: Result<nat, MigrationError>, again: Result<nat, MigrationError>)
    modifies p
    ensures first.Ok? ==> again == Ok(0) && Rekeyed(old(p.credentials), p.credentials)
  {
    first := p.MigrateWorkspaceCredentials();
    again := first;
    if first.Ok? {
      ghost var once := p.credentials;
      MigratedIsSettled(old(p.credentials), once);
      again := p.MigrateWorkspaceCredentials();
      CanonicalIsFixed(once, p.credentials);
    }
  }

  lemma CanonicalIsFixed(m: Credentials, r: Credentials)
    requires Canonical(m) && Rekeyed(m, r)
    ensures r == m
  {
    forall t | t in r ensures t in m && r[t] == m[t] {
      var k :| k in m && TargetKey(k, m[k]) == t;
    }
    forall k | k in m ensures k in r { assert TargetKey(k, m[k]) == k; }
  }

  // ---------------------------------------------------------------- selection

  datatype Source = Cli | Environment | ActiveProfile | SavedCredential | Directory

  datatype Target = Target(
    workspaceId: string, workspaceGid: string, displayName: string, credentialKey: string, source: Source)

  datatype SelectionError = EmptySelector | NotSaved | Ambiguous | Incomplete

  predicate Matches(selector: string, k: string, c: Credential) {
    || k == selector || c.workspaceId == Some(selector)
    || c.workspaceGid == Some(selector) || c.workspaceName == Some(selector)
  }

  function MatchSet(m: Credentials, selector: string): set<string> {
    set k | k in m && Matches(selector, k, m[k])
  }

  function FromCredential(k: string, c: Credential, source: Source): Option<Target> {
    if c.workspaceId.None? || c.workspaceGid.None? || c.workspaceName.None? then None
    else
      var id, gid, name := Trim(c.workspaceId.value), Trim(c.workspaceGid.value), Trim(c.workspaceName.value);
      if !Numeric(id) || k != id || gid == "" || name == "" then None
      else Some(Target(id, gid, name, k, source))
  }

  function ResolveTarget(m: Credentials, selector: string, source: Source): Result<Target, SelectionError> {
    var s := Trim(selector);
    if s == "" then Err(EmptySelector)
    else
      var found := MatchSet(m, s);
      if found == {} then Err(NotSaved)
      else if |found| > 1 then Err(Ambiguous)
      else
        OnlyElement(found);
        var k :| k in found;
        match FromCredential(k, m[k], source)
        case None => Err(Incomplete)
        case Some(t) => Ok(t)
  }

  lemma OnlyElement(s: set<string>)
    requires |s| == 1
    ensures forall a, b | a in s && b in s :: a == b
  {
    forall a, b | a in s && b in s ensures a == b {
      assert |s - {a}| == 0;
      assert b !in s - {a};
    }
  }

  lemma ResolveOf(m: Credentials, selector: string, source: Source, k: string)
    requires Trim(selector) != "" && MatchSet(m, Trim(selector)) == {k}
    ensures ResolveTarget(m, selector, source) ==
              match FromCredential(k, m[k], source) case None => Err(Incomplete) case Some(t) => Ok(t)
  {
    assert |{k}| == 1;
  }

  lemma ResolvedIsUnique(m: Credentials, selector: string, source: Source) returns (k: string)
    requires ResolveTarget(m, selector, source).Ok?
    ensures Trim(selector) != "" && MatchSet(m, Trim(selector)) == {k}
    ensures FromCredential(k, m[k], source).Some?
  {
    var found := MatchSet(m, Trim(selector));
    OnlyElement(found);
    k :| k in found;
    assert found == {k};
    ResolveOf(m, selector, source, k);
  }

  /** Only the record a selector already matched can match it afterwards. */
  lemma MatchesOnlyShrink(m: Credentials, r: Credentials, s: string, k: string)
    requires Rekeyed(m, r) && MatchSet(m, s) == {k}
    requires TargetKey(k, m[k]) == k && Mark(m[k]) == m[k]
    ensures MatchSet(r, s) == {k} && r[k] == m[k]
  {
    forall t | t in r && Matches(s, t, r[t]) ensures t == k {
      var l :| l in m && TargetKey(l, m[l]) == t;
      assert r[t] == Mark(m[l]);
      assert Matches(s, l, m[l]);
      assert l in MatchSet(m, s);
    }
    assert k in m && r[TargetKey(k, m[k])] == Mark(m[k]);
    assert k in MatchSet(m, s);
  }

  /** What a selector picked before a migration it still picks afterwards. */
  lemma MigrationPreservesSelection(m: Credentials, r: Credentials, selector: string, source: Source)
    requires IdentitiesOk(m) && Rekeyed(m, r)
    requires ResolveTarget(m, selector, source).Ok?
    ensures ResolveTarget(r, selector, source) == ResolveTarget(m, selector, source)
  {
    var k := ResolvedIsUnique(m, selector, source);
    assert k in MatchSet(m, Trim(selector));
    TrimKeepsSolid(m[k].workspaceId.value);
    MatchesOnlyShrink(m, r, Trim(selector), k);
    ResolveOf(m, selector, source, k);
    ResolveOf(r, selector, source, k);
  }

  /** The record names a workspace completely, and is under its own ID. */
  predicate Selectable(k: string, c: Credential) {
    && c.workspaceId.Some? && c.workspaceGid.Some? && c.workspaceName.Some?
    && Trim(c.workspaceId.value) == k && Numeric(k)
    && Trim(c.workspaceGid.value) != "" && Trim(c.workspaceName.value) != ""
  }

  /**
  What a selector picks, exactly: the one saved record that has it as its key, ID,
  GID or name. Nothing matches, several do, or the one does not name its workspace.
  */
  lemma SelectorPicksExactlyWhen(m: Credentials, selector: string, source: Source)
    ensures var s, r := Trim(selector), ResolveTarget(m, selector, source);
            && (r == Err(EmptySelector) <==> s == "")
            && (r == Err(NotSaved) <==> s != "" && forall k | k in m :: !Matches(s, k, m[k]))
            && (r == Err(Ambiguous) <==>
                  s != "" && exists k, l | k in m && l in m :: k != l && Matches(s, k, m[k]) && Matches(s, l, m[l]))
            && (forall t :: r == Ok(t) <==>
                  && s != "" && t.credentialKey in m && Matches(s, t.credentialKey, m[t.credentialKey])
                  && (forall l | l in m && Matches(s, l, m[l]) :: l == t.credentialKey)
                  && Selectable(t.credentialKey, m[t.credentialKey])
                  && t == Target(t.credentialKey, Trim(m[t.credentialKey].workspaceGid.value),
                                 Trim(m[t.credentialKey].workspaceName.value), t.credentialKey, source))
  {
    var s := Trim(selector);
    var found := MatchSet(m, s);
    assert forall k | k in m :: Matches(s, k, m[k]) <==> k in found;
    if s != "" && found != {} {
      var k :| k in found;
      if |found| == 1 {
        OnlyElement(found);
        assert found == {k};
        ResolveOf(m, selector, source, k);
      } else {
        var l := Another(found, k);
        assert Matches(s, k, m[k]) && Matches(s, l, m[l]);
      }
    }
  }

  lemma Another(s: set<string>, k: string) returns (l: string)
    requires k in s && |s| > 1
    ensures l in s && l != k
  {
    assert |s - {k}| > 0;
    l :| l in s - {k};
  }
}
