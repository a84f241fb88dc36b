/** Which refresh token a profile selects, and the lease that exchanges and replaces it. */
module OneCredentialStore {
  import opened Common
  import opened Text
  import opened AuthJournal
  import opened JournalMachine
  import opened SensitiveFile
  import opened KeyringTransaction
  import opened CrashAtomicity
  import opened WorkspaceCredentials
  import opened CredentialBinding

  /** The parts of a loaded profile that decide which credential is used. */
  datatype Config = Config(
    credentials: Credentials, activeWorkspaceId: Option<string>, expectedWorkspaceId: Option<string>,
    accessToken: Secret, refreshToken: Secret)

  datatype Slot = TopLevel | Workspace(workspaceId: string)

  datatype StoreError =
    | AmbiguousSlot | UnsupportedReference | BindingMismatch | UnresolvedReference | EmptyRefreshToken
    | EmptyReplacement | ProfileFailed | KeyringFailed | BindingChanged | ReferenceChanged

  /** How a profile's binding and a binding's account names are computed. */
  datatype Naming = Naming(
    bindingOf: (Config, Option<string>) -> Option<Binding>,
    accountOf: (Binding, string) -> string)

  datatype Store = Store(slot: Slot, binding: Binding, account: string, accessAccount: Option<string>)

  datatype Lease = Lease(config: Config, refreshToken: string, account: string, accessAccount: Option<string>)

  function ActiveWorkspace(c: Config): (r: Option<string>)
    ensures r.Some? ==> r.value in c.credentials
  {
    if c.activeWorkspaceId.Some? && c.activeWorkspaceId.value in c.credentials then c.activeWorkspaceId
    else if c.expectedWorkspaceId.Some? && c.expectedWorkspaceId.value in c.credentials then c.expectedWorkspaceId
    else if |c.credentials| == 1 then
      OnlyElement(c.credentials.Keys);
      assert |c.credentials.Keys| == 1;
      var k :| k in c.credentials.Keys;
      Some(k)
    else None
  }

  function Solid(value: Option<string>): Option<string> {
    if value.Some? && !Blank(value.value) then value else None
  }

  /** The refresh token every request of this process would use. */
  function ResolvedRefreshToken(c: Config): Option<string> {
    var active := ActiveWorkspace(c);
    var own := if active.Some? then Solid(c.credentials[active.value].refreshToken.value) else None;
    if own.Some? then own
    else if active.None? && |c.credentials| <= 1 then Solid(c.refreshToken.value)
    else None
  }

  function RefreshField(slot: Slot): string {
    match slot
    case TopLevel => "alteryx_one.refresh_token"
    case Workspace(id) => "alteryx_one.workspace_credentials['" + id + "'].refresh_token"
  }

  function AccessField(slot: Slot): string {
    match slot
    case TopLevel => "alteryx_one.access_token"
    case Workspace(id) => "alteryx_one.workspace_credentials['" + id + "'].access_token"
  }

  function SlotId(slot: Slot): Option<string> {
    match slot
    case TopLevel => None
    case Workspace(id) => Some(id)
  }

  function SelectedSlot(c: Config): Result<Slot, StoreError> {
    var active := ActiveWorkspace(c);
    if active.Some? then Ok(Workspace(active.value))
    else if |c.credentials| > 1 then Err(AmbiguousSlot)
    else Ok(TopLevel)
  }

  function RefreshSecret(c: Config, slot: Slot): Option<Secret> {
    match slot
    case TopLevel => Some(c.refreshToken)
    case Workspace(id) => if id in c.credentials then Some(c.credentials[id].refreshToken) else None
  }

  function AccessReference(c: Config, slot: Slot): Option<string> {
    match slot
    case TopLevel => c.accessToken.reference
    case Workspace(id) => if id in c.credentials then c.credentials[id].accessToken.reference else None
  }

  function KeyringReference(account: string): string {
    "keyring:" + account
  }

  /** The account of a canonical `keyring:v1/...` reference. */
  function CanonicalAccount(reference: Option<string>): Option<string> {
    if reference.Some? && "keyring:v1/" <= reference.value then Some(reference.value[8..]) else None
  }

  function FromConfig(c: Config, naming: Naming): Result<Option<Store>, StoreError> {
    if ResolvedRefreshToken(c).None? then Ok(None)
    else
      match SelectedSlot(c)
      case Err(e) => Err(e)
      case Ok(slot) =>
        var secret := RefreshSecret(c, slot);
        var account := if secret.Some? then CanonicalAccount(secret.value.reference) else None;
        if account.None? then Err(UnsupportedReference)
        else
          var binding := naming.bindingOf(c, SlotId(slot));
          if binding.None? then Err(ProfileFailed)
          else if account.value != naming.accountOf(binding.value, RefreshField(slot)) then Err(BindingMismatch)
          else
            var access := naming.accountOf(binding.value, AccessField(slot));
            var accessAccount :=
              if AccessReference(c, slot) == Some(KeyringReference(access)) then Some(access) else None;
            Ok(Some(Store(slot, binding.value, account.value, accessAccount)))
  }

  /** A store is built only for the very slot that requests read their token from. */
  lemma StoreSelectsTheUsedToken(c: Config, naming: Naming)
    requires FromConfig(c, naming).Ok? && FromConfig(c, naming).value.Some?
    ensures var store := FromConfig(c, naming).value.value;
            && RefreshSecret(c, store.slot).Some?
            && ResolvedRefreshToken(c) == RefreshSecret(c, store.slot).value.value
            && RefreshSecret(c, store.slot).value.reference == Some(KeyringReference(store.account))
            && (store.slot.TopLevel? ==> c.credentials == map[])
  {
    var store := FromConfig(c, naming).value.value;
    var reference := RefreshSecret(c, store.slot).value.reference.value;
    assert reference == reference[..8] + reference[8..];
    assert reference[..8] == "keyring:v1/"[..8] == "keyring:";
    assert store.slot.TopLevel? ==> |c.credentials| == 0;
  }

  /** Exactly when a profile yields a store, and which: nothing but these conditions turns it down. */
  lemma StoreIsBuiltExactlyWhen(c: Config, naming: Naming, store: Store)
    ensures FromConfig(c, naming) == Ok(Some(store)) <==>
              && ResolvedRefreshToken(c).Some?
              && (if ActiveWorkspace(c).Some? then store.slot == Workspace(ActiveWorkspace(c).value)
                  else store.slot == TopLevel && |c.credentials| <= 1)
              && RefreshSecret(c, store.slot).Some?
              && RefreshSecret(c, store.slot).value.reference == Some(KeyringReference(store.account))
              && "v1/" <= store.account
              && naming.bindingOf(c, SlotId(store.slot)) == Some(store.binding)
              && store.account == naming.accountOf(store.binding, RefreshField(store.slot))
              && store.accessAccount ==
                   (var access := naming.accountOf(store.binding, AccessField(store.slot));
                    if AccessReference(c, store.slot) == Some(KeyringReference(access)) then Some(access) else None)
    ensures FromConfig(c, naming) == Ok(None) <==> ResolvedRefreshToken(c).None?
  {
    if SelectedSlot(c).Ok? && RefreshSecret(c, SelectedSlot(c).value).Some?
       && RefreshSecret(c, SelectedSlot(c).value).value.reference.Some? {
      CanonicalIsKeyring(RefreshSecret(c, SelectedSlot(c).value).value.reference.value, store.account);
    }
  }

  lemma CanonicalIsKeyring(reference: string, account: string)
    ensures CanonicalAccount(Some(reference)) == Some(account) <==>
              reference == KeyringReference(account) && "v1/" <= account
  {
    assert "keyring:v1/" == "keyring:" + "v1/" && |"keyring:"| == 8;
    if "keyring:v1/" <= reference {
      assert reference == reference[..8] + reference[8..] && reference[..8] == "keyring:v1/"[..8];
      assert "v1/" == "keyring:v1/"[8..] <= reference[8..];
    }
    if "v1/" <= account {
      assert "keyring:" + account == "keyring:" + ("v1/" + account[3..]) == "keyring:v1/" + account[3..];
      assert ("keyring:" + account)[8..] == account;
    }
  }

  /** What a reload selects once the lease has pinned its workspace. */
  function Pinned(c: Config, slot: Slot): Config {
    match slot
    case TopLevel => c
    case Workspace(id) => c.(activeWorkspaceId := Some(id))
  }

  /** A workspace lease: the request built from its profile presents its own token. */
  lemma WorkspaceLeasePresentsItsToken(c: Config, id: string, token: string)
    requires id in c.credentials && c.credentials[id].refreshToken.value == Some(token) && !Blank(token)
    ensures ResolvedRefreshToken(Pinned(c, Workspace(id))) == Some(token)
  {
  }

  /**
  A top-level lease presents its own token exactly when the reloaded profile
  has no workspace credentials, or selects one that holds the same token.
  */
  lemma TopLevelLeasePresentsItsTokenExactlyWhen(c: Config, token: string)
    requires c.refreshToken.value == Some(token) && !Blank(token)
    ensures ResolvedRefreshToken(Pinned(c, TopLevel)) == Some(token) <==>
              || c.credentials == map[]
              || (ActiveWorkspace(c).Some? && c.credentials[ActiveWorkspace(c).value].refreshToken.value == Some(token))
  {
    if c.credentials != map[] && ActiveWorkspace(c).None? {
      assert |c.credentials| != 1;
      var k :| k in c.credentials;
      assert |c.credentials.Keys - {k}| == |c.credentials.Keys| - 1;
    }
  }

  /** A reload that gained a credential makes a top-level lease present another token. */
  lemma TopLevelLeaseCanPresentAnother(c: Config, id: string, credential: Credential, token: string, other: string)
    requires c.credentials == map[] && c.refreshToken.value == Some(token) && !Blank(token)
    requires credential.refreshToken.value == Some(other) && !Blank(other) && other != token
    ensures ResolvedRefreshToken(c) == Some(token)
    ensures ResolvedRefreshToken(Pinned(c.(credentials := map[id := credential]), TopLevel)) == Some(other)
  {
    var reloaded := c.(credentials := map[id := credential]);
    assert reloaded.credentials.Keys == {id};
    assert |reloaded.credentials| == 1;
  }

  // ---------------------------------------------------------------- the lease

  /** Recover an interrupted transaction and a stale temporary profile. */
  method Drain(host: Host, ghost v: Vault) returns (ok: bool, ghost recovery: seq<Outcome>)
    requires host.Valid() && Pending(host.Durable(), v)
    modifies host`keyring, host.journalFile, host.profileFile`tmp, host.faults
    ensures host.Valid()
    ensures Discerning(old(host.Durable()), recovery) ==>
              Pending(host.Durable(), v) && (ok ==> host.Durable() == Settled(v))
    ensures ok ==> host.Durable().journal.None?
    ensures host.Unharmed(old(host.faults.errors), old(host.faults.deaths)) ==>
              ok && host.Durable() == Settled(v) && Discerning(old(host.Durable()), recovery)
    ensures host.faults.errors <= old(host.faults.errors) && host.faults.deaths <= old(host.faults.deaths)
  {
    var recovered;
    recovered, recovery := Recover(host, v);
    if recovered != Success { return false, recovery; }
    ghost var d := host.Durable();
    var cleared := host.profileFile.Recover();
    assert host.Durable() == d;
    return cleared == Fine, recovery;
  }

  /** The token that can be leased from a reloaded profile over this keyring. */
  function Leasable(store: Store, naming: Naming, loaded: Option<Config>, k: Keyring): Option<string> {
    if loaded.None? then None
    else
      var config := Pinned(loaded.value, store.slot);
      var binding := naming.bindingOf(config, SlotId(store.slot));
      var secret := RefreshSecret(config, store.slot);
      if && binding.Some? && BindingMatches(store.binding, binding.value)
         && secret.Some? && secret.value.reference == Some(KeyringReference(store.account))
         && secret.value.value.Some? && !Blank(secret.value.value.value)
         && Lookup(k, store.account) == secret.value.value
      then secret.value.value
      else None
  }

  /**
  `acquire_refresh` once the profile lock is held. The token is the one stored
  now; it is the expected one unless the recovery was blind to a commit. Where no
  operation fails, a lease is granted exactly if the reloaded profile can be leased.
  */
  method AcquireRefresh(
    store: Store, naming: Naming, host: Host, load: (Option<string>, Keyring) -> Option<Config>, ghost v: Vault)
    returns (r: Result<Lease, StoreError>, ghost recovery: seq<Outcome>)
    requires host.Valid() && Pending(host.Durable(), v)
    modifies host`keyring, host.journalFile, host.profileFile`tmp, host.faults
    ensures host.Valid()
    ensures host.faults.errors <= old(host.faults.errors) && host.faults.deaths <= old(host.faults.deaths)
    ensures Discerning(old(host.Durable()), recovery) ==>
              Pending(host.Durable(), v) && (r.Ok? ==> host.Durable() == Settled(v))
    ensures host.Unharmed(old(host.faults.errors), old(host.faults.deaths)) ==>
              && Discerning(old(host.Durable()), recovery)
              && Leasable(store, naming, load(v.profile, v.secrets), v.secrets)
                   == (if r.Ok? then Some(r.value.refreshToken) else None)
    ensures r.Ok? ==>
              && host.Durable().journal.None?
              && r.value.account == store.account && r.value.accessAccount == store.accessAccount
              && Real(store.account) in host.keyring && host.keyring[Real(store.account)] == r.value.refreshToken
              && !Blank(r.value.refreshToken)
              && (store.slot.Workspace? ==> ResolvedRefreshToken(r.value.config) == Some(r.value.refreshToken))
  {
    var drained;
    drained, recovery := Drain(host, v);
    if !drained { return Err(ProfileFailed), recovery; }
    var loaded := load(host.profileFile.Read(), host.keyring);
    if loaded.None? { return Err(ProfileFailed), recovery; }
    r := LeaseFrom(store, naming, host, loaded.value);
  }

  /** The profile is loaded: check it against the store and the keyring. */
  method LeaseFrom(store: Store, naming: Naming, host: Host, loaded: Config) returns (r: Result<Lease, StoreError>)
    requires host.Valid()
    modifies host.faults
    ensures host.Valid() && host.Durable() == old(host.Durable())
    ensures host.faults.errors <= old(host.faults.errors) && host.faults.deaths <= old(host.faults.deaths)
    ensures host.Unharmed(old(host.faults.errors), old(host.faults.deaths)) ==>
              Leasable(store, naming, Some(loaded), host.keyring)
                == (if r.Ok? then Some(r.value.refreshToken) else None)
    ensures r.Ok? ==>
              && r.value.account == store.account && r.value.accessAccount == store.accessAccount
              && Leasable(store, naming, Some(loaded), host.keyring) == Some(r.value.refreshToken)
              && r.value.config == Pinned(loaded, store.slot)
              && (store.slot.Workspace? ==> ResolvedRefreshToken(r.value.config) == Some(r.value.refreshToken))
  {
    LeasableIsReloaded(store, naming, loaded, host.keyring);
    var config := Pinned(loaded, store.slot);
    var token := ReloadedToken(store, naming, config);
    if token.Err? { return Err(token.error); }
    var s, stored := host.Resolve(Real(store.account));
    if s != Fine { return Err(KeyringFailed); }
    if stored != Some(token.value) { return Err(ReferenceChanged); }
    return Ok(Lease(config, token.value, store.account, store.accessAccount));
  }

  lemma LeasableIsReloaded(store: Store, naming: Naming, c: Config, k: Keyring)
    ensures var token := ReloadedToken(store, naming, Pinned(c, store.slot));
            && Leasable(store, naming, Some(c), k)
                 == (if token.Ok? && Lookup(k, store.account) == Some(token.value) then Some(token.value) else None)
            && (token.Ok? && store.slot.Workspace? ==>
                  ResolvedRefreshToken(Pinned(c, store.slot)) == Some(token.value))
  {
    var token := ReloadedToken(store, naming, Pinned(c, store.slot));
    if token.Ok? && store.slot.Workspace? {
      WorkspaceLeasePresentsItsToken(c, store.slot.workspaceId, token.value);
    }
  }

  /** The reloaded profile must still bind the same identity to the same keyring account. */
  function ReloadedToken(store: Store, naming: Naming, config: Config): (r: Result<string, StoreError>)
    ensures r.Ok? ==>
              && naming.bindingOf(config, SlotId(store.slot)).Some?
              && BindingMatches(store.binding, naming.bindingOf(config, SlotId(store.slot)).value)
              && RefreshSecret(config, store.slot) == Some(Secret(Some(r.value), Some(KeyringReference(store.account))))
              && !Blank(r.value)
  {
    var binding := naming.bindingOf(config, SlotId(store.slot));
    var secret := RefreshSecret(config, store.slot);
    if binding.None? then Err(ProfileFailed)
    else if !BindingMatches(store.binding, binding.value) then Err(BindingChanged)
    else if secret.None? then Err(AmbiguousSlot)
    else if secret.value.reference != Some(KeyringReference(store.account)) then Err(ReferenceChanged)
    else if secret.value.value.None? then Err(UnresolvedReference)
    else if Blank(secret.value.value.value) then Err(EmptyRefreshToken)
    else Ok(secret.value.value.value)
  }

  // ---------------------------------------------------------------- the exchange

  /** The two slots of a rotation; no other one is touched. */
  ghost predicate OnlyRotationSlots(k0: Keyring, k: Keyring, lease: Lease, replacement: Option<string>) {
    forall slot: AuthJournal.Slot |
      && !(replacement.Some? && slot == Real(lease.account))
      && !(lease.accessAccount.Some? && slot == Real(lease.accessAccount.value)) :: Agree(k, k0, slot)
  }

  /** The replacement is in its place, unless the access token took it. */
  predicate ReplacementStored(k: Keyring, lease: Lease, access: string, replacement: Option<string>) {
    replacement.Some? ==>
      || Lookup(k, lease.account) == replacement
      || (lease.accessAccount == Some(lease.account) && Lookup(k, lease.account) == Some(access))
  }

  predicate AccessStored(k: Keyring, lease: Lease, access: string) {
    lease.accessAccount.Some? ==> Lookup(k, lease.accessAccount.value) == Some(access)
  }

  /**
  `commit_rotation`: on success the replacement and the access token are in their
  slots; an error leaves the old secrets, or the replacement alone, or both. Only a
  blank token or a failing operation makes it fail.
  */
  method CommitRotation(lease: Lease, host: Host, access: string, replacement: Option<string>)
    returns (r: Result<(), StoreError>)
    requires host.Valid()
    modifies host`keyring, host.faults
    ensures host.Valid() && OnlyRotationSlots(old(host.keyring), host.keyring, lease, replacement)
    ensures r.Ok? ==>
              && !Blank(access) && (replacement.Some? ==> !Blank(replacement.value))
              && ReplacementStored(host.keyring, lease, access, replacement)
              && AccessStored(host.keyring, lease, access)
    ensures host.keyring == old(host.keyring)
         || (ReplacementStored(host.keyring, lease, access, replacement)
             && (AccessStored(host.keyring, lease, access)
                 || (lease.accessAccount.Some? && lease.accessAccount != Some(lease.account)
                     && Agree(host.keyring, old(host.keyring), Real(lease.accessAccount.value)))
                 || lease.accessAccount == Some(lease.account)))
    ensures Blank(access) || (replacement.Some? && Blank(replacement.value)) ==>
              r.Err? && host.keyring == old(host.keyring)
    ensures host.Unharmed(old(host.faults.errors), old(host.faults.deaths)) ==>
              (r.Err? <==> Blank(access) || (replacement.Some? && Blank(replacement.value)))
    ensures host.faults.errors <= old(host.faults.errors) && host.faults.deaths <= old(host.faults.deaths)
  {
    if Blank(access) { return Err(KeyringFailed); }
    var s;
    ghost var applied;
    if replacement.Some? {
      if Blank(replacement.value) { return Err(EmptyReplacement); }
      s, applied := host.StoreSecret(Real(lease.account), replacement.value);
      assert host.Durable().keyring == host.keyring;
      if s != Fine { return Err(KeyringFailed); }
    }
    if lease.accessAccount.Some? {
      s, applied := host.StoreSecret(Real(lease.accessAccount.value), access);
      assert host.Durable().keyring == host.keyring;
      if s != Fine { return Err(KeyringFailed); }
    }
    return Ok(());
  }

  /**
  One whole refresh under the lock: it presents the stored token, and what it
  stores is what the next lease will read. Where no operation fails it succeeds
  exactly if the profile can be leased and the endpoint answers with tokens that
  are not blank.
  */
  method RefreshOnce(
    store: Store, naming: Naming, host: Host, load: (Option<string>, Keyring) -> Option<Config>,
    exchange: string -> Option<(string, Option<string>)>, ghost v: Vault)
    returns (r: Result<string, StoreError>, presented: Option<string>, ghost recovery: seq<Outcome>)
    requires host.Valid() && Pending(host.Durable(), v) && store.accessAccount != Some(store.account)
    modifies host`keyring, host.journalFile, host.profileFile`tmp, host.faults
    ensures host.Valid()
    ensures Discerning(old(host.Durable()), recovery) && presented.Some? ==>
              Real(store.account) in v.secrets && presented.value == v.secrets[Real(store.account)]
    ensures presented.None? ==> r.Err?
    ensures Discerning(old(host.Durable()), recovery) && presented.None? ==> Pending(host.Durable(), v)
    ensures r.Ok? ==>
              && presented.Some? && exchange(presented.value).Some? && r.value == exchange(presented.value).value.0
              && host.Durable().journal.None?
              && (store.accessAccount.Some? ==> Lookup(host.keyring, store.accessAccount.value) == Some(r.value))
              && Lookup(host.keyring, store.account) ==
                   (var to := exchange(presented.value).value.1; if to.Some? then to else presented)
    ensures host.Unharmed(old(host.faults.errors), old(host.faults.deaths)) ==>
              var token := Leasable(store, naming, load(v.profile, v.secrets), v.secrets);
              && presented == token
              && (r.Ok? <==> token.Some? && exchange(token.value).Some?
                             && !Blank(exchange(token.value).value.0)
                             && (exchange(token.value).value.1.Some? ==> !Blank(exchange(token.value).value.1.value)))
  {
    presented := None;
    var lease;
    lease, recovery := AcquireRefresh(store, naming, host, load, v);
    if lease.Err? { return Err(lease.error), None, recovery; }
    presented := Some(lease.value.refreshToken);
    ghost var k := host.keyring;
    var answer := exchange(lease.value.refreshToken);
    if answer.None? { return Err(ProfileFailed), presented, recovery; }
    var committed := CommitRotation(lease.value, host, answer.value.0, answer.value.1);
    if committed.Err? { return Err(committed.error), presented, recovery; }
    assert answer.value.1.None? ==> Agree(host.keyring, k, Real(store.account));
    return Ok(answer.value.0), presented, recovery;
  }
}
