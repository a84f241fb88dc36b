/**
The durable state that a keyring transaction leaves behind at every instant:
the OS keyring, the sibling journal file and the profile file.

The three stores share no transaction.  `Pending` says what it means for a
durable state to stand for one consistent pair of secrets and profile, and
`Meaning` is the pair that recovery will produce from it.
*/
module AuthJournal {
  import opened Common

  /** Backup entries live in the same keyring under names no caller uses. */
  datatype Slot = Real(account: string) | Backup(txn: nat, account: string)

  type Keyring = map<Slot, string>

  /** SHA-256 is taken to be injective, so a digest is its preimage. */
  datatype Digest = Sha256(contents: string)

  datatype Change = Change(account: string, backedUp: bool, backupReady: bool)

  datatype Journal = Journal(
    txn: nat, target: Option<Digest>, rollbackRestored: bool, changes: seq<Change>)

  datatype Durable = Durable(keyring: Keyring, journal: Option<Journal>, profile: Option<string>)

  /** What a user thinks is stored: secrets by account, and a profile. */
  datatype Vault = Vault(secrets: Keyring, profile: Option<string>)

  ghost predicate IsVault(v: Vault) {
    forall s | s in v.secrets :: s.Real?
  }

  function RealPart(k: Keyring): Keyring {
    map s | s in k && s.Real? :: k[s]
  }

  /** The durable state of a vault no transaction is working on. */
  function Settled(v: Vault): Durable {
    Durable(v.secrets, None, v.profile)
  }

  /** The profile write won: its digest is the journal's commit marker. */
  predicate Committed(d: Durable) {
    && d.journal.Some?
    && d.profile.Some?
    && d.journal.value.target == Some(Sha256(d.profile.value))
  }

  ghost predicate Agree(k: Keyring, m: Keyring, s: Slot) {
    && (s in k <==> s in m)
    && (s in k ==> k[s] == m[s])
  }

  predicate Touches(cs: seq<Change>, account: string) {
    exists c | c in cs :: c.account == account
  }

  /** The pre-image of one recorded account can still be put back. */
  ghost predicate Guarded(k: Keyring, txn: nat, c: Change, secrets: Keyring) {
    if c.backedUp then
      && Real(c.account) in secrets
      && if Backup(txn, c.account) in k
         then k[Backup(txn, c.account)] == secrets[Real(c.account)]
         else !c.backupReady && Agree(k, secrets, Real(c.account))
    else
      Real(c.account) !in secrets
  }

  /** Undoing the changes `cs` gives exactly `secrets`. */
  ghost predicate Guards(k: Keyring, txn: nat, cs: seq<Change>, secrets: Keyring) {
    && (forall c | c in cs :: Guarded(k, txn, c, secrets))
    && (forall s: Slot | s.Real? && !Touches(cs, s.account) :: Agree(k, secrets, s))
  }

  /** Every backup entry in the keyring belongs to one of `cs`. */
  ghost predicate Owned(k: Keyring, txn: nat, cs: seq<Change>) {
    forall s | s in k && s.Backup? ::
      s.txn == txn && exists c | c in cs :: c.backedUp && c.account == s.account
  }

  /** The durable state `d` stands for the vault `v`. */
  ghost predicate Pending(d: Durable, v: Vault) {
    && IsVault(v)
    && d.profile == v.profile
    && match d.journal
       case None => d.keyring == v.secrets
       case Some(j) =>
         && Owned(d.keyring, j.txn, j.changes)
         && if Committed(d) || j.rollbackRestored
            then RealPart(d.keyring) == v.secrets
            else Guards(d.keyring, j.txn, j.changes, v.secrets)
  }

  // ---------------------------------------------------------------- restoring

  /** One iteration of the restore loop; `None` is its missing-backup error. */
  function RestoreOne(k: Keyring, txn: nat, c: Change): (r: Option<Keyring>)
    ensures r.None? <==> c.backedUp && c.backupReady && Backup(txn, c.account) !in k
  {
    if c.backedUp then
      if Backup(txn, c.account) in k then Some(k[Real(c.account) := k[Backup(txn, c.account)]])
      else if c.backupReady then None
      else Some(k)
    else
      Some(k - {Real(c.account)})
  }

  /** The whole loop, which visits the changes last to first. */
  function Restore(k: Keyring, txn: nat, cs: seq<Change>): Option<Keyring>
    decreases |cs|
  {
    if cs == [] then Some(k)
    else match RestoreOne(k, txn, cs[|cs| - 1])
         case None => None
         case Some(k') => Restore(k', txn, cs[..|cs| - 1])
  }

  /** What recovery makes of a durable state; `None` when it reports a missing backup. */
  function Meaning(d: Durable): Option<Vault> {
    if d.journal.None? || Committed(d) || d.journal.value.rollbackRestored then
      Some(Vault(RealPart(d.keyring), d.profile))
    else
      match Restore(d.keyring, d.journal.value.txn, d.journal.value.changes)
      case None => None
      case Some(k) => Some(Vault(RealPart(k), d.profile))
  }

  /** Restoring one guarded account succeeds, and disturbs no set of guards. */
  lemma RestoreOneKeeps(k: Keyring, txn: nat, c: Change, secrets: Keyring)
    requires Guarded(k, txn, c, secrets)
    ensures RestoreOne(k, txn, c).Some?
    ensures var k' := RestoreOne(k, txn, c).value;
            && Agree(k', secrets, Real(c.account))
            && (forall s: Slot | s != Real(c.account) :: Agree(k', k, s))
  {
  }

  lemma GuardsSurviveRestore(k: Keyring, txn: nat, c: Change, cs: seq<Change>, secrets: Keyring)
    requires Guarded(k, txn, c, secrets) && Guards(k, txn, cs, secrets)
    ensures RestoreOne(k, txn, c).Some? && Guards(RestoreOne(k, txn, c).value, txn, cs, secrets)
  {
    RestoreOneKeeps(k, txn, c, secrets);
    var k' := RestoreOne(k, txn, c).value;
    forall b | b in cs ensures Guarded(k', txn, b, secrets) {
      assert Guarded(k, txn, b, secrets);
      assert Agree(k', k, Backup(txn, b.account));
      if b.account != c.account {
        assert Agree(k', k, Real(b.account));
      }
    }
    forall s: Slot | s.Real? && !Touches(cs, s.account) ensures Agree(k', secrets, s) {
      assert Agree(k, secrets, s);
      assert s == Real(s.account);
      if s != Real(c.account) {
        assert Agree(k', k, s);
      }
    }
  }

  /** Guards whose accounts all agree already: the real entries are `secrets`. */
  lemma GuardsDone(k: Keyring, txn: nat, cs: seq<Change>, secrets: Keyring)
    requires forall s | s in secrets :: s.Real?
    requires Guards(k, txn, cs, secrets)
    requires forall c | c in cs :: Agree(k, secrets, Real(c.account))
    ensures RealPart(k) == secrets
  {
    forall s: Slot | s.Real? ensures Agree(k, secrets, s) {
      assert s == Real(s.account);
      if Touches(cs, s.account) {
        var c :| c in cs && c.account == s.account;
        assert Agree(k, secrets, Real(c.account));
      }
    }
    forall s | s in secrets ensures s in RealPart(k) && RealPart(k)[s] == secrets[s] {
      assert Agree(k, secrets, s);
    }
    forall s | s in RealPart(k) ensures s in secrets {
      assert Agree(k, secrets, s);
    }
  }

  lemma {:induction false} RestoreMeetsGuards(
    k: Keyring, txn: nat, cs: seq<Change>, n: nat, secrets: Keyring)
    requires forall s | s in secrets :: s.Real?
    requires n <= |cs| && Guards(k, txn, cs, secrets)
    requires forall i | n <= i < |cs| :: Agree(k, secrets, Real(cs[i].account))
    ensures Restore(k, txn, cs[..n]).Some?
    ensures RealPart(Restore(k, txn, cs[..n]).value) == secrets
    decreases n
  {
    if n == 0 {
      GuardsDone(k, txn, cs, secrets);
    } else {
      var c := cs[n - 1];
      assert c in cs;
      GuardsSurviveRestore(k, txn, c, cs, secrets);
      RestoreOneKeeps(k, txn, c, secrets);
      var k' := RestoreOne(k, txn, c).value;
      forall i | n - 1 <= i < |cs| ensures Agree(k', secrets, Real(cs[i].account)) {
        if cs[i].account != c.account {
          assert Agree(k', k, Real(cs[i].account));
        }
      }
      assert cs[..n][..n - 1] == cs[..n - 1];
      RestoreMeetsGuards(k', txn, cs, n - 1, secrets);
    }
  }

  /** `Pending` is not a matter of opinion: recovery computes that one vault. */
  lemma PendingHasOneMeaning(d: Durable, v: Vault)
    requires Pending(d, v)
    ensures Meaning(d) == Some(v)
  {
    if d.journal.None? {
      assert RealPart(d.keyring) == d.keyring;
    } else {
      var j := d.journal.value;
      if !Committed(d) && !j.rollbackRestored {
        assert forall c | c in j.changes :: Guarded(d.keyring, j.txn, c, v.secrets);
        var cs := j.changes;
        assert cs[..|cs|] == cs;
        RestoreMeetsGuards(d.keyring, j.txn, cs, |cs|, v.secrets);
      }
    }
  }
}
