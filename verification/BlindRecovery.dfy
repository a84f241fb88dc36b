/**
A recovery that finds a journal but cannot read the profile takes the
transaction for uncommitted.  Exactly when that is harmless, and what it does
when it is not.
*/
module BlindRecovery {
  import opened Common
  import opened AuthJournal
  import opened JournalMachine
  import opened JournalProofs
  import opened CrashAtomicity
  import opened LateRollback

  /**
  Restoring `cs`, last to first, changes nothing up to the point where it ends
  or stops at a missing backup.
  */
  predicate RestoresNothing(k: Keyring, txn: nat, cs: seq<Change>)
    decreases |cs|
  {
    cs == [] ||
    var r := RestoreOne(k, txn, cs[|cs| - 1]);
    r.None? || (r.value == k && RestoresNothing(k, txn, cs[..|cs| - 1]))
  }

  /** The vault does not depend on whether the profile can be read. */
  predicate NeedsNoProfile(d: Durable) {
    d.journal.Some? && Committed(d) && !d.journal.value.rollbackRestored ==>
      RestoresNothing(d.keyring, d.journal.value.txn, d.journal.value.changes)
  }

  // ------------------------------------------------------------ when it is harmless

  /** Nothing is put back: the keyring stays, and the mark comes true. */
  lemma {:induction false} IdleRestore(s: State, os: seq<Outcome>, v: Vault)
    requires Pending(s.d, v) && s.pc.RecRestore? && s.d.journal == Some(s.pc.j)
    requires Committed(s.d) && s.pc.i <= |s.pc.j.changes|
    requires RestoresNothing(s.d.keyring, s.pc.j.txn, s.pc.j.changes[..s.pc.i])
    ensures Pending(Run(s, os).d, v)
    decreases |os|
  {
    if os != [] && !os[0].Crash? {
      var j, i, s' := s.pc.j, s.pc.i, Step(s, os[0]);
      if i == 0 {
        IdleMark(s', os[1..], v);
      } else {
        assert j.changes[..i][..i - 1] == j.changes[..i - 1];
        assert j.changes[..i][i - 1] == j.changes[i - 1];
        if s'.pc.Stopped? { RunStopped(s', os[1..]); } else { IdleRestore(s', os[1..], v); }
      }
    } else if os != [] {
      RunStopped(Step(s, os[0]), os[1..]);
    }
  }

  lemma IdleMark(s: State, os: seq<Outcome>, v: Vault)
    requires Pending(s.d, v) && s.pc.RecMark? && s.d.journal == Some(s.pc.j) && Committed(s.d)
    ensures Pending(Run(s, os).d, v)
  {
    if os != [] {
      var s' := Step(s, os[0]);
      assert s.pc.j.changes[0..] == s.pc.j.changes;
      if s'.pc.Stopped? {
        RunStopped(s', os[1..]);
      } else {
        PastProfileNeverLate(s', os[1..]);
        RecoveryRun(s', os[1..], v);
      }
    }
  }

  // ------------------------------------------------------------ when it is not

  /** Undisturbed, the restore gets to a first account that it changes. */
  lemma {:induction false} FirstChange(d: Durable, j: Journal, i: nat) returns (n: nat)
    requires d.journal == Some(j) && i <= |j.changes|
    requires !RestoresNothing(d.keyring, j.txn, j.changes[..i])
    ensures var d' := Run(State(d, RecRestore(j, i)), Dones(n)).d;
            d'.journal == Some(j) && d'.profile == d.profile && RealPart(d'.keyring) != RealPart(d.keyring)
    decreases i
  {
    var s := State(d, RecRestore(j, i));
    var c := j.changes[i - 1];
    assert j.changes[..i][..i - 1] == j.changes[..i - 1] && j.changes[..i][i - 1] == c;
    var k' := RestoreOne(d.keyring, j.txn, c).value;
    if k' == d.keyring {
      var m := FirstChange(d, j, i - 1);
      n := m + 1;
      RunDones(s, n);
    } else {
      n := 1;
      RunDones(s, 1);
      ChangesReal(d.keyring, j.txn, c);
    }
  }

  lemma ChangesReal(k: Keyring, txn: nat, c: Change)
    requires RestoreOne(k, txn, c).Some? && RestoreOne(k, txn, c).value != k
    ensures RealPart(RestoreOne(k, txn, c).value) != RealPart(k)
  {
    var k', s := RestoreOne(k, txn, c).value, Real(c.account);
    assert s in k <==> s in RealPart(k);
    assert s in k' <==> s in RealPart(k');
  }

  /** What a recovery does that read the journal and could not read the profile. */
  function Blind(d: Durable, os: seq<Outcome>): State {
    Run(State(d, RecRead), [Done, Error(false)] + os)
  }

  lemma BlindStarts(d: Durable, os: seq<Outcome>)
    requires d.journal.Some? && Committed(d) && !d.journal.value.rollbackRestored
    ensures Blind(d, os) == Run(State(d, RecRestore(d.journal.value, |d.journal.value.changes|)), os)
  {
    var s := State(d, RecRead);
    RunSplit(s, [Done, Error(false)], os);
    var read := Step(s, Done);
    assert [Done, Error(false)][1..] == [Error(false)];
    assert Run(s, [Done, Error(false)]) == Run(read, [Error(false)]);
    assert Run(read, [Error(false)]) == Run(Step(read, Error(false)), []);
  }

  /**
  A recovery that cannot read the profile keeps the vault, cut short anywhere or
  not, exactly when the transaction is uncommitted, or is marked as rolled back,
  or has nothing to put back.
  */
  lemma BlindRecoveryKeepsVaultExactlyWhen(d: Durable, v: Vault)
    requires Pending(d, v)
    ensures (forall os :: Pending(Blind(d, os).d, v)) <==> NeedsNoProfile(d)
  {
    if d.journal.Some? && Committed(d) && !d.journal.value.rollbackRestored {
      var j := d.journal.value;
      var n := |j.changes|;
      assert j.changes[..n] == j.changes;
      if NeedsNoProfile(d) {
        forall os ensures Pending(Blind(d, os).d, v) {
          BlindStarts(d, os);
          IdleRestore(State(d, RecRestore(j, n)), os, v);
        }
      } else {
        var m := FirstChange(d, j, n);
        BlindStarts(d, Dones(m));
        assert !Pending(Blind(d, Dones(m)).d, v);
      }
    } else {
      forall os ensures Pending(Blind(d, os).d, v) {
        RecoveryFromStart(d, [Done, Error(false)] + os, v);
      }
    }
  }

  // ------------------------------------------------------------ old secrets, new profile

  /** The restore loop of a recovery, undisturbed, whatever the profile says. */
  lemma {:induction false} RestoreFinishes(d: Durable, j: Journal, i: nat, v: Vault) returns (n: nat)
    requires IsVault(v) && d.journal == Some(j) && i <= |j.changes|
    requires Guards(d.keyring, j.txn, j.changes, v.secrets) && Owned(d.keyring, j.txn, j.changes)
    requires AgreeFrom(d.keyring, j.changes, i, v.secrets)
    ensures Run(State(d, RecRestore(j, i)), Dones(n))
              == State(Settled(Vault(v.secrets, d.profile)), Stopped(Success))
    decreases i
  {
    var s := State(d, RecRestore(j, i));
    if i == 0 {
      AllRestored(d.keyring, j.txn, j.changes, v.secrets);
      var s' := Step(Step(s, Done), Done);
      assert j.changes[0..] == j.changes;
      n := 2 + StepsLeft(s'.pc);
      RecoveryFinishes(s', Vault(v.secrets, d.profile));
      RunDones(Step(s, Done), n - 1);
    } else {
      var c := j.changes[i - 1];
      assert c in j.changes;
      GuardsSurviveRestore(d.keyring, j.txn, c, j.changes, v.secrets);
      OwnedSurvivesRestore(d.keyring, j.txn, c, v.secrets, j.txn, j.changes);
      AgreeSurvivesRestore(d.keyring, j.txn, j.changes, i, v.secrets);
      var m := RestoreFinishes(d.(keyring := RestoreOne(d.keyring, j.txn, c).value), j, i - 1, v);
      n := m + 1;
    }
    RunDones(s, n);
  }

  predicate NoErrors(os: seq<Outcome>) {
    forall o | o in os :: !o.Error?
  }

  /** The new profile is in place, every backup too, and the writer is gone. */
  lemma DieAfterRename(v: Vault, txn: nat, plan: seq<PlanOp>, body: string) returns (writer: seq<Outcome>)
    requires IsVault(v) && Target(v, plan, body).secrets != v.secrets
    ensures ErrorsBeforeRename(Begin(v, txn, plan, body), writer) && NoErrors(writer)
    ensures var d := Run(Begin(v, txn, plan, body), writer).d;
            && Pending(d, Target(v, plan, body)) && d.profile == Some(body)
            && d.journal.Some? && Committed(d) && !d.journal.value.rollbackRestored
            && Guards(d.keyring, d.journal.value.txn, d.journal.value.changes, v.secrets)
            && Owned(d.keyring, d.journal.value.txn, d.journal.value.changes)
  {
    var b, target := Begin(v, txn, plan, body), Target(v, plan, body);
    BeginIsOk(v, txn, plan, body);
    PlanStaysReal(v.secrets, plan);
    var n := ReachWrite(b, v, target);
    var s := Run(b, Dones(n));
    WriteThenDie(s, v, target);
    DonesAreFine(b, n);
    writer := Dones(n) + [Done, Crash];
    RunSplit(b, Dones(n), [Done, Crash]);
    ErrorsSplit(b, Dones(n), [Done, Crash]);
  }

  lemma WriteThenDie(s: State, v: Vault, target: Vault)
    requires IsVault(v) && IsVault(target) && AtWrite(s, v, target) && target.secrets != v.secrets
    ensures ErrorsBeforeRename(s, [Done, Crash])
    ensures var d, m := Run(s, [Done, Crash]).d, s.pc.tx.journal;
            && d == s.d.(profile := target.profile) && d.journal == Some(m) && Committed(d)
            && Pending(d, target)
  {
    var m := s.pc.tx.journal;
    if m.changes == [] { UntouchedVault(s.d, m, v); }
    var w := Step(Step(s, Done), Crash);
    assert [Done, Crash][1..] == [Crash] && [Crash][1..] == [];
    assert Run(s, [Done, Crash]) == Run(Step(s, Done), [Crash]);
    assert Run(Step(s, Done), [Crash]) == Run(w, []);
    assert ErrorsBeforeRename(w, []);
    assert ErrorsBeforeRename(Step(s, Done), [Crash]);
  }

  /**
  For every transaction that changes a secret: the writer dies once the new
  profile is in place, and a recovery that cannot read it succeeds, with the old
  secrets under the new profile.
  */
  lemma BlindRecoveryRevertsSecrets(v: Vault, txn: nat, plan: seq<PlanOp>, body: string)
    returns (writer: seq<Outcome>, last: seq<Outcome>)
    requires IsVault(v) && Target(v, plan, body).secrets != v.secrets
    ensures ErrorsBeforeRename(Begin(v, txn, plan, body), writer) && NoErrors(writer)
    ensures var w := Run(Begin(v, txn, plan, body), writer);
            && Pending(w.d, Target(v, plan, body)) && !Sighted(last)
            && Run(State(w.d, RecRead), last) == State(Settled(Vault(v.secrets, Some(body))), Stopped(Success))
  {
    writer := DieAfterRename(v, txn, plan, body);
    var d := Run(Begin(v, txn, plan, body), writer).d;
    var k := RestoreFinishes(d, d.journal.value, |d.journal.value.changes|, v);
    BlindStarts(d, Dones(k));
    last := [Done, Error(false)] + Dones(k);
  }

  // ------------------------------------------------------------ a missing backup

  /** Some ready backup is gone: a commit's clean-up has begun. */
  predicate BackupGone(k: Keyring, txn: nat, cs: seq<Change>) {
    exists c | c in cs :: RestoreOne(k, txn, c).None?
  }

  lemma GoneStaysGone(k: Keyring, txn: nat, c: Change, e: Change)
    requires RestoreOne(k, txn, c).Some?
    ensures RestoreOne(RestoreOne(k, txn, c).value, txn, e).None? <==> RestoreOne(k, txn, e).None?
  {
  }

  lemma {:induction false} RestoreMeetsGap(d: Durable, j: Journal, i: nat) returns (n: nat)
    requires i <= |j.changes| && BackupGone(d.keyring, j.txn, j.changes[..i])
    ensures Run(State(d, RecRestore(j, i)), Dones(n)).pc == Stopped(MissingBackup)
    decreases i
  {
    var s := State(d, RecRestore(j, i));
    var c := j.changes[i - 1];
    var r := RestoreOne(d.keyring, j.txn, c);
    if r.None? {
      n := 1;
    } else {
      var e :| e in j.changes[..i] && RestoreOne(d.keyring, j.txn, e).None?;
      GoneStaysGone(d.keyring, j.txn, c, e);
      assert j.changes[..i] == j.changes[..i - 1] + [c];
      assert e in j.changes[..i - 1];
      var m := RestoreMeetsGap(d.(keyring := r.value), j, i - 1);
      n := m + 1;
    }
    RunDones(s, n);
  }

  /** The "backup is missing" error is reachable: a blind recovery after a commit began to clean up. */
  lemma BlindRecoveryMissesBackup(d: Durable) returns (os: seq<Outcome>)
    requires d.journal.Some? && Committed(d) && !d.journal.value.rollbackRestored
    requires BackupGone(d.keyring, d.journal.value.txn, d.journal.value.changes)
    ensures Blind(d, os).pc == Stopped(MissingBackup)
  {
    var j := d.journal.value;
    assert j.changes[..|j.changes|] == j.changes;
    var n := RestoreMeetsGap(d, j, |j.changes|);
    os := Dones(n);
    BlindStarts(d, os);
  }
}
