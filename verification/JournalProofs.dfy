/** Every step of the journal protocol keeps the vault, or moves it in one go. */
module JournalProofs {
  import opened Common
  import opened AuthJournal
  import opened JournalMachine

  // ------------------------------------------------------------ cleaning up

  lemma NothingOwned(k: Keyring, txn: nat)
    requires Owned(k, txn, [])
    ensures RealPart(k) == k
  {
    assert forall s | s in k :: s.Real?;
  }

  lemma DropKeeps(k: Keyring, txn: nat, cs: seq<Change>, i: nat)
    requires i < |cs| && Owned(k, txn, cs[i..])
    ensures var k' := DropBackup(k, txn, cs[i]);
            && RealPart(k') == RealPart(k)
            && Owned(k', txn, cs[i + 1..])
            && (forall s: Slot | s.Real? :: Agree(k', k, s))
  {
    var k' := DropBackup(k, txn, cs[i]);
    forall s | s in k' && s.Backup?
      ensures s.txn == txn && exists c | c in cs[i + 1..] :: c.backedUp && c.account == s.account
    {
      assert s in k;
      var c :| c in cs[i..] && c.backedUp && c.account == s.account;
      assert cs[i..] == [cs[i]] + cs[i + 1..];
      assert s == Backup(txn, s.account);
      assert c != cs[i];
    }
  }

  lemma OwnedWiden(k: Keyring, txn: nat, cs: seq<Change>, i: nat)
    requires i <= |cs| && Owned(k, txn, cs[i..])
    ensures Owned(k, txn, cs)
  {
    forall s | s in k && s.Backup?
      ensures s.txn == txn && exists c | c in cs :: c.backedUp && c.account == s.account
    {
      var c :| c in cs[i..] && c.backedUp && c.account == s.account;
      assert c in cs;
    }
  }

  /** Deleting one backup once the secrets are where they belong. */
  lemma CleanStep(d: Durable, j: Journal, i: nat, v: Vault)
    requires Pending(d, v) && d.journal == Some(j) && (Committed(d) || j.rollbackRestored)
    requires i < |j.changes| && Owned(d.keyring, j.txn, j.changes[i..])
    ensures var d' := d.(keyring := DropBackup(d.keyring, j.txn, j.changes[i]));
            && Pending(d', v)
            && Owned(d'.keyring, j.txn, j.changes[i + 1..])
            && Owned(d'.keyring, j.txn, j.changes[i..])
            && (Committed(d') <==> Committed(d))
  {
    DropKeeps(d.keyring, j.txn, j.changes, i);
    var k' := DropBackup(d.keyring, j.txn, j.changes[i]);
    OwnedWiden(k', j.txn, j.changes, i + 1);
    assert j.changes[i..][1..] == j.changes[i + 1..];
    OwnedWiden(k', j.txn, j.changes[i..], 1);
  }

  lemma CleanDone(d: Durable, j: Journal, v: Vault)
    requires Pending(d, v) && d.journal == Some(j) && (Committed(d) || j.rollbackRestored)
    requires Owned(d.keyring, j.txn, j.changes[|j.changes|..])
    ensures d.keyring == v.secrets
  {
    assert j.changes[|j.changes|..] == [];
    NothingOwned(d.keyring, j.txn);
  }

  // ------------------------------------------------------------ restoring

  lemma OwnedSurvivesRestore(k: Keyring, txn: nat, c: Change, secrets: Keyring, t: nat, cs: seq<Change>)
    requires Guarded(k, txn, c, secrets) && Owned(k, t, cs)
    ensures RestoreOne(k, txn, c).Some? && Owned(RestoreOne(k, txn, c).value, t, cs)
  {
  }

  /** Restoring a guarded account keeps an uncommitted state pending. */
  lemma RestoreKeepsPending(d: Durable, txn: nat, c: Change, v: Vault)
    requires Pending(d, v) && !Committed(d) && Guarded(d.keyring, txn, c, v.secrets)
    requires d.journal.Some? ==> d.journal.value.txn == txn && !d.journal.value.rollbackRestored
    ensures RestoreOne(d.keyring, txn, c).Some?
    ensures Pending(d.(keyring := RestoreOne(d.keyring, txn, c).value), v)
  {
    RestoreOneKeeps(d.keyring, txn, c, v.secrets);
    var k' := RestoreOne(d.keyring, txn, c).value;
    var d' := d.(keyring := k');
    if d.journal.Some? {
      var j := d.journal.value;
      GuardsSurviveRestore(d.keyring, txn, c, j.changes, v.secrets);
      OwnedSurvivesRestore(d.keyring, txn, c, v.secrets, txn, j.changes);
    } else {
      forall s: Slot ensures Agree(k', d.keyring, s) {
        if s != Real(c.account) { assert Agree(k', d.keyring, s); }
      }
      assert forall s | s in k' :: Agree(k', d.keyring, s);
      assert forall s | s in d.keyring :: Agree(k', d.keyring, s);
      assert k' == d.keyring;
    }
  }

  lemma AgreeSurvivesRestore(
    k: Keyring, txn: nat, cs: seq<Change>, i: nat, secrets: Keyring)
    requires 0 < i <= |cs| && Guarded(k, txn, cs[i - 1], secrets) && AgreeFrom(k, cs, i, secrets)
    ensures RestoreOne(k, txn, cs[i - 1]).Some?
    ensures AgreeFrom(RestoreOne(k, txn, cs[i - 1]).value, cs, i - 1, secrets)
  {
    var c := cs[i - 1];
    RestoreOneKeeps(k, txn, c, secrets);
    var k' := RestoreOne(k, txn, c).value;
    forall n | i - 1 <= n < |cs| ensures Agree(k', secrets, Real(cs[n].account)) {
      if cs[n].account != c.account { assert Agree(k', k, Real(cs[n].account)); }
    }
  }

  lemma AllRestored(k: Keyring, txn: nat, cs: seq<Change>, secrets: Keyring)
    requires forall s | s in secrets :: s.Real?
    requires Guards(k, txn, cs, secrets) && AgreeFrom(k, cs, 0, secrets)
    ensures RealPart(k) == secrets
  {
    forall c | c in cs ensures Agree(k, secrets, Real(c.account)) {
      var n :| 0 <= n < |cs| && cs[n] == c;
    }
    GuardsDone(k, txn, cs, secrets);
  }

  // ------------------------------------------------------------ recovery steps

  predicate InRecovery(pc: Pc) {
    pc.RecRead? || pc.RecProfile? || pc.RecRestore? || pc.RecMark? || pc.RecClean? || pc.RecRemove?
  }

  lemma RecoveryStep(s: State, o: Outcome, v: Vault)
    requires Inv(s, v) && !LateRollback(s, Step(s, o))
    requires InRecovery(s.pc)
    ensures Inv(Step(s, o), v)
  {
    var d := s.d;
    match s.pc
    case RecRead =>
    case RecProfile(j) =>
      assert j.changes[0..] == j.changes;
    case RecRestore(j, i) =>
      RecRestoreStep(s, o, v);
    case RecMark(j) =>
      AllRestored(d.keyring, j.txn, j.changes, v.secrets);
      assert j.changes[0..] == j.changes;
    case RecClean(j, i) =>
      if i < |j.changes| { CleanStep(d, j, i, v); } else { CleanDone(d, j, v); }
    case RecRemove =>
  }

  lemma RecRestoreStep(s: State, o: Outcome, v: Vault)
    requires Inv(s, v) && s.pc.RecRestore?
    ensures Inv(Step(s, o), v)
  {
    var d, j, i := s.d, s.pc.j, s.pc.i;
    if i > 0 {
      assert j.changes[i - 1] in j.changes;
      RestoreKeepsPending(d, j.txn, j.changes[i - 1], v);
      AgreeSurvivesRestore(d.keyring, j.txn, j.changes, i, v.secrets);
    }
  }

  // ------------------------------------------------------------ rollback steps

  /** One account put back while the in-memory journal is undone. */
  lemma UndoOne(d: Durable, m: Journal, i: nat, v: Vault)
    requires Pending(d, v) && CanUndo(d, m, v)
    requires 0 < i <= |m.changes| && AgreeFrom(d.keyring, m.changes, i, v.secrets)
    ensures RestoreOne(d.keyring, m.txn, m.changes[i - 1]).Some?
    ensures var d' := d.(keyring := RestoreOne(d.keyring, m.txn, m.changes[i - 1]).value);
            Pending(d', v) && CanUndo(d', m, v) && AgreeFrom(d'.keyring, m.changes, i - 1, v.secrets)
  {
    var c := m.changes[i - 1];
    assert c in m.changes;
    RestoreKeepsPending(d, m.txn, c, v);
    AgreeSurvivesRestore(d.keyring, m.txn, m.changes, i, v.secrets);
    GuardsSurviveRestore(d.keyring, m.txn, c, m.changes, v.secrets);
    OwnedSurvivesRestore(d.keyring, m.txn, c, v.secrets, m.txn, m.changes);
  }

  lemma UndoOneStep(s: State, o: Outcome, v: Vault)
    requires Inv(s, v) && s.pc.Undo? && s.pc.i > 0
    ensures Inv(Step(s, o), v)
  {
    UndoOne(s.d, s.pc.tx.journal, s.pc.i, v);
  }

  lemma UndoStep(s: State, o: Outcome, v: Vault)
    requires Inv(s, v)
    requires s.pc.Undo? || s.pc.UndoMark? || s.pc.UndoClean? || s.pc.UndoRemove?
    ensures Inv(Step(s, o), v)
  {
    var d := s.d;
    match s.pc
    case Undo(tx, i) =>
      if i > 0 { UndoOneStep(s, o, v); }
    case UndoMark(tx) =>
      UndoMarkStep(s, o, v);
    case UndoClean(tx, i) =>
      if i < |tx.journal.changes| { CleanStep(d, tx.journal, i, v); } else { CleanDone(d, tx.journal, v); }
    case UndoRemove =>
  }

  lemma UndoMarkStep(s: State, o: Outcome, v: Vault)
    requires Inv(s, v) && s.pc.UndoMark?
    ensures Inv(Step(s, o), v)
  {
    var m := s.pc.tx.journal;
    AllRestored(s.d.keyring, m.txn, m.changes, v.secrets);
    assert m.changes[0..] == m.changes;
  }

  // ------------------------------------------------------------ writer steps

  lemma RecordStep(s: State, o: Outcome, v: Vault)
    requires Inv(s, v) && s.pc.Next?
    ensures Inv(Step(s, o), v)
  {
    var d, tx := s.d, s.pc.tx;
    var m := tx.journal;
    if tx.plan != [] && o.Done? {
      var op := tx.plan[0];
      var previous := Lookup(d.keyring, op.account);
      if op.Remove? && previous.None? {
        assert ApplyOp(RealPart(d.keyring), op) == RealPart(d.keyring);
      } else if !Touches(m.changes, op.account) {
        NewChangeStep(s, v);
      }
    }
  }

  lemma NewChangeStep(s: State, v: Vault)
    requires Inv(s, v) && s.pc.Next? && s.pc.tx.plan != []
    requires !Touches(s.pc.tx.journal.changes, s.pc.tx.plan[0].account)
    requires s.pc.tx.plan[0].Remove? ==> Lookup(s.d.keyring, s.pc.tx.plan[0].account).Some?
    ensures Inv(Step(s, Done), v)
  {
    var d, op, m := s.d, s.pc.tx.plan[0], s.pc.tx.journal;
    var previous := Lookup(d.keyring, op.account);
    var c := Change(op.account, previous.Some?, previous.None?);
    var m' := m.(changes := m.changes + [c]);
    assert m'.changes[..|m'.changes| - 1] == m.changes;
    assert Earlier(m') == m;
    assert Agree(d.keyring, v.secrets, Real(op.account));
    NewChangeIsGuarded(d, m, c, v);
  }

  lemma NewChangeIsGuarded(d: Durable, m: Journal, c: Change, v: Vault)
    requires Pending(d, v) && CanUndo(d, m, v) && !Touches(m.changes, c.account)
    requires c.backedUp == (Real(c.account) in d.keyring) && c.backupReady == !c.backedUp
    ensures Backup(m.txn, c.account) !in d.keyring
    ensures CanUndo(d, m.(changes := m.changes + [c]), v)
  {
    var cs := m.changes + [c];
    assert Agree(d.keyring, v.secrets, Real(c.account));
    assert forall e | e in m.changes :: e.account != c.account;
    forall s | s in d.keyring && s.Backup?
      ensures s.txn == m.txn && exists e | e in cs :: e.backedUp && e.account == s.account
    {
      var e :| e in m.changes && e.backedUp && e.account == s.account;
      assert e in cs;
    }
    forall s: Slot | s.Real? && !Touches(cs, s.account) ensures Agree(d.keyring, v.secrets, s) {
      forall e | e in m.changes ensures e.account != s.account { assert e in cs; }
    }
  }


  /** The journal with the new change on disk: still undone to the same vault. */
  lemma ChangeIsOnDisk(d: Durable, m: Journal, v: Vault)
    requires IsVault(v) && CanUndo(d, m, v) && m.target.None? && m.changes != []
    requires Pending(d, v)
    ensures var d' := d.(journal := Some(m)); Pending(d', v) && CanUndo(d', m, v)
  {
    assert Last(m) in m.changes;
  }

  lemma PersistChangeStep(s: State, o: Outcome, v: Vault)
    requires Inv(s, v) && s.pc.PersistChange?
    ensures Inv(Step(s, o), v)
  {
    var d, m := s.d, s.pc.tx.journal;
    ChangeIsOnDisk(d, m, v);
    var c := Last(m);
    assert c in m.changes;
    assert Guarded(d.keyring, m.txn, c, v.secrets);
    forall e | e in m.changes ensures e.backedUp && e != c ==> e.backupReady {
      assert m.changes == Earlier(m).changes + [c];
    }
    assert Touches(m.changes, s.pc.tx.plan[0].account);
  }

  lemma StoreBackupStep(s: State, o: Outcome, v: Vault)
    requires Inv(s, v) && s.pc.StoreBackup?
    ensures Inv(Step(s, o), v)
  {
    var d, tx := s.d, s.pc.tx;
    var m := tx.journal;
    var c := Last(m);
    assert c in m.changes;
    var d' := d.(keyring := d.keyring[Backup(m.txn, c.account) := s.pc.secret]);
    var m' := MarkLastReady(m);
    BackupKeepsGuards(d, m, s.pc.secret, v);
    assert RealPart(d'.keyring) == RealPart(d.keyring);
    assert Earlier(m').changes == Earlier(m).changes;
    forall e | e in m'.changes ensures e.backedUp ==> e.backupReady {
      assert m'.changes == Earlier(m).changes + [Last(m')];
    }
  }

  lemma BackupKeepsGuards(d: Durable, m: Journal, secret: string, v: Vault)
    requires Pending(d, v) && CanUndo(d, m, v) && m.target.None?
    requires d.journal == Some(m) && m.changes != []
    requires Last(m).backedUp && Lookup(v.secrets, Last(m).account) == Some(secret)
    ensures var d' := d.(keyring := d.keyring[Backup(m.txn, Last(m).account) := secret]);
            && Pending(d', v) && CanUndo(d', m, v) && CanUndo(d', MarkLastReady(m), v)
  {
    var c, m' := Last(m), MarkLastReady(m);
    var k := d.keyring;
    var k' := k[Backup(m.txn, c.account) := secret];
    assert c in m.changes;
    forall e | e in m.changes ensures Guarded(k', m.txn, e, v.secrets) {
      assert Guarded(k, m.txn, e, v.secrets);
    }
    forall e | e in m'.changes ensures Guarded(k', m.txn, e, v.secrets) {
      if e != Last(m') { assert e in m.changes; }
    }
    forall s: Slot | s.Real? && !Touches(m.changes, s.account) ensures Agree(k', v.secrets, s) {
      assert Agree(k, v.secrets, s);
    }
    SameAccounts(m);
    assert Owned(k', m.txn, m.changes);
    assert Owned(k', m.txn, m'.changes);
  }

  lemma SameAccounts(m: Journal)
    requires m.changes != []
    ensures forall a | Touches(MarkLastReady(m).changes, a) :: Touches(m.changes, a)
    ensures forall a | Touches(m.changes, a) :: Touches(MarkLastReady(m).changes, a)
    ensures forall c | c in m.changes ::
              exists e | e in MarkLastReady(m).changes :: e.account == c.account && e.backedUp == c.backedUp
  {
    var m', n := MarkLastReady(m), |m.changes|;
    forall c | c in m.changes
      ensures exists e | e in m'.changes :: e.account == c.account && e.backedUp == c.backedUp
    {
      var i :| 0 <= i < n && m.changes[i] == c;
      assert m'.changes[i] in m'.changes;
    }
    forall a | Touches(m'.changes, a) ensures Touches(m.changes, a) {
      var i :| 0 <= i < n && m'.changes[i].account == a;
      assert m.changes[i] in m.changes && m.changes[i].account == a;
    }
  }

  lemma PersistReadyStep(s: State, o: Outcome, v: Vault)
    requires Inv(s, v) && s.pc.PersistReady?
    ensures Inv(Step(s, o), v)
  {
    var m := s.pc.tx.journal;
    assert Last(m) in m.changes;
  }

  lemma ApplyStep(s: State, o: Outcome, v: Vault)
    requires Inv(s, v) && s.pc.Apply?
    ensures Inv(Step(s, o), v)
  {
    var d, tx := s.d, s.pc.tx;
    var m, op := tx.journal, tx.plan[0];
    var k' := ApplyOp(d.keyring, op);
    assert forall s: Slot | s != Real(op.account) :: Agree(k', d.keyring, s);
    forall e | e in m.changes ensures Guarded(k', m.txn, e, v.secrets) {
      assert Guarded(d.keyring, m.txn, e, v.secrets);
      assert Agree(k', d.keyring, Backup(m.txn, e.account));
      if e.account != op.account { assert Agree(k', d.keyring, Real(e.account)); }
    }
    forall s: Slot | s.Real? && !Touches(m.changes, s.account) ensures Agree(k', v.secrets, s) {
      assert Agree(d.keyring, v.secrets, s);
      assert s == Real(s.account);
      assert Agree(k', d.keyring, s);
    }
    assert Owned(k', m.txn, m.changes);
    assert RealPart(k') == ApplyOp(RealPart(d.keyring), op);
  }

  lemma RenderStep(s: State, o: Outcome, v: Vault)
    requires Inv(s, v) && s.pc.Render?
    requires !LateRollback(s, Step(s, o))
    ensures Inv(Step(s, o), v)
  {
  }

  lemma PersistTargetStep(s: State, o: Outcome, v: Vault)
    requires Inv(s, v) && s.pc.PersistTarget?
    requires !LateRollback(s, Step(s, o))
    ensures Inv(Step(s, o), VaultAfter(s, o, v))
  {
    var d, tx := s.d, s.pc.tx;
    var m := tx.journal;
    assert RealPart(d.keyring) == tx.goal;
    RealPartIsReal(d.keyring);
    if m.changes == [] {
      UntouchedVault(d, m, v);
    } else {
      var m' := m.(target := Some(Sha256(tx.body)));
      var d' := d.(journal := Some(m'));
      assert Guards(d'.keyring, m'.txn, m'.changes, v.secrets);
      assert Owned(d'.keyring, m'.txn, m'.changes);
      if Committed(d') {
        assert Pending(d', Vault(tx.goal, Some(tx.body)));
      } else {
        assert Pending(d', v);
      }
    }
  }

  lemma UntouchedVault(d: Durable, m: Journal, v: Vault)
    requires IsVault(v) && Guards(d.keyring, m.txn, m.changes, v.secrets) && m.changes == []
    ensures RealPart(d.keyring) == v.secrets
  {
    GuardsDone(d.keyring, m.txn, m.changes, v.secrets);
  }

  lemma RealPartIsReal(k: Keyring)
    ensures forall s | s in RealPart(k) :: s.Real?
  {
  }

  lemma WriteProfileStep(s: State, o: Outcome, v: Vault)
    requires Inv(s, v) && s.pc.WriteProfile?
    requires !LateRollback(s, Step(s, o))
    ensures Inv(Step(s, o), VaultAfter(s, o, v))
  {
    var d, tx := s.d, s.pc.tx;
    RealPartIsReal(d.keyring);
    assert tx.journal.changes[0..] == tx.journal.changes;
    if tx.journal.changes == [] {
      NothingOwned(d.keyring, tx.journal.txn);
    }
  }

  lemma CommitStep(s: State, o: Outcome, v: Vault)
    requires Inv(s, v) && (s.pc.CommitClean? || s.pc.CommitRemove?)
    ensures Inv(Step(s, o), v)
  {
    if s.pc.CommitClean? {
      var d, m, i := s.d, s.pc.tx.journal, s.pc.i;
      if i < |m.changes| { CleanStep(d, m, i, v); }
      else if m.changes != [] { CleanDone(d, m, v); }
    }
  }

  lemma RecordingStep(s: State, o: Outcome, v: Vault)
    requires Inv(s, v) && !LateRollback(s, Step(s, o))
    requires s.pc.Next? || s.pc.PersistChange? || s.pc.StoreBackup? || s.pc.PersistReady? || s.pc.Apply? || s.pc.Render?
    ensures Inv(Step(s, o), v)
  {
    match s.pc
    case Next(_) => RecordStep(s, o, v);
    case PersistChange(_, _) => PersistChangeStep(s, o, v);
    case StoreBackup(_, _) => StoreBackupStep(s, o, v);
    case PersistReady(_) => PersistReadyStep(s, o, v);
    case Apply(_) => ApplyStep(s, o, v);
    case Render(_) => RenderStep(s, o, v);
  }

  predicate MayCommit(pc: Pc) {
    pc.PersistTarget? || pc.WriteProfile?
  }

  lemma QuietStep(s: State, o: Outcome, v: Vault)
    requires Inv(s, v) && !LateRollback(s, Step(s, o)) && !MayCommit(s.pc)
    ensures Inv(Step(s, o), v)
  {
    if s.pc.Stopped? || o.Crash? {
    } else if InRecovery(s.pc) {
      RecoveryStep(s, o, v);
    } else if s.pc.Undo? || s.pc.UndoMark? || s.pc.UndoClean? || s.pc.UndoRemove? {
      UndoStep(s, o, v);
    } else if s.pc.CommitClean? || s.pc.CommitRemove? {
      CommitStep(s, o, v);
    } else {
      RecordingStep(s, o, v);
    }
  }

  /** One step of anything: the durable state goes on standing for the vault. */
  lemma StepKeepsVault(s: State, o: Outcome, v: Vault)
    requires Inv(s, v) && !LateRollback(s, Step(s, o))
    ensures Inv(Step(s, o), VaultAfter(s, o, v))
  {
    if !MayCommit(s.pc) {
      QuietStep(s, o, v);
    } else if o.Crash? {
    } else if s.pc.PersistTarget? {
      PersistTargetStep(s, o, v);
    } else {
      WriteProfileStep(s, o, v);
    }
  }
}
