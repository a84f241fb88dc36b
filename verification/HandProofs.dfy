/** When the hand rollback is as good as the journaled one, and how it fails otherwise. */
module HandProofs {
  import opened Common
  import opened AuthJournal
  import opened JournalMachine
  import opened JournalProofs
  import opened CrashAtomicity
  import opened HandRollback
  import L = LateRollback
  import B = BlindRecovery
  import A = AnyEnding

  // ---------------------------------------------------------------- only new accounts

  /** No recorded account had a value, so none has a backup. */
  ghost predicate AllNew(m: Journal, v: Vault) {
    forall c | c in m.changes :: !c.backedUp && Real(c.account) !in v.secrets
  }

  ghost predicate Known(m: Journal, stored: seq<PlanOp>) {
    forall op | op in stored :: Touches(m.changes, op.account)
  }

  /** The journal on disk, if there is one, is one of new accounts and names all stored ones. */
  ghost predicate DiskOk(d: Durable, txn: nat, v: Vault, stored: seq<PlanOp>) {
    match d.journal
    case None => stored == []
    case Some(j) => j.txn == txn && !j.rollbackRestored && AllNew(j, v) && Known(j, stored)
  }

  /** Everything recorded is taken back by removing it. */
  ghost predicate Removable(d: Durable, m: Journal, v: Vault, stored: seq<PlanOp>) {
    && IsVault(v) && d.profile == v.profile
    && A.NoBackups(d.keyring) && AllNew(m, v) && Known(m, stored) && !m.rollbackRestored
    && Guards(d.keyring, m.txn, m.changes, v.secrets)
    && DiskOk(d, m.txn, v, stored)
    && (d.journal.Some? ==> Guards(d.keyring, m.txn, d.journal.value.changes, v.secrets))
    && (d.journal.None? ==> d.keyring == v.secrets)
  }

  lemma RemovableIsPending(d: Durable, m: Journal, v: Vault, stored: seq<PlanOp>)
    requires Removable(d, m, v, stored)
    ensures !Committed(d) ==> Pending(d, v) && CanUndo(d, m, v)
    ensures Committed(d) ==> Pending(d, Vault(d.keyring, d.profile))
  {
    assert RealPart(d.keyring) == d.keyring;
  }

  /** Putting a stored account back, or removing it, changes nothing for anyone else. */
  lemma TakingBackKeepsGuards(k: Keyring, txn: nat, cs: seq<Change>, op: PlanOp, v: Vault)
    requires Guards(k, txn, cs, v.secrets) && Touches(cs, op.account)
    requires forall c | c in cs :: !c.backedUp
    ensures Guards(ApplyOp(k, op), txn, cs, v.secrets)
  {
    var k' := ApplyOp(k, op);
    forall c | c in cs ensures Guarded(k', txn, c, v.secrets) { assert Guarded(k, txn, c, v.secrets); }
    forall s: Slot | s.Real? && !Touches(cs, s.account) ensures Agree(k', v.secrets, s) {
      assert Agree(k, v.secrets, s);
      assert s == Real(s.account) && s != Real(op.account);
    }
  }

  lemma TakingBackStaysRemovable(d: Durable, m: Journal, v: Vault, stored: seq<PlanOp>, i: nat)
    requires Removable(d, m, v, stored) && i < |stored|
    ensures Removable(d.(keyring := ApplyOp(d.keyring, stored[i])), m, v, stored)
    ensures Committed(d.(keyring := ApplyOp(d.keyring, stored[i]))) <==> Committed(d)
  {
    assert stored[i] in stored;
    TakingBackKeepsGuards(d.keyring, m.txn, m.changes, stored[i], v);
    TakingBackKeepsGuards(d.keyring, m.txn, d.journal.value.changes, stored[i], v);
  }

  // ---------------------------------------------------------------- the writer's states

  /** Following the plan, up to the profile write, with nothing committed. */
  ghost predicate PlanOk(s: HandState, v: Vault, target: Vault, deletes: seq<PlanOp>, stores: seq<PlanOp>) {
    && s.pc.Plain? && (L.BeforeWrite(s.pc.pc) || s.pc.pc.WriteProfile?)
    && !s.pc.pc.StoreBackup? && !s.pc.pc.PersistReady?
    && Inv(State(s.d, s.pc.pc), v) && !Committed(s.d)
    && PlanOnly(s, v, target, deletes, stores)
  }

  ghost predicate PlanOnly(s: HandState, v: Vault, target: Vault, deletes: seq<PlanOp>, stores: seq<PlanOp>) {
    && s.pc.Plain? && HasTx(s.pc.pc) && (s.pc.pc.WriteProfile? ==> s.pc.pc.tx.plan == [])
    && Vault(s.pc.pc.tx.goal, Some(s.pc.pc.tx.body)) == target
    && Follows(s.d, s.pc.pc.tx, s.stored, v, deletes, stores)
    && Removable(s.d, s.pc.pc.tx.journal, v, s.stored)
  }

  /** No backups in the keyring, and none named by the journal on disk. */
  ghost predicate Light(d: Durable, v: Vault) {
    A.NoBackups(d.keyring) && (d.journal.Some? ==> AllNew(d.journal.value, v))
  }

  /** Committed: by an equal text already, or by the profile write. */
  ghost predicate WonOk(s: HandState, v: Vault, target: Vault, deletes: seq<PlanOp>, stores: seq<PlanOp>) {
    && s.pc.Plain? && Inv(State(s.d, s.pc.pc), target) && s.d.keyring == target.secrets
    && (s.pc.pc.WriteProfile? || s.pc.pc.CommitClean? || s.pc.pc.CommitRemove? || s.pc.pc.Stopped?)
    && (s.pc.pc.CommitClean? ==> AllNew(s.pc.pc.tx.journal, v))
    && (s.pc.pc.WriteProfile? ==>
          Committed(s.d) && v.profile == target.profile && PlanOnly(s, v, target, deletes, stores))
  }

  predicate Undoing(pc: Pc) {
    pc.Undo? || pc.UndoMark? || pc.UndoClean? || pc.UndoRemove? || pc.Stopped?
  }

  /** The journaled rollback of new accounts, or the end of a run. */
  ghost predicate UndoOk(s: HandState, v: Vault, target: Vault) {
    && s.pc.Plain? && A.CalmAt(State(s.d, s.pc.pc), v, target) && Undoing(s.pc.pc)
    && (HasTx(s.pc.pc) ==> AllNew(s.pc.pc.tx.journal, v))
  }

  /** Stores are being taken back. */
  ghost predicate UnstoreOk(s: HandState, v: Vault, target: Vault, stores: seq<PlanOp>) {
    && s.pc.Unstore? && s.pc.i <= |s.stored|
    && Vault(s.pc.tx.goal, Some(s.pc.tx.body)) == target
    && Removable(s.d, s.pc.tx.journal, v, s.stored)
    && (Committed(s.d) ==> !s.pc.undo && v.profile == target.profile)
    && (!s.pc.undo ==>
          && TakesBack(v.secrets, stores, s.stored)
          && s.d.keyring == After(v.secrets, stores, s.pc.i))
  }

  /** The keyring is that of `v`; only the journal is left to remove. */
  ghost predicate AbortOk(s: HandState, v: Vault) {
    && (s.pc.AbortClean? || s.pc.AbortRemove? || (s.pc.Unstore? && !s.pc.undo && s.stored == []))
    && s.d.keyring == v.secrets && Pending(s.d, v)
    && ((s.pc.AbortClean? || s.pc.Unstore?) ==> AllNew(s.pc.tx.journal, v))
  }

  ghost predicate Good(d: Durable, v: Vault, target: Vault) {
    Pending(d, v) || (Pending(d, target) && d.keyring == target.secrets)
  }

  ghost predicate HandOk(s: HandState, v: Vault, target: Vault, deletes: seq<PlanOp>, stores: seq<PlanOp>) {
    && Light(s.d, v)
    && (|| PlanOk(s, v, target, deletes, stores)
        || UndoOk(s, v, target)
        || WonOk(s, v, target, deletes, stores)
        || UnstoreOk(s, v, target, stores)
        || AbortOk(s, v)
        || (target.secrets == v.secrets && AbortOk(s, target))
        || (s.pc.Over? && Good(s.d, v, target)))
  }

  /** The transaction: new accounts only, and a changed text or stores that cannot mix. */
  ghost predicate Gentle(v: Vault, deletes: seq<PlanOp>, stores: seq<PlanOp>, body: string) {
    && Shape(deletes, stores) && OnlyNewAccounts(v, deletes + stores)
    && (v.profile != Some(body) || EachStoreOldOrNew(v.secrets, stores))
  }

  lemma {:induction false} DeletesDoNothing(k: Keyring, deletes: seq<PlanOp>)
    requires forall op | op in deletes :: op.Remove? && Real(op.account) !in k
    ensures ApplyPlan(k, deletes) == k
    decreases |deletes|
  {
    if deletes != [] {
      assert deletes[0] in deletes;
      assert ApplyOp(k, deletes[0]) == k;
      assert forall op | op in deletes[1..] :: op in deletes;
      DeletesDoNothing(k, deletes[1..]);
    }
  }

  lemma BaseIsOld(v: Vault, deletes: seq<PlanOp>, stores: seq<PlanOp>)
    requires Shape(deletes, stores) && OnlyNewAccounts(v, deletes + stores)
    ensures Base(v, deletes) == v.secrets
  {
    forall op | op in deletes ensures op.Remove? && Real(op.account) !in v.secrets {
      assert op in deletes + stores;
    }
    DeletesDoNothing(v.secrets, deletes);
  }

  lemma HeadIsNew(s: HandState, v: Vault, deletes: seq<PlanOp>, stores: seq<PlanOp>)
    requires s.pc.Plain? && HasTx(s.pc.pc) && Follows(s.d, s.pc.pc.tx, s.stored, v, deletes, stores)
    requires OnlyNewAccounts(v, deletes + stores) && s.pc.pc.tx.plan != []
    ensures Real(s.pc.pc.tx.plan[0].account) !in v.secrets
  {
    var plan := deletes + stores;
    var x := |plan| - |s.pc.pc.tx.plan|;
    assert s.pc.pc.tx.plan[0] == plan[x] && plan[x] in plan;
  }

  // ---------------------------------------------------------------- the plan, step by step

  /** A new change to an account that had no value. */
  lemma RecordIsRemovable(d: Durable, m: Journal, c: Change, v: Vault, stored: seq<PlanOp>)
    requires Removable(d, m, v, stored) && !c.backedUp && Real(c.account) !in v.secrets
    ensures Removable(d, m.(changes := m.changes + [c]), v, stored)
  {
    var m' := m.(changes := m.changes + [c]);
    forall a | Touches(m.changes, a) ensures Touches(m'.changes, a) {
      var e :| e in m.changes && e.account == a;
      assert e in m'.changes;
    }
    forall e | e in m'.changes ensures Guarded(d.keyring, m.txn, e, v.secrets) {
      if e != c { assert e in m.changes; }
    }
  }

  /** The journal with these changes on disk, with a target or without. */
  lemma PersistIsRemovable(d: Durable, m: Journal, target: Option<Digest>, v: Vault, stored: seq<PlanOp>)
    requires Removable(d, m, v, stored)
    ensures var m' := m.(target := target);
            Removable(d, m', v, stored) && Removable(d.(journal := Some(m')), m', v, stored)
  {
  }

  /** An operation on a recorded new account. */
  lemma ApplyIsRemovable(d: Durable, m: Journal, op: PlanOp, v: Vault, stored: seq<PlanOp>)
    requires Removable(d, m, v, stored) && d.journal == Some(m) && Touches(m.changes, op.account)
    ensures Removable(d.(keyring := ApplyOp(d.keyring, op)), m, v, stored)
    ensures Removable(d.(keyring := ApplyOp(d.keyring, op)), m, v, stored + [Inverse(d.keyring, op)])
  {
    TakingBackKeepsGuards(d.keyring, m.txn, m.changes, op, v);
  }

  /** No backup is made, and everything recorded stays removable. */
  ghost predicate StaysOnPlan(s: HandState, o: Outcome, v: Vault)
    requires s.pc.Plain?
  {
    var t := Step(State(s.d, s.pc.pc), o);
    HasTx(t.pc) ==>
      !t.pc.StoreBackup? && !t.pc.PersistReady? && Removable(t.d, t.pc.tx.journal, v, HandStep(s, o).stored)
  }

  lemma RecordStays(s: HandState, o: Outcome, v: Vault, target: Vault, deletes: seq<PlanOp>, stores: seq<PlanOp>)
    requires PlanOk(s, v, target, deletes, stores) && s.pc.pc.Next? && OnlyNewAccounts(v, deletes + stores)
    ensures StaysOnPlan(s, o, v)
  {
    var tx := s.pc.pc.tx;
    if tx.plan != [] && o.Done? {
      HeadIsNew(s, v, deletes, stores);
      var op := tx.plan[0];
      var previous := Lookup(s.d.keyring, op.account);
      if !(op.Remove? && previous.None?) && !Touches(tx.journal.changes, op.account) {
        assert Agree(s.d.keyring, v.secrets, Real(op.account));
        RecordIsRemovable(s.d, tx.journal, Change(op.account, previous.Some?, previous.None?), v, s.stored);
      }
    }
  }

  lemma PersistStays(s: HandState, o: Outcome, v: Vault, target: Vault, deletes: seq<PlanOp>, stores: seq<PlanOp>)
    requires PlanOk(s, v, target, deletes, stores) && s.pc.pc.PersistChange?
    ensures StaysOnPlan(s, o, v)
  {
    var m := s.pc.pc.tx.journal;
    assert Last(m) in m.changes;
    PersistIsRemovable(s.d, m, m.target, v, s.stored);
  }

  lemma ApplyStays(s: HandState, o: Outcome, v: Vault, target: Vault, deletes: seq<PlanOp>, stores: seq<PlanOp>)
    requires PlanOk(s, v, target, deletes, stores) && s.pc.pc.Apply?
    ensures StaysOnPlan(s, o, v)
  {
    ApplyIsRemovable(s.d, s.pc.pc.tx.journal, s.pc.pc.tx.plan[0], v, s.stored);
  }

  lemma PlanStays(s: HandState, o: Outcome, v: Vault, target: Vault, deletes: seq<PlanOp>, stores: seq<PlanOp>)
    requires PlanOk(s, v, target, deletes, stores) && OnlyNewAccounts(v, deletes + stores)
    requires !MayCommit(s.pc.pc)
    ensures StaysOnPlan(s, o, v)
  {
    if s.pc.pc.Next? { RecordStays(s, o, v, target, deletes, stores); }
    else if s.pc.pc.PersistChange? { PersistStays(s, o, v, target, deletes, stores); }
    else if s.pc.pc.Apply? { ApplyStays(s, o, v, target, deletes, stores); }
  }

  /** Every store is made: what the keyring holds. */
  lemma StoresAreMade(s: HandState, v: Vault, target: Vault, deletes: seq<PlanOp>, stores: seq<PlanOp>)
    requires PlanOnly(s, v, target, deletes, stores) && s.pc.pc.tx.plan == []
    requires Shape(deletes, stores) && OnlyNewAccounts(v, deletes + stores)
    ensures TakesBack(v.secrets, stores, s.stored) && |s.stored| == |stores|
    ensures s.d.keyring == After(v.secrets, stores, |s.stored|)
  {
    BaseIsOld(v, deletes, stores);
    AfterDeletes(v, deletes, stores, |stores|);
    assert RealPart(s.d.keyring) == s.d.keyring;
  }

  lemma PlanStep(s: HandState, o: Outcome, v: Vault, target: Vault, deletes: seq<PlanOp>, stores: seq<PlanOp>)
    requires PlanOk(s, v, target, deletes, stores) && !MayCommit(s.pc.pc)
    requires Shape(deletes, stores) && OnlyNewAccounts(v, deletes + stores)
    ensures HandOk(HandStep(s, o), v, target, deletes, stores)
    ensures o.Done? ==> PlanOk(HandStep(s, o), v, target, deletes, stores)
  {
    var t0 := State(s.d, s.pc.pc);
    assert A.CalmAt(t0, v, target);
    A.CalmIsNotLate(t0, o, v, target);
    QuietStep(t0, o, v);
    PlanStays(s, o, v, target, deletes, stores);
    if o.Done? {
      FollowsOn(s, v, deletes, stores);
      PlanGoesOn(s, v, target, deletes, stores);
    } else if o.Error? {
      PlanFails(s, o, v, target, deletes, stores);
    } else {
      assert A.CalmAt(Step(t0, o), v, target);
    }
  }

  lemma PlanGoesOn(s: HandState, v: Vault, target: Vault, deletes: seq<PlanOp>, stores: seq<PlanOp>)
    requires PlanOk(s, v, target, deletes, stores) && !MayCommit(s.pc.pc)
    requires var s' := HandStep(s, Done);
             && s'.pc.Plain? && HasTx(s'.pc.pc) && !s'.pc.pc.Undo?
             && Follows(s'.d, s'.pc.pc.tx, s'.stored, v, deletes, stores)
             && !s'.pc.pc.StoreBackup? && !s'.pc.pc.PersistReady?
             && Removable(s'.d, s'.pc.pc.tx.journal, v, s'.stored)
             && Inv(State(s'.d, s'.pc.pc), v) && A.Calm(s'.d)
    ensures PlanOk(HandStep(s, Done), v, target, deletes, stores)
  {
  }

  lemma PlanFails(s: HandState, o: Outcome, v: Vault, target: Vault, deletes: seq<PlanOp>, stores: seq<PlanOp>)
    requires PlanOk(s, v, target, deletes, stores) && !MayCommit(s.pc.pc) && o.Error?
    requires Shape(deletes, stores) && OnlyNewAccounts(v, deletes + stores)
    requires var t := Step(State(s.d, s.pc.pc), o);
             Inv(t, v) && A.Calm(t.d) && StaysOnPlan(s, o, v)
    ensures HandOk(HandStep(s, o), v, target, deletes, stores)
  {
    var t := Step(State(s.d, s.pc.pc), o);
    var s' := HandStep(s, o);
    if s.pc.pc.Next? && s.pc.pc.tx.plan == [] {
      assert t.pc == Render(s.pc.pc.tx) && t.d == s.d;
      assert PlanOk(s', v, target, deletes, stores);
    } else if s'.pc.Unstore? {
      if s.pc.pc.Render? { StoresAreMade(s, v, target, deletes, stores); }
      assert UnstoreOk(s', v, target, stores);
    } else {
      assert A.CalmAt(t, v, target);
    }
  }

  // ---------------------------------------------------------------- marking and writing

  lemma TargetStep(s: HandState, o: Outcome, v: Vault, target: Vault, deletes: seq<PlanOp>, stores: seq<PlanOp>)
    requires PlanOk(s, v, target, deletes, stores) && s.pc.pc.PersistTarget?
    requires Shape(deletes, stores) && OnlyNewAccounts(v, deletes + stores)
    ensures HandOk(HandStep(s, o), v, target, deletes, stores)
    ensures o.Done? ==> AtHandWrite(HandStep(s, o), v, target, deletes, stores)
  {
    var t0 := State(s.d, s.pc.pc);
    if o.Crash? {
      assert A.CalmAt(Step(t0, o), v, target);
    } else if s.pc.pc.tx.journal.changes == [] {
      NothingRecorded(s, o, v, target, deletes, stores);
    } else if o.Done? {
      MarkIsSet(s, v, target, deletes, stores);
    } else {
      MarkFails(s, o, v, target, deletes, stores);
    }
  }

  /** About to write the profile, with the old text in place or with the new one already. */
  ghost predicate AtHandWrite(s: HandState, v: Vault, target: Vault, deletes: seq<PlanOp>, stores: seq<PlanOp>) {
    && s.pc.Plain? && s.pc.pc.WriteProfile?
    && (PlanOk(s, v, target, deletes, stores) || WonOk(s, v, target, deletes, stores))
  }

  lemma NothingRecorded(
    s: HandState, o: Outcome, v: Vault, target: Vault, deletes: seq<PlanOp>, stores: seq<PlanOp>)
    requires PlanOk(s, v, target, deletes, stores) && s.pc.pc.PersistTarget? && !o.Crash?
    requires s.pc.pc.tx.journal.changes == []
    ensures PlanOk(HandStep(s, o), v, target, deletes, stores) && HandStep(s, o).pc.pc.WriteProfile?
  {
    var t0, tx := State(s.d, s.pc.pc), s.pc.pc.tx;
    UntouchedVault(s.d, tx.journal, v);
    assert tx.goal == v.secrets;
    StepKeepsVault(t0, o, v);
    FollowsOnlyPlan(s.d, s.d, tx, tx, s.stored, v, deletes, stores);
  }

  lemma MarkIsSet(s: HandState, v: Vault, target: Vault, deletes: seq<PlanOp>, stores: seq<PlanOp>)
    requires PlanOk(s, v, target, deletes, stores) && s.pc.pc.PersistTarget?
    requires s.pc.pc.tx.journal.changes != []
    ensures AtHandWrite(HandStep(s, Done), v, target, deletes, stores)
  {
    var t0, tx := State(s.d, s.pc.pc), s.pc.pc.tx;
    var t := Step(t0, Done);
    StepKeepsVault(t0, Done, v);
    PersistIsRemovable(s.d, tx.journal, Some(Sha256(tx.body)), v, s.stored);
    FollowsOnlyPlan(s.d, t.d, tx, t.pc.tx, s.stored, v, deletes, stores);
    assert PlanOnly(HandStep(s, Done), v, target, deletes, stores);
  }

  lemma MarkFails(s: HandState, o: Outcome, v: Vault, target: Vault, deletes: seq<PlanOp>, stores: seq<PlanOp>)
    requires PlanOk(s, v, target, deletes, stores) && s.pc.pc.PersistTarget? && o.Error?
    requires s.pc.pc.tx.journal.changes != []
    requires Shape(deletes, stores) && OnlyNewAccounts(v, deletes + stores)
    ensures UnstoreOk(HandStep(s, o), v, target, stores)
  {
    var tx := s.pc.pc.tx;
    PersistIsRemovable(s.d, tx.journal, Some(Sha256(tx.body)), v, s.stored);
    StoresAreMade(s, v, target, deletes, stores);
  }

  /** A write error that leaves the old text, or a text that did not change. */
  lemma WriteFails(s: HandState, o: Outcome, v: Vault, target: Vault, deletes: seq<PlanOp>, stores: seq<PlanOp>)
    requires AtHandWrite(s, v, target, deletes, stores) && o.Error?
    requires o.applied ==> v.profile == target.profile
    requires Shape(deletes, stores) && OnlyNewAccounts(v, deletes + stores)
    ensures UnstoreOk(HandStep(s, o), v, target, stores) && HandStep(s, o).d == s.d
    ensures Light(s.d, v)
  {
    StoresAreMade(s, v, target, deletes, stores);
  }

  /** A write error that leaves the new text of a transaction that stores nothing. */
  lemma RenamedWithoutStores(s: HandState, v: Vault, target: Vault, deletes: seq<PlanOp>)
    requires AtHandWrite(s, v, target, deletes, []) && PlanOk(s, v, target, deletes, [])
    requires Shape(deletes, []) && OnlyNewAccounts(v, deletes + []) && target.secrets == v.secrets
    ensures AbortOk(HandStep(s, Error(true)), target) && Light(HandStep(s, Error(true)).d, v)
  {
    StoresAreMade(s, v, target, deletes, []);
    assert Owned(s.d.keyring, s.pc.pc.tx.journal.txn, s.pc.pc.tx.journal.changes);
  }

  lemma WriteSucceeds(
    s: HandState, o: Outcome, v: Vault, target: Vault, deletes: seq<PlanOp>, stores: seq<PlanOp>)
    requires AtHandWrite(s, v, target, deletes, stores) && !o.Error?
    ensures HandOk(HandStep(s, o), v, target, deletes, stores)
  {
    var t0 := State(s.d, s.pc.pc);
    if PlanOk(s, v, target, deletes, stores) { StepKeepsVault(t0, o, v); } else { StepKeepsVault(t0, o, target); }
    assert RealPart(s.d.keyring) == s.d.keyring;
  }

  /** An error after the rename does no harm: the text is the same, or nothing is stored. */
  predicate Firm(v: Vault, stores: seq<PlanOp>, body: string) {
    stores == [] || v.profile == Some(body)
  }

  lemma NewTextIsPlanOk(s: HandState, v: Vault, target: Vault, deletes: seq<PlanOp>, stores: seq<PlanOp>)
    requires AtHandWrite(s, v, target, deletes, stores) && v.profile != target.profile
    ensures PlanOk(s, v, target, deletes, stores)
  {
  }

  lemma WriteStep(
    s: HandState, o: Outcome, v: Vault, deletes: seq<PlanOp>, stores: seq<PlanOp>, body: string)
    requires AtHandWrite(s, v, Target(v, deletes + stores, body), deletes, stores)
    requires Gentle(v, deletes, stores, body) && (o == Error(true) ==> Firm(v, stores, body))
    ensures HandOk(HandStep(s, o), v, Target(v, deletes + stores, body), deletes, stores)
  {
    var target := Target(v, deletes + stores, body);
    if !o.Error? {
      WriteSucceeds(s, o, v, target, deletes, stores);
    } else if o == Error(true) && v.profile != Some(body) {
      GoalOfStores(v, deletes, stores, body);
      NewTextIsPlanOk(s, v, target, deletes, stores);
      RenamedWithoutStores(s, v, target, deletes);
    } else {
      WriteFails(s, o, v, target, deletes, stores);
    }
  }

  // ---------------------------------------------------------------- taking back and aborting

  lemma GoalOfStores(v: Vault, deletes: seq<PlanOp>, stores: seq<PlanOp>, body: string)
    requires Shape(deletes, stores) && OnlyNewAccounts(v, deletes + stores)
    ensures Target(v, deletes + stores, body) == Vault(ApplyPlan(v.secrets, stores), Some(body))
  {
    BaseIsOld(v, deletes, stores);
    PlanSplits(v.secrets, deletes, stores);
  }

  /** Wherever the taking back is cut short, the state stands for old or new. */
  lemma UnstoringIsGood(s: HandState, v: Vault, deletes: seq<PlanOp>, stores: seq<PlanOp>, body: string)
    requires Gentle(v, deletes, stores, body)
    requires UnstoreOk(s, v, Target(v, deletes + stores, body), stores)
    ensures Good(s.d, v, Target(v, deletes + stores, body))
  {
    GoalOfStores(v, deletes, stores, body);
    RemovableIsPending(s.d, s.pc.tx.journal, v, s.stored);
    if Committed(s.d) {
      assert s.d.keyring == v.secrets || s.d.keyring == ApplyPlan(v.secrets, stores);
    }
  }

  lemma TakeOneBackInPlace(k: Keyring, base: Keyring, stores: seq<PlanOp>, stored: seq<PlanOp>, i: nat)
    requires A.NoBackups(k) && TakesBack(base, stores, stored) && 0 < i <= |stored| && k == After(base, stores, i)
    ensures ApplyOp(k, stored[i - 1]) == After(base, stores, i - 1)
  {
    assert RealPart(k) == k;
    TakeOneBack(k, base, stores, stored, i);
    assert RealPart(ApplyOp(k, stored[i - 1])) == ApplyOp(k, stored[i - 1]);
  }

  lemma UnstoreOne(s: HandState, v: Vault, target: Vault, stores: seq<PlanOp>)
    requires UnstoreOk(s, v, target, stores) && s.pc.i > 0
    ensures var d' := s.d.(keyring := ApplyOp(s.d.keyring, s.stored[s.pc.i - 1]));
            UnstoreOk(HandState(d', Unstore(s.pc.tx, s.pc.i - 1, s.pc.undo), s.stored), v, target, stores)
  {
    var i := s.pc.i - 1;
    var d' := s.d.(keyring := ApplyOp(s.d.keyring, s.stored[i]));
    assert Removable(d', s.pc.tx.journal, v, s.stored) && (Committed(d') <==> Committed(s.d)) by {
      TakingBackStaysRemovable(s.d, s.pc.tx.journal, v, s.stored, i);
    }
    if !s.pc.undo {
      assert A.NoBackups(s.d.keyring);
      TakeOneBackInPlace(s.d.keyring, v.secrets, stores, s.stored, s.pc.i);
    }
  }

  lemma UndoBegins(s: HandState, v: Vault, target: Vault, stores: seq<PlanOp>)
    requires UnstoreOk(s, v, target, stores) && s.pc.undo
    ensures UndoOk(HandState(s.d, Plain(StartUndo(s.pc.tx)), s.stored), v, target)
  {
    RemovableIsPending(s.d, s.pc.tx.journal, v, s.stored);
  }

  lemma AllTakenBack(s: HandState, v: Vault, target: Vault, stores: seq<PlanOp>)
    requires UnstoreOk(s, v, target, stores) && s.pc.i == 0
    ensures !s.pc.undo ==> AbortOk(HandStep(s, Done), v)
    ensures s.pc.undo ==> UndoOk(HandState(s.d, Plain(StartUndo(s.pc.tx)), s.stored), v, target)
  {
    RemovableIsPending(s.d, s.pc.tx.journal, v, s.stored);
    if s.pc.undo { UndoBegins(s, v, target, stores); }
  }

  /** `u` is the state with one more store taken back. */
  lemma UnstoreMoves(s: HandState, o: Outcome, u: HandState)
    requires s.pc.Unstore? && 0 < s.pc.i <= |s.stored|
    requires u == HandState(s.d.(keyring := ApplyOp(s.d.keyring, s.stored[s.pc.i - 1])),
                            Unstore(s.pc.tx, s.pc.i - 1, s.pc.undo), s.stored)
    ensures var s' := HandStep(s, o);
            || s' == u
            || (s'.pc.Over? && (s'.d == s.d || s'.d == u.d))
            || (s.pc.undo && s'.pc == Plain(StartUndo(s.pc.tx)) && (s'.d == s.d || s'.d == u.d))
  {
  }

  lemma UnstoreStep(
    s: HandState, o: Outcome, v: Vault, deletes: seq<PlanOp>, stores: seq<PlanOp>, body: string)
    requires Gentle(v, deletes, stores, body)
    requires UnstoreOk(s, v, Target(v, deletes + stores, body), stores)
    ensures HandOk(HandStep(s, o), v, Target(v, deletes + stores, body), deletes, stores)
  {
    var target := Target(v, deletes + stores, body);
    UnstoringIsGood(s, v, deletes, stores, body);
    if s.pc.i == 0 {
      AllTakenBack(s, v, target, stores);
    } else {
      UnstoreOneStep(s, o, v, deletes, stores, body);
    }
  }

  lemma UnstoreOneStep(
    s: HandState, o: Outcome, v: Vault, deletes: seq<PlanOp>, stores: seq<PlanOp>, body: string)
    requires Gentle(v, deletes, stores, body)
    requires UnstoreOk(s, v, Target(v, deletes + stores, body), stores) && s.pc.i > 0
    ensures HandOk(HandStep(s, o), v, Target(v, deletes + stores, body), deletes, stores)
  {
    var target := Target(v, deletes + stores, body);
    var u := HandState(s.d.(keyring := ApplyOp(s.d.keyring, s.stored[s.pc.i - 1])),
                       Unstore(s.pc.tx, s.pc.i - 1, s.pc.undo), s.stored);
    UnstoreOne(s, v, target, stores);
    UnstoreMoves(s, o, u);
    UnstoringIsGood(s, v, deletes, stores, body);
    UnstoringIsGood(u, v, deletes, stores, body);
    if s.pc.undo {
      UndoBegins(s, v, target, stores);
      UndoBegins(u, v, target, stores);
    }
  }

  lemma AbortStep(s: HandState, o: Outcome, u: Vault, v: Vault)
    requires AbortOk(s, u) && Light(s.d, v)
    ensures var s' := HandStep(s, o);
            Light(s'.d, v) && (AbortOk(s', u) || (s'.pc.Over? && Pending(s'.d, u) && s'.d.keyring == u.secrets))
  {
    if s.pc.AbortClean? && s.pc.i < |s.pc.tx.journal.changes| {
      assert s.pc.tx.journal.changes[s.pc.i] in s.pc.tx.journal.changes;
    }
  }

  // ---------------------------------------------------------------- whole runs

  lemma QuietHandStep(s: HandState, o: Outcome, v: Vault, target: Vault)
    requires UndoOk(s, v, target) && Light(s.d, v)
    ensures UndoOk(HandStep(s, o), v, target) && Light(HandStep(s, o).d, v)
  {
    var t := State(s.d, s.pc.pc);
    A.CalmIsNotLate(t, o, v, target);
    QuietStep(t, o, v);
    A.SameAim(t, o);
    QuietIsLight(s, o, v);
  }

  /** A journaled rollback of new accounts meets no backup and makes none. */
  lemma QuietIsLight(s: HandState, o: Outcome, v: Vault)
    requires s.pc.Plain? && Undoing(s.pc.pc) && Light(s.d, v)
    requires HasTx(s.pc.pc) ==> AllNew(s.pc.pc.tx.journal, v)
    ensures var t := Step(State(s.d, s.pc.pc), o);
            Light(t.d, v) && Undoing(t.pc) && (HasTx(t.pc) ==> AllNew(t.pc.tx.journal, v))
  {
  }

  lemma CommitHandStep(s: HandState, o: Outcome, v: Vault, target: Vault, deletes: seq<PlanOp>, stores: seq<PlanOp>)
    requires WonOk(s, v, target, deletes, stores) && !s.pc.pc.WriteProfile? && Light(s.d, v)
    ensures WonOk(HandStep(s, o), v, target, deletes, stores) && Light(HandStep(s, o).d, v)
  {
    StepKeepsVault(State(s.d, s.pc.pc), o, target);
    if s.pc.pc.CommitClean? && s.pc.pc.i < |s.pc.pc.tx.journal.changes| {
      assert s.pc.pc.tx.journal.changes[s.pc.pc.i] in s.pc.pc.tx.journal.changes;
    }
  }

  lemma HandOkStep(
    s: HandState, o: Outcome, v: Vault, deletes: seq<PlanOp>, stores: seq<PlanOp>, body: string)
    requires Gentle(v, deletes, stores, body)
    requires s.pc.Plain? && s.pc.pc.WriteProfile? && o == Error(true) ==> Firm(v, stores, body)
    requires HandOk(s, v, Target(v, deletes + stores, body), deletes, stores)
    ensures HandOk(HandStep(s, o), v, Target(v, deletes + stores, body), deletes, stores)
  {
    var target := Target(v, deletes + stores, body);
    if AtHandWrite(s, v, target, deletes, stores) { WriteStep(s, o, v, deletes, stores, body); }
    else if PlanOk(s, v, target, deletes, stores) {
      if s.pc.pc.PersistTarget? { TargetStep(s, o, v, target, deletes, stores); }
      else { PlanStep(s, o, v, target, deletes, stores); }
    }
    else if WonOk(s, v, target, deletes, stores) { CommitHandStep(s, o, v, target, deletes, stores); }
    else if UnstoreOk(s, v, target, stores) { UnstoreStep(s, o, v, deletes, stores, body); }
    else if AbortOk(s, v) { AbortStep(s, o, v, v); }
    else if target.secrets == v.secrets && AbortOk(s, target) { AbortStep(s, o, target, v); }
    else if UndoOk(s, v, target) { QuietHandStep(s, o, v, target); }
  }

  lemma {:induction false} HandOkRun(
    s: HandState, os: seq<Outcome>, v: Vault, deletes: seq<PlanOp>, stores: seq<PlanOp>, body: string)
    requires Gentle(v, deletes, stores, body) && (Firm(v, stores, body) || HandErrorsBeforeRename(s, os))
    requires HandOk(s, v, Target(v, deletes + stores, body), deletes, stores)
    ensures HandOk(HandRun(s, os), v, Target(v, deletes + stores, body), deletes, stores)
    decreases |os|
  {
    if os != [] {
      HandOkStep(s, os[0], v, deletes, stores, body);
      HandOkRun(HandStep(s, os[0]), os[1..], v, deletes, stores, body);
    }
  }

  lemma HandOkIsGood(s: HandState, v: Vault, deletes: seq<PlanOp>, stores: seq<PlanOp>, body: string)
    requires Gentle(v, deletes, stores, body)
    requires HandOk(s, v, Target(v, deletes + stores, body), deletes, stores)
    ensures Good(s.d, v, Target(v, deletes + stores, body)) && Light(s.d, v)
  {
    if UnstoreOk(s, v, Target(v, deletes + stores, body), stores) {
      UnstoringIsGood(s, v, deletes, stores, body);
    }
  }

  lemma HandBeginIsOk(v: Vault, txn: nat, deletes: seq<PlanOp>, stores: seq<PlanOp>, body: string)
    requires IsVault(v)
    ensures PlanOk(HandBegin(v, txn, deletes, stores, body), v, Target(v, deletes + stores, body), deletes, stores)
  {
    BeginIsOk(v, txn, deletes + stores, body);
    FollowsFromStart(v, txn, deletes, stores, body);
  }

  /** What a run of the writer leaves. */
  lemma HandLeavesGood(
    v: Vault, txn: nat, deletes: seq<PlanOp>, stores: seq<PlanOp>, body: string, writer: seq<Outcome>)
    requires IsVault(v) && Gentle(v, deletes, stores, body)
    requires Firm(v, stores, body) || HandErrorsBeforeRename(HandBegin(v, txn, deletes, stores, body), writer)
    ensures var d := HandRun(HandBegin(v, txn, deletes, stores, body), writer).d;
            Good(d, v, Target(v, deletes + stores, body)) && Light(d, v)
  {
    var b := HandBegin(v, txn, deletes, stores, body);
    HandBeginIsOk(v, txn, deletes, stores, body);
    HandOkRun(b, writer, v, deletes, stores, body);
    HandOkIsGood(HandRun(b, writer), v, deletes, stores, body);
  }

  /** New accounts only, and stores that cannot mix: the hand rollback is as good as the journaled one. */
  lemma GentleIsAtomic(v: Vault, txn: nat, deletes: seq<PlanOp>, stores: seq<PlanOp>, body: string)
    requires IsVault(v) && Gentle(v, deletes, stores, body)
    ensures HandAtomic(v, txn, deletes, stores, body, false, false)
  {
    var b, target := HandBegin(v, txn, deletes, stores, body), Target(v, deletes + stores, body);
    forall writer, interrupted, last | HandAllowed(b, false, false, writer, interrupted, last)
      ensures EndsOldOrNew(HandEnding(b, writer, interrupted, last), v, target)
    {
      HandLeavesGood(v, txn, deletes, stores, body, writer);
      var d := HandRun(b, writer).d;
      var w := if Pending(d, v) then v else target;
      RecoveriesKeepVault(d, interrupted, w);
      RecoveryFromStart(Recoveries(d, interrupted), last, w);
    }
  }

  // ---------------------------------------------------------------- errors after the rename, blind recoveries

  /** A recovery that has no backup to look for. */
  predicate Bare(s: State) {
    && Recovering(s.pc) && s.pc != Stopped(MissingBackup)
    && (s.d.journal.Some? ==> NoneBackedUp(s.d.journal.value))
    && (s.pc.RecProfile? || s.pc.RecRestore? || s.pc.RecMark? || s.pc.RecClean? ==> NoneBackedUp(s.pc.j))
  }

  predicate NoneBackedUp(j: Journal) {
    forall c | c in j.changes :: !c.backedUp
  }

  lemma {:induction false} BareRun(s: State, os: seq<Outcome>)
    requires Bare(s)
    ensures Bare(Run(s, os))
    decreases |os|
  {
    if os != [] { BareRun(Step(s, os[0]), os[1..]); }
  }

  lemma {:induction false} BareRecoveries(d: Durable, runs: seq<seq<Outcome>>)
    requires Bare(State(d, RecRead))
    ensures Bare(State(Recoveries(d, runs), RecRead))
    decreases |runs|
  {
    if runs != [] {
      BareRun(State(d, RecRead), runs[0]);
      BareRecoveries(Run(State(d, RecRead), runs[0]).d, runs[1..]);
    }
  }

  lemma GoodIsSomewhere(d: Durable, v: Vault, target: Vault)
    requires Good(d, v, target) && Light(d, v)
    ensures A.Somewhere(State(d, RecRead), v, target)
  {
    if !(Pending(d, v) && A.Calm(d)) {
      assert d.keyring == v.secrets || d.keyring == target.secrets by {
        if Pending(d, v) { assert RealPart(d.keyring) == d.keyring; }
      }
      forall s: Slot | s.Real? ensures Agree(d.keyring, v.secrets, s) || Agree(d.keyring, target.secrets, s) {}
    }
  }

  /** The first store makes the new account, so every later one is to the same account. */
  lemma StoresOneAccount(k: Keyring, stores: seq<PlanOp>)
    requires forall op | op in stores :: op.Put? && Real(op.account) !in k
    requires EachStoreOldOrNew(k, stores)
    ensures L.AtMostOneDiffers(k, ApplyPlan(k, stores))
  {
    if stores == [] {
      assert L.SameExcept(k, k, Real(""));
    } else {
      var op := stores[0];
      assert op in stores && stores[..1] == [op];
      assert ApplyPlan(k, [op]) == ApplyPlan(ApplyOp(k, op), []);
      assert After(k, stores, 1) == k[Real(op.account) := op.secret];
      assert L.SameExcept(k, ApplyPlan(k, stores), Real(op.account));
    }
  }

  lemma FirmCannotMix(v: Vault, deletes: seq<PlanOp>, stores: seq<PlanOp>, body: string)
    requires Gentle(v, deletes, stores, body) && Firm(v, stores, body)
    ensures var target := Target(v, deletes + stores, body);
            L.AtMostOneDiffers(v.secrets, target.secrets)
            && (target.secrets == v.secrets || target.profile == v.profile)
  {
    GoalOfStores(v, deletes, stores, body);
    if stores == [] {
      assert L.SameExcept(v.secrets, v.secrets, Real(""));
    } else {
      forall op | op in stores ensures op.Put? && Real(op.account) !in v.secrets {
        assert op in deletes + stores;
      }
      StoresOneAccount(v.secrets, stores);
    }
  }

  /** Then not even a blind recovery can mix. */
  lemma FirmEndsWell(
    v: Vault, deletes: seq<PlanOp>, stores: seq<PlanOp>, body: string, d: Durable,
    interrupted: seq<seq<Outcome>>, last: seq<Outcome>)
    requires IsVault(v) && Gentle(v, deletes, stores, body) && Firm(v, stores, body)
    requires Good(d, v, Target(v, deletes + stores, body)) && Light(d, v)
    ensures EndsOldOrNew(Run(State(Recoveries(d, interrupted), RecRead), last), v, Target(v, deletes + stores, body))
  {
    var target := Target(v, deletes + stores, body);
    BareRecoveries(d, interrupted);
    BareRun(State(Recoveries(d, interrupted), RecRead), last);
    GoodIsSomewhere(d, v, target);
    if Run(State(Recoveries(d, interrupted), RecRead), last).pc == Stopped(Success) {
      var w := A.EndsInParts(d, interrupted, last, v, target);
      FirmCannotMix(v, deletes, stores, body);
      L.PlanStaysReal(v.secrets, deletes + stores);
      L.OneDifferenceCannotMix(w.secrets, v.secrets, target.secrets);
    }
  }

  lemma FirmIsAtomic(
    v: Vault, txn: nat, deletes: seq<PlanOp>, stores: seq<PlanOp>, body: string,
    renameErrors: bool, blindReads: bool)
    requires IsVault(v) && Gentle(v, deletes, stores, body) && Firm(v, stores, body)
    ensures HandAtomic(v, txn, deletes, stores, body, renameErrors, blindReads)
  {
    var b, target := HandBegin(v, txn, deletes, stores, body), Target(v, deletes + stores, body);
    forall writer, interrupted, last | HandAllowed(b, renameErrors, blindReads, writer, interrupted, last)
      ensures EndsOldOrNew(HandEnding(b, writer, interrupted, last), v, target)
    {
      HandLeavesGood(v, txn, deletes, stores, body, writer);
      FirmEndsWell(v, deletes, stores, body, HandRun(b, writer).d, interrupted, last);
    }
  }
}
