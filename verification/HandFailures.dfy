/** Exactly when the hand rollback is atomic, and the runs in which it is not. */
module HandFailures {
  import opened Common
  import opened AuthJournal
  import opened JournalMachine
  import opened JournalProofs
  import opened CrashAtomicity
  import opened HandRollback
  import opened HandProofs
  import L = LateRollback
  import B = BlindRecovery

  // ---------------------------------------------------------------- runs

  lemma {:induction false} NoLateErrors(s: HandState, os: seq<Outcome>)
    requires Error(true) !in os
    ensures HandErrorsBeforeRename(s, os)
    decreases |os|
  {
    if os != [] { NoLateErrors(HandStep(s, os[0]), os[1..]); }
  }

  lemma {:induction false} HandRunSplit(s: HandState, a: seq<Outcome>, b: seq<Outcome>)
    ensures HandRun(s, a + b) == HandRun(HandRun(s, a), b)
    decreases |a|
  {
    if a == [] {
      assert a + b == b;
    } else {
      assert (a + b)[0] == a[0] && (a + b)[1..] == a[1..] + b;
      HandRunSplit(HandStep(s, a[0]), a[1..], b);
    }
  }

  lemma HandRunDones(s: HandState, n: nat)
    requires n > 0
    ensures HandRun(s, Dones(n)) == HandRun(HandStep(s, Done), Dones(n - 1))
  {
    assert Dones(n)[1..] == Dones(n - 1);
  }

  lemma HandThen(s: HandState, o: Outcome)
    ensures HandRun(s, [o]) == HandStep(s, o)
  {
    assert HandRun(HandStep(s, o), [o][1..]) == HandStep(s, o);
  }

  /** Without an error, cut short or not, the two writers are the same. */
  lemma {:induction false} WithoutErrorsAlike(s: HandState, os: seq<Outcome>)
    requires s.pc.Plain? && B.NoErrors(os)
    ensures var r, t := HandRun(s, os), Run(State(s.d, s.pc.pc), os);
            r.d == t.d && r.pc == Plain(t.pc)
    decreases |os|
  {
    if os != [] {
      assert os[0] in os && forall o | o in os[1..] :: o in os;
      WithoutErrorsAlike(HandStep(s, os[0]), os[1..]);
    }
  }

  // ---------------------------------------------------------------- the whole plan is made

  /** Every operation on an account that had a value is still to come, or is recorded. */
  ghost predicate Pursued(tx: Tx, plan: seq<PlanOp>, v: Vault) {
    forall op | op in plan && Real(op.account) in v.secrets ::
      op in tx.plan || Touches(tx.journal.changes, op.account)
  }

  ghost predicate AtPlan(s: HandState, v: Vault, deletes: seq<PlanOp>, stores: seq<PlanOp>) {
    && s.pc.Plain? && L.BeforeWrite(s.pc.pc) && !s.pc.pc.PersistTarget?
    && Inv(State(s.d, s.pc.pc), v)
    && Follows(s.d, s.pc.pc.tx, s.stored, v, deletes, stores)
    && Pursued(s.pc.pc.tx, deletes + stores, v)
  }

  lemma TouchesMore(cs: seq<Change>, c: Change, account: string)
    requires Touches(cs, account)
    ensures Touches(cs + [c], account)
  {
    var e :| e in cs && e.account == account;
    assert e in cs + [c];
  }

  lemma RecordedStays(s: State, account: string)
    requires L.BeforeWrite(s.pc) && !s.pc.PersistTarget? && HasTx(Step(s, Done).pc)
    requires s.pc.StoreBackup? ==> s.pc.tx.journal.changes != []
    requires Touches(s.pc.tx.journal.changes, account)
    ensures Touches(Step(s, Done).pc.tx.journal.changes, account)
  {
    var m, m' := s.pc.tx.journal, Step(s, Done).pc.tx.journal;
    if s.pc.StoreBackup? { SameAccounts(m); }
    if s.pc.Next? && m'.changes != m.changes { TouchesMore(m.changes, Last(m'), account); }
  }

  /** An operation leaves the plan when it is recorded, or has nothing to remove. */
  lemma HeadLeaves(s: State, v: Vault)
    requires L.BeforeWrite(s.pc) && !s.pc.PersistTarget? && Inv(s, v)
    ensures HasTx(Step(s, Done).pc)
    ensures var tx, plan' := s.pc.tx, Step(s, Done).pc.tx.plan;
            || plan' == tx.plan
            || (tx.plan != [] && plan' == tx.plan[1..]
                && (Touches(tx.journal.changes, tx.plan[0].account) || Skips(s.d.keyring, tx.plan[0])))
  {
  }

  /** An account that had a value and lost it is recorded. */
  lemma SkippedIsRecorded(s: State, account: string, v: Vault)
    requires L.BeforeWrite(s.pc) && Inv(s, v) && Real(account) in v.secrets && Real(account) !in s.d.keyring
    ensures Touches(s.pc.tx.journal.changes, account)
  {
    assert Touches(s.pc.tx.journal.changes, account) || Agree(s.d.keyring, v.secrets, Real(account));
  }

  lemma PursuedStep(s: State, plan: seq<PlanOp>, v: Vault)
    requires L.BeforeWrite(s.pc) && !s.pc.PersistTarget? && Inv(s, v) && Pursued(s.pc.tx, plan, v)
    ensures HasTx(Step(s, Done).pc) && Pursued(Step(s, Done).pc.tx, plan, v)
  {
    HeadLeaves(s, v);
    var tx, tx' := s.pc.tx, Step(s, Done).pc.tx;
    forall op | op in plan && Real(op.account) in v.secrets
      ensures op in tx'.plan || Touches(tx'.journal.changes, op.account)
    {
      if op !in tx'.plan { LeftIsRecorded(s, op, plan, v); }
    }
  }

  lemma LeftIsRecorded(s: State, op: PlanOp, plan: seq<PlanOp>, v: Vault)
    requires L.BeforeWrite(s.pc) && !s.pc.PersistTarget? && Inv(s, v) && Pursued(s.pc.tx, plan, v)
    requires op in plan && Real(op.account) in v.secrets
    requires HasTx(Step(s, Done).pc) && op !in Step(s, Done).pc.tx.plan
    ensures Touches(Step(s, Done).pc.tx.journal.changes, op.account)
  {
    var tx := s.pc.tx;
    HeadLeaves(s, v);
    if op in tx.plan {
      assert tx.plan == [tx.plan[0]] + tx.plan[1..];
      if Skips(s.d.keyring, op) { SkippedIsRecorded(s, op.account, v); }
    }
    RecordedStays(s, op.account);
  }

  lemma AtPlanStep(s: HandState, v: Vault, deletes: seq<PlanOp>, stores: seq<PlanOp>)
    requires Shape(deletes, stores) && AtPlan(s, v, deletes, stores) && !s.pc.pc.Render?
    ensures AtPlan(HandStep(s, Done), v, deletes, stores)
    ensures L.WriteDistance(HandStep(s, Done).pc.pc) < L.WriteDistance(s.pc.pc)
  {
    FollowsOn(s, v, deletes, stores);
    QuietStep(State(s.d, s.pc.pc), Done, v);
    PursuedStep(State(s.d, s.pc.pc), deletes + stores, v);
  }

  /** With no errors every account is dealt with. */
  lemma {:induction false} ReachHandRender(s: HandState, v: Vault, deletes: seq<PlanOp>, stores: seq<PlanOp>)
    returns (n: nat)
    requires Shape(deletes, stores) && AtPlan(s, v, deletes, stores)
    ensures var r := HandRun(s, Dones(n)); AtPlan(r, v, deletes, stores) && r.pc.pc.Render?
    decreases L.WriteDistance(s.pc.pc)
  {
    if s.pc.pc.Render? {
      n := 0;
    } else {
      AtPlanStep(s, v, deletes, stores);
      var m := ReachHandRender(HandStep(s, Done), v, deletes, stores);
      n := m + 1;
      HandRunDones(s, n);
    }
  }

  lemma RenderFromStart(v: Vault, txn: nat, deletes: seq<PlanOp>, stores: seq<PlanOp>, body: string)
    returns (n: nat)
    requires IsVault(v) && Shape(deletes, stores)
    ensures var r := HandRun(HandBegin(v, txn, deletes, stores, body), Dones(n));
            AtPlan(r, v, deletes, stores) && r.pc.pc.Render?
  {
    BeginIsOk(v, txn, deletes + stores, body);
    FollowsFromStart(v, txn, deletes, stores, body);
    n := ReachHandRender(HandBegin(v, txn, deletes, stores, body), v, deletes, stores);
  }

  // ---------------------------------------------------------------- the hand rollback, undisturbed

  /** Taking the stores back touches neither the journal nor the profile nor a backup. */
  lemma {:induction false} UnstoreAll(s: HandState)
    requires s.pc.Unstore? && !s.pc.undo && s.pc.i <= |s.stored|
    ensures var r := HandRun(s, Dones(s.pc.i + 1));
            && r.pc == AbortClean(s.pc.tx, 0)
            && r.d.journal == s.d.journal && r.d.profile == s.d.profile
            && (forall t: Slot | t.Backup? :: Agree(r.d.keyring, s.d.keyring, t))
    decreases s.pc.i
  {
    HandRunDones(s, s.pc.i + 1);
    if s.pc.i > 0 {
      UnstoreAll(HandStep(s, Done));
      RealOfApply(s.d.keyring, s.stored[s.pc.i - 1]);
    }
  }

  /** The abort deletes the backup of the `j`-th change. */
  lemma {:induction false} AbortDrops(s: HandState, j: nat)
    requires s.pc.AbortClean? && s.pc.i <= j < |s.pc.tx.journal.changes|
    requires s.pc.tx.journal.changes[j].backedUp
    ensures var r, m := HandRun(s, Dones(j + 1 - s.pc.i)), s.pc.tx.journal;
            && r.pc == AbortClean(s.pc.tx, j + 1)
            && r.d.journal == s.d.journal && r.d.profile == s.d.profile
            && Backup(m.txn, m.changes[j].account) !in r.d.keyring
    decreases j - s.pc.i
  {
    HandRunDones(s, j + 1 - s.pc.i);
    if s.pc.i < j { AbortDrops(HandStep(s, Done), j); }
  }

  /** From an error after the stores to a crash in the middle of the abort. */
  lemma DieInAbort(s: HandState, j: nat) returns (os: seq<Outcome>)
    requires s.pc.Plain? && s.pc.pc.Render?
    requires j < |s.pc.pc.tx.journal.changes| && s.pc.pc.tx.journal.changes[j].backedUp
    ensures Error(true) !in os
    ensures var r, m := HandRun(s, os), s.pc.pc.tx.journal;
            && r.d.journal == s.d.journal && r.d.profile == s.d.profile
            && Backup(m.txn, m.changes[j].account) !in r.d.keyring
  {
    var u := HandStep(s, Error(false));
    HandThen(s, Error(false));
    UnstoreAll(u);
    var a := HandRun(u, Dones(|s.stored| + 1));
    AbortDrops(a, j);
    os := [Error(false)] + (Dones(|s.stored| + 1) + Dones(j + 1));
    HandRunSplit(s, [Error(false)], Dones(|s.stored| + 1) + Dones(j + 1));
    HandRunSplit(u, Dones(|s.stored| + 1), Dones(j + 1));
  }

  // ---------------------------------------------------------------- the rollback that completes

  lemma {:induction false} UnstoreToBase(s: HandState, base: Keyring, stores: seq<PlanOp>)
    requires s.pc.Unstore? && !s.pc.undo && s.pc.i <= |s.stored|
    requires TakesBack(base, stores, s.stored) && RealPart(s.d.keyring) == After(base, stores, s.pc.i)
    ensures RealPart(HandRun(s, Dones(s.pc.i + 1)).d.keyring) == base
    decreases s.pc.i
  {
    HandRunDones(s, s.pc.i + 1);
    if s.pc.i > 0 {
      TakeOneBack(s.d.keyring, base, stores, s.stored, s.pc.i);
      UnstoreToBase(HandStep(s, Done), base, stores);
    } else {
      assert stores[..0] == [];
    }
  }

  lemma {:induction false} AbortFinishes(s: HandState)
    requires s.pc.AbortClean? && s.pc.i <= |s.pc.tx.journal.changes|
    requires Owned(s.d.keyring, s.pc.tx.journal.txn, s.pc.tx.journal.changes[s.pc.i..])
    ensures var r := HandRun(s, Dones(|s.pc.tx.journal.changes| - s.pc.i + 2));
            r.pc == Over(Failure) && r.d == Settled(Vault(RealPart(s.d.keyring), s.d.profile))
    decreases |s.pc.tx.journal.changes| - s.pc.i
  {
    var m, i := s.pc.tx.journal, s.pc.i;
    HandRunDones(s, |m.changes| - i + 2);
    if i < |m.changes| {
      DropKeeps(s.d.keyring, m.txn, m.changes, i);
      AbortFinishes(HandStep(s, Done));
    } else {
      assert m.changes[i..] == [];
      NothingOwned(s.d.keyring, m.txn);
      HandRunDones(HandStep(s, Done), 1);
    }
  }

  lemma OwnedByBackups(k: Keyring, k': Keyring, txn: nat, cs: seq<Change>)
    requires Owned(k, txn, cs) && forall t: Slot | t.Backup? :: Agree(k', k, t)
    ensures Owned(k', txn, cs)
  {
    forall s | s in k' && s.Backup?
      ensures s.txn == txn && exists c | c in cs :: c.backedUp && c.account == s.account
    {
      assert Agree(k', k, s);
    }
  }

  /** Taking everything back and aborting, undisturbed. */
  lemma TakesAllBack(u: HandState, base: Keyring, stores: seq<PlanOp>) returns (os: seq<Outcome>)
    requires u.pc.Unstore? && !u.pc.undo && u.pc.i == |u.stored|
    requires TakesBack(base, stores, u.stored) && RealPart(u.d.keyring) == After(base, stores, u.pc.i)
    requires Owned(u.d.keyring, u.pc.tx.journal.txn, u.pc.tx.journal.changes)
    ensures Error(true) !in os
    ensures HandRun(u, os).pc == Over(Failure) && HandRun(u, os).d == Settled(Vault(base, u.d.profile))
  {
    var n, m := |u.stored| + 1, u.pc.tx.journal;
    UnstoreAll(u);
    UnstoreToBase(u, base, stores);
    var a, k := HandRun(u, Dones(n)), |m.changes| + 2;
    OwnedByBackups(u.d.keyring, a.d.keyring, m.txn, m.changes);
    assert m.changes[0..] == m.changes;
    AbortFinishes(a);
    os := Dones(n) + Dones(k);
    HandRunSplit(u, Dones(n), Dones(k));
  }

  /** From an error after the stores, without another one, to the end of the abort. */
  lemma RollsBackByHand(s: HandState, v: Vault, deletes: seq<PlanOp>, stores: seq<PlanOp>)
    returns (os: seq<Outcome>)
    requires AtPlan(s, v, deletes, stores) && s.pc.pc.Render?
    ensures Error(true) !in os
    ensures HandRun(s, os).pc == Over(Failure)
    ensures HandRun(s, os).d == Settled(Vault(Base(v, deletes), v.profile))
  {
    HandThen(s, Error(false));
    AfterDeletes(v, deletes, stores, |stores|);
    var rest := TakesAllBack(HandStep(s, Error(false)), Base(v, deletes), stores);
    os := [Error(false)] + rest;
    HandRunSplit(s, [Error(false)], rest);
  }

  /**
  One error after the deletions is enough: the hand rollback runs to its end, and
  the deleted accounts are gone under the old profile, with no journal left.
  */
  lemma DeletedAccountsAreLost(v: Vault, txn: nat, deletes: seq<PlanOp>, stores: seq<PlanOp>, body: string)
    returns (writer: seq<Outcome>)
    requires IsVault(v) && Shape(deletes, stores)
    ensures var b := HandBegin(v, txn, deletes, stores, body);
            var r := HandRun(b, writer);
            && HandErrorsBeforeRename(b, writer) && r.pc == Over(Failure)
            && r.d == Settled(Vault(Base(v, deletes), v.profile))
    ensures forall op | op in deletes :: Real(op.account) !in Base(v, deletes)
  {
    var b := HandBegin(v, txn, deletes, stores, body);
    var n := RenderFromStart(v, txn, deletes, stores, body);
    var rest := RollsBackByHand(HandRun(b, Dones(n)), v, deletes, stores);
    writer := Dones(n) + rest;
    HandRunSplit(b, Dones(n), rest);
    NoLateErrors(b, writer);
    DeletesDelete(v.secrets, deletes);
  }

  lemma {:induction false} DeletesDelete(k: Keyring, deletes: seq<PlanOp>)
    requires forall op | op in deletes :: op.Remove?
    ensures forall op | op in deletes :: Real(op.account) !in ApplyPlan(k, deletes)
    ensures forall s | s in ApplyPlan(k, deletes) :: s in k
    decreases |deletes|
  {
    if deletes != [] {
      assert deletes == [deletes[0]] + deletes[1..];
      assert deletes[0] in deletes && forall op | op in deletes[1..] :: op in deletes;
      DeletesDelete(ApplyOp(k, deletes[0]), deletes[1..]);
    }
  }

  // ---------------------------------------------------------------- an account that existed

  lemma ExistingIsBackedUp(s: HandState, op: PlanOp, v: Vault, deletes: seq<PlanOp>, stores: seq<PlanOp>)
    returns (j: nat)
    requires AtPlan(s, v, deletes, stores) && s.pc.pc.Render?
    requires op in deletes + stores && Real(op.account) in v.secrets
    ensures var m := s.pc.pc.tx.journal;
            && s.d.journal == Some(m) && !Committed(s.d) && !m.rollbackRestored
            && j < |m.changes| && m.changes[j].backedUp && m.changes[j].backupReady
  {
    var m := s.pc.pc.tx.journal;
    assert Touches(m.changes, op.account);
    var c :| c in m.changes && c.account == op.account;
    assert Guarded(s.d.keyring, m.txn, c, v.secrets);
    j :| 0 <= j < |m.changes| && m.changes[j] == c;
  }

  /** An uncommitted journal names a backup that is gone. */
  predicate HasGap(d: Durable) {
    && d.journal.Some? && !Committed(d) && !d.journal.value.rollbackRestored
    && B.BackupGone(d.keyring, d.journal.value.txn, d.journal.value.changes)
  }

  /** A recovery that can see everything, after an abort cut short. */
  lemma RecoveryMissesBackup(d: Durable) returns (os: seq<Outcome>)
    requires HasGap(d)
    ensures Sighted(os) && Run(State(d, RecRead), os).pc == Stopped(MissingBackup)
  {
    var j := d.journal.value;
    assert j.changes[..|j.changes|] == j.changes;
    var n := B.RestoreMeetsGap(d, j, |j.changes|);
    os := Dones(n + 2);
    RunDones(State(d, RecRead), n + 2);
    RunDones(Step(State(d, RecRead), Done), n + 1);
  }

  /** The writer fails after its stores, and has deleted a backup when it is in the middle of its abort. */
  lemma AbortLeavesGap(
    v: Vault, txn: nat, deletes: seq<PlanOp>, stores: seq<PlanOp>, body: string, op: PlanOp)
    returns (writer: seq<Outcome>)
    requires IsVault(v) && Shape(deletes, stores)
    requires op in deletes + stores && Real(op.account) in v.secrets
    ensures HandErrorsBeforeRename(HandBegin(v, txn, deletes, stores, body), writer)
    ensures HasGap(HandRun(HandBegin(v, txn, deletes, stores, body), writer).d)
  {
    var b := HandBegin(v, txn, deletes, stores, body);
    var n := RenderFromStart(v, txn, deletes, stores, body);
    var s := HandRun(b, Dones(n));
    var j := ExistingIsBackedUp(s, op, v, deletes, stores);
    var rest := DieInAbort(s, j);
    writer := Dones(n) + rest;
    HandRunSplit(b, Dones(n), rest);
    NoLateErrors(b, writer);
    var d, m := HandRun(b, writer).d, s.pc.pc.tx.journal;
    assert RestoreOne(d.keyring, m.txn, m.changes[j]).None?;
  }

  /**
  A transaction that deletes or overwrites an account with a value: the writer
  fails after its stores and dies while it aborts, and from then on no recovery
  can finish.
  */
  lemma ExistingAccountBreaks(
    v: Vault, txn: nat, deletes: seq<PlanOp>, stores: seq<PlanOp>, body: string, op: PlanOp)
    returns (writer: seq<Outcome>, last: seq<Outcome>)
    requires IsVault(v) && Shape(deletes, stores)
    requires op in deletes + stores && Real(op.account) in v.secrets
    ensures var b := HandBegin(v, txn, deletes, stores, body);
            && HandErrorsBeforeRename(b, writer) && Sighted(last)
            && HandEnding(b, writer, [], last).pc == Stopped(MissingBackup)
  {
    writer := AbortLeavesGap(v, txn, deletes, stores, body, op);
    var d := HandRun(HandBegin(v, txn, deletes, stores, body), writer).d;
    last := RecoveryMissesBackup(d);
  }

  // ---------------------------------------------------------------- an equal text

  lemma PlanGoesNearer(s: HandState, v: Vault, target: Vault, deletes: seq<PlanOp>, stores: seq<PlanOp>)
    requires PlanOk(s, v, target, deletes, stores) && L.BeforeWrite(s.pc.pc) && !s.pc.pc.PersistTarget?
    requires Shape(deletes, stores) && OnlyNewAccounts(v, deletes + stores)
    ensures var s' := HandStep(s, Done);
            && PlanOk(s', v, target, deletes, stores) && L.BeforeWrite(s'.pc.pc)
            && L.WriteDistance(s'.pc.pc) < L.WriteDistance(s.pc.pc)
  {
    PlanStep(s, Done, v, target, deletes, stores);
  }

  /** New accounts only: undisturbed, the writer gets to its profile write. */
  lemma {:induction false} ReachHandWrite(
    s: HandState, v: Vault, target: Vault, deletes: seq<PlanOp>, stores: seq<PlanOp>) returns (n: nat)
    requires PlanOk(s, v, target, deletes, stores) && L.BeforeWrite(s.pc.pc)
    requires Shape(deletes, stores) && OnlyNewAccounts(v, deletes + stores)
    ensures AtHandWrite(HandRun(s, Dones(n)), v, target, deletes, stores)
    decreases L.WriteDistance(s.pc.pc)
  {
    var s' := HandStep(s, Done);
    if s.pc.pc.PersistTarget? {
      TargetStep(s, Done, v, target, deletes, stores);
      n := 1;
      assert HandRun(s', Dones(0)) == s';
    } else {
      PlanGoesNearer(s, v, target, deletes, stores);
      var m := ReachHandWrite(s', v, target, deletes, stores);
      n := m + 1;
    }
    HandRunDones(s, n);
  }

  lemma UnstoreDone(s: HandState, v: Vault, target: Vault, stores: seq<PlanOp>)
    requires UnstoreOk(s, v, target, stores) && !s.pc.undo && s.pc.i > 0
    ensures var r := HandStep(s, Done);
            && UnstoreOk(r, v, target, stores) && r.pc == Unstore(s.pc.tx, s.pc.i - 1, false)
            && r.stored == s.stored && r.d.journal == s.d.journal && r.d.profile == s.d.profile
  {
    UnstoreOne(s, v, target, stores);
  }

  /** Taking back down to the `i`-th store. */
  lemma {:induction false} UnstoreDownTo(s: HandState, i: nat, v: Vault, target: Vault, stores: seq<PlanOp>)
    requires UnstoreOk(s, v, target, stores) && !s.pc.undo && i <= s.pc.i
    ensures var r := HandRun(s, Dones(s.pc.i - i));
            && UnstoreOk(r, v, target, stores) && r.pc == Unstore(s.pc.tx, i, false)
            && r.stored == s.stored && r.d.journal == s.d.journal && r.d.profile == s.d.profile
    decreases s.pc.i
  {
    if i < s.pc.i {
      UnstoreDone(s, v, target, stores);
      HandRunDones(s, s.pc.i - i);
      var s' := HandStep(s, Done);
      assert s'.pc.i - i == s.pc.i - i - 1;
      UnstoreDownTo(s', i, v, target, stores);
    } else {
      assert Dones(0) == [];
    }
  }

  /** Death with `i` stores left in place, and the unchanged text as the commit marker. */
  lemma HalfUnstored(s: HandState, i: nat, v: Vault, target: Vault, stores: seq<PlanOp>)
    requires UnstoreOk(s, v, target, stores) && !s.pc.undo && i <= s.pc.i
    requires Committed(s.d)
    ensures var r := HandRun(s, Dones(s.pc.i - i));
            i <= |stores| && Pending(r.d, Vault(After(v.secrets, stores, i), v.profile))
  {
    UnstoreDownTo(s, i, v, target, stores);
    var r := HandRun(s, Dones(s.pc.i - i));
    RemovableIsPending(r.d, r.pc.tx.journal, v, r.stored);
  }

  lemma StoresCommit(s: HandState, v: Vault, target: Vault, deletes: seq<PlanOp>, stores: seq<PlanOp>)
    requires AtHandWrite(s, v, target, deletes, stores) && v.profile == target.profile
    requires Shape(deletes, stores) && OnlyNewAccounts(v, deletes + stores) && stores != []
    ensures Committed(s.d) && |s.stored| == |stores|
  {
    StoresAreMade(s, v, target, deletes, stores);
    assert s.stored[0] in s.stored;
  }

  /** The writer's run to a state with `i` of its stores in place. */
  lemma ReachHalfUnstored(
    v: Vault, txn: nat, deletes: seq<PlanOp>, stores: seq<PlanOp>, body: string, i: nat)
    returns (writer: seq<Outcome>)
    requires IsVault(v) && Shape(deletes, stores) && OnlyNewAccounts(v, deletes + stores)
    requires v.profile == Some(body) && i <= |stores| && stores != []
    ensures var b := HandBegin(v, txn, deletes, stores, body);
            && HandErrorsBeforeRename(b, writer)
            && Pending(HandRun(b, writer).d, Vault(After(v.secrets, stores, i), v.profile))
  {
    var b, target := HandBegin(v, txn, deletes, stores, body), Target(v, deletes + stores, body);
    HandBeginIsOk(v, txn, deletes, stores, body);
    var n := ReachHandWrite(b, v, target, deletes, stores);
    var s := HandRun(b, Dones(n));
    var rest := WriteFailsThenHalf(s, i, v, target, deletes, stores);
    writer := Dones(n) + rest;
    HandRunSplit(b, Dones(n), rest);
    NoLateErrors(b, writer);
  }

  lemma WriteFailsThenHalf(
    s: HandState, i: nat, v: Vault, target: Vault, deletes: seq<PlanOp>, stores: seq<PlanOp>)
    returns (os: seq<Outcome>)
    requires AtHandWrite(s, v, target, deletes, stores) && v.profile == target.profile
    requires Shape(deletes, stores) && OnlyNewAccounts(v, deletes + stores) && i <= |stores| && stores != []
    ensures Error(true) !in os
    ensures Pending(HandRun(s, os).d, Vault(After(v.secrets, stores, i), v.profile))
  {
    StoresCommit(s, v, target, deletes, stores);
    WriteFails(s, Error(false), v, target, deletes, stores);
    HandThen(s, Error(false));
    var u := HandStep(s, Error(false));
    HalfUnstored(u, i, v, target, stores);
    os := [Error(false)] + Dones(u.pc.i - i);
    HandRunSplit(s, [Error(false)], Dones(u.pc.i - i));
  }

  /** Some stores in place and the text unchanged: neither old nor new. */
  lemma EqualTextCanMix(v: Vault, txn: nat, deletes: seq<PlanOp>, stores: seq<PlanOp>, body: string)
    returns (writer: seq<Outcome>, last: seq<Outcome>)
    requires IsVault(v) && Shape(deletes, stores) && OnlyNewAccounts(v, deletes + stores)
    requires v.profile == Some(body) && !EachStoreOldOrNew(v.secrets, stores)
    ensures var b := HandBegin(v, txn, deletes, stores, body);
            var r := HandEnding(b, writer, [], last);
            && HandErrorsBeforeRename(b, writer) && Sighted(last) && r.pc == Stopped(Success)
            && r.d != Settled(v) && r.d != Settled(Target(v, deletes + stores, body))
  {
    GoalOfStores(v, deletes, stores, body);
    var i: nat :| i <= |stores| && After(v.secrets, stores, i) != v.secrets
                  && After(v.secrets, stores, i) != ApplyPlan(v.secrets, stores);
    writer := ReachHalfUnstored(v, txn, deletes, stores, body, i);
    var d := HandRun(HandBegin(v, txn, deletes, stores, body), writer).d;
    var k := RecoverySettles(d, Vault(After(v.secrets, stores, i), v.profile));
    last := Dones(k);
  }

  // ---------------------------------------------------------------- a changed text

  lemma {:induction false} StoredStays(k: Keyring, stores: seq<PlanOp>, s: Slot)
    requires s in k && forall op | op in stores :: op.Put?
    ensures s in ApplyPlan(k, stores)
    decreases |stores|
  {
    if stores != [] {
      assert stores[0] in stores && forall op | op in stores[1..] :: op in stores;
      StoredStays(ApplyOp(k, stores[0]), stores[1..], s);
    }
  }

  lemma NewStoresChange(v: Vault, deletes: seq<PlanOp>, stores: seq<PlanOp>, body: string)
    requires Shape(deletes, stores) && OnlyNewAccounts(v, deletes + stores) && stores != []
    ensures Target(v, deletes + stores, body).secrets != v.secrets
  {
    GoalOfStores(v, deletes, stores, body);
    assert stores[0] in stores && stores[0] in deletes + stores;
    assert forall op | op in stores[1..] :: op in stores;
    StoredStays(ApplyOp(v.secrets, stores[0]), stores[1..], Real(stores[0].account));
  }

  /** The write reports an error after its rename: the hand rollback runs to its end under the new text. */
  lemma RenamedThenTakenBack(
    s: HandState, v: Vault, target: Vault, deletes: seq<PlanOp>, stores: seq<PlanOp>)
    returns (os: seq<Outcome>)
    requires AtHandWrite(s, v, target, deletes, stores) && IsVault(v)
    requires Shape(deletes, stores) && OnlyNewAccounts(v, deletes + stores)
    ensures HandRun(s, os).d == Settled(Vault(v.secrets, target.profile))
  {
    HandThen(s, Error(true));
    StoresAreMade(s, v, target, deletes, stores);
    assert RealPart(s.d.keyring) == s.d.keyring;
    var rest := TakesAllBack(HandStep(s, Error(true)), v.secrets, stores);
    os := [Error(true)] + rest;
    HandRunSplit(s, [Error(true)], rest);
  }

  /** Old secrets under a new text, without a journal. */
  lemma ErrorAfterRenameMixesByHand(v: Vault, txn: nat, deletes: seq<PlanOp>, stores: seq<PlanOp>, body: string)
    returns (writer: seq<Outcome>, last: seq<Outcome>)
    requires IsVault(v) && Shape(deletes, stores) && OnlyNewAccounts(v, deletes + stores)
    ensures Sighted(last)
    ensures HandEnding(HandBegin(v, txn, deletes, stores, body), writer, [], last)
              == State(Settled(Vault(v.secrets, Some(body))), Stopped(Success))
  {
    var b, target := HandBegin(v, txn, deletes, stores, body), Target(v, deletes + stores, body);
    HandBeginIsOk(v, txn, deletes, stores, body);
    var n := ReachHandWrite(b, v, target, deletes, stores);
    var rest := RenamedThenTakenBack(HandRun(b, Dones(n)), v, target, deletes, stores);
    writer := Dones(n) + rest;
    HandRunSplit(b, Dones(n), rest);
    var k := RecoverySettles(HandRun(b, writer).d, Vault(v.secrets, Some(body)));
    last := Dones(k);
  }

  /** A writer that died after its rename, and a recovery that cannot read the profile. */
  lemma BlindRecoveryMixesByHand(v: Vault, txn: nat, deletes: seq<PlanOp>, stores: seq<PlanOp>, body: string)
    returns (writer: seq<Outcome>, last: seq<Outcome>)
    requires IsVault(v) && Target(v, deletes + stores, body).secrets != v.secrets
    ensures HandErrorsBeforeRename(HandBegin(v, txn, deletes, stores, body), writer)
    ensures HandEnding(HandBegin(v, txn, deletes, stores, body), writer, [], last)
              == State(Settled(Vault(v.secrets, Some(body))), Stopped(Success))
  {
    writer, last := B.BlindRecoveryRevertsSecrets(v, txn, deletes + stores, body);
    WithoutErrorsAlike(HandBegin(v, txn, deletes, stores, body), writer);
    NoLateErrors(HandBegin(v, txn, deletes, stores, body), writer);
  }

  // ---------------------------------------------------------------- the exact condition

  /** What can be checked before the transaction: see `HandAtomicExactlyWhen`. */
  ghost predicate HandCannotMix(
    v: Vault, deletes: seq<PlanOp>, stores: seq<PlanOp>, body: string, renameErrors: bool, blindReads: bool)
  {
    && OnlyNewAccounts(v, deletes + stores)
    && (stores == []
        || (if v.profile == Some(body) then EachStoreOldOrNew(v.secrets, stores) else !renameErrors && !blindReads))
  }

  lemma NoStoresAreOld(k: Keyring)
    ensures EachStoreOldOrNew(k, [])
  {
    assert forall i: nat | i <= 0 :: After(k, [], i) == k;
  }

  lemma CannotMixIsAtomic(
    v: Vault, txn: nat, deletes: seq<PlanOp>, stores: seq<PlanOp>, body: string,
    renameErrors: bool, blindReads: bool)
    requires IsVault(v) && Shape(deletes, stores)
    requires HandCannotMix(v, deletes, stores, body, renameErrors, blindReads)
    ensures HandAtomic(v, txn, deletes, stores, body, renameErrors, blindReads)
  {
    NoStoresAreOld(v.secrets);
    if Firm(v, stores, body) {
      FirmIsAtomic(v, txn, deletes, stores, body, renameErrors, blindReads);
    } else {
      GentleIsAtomic(v, txn, deletes, stores, body);
    }
  }

  /** A run that ends in a missing backup, or in a vault that is neither old nor new. */
  lemma OtherwiseItFails(
    v: Vault, txn: nat, deletes: seq<PlanOp>, stores: seq<PlanOp>, body: string,
    renameErrors: bool, blindReads: bool)
    returns (writer: seq<Outcome>, last: seq<Outcome>)
    requires IsVault(v) && Shape(deletes, stores)
    requires !HandCannotMix(v, deletes, stores, body, renameErrors, blindReads)
    ensures var b := HandBegin(v, txn, deletes, stores, body);
            var r := HandEnding(b, writer, [], last);
            && HandAllowed(b, renameErrors, blindReads, writer, [], last)
            && !EndsOldOrNew(r, v, Target(v, deletes + stores, body))
  {
    if !OnlyNewAccounts(v, deletes + stores) {
      var op :| op in deletes + stores && Real(op.account) in v.secrets;
      writer, last := ExistingAccountBreaks(v, txn, deletes, stores, body, op);
    } else if v.profile == Some(body) {
      writer, last := EqualTextCanMix(v, txn, deletes, stores, body);
    } else {
      NewStoresChange(v, deletes, stores, body);
      if blindReads {
        writer, last := BlindRecoveryMixesByHand(v, txn, deletes, stores, body);
      } else {
        writer, last := ErrorAfterRenameMixesByHand(v, txn, deletes, stores, body);
      }
    }
  }

  /**
  Exactly when this writer is all old or all new under every crash and error: it
  deletes and overwrites no account that had a value, and it stores nothing; or
  the text stays the same and no number of its stores is in between; or the text
  changes, writes fail only before their rename and recoveries read the profile.
  */
  lemma HandAtomicExactlyWhen(
    v: Vault, txn: nat, deletes: seq<PlanOp>, stores: seq<PlanOp>, body: string,
    renameErrors: bool, blindReads: bool)
    requires IsVault(v) && Shape(deletes, stores)
    ensures HandAtomic(v, txn, deletes, stores, body, renameErrors, blindReads) <==>
              HandCannotMix(v, deletes, stores, body, renameErrors, blindReads)
  {
    if HandCannotMix(v, deletes, stores, body, renameErrors, blindReads) {
      CannotMixIsAtomic(v, txn, deletes, stores, body, renameErrors, blindReads);
    } else {
      var writer, last := OtherwiseItFails(v, txn, deletes, stores, body, renameErrors, blindReads);
    }
  }
}
