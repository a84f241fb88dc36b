/**
What holds of every run whatever: profile writes that report an error after
their rename, and recoveries that cannot read the profile, included.
*/
module AnyEnding {
  import opened Common
  import opened AuthJournal
  import opened JournalMachine
  import opened JournalProofs
  import opened CrashAtomicity

  /** Every account is old or new on its own. */
  ghost predicate Mixed(k: Keyring, a: Keyring, b: Keyring) {
    forall s: Slot | s.Real? :: Agree(k, a, s) || Agree(k, b, s)
  }

  /** Restoring `c` can only put back what `a` holds, whether or not its backup is there. */
  ghost predicate PutsBack(k: Keyring, txn: nat, c: Change, a: Keyring) {
    if c.backedUp then
      && Real(c.account) in a
      && (Backup(txn, c.account) in k ==> k[Backup(txn, c.account)] == a[Real(c.account)])
    else Real(c.account) !in a
  }

  ghost predicate Restorable(k: Keyring, txn: nat, cs: seq<Change>, a: Keyring) {
    Owned(k, txn, cs) && forall c | c in cs :: PutsBack(k, txn, c, a)
  }

  predicate NoBackups(k: Keyring) {
    forall s | s in k :: s.Real?
  }

  ghost predicate Loose(d: Durable, v: Vault, target: Vault) {
    && Mixed(d.keyring, v.secrets, target.secrets)
    && (d.profile == v.profile || d.profile == target.profile)
    && match d.journal
       case None => NoBackups(d.keyring)
       case Some(j) => Restorable(d.keyring, j.txn, j.changes, v.secrets)
  }

  /** The in-memory journal names the same changes as the one on disk. */
  ghost predicate Matches(d: Durable, m: Journal, a: Keyring) {
    && Restorable(d.keyring, m.txn, m.changes, a)
    && match d.journal
       case None => m.changes == []
       case Some(j) => j.txn == m.txn && j.changes == m.changes
  }

  ghost predicate CleanFrom(d: Durable, m: Journal, i: nat) {
    i <= |m.changes| && Owned(d.keyring, m.txn, m.changes[i..])
  }

  /** From the target mark on. */
  ghost predicate LooseAt(s: State, v: Vault, target: Vault) {
    Loose(s.d, v, target) &&
    match s.pc
    case RecRead => true
    case RecProfile(j) => s.d.journal == Some(j)
    case RecRestore(j, i) => s.d.journal == Some(j)
    case RecMark(j) => s.d.journal == Some(j)
    case RecClean(j, i) => s.d.journal == Some(j) && CleanFrom(s.d, j, i)
    case RecRemove => NoBackups(s.d.keyring)
    case PersistTarget(tx) => Some(tx.body) == target.profile && Matches(s.d, tx.journal, v.secrets)
    case WriteProfile(tx) => Some(tx.body) == target.profile && Matches(s.d, tx.journal, v.secrets)
    case CommitClean(tx, i) => Matches(s.d, tx.journal, v.secrets) && CleanFrom(s.d, tx.journal, i)
    case CommitRemove => NoBackups(s.d.keyring)
    case Undo(tx, i) => Matches(s.d, tx.journal, v.secrets)
    case UndoMark(tx) => Matches(s.d, tx.journal, v.secrets)
    case UndoClean(tx, i) => Matches(s.d, tx.journal, v.secrets) && CleanFrom(s.d, tx.journal, i)
    case UndoRemove => NoBackups(s.d.keyring)
    case Stopped(verdict) => verdict.Success? || verdict.RolledBack? ==> s.d.journal.None?
    case _ => false
  }

  lemma RestoreStaysLoose(d: Durable, m: Journal, i: nat, v: Vault, target: Vault)
    requires Loose(d, v, target) && Matches(d, m, v.secrets) && 0 < i <= |m.changes|
    requires RestoreOne(d.keyring, m.txn, m.changes[i - 1]).Some?
    ensures var d' := d.(keyring := RestoreOne(d.keyring, m.txn, m.changes[i - 1]).value);
            Loose(d', v, target) && Matches(d', m, v.secrets)
  {
    var c := m.changes[i - 1];
    assert c in m.changes;
    var k' := RestoreOne(d.keyring, m.txn, c).value;
    forall s: Slot | s.Real? ensures Agree(k', v.secrets, s) || Agree(k', target.secrets, s) {
      assert Agree(d.keyring, v.secrets, s) || Agree(d.keyring, target.secrets, s);
    }
    forall e | e in m.changes ensures PutsBack(k', m.txn, e, v.secrets) {
      assert PutsBack(d.keyring, m.txn, e, v.secrets);
    }
  }

  lemma CleanStaysLoose(d: Durable, m: Journal, i: nat, v: Vault, target: Vault)
    requires Loose(d, v, target) && Matches(d, m, v.secrets) && CleanFrom(d, m, i) && i < |m.changes|
    ensures var d' := d.(keyring := DropBackup(d.keyring, m.txn, m.changes[i]));
            && Loose(d', v, target) && Matches(d', m, v.secrets)
            && CleanFrom(d', m, i) && CleanFrom(d', m, i + 1)
  {
    var k' := DropBackup(d.keyring, m.txn, m.changes[i]);
    DropKeeps(d.keyring, m.txn, m.changes, i);
    OwnedWiden(k', m.txn, m.changes, i + 1);
    assert m.changes[i..][1..] == m.changes[i + 1..];
    OwnedWiden(k', m.txn, m.changes[i..], 1);
    forall s: Slot | s.Real? ensures Agree(k', v.secrets, s) || Agree(k', target.secrets, s) {
      assert Agree(k', d.keyring, s);
      assert Agree(d.keyring, v.secrets, s) || Agree(d.keyring, target.secrets, s);
    }
    forall e | e in m.changes ensures PutsBack(k', m.txn, e, v.secrets) {
      assert PutsBack(d.keyring, m.txn, e, v.secrets);
    }
  }

  lemma CleanEnds(d: Durable, m: Journal)
    requires CleanFrom(d, m, |m.changes|)
    ensures NoBackups(d.keyring)
  {
    assert m.changes[|m.changes|..] == [];
  }

  /** Recovery, at every outcome. */
  lemma LooseRecoveryStep(s: State, o: Outcome, v: Vault, target: Vault)
    requires LooseAt(s, v, target) && Recovering(s.pc)
    ensures LooseAt(Step(s, o), v, target) && Recovering(Step(s, o).pc)
  {
    if !s.pc.Stopped? && !o.Crash? {
      match s.pc
      case RecRead =>
      case RecProfile(j) => assert j.changes[0..] == j.changes;
      case RecRestore(j, i) =>
        if 0 < i <= |j.changes| && RestoreOne(s.d.keyring, j.txn, j.changes[i - 1]).Some? {
          RestoreStaysLoose(s.d, j, i, v, target);
        }
      case RecMark(j) => assert j.changes[0..] == j.changes;
      case RecClean(j, i) =>
        if i < |j.changes| { CleanStaysLoose(s.d, j, i, v, target); } else { CleanEnds(s.d, j); }
      case RecRemove =>
    }
  }

  lemma LooseUndoStep(s: State, o: Outcome, v: Vault, target: Vault)
    requires LooseAt(s, v, target)
    requires s.pc.Undo? || s.pc.UndoMark? || s.pc.UndoClean? || s.pc.UndoRemove?
    ensures LooseAt(Step(s, o), v, target)
  {
    if !o.Crash? {
      match s.pc
      case Undo(tx, i) =>
        var m := tx.journal;
        if 0 < i <= |m.changes| && RestoreOne(s.d.keyring, m.txn, m.changes[i - 1]).Some? {
          RestoreStaysLoose(s.d, m, i, v, target);
        }
      case UndoMark(tx) => assert tx.journal.changes[0..] == tx.journal.changes;
      case UndoClean(tx, i) =>
        if i < |tx.journal.changes| { CleanStaysLoose(s.d, tx.journal, i, v, target); }
        else { CleanEnds(s.d, tx.journal); }
      case UndoRemove =>
    }
  }

  lemma LooseCommitStep(s: State, o: Outcome, v: Vault, target: Vault)
    requires LooseAt(s, v, target)
    requires s.pc.PersistTarget? || s.pc.WriteProfile? || s.pc.CommitClean? || s.pc.CommitRemove?
    ensures LooseAt(Step(s, o), v, target)
  {
    if !o.Crash? {
      match s.pc
      case PersistTarget(tx) =>
      case WriteProfile(tx) => assert tx.journal.changes[0..] == tx.journal.changes;
      case CommitClean(tx, i) =>
        if i < |tx.journal.changes| { CleanStaysLoose(s.d, tx.journal, i, v, target); }
        else { CleanEnds(s.d, tx.journal); }
      case CommitRemove =>
    }
  }

  lemma LooseStep(s: State, o: Outcome, v: Vault, target: Vault)
    requires LooseAt(s, v, target)
    ensures LooseAt(Step(s, o), v, target)
  {
    if Recovering(s.pc) { LooseRecoveryStep(s, o, v, target); }
    else if s.pc.Undo? || s.pc.UndoMark? || s.pc.UndoClean? || s.pc.UndoRemove? { LooseUndoStep(s, o, v, target); }
    else { LooseCommitStep(s, o, v, target); }
  }

  // ------------------------------------------------------------ before the target mark

  /** Recovery puts everything back, or has done so: the profile does not matter. */
  predicate Calm(d: Durable) {
    Committed(d) ==> d.journal.value.rollbackRestored
  }

  ghost predicate CalmAt(s: State, v: Vault, target: Vault) {
    && Inv(s, v) && Calm(s.d)
    && !MayCommit(s.pc) && !s.pc.CommitClean? && !s.pc.CommitRemove?
    && (HasTx(s.pc) ==> Vault(s.pc.tx.goal, Some(s.pc.tx.body)) == target)
  }

  /** All changes are made: from here on every account is old or new. */
  lemma PlanIsDone(s: State, v: Vault, target: Vault)
    requires Inv(s, v) && s.pc.PersistTarget? && Vault(s.pc.tx.goal, Some(s.pc.tx.body)) == target
    ensures LooseAt(s, v, target)
  {
    var k, m := s.d.keyring, s.pc.tx.journal;
    assert RealPart(k) == target.secrets;
    forall t: Slot | t.Real? ensures Agree(k, target.secrets, t) {
      assert t in k <==> t in RealPart(k);
    }
    forall c | c in m.changes ensures PutsBack(k, m.txn, c, v.secrets) {
      assert Guarded(k, m.txn, c, v.secrets);
    }
    if m.changes == [] { assert Owned(k, m.txn, []); }
  }

  lemma CalmIsNotLate(s: State, o: Outcome, v: Vault, target: Vault)
    requires CalmAt(s, v, target)
    ensures !LateRollback(s, Step(s, o)) && Calm(Step(s, o).d)
  {
  }

  lemma CalmStep(s: State, o: Outcome, v: Vault, target: Vault)
    requires CalmAt(s, v, target)
    ensures CalmAt(Step(s, o), v, target) || LooseAt(Step(s, o), v, target)
  {
    CalmIsNotLate(s, o, v, target);
    QuietStep(s, o, v);
    SameAim(s, o);
    var s' := Step(s, o);
    if s'.pc.PersistTarget? { PlanIsDone(s', v, target); }
  }

  /** A transaction keeps its aim, and is marked only after it is rendered. */
  lemma SameAim(s: State, o: Outcome)
    requires !MayCommit(s.pc) && !s.pc.CommitClean? && !s.pc.CommitRemove?
    ensures var pc := Step(s, o).pc;
            && !pc.WriteProfile? && !pc.CommitClean? && !pc.CommitRemove?
            && (HasTx(pc) ==> HasTx(s.pc) && pc.tx.goal == s.pc.tx.goal && pc.tx.body == s.pc.tx.body)
  {
  }

  ghost predicate Somewhere(s: State, v: Vault, target: Vault) {
    CalmAt(s, v, target) || LooseAt(s, v, target)
  }

  lemma {:induction false} AnyRun(s: State, os: seq<Outcome>, v: Vault, target: Vault)
    requires Somewhere(s, v, target)
    ensures Somewhere(Run(s, os), v, target)
    decreases |os|
  {
    if os != [] {
      if CalmAt(s, v, target) { CalmStep(s, os[0], v, target); } else { LooseStep(s, os[0], v, target); }
      AnyRun(Step(s, os[0]), os[1..], v, target);
    }
  }

  /** A recovery can begin wherever a writer or a recovery stopped. */
  lemma BeginsAnywhere(d: Durable, v: Vault, target: Vault, pc: Pc)
    requires Somewhere(State(d, pc), v, target)
    ensures Somewhere(State(d, RecRead), v, target)
  {
  }

  lemma {:induction false} AnyRecoveries(d: Durable, runs: seq<seq<Outcome>>, v: Vault, target: Vault)
    requires Somewhere(State(d, RecRead), v, target)
    ensures Somewhere(State(Recoveries(d, runs), RecRead), v, target)
    decreases |runs|
  {
    if runs != [] {
      var r := Run(State(d, RecRead), runs[0]);
      AnyRun(State(d, RecRead), runs[0], v, target);
      BeginsAnywhere(r.d, v, target, r.pc);
      AnyRecoveries(r.d, runs[1..], v, target);
    }
  }

  /** Where a writer, interrupted recoveries and a last recovery end up. */
  function Ending(
    v: Vault, txn: nat, plan: seq<PlanOp>, body: string,
    writer: seq<Outcome>, interrupted: seq<seq<Outcome>>, last: seq<Outcome>): State
  {
    Run(State(Recoveries(Run(Begin(v, txn, plan, body), writer).d, interrupted), RecRead), last)
  }

  /** From wherever a writer left it: what a recovery that finishes makes of it. */
  lemma EndsInParts(
    d: Durable, interrupted: seq<seq<Outcome>>, last: seq<Outcome>, v: Vault, target: Vault) returns (w: Vault)
    requires IsVault(v) && Somewhere(State(d, RecRead), v, target)
    requires Run(State(Recoveries(d, interrupted), RecRead), last).pc == Stopped(Success)
    ensures Run(State(Recoveries(d, interrupted), RecRead), last).d == Settled(w) && IsVault(w)
    ensures Mixed(w.secrets, v.secrets, target.secrets)
    ensures w.profile == v.profile || w.profile == target.profile
  {
    AnyRecoveries(d, interrupted, v, target);
    var s := State(Recoveries(d, interrupted), RecRead);
    AnyRun(s, last, v, target);
    var r := Run(s, last);
    w := Vault(r.d.keyring, r.d.profile);
    if CalmAt(r, v, target) {
      forall t: Slot | t.Real? ensures Agree(w.secrets, v.secrets, t) {}
    }
  }

  /**
  Whatever happens, even when atomicity is lost, nothing foreign appears: after a
  recovery that finished, each account is old or new, and so is the profile.
  */
  lemma EachPartOldOrNew(
    v: Vault, txn: nat, plan: seq<PlanOp>, body: string,
    writer: seq<Outcome>, interrupted: seq<seq<Outcome>>, last: seq<Outcome>) returns (w: Vault)
    requires IsVault(v) && Ending(v, txn, plan, body, writer, interrupted, last).pc == Stopped(Success)
    ensures Ending(v, txn, plan, body, writer, interrupted, last).d == Settled(w) && IsVault(w)
    ensures Mixed(w.secrets, v.secrets, Target(v, plan, body).secrets)
    ensures w.profile == v.profile || w.profile == Some(body)
  {
    var b, target := Begin(v, txn, plan, body), Target(v, plan, body);
    BeginIsOk(v, txn, plan, body);
    assert CalmAt(b, v, target);
    AnyRun(b, writer, v, target);
    var s := Run(b, writer);
    BeginsAnywhere(s.d, v, target, s.pc);
    w := EndsInParts(s.d, interrupted, last, v, target);
  }
}
