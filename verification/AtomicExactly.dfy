/**
The three ways in which a transaction can end neither old nor new, and exactly
which transactions are safe from them.
*/
module AtomicExactly {
  import opened Common
  import opened AuthJournal
  import opened JournalMachine
  import opened JournalProofs
  import opened CrashAtomicity
  import opened AnyEnding
  import opened LateRollback
  import opened BlindRecovery
  import opened Undisturbed

  /** Death in the middle of a late rollback: some accounts old, some new. */
  lemma HalfUndoneState(s: State, i: nat, v: Vault, target: Vault)
    requires s.pc.Undo? && LateUndo(s.d, s.pc.tx.journal, s.pc.i, v)
    requires i < s.pc.i
    requires s.pc.i == |s.pc.tx.journal.changes|
    requires RealPart(s.d.keyring) == target.secrets
    ensures var cs := s.pc.tx.journal.changes;
            var s' := Run(s, Dones(s.pc.i - i) + [Crash]);
            var w := Vault(RealPart(s'.d.keyring), s.d.profile);
            && s'.pc == Stopped(Crashed) && Pending(s'.d, w)
            && Agree(w.secrets, v.secrets, Real(cs[i].account))
            && (forall t: Slot | t.Real? && (forall j | i <= j < |cs| :: t != Real(cs[j].account)) ::
                  Agree(w.secrets, target.secrets, t))
  {
    var tx, n := s.pc.tx, s.pc.i;
    var cs := tx.journal.changes;
    LateUndoRun(s.d, tx, n, i, v);
    var u := Run(s, Dones(n - i));
    RunSplit(s, Dones(n - i), [Crash]);
    assert Run(u, [Crash]) == Run(Step(u, Crash), []);
    RealPartIsReal(u.d.keyring);
    assert Agree(u.d.keyring, v.secrets, Real(cs[i].account));
    forall t: Slot | t.Real? && (forall j | i <= j < |cs| :: t != Real(cs[j].account))
      ensures Agree(RealPart(u.d.keyring), target.secrets, t)
    {
      assert Agree(u.d.keyring, s.d.keyring, t);
    }
  }

  /** The writer's run up to the first step of a rollback with equal contents. */
  lemma ReachLateUndo(v: Vault, txn: nat, plan: seq<PlanOp>, body: string) returns (os: seq<Outcome>)
    requires IsVault(v) && v.profile == Some(body)
    requires Target(v, plan, body).secrets != v.secrets
    ensures ErrorsBeforeRename(Begin(v, txn, plan, body), os)
    ensures var s := Run(Begin(v, txn, plan, body), os);
            && s.pc.Undo? && s.pc.i == |s.pc.tx.journal.changes|
            && LateUndo(s.d, s.pc.tx.journal, s.pc.i, v)
            && RealPart(s.d.keyring) == ApplyPlan(v.secrets, plan)
            && s.d.profile == v.profile
  {
    var target := Target(v, plan, body);
    var b := Begin(v, txn, plan, body);
    BeginIsOk(v, txn, plan, body);
    var n := ReachWrite(b, v, target);
    WriteErrorIsLate(Run(b, Dones(n)), Error(false), v, target);
    DonesAreFine(b, n);
    os := Then(b, n, Error(false));
    ErrorsSplit(b, Dones(n), [Error(false)]);
  }

  lemma Then(s: State, n: nat, o: Outcome) returns (os: seq<Outcome>)
    ensures os == Dones(n) + [o] && Run(s, os) == Step(Run(s, Dones(n)), o)
  {
    os := Dones(n) + [o];
    RunSplit(s, Dones(n), [o]);
    var w := Run(s, Dones(n));
    assert Run(w, [o]) == Run(Step(w, o), []);
  }

  /** Where to die: one changed account is restored by then and another is not. */
  lemma DyingPoint(k: Keyring, txn: nat, cs: seq<Change>, a: Keyring, b: Keyring)
    returns (i: nat, kept: Slot)
    requires !AtMostOneDiffers(a, b) && Guards(k, txn, cs, a) && RealPart(k) == b
    requires forall s | s in a :: s.Real?
    ensures i < |cs| && !Agree(a, b, Real(cs[i].account))
    ensures kept.Real? && !Agree(a, b, kept)
    ensures forall j | i <= j < |cs| :: kept != Real(cs[j].account)
  {
    var t := TwoDifferences(a, b, Real(""));
    DifferencesAreRecorded(k, txn, cs, a, b, t);
    var j :| 0 <= j < |cs| && cs[j].account == t.account;
    assert t == Real(cs[j].account);
    i := LastDifference(cs, |cs|, a, b);
    kept := TwoDifferences(a, b, Real(cs[i].account));
    DifferencesAreRecorded(k, txn, cs, a, b, kept);
  }

  lemma DieAt(s: State, n: nat)
    ensures ErrorsBeforeRename(s, Dones(n) + [Crash])
  {
    DonesAreFine(s, n);
    var u := Run(s, Dones(n));
    assert ErrorsBeforeRename(Step(u, Crash), [Crash][1..]);
    ErrorsSplit(s, Dones(n), [Crash]);
  }

  /** From the start of a late rollback, death at the right moment mixes two accounts. */
  lemma LateUndoCanMix(s: State, v: Vault, target: Vault) returns (rest: seq<Outcome>, w: Vault)
    requires IsVault(v) && !AtMostOneDiffers(v.secrets, target.secrets)
    requires s.pc.Undo? && s.pc.i == |s.pc.tx.journal.changes|
    requires LateUndo(s.d, s.pc.tx.journal, s.pc.i, v)
    requires RealPart(s.d.keyring) == target.secrets
    ensures ErrorsBeforeRename(s, rest) && Pending(Run(s, rest).d, w)
    ensures w.secrets != v.secrets && w.secrets != target.secrets
  {
    var m := s.pc.tx.journal;
    var i, kept := DyingPoint(s.d.keyring, m.txn, m.changes, v.secrets, target.secrets);
    HalfUndoneState(s, i, v, target);
    rest := Dones(s.pc.i - i) + [Crash];
    w := Vault(RealPart(Run(s, rest).d.keyring), s.d.profile);
    DieAt(s, s.pc.i - i);
    assert Agree(w.secrets, v.secrets, Real(m.changes[i].account));
    assert Agree(w.secrets, target.secrets, kept);
  }

  /** Equal contents and two changed accounts: a run that ends in neither vault. */
  lemma EqualContentsCanMix(v: Vault, txn: nat, plan: seq<PlanOp>, body: string)
    returns (writer: seq<Outcome>, last: seq<Outcome>)
    requires IsVault(v) && v.profile == Some(body)
    requires !AtMostOneDiffers(v.secrets, Target(v, plan, body).secrets)
    ensures ErrorsBeforeRename(Begin(v, txn, plan, body), writer)
    ensures Sighted(last)
    ensures var r := Ending(v, txn, plan, body, writer, [], last);
            && r.pc == Stopped(Success)
            && r.d != Settled(v) && r.d != Settled(Target(v, plan, body))
  {
    var target := Target(v, plan, body);
    var b := Begin(v, txn, plan, body);
    var differs := TwoDifferences(v.secrets, target.secrets, Real(""));
    var os := ReachLateUndo(v, txn, plan, body);
    var rest, w := LateUndoCanMix(Run(b, os), v, target);
    writer := os + rest;
    RunSplit(b, os, rest);
    ErrorsSplit(b, os, rest);
    var k := RecoverySettles(Run(b, writer).d, w);
    last := Dones(k);
    assert Recoveries(Run(b, writer).d, []) == Run(b, writer).d;
  }

  // ------------------------------------------------------------ errors after the rename

  /** A late rollback that meets no error puts every secret back. */
  lemma LateUndoFinishes(s: State, v: Vault) returns (n: nat)
    requires IsVault(v) && s.pc.Undo? && s.pc.i == |s.pc.tx.journal.changes|
    requires LateUndo(s.d, s.pc.tx.journal, s.pc.i, v)
    ensures Run(s, Dones(n)) == State(Settled(Vault(v.secrets, s.d.profile)), Stopped(RolledBack))
  {
    var tx, len, mixed := s.pc.tx, s.pc.i, Vault(v.secrets, s.d.profile);
    LateUndoRun(s.d, tx, len, 0, v);
    var r := Run(s, Dones(len));
    var c := Step(Step(r, Done), Done);
    MarkedIsSettling(r, v);
    var k := UndoFinishes(c, mixed);
    RunDones(Step(r, Done), k + 1);
    RunDones(r, k + 2);
    RunSplit(s, Dones(len), Dones(k + 2));
    n := len + k + 2;
    assert Dones(n) == Dones(len) + Dones(k + 2);
  }

  lemma MarkedIsSettling(r: State, v: Vault)
    requires IsVault(v) && r.pc.Undo? && r.pc.i == 0 && LateUndo(r.d, r.pc.tx.journal, 0, v)
    ensures Step(Step(r, Done), Done).pc.UndoClean?
    ensures Inv(Step(Step(r, Done), Done), Vault(v.secrets, r.d.profile))
  {
    var m := r.pc.tx.journal;
    AllRestored(r.d.keyring, m.txn, m.changes, v.secrets);
    assert m.changes[0..] == m.changes;
  }

  /**
  A profile write that reports an error after its rename (a failed directory
  sync) makes the rollback succeed in full: old secrets under the new profile.
  */
  lemma ErrorAfterRenameMixes(v: Vault, txn: nat, plan: seq<PlanOp>, body: string)
    returns (writer: seq<Outcome>)
    requires IsVault(v) && v.profile != Some(body)
    requires Target(v, plan, body).secrets != v.secrets
    ensures Run(Begin(v, txn, plan, body), writer)
              == State(Settled(Vault(v.secrets, Some(body))), Stopped(RolledBack))
    ensures Vault(v.secrets, Some(body)) != v && Vault(v.secrets, Some(body)) != Target(v, plan, body)
  {
    var target := Target(v, plan, body);
    var b := Begin(v, txn, plan, body);
    BeginIsOk(v, txn, plan, body);
    var n := ReachWrite(b, v, target);
    WriteErrorIsLate(Run(b, Dones(n)), Error(true), v, target);
    var os := Then(b, n, Error(true));
    var k := LateUndoFinishes(Run(b, os), v);
    writer := os + Dones(k);
    RunSplit(b, os, Dones(k));
  }

  // ------------------------------------------------------------ the exact condition

  /** The runs considered: write errors may follow the rename, recoveries may be blind. */
  predicate Allowed(
    b: State, renameErrors: bool, blindReads: bool,
    writer: seq<Outcome>, interrupted: seq<seq<Outcome>>, last: seq<Outcome>)
  {
    && (renameErrors || ErrorsBeforeRename(b, writer))
    && (blindReads || (AllSighted(interrupted) && Sighted(last)))
  }

  /** Every allowed run that ends in a finished recovery is all old or all new. */
  ghost predicate AlwaysAtomic(
    v: Vault, txn: nat, plan: seq<PlanOp>, body: string, renameErrors: bool, blindReads: bool)
  {
    forall writer, interrupted, last ::
      var r := Ending(v, txn, plan, body, writer, interrupted, last);
      Allowed(Begin(v, txn, plan, body), renameErrors, blindReads, writer, interrupted, last)
      && r.pc == Stopped(Success) ==>
        r.d == Settled(v) || r.d == Settled(Target(v, plan, body))
  }

  /** The secrets do not change, or the text does not and at most one account does. */
  ghost predicate CannotMix(v: Vault, plan: seq<PlanOp>, body: string) {
    var target := Target(v, plan, body);
    target.secrets == v.secrets || (v.profile == Some(body) && AtMostOneDiffers(v.secrets, target.secrets))
  }

  /** Such a transaction is atomic in every run whatever. */
  lemma SafeInEveryRun(
    v: Vault, txn: nat, plan: seq<PlanOp>, body: string,
    writer: seq<Outcome>, interrupted: seq<seq<Outcome>>, last: seq<Outcome>)
    requires IsVault(v) && CannotMix(v, plan, body)
    requires Ending(v, txn, plan, body, writer, interrupted, last).pc == Stopped(Success)
    ensures var r := Ending(v, txn, plan, body, writer, interrupted, last);
            r.d == Settled(v) || r.d == Settled(Target(v, plan, body))
  {
    var target := Target(v, plan, body);
    var w := EachPartOldOrNew(v, txn, plan, body, writer, interrupted, last);
    PlanStaysReal(v.secrets, plan);
    if target.secrets == v.secrets { assert SameExcept(v.secrets, target.secrets, Real("")); }
    OneDifferenceCannotMix(w.secrets, v.secrets, target.secrets);
  }

  lemma SafeMeansAtomic(
    v: Vault, txn: nat, plan: seq<PlanOp>, body: string, renameErrors: bool, blindReads: bool)
    requires IsVault(v) && CannotMix(v, plan, body)
    ensures AlwaysAtomic(v, txn, plan, body, renameErrors, blindReads)
  {
    forall writer, interrupted, last |
      Ending(v, txn, plan, body, writer, interrupted, last).pc == Stopped(Success)
      ensures var r := Ending(v, txn, plan, body, writer, interrupted, last);
              r.d == Settled(v) || r.d == Settled(Target(v, plan, body))
    {
      SafeInEveryRun(v, txn, plan, body, writer, interrupted, last);
    }
  }

  lemma ChangedTextIsAtomic(v: Vault, txn: nat, plan: seq<PlanOp>, body: string)
    requires IsVault(v) && v.profile != Some(body)
    ensures AlwaysAtomic(v, txn, plan, body, false, false)
  {
    forall writer, interrupted, last |
      && Allowed(Begin(v, txn, plan, body), false, false, writer, interrupted, last)
      && Ending(v, txn, plan, body, writer, interrupted, last).pc == Stopped(Success)
      ensures var r := Ending(v, txn, plan, body, writer, interrupted, last);
              r.d == Settled(v) || r.d == Settled(Target(v, plan, body))
    {
      DifferentContentsAreAtomic(v, txn, plan, body, writer, interrupted, last);
    }
  }

  /** A transaction that can mix, given an error after the rename or an unreadable profile. */
  lemma ChangedTextCanMix(v: Vault, txn: nat, plan: seq<PlanOp>, body: string, blind: bool)
    returns (writer: seq<Outcome>, last: seq<Outcome>)
    requires IsVault(v) && v.profile != Some(body) && Target(v, plan, body).secrets != v.secrets
    ensures Allowed(Begin(v, txn, plan, body), !blind, blind, writer, [], last)
    ensures Ending(v, txn, plan, body, writer, [], last)
              == State(Settled(Vault(v.secrets, Some(body))), Stopped(Success))
  {
    if blind {
      writer, last := BlindRecoveryRevertsSecrets(v, txn, plan, body);
    } else {
      writer := ErrorAfterRenameMixes(v, txn, plan, body);
      last := [Done];
      var d := Settled(Vault(v.secrets, Some(body)));
      assert Run(State(d, RecRead), [Done]) == Run(Step(State(d, RecRead), Done), []);
    }
  }

  /**
  Exactly which transactions are all old or all new. If profile writes fail only
  before their rename and every recovery can read the profile: those that change
  the text, or change at most one account. If either may happen otherwise: only
  those that change no secret, or no text and at most one account.
  */
  lemma AtomicExactlyWhen(
    v: Vault, txn: nat, plan: seq<PlanOp>, body: string, renameErrors: bool, blindReads: bool)
    requires IsVault(v)
    ensures AlwaysAtomic(v, txn, plan, body, renameErrors, blindReads) <==>
              CannotMix(v, plan, body) || (!renameErrors && !blindReads && v.profile != Some(body))
  {
    var target := Target(v, plan, body);
    if CannotMix(v, plan, body) {
      SafeMeansAtomic(v, txn, plan, body, renameErrors, blindReads);
    } else if v.profile == Some(body) {
      var writer, last := EqualContentsCanMix(v, txn, plan, body);
      assert Allowed(Begin(v, txn, plan, body), renameErrors, blindReads, writer, [], last);
      assert Ending(v, txn, plan, body, writer, [], last).pc == Stopped(Success);
    } else if renameErrors || blindReads {
      var writer, last := ChangedTextCanMix(v, txn, plan, body, !renameErrors);
      assert Allowed(Begin(v, txn, plan, body), renameErrors, blindReads, writer, [], last);
      assert Ending(v, txn, plan, body, writer, [], last).pc == Stopped(Success);
      assert Vault(v.secrets, Some(body)) != v && Vault(v.secrets, Some(body)) != target;
    } else {
      ChangedTextIsAtomic(v, txn, plan, body);
    }
  }
}
