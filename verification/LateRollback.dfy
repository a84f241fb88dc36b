/**
Rollbacks that start when the journal's target digest already matches the
profile: how far an undisturbed writer gets, and what such a rollback does.
*/
module LateRollback {
  import opened Common
  import opened AuthJournal
  import opened JournalMachine
  import opened JournalProofs
  import opened CrashAtomicity
  import opened AnyEnding

  ghost predicate AtMostOneDiffers(a: Keyring, b: Keyring) {
    exists t: Slot :: SameExcept(a, b, t)
  }

  ghost predicate SameExcept(a: Keyring, b: Keyring, t: Slot) {
    forall s: Slot | s != t :: Agree(a, b, s)
  }

  /** A rollback of a transaction that recovery would consider committed. */
  ghost predicate LateUndo(d: Durable, m: Journal, i: nat, v: Vault) {
    && Committed(d) && d.journal == Some(m) && !m.rollbackRestored
    && Guards(d.keyring, m.txn, m.changes, v.secrets)
    && Owned(d.keyring, m.txn, m.changes)
    && i <= |m.changes| && AgreeFrom(d.keyring, m.changes, i, v.secrets)
  }

  lemma LateUndoOne(d: Durable, m: Journal, i: nat, v: Vault)
    requires LateUndo(d, m, i, v) && i > 0
    ensures RestoreOne(d.keyring, m.txn, m.changes[i - 1]).Some?
    ensures var d' := d.(keyring := RestoreOne(d.keyring, m.txn, m.changes[i - 1]).value);
            && LateUndo(d', m, i - 1, v)
            && (forall s: Slot | s != Real(m.changes[i - 1].account) :: Agree(d'.keyring, d.keyring, s))
  {
    var c := m.changes[i - 1];
    assert c in m.changes;
    RestoreOneKeeps(d.keyring, m.txn, c, v.secrets);
    AgreeSurvivesRestore(d.keyring, m.txn, m.changes, i, v.secrets);
    GuardsSurviveRestore(d.keyring, m.txn, c, m.changes, v.secrets);
    OwnedSurvivesRestore(d.keyring, m.txn, c, v.secrets, m.txn, m.changes);
  }

  lemma OneDifferenceCannotMix(w: Keyring, a: Keyring, b: Keyring)
    requires AtMostOneDiffers(a, b) && Mixed(w, a, b)
    requires forall s | s in w || s in a || s in b :: s.Real?
    ensures w == a || w == b
  {
    var t: Slot :| SameExcept(a, b, t);
    forall s: Slot | s != t ensures Agree(w, a, s) && Agree(w, b, s) {
      assert Agree(a, b, s);
      if s.Real? { assert Agree(w, a, s) || Agree(w, b, s); }
    }
    if !t.Real? || Agree(w, a, t) {
      assert forall s: Slot :: Agree(w, a, s);
      AgreeIsEqual(w, a);
    } else {
      assert Agree(w, b, t);
      assert forall s: Slot :: Agree(w, b, s);
      AgreeIsEqual(w, b);
    }
  }

  lemma AgreeIsEqual(a: Keyring, b: Keyring)
    requires forall s: Slot :: Agree(a, b, s)
    ensures a == b
  {
    assert forall s | s in a :: Agree(a, b, s);
    assert forall s | s in b :: Agree(a, b, s);
  }

  lemma {:induction false} PlanStaysReal(k: Keyring, plan: seq<PlanOp>)
    requires forall s | s in k :: s.Real?
    ensures forall s | s in ApplyPlan(k, plan) :: s.Real?
    decreases |plan|
  {
    if plan != [] { PlanStaysReal(ApplyOp(k, plan[0]), plan[1..]); }
  }

  lemma DifferentContentsAreAtomic(
    v: Vault, txn: nat, plan: seq<PlanOp>, body: string,
    writer: seq<Outcome>, interrupted: seq<seq<Outcome>>, last: seq<Outcome>)
    requires IsVault(v) && v.profile != Some(body)
    requires ErrorsBeforeRename(Begin(v, txn, plan, body), writer)
    requires AllSighted(interrupted) && Sighted(last)
    requires Ending(v, txn, plan, body, writer, interrupted, last).pc == Stopped(Success)
    ensures var r := Ending(v, txn, plan, body, writer, interrupted, last);
            r.d == Settled(v) || r.d == Settled(Target(v, plan, body))
  {
    BeginIsOk(v, txn, plan, body);
    DifferentContentsAreNeverLate(Begin(v, txn, plan, body), writer, v, Target(v, plan, body));
    AllOldOrAllNew(v, txn, plan, body, writer, interrupted, last);
  }

  // ------------------------------------------------------------ a run that mixes

  predicate BeforeWrite(pc: Pc) {
    || pc.Next? || pc.PersistChange? || pc.StoreBackup? || pc.PersistReady?
    || pc.Apply? || pc.Render? || pc.PersistTarget?
  }

  function WriteDistance(pc: Pc): nat {
    match pc
    case Next(tx) => 5 * |tx.plan| + 2
    case PersistChange(tx, _) => 5 * |tx.plan| + 1
    case StoreBackup(tx, _) => 5 * |tx.plan|
    case PersistReady(tx) => 5 * |tx.plan| - if tx.plan == [] then 0 else 1
    case Apply(tx) => 5 * |tx.plan| - if tx.plan == [] then 0 else 2
    case Render(_) => 1
    case _ => 0
  }

  /** About to write the profile, with every keyring change made. */
  ghost predicate AtWrite(s: State, v: Vault, target: Vault) {
    && s.pc.WriteProfile? && Vault(s.pc.tx.goal, Some(s.pc.tx.body)) == target
    && RealPart(s.d.keyring) == target.secrets
    && var m := s.pc.tx.journal;
       && s.d.journal == Persisted(m)
       && m.target == (if m.changes == [] then None else Some(Sha256(s.pc.tx.body)))
       && !m.rollbackRestored
       && Guards(s.d.keyring, m.txn, m.changes, v.secrets)
       && Owned(s.d.keyring, m.txn, m.changes)
  }

  /** A failing write that leaves the new text in place starts a late rollback. */
  lemma WriteErrorIsLate(s: State, o: Outcome, v: Vault, target: Vault)
    requires IsVault(v) && AtWrite(s, v, target) && target.secrets != v.secrets
    requires o.Error? && (o.applied || s.d.profile == target.profile)
    ensures var u, n := Step(s, o), |s.pc.tx.journal.changes|;
            && u.pc == Undo(s.pc.tx, n) && LateUndo(u.d, s.pc.tx.journal, n, v)
            && RealPart(u.d.keyring) == target.secrets && u.d.profile == target.profile
  {
    var m := s.pc.tx.journal;
    if m.changes == [] { UntouchedVault(s.d, m, v); }
  }

  /** With no errors the writer gets as far as the profile write. */
  lemma {:induction false} ReachWrite(s: State, v: Vault, target: Vault) returns (n: nat)
    requires Inv(s, v) && WriterOk(s, v, target) && BeforeWrite(s.pc)
    ensures Run(s, Dones(n)).d.profile == s.d.profile && AtWrite(Run(s, Dones(n)), v, target)
    decreases WriteDistance(s.pc)
  {
    var s' := Step(s, Done);
    if s.pc.PersistTarget? {
      n := 1;
      RunDones(s, 1);
    } else {
      QuietStep(s, Done, v);
      WriterStep(s, Done, v, target);
      assert WriteDistance(s'.pc) < WriteDistance(s.pc);
      var k := ReachWrite(s', v, target);
      n := k + 1;
      RunDones(s, n);
    }
  }

  lemma {:induction false} DonesAreFine(s: State, n: nat)
    ensures ErrorsBeforeRename(s, Dones(n))
    decreases n
  {
    if n > 0 {
      assert Dones(n)[1..] == Dones(n - 1);
      DonesAreFine(Step(s, Done), n - 1);
    }
  }

  lemma {:induction false} ErrorsSplit(s: State, a: seq<Outcome>, b: seq<Outcome>)
    requires ErrorsBeforeRename(s, a) && ErrorsBeforeRename(Run(s, a), b)
    ensures ErrorsBeforeRename(s, a + b)
    decreases |a|
  {
    if a == [] {
      assert a + b == b;
    } else {
      assert (a + b)[0] == a[0] && (a + b)[1..] == a[1..] + b;
      ErrorsSplit(Step(s, a[0]), a[1..], b);
    }
  }

  /** Undoing down to the `to`-th change restores those changes and no other account. */
  lemma {:induction false} LateUndoRun(d: Durable, tx: Tx, from: nat, to: nat, v: Vault)
    requires LateUndo(d, tx.journal, from, v) && to <= from
    ensures var s' := Run(State(d, Undo(tx, from)), Dones(from - to));
            && s'.pc == Undo(tx, to) && LateUndo(s'.d, tx.journal, to, v)
            && s'.d.profile == d.profile
            && (forall s: Slot |
                  (forall i | to <= i < from :: s != Real(tx.journal.changes[i].account)) ::
                  Agree(s'.d.keyring, d.keyring, s))
    decreases from
  {
    if to < from {
      var m := tx.journal;
      LateUndoOne(d, m, from, v);
      var d' := d.(keyring := RestoreOne(d.keyring, m.txn, m.changes[from - 1]).value);
      RunDones(State(d, Undo(tx, from)), from - to);
      assert Step(State(d, Undo(tx, from)), Done) == State(d', Undo(tx, from - 1));
      LateUndoRun(d', tx, from - 1, to, v);
      var k' := Run(State(d, Undo(tx, from)), Dones(from - to)).d.keyring;
      forall s: Slot | (forall i | to <= i < from :: s != Real(m.changes[i].account))
        ensures Agree(k', d.keyring, s)
      {
        assert s != Real(m.changes[from - 1].account);
        assert Agree(d'.keyring, d.keyring, s);
        assert Agree(k', d'.keyring, s);
      }
    }
  }

  /** The last recorded account on which the old and the new secrets differ. */
  lemma {:induction false} LastDifference(cs: seq<Change>, n: nat, a: Keyring, b: Keyring) returns (i: nat)
    requires n <= |cs|
    requires exists j :: 0 <= j < n && !Agree(a, b, Real(cs[j].account))
    ensures i < n && !Agree(a, b, Real(cs[i].account))
    ensures forall j | i < j < n :: Agree(a, b, Real(cs[j].account))
    decreases n
  {
    if !Agree(a, b, Real(cs[n - 1].account)) {
      i := n - 1;
    } else {
      i := LastDifference(cs, n - 1, a, b);
    }
  }

  lemma DifferencesAreRecorded(k: Keyring, txn: nat, cs: seq<Change>, a: Keyring, b: Keyring, t: Slot)
    requires Guards(k, txn, cs, a) && RealPart(k) == b && !Agree(a, b, t)
    requires forall s | s in a :: s.Real?
    ensures t.Real? && exists j :: 0 <= j < |cs| && cs[j].account == t.account
  {
    RealPartIsReal(k);
    assert Touches(cs, t.account) || Agree(k, a, t);
    var c :| c in cs && c.account == t.account;
    var j :| 0 <= j < |cs| && cs[j] == c;
    assert cs[j].account == t.account;
  }

  lemma TwoDifferences(a: Keyring, b: Keyring, t: Slot) returns (u: Slot)
    requires !AtMostOneDiffers(a, b)
    ensures u != t && !Agree(a, b, u)
  {
    assert !SameExcept(a, b, t);
    u :| u != t && !Agree(a, b, u);
  }
}
