/** How runs end in which nothing fails, or one operation does, or the text cannot be rendered. */
module Undisturbed {
  import opened Common
  import opened AuthJournal
  import opened JournalMachine
  import opened JournalProofs
  import opened CrashAtomicity
  import L = LateRollback

  /** How many errors, and how many deaths, a run had. */
  ghost function Errors(os: seq<Outcome>): nat {
    multiset(os)[Error(true)] + multiset(os)[Error(false)]
  }

  ghost function Deaths(os: seq<Outcome>): nat {
    multiset(os)[Crash]
  }

  lemma TallyFront(os: seq<Outcome>)
    requires os != []
    ensures Errors(os) == Errors(os[1..]) + if os[0].Error? then 1 else 0
    ensures Deaths(os) == Deaths(os[1..]) + if os[0].Crash? then 1 else 0
  {
    assert os == [os[0]] + os[1..];
  }

  lemma NothingFailed(os: seq<Outcome>)
    requires Errors(os) == 0 && Deaths(os) == 0
    ensures os == Dones(|os|)
  {
    forall i | 0 <= i < |os| ensures os[i] == Done {
      assert os[i] in multiset(os);
    }
  }

  /** However long a stopped run is drawn out, it ends the same. */
  lemma {:induction false} StoppedAgree(s: State, m: nat, n: nat)
    requires Run(s, Dones(m)).pc.Stopped? && Run(s, Dones(n)).pc.Stopped?
    ensures Run(s, Dones(m)) == Run(s, Dones(n))
    decreases m
  {
    if s.pc.Stopped? {
      RunStopped(s, Dones(m));
      RunStopped(s, Dones(n));
    } else {
      RunDones(s, m);
      RunDones(s, n);
      StoppedAgree(Step(s, Done), m - 1, n - 1);
    }
  }

  // ------------------------------------------------------------ nothing fails

  /** An undisturbed commit gets to its last operation. */
  lemma {:induction false} CommitGetsToRemove(s: State, v: Vault) returns (n: nat)
    requires Inv(s, v) && s.pc.CommitClean?
    ensures Run(s, Dones(n)).pc.CommitRemove? && Inv(Run(s, Dones(n)), v)
    decreases |s.pc.tx.journal.changes| - s.pc.i
  {
    CommitStep(s, Done, v);
    if s.pc.i >= |s.pc.tx.journal.changes| {
      n := 1;
      RunDones(s, 1);
      assert Run(Step(s, Done), Dones(0)) == Step(s, Done);
    } else {
      var m := CommitGetsToRemove(Step(s, Done), v);
      n := m + 1;
      RunDones(s, n);
    }
  }

  /** An undisturbed writer gets to its last operation, for any transaction. */
  lemma WriterGetsToRemove(v: Vault, txn: nat, plan: seq<PlanOp>, body: string) returns (n: nat)
    requires IsVault(v)
    ensures var r := Run(Begin(v, txn, plan, body), Dones(n));
            r.pc.CommitRemove? && Inv(r, Target(v, plan, body))
  {
    var b, target := Begin(v, txn, plan, body), Target(v, plan, body);
    BeginIsOk(v, txn, plan, body);
    var m := L.ReachWrite(b, v, target);
    var s := Run(b, Dones(m));
    L.PlanStaysReal(v.secrets, plan);
    WriteToCommit(s, v, target);
    var k := CommitGetsToRemove(Step(s, Done), target);
    n := m + (k + 1);
    assert Dones(n) == Dones(m) + Dones(k + 1);
    RunSplit(b, Dones(m), Dones(k + 1));
    RunDones(s, k + 1);
  }

  lemma WriteToCommit(s: State, v: Vault, target: Vault)
    requires IsVault(v) && L.AtWrite(s, v, target) && IsVault(target)
    ensures Step(s, Done).pc.CommitClean? && Inv(Step(s, Done), target)
  {
    var m := s.pc.tx.journal;
    assert m.changes[0..] == m.changes;
    if m.changes == [] { NothingOwned(s.d.keyring, m.txn); }
  }

  /** An undisturbed writer succeeds, and leaves exactly its target. */
  lemma WriterSettles(v: Vault, txn: nat, plan: seq<PlanOp>, body: string) returns (n: nat)
    requires IsVault(v)
    ensures Run(Begin(v, txn, plan, body), Dones(n)) == State(Settled(Target(v, plan, body)), Stopped(Success))
  {
    var b := Begin(v, txn, plan, body);
    var m := WriterGetsToRemove(v, txn, plan, body);
    n := m + 1;
    assert Dones(n) == Dones(m) + [Done];
    RunSplit(b, Dones(m), [Done]);
    var r := Run(b, Dones(m));
    assert Run(r, [Done]) == Run(Step(r, Done), []);
  }

  // ------------------------------------------------------------ one operation fails

  predicate Undoing(pc: Pc) {
    pc.Undo? || pc.UndoMark? || pc.UndoClean? || pc.UndoRemove?
  }

  function UndoLeft(pc: Pc): nat
    requires Undoing(pc)
  {
    match pc
    case Undo(tx, i) => i + |tx.journal.changes| + 4
    case UndoMark(tx) => |tx.journal.changes| + 3
    case UndoClean(tx, i) => if i < |tx.journal.changes| then |tx.journal.changes| - i + 2 else 2
    case UndoRemove => 1
  }

  /** An undisturbed rollback puts everything back and says so. */
  lemma {:induction false} UndoFinishes(s: State, v: Vault) returns (n: nat)
    requires Inv(s, v) && Undoing(s.pc)
    ensures Run(s, Dones(n)) == State(Settled(v), Stopped(RolledBack))
    decreases UndoLeft(s.pc)
  {
    UndoStep(s, Done, v);
    if s.pc.UndoRemove? {
      n := 1;
      assert Run(Step(s, Done), Dones(0)) == Step(s, Done);
    } else {
      UndoStepIsLess(s, v);
      var k := UndoFinishes(Step(s, Done), v);
      n := k + 1;
    }
    RunDones(s, n);
  }

  lemma UndoStepIsLess(s: State, v: Vault)
    requires Inv(s, v) && Undoing(s.pc) && !s.pc.UndoRemove? && Inv(Step(s, Done), v)
    ensures Undoing(Step(s, Done).pc) && UndoLeft(Step(s, Done).pc) < UndoLeft(s.pc)
  {
  }

  /** The rest of a run whose one error has started the rollback. */
  lemma RollbackEnds(s: State, os: seq<Outcome>, v: Vault)
    requires Inv(s, v) && Undoing(s.pc) && Errors(os) == 0 && Deaths(os) == 0 && Run(s, os).pc.Stopped?
    ensures Run(s, os) == State(Settled(v), Stopped(RolledBack))
  {
    NothingFailed(os);
    var n := UndoFinishes(s, v);
    StoppedAgree(s, |os|, n);
  }

  lemma OneErrorStep(s: State, o: Outcome, v: Vault, target: Vault)
    requires Inv(s, v) && WriterOk(s, v, target) && !LateRollback(s, Step(s, o))
    requires !Undoing(s.pc) && !s.pc.Stopped? && !o.Crash?
    ensures var s', v' := Step(s, o), VaultAfter(s, o, v);
            && Inv(s', v') && WriterOk(s', v', target) && (v' == v || v' == target)
            && (Undoing(s'.pc) ==> o.Error?)
            && (s'.pc.Stopped? ==> EndsWithOneError(s', v', target))
  {
    StepKeepsVault(s, o, v);
    WriterStep(s, o, v, target);
    StopsWhenCommitted(s, o);
  }

  /** A writer that is not rolling back stops only after its commit. */
  lemma StopsWhenCommitted(s: State, o: Outcome)
    requires !Recovering(s.pc) && !Undoing(s.pc) && !o.Crash?
    ensures var pc := Step(s, o).pc;
            && (Undoing(pc) ==> o.Error?)
            && (pc.Stopped? ==>
                  (s.pc.CommitClean? || s.pc.CommitRemove?) && (pc.verdict.Success? || pc.verdict.Failure?))
  {
  }

  /**
  A writer in which one operation at most fails, and which rolls back in time:
  it succeeds with the target, or rolls back completely, or fails in its
  clean-up, after which a recovery finds the target.
  */
  lemma {:induction false} OneErrorEnds(s: State, os: seq<Outcome>, v: Vault, target: Vault)
    requires Inv(s, v) && WriterOk(s, v, target) && NoLateRollback(s, os)
    requires !Undoing(s.pc) && !s.pc.Stopped?
    requires Errors(os) <= 1 && Deaths(os) == 0 && Run(s, os).pc.Stopped?
    ensures EndsWithOneError(Run(s, os), v, target)
    decreases |os|
  {
    TallyFront(os);
    OneErrorStep(s, os[0], v, target);
    var s', v' := Step(s, os[0]), VaultAfter(s, os[0], v);
    if Undoing(s'.pc) {
      RollbackEnds(s', os[1..], v');
    } else if s'.pc.Stopped? {
      RunStopped(s', os[1..]);
    } else {
      OneErrorEnds(s', os[1..], v', target);
    }
  }

  ghost predicate EndsWithOneError(r: State, v: Vault, target: Vault) {
    || (r.pc == Stopped(Success) && r.d == Settled(target))
    || (r.pc == Stopped(RolledBack) && (r.d == Settled(v) || r.d == Settled(target)))
    || (r.pc == Stopped(Failure) && Pending(r.d, target))
  }

  // ------------------------------------------------------------ the text cannot be rendered

  /** The first failure of the run is that the text could not be rendered. */
  ghost predicate FailsAtRender(s: State, os: seq<Outcome>) {
    exists k: nat :: RenderFailsAt(s, os, k)
  }

  ghost predicate RenderFailsAt(s: State, os: seq<Outcome>, k: nat) {
    k < |os| && os[..k] == Dones(k) && os[k] == Error(false) && Run(s, Dones(k)).pc.Render?
  }

  predicate PastRender(pc: Pc) {
    pc.PersistTarget? || pc.WriteProfile? || pc.CommitClean? || pc.CommitRemove? || pc.Stopped?
  }

  lemma {:induction false} NeverBackToRender(s: State, k: nat)
    requires PastRender(s.pc)
    ensures PastRender(Run(s, Dones(k)).pc)
    decreases k
  {
    if k > 0 {
      RunDones(s, k);
      NeverBackToRender(Step(s, Done), k - 1);
    }
  }

  lemma {:induction false} UntilRender(s: State, k: nat, v: Vault)
    requires Inv(s, v) && L.BeforeWrite(s.pc) && !s.pc.PersistTarget? && Run(s, Dones(k)).pc.Render?
    ensures Inv(Run(s, Dones(k)), v)
    decreases k
  {
    if k > 0 {
      RunDones(s, k);
      if s.pc.Render? {
        NeverBackToRender(Step(s, Done), k - 1);
      } else {
        QuietStep(s, Done, v);
        UntilRender(Step(s, Done), k - 1, v);
      }
    }
  }

  /** Then everything is put back, whatever the text: nothing has been marked yet. */
  lemma RenderFailureRollsBack(s: State, os: seq<Outcome>, v: Vault)
    requires Inv(s, v) && s.pc.Next? && FailsAtRender(s, os)
    requires Errors(os) <= 1 && Deaths(os) == 0 && Run(s, os).pc.Stopped?
    ensures Run(s, os) == State(Settled(v), Stopped(RolledBack))
  {
    var k: nat :| RenderFailsAt(s, os, k);
    UntilRender(s, k, v);
    var r, rest := Run(s, Dones(k)), os[k + 1..];
    SplitAtRender(s, os, k);
    RenderErrorUndoes(r, v);
    RollbackEnds(Step(r, Error(false)), rest, v);
  }

  lemma SplitAtRender(s: State, os: seq<Outcome>, k: nat)
    requires RenderFailsAt(s, os, k)
    ensures Run(s, os) == Run(Step(Run(s, Dones(k)), Error(false)), os[k + 1..])
    ensures Errors(os[k + 1..]) < Errors(os) && Deaths(os[k + 1..]) <= Deaths(os)
  {
    var rest := os[k + 1..];
    assert os == os[..k] + ([Error(false)] + rest);
    assert multiset(os) == multiset(os[..k]) + multiset{Error(false)} + multiset(rest);
    RunSplit(s, os[..k], [Error(false)] + rest);
    assert ([Error(false)] + rest)[1..] == rest;
  }

  lemma RenderErrorUndoes(r: State, v: Vault)
    requires Inv(r, v) && r.pc.Render?
    ensures Undoing(Step(r, Error(false)).pc) && Inv(Step(r, Error(false)), v)
  {
    RenderStep(r, Error(false), v);
  }
}
