/** Crash atomicity of one transaction, over all runs, and exactly when it holds. */
module CrashAtomicity {
  import opened Common
  import opened AuthJournal
  import opened JournalMachine
  import opened JournalProofs

  // ------------------------------------------------------------ whole runs

  ghost function VaultAfterRun(s: State, os: seq<Outcome>, v: Vault): Vault
    decreases |os|
  {
    if os == [] then v else VaultAfterRun(Step(s, os[0]), os[1..], VaultAfter(s, os[0], v))
  }

  lemma {:induction false} RunSplit(s: State, a: seq<Outcome>, b: seq<Outcome>)
    ensures Run(s, a + b) == Run(Run(s, a), b)
    decreases |a|
  {
    if a == [] {
      assert a + b == b;
    } else {
      assert (a + b)[0] == a[0] && (a + b)[1..] == a[1..] + b;
      RunSplit(Step(s, a[0]), a[1..], b);
    }
  }

  // ------------------------------------------------------------ recovery

  predicate Recovering(pc: Pc) {
    InRecovery(pc) || pc.Stopped?
  }

  /** Recovery never changes the vault and never misses a backup, unless it is blind to a commit. */
  lemma {:induction false} RecoveryRun(s: State, os: seq<Outcome>, v: Vault)
    requires Inv(s, v) && Recovering(s.pc) && NoLateRollback(s, os)
    ensures Inv(Run(s, os), v) && Recovering(Run(s, os).pc)
    decreases |os|
  {
    if os != [] {
      StepKeepsVault(s, os[0], v);
      RecoveryRun(Step(s, os[0]), os[1..], v);
    }
  }

  /** The second operation of a recovery reads the profile: it succeeded, or was never reached. */
  predicate Sighted(os: seq<Outcome>) {
    |os| > 1 ==> !os[1].Error?
  }

  /** A recovery that can read the profile, or does not depend on it. */
  predicate Discerning(d: Durable, os: seq<Outcome>) {
    Sighted(os) || !Committed(d) || d.journal.value.rollbackRestored
  }

  lemma {:induction false} PastProfileNeverLate(s: State, os: seq<Outcome>)
    requires Recovering(s.pc) && !s.pc.RecRead? && !s.pc.RecProfile?
    ensures NoLateRollback(s, os)
    decreases |os|
  {
    if os != [] { PastProfileNeverLate(Step(s, os[0]), os[1..]); }
  }

  lemma DiscerningIsNeverLate(d: Durable, os: seq<Outcome>)
    requires Discerning(d, os)
    ensures NoLateRollback(State(d, RecRead), os)
  {
    if os != [] {
      var s1 := Step(State(d, RecRead), os[0]);
      if s1.pc.RecProfile? && os[1..] != [] {
        assert os[1..][0] == os[1];
        PastProfileNeverLate(Step(s1, os[1]), os[1..][1..]);
      } else if !s1.pc.RecProfile? {
        PastProfileNeverLate(s1, os[1..]);
      }
    }
  }

  /** `RecoveryRun` from its beginning. */
  lemma RecoveryFromStart(d: Durable, os: seq<Outcome>, v: Vault)
    requires Pending(d, v) && Discerning(d, os)
    ensures var r := Run(State(d, RecRead), os);
            && Pending(r.d, v) && Recovering(r.pc) && r.pc != Stopped(MissingBackup)
            && (r.pc == Stopped(Success) ==> r.d == Settled(v))
  {
    DiscerningIsNeverLate(d, os);
    RecoveryRun(State(d, RecRead), os, v);
  }

  /** A recovery that succeeds has removed the journal, whatever it could read. */
  lemma {:induction false} FinishedLeavesNoJournal(s: State, os: seq<Outcome>)
    requires Recovering(s.pc) && (s.pc == Stopped(Success) ==> s.d.journal.None?)
    ensures Recovering(Run(s, os).pc)
    ensures Run(s, os).pc == Stopped(Success) ==> Run(s, os).d.journal.None?
    decreases |os|
  {
    if os != [] { FinishedLeavesNoJournal(Step(s, os[0]), os[1..]); }
  }

  function Dones(n: nat): seq<Outcome> {
    seq(n, i => Done)
  }

  lemma RunDones(s: State, n: nat)
    requires n > 0
    ensures Run(s, Dones(n)) == Run(Step(s, Done), Dones(n - 1))
  {
    assert Dones(n)[1..] == Dones(n - 1);
  }

  function StepsLeft(pc: Pc): nat {
    match pc
    case RecRestore(j, i) => i + |j.changes| + 4
    case RecMark(j) => |j.changes| + 3
    case RecClean(j, i) => if i < |j.changes| then |j.changes| - i + 2 else 2
    case RecRemove => 1
    case _ => 0
  }

  lemma OneStepLess(s: State, v: Vault)
    requires Inv(s, v) && InRecovery(s.pc) && !s.pc.RecRead? && !s.pc.RecProfile?
    requires Inv(Step(s, Done), v)
    ensures var pc := Step(s, Done).pc;
            && Recovering(pc) && !pc.RecRead? && !pc.RecProfile? && (pc.Stopped? ==> pc.verdict.Success?)
            && StepsLeft(pc) == StepsLeft(s.pc) - 1
  {
  }

  lemma {:induction false} RecoveryFinishes(s: State, v: Vault)
    requires Inv(s, v) && Recovering(s.pc) && !s.pc.RecRead? && !s.pc.RecProfile?
    requires s.pc.Stopped? ==> s.pc.verdict.Success?
    ensures Run(s, Dones(StepsLeft(s.pc))) == State(Settled(v), Stopped(Success))
    decreases StepsLeft(s.pc)
  {
    if !s.pc.Stopped? {
      StepKeepsVault(s, Done, v);
      OneStepLess(s, v);
      RunDones(s, StepsLeft(s.pc));
      RecoveryFinishes(Step(s, Done), v);
    }
  }

  /** A recovery that meets no error settles the durable state and leaves no trace of itself. */
  lemma RecoverySettles(d: Durable, v: Vault) returns (n: nat)
    requires Pending(d, v)
    ensures Run(State(d, RecRead), Dones(n)) == State(Settled(v), Stopped(Success))
  {
    var s := State(d, RecRead);
    StepKeepsVault(s, Done, v);
    var s' := Step(s, Done);
    if s'.pc.RecProfile? {
      StepKeepsVault(s', Done, v);
      n := 2 + StepsLeft(Step(s', Done).pc);
      RunDones(s', n - 1);
      RecoveryFinishes(Step(s', Done), v);
    } else {
      n := 1;
    }
    RunDones(s, n);
  }

  /** Recovering twice is recovering once. */
  lemma RecoveryIsIdempotent(v: Vault, os: seq<Outcome>)
    requires IsVault(v)
    ensures Run(State(Settled(v), RecRead), os).d == Settled(v)
  {
    if os != [] {
      var s' := Step(State(Settled(v), RecRead), os[0]);
      assert s'.pc.Stopped?;
      RunStopped(s', os[1..]);
    }
  }

  lemma {:induction false} RunStopped(s: State, os: seq<Outcome>)
    requires s.pc.Stopped?
    ensures Run(s, os) == s
    decreases |os|
  {
    if os != [] { RunStopped(s, os[1..]); }
  }

  /** Any number of recoveries, each cut short or failing anywhere. */
  function Recoveries(d: Durable, runs: seq<seq<Outcome>>): Durable
    decreases |runs|
  {
    if runs == [] then d else Recoveries(Run(State(d, RecRead), runs[0]).d, runs[1..])
  }

  predicate AllSighted(runs: seq<seq<Outcome>>) {
    forall os | os in runs :: Sighted(os)
  }

  lemma {:induction false} RecoveriesKeepVault(d: Durable, runs: seq<seq<Outcome>>, v: Vault)
    requires Pending(d, v) && AllSighted(runs)
    ensures Pending(Recoveries(d, runs), v)
    decreases |runs|
  {
    if runs != [] {
      assert runs[0] in runs;
      assert forall os | os in runs[1..] :: os in runs;
      RecoveryFromStart(d, runs[0], v);
      RecoveriesKeepVault(Run(State(d, RecRead), runs[0]).d, runs[1..], v);
    }
  }

  // ------------------------------------------------------------ one transaction

  function Target(v: Vault, plan: seq<PlanOp>, body: string): Vault {
    Vault(ApplyPlan(v.secrets, plan), Some(body))
  }

  function Begin(v: Vault, txn: nat, plan: seq<PlanOp>, body: string): State {
    State(Settled(v), BeginWrite(Settled(v), txn, plan, body))
  }

  lemma BeginIsOk(v: Vault, txn: nat, plan: seq<PlanOp>, body: string)
    requires IsVault(v)
    ensures Inv(Begin(v, txn, plan, body), v)
    ensures Begin(v, txn, plan, body).pc.tx.goal == ApplyPlan(v.secrets, plan)
  {
    assert RealPart(v.secrets) == v.secrets;
  }

  predicate HasTx(pc: Pc) {
    !Recovering(pc) && !pc.CommitRemove? && !pc.UndoRemove?
  }

  /** What a writer's program counter says about which vault it stands for. */
  predicate WriterOk(s: State, v: Vault, target: Vault) {
    && (HasTx(s.pc) ==> Vault(s.pc.tx.goal, Some(s.pc.tx.body)) == target)
    && (s.pc.CommitClean? || s.pc.CommitRemove? || s.pc == Stopped(Success) ==> v == target)
    && (Recovering(s.pc) ==> s.pc.Stopped?)
  }

  lemma WriterStep(s: State, o: Outcome, v: Vault, target: Vault)
    requires Inv(s, v) && WriterOk(s, v, target) && !LateRollback(s, Step(s, o))
    ensures WriterOk(Step(s, o), VaultAfter(s, o, v), target)
    ensures VaultAfter(s, o, v) == v || VaultAfter(s, o, v) == target
  {
  }

  lemma {:induction false} WriterRun(s: State, os: seq<Outcome>, v: Vault, target: Vault)
    requires Inv(s, v) && WriterOk(s, v, target) && NoLateRollback(s, os)
    ensures var v' := VaultAfterRun(s, os, v);
            && (v' == v || v' == target)
            && Inv(Run(s, os), v') && WriterOk(Run(s, os), v', target)
    decreases |os|
  {
    if os != [] {
      StepKeepsVault(s, os[0], v);
      WriterStep(s, os[0], v, target);
      WriterRun(Step(s, os[0]), os[1..], VaultAfter(s, os[0], v), target);
    }
  }

  /**
  All old or all new.  A writer may die or fail at any operation, and so may any
  number of recoveries after it, as long as each could read the profile; once a
  recovery finishes, secrets and profile are exactly those before the transaction
  or exactly those it was meant to reach.
  */
  lemma AllOldOrAllNew(
    v: Vault, txn: nat, plan: seq<PlanOp>, body: string,
    writer: seq<Outcome>, interrupted: seq<seq<Outcome>>, last: seq<Outcome>)
    requires IsVault(v) && NoLateRollback(Begin(v, txn, plan, body), writer)
    requires AllSighted(interrupted) && Sighted(last)
    ensures var w := Run(Begin(v, txn, plan, body), writer);
            var r := Run(State(Recoveries(w.d, interrupted), RecRead), last);
            && w.pc != Stopped(MissingBackup)
            && (w.pc == Stopped(Success) ==> w.d == Settled(Target(v, plan, body)))
            && r.pc != Stopped(MissingBackup)
            && (r.pc == Stopped(Success) ==>
                  r.d == Settled(v) || r.d == Settled(Target(v, plan, body)))
  {
    var s := Begin(v, txn, plan, body);
    BeginIsOk(v, txn, plan, body);
    WriterRun(s, writer, v, Target(v, plan, body));
    var v' := VaultAfterRun(s, writer, v);
    var w := Run(s, writer);
    RecoveriesKeepVault(w.d, interrupted, v');
    RecoveryFromStart(Recoveries(w.d, interrupted), last, v');
  }

  // ------------------------------------------------------------ when rollback is late

  /** The profile write reports an error only while the old profile is in place. */
  predicate ErrorsBeforeRename(s: State, os: seq<Outcome>)
    decreases |os|
  {
    os == [] || (!(s.pc.WriteProfile? && os[0] == Error(true)) && ErrorsBeforeRename(Step(s, os[0]), os[1..]))
  }

  lemma {:induction false} DifferentContentsAreNeverLate(
    s: State, os: seq<Outcome>, v: Vault, target: Vault)
    requires Inv(s, v) && WriterOk(s, v, target) && ErrorsBeforeRename(s, os)
    requires target.profile.Some?
    requires s.d.profile == target.profile ==> s.pc.CommitClean? || s.pc.CommitRemove? || s.pc.Stopped?
    ensures NoLateRollback(s, os)
    decreases |os|
  {
    if os != [] {
      var s' := Step(s, os[0]);
      assert !LateRollback(s, s');
      StepKeepsVault(s, os[0], v);
      WriterStep(s, os[0], v, target);
      DifferentContentsAreNeverLate(s', os[1..], VaultAfter(s, os[0], v), target);
    }
  }

}
