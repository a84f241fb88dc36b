/**
What values can come to stand under one keyring account, at every step of both
writers and of recovery, whatever fails: those that were there before and those
that the plan puts there. And: no backup entry without a journal that names it.
*/
module TokenValues {
  import opened Common
  import opened AuthJournal
  import opened JournalMachine
  import opened JournalProofs
  import opened CrashAtomicity
  import opened HandRollback
  import A = AnyEnding

  /** What is asked of the value of an account; `None` stands for no entry. */
  datatype Demand = Anything | Unspent(spent: set<string>) | Only(token: string)

  predicate Meets(q: Demand, value: Option<string>) {
    match q
    case Anything => true
    case Unspent(spent) => value.Some? ==> value.value !in spent
    case Only(token) => value == Some(token)
  }

  function Effect(op: PlanOp): Option<string> {
    match op
    case Put(_, secret) => Some(secret)
    case Remove(_) => None
  }

  predicate OpMeets(q: Demand, account: string, op: PlanOp) {
    op.account == account ==> Meets(q, Effect(op))
  }

  predicate OpsMeet(q: Demand, account: string, ops: seq<PlanOp>) {
    forall op | op in ops :: OpMeets(q, account, op)
  }

  /** The entry itself, and every backup of it. */
  ghost predicate KeyringMeets(q: Demand, account: string, k: Keyring) {
    && Meets(q, Lookup(k, account))
    && forall t: nat | Backup(t, account) in k :: Meets(q, Some(k[Backup(t, account)]))
  }

  /** A change without a backup is undone by deleting the entry. */
  predicate JournalMeets(q: Demand, account: string, j: Journal) {
    forall c | c in j.changes && c.account == account && !c.backedUp :: Meets(q, None)
  }

  ghost predicate DurableMeets(q: Demand, account: string, d: Durable) {
    && KeyringMeets(q, account, d.keyring)
    && (d.journal.Some? ==> JournalMeets(q, account, d.journal.value))
  }

  predicate TxMeets(q: Demand, account: string, tx: Tx) {
    JournalMeets(q, account, tx.journal) && OpsMeet(q, account, tx.plan)
  }

  predicate HeadMeets(q: Demand, account: string, tx: Tx, value: Option<string>) {
    tx.plan != [] && tx.plan[0].account == account ==> Meets(q, value)
  }

  /** What the program counter carries. */
  predicate PcMeets(q: Demand, account: string, pc: Pc) {
    && (pc.RecProfile? || pc.RecRestore? || pc.RecMark? || pc.RecClean? ==> JournalMeets(q, account, pc.j))
    && (HasTx(pc) ==> TxMeets(q, account, pc.tx))
    && (pc.PersistChange? ==> HeadMeets(q, account, pc.tx, pc.previous))
    && (pc.StoreBackup? ==> HeadMeets(q, account, pc.tx, Some(pc.secret)))
  }

  // ---------------------------------------------------------------- values

  lemma RestoreMeets(q: Demand, account: string, k: Keyring, txn: nat, c: Change)
    requires KeyringMeets(q, account, k) && RestoreOne(k, txn, c).Some?
    requires c.account == account && !c.backedUp ==> Meets(q, None)
    ensures KeyringMeets(q, account, RestoreOne(k, txn, c).value)
  {
  }

  lemma RestoreStepMeets(q: Demand, account: string, d: Durable, j: Journal, i: nat)
    requires DurableMeets(q, account, d) && JournalMeets(q, account, j) && 0 < i <= |j.changes|
    requires RestoreOne(d.keyring, j.txn, j.changes[i - 1]).Some?
    ensures DurableMeets(q, account, d.(keyring := RestoreOne(d.keyring, j.txn, j.changes[i - 1]).value))
  {
    assert j.changes[i - 1] in j.changes;
    RestoreMeets(q, account, d.keyring, j.txn, j.changes[i - 1]);
  }

  lemma ApplyMeets(q: Demand, account: string, k: Keyring, op: PlanOp)
    requires KeyringMeets(q, account, k) && OpMeets(q, account, op)
    ensures KeyringMeets(q, account, ApplyOp(k, op))
    ensures OpMeets(q, account, Inverse(k, op))
  {
  }

  lemma RecordMeets(q: Demand, account: string, m: Journal, c: Change, previous: Option<string>)
    requires JournalMeets(q, account, m) && c.backedUp == previous.Some?
    requires c.account == account ==> Meets(q, previous)
    ensures JournalMeets(q, account, m.(changes := m.changes + [c]))
  {
  }

  lemma ReadyMeets(q: Demand, account: string, m: Journal)
    requires JournalMeets(q, account, m)
    ensures JournalMeets(q, account, MarkLastReady(m))
  {
    if m.changes != [] {
      var n := |m.changes| - 1;
      forall c | c in MarkLastReady(m).changes && c.account == account && !c.backedUp ensures Meets(q, None) {
        var i :| 0 <= i < |m.changes| && MarkLastReady(m).changes[i] == c;
        assert m.changes[i] in m.changes;
      }
    }
  }

  lemma RecoveryMeets(q: Demand, account: string, s: State, o: Outcome)
    requires DurableMeets(q, account, s.d) && PcMeets(q, account, s.pc) && Recovering(s.pc)
    ensures DurableMeets(q, account, Step(s, o).d) && PcMeets(q, account, Step(s, o).pc)
  {
    if s.pc.RecRestore? && 0 < s.pc.i <= |s.pc.j.changes|
       && RestoreOne(s.d.keyring, s.pc.j.txn, s.pc.j.changes[s.pc.i - 1]).Some? {
      RestoreStepMeets(q, account, s.d, s.pc.j, s.pc.i);
    }
  }

  lemma RecordingMeets(q: Demand, account: string, s: State, o: Outcome)
    requires DurableMeets(q, account, s.d) && PcMeets(q, account, s.pc)
    requires s.pc.Next? || s.pc.PersistChange? || s.pc.StoreBackup? || s.pc.PersistReady?
    ensures DurableMeets(q, account, Step(s, o).d) && PcMeets(q, account, Step(s, o).pc)
  {
    var tx := s.pc.tx;
    if s.pc.Next? && tx.plan != [] {
      var previous := Lookup(s.d.keyring, tx.plan[0].account);
      RecordMeets(q, account, tx.journal,
                  Change(tx.plan[0].account, previous.Some?, previous.None?), previous);
    }
    if s.pc.StoreBackup? { ReadyMeets(q, account, tx.journal); }
  }

  lemma WritingMeets(q: Demand, account: string, s: State, o: Outcome)
    requires DurableMeets(q, account, s.d) && PcMeets(q, account, s.pc)
    requires s.pc.Apply? || s.pc.Render? || MayCommit(s.pc) || s.pc.CommitClean? || s.pc.CommitRemove?
    ensures DurableMeets(q, account, Step(s, o).d) && PcMeets(q, account, Step(s, o).pc)
  {
    if s.pc.Apply? && s.pc.tx.plan != [] {
      assert s.pc.tx.plan[0] in s.pc.tx.plan;
      ApplyMeets(q, account, s.d.keyring, s.pc.tx.plan[0]);
    }
  }

  lemma UndoingMeets(q: Demand, account: string, s: State, o: Outcome)
    requires DurableMeets(q, account, s.d) && PcMeets(q, account, s.pc)
    requires s.pc.Undo? || s.pc.UndoMark? || s.pc.UndoClean? || s.pc.UndoRemove?
    ensures DurableMeets(q, account, Step(s, o).d) && PcMeets(q, account, Step(s, o).pc)
  {
    if s.pc.Undo? {
      var m, i := s.pc.tx.journal, s.pc.i;
      if 0 < i <= |m.changes| && RestoreOne(s.d.keyring, m.txn, m.changes[i - 1]).Some? {
        RestoreStepMeets(q, account, s.d, m, i);
      }
    }
  }

  /** No step of anything brings a new value to the account but the plan's own. */
  lemma StepMeets(q: Demand, account: string, s: State, o: Outcome)
    requires DurableMeets(q, account, s.d) && PcMeets(q, account, s.pc)
    ensures DurableMeets(q, account, Step(s, o).d) && PcMeets(q, account, Step(s, o).pc)
  {
    if Recovering(s.pc) { RecoveryMeets(q, account, s, o); }
    else if s.pc.Next? || s.pc.PersistChange? || s.pc.StoreBackup? || s.pc.PersistReady? {
      RecordingMeets(q, account, s, o);
    }
    else if s.pc.Undo? || s.pc.UndoMark? || s.pc.UndoClean? || s.pc.UndoRemove? { UndoingMeets(q, account, s, o); }
    else { WritingMeets(q, account, s, o); }
  }

  // ---------------------------------------------------------------- backups

  /** Every backup entry is named by the journal on disk. */
  ghost predicate Filed(d: Durable) {
    match d.journal
    case None => A.NoBackups(d.keyring)
    case Some(j) => Owned(d.keyring, j.txn, j.changes)
  }

  /** The journal in memory names every backup entry too. */
  ghost predicate FiledIn(d: Durable, m: Journal) {
    Owned(d.keyring, m.txn, m.changes)
  }

  /** The next backup entry is named in memory and on disk. */
  predicate BackupIsNamed(tx: Tx) {
    && tx.plan != [] && tx.journal.changes != []
    && Last(tx.journal).account == tx.plan[0].account && Last(tx.journal).backedUp
  }

  ghost predicate PcFiled(d: Durable, pc: Pc) {
    match pc
    case RecRead => true
    case RecProfile(j) => d.journal == Some(j)
    case RecRestore(j, _) => d.journal == Some(j)
    case RecMark(j) => d.journal == Some(j)
    case RecClean(j, i) => d.journal == Some(j) && A.CleanFrom(d, j, i)
    case RecRemove => A.NoBackups(d.keyring)
    case PersistChange(tx, previous) => FiledIn(d, tx.journal) && (previous.Some? ==> BackupIsNamed(tx))
    case StoreBackup(tx, _) => FiledIn(d, tx.journal) && BackupIsNamed(tx) && d.journal == Some(tx.journal)
    case CommitClean(tx, i) => A.CleanFrom(d, tx.journal, i)
    case CommitRemove => A.NoBackups(d.keyring)
    case UndoClean(tx, i) => A.CleanFrom(d, tx.journal, i)
    case UndoRemove => A.NoBackups(d.keyring)
    case Stopped(verdict) => verdict.Success? || verdict.RolledBack? ==> d.journal.None?
    case _ => FiledIn(d, pc.tx.journal)
  }

  lemma DropStaysFiled(d: Durable, m: Journal, i: nat)
    requires Filed(d) && A.CleanFrom(d, m, i) && i < |m.changes|
    ensures var d' := d.(keyring := DropBackup(d.keyring, m.txn, m.changes[i]));
            Filed(d') && A.CleanFrom(d', m, i) && A.CleanFrom(d', m, i + 1)
  {
    DropKeeps(d.keyring, m.txn, m.changes, i);
    var k' := DropBackup(d.keyring, m.txn, m.changes[i]);
    assert m.changes[i..][1..] == m.changes[i + 1..];
    OwnedWiden(k', m.txn, m.changes[i..], 1);
  }

  lemma RecoveryStaysFiled(s: State, o: Outcome)
    requires Filed(s.d) && PcFiled(s.d, s.pc) && Recovering(s.pc)
    ensures Filed(Step(s, o).d) && PcFiled(Step(s, o).d, Step(s, o).pc)
  {
    if !s.pc.Stopped? && !o.Crash? {
      match s.pc
      case RecRead =>
      case RecProfile(j) => assert j.changes[0..] == j.changes;
      case RecRestore(j, i) =>
      case RecMark(j) => assert j.changes[0..] == j.changes;
      case RecClean(j, i) => if i < |j.changes| { DropStaysFiled(s.d, j, i); } else { A.CleanEnds(s.d, j); }
      case RecRemove =>
    }
  }

  lemma NewChangeIsFiled(d: Durable, m: Journal, c: Change)
    requires FiledIn(d, m)
    ensures FiledIn(d, m.(changes := m.changes + [c]))
  {
    var cs := m.changes + [c];
    forall s | s in d.keyring && s.Backup?
      ensures s.txn == m.txn && exists e | e in cs :: e.backedUp && e.account == s.account
    {
      var e :| e in m.changes && e.backedUp && e.account == s.account;
      assert e in cs;
    }
  }

  lemma NewBackupIsFiled(d: Durable, tx: Tx, secret: string)
    requires FiledIn(d, tx.journal) && BackupIsNamed(tx)
    ensures var d' := d.(keyring := d.keyring[Backup(tx.journal.txn, tx.plan[0].account) := secret]);
            FiledIn(d', tx.journal) && FiledIn(d', MarkLastReady(tx.journal))
    ensures FiledIn(d, MarkLastReady(tx.journal))
  {
    assert Last(tx.journal) in tx.journal.changes;
    SameAccounts(tx.journal);
  }

  lemma RecordingStaysFiled(s: State, o: Outcome)
    requires Filed(s.d) && PcFiled(s.d, s.pc)
    requires s.pc.Next? || s.pc.PersistChange? || s.pc.StoreBackup? || s.pc.PersistReady?
    ensures Filed(Step(s, o).d) && PcFiled(Step(s, o).d, Step(s, o).pc)
  {
    var tx := s.pc.tx;
    if s.pc.Next? && tx.plan != [] {
      var previous := Lookup(s.d.keyring, tx.plan[0].account);
      NewChangeIsFiled(s.d, tx.journal, Change(tx.plan[0].account, previous.Some?, previous.None?));
    }
    if s.pc.StoreBackup? { NewBackupIsFiled(s.d, tx, s.pc.secret); }
  }

  lemma WritingStaysFiled(s: State, o: Outcome)
    requires Filed(s.d) && PcFiled(s.d, s.pc)
    requires s.pc.Apply? || s.pc.Render? || MayCommit(s.pc) || s.pc.CommitClean? || s.pc.CommitRemove?
    ensures Filed(Step(s, o).d) && PcFiled(Step(s, o).d, Step(s, o).pc)
  {
    if !o.Crash? {
      if s.pc.WriteProfile? { assert s.pc.tx.journal.changes[0..] == s.pc.tx.journal.changes; }
      if s.pc.CommitClean? {
        var m, i := s.pc.tx.journal, s.pc.i;
        if i < |m.changes| { DropStaysFiled(s.d, m, i); } else { A.CleanEnds(s.d, m); }
      }
    }
  }

  lemma UndoingStaysFiled(s: State, o: Outcome)
    requires Filed(s.d) && PcFiled(s.d, s.pc)
    requires s.pc.Undo? || s.pc.UndoMark? || s.pc.UndoClean? || s.pc.UndoRemove?
    ensures Filed(Step(s, o).d) && PcFiled(Step(s, o).d, Step(s, o).pc)
  {
    if !o.Crash? {
      match s.pc
      case Undo(tx, i) =>
      case UndoMark(tx) => assert tx.journal.changes[0..] == tx.journal.changes;
      case UndoClean(tx, i) =>
        if i < |tx.journal.changes| { DropStaysFiled(s.d, tx.journal, i); } else { A.CleanEnds(s.d, tx.journal); }
      case UndoRemove =>
    }
  }

  // ---------------------------------------------------------------- both, for both writers

  ghost predicate Sound(q: Demand, account: string, s: State) {
    && DurableMeets(q, account, s.d) && PcMeets(q, account, s.pc)
    && Filed(s.d) && PcFiled(s.d, s.pc)
  }

  lemma StepStaysSound(q: Demand, account: string, s: State, o: Outcome)
    requires Sound(q, account, s)
    ensures Sound(q, account, Step(s, o))
  {
    StepMeets(q, account, s, o);
    if Recovering(s.pc) { RecoveryStaysFiled(s, o); }
    else if s.pc.Next? || s.pc.PersistChange? || s.pc.StoreBackup? || s.pc.PersistReady? { RecordingStaysFiled(s, o); }
    else if s.pc.Undo? || s.pc.UndoMark? || s.pc.UndoClean? || s.pc.UndoRemove? { UndoingStaysFiled(s, o); }
    else { WritingStaysFiled(s, o); }
  }

  /** A recovery that succeeded left no journal, no backup and a value as demanded. */
  lemma SoundSuccess(q: Demand, account: string, s: State)
    requires Sound(q, account, s) && s.pc == Stopped(Success)
    ensures s.d == Settled(Vault(s.d.keyring, s.d.profile)) && IsVault(Vault(s.d.keyring, s.d.profile))
    ensures Meets(q, Lookup(s.d.keyring, account))
  {
  }

  ghost predicate HandPcSound(q: Demand, account: string, d: Durable, pc: HandPc) {
    match pc
    case Plain(p) => PcMeets(q, account, p) && PcFiled(d, p)
    case Unstore(tx, _, _) => TxMeets(q, account, tx) && FiledIn(d, tx.journal)
    case AbortClean(tx, i) => A.CleanFrom(d, tx.journal, i)
    case AbortRemove => A.NoBackups(d.keyring)
    case Over(_) => true
  }

  /** The same for the writer that rolls back by hand, and what it would put back. */
  ghost predicate HandSound(q: Demand, account: string, s: HandState) {
    && DurableMeets(q, account, s.d) && Filed(s.d)
    && OpsMeet(q, account, s.stored) && HandPcSound(q, account, s.d, s.pc)
  }

  lemma PlainStaysSound(q: Demand, account: string, s: HandState, o: Outcome)
    requires HandSound(q, account, s) && s.pc.Plain?
    ensures HandSound(q, account, HandStep(s, o))
  {
    var t := State(s.d, s.pc.pc);
    StepStaysSound(q, account, t, o);
    if s.pc.pc.Apply? && s.pc.pc.tx.plan != [] {
      assert s.pc.pc.tx.plan[0] in s.pc.pc.tx.plan;
      ApplyMeets(q, account, s.d.keyring, s.pc.pc.tx.plan[0]);
    }
  }

  lemma TakingBackStaysSound(q: Demand, account: string, s: HandState, o: Outcome)
    requires HandSound(q, account, s) && s.pc.Unstore?
    ensures HandSound(q, account, HandStep(s, o))
  {
    if 0 < s.pc.i <= |s.stored| {
      assert s.stored[s.pc.i - 1] in s.stored;
      ApplyMeets(q, account, s.d.keyring, s.stored[s.pc.i - 1]);
      RealOfApply(s.d.keyring, s.stored[s.pc.i - 1]);
    } else {
      assert s.pc.tx.journal.changes[0..] == s.pc.tx.journal.changes;
    }
  }

  lemma HandStaysSound(q: Demand, account: string, s: HandState, o: Outcome)
    requires HandSound(q, account, s)
    ensures HandSound(q, account, HandStep(s, o))
  {
    if s.pc.Plain? { PlainStaysSound(q, account, s, o); }
    else if s.pc.Unstore? { TakingBackStaysSound(q, account, s, o); }
    else if s.pc.AbortClean? && !o.Crash? {
      var m, i := s.pc.tx.journal, s.pc.i;
      if i < |m.changes| { DropStaysFiled(s.d, m, i); } else { A.CleanEnds(s.d, m); }
    }
  }
}
