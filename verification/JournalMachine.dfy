/**
The journal protocol one durable operation at a time.

A program counter names the next keyring or file operation; an outcome says
whether that operation succeeds, returns an error (having taken effect or not)
or never happens because the process dies.  Every interleaving of crashes and
errors, including those inside recovery and rollback, is a list of outcomes.
*/
module JournalMachine {
  import opened Common
  import opened AuthJournal

  datatype PlanOp = Put(account: string, secret: string) | Remove(account: string)

  /** `journal` is the in-memory copy; `goal` is what the whole plan leads to. */
  datatype Tx = Tx(journal: Journal, plan: seq<PlanOp>, body: string, goal: Keyring)

  datatype Pc =
    | RecRead
    | RecProfile(j: Journal)
    | RecRestore(j: Journal, i: nat)
    | RecMark(j: Journal)
    | RecClean(j: Journal, i: nat)
    | RecRemove
    | Next(tx: Tx)
    | PersistChange(tx: Tx, previous: Option<string>)
    | StoreBackup(tx: Tx, secret: string)
    | PersistReady(tx: Tx)
    | Apply(tx: Tx)
    | Render(tx: Tx)
    | PersistTarget(tx: Tx)
    | WriteProfile(tx: Tx)
    | CommitClean(tx: Tx, i: nat)
    | CommitRemove
    | Undo(tx: Tx, i: nat)
    | UndoMark(tx: Tx)
    | UndoClean(tx: Tx, i: nat)
    | UndoRemove
    | Stopped(verdict: Verdict)

  datatype Verdict = Success | RolledBack | Failure | MissingBackup | Crashed

  datatype Outcome = Done | Error(applied: bool) | Crash

  datatype State = State(d: Durable, pc: Pc)

  predicate Applied(o: Outcome) {
    o.Done? || (o.Error? && o.applied)
  }

  function Durably(o: Outcome, before: Durable, after: Durable): Durable {
    if Applied(o) then after else before
  }

  function ApplyOp(k: Keyring, op: PlanOp): Keyring {
    match op
    case Put(a, secret) => k[Real(a) := secret]
    case Remove(a) => k - {Real(a)}
  }

  function ApplyPlan(k: Keyring, plan: seq<PlanOp>): Keyring
    decreases |plan|
  {
    if plan == [] then k else ApplyPlan(ApplyOp(k, plan[0]), plan[1..])
  }

  function Lookup(k: Keyring, account: string): Option<string> {
    if Real(account) in k then Some(k[Real(account)]) else None
  }

  function DropBackup(k: Keyring, txn: nat, c: Change): Keyring {
    if c.backedUp then k - {Backup(txn, c.account)} else k
  }

  function MarkLastReady(j: Journal): Journal {
    if j.changes == [] then j
    else j.(changes := j.changes[|j.changes| - 1 := j.changes[|j.changes| - 1].(backupReady := true)])
  }

  /** `KeyringTransaction::begin` followed by the first look at the plan. */
  function BeginWrite(d: Durable, txn: nat, plan: seq<PlanOp>, body: string): Pc {
    Next(Tx(Journal(txn, None, false, []), plan, body, ApplyPlan(RealPart(d.keyring), plan)))
  }

  function StartUndo(tx: Tx): Pc {
    Undo(tx, |tx.journal.changes|)
  }

  function Step(s: State, o: Outcome): State {
    var d, pc := s.d, s.pc;
    if pc.Stopped? then s
    else if o.Crash? then State(d, Stopped(Crashed))
    else match pc
    case RecRead =>
      if o.Error? then State(d, Stopped(Failure))
      else if d.journal.None? then State(d, Stopped(Success))
      else State(d, RecProfile(d.journal.value))
    case RecProfile(j) =>
      // A profile that cannot be read counts as one that does not match.
      if (o.Done? && Committed(d)) || j.rollbackRestored then State(d, RecClean(j, 0))
      else State(d, RecRestore(j, |j.changes|))
    case RecRestore(j, i) =>
      if !(0 < i <= |j.changes|) then State(d, RecMark(j))
      else
        (match RestoreOne(d.keyring, j.txn, j.changes[i - 1])
         case None => State(d, Stopped(if o.Error? then Failure else MissingBackup))
         case Some(k) =>
           State(Durably(o, d, d.(keyring := k)),
                 if o.Done? then RecRestore(j, i - 1) else Stopped(Failure)))
    case RecMark(j) =>
      var marked := j.(rollbackRestored := true);
      State(Durably(o, d, d.(journal := Some(marked))),
            if o.Done? then RecClean(marked, 0) else Stopped(Failure))
    case RecClean(j, i) =>
      if i >= |j.changes| then State(d, RecRemove)
      else
        State(Durably(o, d, d.(keyring := DropBackup(d.keyring, j.txn, j.changes[i]))),
              if o.Done? then RecClean(j, i + 1) else Stopped(Failure))
    case RecRemove =>
      State(Durably(o, d, d.(journal := None)), Stopped(if o.Done? then Success else Failure))

    case Next(tx) =>
      if tx.plan == [] then State(d, Render(tx))
      else if o.Error? then State(d, StartUndo(tx))
      else
        var op := tx.plan[0];
        var previous := Lookup(d.keyring, op.account);
        if op.Remove? && previous.None? then State(d, Next(tx.(plan := tx.plan[1..])))
        else if Touches(tx.journal.changes, op.account) then State(d, Apply(tx))
        else
          var c := Change(op.account, previous.Some?, previous.None?);
          State(d, PersistChange(
            tx.(journal := tx.journal.(changes := tx.journal.changes + [c])), previous))
    case PersistChange(tx, previous) =>
      State(Durably(o, d, d.(journal := Some(tx.journal))),
            if o.Error? then StartUndo(tx)
            else if previous.Some? then StoreBackup(tx, previous.value)
            else Apply(tx))
    case StoreBackup(tx, secret) =>
      if tx.plan == [] then s
      else
        State(Durably(o, d, d.(keyring := d.keyring[Backup(tx.journal.txn, tx.plan[0].account) := secret])),
              if o.Error? then StartUndo(tx)
              else PersistReady(tx.(journal := MarkLastReady(tx.journal))))
    case PersistReady(tx) =>
      State(Durably(o, d, d.(journal := Some(tx.journal))),
            if o.Error? then StartUndo(tx) else Apply(tx))
    case Apply(tx) =>
      if tx.plan == [] then s
      else
        State(Durably(o, d, d.(keyring := ApplyOp(d.keyring, tx.plan[0]))),
              if o.Error? then StartUndo(tx) else Next(tx.(plan := tx.plan[1..])))
    case Render(tx) =>
      State(d, if o.Error? then StartUndo(tx) else PersistTarget(tx))
    case PersistTarget(tx) =>
      if tx.journal.changes == [] then State(d, WriteProfile(tx))
      else
        var tx' := tx.(journal := tx.journal.(target := Some(Sha256(tx.body))));
        State(Durably(o, d, d.(journal := Some(tx'.journal))),
              if o.Error? then StartUndo(tx') else WriteProfile(tx'))
    case WriteProfile(tx) =>
      State(Durably(o, d, d.(profile := Some(tx.body))),
            if o.Error? then StartUndo(tx) else CommitClean(tx, 0))
    case CommitClean(tx, i) =>
      if i >= |tx.journal.changes| then State(d, CommitRemove)
      else
        State(Durably(o, d, d.(keyring := DropBackup(d.keyring, tx.journal.txn, tx.journal.changes[i]))),
              if o.Done? then CommitClean(tx, i + 1) else Stopped(Failure))
    case CommitRemove =>
      State(Durably(o, d, d.(journal := None)), Stopped(if o.Done? then Success else Failure))

    case Undo(tx, i) =>
      if !(0 < i <= |tx.journal.changes|) then State(d, UndoMark(tx))
      else
        (match RestoreOne(d.keyring, tx.journal.txn, tx.journal.changes[i - 1])
         case None => State(d, Stopped(if o.Error? then Failure else MissingBackup))
         case Some(k) =>
           State(Durably(o, d, d.(keyring := k)),
                 if o.Done? then Undo(tx, i - 1) else Stopped(Failure)))
    case UndoMark(tx) =>
      var marked := tx.(journal := tx.journal.(rollbackRestored := true));
      State(Durably(o, d, d.(journal := Some(marked.journal))),
            if o.Done? then UndoClean(marked, 0) else Stopped(Failure))
    case UndoClean(tx, i) =>
      if i >= |tx.journal.changes| then State(d, UndoRemove)
      else
        State(Durably(o, d, d.(keyring := DropBackup(d.keyring, tx.journal.txn, tx.journal.changes[i]))),
              if o.Done? then UndoClean(tx, i + 1) else Stopped(Failure))
    case UndoRemove =>
      State(Durably(o, d, d.(journal := None)), Stopped(if o.Done? then RolledBack else Failure))
  }

  /** A run is a list of outcomes, one for each step taken. */
  function Run(s: State, os: seq<Outcome>): State
    decreases |os|
  {
    if os == [] then s else Run(Step(s, os[0]), os[1..])
  }

  /**
  Secrets begin to be put back although the journal's target digest is the
  profile's: a writer rolls back late, or a recovery cannot read the profile.
  */
  predicate LateRollback(s: State, s': State) {
    Committed(s'.d) && ((!s.pc.Undo? && s'.pc.Undo?) || (s.pc.RecProfile? && s'.pc.RecRestore?))
  }

  predicate NoLateRollback(s: State, os: seq<Outcome>)
    decreases |os|
  {
    os == [] || (!LateRollback(s, Step(s, os[0])) && NoLateRollback(Step(s, os[0]), os[1..]))
  }

  /**
  The vault after one step.  A transaction takes effect in the single step that
  makes the profile's digest equal to the journal's target; every other step,
  of the writer, of rollback or of recovery, leaves the vault as it was.
  */
  ghost function VaultAfter(s: State, o: Outcome, v: Vault): Vault {
    if (s.pc.PersistTarget? || s.pc.WriteProfile?) && Applied(o)
       && Step(s, o).d.profile == Some(s.pc.tx.body)
    then Vault(s.pc.tx.goal, Some(s.pc.tx.body))
    else v
  }

  // ---------------------------------------------------------------- invariant

  ghost predicate AgreeFrom(k: Keyring, cs: seq<Change>, i: nat, secrets: Keyring) {
    forall n | i <= n < |cs| :: Agree(k, secrets, Real(cs[n].account))
  }

  predicate AllReady(cs: seq<Change>) {
    forall c | c in cs :: c.backedUp ==> c.backupReady
  }

  /** What `rollback_and_abort` needs of the in-memory journal. */
  ghost predicate CanUndo(d: Durable, m: Journal, v: Vault) {
    && Guards(d.keyring, m.txn, m.changes, v.secrets)
    && Owned(d.keyring, m.txn, m.changes)
    && !m.rollbackRestored
    && !Committed(d)
    && (d.journal.Some? ==> d.journal.value.txn == m.txn && !d.journal.value.rollbackRestored)
  }

  function Persisted(m: Journal): Option<Journal> {
    if m.changes == [] then None else Some(m)
  }

  ghost predicate OnPlan(d: Durable, tx: Tx) {
    ApplyPlan(RealPart(d.keyring), tx.plan) == tx.goal
  }

  ghost predicate Writing(d: Durable, tx: Tx, v: Vault) {
    CanUndo(d, tx.journal, v) && OnPlan(d, tx) && tx.journal.target.None?
  }

  /** The head of the plan is the last recorded account. */
  predicate Recording(tx: Tx) {
    && tx.plan != []
    && tx.journal.changes != []
    && tx.journal.changes[|tx.journal.changes| - 1].account == tx.plan[0].account
    && AllReady(Earlier(tx.journal).changes)
    && !Touches(Earlier(tx.journal).changes, tx.plan[0].account)
  }

  function Earlier(m: Journal): Journal {
    if m.changes == [] then m else m.(changes := m.changes[..|m.changes| - 1])
  }

  function Last(m: Journal): Change
    requires m.changes != []
  {
    m.changes[|m.changes| - 1]
  }

  ghost predicate PcOk(d: Durable, pc: Pc, v: Vault) {
    match pc
    case RecRead => true
    case RecProfile(j) => d.journal == Some(j)
    case RecRestore(j, i) =>
      && d.journal == Some(j) && !Committed(d) && !j.rollbackRestored
      && i <= |j.changes| && AgreeFrom(d.keyring, j.changes, i, v.secrets)
    case RecMark(j) =>
      && d.journal == Some(j) && !Committed(d) && !j.rollbackRestored
      && AgreeFrom(d.keyring, j.changes, 0, v.secrets)
    case RecClean(j, i) =>
      && d.journal == Some(j) && (Committed(d) || j.rollbackRestored)
      && i <= |j.changes| && Owned(d.keyring, j.txn, j.changes[i..])
    case RecRemove => d.keyring == v.secrets
    case Next(tx) =>
      && Writing(d, tx, v) && AllReady(tx.journal.changes) && d.journal == Persisted(tx.journal)
    case PersistChange(tx, previous) =>
      && Writing(d, tx, v) && Recording(tx) && d.journal == Persisted(Earlier(tx.journal))
      && previous == Lookup(d.keyring, tx.plan[0].account)
      && Last(tx.journal) == Change(tx.plan[0].account, previous.Some?, previous.None?)
      && Backup(tx.journal.txn, tx.plan[0].account) !in d.keyring
    case StoreBackup(tx, secret) =>
      && Writing(d, tx, v) && Recording(tx) && d.journal == Some(tx.journal)
      && Last(tx.journal).backedUp && !Last(tx.journal).backupReady
      && Lookup(v.secrets, tx.plan[0].account) == Some(secret)
    case PersistReady(tx) =>
      && Writing(d, tx, v) && Recording(tx) && AllReady(tx.journal.changes)
      && d.journal.Some? && MarkLastReady(d.journal.value) == tx.journal
      && |d.journal.value.changes| == |tx.journal.changes|
    case Apply(tx) =>
      && Writing(d, tx, v) && AllReady(tx.journal.changes) && d.journal == Some(tx.journal)
      && tx.plan != [] && Touches(tx.journal.changes, tx.plan[0].account)
    case Render(tx) =>
      && Writing(d, tx, v) && AllReady(tx.journal.changes) && d.journal == Persisted(tx.journal)
      && tx.plan == []
    case PersistTarget(tx) =>
      && Writing(d, tx, v) && AllReady(tx.journal.changes) && d.journal == Persisted(tx.journal)
      && tx.plan == []
    case WriteProfile(tx) =>
      && RealPart(d.keyring) == tx.goal
      && d.journal == Persisted(tx.journal)
      && Owned(d.keyring, tx.journal.txn, tx.journal.changes)
      && !tx.journal.rollbackRestored
      && tx.journal.target == (if tx.journal.changes == [] then None else Some(Sha256(tx.body)))
      && if Committed(d) then v == Vault(tx.goal, Some(tx.body)) else CanUndo(d, tx.journal, v)
    case CommitClean(tx, i) =>
      && d.journal == Persisted(tx.journal) && (tx.journal.changes != [] ==> Committed(d))
      && v == Vault(tx.goal, Some(tx.body))
      && i <= |tx.journal.changes| && Owned(d.keyring, tx.journal.txn, tx.journal.changes[i..])
    case CommitRemove => d.keyring == v.secrets
    case Undo(tx, i) =>
      && CanUndo(d, tx.journal, v)
      && i <= |tx.journal.changes| && AgreeFrom(d.keyring, tx.journal.changes, i, v.secrets)
    case UndoMark(tx) =>
      && CanUndo(d, tx.journal, v) && AgreeFrom(d.keyring, tx.journal.changes, 0, v.secrets)
    case UndoClean(tx, i) =>
      && d.journal == Some(tx.journal) && tx.journal.rollbackRestored
      && i <= |tx.journal.changes| && Owned(d.keyring, tx.journal.txn, tx.journal.changes[i..])
    case UndoRemove => d.keyring == v.secrets
    case Stopped(verdict) =>
      && !verdict.MissingBackup?
      && (verdict.Success? || verdict.RolledBack? ==> d == Settled(v))
  }

  ghost predicate Inv(s: State, v: Vault) {
    Pending(s.d, v) && PcOk(s.d, s.pc, v)
  }

}
