/**
The writer that login, logout and workspace switches use. It deletes accounts,
stores secrets, and follows the protocol of `JournalMachine`, but an error after
the stores is answered differently: the stored accounts alone are put back by
hand, and the transaction is aborted, which deletes its backups and its journal.
*/
module HandRollback {
  import opened Common
  import opened AuthJournal
  import opened JournalMachine
  import opened JournalProofs
  import opened CrashAtomicity
  import L = LateRollback
  import B = BlindRecovery

  /** `Unstore` puts back what was stored; with `undo` the journaled rollback follows it. */
  datatype HandPc =
    | Plain(pc: Pc)
    | Unstore(tx: Tx, i: nat, undo: bool)
    | AbortClean(tx: Tx, i: nat)
    | AbortRemove
    | Over(verdict: Verdict)

  /** `stored` holds, for each store so far, the operation that takes it back. */
  datatype HandState = HandState(d: Durable, pc: HandPc, stored: seq<PlanOp>)

  function Inverse(k: Keyring, op: PlanOp): PlanOp {
    var s := Real(op.account);
    if s in k then Put(op.account, k[s]) else Remove(op.account)
  }

  predicate Stores(pc: Pc) {
    && (pc.Next? || pc.PersistChange? || pc.StoreBackup? || pc.PersistReady? || pc.Apply?)
    && pc.tx.plan != [] && pc.tx.plan[0].Put?
  }

  predicate AfterStores(pc: Pc) {
    pc.Render? || pc.PersistTarget? || pc.WriteProfile?
  }

  function PlainStep(s: HandState, o: Outcome): HandState
    requires s.pc.Plain?
  {
    var pc := s.pc.pc;
    var t := Step(State(s.d, pc), o);
    if !pc.Undo? && t.pc.Undo? && (Stores(pc) || AfterStores(pc)) then
      HandState(t.d, Unstore(t.pc.tx, |s.stored|, Stores(pc)), s.stored)
    else
      HandState(t.d, Plain(t.pc),
                if pc.Apply? && Stores(pc) && o.Done? then s.stored + [Inverse(s.d.keyring, pc.tx.plan[0])]
                else s.stored)
  }

  function HandStep(s: HandState, o: Outcome): HandState {
    if s.pc.Over? then s
    else if s.pc.Plain? then PlainStep(s, o)
    else if o.Crash? then s.(pc := Over(Crashed))
    else match s.pc
    case Unstore(tx, i, undo) =>
      var next := if undo then Plain(StartUndo(tx)) else AbortClean(tx, 0);
      if !(0 < i <= |s.stored|) then s.(pc := next)
      else
        HandState(Durably(o, s.d, s.d.(keyring := ApplyOp(s.d.keyring, s.stored[i - 1]))),
                  if o.Done? then Unstore(tx, i - 1, undo)
                  else if undo then Plain(StartUndo(tx)) else Over(Failure), s.stored)
    case AbortClean(tx, i) =>
      if i >= |tx.journal.changes| then s.(pc := AbortRemove)
      else
        HandState(Durably(o, s.d, s.d.(keyring := DropBackup(s.d.keyring, tx.journal.txn, tx.journal.changes[i]))),
                  if o.Done? then AbortClean(tx, i + 1) else Over(Failure), s.stored)
    case AbortRemove => HandState(Durably(o, s.d, s.d.(journal := None)), Over(Failure), s.stored)
    case _ => s
  }

  function HandRun(s: HandState, os: seq<Outcome>): HandState
    decreases |os|
  {
    if os == [] then s else HandRun(HandStep(s, os[0]), os[1..])
  }

  /** Accounts to delete first, then secrets to store. */
  predicate Shape(deletes: seq<PlanOp>, stores: seq<PlanOp>) {
    (forall op | op in deletes :: op.Remove?) && (forall op | op in stores :: op.Put?)
  }

  function HandBegin(v: Vault, txn: nat, deletes: seq<PlanOp>, stores: seq<PlanOp>, body: string): HandState {
    var b := Begin(v, txn, deletes + stores, body);
    HandState(b.d, Plain(b.pc), [])
  }

  function HandEnding(
    b: HandState, writer: seq<Outcome>, interrupted: seq<seq<Outcome>>, last: seq<Outcome>): State
  {
    Run(State(Recoveries(HandRun(b, writer).d, interrupted), RecRead), last)
  }

  predicate HandErrorsBeforeRename(s: HandState, os: seq<Outcome>)
    decreases |os|
  {
    os == [] ||
    (!(s.pc.Plain? && s.pc.pc.WriteProfile? && os[0] == Error(true))
     && HandErrorsBeforeRename(HandStep(s, os[0]), os[1..]))
  }

  /** The runs considered: write errors may follow the rename, recoveries may be blind. */
  predicate HandAllowed(
    b: HandState, renameErrors: bool, blindReads: bool,
    writer: seq<Outcome>, interrupted: seq<seq<Outcome>>, last: seq<Outcome>)
  {
    && (renameErrors || HandErrorsBeforeRename(b, writer))
    && (blindReads || (AllSighted(interrupted) && Sighted(last)))
  }

  predicate EndsOldOrNew(r: State, v: Vault, target: Vault) {
    && r.pc != Stopped(MissingBackup)
    && (r.pc == Stopped(Success) ==> r.d == Settled(v) || r.d == Settled(target))
  }

  /** In every allowed run no backup is missed, and a finished recovery is all old or all new. */
  ghost predicate HandAtomic(
    v: Vault, txn: nat, deletes: seq<PlanOp>, stores: seq<PlanOp>, body: string,
    renameErrors: bool, blindReads: bool)
  {
    forall writer, interrupted, last ::
      HandAllowed(HandBegin(v, txn, deletes, stores, body), renameErrors, blindReads, writer, interrupted, last) ==>
        EndsOldOrNew(HandEnding(HandBegin(v, txn, deletes, stores, body), writer, interrupted, last),
                     v, Target(v, deletes + stores, body))
  }

  /** No account is deleted or stored that existed before. */
  predicate OnlyNewAccounts(v: Vault, plan: seq<PlanOp>) {
    forall op | op in plan :: Real(op.account) !in v.secrets
  }

  /** After any number of the stores the secrets are the old ones or the final ones. */
  ghost predicate EachStoreOldOrNew(k: Keyring, stores: seq<PlanOp>) {
    forall i: nat | i <= |stores| :: After(k, stores, i) == k || After(k, stores, i) == ApplyPlan(k, stores)
  }

  /** The secrets after the first `i` operations. */
  function After(k: Keyring, ops: seq<PlanOp>, i: nat): Keyring
    requires i <= |ops|
  {
    ApplyPlan(k, ops[..i])
  }

  // ---------------------------------------------------------------- taking stores back

  lemma {:induction false} PlanSplits(k: Keyring, x: seq<PlanOp>, y: seq<PlanOp>)
    ensures ApplyPlan(k, x + y) == ApplyPlan(ApplyPlan(k, x), y)
    decreases |x|
  {
    if x == [] {
      assert x + y == y;
    } else {
      assert (x + y)[0] == x[0] && (x + y)[1..] == x[1..] + y;
      PlanSplits(ApplyOp(k, x[0]), x[1..], y);
    }
  }

  lemma AfterOneMore(k: Keyring, ops: seq<PlanOp>, i: nat)
    requires i < |ops|
    ensures After(k, ops, i + 1) == ApplyOp(After(k, ops, i), ops[i])
  {
    assert ops[..i + 1] == ops[..i] + [ops[i]];
    PlanSplits(k, ops[..i], [ops[i]]);
    assert ApplyPlan(After(k, ops, i), [ops[i]]) == ApplyPlan(ApplyOp(After(k, ops, i), ops[i]), []);
  }

  /** `stored` takes back the first stores, one by one. */
  ghost predicate TakesBack(k: Keyring, stores: seq<PlanOp>, stored: seq<PlanOp>) {
    && |stored| <= |stores|
    && forall i | 0 <= i < |stored| ::
         stores[i].Put? && stored[i] == Inverse(After(k, stores, i), stores[i])
  }

  lemma InverseUndoes(k: Keyring, op: PlanOp)
    requires op.Put?
    ensures ApplyOp(ApplyOp(k, op), Inverse(k, op)) == k
    ensures Inverse(k, op).account == op.account
  {
  }

  lemma RealOfApply(k: Keyring, op: PlanOp)
    ensures RealPart(ApplyOp(k, op)) == ApplyOp(RealPart(k), op)
    ensures Inverse(k, op) == Inverse(RealPart(k), op)
    ensures forall s: Slot | s.Backup? :: Agree(ApplyOp(k, op), k, s)
  {
  }

  /** One stored account put back. */
  lemma TakeOneBack(k: Keyring, base: Keyring, stores: seq<PlanOp>, stored: seq<PlanOp>, i: nat)
    requires TakesBack(base, stores, stored) && 0 < i <= |stored| && RealPart(k) == After(base, stores, i)
    ensures RealPart(ApplyOp(k, stored[i - 1])) == After(base, stores, i - 1)
    ensures stored[i - 1].account == stores[i - 1].account
    ensures Real(stores[i - 1].account) in k
  {
    AfterOneMore(base, stores, i - 1);
    InverseUndoes(After(base, stores, i - 1), stores[i - 1]);
    RealOfApply(k, stored[i - 1]);
    assert Real(stores[i - 1].account) in RealPart(k);
  }

  // ---------------------------------------------------------------- following the plan

  function Base(v: Vault, deletes: seq<PlanOp>): Keyring {
    ApplyPlan(v.secrets, deletes)
  }

  /** How far the plan has got, and that what it stored can be taken back. */
  ghost predicate Follows(
    d: Durable, tx: Tx, stored: seq<PlanOp>, v: Vault, deletes: seq<PlanOp>, stores: seq<PlanOp>)
  {
    var plan := deletes + stores;
    && |tx.plan| <= |plan|
    && var x := |plan| - |tx.plan|;
       && tx.plan == plan[x..] && RealPart(d.keyring) == After(v.secrets, plan, x)
       && |stored| == (if x < |deletes| then 0 else x - |deletes|)
       && TakesBack(Base(v, deletes), stores, stored)
  }

  lemma AfterDeletes(v: Vault, deletes: seq<PlanOp>, stores: seq<PlanOp>, i: nat)
    requires i <= |stores|
    ensures After(v.secrets, deletes + stores, |deletes| + i) == After(Base(v, deletes), stores, i)
  {
    assert (deletes + stores)[..|deletes| + i] == deletes + stores[..i];
    PlanSplits(v.secrets, deletes, stores[..i]);
  }

  /** The head of the plan is done: its store, if it is one, can be taken back. */
  lemma OneOperationOn(
    d: Durable, tx: Tx, stored: seq<PlanOp>, k': Keyring, v: Vault, deletes: seq<PlanOp>, stores: seq<PlanOp>)
    requires Follows(d, tx, stored, v, deletes, stores) && Shape(deletes, stores) && tx.plan != []
    requires RealPart(k') == ApplyOp(RealPart(d.keyring), tx.plan[0])
    ensures var stored' := if tx.plan[0].Put? then stored + [Inverse(d.keyring, tx.plan[0])] else stored;
            Follows(d.(keyring := k'), tx.(plan := tx.plan[1..]), stored', v, deletes, stores)
  {
    var plan, op := deletes + stores, tx.plan[0];
    var x := |plan| - |tx.plan|;
    assert op == plan[x] && tx.plan[1..] == plan[x + 1..];
    AfterOneMore(v.secrets, plan, x);
    if x < |deletes| {
      assert plan[x] == deletes[x] && op in deletes;
    } else {
      assert plan[x] == stores[x - |deletes|] && op in stores;
      AfterDeletes(v, deletes, stores, x - |deletes|);
      RealOfApply(d.keyring, op);
    }
  }

  lemma NothingToRemove(k: Keyring, op: PlanOp)
    requires op.Remove? && Real(op.account) !in k
    ensures ApplyOp(RealPart(k), op) == RealPart(k)
  {
  }

  lemma FollowsOnlyPlan(
    d: Durable, d': Durable, tx: Tx, tx': Tx, stored: seq<PlanOp>, v: Vault, deletes: seq<PlanOp>, stores: seq<PlanOp>)
    requires Follows(d, tx, stored, v, deletes, stores)
    requires tx'.plan == tx.plan && RealPart(d'.keyring) == RealPart(d.keyring)
    ensures Follows(d', tx', stored, v, deletes, stores)
  {
  }

  /** An operation that succeeds before the profile write: the plan is followed. */
  lemma FollowsOn(s: HandState, v: Vault, deletes: seq<PlanOp>, stores: seq<PlanOp>)
    requires s.pc.Plain? && L.BeforeWrite(s.pc.pc) && Inv(State(s.d, s.pc.pc), v) && Shape(deletes, stores)
    requires Follows(s.d, s.pc.pc.tx, s.stored, v, deletes, stores)
    ensures var s' := HandStep(s, Done);
            && s'.pc.Plain? && HasTx(s'.pc.pc) && !s'.pc.pc.Undo?
            && Follows(s'.d, s'.pc.pc.tx, s'.stored, v, deletes, stores)
  {
    var pc := s.pc.pc;
    if pc.Apply? || (pc.Next? && pc.tx.plan != [] && Skips(s.d.keyring, pc.tx.plan[0])) {
      FollowsOperation(s, v, deletes, stores);
    } else {
      FollowsIdle(s, v, deletes, stores);
    }
  }

  predicate Skips(k: Keyring, op: PlanOp) {
    op.Remove? && Real(op.account) !in k
  }

  lemma FollowsOperation(s: HandState, v: Vault, deletes: seq<PlanOp>, stores: seq<PlanOp>)
    requires s.pc.Plain? && Inv(State(s.d, s.pc.pc), v) && Shape(deletes, stores)
    requires s.pc.pc.Apply? || (s.pc.pc.Next? && s.pc.pc.tx.plan != [] && Skips(s.d.keyring, s.pc.pc.tx.plan[0]))
    requires Follows(s.d, s.pc.pc.tx, s.stored, v, deletes, stores)
    ensures var s' := HandStep(s, Done);
            && s'.pc.Plain? && s'.pc.pc.Next?
            && Follows(s'.d, s'.pc.pc.tx, s'.stored, v, deletes, stores)
  {
    var tx := s.pc.pc.tx;
    var op := tx.plan[0];
    if s.pc.pc.Apply? {
      RealOfApply(s.d.keyring, op);
      OneOperationOn(s.d, tx, s.stored, ApplyOp(s.d.keyring, op), v, deletes, stores);
    } else {
      NothingToRemove(s.d.keyring, op);
      OneOperationOn(s.d, tx, s.stored, s.d.keyring, v, deletes, stores);
    }
  }

  lemma IdleStep(s: HandState)
    requires s.pc.Plain? && L.BeforeWrite(s.pc.pc) && !s.pc.pc.Apply?
    requires !(s.pc.pc.Next? && s.pc.pc.tx.plan != [] && Skips(s.d.keyring, s.pc.pc.tx.plan[0]))
    ensures var s' := HandStep(s, Done);
            && s'.pc.Plain? && HasTx(s'.pc.pc) && !s'.pc.pc.Undo? && s'.stored == s.stored
            && s'.pc.pc.tx.plan == s.pc.pc.tx.plan && RealPart(s'.d.keyring) == RealPart(s.d.keyring)
  {
  }

  lemma FollowsIdle(s: HandState, v: Vault, deletes: seq<PlanOp>, stores: seq<PlanOp>)
    requires s.pc.Plain? && L.BeforeWrite(s.pc.pc) && !s.pc.pc.Apply?
    requires !(s.pc.pc.Next? && s.pc.pc.tx.plan != [] && Skips(s.d.keyring, s.pc.pc.tx.plan[0]))
    requires Follows(s.d, s.pc.pc.tx, s.stored, v, deletes, stores)
    ensures var s' := HandStep(s, Done);
            && s'.pc.Plain? && HasTx(s'.pc.pc) && !s'.pc.pc.Undo? && s'.stored == s.stored
            && Follows(s'.d, s'.pc.pc.tx, s'.stored, v, deletes, stores)
  {
    var s' := HandStep(s, Done);
    IdleStep(s);
    FollowsOnlyPlan(s.d, s'.d, s.pc.pc.tx, s'.pc.pc.tx, s.stored, v, deletes, stores);
  }

  lemma FollowsFromStart(v: Vault, txn: nat, deletes: seq<PlanOp>, stores: seq<PlanOp>, body: string)
    requires IsVault(v)
    ensures var b := HandBegin(v, txn, deletes, stores, body);
            Follows(b.d, b.pc.pc.tx, b.stored, v, deletes, stores)
  {
    var plan := deletes + stores;
    assert RealPart(v.secrets) == v.secrets;
    assert plan[0..] == plan && plan[..0] == [];
    assert TakesBack(Base(v, deletes), stores, []);
  }
}
