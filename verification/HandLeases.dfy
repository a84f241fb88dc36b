/** What a rollback by hand that is cut short does to every other process. */
module HandLeases {
  import opened Common
  import opened AuthJournal
  import opened JournalMachine
  import opened HandRollback
  import opened HandFailures
  import opened LeaseSystem
  import B = BlindRecovery
  import R = LeaseRuns

  // ---------------------------------------------------------------- nobody gets past the gap

  /** A recovery that has not yet come to the missing backup. */
  predicate BeforeGap(d: Durable, pc: Pc)
    requires d.journal.Some?
  {
    var j := d.journal.value;
    || pc.RecRead?
    || pc == RecProfile(j)
    || (pc.RecRestore? && pc.j == j && pc.i <= |j.changes| && B.BackupGone(d.keyring, j.txn, j.changes[..pc.i]))
  }

  predicate Blocked(w: World) {
    && HasGap(w.d)
    && forall p | 0 <= p < |w.procs| && !w.procs[p].Idle? ::
         w.procs[p].Recovering? && w.lock == Some(p) && BeforeGap(w.d, w.procs[p].pc)
  }

  lemma GapStays(k: Keyring, txn: nat, c: Change, cs: seq<Change>)
    requires B.BackupGone(k, txn, cs) && RestoreOne(k, txn, c).Some?
    ensures B.BackupGone(RestoreOne(k, txn, c).value, txn, cs)
  {
    var e :| e in cs && RestoreOne(k, txn, e).None?;
    B.GoneStaysGone(k, txn, c, e);
  }

  lemma GapIsEarlier(k: Keyring, txn: nat, cs: seq<Change>, i: nat)
    requires 0 < i <= |cs| && B.BackupGone(k, txn, cs[..i]) && RestoreOne(k, txn, cs[i - 1]).Some?
    ensures B.BackupGone(RestoreOne(k, txn, cs[i - 1]).value, txn, cs[..i - 1])
  {
    var e :| e in cs[..i] && RestoreOne(k, txn, e).None?;
    B.GoneStaysGone(k, txn, cs[i - 1], e);
    assert cs[..i] == cs[..i - 1] + [cs[i - 1]];
  }

  lemma RecoveryIsStuck(d: Durable, pc: Pc, o: Outcome)
    requires HasGap(d) && BeforeGap(d, pc)
    ensures var s := Step(State(d, pc), o);
            && HasGap(s.d) && s.pc != Stopped(Success)
            && (!s.pc.Stopped? ==> BeforeGap(s.d, s.pc))
  {
    var j := d.journal.value;
    assert j.changes[..|j.changes|] == j.changes;
    if pc.RecRestore? && pc.i > 0 && RestoreOne(d.keyring, j.txn, j.changes[pc.i - 1]).Some? {
      GapStays(d.keyring, j.txn, j.changes[pc.i - 1], j.changes);
      GapIsEarlier(d.keyring, j.txn, j.changes, pc.i);
    }
  }

  lemma EventStaysBlocked(w: World, a: Accounts, e: Event)
    requires Blocked(w)
    ensures Blocked(LeaseSystem.Next(w, a, e)) && LeaseSystem.Next(w, a, e).log == w.log
  {
    if e.Tick? && At(w, e.p).Recovering? { RecoveryIsStuck(w.d, At(w, e.p).pc, e.o); }
  }

  lemma {:induction false} StaysBlocked(w: World, a: Accounts, es: seq<Event>)
    requires Blocked(w)
    ensures Blocked(History(w, a, es)) && History(w, a, es).log == w.log
    decreases |es|
  {
    if es != [] {
      EventStaysBlocked(w, a, es[0]);
      StaysBlocked(LeaseSystem.Next(w, a, es[0]), a, es[1..]);
    }
  }

  // ---------------------------------------------------------------- how it comes to that

  function HandTicks(p: nat, os: seq<Outcome>): seq<Event>
    decreases |os|
  {
    if os == [] then [] else [Tick(p, os[0])] + HandTicks(p, os[1..])
  }

  /** The system when the writer that process `p` runs has come to `s`. */
  function WorldAt(w: World, p: nat, s: HandState): World {
    if HandEnded(s.pc) then Release(w.(d := s.d), p)
    else Move(w, p, ByHand(s.pc, s.stored)).(d := s.d, lock := Some(p))
  }

  lemma {:induction false} EndedStays(s: HandState, os: seq<Outcome>)
    requires HandEnded(s.pc)
    ensures HandRun(s, os) == s
    decreases |os|
  {
    if os != [] { EndedStays(HandStep(s, os[0]), os[1..]); }
  }

  lemma {:induction false} IdleTicks(w: World, a: Accounts, p: nat, os: seq<Outcome>)
    requires At(w, p).Idle?
    ensures History(w, a, HandTicks(p, os)) == w
    decreases |os|
  {
    if os != [] {
      assert HandTicks(p, os)[1..] == HandTicks(p, os[1..]);
      IdleTicks(w, a, p, os[1..]);
    }
  }

  lemma {:induction false} HandTicksFollow(w: World, a: Accounts, p: nat, s: HandState, os: seq<Outcome>)
    requires p < |w.procs| && !HandEnded(s.pc)
    ensures History(WorldAt(w, p, s), a, HandTicks(p, os)) == WorldAt(w, p, HandRun(s, os))
    decreases |os|
  {
    if os != [] {
      var s1 := HandStep(s, os[0]);
      assert HandTicks(p, os)[1..] == HandTicks(p, os[1..]);
      TickFollows(w, a, p, s, os[0]);
      if HandEnded(s1.pc) {
        EndedStays(s1, os[1..]);
        IdleTicks(WorldAt(w, p, s1), a, p, os[1..]);
      } else {
        HandTicksFollow(w, a, p, s1, os[1..]);
      }
    }
  }

  lemma TickFollows(w: World, a: Accounts, p: nat, s: HandState, o: Outcome)
    requires p < |w.procs| && !HandEnded(s.pc)
    ensures LeaseSystem.Next(WorldAt(w, p, s), a, Tick(p, o)) == WorldAt(w, p, HandStep(s, o))
  {
    var s1 := HandStep(s, o);
    var here := ByHand(s.pc, s.stored);
    assert At(WorldAt(w, p, s), p) == here;
    assert w.procs[p := here][p := ByHand(s1.pc, s1.stored)] == w.procs[p := ByHand(s1.pc, s1.stored)];
    assert w.procs[p := here][p := Idle] == w.procs[p := Idle];
  }

  /** The save begins: an empty recovery, and the writer at the head of its plan. */
  lemma HandSaveBegins(
    w: World, a: Accounts, p: nat, v: Vault, txn: nat, deletes: seq<PlanOp>, stores: seq<PlanOp>, body: string)
    requires R.AtRest(w, a, v) && p < |w.procs|
    ensures History(w, a, [Acquire(p, SaveByHand(txn, deletes + stores, body)), Tick(p, Done)])
              == WorldAt(w, p, HandBegin(v, txn, deletes, stores, body))
  {
    var job := SaveByHand(txn, deletes + stores, body);
    var es := [Acquire(p, job), Tick(p, Done)];
    var w1 := LeaseSystem.Next(w, a, es[0]);
    assert At(w1, p) == Recovering(job, RecRead);
    assert es[1..] == [es[1]];
    R.Single(w1, a, es[1]);
    var b := HandBegin(v, txn, deletes, stores, body);
    assert w.procs[p := Recovering(job, RecRead)][p := ByHand(b.pc, b.stored)] == w.procs[p := ByHand(b.pc, b.stored)];
  }

  lemma DeathLeavesGap(w: World, a: Accounts, p: nat, s: HandState)
    requires p < |w.procs| && HasGap(s.d) && forall q | 0 <= q < |w.procs| :: w.procs[q].Idle?
    ensures var w' := LeaseSystem.Next(WorldAt(w, p, s), a, Die(p)); Blocked(w') && w'.log == w.log
  {
  }

  /**
  For every login or logout that deletes or overwrites an account with a value:
  it can fail in such a way that from then on, whatever happens, no process gets
  past recovery: nobody saves, and no lease is ever granted again.
  */
  lemma HandFailureBlocksEveryone(
    w: World, a: Accounts, p: nat, v: Vault,
    txn: nat, deletes: seq<PlanOp>, stores: seq<PlanOp>, body: string, op: PlanOp)
    returns (es: seq<Event>)
    requires R.AtRest(w, a, v) && p < |w.procs| && Shape(deletes, stores)
    requires op in deletes + stores && Real(op.account) in v.secrets
    ensures forall more ::
              var w' := History(w, a, es + more);
              && w'.log == w.log
              && forall q | 0 <= q < |w'.procs| :: w'.procs[q].Idle? || w'.procs[q].Recovering?
  {
    var b := HandBegin(v, txn, deletes, stores, body);
    var begin := [Acquire(p, SaveByHand(txn, deletes + stores, body)), Tick(p, Done)];
    var writer := AbortLeavesGap(v, txn, deletes, stores, body, op);
    var s := HandRun(b, writer);
    es := begin + (HandTicks(p, writer) + [Die(p)]);
    HandSaveBegins(w, a, p, v, txn, deletes, stores, body);
    HandTicksFollow(w, a, p, b, writer);
    R.HistorySplit(w, a, begin, HandTicks(p, writer) + [Die(p)]);
    R.HistorySplit(WorldAt(w, p, b), a, HandTicks(p, writer), [Die(p)]);
    R.Single(WorldAt(w, p, s), a, Die(p));
    DeathLeavesGap(w, a, p, s);
    forall more
      ensures var w' := History(w, a, es + more);
              && w'.log == w.log
              && forall q | 0 <= q < |w'.procs| :: w'.procs[q].Idle? || w'.procs[q].Recovering?
    {
      R.HistorySplit(w, a, es, more);
      StaysBlocked(History(w, a, es), a, more);
    }
  }
}
