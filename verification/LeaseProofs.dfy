/** Rotation safety and the composition of leases with journaled transactions. */
module LeaseProofs {
  import opened Common
  import opened AuthJournal
  import opened JournalMachine
  import opened JournalProofs
  import CrashAtomicity
  import opened LeaseSystem

  lemma AcquireEvent(w: World, a: Accounts, p: nat, job: Job, v: Vault, stale: bool, shown: bool)
    requires WorldInv(w, a, v, stale, shown) && !job.SaveByHand?
    ensures WorldInv(OnAcquire(w, p, job), a, v, stale, shown)
  {
  }

  lemma RecoveryMicroStep(s: State, o: Outcome, v: Vault)
    requires Inv(s, v) && CrashAtomicity.Recovering(s.pc) && !LateRollback(s, Step(s, o))
    ensures Inv(Step(s, o), v) && CrashAtomicity.Recovering(Step(s, o).pc)
  {
    StepKeepsVault(s, o, v);
  }

  /** A drained journal: the lock holder goes on, from exactly the vault. */
  lemma RecoveryDone(w: World, a: Accounts, p: nat, job: Job, verdict: Verdict, v: Vault, stale: bool, shown: bool)
    requires IsVault(v) && a.refresh != a.access && w.provider.live !! w.provider.spent
    requires OneHolder(w) && LogOk(w, shown) && w.lock == Some(p)
    requires Pending(w.d, v) && (verdict.Success? ==> w.d == Settled(v))
    requires Tracked(w, a, v, stale) && !job.SaveByHand?
    ensures WorldInv(AfterRecovery(w, p, job, verdict), a, v, stale, shown)
  {
    if verdict.Success? && job.Save? {
      assert RealPart(v.secrets) == v.secrets;
      CrashAtomicity.BeginIsOk(v, job.txn, job.plan, job.body);
    }
  }

  lemma RecoveryTick(w: World, a: Accounts, p: nat, o: Outcome, v: Vault, stale: bool, shown: bool)
    requires WorldInv(w, a, v, stale, shown) && At(w, p).Recovering? && !LateEvent(w, Tick(p, o))
    ensures WorldInv(OnTick(w, p, o), a, v, stale, shown)
  {
    var job, pc := At(w, p).job, At(w, p).pc;
    var s := State(w.d, pc);
    assert w.lock == Some(p);
    RecoveryMicroStep(s, o, v);
    var s' := Step(s, o);
    var w' := w.(d := s'.d);
    if s'.pc.Stopped? {
      RecoveryDone(w', a, p, job, s'.pc.verdict, v, stale, shown);
    } else {
      assert HolderOk(w', a, Recovering(job, s'.pc), v, stale);
    }
  }

  lemma WritingTick(w: World, a: Accounts, p: nat, o: Outcome, v: Vault, stale: bool, shown: bool)
    requires WorldInv(w, a, v, stale, shown) && At(w, p).Writing? && !LateEvent(w, Tick(p, o))
    ensures var e := Tick(p, o);
            WorldInv(OnTick(w, p, o), a, VaultAfterEvent(w, a, e, v), StaleAfter(w, a, e, stale), shown)
  {
    var s := State(w.d, At(w, p).pc);
    assert w.lock == Some(p);
    StepKeepsVault(s, o, v);
    StaysWriting(s, o);
  }

  lemma StaysWriting(s: State, o: Outcome)
    requires !CrashAtomicity.Recovering(s.pc)
    ensures CrashAtomicity.Recovering(Step(s, o).pc) ==> Step(s, o).pc.Stopped?
  {
  }

  lemma LoadEvent(w: World, a: Accounts, p: nat, usable: bool, v: Vault, stale: bool, shown: bool)
    requires WorldInv(w, a, v, stale, shown)
    ensures WorldInv(OnLoad(w, a, p, usable), a, v, stale, shown)
  {
  }

  lemma ExchangeEvent(w: World, a: Accounts, p: nat, answer: Answer, v: Vault, stale: bool, shown: bool)
    requires WorldInv(w, a, v, stale, shown)
    ensures WorldInv(OnExchange(w, p, answer), a, v, stale, shown || (stale && Presents(w, Exchange(p, answer))))
  {
    if At(w, p).Leased? && !answer.Unreachable? {
      var t := At(w, p).token;
      assert w.lock == Some(p);
      LogGrows(w, t, answer.rotatedTo, stale, shown);
    }
  }

  /** One more presentation: superseded, in a clean history, just when `stale` says so. */
  lemma LogGrows(w: World, t: string, rotatedTo: Option<string>, stale: bool, shown: bool)
    requires LogOk(w, shown) && w.provider.live !! w.provider.spent
    requires w.clean ==> (stale <==> Superseded(w.provider, t))
    ensures var entry := Presentation(t, Superseded(w.provider, t), Rotates(w.provider, t, rotatedTo));
            var w' := w.(provider := Rotate(w.provider, t, rotatedTo), log := w.log + [entry]);
            LogOk(w', shown || stale) && w'.provider.live !! w'.provider.spent
  {
    var entry := Presentation(t, Superseded(w.provider, t), Rotates(w.provider, t, rotatedTo));
    var log' := w.log + [entry];
    assert ShowsSuperseded(log') <==> ShowsSuperseded(w.log) || entry.superseded by {
      if ShowsSuperseded(w.log) {
        var i :| 0 <= i < |w.log| && w.log[i].superseded;
        assert log'[i].superseded;
      }
      if entry.superseded { assert log'[|w.log|].superseded; }
    }
  }

  lemma CommitRefreshEvent(w: World, a: Accounts, p: nat, o: Outcome, v: Vault, stale: bool, shown: bool)
    requires WorldInv(w, a, v, stale, shown)
    ensures WorldInv(OnCommitRefresh(w, a, p, o), a, VaultAfterEvent(w, a, CommitRefresh(p, o), v), stale, shown)
  {
  }

  lemma CommitAccessEvent(w: World, a: Accounts, p: nat, o: Outcome, v: Vault, stale: bool, shown: bool)
    requires WorldInv(w, a, v, stale, shown)
    ensures WorldInv(OnCommitAccess(w, a, p, o), a, VaultAfterEvent(w, a, CommitAccess(p, o), v), stale, shown)
  {
  }

  lemma DieEvent(w: World, a: Accounts, p: nat, v: Vault, stale: bool, shown: bool)
    requires WorldInv(w, a, v, stale, shown)
    ensures WorldInv(OnDie(w, p), a, v, stale, shown)
  {
  }

  lemma GrantEvent(w: World, a: Accounts, token: string, v: Vault, stale: bool, shown: bool)
    requires WorldInv(w, a, v, stale, shown)
    ensures WorldInv(OnGrant(w, token), a, v, stale, shown)
  {
  }

  predicate ShownAfter(w: World, e: Event, stale: bool, shown: bool) {
    shown || (stale && Presents(w, e))
  }

  /**
  Whatever happens next, the durable state stands for the one expected vault,
  and it is known whether its refresh token is superseded.
  */
  lemma EventKeepsWorld(w: World, a: Accounts, e: Event, v: Vault, stale: bool, shown: bool)
    requires WorldInv(w, a, v, stale, shown) && !LateEvent(w, e) && !BeginsByHand(e)
    ensures WorldInv(LeaseSystem.Next(w, a, e), a, VaultAfterEvent(w, a, e, v),
                     StaleAfter(w, a, e, stale), ShownAfter(w, e, stale, shown))
  {
    match e
    case Acquire(p, job) => AcquireEvent(w, a, p, job, v, stale, shown);
    case Tick(p, o) =>
      if At(w, p).Recovering? { RecoveryTick(w, a, p, o, v, stale, shown); }
      else if At(w, p).Writing? { WritingTick(w, a, p, o, v, stale, shown); }
    case Load(p, usable) => LoadEvent(w, a, p, usable, v, stale, shown);
    case Exchange(p, answer) => ExchangeEvent(w, a, p, answer, v, stale, shown);
    case CommitRefresh(p, o) => CommitRefreshEvent(w, a, p, o, v, stale, shown);
    case CommitAccess(p, o) => CommitAccessEvent(w, a, p, o, v, stale, shown);
    case Die(p) => DieEvent(w, a, p, v, stale, shown);
    case Grant(token) => GrantEvent(w, a, token, v, stale, shown);
  }

  ghost function VaultAfterHistory(w: World, a: Accounts, es: seq<Event>, v: Vault): Vault
    decreases |es|
  {
    if es == [] then v
    else VaultAfterHistory(LeaseSystem.Next(w, a, es[0]), a, es[1..], VaultAfterEvent(w, a, es[0], v))
  }

  lemma {:induction false} HistoryKeepsWorld(
    w: World, a: Accounts, es: seq<Event>, v: Vault, stale: bool, shown: bool) returns (stale': bool)
    requires WorldInv(w, a, v, stale, shown) && NoLateEvent(w, a, es) && NoneByHand(es)
    ensures WorldInv(History(w, a, es), a, VaultAfterHistory(w, a, es, v), stale',
                     shown || LeasesStaleSave(w, a, es, stale))
    decreases |es|
  {
    if es == [] {
      stale' := stale;
    } else {
      var e := es[0];
      assert e in es && forall x | x in es[1..] :: x in es;
      EventKeepsWorld(w, a, e, v, stale, shown);
      stale' := HistoryKeepsWorld(LeaseSystem.Next(w, a, e), a, es[1..], VaultAfterEvent(w, a, e, v),
                                  StaleAfter(w, a, e, stale), ShownAfter(w, e, stale, shown));
    }
  }

  /** Every process idle, nothing recorded, the stored token not superseded. */
  ghost predicate Initial(w: World, a: Accounts, v: Vault) {
    && IsVault(v) && a.refresh != a.access
    && w.d == Settled(v) && w.lock.None? && w.log == [] && w.clean
    && (forall p | 0 <= p < |w.procs| :: w.procs[p].Idle?)
    && w.provider.live !! w.provider.spent
    && !StaleToken(a, w.provider, v.secrets)
  }

  // ------------------------------------------------------------ rotation safety

  /** No superseded token was presented, and none was presented again after its rotation. */
  predicate Safe(log: seq<Presentation>) {
    && !ShowsSuperseded(log)
    && forall i, j | 0 <= i < j < |log| && log[i].rotated :: log[j].token != log[i].token
  }

  /**
  Rotation safety, exactly, in histories without a late rollback or a rollback by
  hand: as long as no rotated token was lost between its issue and its store, the
  leases are safe exactly when none of them presents what a committed save of a
  superseded token left. What holds of all histories is in `EveryHistory`.
  */
  lemma RotationSafeExactlyWhen(w: World, a: Accounts, v: Vault, es: seq<Event>)
    requires Initial(w, a, v) && NoLateEvent(w, a, es) && NoneByHand(es)
    ensures History(w, a, es).clean ==>
              (Safe(History(w, a, es).log) <==> !LeasesStaleSave(w, a, es, false))
  {
    var stale' := HistoryKeepsWorld(w, a, es, v, false, false);
  }

  lemma {:induction false} NoStaleSaveIsLeased(w: World, a: Accounts, es: seq<Event>)
    requires NoStaleSave(w, a, es)
    ensures !LeasesStaleSave(w, a, es, false)
    decreases |es|
  {
    if es != [] { NoStaleSaveIsLeased(LeaseSystem.Next(w, a, es[0]), a, es[1..]); }
  }

  /** In such histories it is enough that every save that takes effect leaves a token not superseded by then. */
  lemma SafeWithoutStaleSave(w: World, a: Accounts, v: Vault, es: seq<Event>)
    requires Initial(w, a, v) && NoLateEvent(w, a, es) && NoneByHand(es) && NoStaleSave(w, a, es)
    ensures History(w, a, es).clean ==> Safe(History(w, a, es).log)
  {
    NoStaleSaveIsLeased(w, a, es);
    RotationSafeExactlyWhen(w, a, v, es);
  }

  lemma OneHolderTick(w: World, p: nat, o: Outcome)
    requires OneHolder(w)
    ensures OneHolder(OnTick(w, p, o))
  {
    var proc, w' := At(w, p), OnTick(w, p, o);
    if proc.Recovering? || proc.Writing? || proc.ByHand? {
      assert w.lock == Some(p);
      assert w'.lock == (if w'.procs[p].Idle? then None else Some(p));
      assert forall q | 0 <= q < |w.procs| && q != p :: w'.procs[q] == w.procs[q];
    }
  }

  lemma OneHolderLease(w: World, a: Accounts, e: Event)
    requires OneHolder(w) && (e.Load? || e.Exchange? || e.CommitRefresh? || e.CommitAccess?)
    ensures OneHolder(LeaseSystem.Next(w, a, e))
  {
    var w' := LeaseSystem.Next(w, a, e);
    if !At(w, e.p).Idle? {
      assert w.lock == Some(e.p);
      assert forall q | 0 <= q < |w.procs| && q != e.p :: w'.procs[q] == w.procs[q];
    }
  }

  lemma OneHolderStays(w: World, a: Accounts, e: Event)
    requires OneHolder(w)
    ensures OneHolder(LeaseSystem.Next(w, a, e))
  {
    match e
    case Acquire(p, job) => assert OneHolder(OnAcquire(w, p, job));
    case Tick(p, o) => OneHolderTick(w, p, o);
    case Die(p) => assert OneHolder(OnDie(w, p));
    case Grant(token) => assert OneHolder(OnGrant(w, token));
    case _ => OneHolderLease(w, a, e);
  }

  lemma {:induction false} OneHolderAlways(w: World, a: Accounts, es: seq<Event>)
    requires OneHolder(w)
    ensures OneHolder(History(w, a, es))
    decreases |es|
  {
    if es != [] {
      OneHolderStays(w, a, es[0]);
      OneHolderAlways(LeaseSystem.Next(w, a, es[0]), a, es[1..]);
    }
  }

  /**
  In every history at most one process is past the lock. In those without a late
  rollback or a rollback by hand, an idle lock leaves exactly one vault to recover.
  */
  lemma JournalAndLeaseCompose(w: World, a: Accounts, v: Vault, es: seq<Event>)
    requires Initial(w, a, v)
    ensures var w', v' := History(w, a, es), VaultAfterHistory(w, a, es, v);
            && (forall p, q | 0 <= p < |w'.procs| && 0 <= q < |w'.procs| ::
                  !w'.procs[p].Idle? && !w'.procs[q].Idle? ==> p == q)
            && (NoLateEvent(w, a, es) && NoneByHand(es) && w'.lock.None? ==>
                  Pending(w'.d, v') && Meaning(w'.d) == Some(v'))
  {
    OneHolderAlways(w, a, es);
    if NoLateEvent(w, a, es) && NoneByHand(es) {
      var stale' := HistoryKeepsWorld(w, a, es, v, false, false);
      if History(w, a, es).lock.None? {
        PendingHasOneMeaning(History(w, a, es).d, VaultAfterHistory(w, a, es, v));
      }
    }
  }

  /** A save takes effect, or a lease stores a replacement, in this event. */
  predicate StoresRefreshToken(w: World, e: Event) {
    || CommitsSave(w, e)
    || (e.CommitRefresh? && At(w, e.p).Exchanged? && At(w, e.p).replacement.Some? && Applied(e.o))
  }

  predicate NoStore(w: World, a: Accounts, es: seq<Event>)
    decreases |es|
  {
    es == [] || (!StoresRefreshToken(w, es[0]) && NoStore(LeaseSystem.Next(w, a, es[0]), a, es[1..]))
  }

  /**
  A committed token stays committed: recoveries that can read the profile,
  rollbacks, crashes and saves that do not take effect leave the refresh token
  that recovery would produce alone.
  */
  lemma {:induction false} CommittedTokenStays(
    w: World, a: Accounts, es: seq<Event>, v: Vault, stale: bool, shown: bool)
    requires WorldInv(w, a, v, stale, shown) && NoLateEvent(w, a, es) && NoneByHand(es) && NoStore(w, a, es)
    ensures Agree(VaultAfterHistory(w, a, es, v).secrets, v.secrets, RefreshSlot(a))
    decreases |es|
  {
    if es != [] {
      var e := es[0];
      assert e in es && forall x | x in es[1..] :: x in es;
      EventKeepsWorld(w, a, e, v, stale, shown);
      var v1 := VaultAfterEvent(w, a, e, v);
      assert Agree(v1.secrets, v.secrets, RefreshSlot(a));
      CommittedTokenStays(LeaseSystem.Next(w, a, e), a, es[1..], v1,
                          StaleAfter(w, a, e, stale), ShownAfter(w, e, stale, shown));
    }
  }

  // ------------------------------------------------------------ what callers can see to

  /**
  Conditions on single events: the profile write fails only before its rename,
  a recovery can read the profile, and a save changes the profile's text.
  */
  predicate Careful(w: World, e: Event) {
    e.Tick? ==>
      && (At(w, e.p).Writing? && At(w, e.p).pc.WriteProfile? ==> e.o != Error(true))
      && (At(w, e.p).Recovering? && At(w, e.p).pc.RecProfile? ==> !e.o.Error?)
      && (At(w, e.p).Recovering? && At(w, e.p).job.Save? ==> w.d.profile != Some(At(w, e.p).job.body))
  }

  predicate AllCareful(w: World, a: Accounts, es: seq<Event>)
    decreases |es|
  {
    es == [] || (Careful(w, es[0]) && AllCareful(LeaseSystem.Next(w, a, es[0]), a, es[1..]))
  }

  /** Up to its rename a writer has not yet written its text. */
  predicate TextIsNew(w: World) {
    forall p | 0 <= p < |w.procs| && w.procs[p].Writing? :: NotYetWritten(w.d, w.procs[p].pc)
  }

  predicate NotYetWritten(d: Durable, pc: Pc) {
    CrashAtomicity.HasTx(pc) && !pc.CommitClean? && !pc.Undo? && !pc.UndoMark? && !pc.UndoClean? ==>
      d.profile != Some(pc.tx.body)
  }

  lemma CarefulEvent(w: World, a: Accounts, e: Event, v: Vault, stale: bool, shown: bool)
    requires WorldInv(w, a, v, stale, shown) && TextIsNew(w) && Careful(w, e)
    ensures !LateEvent(w, e) && TextIsNew(LeaseSystem.Next(w, a, e))
  {
    if e.Tick? && (At(w, e.p).Writing? || At(w, e.p).Recovering?) {
      assert w.lock == Some(e.p);
      CarefulTick(w, a, e, v, stale, shown);
    } else {
      NobodyByHand(w, a, v, stale, shown);
      OthersKeepText(w, a, e);
    }
  }

  lemma NobodyByHand(w: World, a: Accounts, v: Vault, stale: bool, shown: bool)
    requires WorldInv(w, a, v, stale, shown)
    ensures forall p: nat :: !At(w, p).ByHand?
  {
    forall p: nat ensures !At(w, p).ByHand? {
      assert At(w, p).Idle? || w.lock == Some(p);
    }
  }

  predicate MovesJournal(w: World, e: Event) {
    e.Tick? && (At(w, e.p).Writing? || At(w, e.p).Recovering? || At(w, e.p).ByHand?)
  }

  /** Only the journal's own steps move a writer or the profile. */
  lemma OthersKeepText(w: World, a: Accounts, e: Event)
    requires TextIsNew(w) && !MovesJournal(w, e)
    ensures TextIsNew(LeaseSystem.Next(w, a, e))
  {
    var w' := LeaseSystem.Next(w, a, e);
    forall p | 0 <= p < |w'.procs| && w'.procs[p].Writing? ensures NotYetWritten(w'.d, w'.procs[p].pc) {
      NoneStartsToWrite(w, a, e, p);
    }
  }

  lemma NoneStartsToWrite(w: World, a: Accounts, e: Event, p: nat)
    requires !MovesJournal(w, e)
    requires At(LeaseSystem.Next(w, a, e), p).Writing?
    ensures At(w, p) == At(LeaseSystem.Next(w, a, e), p)
    ensures LeaseSystem.Next(w, a, e).d.profile == w.d.profile
  {
  }

  lemma CarefulTick(w: World, a: Accounts, e: Event, v: Vault, stale: bool, shown: bool)
    requires WorldInv(w, a, v, stale, shown) && TextIsNew(w) && Careful(w, e)
    requires e.Tick? && (At(w, e.p).Writing? || At(w, e.p).Recovering?) && w.lock == Some(e.p)
    ensures !LateEvent(w, e) && TextIsNew(OnTick(w, e.p, e.o))
  {
    var s := State(w.d, At(w, e.p).pc);
    if At(w, e.p).Writing? {
      assert NotYetWritten(w.d, s.pc);
      CarefulWrite(s, e.o, v);
    } else {
      CarefulRecovery(s, e.o, v);
    }
  }

  lemma CarefulWrite(s: State, o: Outcome, v: Vault)
    requires Inv(s, v) && !CrashAtomicity.Recovering(s.pc) && NotYetWritten(s.d, s.pc)
    requires s.pc.WriteProfile? ==> o != Error(true)
    ensures !LateRollback(s, Step(s, o)) && NotYetWritten(Step(s, o).d, Step(s, o).pc)
  {
  }

  lemma CarefulRecovery(s: State, o: Outcome, v: Vault)
    requires Inv(s, v) && CrashAtomicity.Recovering(s.pc)
    requires s.pc.RecProfile? ==> !o.Error?
    ensures !LateRollback(s, Step(s, o)) && Step(s, o).d.profile == s.d.profile
  {
  }

  /** Histories of such events have no late rollback, so every theorem here applies to them. */
  lemma {:induction false} CarefulIsNeverLate(
    w: World, a: Accounts, es: seq<Event>, v: Vault, stale: bool, shown: bool)
    requires WorldInv(w, a, v, stale, shown) && TextIsNew(w) && AllCareful(w, a, es) && NoneByHand(es)
    ensures NoLateEvent(w, a, es)
    decreases |es|
  {
    if es != [] {
      var e := es[0];
      assert e in es && forall x | x in es[1..] :: x in es;
      CarefulEvent(w, a, e, v, stale, shown);
      EventKeepsWorld(w, a, e, v, stale, shown);
      CarefulIsNeverLate(LeaseSystem.Next(w, a, e), a, es[1..], VaultAfterEvent(w, a, e, v),
                         StaleAfter(w, a, e, stale), ShownAfter(w, e, stale, shown));
    }
  }
}
