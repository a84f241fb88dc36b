/**
What every history keeps: both kinds of saves, write errors before and after the
rename, interrupted rollbacks, and recoveries that cannot read the profile.
*/
module EveryHistory {
  import opened Common
  import opened AuthJournal
  import opened JournalMachine
  import opened JournalProofs
  import CrashAtomicity
  import A = AnyEnding
  import H = HandRollback
  import L = LateRollback
  import opened LeaseSystem
  import opened LeaseProofs
  import opened TokenValues

  /**
  Why the durable state is as demanded: every entry is that of one of two vaults
  that are, or every value that can come to stand under the account is.
  */
  datatype Evidence = Vaults(before: Vault, aim: Vault) | Values

  ghost predicate VaultMeets(q: Demand, a: Accounts, v: Vault) {
    IsVault(v) && Meets(q, Lookup(v.secrets, a.refresh))
  }

  ghost predicate Kept(q: Demand, a: Accounts, s: State, ev: Evidence) {
    match ev
    case Vaults(v, t) => VaultMeets(q, a, v) && VaultMeets(q, a, t) && A.Somewhere(s, v, t)
    case Values => Sound(q, a.refresh, s)
  }

  /** The vault of a state that no transaction is working on. */
  function Rest(d: Durable): Vault {
    Vault(d.keyring, d.profile)
  }

  ghost predicate Drained(q: Demand, a: Accounts, d: Durable) {
    d == Settled(Rest(d)) && VaultMeets(q, a, Rest(d))
  }

  // ---------------------------------------------------------------- recoveries

  lemma VaultsStep(q: Demand, a: Accounts, s: State, o: Outcome, v: Vault, t: Vault)
    requires Kept(q, a, s, Vaults(v, t))
    ensures Kept(q, a, Step(s, o), Vaults(v, t))
  {
    if A.CalmAt(s, v, t) { A.CalmStep(s, o, v, t); } else { A.LooseStep(s, o, v, t); }
  }

  lemma KeptStep(q: Demand, a: Accounts, s: State, o: Outcome, ev: Evidence)
    requires Kept(q, a, s, ev)
    ensures Kept(q, a, Step(s, o), ev)
  {
    match ev
    case Vaults(v, t) => VaultsStep(q, a, s, o, v, t);
    case Values => StepStaysSound(q, a.refresh, s, o);
  }

  /** A recovery can begin wherever one stopped. */
  lemma KeptBegins(q: Demand, a: Accounts, s: State, ev: Evidence)
    requires Kept(q, a, s, ev)
    ensures Kept(q, a, State(s.d, RecRead), ev)
  {
  }

  lemma MixedMeets(q: Demand, a: Accounts, k: Keyring, v: Vault, t: Vault)
    requires VaultMeets(q, a, v) && VaultMeets(q, a, t) && A.Mixed(k, v.secrets, t.secrets)
    ensures Meets(q, Lookup(k, a.refresh))
  {
    assert Agree(k, v.secrets, Real(a.refresh)) || Agree(k, t.secrets, Real(a.refresh));
  }

  lemma KeptSuccess(q: Demand, a: Accounts, s: State, ev: Evidence)
    requires Kept(q, a, s, ev) && s.pc == Stopped(Success)
    ensures Drained(q, a, s.d)
  {
    match ev
    case Vaults(v, t) => if A.LooseAt(s, v, t) { MixedMeets(q, a, s.d.keyring, v, t); }
    case Values => SoundSuccess(q, a.refresh, s);
  }

  // ---------------------------------------------------------------- saves

  lemma SaveIsKept(q: Demand, a: Accounts, d: Durable, txn: nat, plan: seq<PlanOp>, body: string)
    returns (ev: Evidence)
    requires Drained(q, a, d) && Meets(q, Lookup(ApplyPlan(d.keyring, plan), a.refresh))
    ensures ev.Vaults? && Kept(q, a, State(d, BeginWrite(d, txn, plan, body)), ev)
  {
    var v := Rest(d);
    var t := CrashAtomicity.Target(v, plan, body);
    CrashAtomicity.BeginIsOk(v, txn, plan, body);
    L.PlanStaysReal(v.secrets, plan);
    assert A.CalmAt(State(d, BeginWrite(d, txn, plan, body)), v, t);
    ev := Vaults(v, t);
  }

  lemma HandSaveIsSound(q: Demand, a: Accounts, d: Durable, txn: nat, plan: seq<PlanOp>, body: string)
    requires Drained(q, a, d) && OpsMeet(q, a.refresh, plan)
    ensures HandSound(q, a.refresh, H.HandState(d, H.Plain(BeginWrite(d, txn, plan, body)), []))
  {
  }

  lemma HandIsSound(q: Demand, a: Accounts, s: H.HandState)
    requires HandSound(q, a.refresh, s)
    ensures Kept(q, a, State(s.d, RecRead), Values)
  {
  }

  // ---------------------------------------------------------------- the lock holder

  ghost predicate Holds(q: Demand, a: Accounts, d: Durable, proc: Proc, ev: Evidence) {
    match proc
    case Idle => true
    case Recovering(_, pc) => Kept(q, a, State(d, pc), ev) && CrashAtomicity.Recovering(pc) && !pc.Stopped?
    case Writing(pc) => Kept(q, a, State(d, pc), ev)
    case ByHand(pc, stored) => HandSound(q, a.refresh, H.HandState(d, pc, stored))
    case Loading => Drained(q, a, d)
    case Leased(token) => Drained(q, a, d) && Lookup(d.keyring, a.refresh) == Some(token)
    case Exchanged(token, _, replacement) =>
      && Drained(Anything, a, d) && Lookup(d.keyring, a.refresh) == Some(token)
      && (if q.Unspent? && replacement.Some? then Meets(q, replacement) else Drained(q, a, d))
    case Rotated(_) => Drained(q, a, d)
  }

  ghost predicate Ruled(q: Demand, a: Accounts, w: World, ev: Evidence) {
    && a.refresh != a.access && OneHolder(w)
    && match w.lock
       case None => Kept(q, a, State(w.d, RecRead), ev)
       case Some(p) => Holds(q, a, w.d, w.procs[p], ev)
  }

  lemma RestIsKept(q: Demand, a: Accounts, d: Durable) returns (ev: Evidence)
    requires Drained(q, a, d)
    ensures Kept(q, a, State(d, RecRead), ev)
  {
    var v := Rest(d);
    ev := Vaults(v, v);
    assert A.CalmAt(State(d, RecRead), v, v);
  }

  /** What a save that begins in this event aims at, seen under the lock. */
  predicate GoodStart(q: Demand, a: Accounts, w: World, e: Event) {
    e.Tick? && At(w, e.p).Recovering? ==>
      var s := Step(State(w.d, At(w, e.p).pc), e.o);
      s.pc == Stopped(Success) ==>
        match At(w, e.p).job
        case Save(_, plan, _) => Meets(q, Lookup(ApplyPlan(s.d.keyring, plan), a.refresh))
        case SaveByHand(_, plan, _) => OpsMeet(q, a.refresh, plan)
        case _ => true
  }

  /** A lease stores its replacement. */
  predicate Stores(w: World, e: Event) {
    e.CommitRefresh? && At(w, e.p).Exchanged? && At(w, e.p).replacement.Some? && Applied(e.o)
  }

  /** A rotation is lost in this event: what it replaced stays in the keyring. */
  predicate Loses(w: World, e: Event) {
    match e
    case Exchange(p, answer) =>
      At(w, p).Leased? && answer.Lost? && Rotates(w.provider, At(w, p).token, answer.rotatedTo)
    case CommitRefresh(p, o) => At(w, p).Exchanged? && At(w, p).replacement.Some? && !Applied(o)
    case Die(p) => At(w, p).Exchanged? && At(w, p).replacement.Some?
    case _ => false
  }

  predicate Respects(q: Demand, a: Accounts, w: World, e: Event) {
    && GoodStart(q, a, w, e)
    && (Stores(w, e) ==> Meets(q, At(w, e.p).replacement))
    && (q.Unspent? ==> !Loses(w, e))
  }

  /** Tokens that must not be stored any more become more with every rotation. */
  function DemandAfter(q: Demand, a: Accounts, w: World, e: Event): Demand {
    if q.Unspent? then Unspent(LeaseSystem.Next(w, a, e).provider.spent) else q
  }

  predicate Current(q: Demand, w: World) {
    q.Unspent? ==> q.spent == w.provider.spent && w.provider.live !! w.provider.spent
  }

  // ---------------------------------------------------------------- one event

  lemma HolderChecked(q: Demand, a: Accounts, w: World, p: nat, ev: Evidence)
    requires Ruled(q, a, w, ev) && !At(w, p).Idle?
    ensures w.lock == Some(p) && p < |w.procs| && Holds(q, a, w.d, w.procs[p], ev)
  {
  }

  lemma AcquireIsRuled(q: Demand, a: Accounts, w: World, p: nat, job: Job, ev: Evidence)
    requires Ruled(q, a, w, ev)
    ensures Ruled(q, a, OnAcquire(w, p, job), ev)
  {
  }

  /** The lock is given back. */
  lemma ReleaseIsRuled(q: Demand, a: Accounts, w: World, p: nat, ev: Evidence)
    requires a.refresh != a.access && OneHolder(w) && w.lock == Some(p)
    requires Kept(q, a, State(w.d, RecRead), ev)
    ensures Ruled(q, a, Release(w, p), ev)
  {
  }

  lemma MoveIsRuled(q: Demand, a: Accounts, w: World, p: nat, proc: Proc, ev: Evidence)
    requires a.refresh != a.access && OneHolder(w) && w.lock == Some(p)
    requires !proc.Idle? && Holds(q, a, w.d, proc, ev)
    ensures Ruled(q, a, Move(w, p, proc), ev)
  {
  }

  lemma DrainedGoesOn(q: Demand, a: Accounts, w: World, p: nat, job: Job) returns (ev: Evidence)
    requires a.refresh != a.access && OneHolder(w) && w.lock == Some(p) && Drained(q, a, w.d)
    requires job.Save? ==> Meets(q, Lookup(ApplyPlan(w.d.keyring, job.plan), a.refresh))
    requires job.SaveByHand? ==> OpsMeet(q, a.refresh, job.plan)
    ensures Ruled(q, a, AfterRecovery(w, p, job, Success), ev)
  {
    match job
    case Inspect =>
      ev := RestIsKept(q, a, w.d);
      ReleaseIsRuled(q, a, w, p, ev);
    case Save(txn, plan, body) =>
      ev := SaveIsKept(q, a, w.d, txn, plan, body);
      MoveIsRuled(q, a, w, p, Writing(BeginWrite(w.d, txn, plan, body)), ev);
    case SaveByHand(txn, plan, body) =>
      HandSaveIsSound(q, a, w.d, txn, plan, body);
      ev := Values;
      MoveIsRuled(q, a, w, p, ByHand(H.Plain(BeginWrite(w.d, txn, plan, body)), []), ev);
    case Refresh =>
      ev := Values;
      MoveIsRuled(q, a, w, p, Loading, ev);
  }

  lemma RecoveringIsRuled(q: Demand, a: Accounts, w: World, p: nat, o: Outcome, ev: Evidence)
    returns (ev': Evidence)
    requires Ruled(q, a, w, ev) && At(w, p).Recovering? && GoodStart(q, a, w, Tick(p, o))
    ensures Ruled(q, a, OnTick(w, p, o), ev')
  {
    HolderChecked(q, a, w, p, ev);
    var job, s := At(w, p).job, State(w.d, At(w, p).pc);
    var s' := Step(s, o);
    KeptStep(q, a, s, o, ev);
    if s'.pc == Stopped(Success) {
      KeptSuccess(q, a, s', ev);
      ev' := DrainedGoesOn(q, a, w.(d := s'.d), p, job);
    } else if s'.pc.Stopped? {
      ev' := ev;
      KeptBegins(q, a, s', ev);
      ReleaseIsRuled(q, a, w.(d := s'.d), p, ev);
    } else {
      ev' := ev;
      MoveIsRuled(q, a, w.(d := s'.d), p, Recovering(job, s'.pc), ev);
    }
  }

  lemma WritingIsRuled(q: Demand, a: Accounts, w: World, p: nat, o: Outcome, ev: Evidence)
    requires Ruled(q, a, w, ev) && At(w, p).Writing?
    ensures Ruled(q, a, OnTick(w, p, o), ev)
  {
    HolderChecked(q, a, w, p, ev);
    var s := State(w.d, At(w, p).pc);
    KeptStep(q, a, s, o, ev);
    if Step(s, o).pc.Stopped? {
      KeptBegins(q, a, Step(s, o), ev);
      ReleaseIsRuled(q, a, w.(d := Step(s, o).d), p, ev);
    } else {
      MoveIsRuled(q, a, w.(d := Step(s, o).d), p, Writing(Step(s, o).pc), ev);
    }
  }

  lemma ByHandIsRuled(q: Demand, a: Accounts, w: World, p: nat, o: Outcome, ev: Evidence)
    requires Ruled(q, a, w, ev) && At(w, p).ByHand?
    ensures Ruled(q, a, OnTick(w, p, o), Values)
  {
    HolderChecked(q, a, w, p, ev);
    var s := H.HandState(w.d, At(w, p).hand, At(w, p).stored);
    HandStaysSound(q, a.refresh, s, o);
    var s' := H.HandStep(s, o);
    if HandEnded(s'.pc) {
      HandIsSound(q, a, s');
      ReleaseIsRuled(q, a, w.(d := s'.d), p, Values);
    } else {
      MoveIsRuled(q, a, w.(d := s'.d), p, ByHand(s'.pc, s'.stored), Values);
    }
  }

  lemma LoadIsRuled(q: Demand, a: Accounts, w: World, p: nat, usable: bool, ev: Evidence)
    returns (ev': Evidence)
    requires Ruled(q, a, w, ev)
    ensures Ruled(q, a, OnLoad(w, a, p, usable), ev')
  {
    ev' := ev;
    if At(w, p).Loading? {
      HolderChecked(q, a, w, p, ev);
      ev' := RestIsKept(q, a, w.d);
    }
  }

  lemma ExchangeIsRuled(q: Demand, a: Accounts, w: World, p: nat, answer: Answer, ev: Evidence)
    returns (ev': Evidence)
    requires Ruled(q, a, w, ev) && Current(q, w) && Respects(q, a, w, Exchange(p, answer))
    ensures Ruled(DemandAfter(q, a, w, Exchange(p, answer)), a, OnExchange(w, p, answer), ev')
    ensures Current(DemandAfter(q, a, w, Exchange(p, answer)), OnExchange(w, p, answer))
  {
    ev' := ev;
    if At(w, p).Leased? {
      HolderChecked(q, a, w, p, ev);
      ev' := RestIsKept(q, a, w.d);
    }
  }

  lemma StoreIsDrained(q: Demand, a: Accounts, d: Durable, account: string, secret: string)
    requires Drained(Anything, a, d) && (account == a.refresh ==> Meets(q, Some(secret)))
    requires account != a.refresh ==> Drained(q, a, d)
    ensures Drained(q, a, d.(keyring := d.keyring[Real(account) := secret]))
  {
  }

  lemma CommitRefreshIsRuled(q: Demand, a: Accounts, w: World, p: nat, o: Outcome, ev: Evidence)
    returns (ev': Evidence)
    requires Ruled(q, a, w, ev) && Respects(q, a, w, CommitRefresh(p, o))
    ensures Ruled(q, a, OnCommitRefresh(w, a, p, o), ev')
  {
    ev' := ev;
    if At(w, p).Exchanged? {
      HolderChecked(q, a, w, p, ev);
      if Stores(w, CommitRefresh(p, o)) {
        StoreIsDrained(q, a, w.d, a.refresh, At(w, p).replacement.value);
        ev' := RestIsKept(q, a, OnCommitRefresh(w, a, p, o).d);
      } else if At(w, p).replacement.Some? {
        ev' := RestIsKept(q, a, w.d);
      }
    }
  }

  lemma CommitAccessIsRuled(q: Demand, a: Accounts, w: World, p: nat, o: Outcome, ev: Evidence)
    returns (ev': Evidence)
    requires Ruled(q, a, w, ev)
    ensures Ruled(q, a, OnCommitAccess(w, a, p, o), ev')
  {
    ev' := ev;
    if At(w, p).Rotated? {
      HolderChecked(q, a, w, p, ev);
      StoreIsDrained(q, a, w.d, a.access, At(w, p).access);
      ev' := RestIsKept(q, a, OnCommitAccess(w, a, p, o).d);
    }
  }

  /** Wherever the lock holder is, a recovery can follow its death. */
  lemma HolderCanDie(q: Demand, a: Accounts, d: Durable, proc: Proc, ev: Evidence) returns (ev': Evidence)
    requires !proc.Idle? && Holds(q, a, d, proc, ev)
    requires proc.Exchanged? && q.Unspent? ==> proc.replacement.None?
    ensures Kept(q, a, State(d, RecRead), ev')
  {
    match proc
    case Recovering(_, pc) => KeptBegins(q, a, State(d, pc), ev); ev' := ev;
    case Writing(pc) => KeptBegins(q, a, State(d, pc), ev); ev' := ev;
    case ByHand(pc, stored) => HandIsSound(q, a, H.HandState(d, pc, stored)); ev' := Values;
    case _ => ev' := RestIsKept(q, a, d);
  }

  lemma DieIsRuled(q: Demand, a: Accounts, w: World, p: nat, ev: Evidence) returns (ev': Evidence)
    requires Ruled(q, a, w, ev) && Respects(q, a, w, Die(p))
    ensures Ruled(q, a, OnDie(w, p), ev')
  {
    ev' := ev;
    if !At(w, p).Idle? {
      HolderChecked(q, a, w, p, ev);
      ev' := HolderCanDie(q, a, w.d, w.procs[p], ev);
    }
  }

  lemma OnlyExchangesSpend(w: World, a: Accounts, e: Event)
    requires !e.Exchange?
    ensures var w' := LeaseSystem.Next(w, a, e);
            && w'.provider.spent == w.provider.spent && w'.log == w.log
            && (w.provider.live !! w.provider.spent ==> w'.provider.live !! w'.provider.spent)
  {
  }

  lemma EventIsRuled(q: Demand, a: Accounts, w: World, e: Event, ev: Evidence) returns (ev': Evidence)
    requires Ruled(q, a, w, ev) && Current(q, w) && Respects(q, a, w, e)
    ensures Ruled(DemandAfter(q, a, w, e), a, LeaseSystem.Next(w, a, e), ev')
    ensures Current(DemandAfter(q, a, w, e), LeaseSystem.Next(w, a, e))
  {
    ev' := ev;
    if !e.Exchange? { OnlyExchangesSpend(w, a, e); }
    match e
    case Acquire(p, job) => AcquireIsRuled(q, a, w, p, job, ev);
    case Tick(p, o) =>
      if At(w, p).Recovering? { ev' := RecoveringIsRuled(q, a, w, p, o, ev); }
      else if At(w, p).Writing? { WritingIsRuled(q, a, w, p, o, ev); }
      else if At(w, p).ByHand? { ByHandIsRuled(q, a, w, p, o, ev); ev' := Values; }
    case Load(p, usable) => ev' := LoadIsRuled(q, a, w, p, usable, ev);
    case Exchange(p, answer) => ev' := ExchangeIsRuled(q, a, w, p, answer, ev);
    case CommitRefresh(p, o) => ev' := CommitRefreshIsRuled(q, a, w, p, o, ev);
    case CommitAccess(p, o) => ev' := CommitAccessIsRuled(q, a, w, p, o, ev);
    case Die(p) => ev' := DieIsRuled(q, a, w, p, ev);
    case Grant(token) =>
  }

  // ---------------------------------------------------------------- rotation safety

  /** No save begins that aims at a superseded token; its caller can see that under the lock. */
  predicate NoStaleStart(w: World, a: Accounts, es: seq<Event>)
    decreases |es|
  {
    es == [] ||
    (GoodStart(Unspent(w.provider.spent), a, w, es[0]) && NoStaleStart(LeaseSystem.Next(w, a, es[0]), a, es[1..]))
  }

  predicate SafeSoFar(w: World) {
    Safe(w.log) && forall i | 0 <= i < |w.log| && w.log[i].rotated :: w.log[i].token in w.provider.spent
  }

  lemma InitialIsRuled(w: World, a: Accounts, v: Vault) returns (ev: Evidence)
    requires Initial(w, a, v)
    ensures Ruled(Unspent(w.provider.spent), a, w, ev) && Ruled(Anything, a, w, ev)
    ensures SafeSoFar(w) && Current(Unspent(w.provider.spent), w)
  {
    assert Rest(w.d) == v;
    ev := Vaults(v, v);
    assert A.CalmAt(State(w.d, RecRead), v, v);
  }

  lemma {:induction false} LostForGood(w: World, a: Accounts, es: seq<Event>)
    requires !w.clean
    ensures !History(w, a, es).clean
    decreases |es|
  {
    if es != [] { LostForGood(LeaseSystem.Next(w, a, es[0]), a, es[1..]); }
  }

  /** As long as no rotation is lost, what leases store is not superseded. */
  lemma CleanEventRespects(w: World, a: Accounts, e: Event, ev: Evidence)
    requires Ruled(Unspent(w.provider.spent), a, w, ev) && GoodStart(Unspent(w.provider.spent), a, w, e)
    requires w.clean && LeaseSystem.Next(w, a, e).clean
    ensures Respects(Unspent(w.provider.spent), a, w, e)
  {
    if (e.CommitRefresh? || e.Exchange? || e.Die?) && !At(w, e.p).Idle? {
      HolderChecked(Unspent(w.provider.spent), a, w, e.p, ev);
    }
  }

  lemma EventStaysSafe(w: World, a: Accounts, e: Event, ev: Evidence)
    requires Ruled(Unspent(w.provider.spent), a, w, ev) && SafeSoFar(w)
    ensures SafeSoFar(LeaseSystem.Next(w, a, e))
  {
    if e.Exchange? {
      if At(w, e.p).Leased? {
        HolderChecked(Unspent(w.provider.spent), a, w, e.p, ev);
        ExchangeStaysSafe(w, e.p, e.answer);
      }
    } else {
      OnlyExchangesSpend(w, a, e);
    }
  }

  lemma ExchangeStaysSafe(w: World, p: nat, answer: Answer)
    requires SafeSoFar(w) && At(w, p).Leased? && At(w, p).token !in w.provider.spent
    ensures SafeSoFar(OnExchange(w, p, answer))
  {
  }

  lemma {:induction false} SafeHistory(w: World, a: Accounts, es: seq<Event>, ev: Evidence)
    requires Ruled(Unspent(w.provider.spent), a, w, ev) && Current(Unspent(w.provider.spent), w)
    requires w.clean && SafeSoFar(w) && NoStaleStart(w, a, es)
    ensures History(w, a, es).clean ==> Safe(History(w, a, es).log)
    decreases |es|
  {
    if es != [] {
      var e, w' := es[0], LeaseSystem.Next(w, a, es[0]);
      if w'.clean {
        CleanEventRespects(w, a, e, ev);
        var ev' := EventIsRuled(Unspent(w.provider.spent), a, w, e, ev);
        EventStaysSafe(w, a, e, ev);
        SafeHistory(w', a, es[1..], ev');
      } else {
        LostForGood(w', a, es[1..]);
      }
    }
  }

  /**
  Rotation safety in every history: any processes, both kinds of saves, any
  crash and error anywhere, recoveries that cannot read the profile. Unless a
  rotated token was lost before its store, no lease presents a superseded token
  and none presents one again after its rotation, if no save begins that aims at
  a superseded token.
  */
  lemma RotationSafety(w: World, a: Accounts, v: Vault, es: seq<Event>)
    requires Initial(w, a, v) && NoStaleStart(w, a, es)
    ensures History(w, a, es).clean ==> Safe(History(w, a, es).log)
  {
    var ev := InitialIsRuled(w, a, v);
    SafeHistory(w, a, es, ev);
  }

  // ---------------------------------------------------------------- a stored token stays

  /** No save begins that aims at another value for the account, and no lease stores one. */
  predicate NoOtherToken(token: string, w: World, a: Accounts, es: seq<Event>)
    decreases |es|
  {
    es == [] ||
    (Respects(Only(token), a, w, es[0]) && NoOtherToken(token, LeaseSystem.Next(w, a, es[0]), a, es[1..]))
  }

  /** Whoever looks at the account under the lock, now or after any recovery, finds the token. */
  ghost predicate TokenIs(token: string, w: World, a: Accounts) {
    && (forall p | 0 <= p < |w.procs| && (w.procs[p].Leased? || w.procs[p].Exchanged?) :: w.procs[p].token == token)
    && (w.lock.None? ==> forall os ::
          var r := Run(State(w.d, RecRead), os);
          r.pc == Stopped(Success) ==> Lookup(r.d.keyring, a.refresh) == Some(token))
  }

  lemma {:induction false} KeptRun(q: Demand, a: Accounts, s: State, os: seq<Outcome>, ev: Evidence)
    requires Kept(q, a, s, ev)
    ensures Kept(q, a, Run(s, os), ev)
    decreases |os|
  {
    if os != [] {
      KeptStep(q, a, s, os[0], ev);
      KeptRun(q, a, Step(s, os[0]), os[1..], ev);
    }
  }

  lemma RuledMeansTokenIs(token: string, w: World, a: Accounts, ev: Evidence)
    requires Ruled(Only(token), a, w, ev)
    ensures TokenIs(token, w, a)
  {
    if w.lock.None? {
      forall os ensures var r := Run(State(w.d, RecRead), os);
                        r.pc == Stopped(Success) ==> Lookup(r.d.keyring, a.refresh) == Some(token)
      {
        KeptRun(Only(token), a, State(w.d, RecRead), os, ev);
        if Run(State(w.d, RecRead), os).pc == Stopped(Success) {
          KeptSuccess(Only(token), a, Run(State(w.d, RecRead), os), ev);
        }
      }
    }
    forall p | 0 <= p < |w.procs| && (w.procs[p].Leased? || w.procs[p].Exchanged?) ensures w.procs[p].token == token {
      HolderChecked(Only(token), a, w, p, ev);
    }
  }

  /** Everything presented from here on is the token. */
  predicate PresentsOnly(token: string, log: seq<Presentation>, from: nat) {
    forall i | from <= i < |log| :: log[i].token == token
  }

  lemma EventPresentsOnly(token: string, w: World, a: Accounts, e: Event, from: nat)
    requires TokenIs(token, w, a) && PresentsOnly(token, w.log, from)
    ensures PresentsOnly(token, LeaseSystem.Next(w, a, e).log, from)
  {
    if e.Exchange? && At(w, e.p).Leased? { assert w.procs[e.p].token == token; }
  }

  lemma {:induction false} TokenStays(token: string, w: World, a: Accounts, es: seq<Event>, from: nat, ev: Evidence)
    requires Ruled(Only(token), a, w, ev) && NoOtherToken(token, w, a, es) && PresentsOnly(token, w.log, from)
    ensures TokenIs(token, History(w, a, es), a) && PresentsOnly(token, History(w, a, es).log, from)
    decreases |es|
  {
    RuledMeansTokenIs(token, w, a, ev);
    if es != [] {
      var ev' := EventIsRuled(Only(token), a, w, es[0], ev);
      EventPresentsOnly(token, w, a, es[0], from);
      TokenStays(token, LeaseSystem.Next(w, a, es[0]), a, es[1..], from, ev');
    }
  }

  lemma {:induction false} AnythingIsRuled(w: World, a: Accounts, es: seq<Event>, ev: Evidence)
    returns (ev': Evidence)
    requires Ruled(Anything, a, w, ev)
    ensures Ruled(Anything, a, History(w, a, es), ev')
    decreases |es|
  {
    ev' := ev;
    if es != [] {
      assert GoodStart(Anything, a, w, es[0]);
      var next := EventIsRuled(Anything, a, w, es[0], ev);
      ev' := AnythingIsRuled(LeaseSystem.Next(w, a, es[0]), a, es[1..], next);
    }
  }

  /**
  A rotated token that a lease has stored stays. Whatever came before, and
  whatever fails afterwards, including late rollbacks and recoveries that cannot
  read the profile: until a save aims at another value for the account or a lease
  stores one, every lease presents this token and every recovery leaves it.
  */
  lemma StoredTokenStays(w: World, a: Accounts, v: Vault, before: seq<Event>, p: nat, o: Outcome, es: seq<Event>)
    requires Initial(w, a, v) && Stores(History(w, a, before), CommitRefresh(p, o))
    requires var w1 := History(w, a, before);
             NoOtherToken(At(w1, p).replacement.value, LeaseSystem.Next(w1, a, CommitRefresh(p, o)), a, es)
    ensures var w1 := History(w, a, before);
            var token, w2 := At(w1, p).replacement.value, LeaseSystem.Next(w1, a, CommitRefresh(p, o));
            TokenIs(token, History(w2, a, es), a) && PresentsOnly(token, History(w2, a, es).log, |w2.log|)
  {
    var ev0 := InitialIsRuled(w, a, v);
    var w1 := History(w, a, before);
    var ev1 := AnythingIsRuled(w, a, before, ev0);
    var token, w2 := At(w1, p).replacement.value, LeaseSystem.Next(w1, a, CommitRefresh(p, o));
    var ev2 := StoreIsRuled(w1, a, p, o, ev1);
    TokenStays(token, w2, a, es, |w2.log|, ev2);
  }

  lemma StoreIsRuled(w: World, a: Accounts, p: nat, o: Outcome, ev: Evidence) returns (ev': Evidence)
    requires Ruled(Anything, a, w, ev) && Stores(w, CommitRefresh(p, o))
    ensures Ruled(Only(At(w, p).replacement.value), a, LeaseSystem.Next(w, a, CommitRefresh(p, o)), ev')
  {
    HolderChecked(Anything, a, w, p, ev);
    var token := At(w, p).replacement.value;
    StoreIsDrained(Only(token), a, w.d, a.refresh, token);
    ev' := RestIsKept(Only(token), a, LeaseSystem.Next(w, a, CommitRefresh(p, o)).d);
  }

  // ---------------------------------------------------------------- composition

  /**
  Under a lease there is neither a journal nor a backup, whatever the saves and
  recoveries before it did: they and the leases meet only at settled states.
  */
  lemma LeasesFindNoJournal(w: World, a: Accounts, v: Vault, es: seq<Event>)
    requires Initial(w, a, v)
    ensures var w' := History(w, a, es);
            forall p | 0 <= p < |w'.procs| ::
              w'.procs[p].Loading? || w'.procs[p].Leased? || w'.procs[p].Exchanged? || w'.procs[p].Rotated? ==>
                w'.d == Settled(Rest(w'.d)) && IsVault(Rest(w'.d))
  {
    var ev := InitialIsRuled(w, a, v);
    var ev' := AnythingIsRuled(w, a, es, ev);
    var w' := History(w, a, es);
    forall p | 0 <= p < |w'.procs|
      ensures w'.procs[p].Loading? || w'.procs[p].Leased? || w'.procs[p].Exchanged? || w'.procs[p].Rotated? ==>
                w'.d == Settled(Rest(w'.d)) && IsVault(Rest(w'.d))
    {
      if !w'.procs[p].Idle? { HolderChecked(Anything, a, w', p, ev'); }
    }
  }
}
