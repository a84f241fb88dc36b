/**
Any number of processes share one profile lock, one keyring and one rotating
refresh token.  A process takes the lock, drains the journal, and then either
saves the profile, with the journaled rollback or with the one by hand, or
refreshes its access token.
The events below interleave freely; a process may die at any of them.
*/
module LeaseSystem {
  import opened Common
  import opened AuthJournal
  import opened JournalMachine
  import opened JournalProofs
  import opened CrashAtomicity
  import H = HandRollback

  datatype Job =
    | Inspect
    | Save(txn: nat, plan: seq<PlanOp>, body: string)
    | SaveByHand(txn: nat, plan: seq<PlanOp>, body: string)
    | Refresh

  /** Every state but `Idle` holds the lock. */
  datatype Proc =
    | Idle
    | Recovering(job: Job, pc: Pc)
    | Writing(pc: Pc)
    | ByHand(hand: H.HandPc, stored: seq<PlanOp>)
    | Loading
    | Leased(token: string)
    | Exchanged(token: string, access: string, replacement: Option<string>)
    | Rotated(access: string)

  /** The token endpoint: refresh tokens it honours, and those it has replaced. */
  datatype Provider = Provider(live: set<string>, spent: set<string>)

  /** One refresh token put on the wire, and whether it was already superseded. */
  datatype Presentation = Presentation(token: string, superseded: bool, rotated: bool)

  datatype World = World(
    d: Durable,
    lock: Option<nat>,
    procs: seq<Proc>,
    provider: Provider,
    log: seq<Presentation>,
    clean: bool)

  /** The two keyring accounts of the credential the processes share. */
  datatype Accounts = Accounts(refresh: string, access: string)

  /** What comes back from the token endpoint. */
  datatype Answer =
    | Unreachable
    | Lost(rotatedTo: Option<string>)
    | Answered(access: string, rotatedTo: Option<string>)

  datatype Event =
    | Acquire(p: nat, job: Job)
    | Tick(p: nat, o: Outcome)
    | Load(p: nat, usable: bool)
    | Exchange(p: nat, answer: Answer)
    | CommitRefresh(p: nat, o: Outcome)
    | CommitAccess(p: nat, o: Outcome)
    | Die(p: nat)
    | Grant(token: string)

  function At(w: World, p: nat): Proc {
    if p < |w.procs| then w.procs[p] else Idle
  }

  function Move(w: World, p: nat, proc: Proc): World {
    if p < |w.procs| then w.(procs := w.procs[p := proc]) else w
  }

  function Release(w: World, p: nat): World {
    Move(w, p, Idle).(lock := None)
  }

  function RefreshSlot(a: Accounts): Slot { Real(a.refresh) }

  /** A token the endpoint has already replaced. */
  predicate Superseded(pr: Provider, token: string) {
    token in pr.spent
  }

  predicate Fresh(pr: Provider, token: string) {
    token !in pr.live && token !in pr.spent
  }

  /** Rotation as section 6 of RFC 6749 allows it: the old token stops working. */
  function Rotate(pr: Provider, token: string, rotatedTo: Option<string>): Provider {
    if rotatedTo.None? || token !in pr.live || !Fresh(pr, rotatedTo.value) then pr
    else Provider(pr.live - {token} + {rotatedTo.value}, pr.spent + {token})
  }

  predicate Rotates(pr: Provider, token: string, rotatedTo: Option<string>) {
    rotatedTo.Some? && token in pr.live && Fresh(pr, rotatedTo.value)
  }

  /** The next thing the lock holder does once its journal work has stopped. */
  function AfterRecovery(w: World, p: nat, job: Job, verdict: Verdict): World {
    if !verdict.Success? then Release(w, p)
    else match job
         case Inspect => Release(w, p)
         case Save(txn, plan, body) => Move(w, p, Writing(BeginWrite(w.d, txn, plan, body)))
         case SaveByHand(txn, plan, body) =>
           Move(w, p, ByHand(H.Plain(BeginWrite(w.d, txn, plan, body)), []))
         case Refresh => Move(w, p, Loading)
  }

  function OnAcquire(w: World, p: nat, job: Job): World {
    if At(w, p).Idle? && p < |w.procs| && w.lock.None?
    then Move(w, p, Recovering(job, RecRead)).(lock := Some(p))
    else w
  }

  predicate HandEnded(pc: H.HandPc) {
    pc.Over? || (pc.Plain? && pc.pc.Stopped?)
  }

  function OnTick(w: World, p: nat, o: Outcome): World {
    match At(w, p)
    case Recovering(job, pc) =>
      var s := Step(State(w.d, pc), o);
      var w' := w.(d := s.d);
      if s.pc.Stopped? then AfterRecovery(w', p, job, s.pc.verdict)
      else Move(w', p, Recovering(job, s.pc))
    case Writing(pc) =>
      var s := Step(State(w.d, pc), o);
      var w' := w.(d := s.d);
      if s.pc.Stopped? then Release(w', p) else Move(w', p, Writing(s.pc))
    case ByHand(pc, stored) =>
      var s := H.HandStep(H.HandState(w.d, pc, stored), o);
      var w' := w.(d := s.d);
      if HandEnded(s.pc) then Release(w', p) else Move(w', p, ByHand(s.pc, s.stored))
    case _ => w
  }

  /** Reload the profile under the lock and read the token behind its reference. */
  function OnLoad(w: World, a: Accounts, p: nat, usable: bool): World {
    if !At(w, p).Loading? then w
    else if !usable || RefreshSlot(a) !in w.d.keyring then Release(w, p)
    else Move(w, p, Leased(w.d.keyring[RefreshSlot(a)]))
  }

  function OnExchange(w: World, p: nat, answer: Answer): World {
    if !At(w, p).Leased? then w
    else
      var t := At(w, p).token;
      if answer.Unreachable? then Release(w, p)
      else
        var rotated := Rotates(w.provider, t, answer.rotatedTo);
        var w' := w.(
          provider := Rotate(w.provider, t, answer.rotatedTo),
          log := w.log + [Presentation(t, Superseded(w.provider, t), rotated)]);
        if t !in w.provider.live then Release(w', p)
        else if answer.Lost? then Release(w'.(clean := w.clean && !rotated), p)
        else Move(w', p, Exchanged(t, answer.access, if rotated then answer.rotatedTo else None))
  }

  function Stored(w: World, account: string, secret: string, o: Outcome): World {
    if Applied(o) then w.(d := w.d.(keyring := w.d.keyring[Real(account) := secret])) else w
  }

  function OnCommitRefresh(w: World, a: Accounts, p: nat, o: Outcome): World {
    if !At(w, p).Exchanged? then w
    else
      var e := At(w, p);
      if e.replacement.None? then Move(w, p, Rotated(e.access))
      else
        var w' := Stored(w, a.refresh, e.replacement.value, o);
        if o.Done? then Move(w', p, Rotated(e.access))
        else Release(w'.(clean := w.clean && Applied(o)), p)
  }

  function OnCommitAccess(w: World, a: Accounts, p: nat, o: Outcome): World {
    if !At(w, p).Rotated? then w
    else Release(Stored(w, a.access, At(w, p).access, o), p)
  }

  /** The operating system drops the lock of a process that dies. */
  function OnDie(w: World, p: nat): World {
    if At(w, p).Idle? then w
    else Release(w.(clean := w.clean && !(At(w, p).Exchanged? && At(w, p).replacement.Some?)), p)
  }

  function OnGrant(w: World, token: string): World {
    if Fresh(w.provider, token)
    then w.(provider := w.provider.(live := w.provider.live + {token}))
    else w
  }

  function Next(w: World, a: Accounts, e: Event): World {
    match e
    case Acquire(p, job) => OnAcquire(w, p, job)
    case Tick(p, o) => OnTick(w, p, o)
    case Load(p, usable) => OnLoad(w, a, p, usable)
    case Exchange(p, answer) => OnExchange(w, p, answer)
    case CommitRefresh(p, o) => OnCommitRefresh(w, a, p, o)
    case CommitAccess(p, o) => OnCommitAccess(w, a, p, o)
    case Die(p) => OnDie(w, p)
    case Grant(token) => OnGrant(w, token)
  }

  function History(w: World, a: Accounts, es: seq<Event>): World
    decreases |es|
  {
    if es == [] then w else History(Next(w, a, es[0]), a, es[1..])
  }

  /**
  A writer rolls back after recovery would already call it committed, or a
  recovery that cannot read the profile starts to undo a commit.
  */
  predicate LateEvent(w: World, e: Event) {
    && e.Tick? && (At(w, e.p).Writing? || At(w, e.p).Recovering?)
    && LateRollback(State(w.d, At(w, e.p).pc), Step(State(w.d, At(w, e.p).pc), e.o))
  }

  predicate NoLateEvent(w: World, a: Accounts, es: seq<Event>)
    decreases |es|
  {
    es == [] || (!LateEvent(w, es[0]) && NoLateEvent(Next(w, a, es[0]), a, es[1..]))
  }

  /** All saves are those of `write_config_exact`. */
  predicate NoneByHand(es: seq<Event>) {
    forall e | e in es :: !BeginsByHand(e)
  }

  predicate BeginsByHand(e: Event) {
    e.Acquire? && e.job.SaveByHand?
  }

  // ---------------------------------------------------------------- invariant

  /** The vault moves only when a transaction commits or a lease stores a secret. */
  ghost function VaultAfterEvent(w: World, a: Accounts, e: Event, v: Vault): Vault {
    match e
    case Tick(p, o) =>
      if At(w, p).Writing? then VaultAfter(State(w.d, At(w, p).pc), o, v) else v
    case CommitRefresh(p, o) =>
      if At(w, p).Exchanged? && At(w, p).replacement.Some? && Applied(o)
      then v.(secrets := v.secrets[Real(a.refresh) := At(w, p).replacement.value]) else v
    case CommitAccess(p, o) =>
      if At(w, p).Rotated? && Applied(o)
      then v.(secrets := v.secrets[Real(a.access) := At(w, p).access]) else v
    case _ => v
  }

  ghost predicate OneHolder(w: World) {
    && (w.lock.Some? ==> w.lock.value < |w.procs|)
    && forall p | 0 <= p < |w.procs| :: (w.procs[p].Idle? <==> w.lock != Some(p))
  }

  /** The stored refresh token is one the endpoint has already replaced. */
  predicate StaleToken(a: Accounts, pr: Provider, k: Keyring) {
    RefreshSlot(a) in k && Superseded(pr, k[RefreshSlot(a)])
  }

  // ---------------------------------------------------------------- saves of stale tokens

  /** This event is the one in which a save takes effect. */
  predicate CommitsSave(w: World, e: Event) {
    && e.Tick? && At(w, e.p).Writing? && MayCommit(At(w, e.p).pc) && Applied(e.o)
    && Step(State(w.d, At(w, e.p).pc), e.o).d.profile == Some(At(w, e.p).pc.tx.body)
  }

  /** A save takes effect that leaves a refresh token superseded by now. */
  predicate CommitsStaleSave(w: World, a: Accounts, e: Event) {
    CommitsSave(w, e) && StaleToken(a, w.provider, At(w, e.p).pc.tx.goal)
  }

  /** A lease puts its token on the wire. */
  predicate Presents(w: World, e: Event) {
    e.Exchange? && At(w, e.p).Leased? && !e.answer.Unreachable?
  }

  /** Whether the last save to take effect left a superseded refresh token. */
  predicate StaleAfter(w: World, a: Accounts, e: Event, stale: bool) {
    if CommitsSave(w, e) then CommitsStaleSave(w, a, e) else stale
  }

  /** Somewhere in the history a lease presents what such a save left. */
  predicate LeasesStaleSave(w: World, a: Accounts, es: seq<Event>, stale: bool)
    decreases |es|
  {
    es != [] &&
    ((stale && Presents(w, es[0])) || LeasesStaleSave(Next(w, a, es[0]), a, es[1..], StaleAfter(w, a, es[0], stale)))
  }

  predicate NoStaleSave(w: World, a: Accounts, es: seq<Event>)
    decreases |es|
  {
    es == [] || (!CommitsStaleSave(w, a, es[0]) && NoStaleSave(Next(w, a, es[0]), a, es[1..]))
  }

  // ---------------------------------------------------------------- the invariant

  /** Unless a rotation was lost, `stale` says whether the vault's token is superseded. */
  ghost predicate Tracked(w: World, a: Accounts, v: Vault, stale: bool) {
    w.clean ==> (stale <==> StaleToken(a, w.provider, v.secrets))
  }

  /** What the lock holder's position says about the durable state. */
  ghost predicate HolderOk(w: World, a: Accounts, proc: Proc, v: Vault, stale: bool) {
    match proc
    case Idle => true
    case Recovering(job, pc) =>
      && Inv(State(w.d, pc), v) && CrashAtomicity.Recovering(pc) && !pc.Stopped? && !job.SaveByHand?
      && Tracked(w, a, v, stale)
    case Writing(pc) =>
      Inv(State(w.d, pc), v) && !CrashAtomicity.Recovering(pc) && Tracked(w, a, v, stale)
    case ByHand(_, _) => false
    case Loading => w.d == Settled(v) && Tracked(w, a, v, stale)
    case Leased(t) =>
      && w.d == Settled(v) && RefreshSlot(a) in v.secrets && v.secrets[RefreshSlot(a)] == t
      && Tracked(w, a, v, stale)
    case Exchanged(t, _, replacement) =>
      && w.d == Settled(v) && RefreshSlot(a) in v.secrets && v.secrets[RefreshSlot(a)] == t
      && (replacement.Some? ==>
            && Superseded(w.provider, t) && !Superseded(w.provider, replacement.value)
            && (w.clean ==> !stale))
      && (replacement.None? ==> Tracked(w, a, v, stale))
    case Rotated(_) => w.d == Settled(v) && Tracked(w, a, v, stale)
  }

  /** Rotated tokens are spent, showing one again is noticed, and `shown` says if that ever happened. */
  ghost predicate LogOk(w: World, shown: bool) {
    && (forall i | 0 <= i < |w.log| && w.log[i].rotated :: w.log[i].token in w.provider.spent)
    && (forall i, j | 0 <= i < j < |w.log| && w.log[i].rotated && w.log[j].token == w.log[i].token ::
          w.log[j].superseded)
    && (w.clean ==> (shown <==> ShowsSuperseded(w.log)))
  }

  predicate ShowsSuperseded(log: seq<Presentation>) {
    exists i | 0 <= i < |log| :: log[i].superseded
  }

  ghost predicate WorldInv(w: World, a: Accounts, v: Vault, stale: bool, shown: bool) {
    && IsVault(v) && a.refresh != a.access
    && w.provider.live !! w.provider.spent
    && OneHolder(w) && LogOk(w, shown)
    && match w.lock
       case None => Pending(w.d, v) && Tracked(w, a, v, stale)
       case Some(p) => HolderOk(w, a, w.procs[p], v, stale)
  }
}
