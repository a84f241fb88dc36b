/**
The wizard coordinator: it couples one pending step to the phase of the
authentication state machine, and decides what an adapter may do next.
*/
module WizardEngine {
  import opened Common
  import opened AuthMachine

  datatype Step =
    | SendOtp | ValidateOtp | ResolveWorkspace | SubmitWorkspacePassword
    | ResumeOidc | MintPat | Persist

  datatype Outcome = DefinitelyNotSent | MayHaveCommitted | Rejected(kind: FailureKind) | Accepted

  datatype Action =
    | Invoke(step: Step) | PromptOtp | PromptWorkspacePassword
    | Finished | FallbackToLegacy(step: Step) | GiveUpWith(kind: FailureKind)

  datatype WizardError = NoPendingStep | UnsupportedVersion(version: nat) | State(error: TransitionError)

  datatype Engine = Engine(version: nat, auth: AuthState, pending: Option<Step>)

  type Reply = Result<Action, WizardError>

  const ENGINE_VERSION: nat := 1

  function Fresh(): Engine { Engine(ENGINE_VERSION, INITIAL, None) }

  predicate HasExternalSideEffect(s: Step) {
    s.SendOtp? || s.MintPat? || s.Persist?
  }

  // ---------------------------------------------------------------- one call

  /** Move the state machine; a refused event leaves it alone and ends the call. */
  function Advance(e: Engine, b: Budgets, event: Event, pending: Option<Step>, reply: Action): (Engine, Reply) {
    var r := Apply(e.auth, b, event);
    if r.Ok? then (e.(auth := r.value, pending := pending), Ok(reply)) else (e, Err(State(r.error)))
  }

  function AfterAccepted(e: Engine, b: Budgets, step: Step): (Engine, Reply) {
    match step
    case SendOtp => Advance(e, b, OtpSent, None, PromptOtp)
    case ValidateOtp => Advance(e, b, OtpAccepted, Some(ResolveWorkspace), Invoke(ResolveWorkspace))
    case ResolveWorkspace => Advance(e, b, WorkspaceResolved, None, PromptWorkspacePassword)
    case SubmitWorkspacePassword => Advance(e, b, WorkspacePasswordAccepted, Some(ResumeOidc), Invoke(ResumeOidc))
    case ResumeOidc => (e.(pending := Some(MintPat)), Ok(Invoke(MintPat)))
    case MintPat => Advance(e, b, TokenExchanged, Some(Persist), Invoke(Persist))
    case Persist =>
      var (e1, r1) := Advance(e, b, PersistStarted, None, Finished);
      if r1.Err? then (e1, r1) else Advance(e1, b, PersistSucceeded, None, Finished)
  }

  function AfterRejected(e: Engine, b: Budgets, step: Step, kind: FailureKind): (Engine, Reply) {
    if step.ValidateOtp? && (kind.InvalidOtp? || kind.ExpiredOtp?) then
      var (e1, r1) := Advance(e, b, OtpRejected(kind.ExpiredOtp?), None, PromptOtp);
      if r1.Err? || e1.auth.phase.AwaitingOtp? then (e1, r1)
      else if e1.auth.phase.SendingOtp? then (e1.(pending := Some(SendOtp)), Ok(Invoke(SendOtp)))
      else (e1, Ok(GiveUpWith(kind)))
    else if step.SubmitWorkspacePassword? && kind.InvalidWorkspacePassword? then
      var (e1, r1) := Advance(e, b, WorkspacePasswordRejected, None, PromptWorkspacePassword);
      if r1.Err? || e1.auth.phase.AwaitingWorkspacePassword? then (e1, r1)
      else (e1, Ok(GiveUpWith(kind)))
    else Advance(e, b, TerminalFailure(kind), None, GiveUpWith(kind))
  }

  datatype Call = Start | SubmitOtp | SubmitPassword | Record(outcome: Outcome)

  function Do(e: Engine, b: Budgets, c: Call): (Engine, Reply) {
    if e.version != ENGINE_VERSION then (e, Err(UnsupportedVersion(e.version)))
    else match c
      case Start => Advance(e, b, Begin, Some(SendOtp), Invoke(SendOtp))
      case SubmitOtp =>
        if e.auth.phase.AwaitingOtp? && e.pending.None?
        then (e.(pending := Some(ValidateOtp)), Ok(Invoke(ValidateOtp)))
        else (e, Err(NoPendingStep))
      case SubmitPassword =>
        if e.auth.phase.AwaitingWorkspacePassword? && e.pending.None?
        then (e.(pending := Some(SubmitWorkspacePassword)), Ok(Invoke(SubmitWorkspacePassword)))
        else (e, Err(NoPendingStep))
      case Record(outcome) =>
        if e.pending.None? then (e, Err(NoPendingStep))
        else
          var step, taken := e.pending.value, e.(pending := None);
          match outcome
          case DefinitelyNotSent => (e, Ok(Invoke(step)))
          case MayHaveCommitted => (taken, Ok(FallbackToLegacy(step)))
          case Rejected(kind) => AfterRejected(taken, b, step, kind)
          case Accepted => AfterAccepted(taken, b, step)
  }

  /** The coordinator object; every method is one `Do`. */
  class Wizard {
    const version: nat
    const machine: AuthStateMachine
    var pending: Option<Step>

    constructor (budgets: Budgets)
      ensures View() == Fresh() && machine.budgets == budgets && fresh(machine)
    {
      version := ENGINE_VERSION;
      machine := new AuthStateMachine(budgets);
      pending := None;
    }

    function View(): Engine
      reads this, machine
    {
      Engine(version, machine.state, pending)
    }

    method InvokeStep(step: Step) returns (a: Action)
      modifies this
      ensures View() == old(View()).(pending := Some(step)) && a == Invoke(step)
    {
      pending := Some(step);
      a := Invoke(step);
    }

    method Begin() returns (r: Reply)
      modifies this, machine
      ensures (View(), r) == Do(old(View()), machine.budgets, Start)
    {
      if version != ENGINE_VERSION { return Err(UnsupportedVersion(version)); }
      var applied := machine.ApplyEvent(Event.Begin);
      if applied.Err? { return Err(State(applied.error)); }
      var a := InvokeStep(SendOtp);
      return Ok(a);
    }

    method SupplyOtp() returns (r: Reply)
      modifies this, machine
      ensures (View(), r) == Do(old(View()), machine.budgets, SubmitOtp)
    {
      if version != ENGINE_VERSION { return Err(UnsupportedVersion(version)); }
      if !machine.state.phase.AwaitingOtp? || pending.Some? { return Err(NoPendingStep); }
      var a := InvokeStep(ValidateOtp);
      return Ok(a);
    }

    method SupplyPassword() returns (r: Reply)
      modifies this, machine
      ensures (View(), r) == Do(old(View()), machine.budgets, SubmitPassword)
    {
      if version != ENGINE_VERSION { return Err(UnsupportedVersion(version)); }
      if !machine.state.phase.AwaitingWorkspacePassword? || pending.Some? { return Err(NoPendingStep); }
      var a := InvokeStep(SubmitWorkspacePassword);
      return Ok(a);
    }

    method RecordOutcome(outcome: Outcome) returns (r: Reply)
      modifies this, machine
      ensures (View(), r) == Do(old(View()), machine.budgets, Record(outcome))
    {
      if version != ENGINE_VERSION { return Err(UnsupportedVersion(version)); }
      if pending.None? { return Err(NoPendingStep); }
      var step := pending.value;
      pending := None;
      match outcome {
        case DefinitelyNotSent => var a := InvokeStep(step); r := Ok(a);
        case MayHaveCommitted => r := Ok(FallbackToLegacy(step));
        case Rejected(kind) => r := OnRejected(step, kind);
        case Accepted => r := OnAccepted(step);
      }
    }

    method OnAccepted(step: Step) returns (r: Reply)
      requires pending.None?
      modifies this, machine
      ensures (View(), r) == AfterAccepted(old(View()), machine.budgets, step)
    {
      match step {
        case SendOtp =>
          var applied := machine.ApplyEvent(OtpSent);
          if applied.Err? { return Err(State(applied.error)); }
          pending := None;
          r := Ok(PromptOtp);
        case ValidateOtp =>
          var applied := machine.ApplyEvent(OtpAccepted);
          if applied.Err? { return Err(State(applied.error)); }
          var a := InvokeStep(ResolveWorkspace); r := Ok(a);
        case ResolveWorkspace =>
          var applied := machine.ApplyEvent(WorkspaceResolved);
          if applied.Err? { return Err(State(applied.error)); }
          pending := None;
          r := Ok(PromptWorkspacePassword);
        case SubmitWorkspacePassword =>
          var applied := machine.ApplyEvent(WorkspacePasswordAccepted);
          if applied.Err? { return Err(State(applied.error)); }
          var a := InvokeStep(ResumeOidc); r := Ok(a);
        case ResumeOidc =>
          var a := InvokeStep(MintPat); r := Ok(a);
        case MintPat =>
          var applied := machine.ApplyEvent(TokenExchanged);
          if applied.Err? { return Err(State(applied.error)); }
          var a := InvokeStep(Persist); r := Ok(a);
        case Persist =>
          var started := machine.ApplyEvent(PersistStarted);
          if started.Err? { return Err(State(started.error)); }
          var succeeded := machine.ApplyEvent(PersistSucceeded);
          if succeeded.Err? { return Err(State(succeeded.error)); }
          r := Ok(Finished);
      }
    }

    method OnRejected(step: Step, kind: FailureKind) returns (r: Reply)
      requires pending.None?
      modifies this, machine
      ensures (View(), r) == AfterRejected(old(View()), machine.budgets, step, kind)
    {
      if step.ValidateOtp? && (kind.InvalidOtp? || kind.ExpiredOtp?) {
        var applied := machine.ApplyEvent(OtpRejected(kind.ExpiredOtp?));
        if applied.Err? { return Err(State(applied.error)); }
        if machine.state.phase.AwaitingOtp? { return Ok(PromptOtp); }
        if machine.state.phase.SendingOtp? { var a := InvokeStep(SendOtp); return Ok(a); }
        return Ok(GiveUpWith(kind));
      }
      if step.SubmitWorkspacePassword? && kind.InvalidWorkspacePassword? {
        var applied := machine.ApplyEvent(WorkspacePasswordRejected);
        if applied.Err? { return Err(State(applied.error)); }
        if machine.state.phase.AwaitingWorkspacePassword? { return Ok(PromptWorkspacePassword); }
        return Ok(GiveUpWith(kind));
      }
      var applied := machine.ApplyEvent(TerminalFailure(kind));
      if applied.Err? { return Err(State(applied.error)); }
      return Ok(GiveUpWith(kind));
    }
  }

  // ---------------------------------------------------------------- coupling

  /** The phase in which each step may be pending. */
  function PhaseOf(s: Step): Phase {
    match s
    case SendOtp => SendingOtp
    case ValidateOtp => AwaitingOtp
    case ResolveWorkspace => ResolvingWorkspace
    case SubmitWorkspacePassword => AwaitingWorkspacePassword
    case ResumeOidc => ExchangingToken
    case MintPat => ExchangingToken
    case Persist => Persisting
  }

  predicate Coupled(e: Engine, b: Budgets) {
    && e.version == ENGINE_VERSION
    && Reachable(e.auth, b)
    && (e.pending.Some? ==> e.auth.phase == PhaseOf(e.pending.value))
  }

  function RunCalls(e: Engine, b: Budgets, cs: seq<Call>): Engine
    decreases |cs|
  {
    if cs == [] then e else RunCalls(Do(e, b, cs[0]).0, b, cs[1..])
  }

  lemma RecordStaysCoupled(e: Engine, b: Budgets, outcome: Outcome)
    requires Coupled(e, b) && e.pending.Some?
    ensures Coupled(Do(e, b, Record(outcome)).0, b)
    ensures Do(e, b, Record(outcome)).1.Ok?
  {
    if outcome.Accepted? && e.pending.value.Persist? {
      StepStaysReachable(e.auth, b, PersistStarted);
      StepStaysReachable(Apply(e.auth, b, PersistStarted).value, b, PersistSucceeded);
    }
  }

  lemma CallStaysCoupled(e: Engine, b: Budgets, c: Call)
    requires Coupled(e, b)
    ensures Coupled(Do(e, b, c).0, b)
  {
    if c.Record? && e.pending.Some? { RecordStaysCoupled(e, b, c.outcome); }
  }

  lemma {:induction false} CallsStayCoupled(e: Engine, b: Budgets, cs: seq<Call>)
    requires Coupled(e, b)
    ensures Coupled(RunCalls(e, b, cs), b)
    decreases |cs|
  {
    if cs != [] {
      CallStaysCoupled(e, b, cs[0]);
      CallsStayCoupled(Do(e, b, cs[0]).0, b, cs[1..]);
    }
  }

  /**
  After any calls whatever: the pending step fixes the phase, a finished,
  failed or cancelled engine has none, and while one is pending no outcome
  can be refused.
  */
  lemma PendingStepFixesPhase(b: Budgets, cs: seq<Call>, outcome: Outcome)
    ensures var e := RunCalls(Fresh(), b, cs);
            && (e.pending.Some? ==> e.auth.phase == PhaseOf(e.pending.value))
            && (IsTerminal(e.auth.phase) ==> e.pending.None?)
            && (e.pending.Some? ==> Do(e, b, Record(outcome)).1.Ok?)
            && (e.pending.None? ==> Do(e, b, Record(outcome)) == (e, Err(NoPendingStep)))
  {
    CallsStayCoupled(Fresh(), b, cs);
    var e := RunCalls(Fresh(), b, cs);
    if e.pending.Some? { RecordStaysCoupled(e, b, outcome); }
  }

  // ---------------------------------------------------------------- what a reply tells

  /** The reply tells in which state it leaves the engine. */
  predicate Tells(e: Engine, a: Action) {
    match a
    case Invoke(step) => e.pending == Some(step)
    case PromptOtp => e.pending.None? && e.auth.phase.AwaitingOtp?
    case PromptWorkspacePassword => e.pending.None? && e.auth.phase.AwaitingWorkspacePassword?
    case Finished => e.pending.None? && e.auth.phase.Complete?
    case FallbackToLegacy(_) => e.pending.None?
    case GiveUpWith(kind) => e.pending.None? && e.auth.phase.Failed? && e.auth.failure == Some(kind)
  }

  /** What the engine may answer to a report on `step`. */
  predicate Answers(step: Step, outcome: Outcome, a: Action) {
    match outcome
    case DefinitelyNotSent => a == Invoke(step)
    case MayHaveCommitted => a == FallbackToLegacy(step)
    case Rejected(kind) =>
      || a == GiveUpWith(kind)
      || (step.ValidateOtp? && kind in {InvalidOtp, ExpiredOtp} && (a == Invoke(SendOtp) || a == PromptOtp))
      || (step.SubmitWorkspacePassword? && kind == InvalidWorkspacePassword && a == PromptWorkspacePassword)
    case Accepted =>
      a == match step
           case SendOtp => PromptOtp
           case ValidateOtp => Invoke(ResolveWorkspace)
           case ResolveWorkspace => PromptWorkspacePassword
           case SubmitWorkspacePassword => Invoke(ResumeOidc)
           case ResumeOidc => Invoke(MintPat)
           case MintPat => Invoke(Persist)
           case Persist => Finished
  }

  lemma CallTells(e: Engine, b: Budgets, c: Call)
    requires Coupled(e, b)
    ensures var (e', r) := Do(e, b, c);
            && (r.Ok? ==> Tells(e', r.value))
            && (r.Err? && c.Record? ==> e' == e)
            && (c.Record? && e.pending.Some? ==> r.Ok? && Answers(e.pending.value, c.outcome, r.value))
  {
    if c.Record? && e.pending.Some? { RecordStaysCoupled(e, b, c.outcome); }
  }

  /**
  After any calls, the reply to one more tells the state it leaves: the step to
  invoke is the one pending, a question is asked in the phase that takes the
  answer, the end is reported when it is reached, and giving up names the failure
  that was recorded. A step surely not sent is invoked again and changes nothing;
  an accepted one is followed by the next; and only a wrong code or password is
  ever asked for again.
  */
  lemma ReplyTellsState(b: Budgets, cs: seq<Call>, c: Call)
    ensures var e := RunCalls(Fresh(), b, cs);
            var (e', r) := Do(e, b, c);
            && (r.Ok? ==> Tells(e', r.value))
            && (r.Err? ==> e' == e)
            && (c.Record? && e.pending.Some? ==> r.Ok? && Answers(e.pending.value, c.outcome, r.value))
            && (c == Record(DefinitelyNotSent) ==> e' == e)
  {
    CallsStayCoupled(Fresh(), b, cs);
    var e := RunCalls(Fresh(), b, cs);
    CallTells(e, b, c);
  }

  // ---------------------------------------------------------------- what is accepted, in which order

  /** The steps whose acceptance was recorded, in order. */
  function AcceptedSteps(e: Engine, b: Budgets, cs: seq<Call>): seq<Step>
    decreases |cs|
  {
    if cs == [] then []
    else
      var rest := AcceptedSteps(Do(e, b, cs[0]).0, b, cs[1..]);
      if cs[0] == Record(Accepted) && e.pending.Some? && Do(e, b, cs[0]).1.Ok? then [e.pending.value] + rest
      else rest
  }

  const AFTER_OTP: seq<Step> := [ValidateOtp, ResolveWorkspace, SubmitWorkspacePassword, ResumeOidc, MintPat, Persist]

  function Sends(n: nat): seq<Step> { seq(n, i => SendOtp) }

  /** `k` steps of the fixed order are done and `otpSends` codes have been sent. */
  predicate At(e: Engine, k: nat) {
    && k <= 6
    && (k > 0 ==> e.auth.otpSends > 0)
    && match e.auth.phase
       case Idle => k == 0 && e.auth.otpSends == 0
       case SendingOtp => k == 0
       case AwaitingOtp => k == 0 && e.auth.otpSends > 0
       case ResolvingWorkspace => k == 1
       case AwaitingWorkspacePassword => k == 2
       case ExchangingToken =>
         if e.pending == Some(ResumeOidc) then k == 3
         else if e.pending == Some(MintPat) then k == 4
         else k == 3 || k == 4
       case Persisting => k == 5
       case _ => true
  }

  /** How far one call moves along the fixed order. */
  lemma OneCall(e: Engine, b: Budgets, c: Call, k: nat) returns (k': nat)
    requires Coupled(e, b) && At(e, k)
    ensures Coupled(Do(e, b, c).0, b) && At(Do(e, b, c).0, k')
    ensures var (e', r) := Do(e, b, c);
            if c == Record(Accepted) && e.pending.Some? && r.Ok? then
              if e.pending.value.SendOtp? then k == 0 && k' == 0 && e'.auth.otpSends == e.auth.otpSends + 1
              else k < 6 && e.pending.value == AFTER_OTP[k] && k' == k + 1 && e'.auth.otpSends == e.auth.otpSends
            else k' == k && e'.auth.otpSends == e.auth.otpSends
  {
    CallStaysCoupled(e, b, c);
    k' := if c == Record(Accepted) && e.pending.Some? && !e.pending.value.SendOtp? then k + 1 else k;
  }

  lemma {:induction false} OrderFrom(e: Engine, b: Budgets, cs: seq<Call>, k: nat) returns (n: nat, k': nat)
    requires Coupled(e, b) && At(e, k)
    ensures k <= k' <= 6 && (k > 0 ==> n == 0)
    ensures e.auth.otpSends + n == RunCalls(e, b, cs).auth.otpSends
    ensures At(RunCalls(e, b, cs), k')
    ensures AcceptedSteps(e, b, cs) == Sends(n) + AFTER_OTP[k..k']
    decreases |cs|
  {
    if cs == [] {
      n, k' := 0, k;
    } else {
      var k1 := OneCall(e, b, cs[0], k);
      var e1 := Do(e, b, cs[0]).0;
      n, k' := OrderFrom(e1, b, cs[1..], k1);
      if cs[0] == Record(Accepted) && e.pending.Some? && Do(e, b, cs[0]).1.Ok? {
        if e.pending.value.SendOtp? {
          assert [SendOtp] + Sends(n) == Sends(n + 1);
          n := n + 1;
        } else {
          assert [AFTER_OTP[k]] + AFTER_OTP[k1..k'] == AFTER_OTP[k..k'];
          assert Sends(n) == [];
        }
      }
    }
  }

  /**
  Whatever is called in whatever order, the accepted steps are some sends
  (no more than the budget) and then a prefix of the fixed order, which starts
  only after a send. So a token is minted and stored at most once.
  */
  lemma AcceptedInOrder(b: Budgets, cs: seq<Call>) returns (n: nat, k: nat)
    ensures k <= 6 && (k > 0 ==> n > 0) && n <= Limit(b.otpSends)
    ensures AcceptedSteps(Fresh(), b, cs) == Sends(n) + AFTER_OTP[..k]
  {
    n, k := OrderFrom(Fresh(), b, cs, 0);
    CallsStayCoupled(Fresh(), b, cs);
    assert AFTER_OTP[0..k] == AFTER_OTP[..k];
  }

  // ---------------------------------------------------------------- effects on the wire

  /** How often `step` may have reached the other side: every report but "definitely not sent". */
  function MayHaveReached(e: Engine, b: Budgets, cs: seq<Call>, step: Step): nat
    decreases |cs|
  {
    if cs == [] then 0
    else
      (if cs[0].Record? && !cs[0].outcome.DefinitelyNotSent? && e.pending == Some(step) then 1 else 0)
      + MayHaveReached(Do(e, b, cs[0]).0, b, cs[1..], step)
  }

  /** How often `step` may still be attempted. */
  function Left(e: Engine, b: Budgets, step: Step): nat
    requires Coupled(e, b) && HasExternalSideEffect(step)
  {
    var p := e.auth.phase;
    if IsTerminal(p) then 0
    else match step
      case SendOtp =>
        if p.Idle? || p.AwaitingOtp? || e.pending == Some(SendOtp) then Limit(b.otpSends) - e.auth.otpSends else 0
      case MintPat => if p.Persisting? || (p.ExchangingToken? && e.pending.None?) then 0 else 1
      case _ => if p.Persisting? && e.pending.None? then 0 else 1
  }

  lemma AttemptsFall(e: Engine, b: Budgets, c: Call, step: Step)
    requires Coupled(e, b) && HasExternalSideEffect(step)
    ensures Coupled(Do(e, b, c).0, b)
    ensures (if c.Record? && !c.outcome.DefinitelyNotSent? && e.pending == Some(step) then 1 else 0)
            + Left(Do(e, b, c).0, b, step) <= Left(e, b, step)
  {
    CallStaysCoupled(e, b, c);
  }

  lemma {:induction false} AttemptsAreLeft(e: Engine, b: Budgets, cs: seq<Call>, step: Step)
    requires Coupled(e, b) && HasExternalSideEffect(step)
    ensures MayHaveReached(e, b, cs, step) <= Left(e, b, step)
    decreases |cs|
  {
    if cs != [] {
      AttemptsFall(e, b, cs[0], step);
      AttemptsAreLeft(Do(e, b, cs[0]).0, b, cs[1..], step);
    }
  }

  /**
  Over any run at most one token mint and one store may have reached the other
  side, counting uncertain and rejected attempts, and no more code mails than
  the budget allows.
  */
  lemma SideEffectsAreBounded(b: Budgets, cs: seq<Call>)
    ensures MayHaveReached(Fresh(), b, cs, MintPat) <= 1
    ensures MayHaveReached(Fresh(), b, cs, Persist) <= 1
    ensures MayHaveReached(Fresh(), b, cs, SendOtp) <= Limit(b.otpSends)
  {
    AttemptsAreLeft(Fresh(), b, cs, MintPat);
    AttemptsAreLeft(Fresh(), b, cs, Persist);
    AttemptsAreLeft(Fresh(), b, cs, SendOtp);
  }

  // ---------------------------------------------------------------- after an uncertain outcome

  /** No call is answered with anything but an error, and none changes the engine. */
  predicate Stuck(e: Engine) {
    && e.version == ENGINE_VERSION
    && e.pending.None?
    && !e.auth.phase.Idle? && !e.auth.phase.AwaitingOtp? && !e.auth.phase.AwaitingWorkspacePassword?
  }

  lemma {:induction false} StuckForGood(e: Engine, b: Budgets, cs: seq<Call>)
    requires Stuck(e)
    ensures RunCalls(e, b, cs) == e
    decreases |cs|
  {
    if cs != [] {
      assert Do(e, b, cs[0]).0 == e;
      StuckForGood(e, b, cs[1..]);
    }
  }

  /** Some later call, after any others, is answered with a step to invoke. */
  ghost predicate CanInvokeAgain(e: Engine, b: Budgets) {
    exists cs: seq<Call>, c: Call :: Invokes(RunCalls(e, b, cs), b, c)
  }

  predicate Invokes(e: Engine, b: Budgets, c: Call) {
    var r := Do(e, b, c).1;
    r.Ok? && r.value.Invoke?
  }

  /**
  An uncertain outcome ends the wizard for good, except for the two steps the
  user feeds: after an uncertain code or password submission the engine still
  accepts another value and invokes the step again. It never does after a
  side-effecting step.
  */
  lemma UncertainOutcomeEndsWizardExactlyWhen(b: Budgets, cs: seq<Call>)
    requires RunCalls(Fresh(), b, cs).pending.Some?
    ensures var e := RunCalls(Fresh(), b, cs);
            var step := e.pending.value;
            && Do(e, b, Record(MayHaveCommitted)).1 == Ok(FallbackToLegacy(step))
            && (CanInvokeAgain(Do(e, b, Record(MayHaveCommitted)).0, b)
                <==> step.ValidateOtp? || step.SubmitWorkspacePassword?)
            && (HasExternalSideEffect(step) ==> Stuck(Do(e, b, Record(MayHaveCommitted)).0))
  {
    CallsStayCoupled(Fresh(), b, cs);
    var e := RunCalls(Fresh(), b, cs);
    var step := e.pending.value;
    var e' := Do(e, b, Record(MayHaveCommitted)).0;
    if step.ValidateOtp? {
      assert Invokes(RunCalls(e', b, []), b, SubmitOtp);
    } else if step.SubmitWorkspacePassword? {
      assert Invokes(RunCalls(e', b, []), b, SubmitPassword);
    } else {
      forall later: seq<Call>, c: Call ensures !Invokes(RunCalls(e', b, later), b, c) {
        StuckForGood(e', b, later);
      }
    }
  }
}
