/** The authentication state machine: retry budgets, failures, and how long a login can last. */
module AuthMachine {
  import opened Common

  datatype Phase =
    | Idle | SendingOtp | AwaitingOtp | ValidatingOtp | ResolvingWorkspace
    | AwaitingWorkspacePassword | ValidatingWorkspacePassword | ExchangingToken
    | Persisting | Complete | Failed | Cancelled

  datatype FailureKind =
    | InvalidOtp | ExpiredOtp | InvalidWorkspacePassword | TransientTransport
    | StaleCredential | SecretStoreUnavailable | CancelledByUser | Protocol | Terminal

  datatype AuthState = AuthState(
    phase: Phase, otpAttempts: nat, otpSends: nat, passwordAttempts: nat, transportAttempts: nat,
    failure: Option<FailureKind>)

  datatype Budgets = Budgets(otpAttempts: nat, otpSends: nat, passwordAttempts: nat, transportAttempts: nat)

  datatype Event =
    | Begin | OtpSent | OtpAccepted | OtpRejected(expired: bool)
    | WorkspaceResolved | WorkspacePasswordAccepted | WorkspacePasswordRejected
    | TokenExchanged | PersistStarted | PersistSucceeded
    | TransientFailure | TerminalFailure(kind: FailureKind) | Cancel

  datatype TransitionError = AlreadyTerminal(phase: Phase) | InvalidEvent(phase: Phase, event: Event)

  const DEFAULT_BUDGETS := Budgets(3, 2, 3, 3)
  const INITIAL := AuthState(Idle, 0, 0, 0, 0, None)

  predicate IsTerminal(p: Phase) {
    p.Complete? || p.Failed? || p.Cancelled?
  }

  function Fail(s: AuthState, kind: FailureKind): AuthState {
    s.(phase := Failed, failure := Some(kind))
  }

  function Go(s: AuthState, p: Phase): AuthState {
    s.(phase := p, failure := None)
  }

  /** Where a rejected code leads once it has been counted. */
  function AfterRejectedOtp(s: AuthState, b: Budgets, expired: bool): AuthState {
    if expired then
      if s.otpSends >= b.otpSends then Fail(s, ExpiredOtp) else Go(s, SendingOtp)
    else if s.otpAttempts >= b.otpAttempts then
      if s.otpSends >= b.otpSends then Fail(s, InvalidOtp) else Go(s, SendingOtp)
    else Go(s, AwaitingOtp)
  }

  function Apply(s: AuthState, b: Budgets, e: Event): Result<AuthState, TransitionError> {
    if IsTerminal(s.phase) then Err(AlreadyTerminal(s.phase))
    else match e
      case Begin =>
        if s.phase.Idle? then Ok(Go(s, SendingOtp)) else Err(InvalidEvent(s.phase, e))
      case OtpSent =>
        if s.phase.SendingOtp? then Ok(Go(s.(otpSends := s.otpSends + 1, otpAttempts := 0), AwaitingOtp))
        else Err(InvalidEvent(s.phase, e))
      case OtpAccepted =>
        if s.phase.AwaitingOtp? then Ok(Go(s, ResolvingWorkspace)) else Err(InvalidEvent(s.phase, e))
      case OtpRejected(expired) =>
        if s.phase.AwaitingOtp?
        then Ok(AfterRejectedOtp(s.(otpAttempts := s.otpAttempts + 1), b, expired))
        else Err(InvalidEvent(s.phase, e))
      case WorkspaceResolved =>
        if s.phase.ResolvingWorkspace?
        then Ok(Go(s.(passwordAttempts := 0), AwaitingWorkspacePassword))
        else Err(InvalidEvent(s.phase, e))
      case WorkspacePasswordAccepted =>
        if s.phase.AwaitingWorkspacePassword? then Ok(Go(s, ExchangingToken))
        else Err(InvalidEvent(s.phase, e))
      case WorkspacePasswordRejected =>
        if s.phase.AwaitingWorkspacePassword? then
          var t := s.(passwordAttempts := s.passwordAttempts + 1);
          Ok(if t.passwordAttempts >= b.passwordAttempts then Fail(t, InvalidWorkspacePassword) else Go(t, t.phase))
        else Err(InvalidEvent(s.phase, e))
      case TokenExchanged =>
        if s.phase.ExchangingToken? then Ok(Go(s, Persisting)) else Err(InvalidEvent(s.phase, e))
      case PersistStarted =>
        if s.phase.Persisting? then Ok(Go(s, Persisting)) else Err(InvalidEvent(s.phase, e))
      case PersistSucceeded =>
        if s.phase.Persisting? then Ok(Go(s, Complete)) else Err(InvalidEvent(s.phase, e))
      case TransientFailure =>
        var t := s.(transportAttempts := s.transportAttempts + 1);
        Ok(if t.transportAttempts >= b.transportAttempts then Fail(t, TransientTransport) else Go(t, t.phase))
      case TerminalFailure(kind) => Ok(Fail(s, kind))
      case Cancel => Ok(Go(s, Cancelled))
  }

  /** The object the wizard and the agent protocol share: an error changes nothing. */
  class AuthStateMachine {
    var state: AuthState
    const budgets: Budgets

    constructor (budgets: Budgets)
      ensures state == INITIAL && this.budgets == budgets
    {
      state := INITIAL;
      this.budgets := budgets;
    }

    method FailWith(kind: FailureKind)
      modifies this
      ensures state == Fail(old(state), kind)
    {
      state := state.(failure := Some(kind), phase := Failed);
    }

    method ApplyEvent(e: Event) returns (r: Result<AuthState, TransitionError>)
      modifies this
      ensures r == Apply(old(state), budgets, e)
      ensures state == if r.Ok? then r.value else old(state)
    {
      if IsTerminal(state.phase) { return Err(AlreadyTerminal(state.phase)); }
      var phase := state.phase;
      if phase.Idle? && e.Begin? {
        state := state.(phase := SendingOtp);
      } else if phase.SendingOtp? && e.OtpSent? {
        state := state.(otpSends := state.otpSends + 1);
        state := state.(otpAttempts := 0);
        state := state.(phase := AwaitingOtp);
      } else if phase.AwaitingOtp? && e.OtpAccepted? {
        state := state.(phase := ResolvingWorkspace);
      } else if phase.AwaitingOtp? && e.OtpRejected? {
        state := state.(otpAttempts := state.otpAttempts + 1);
        if e.expired {
          if state.otpSends >= budgets.otpSends { FailWith(ExpiredOtp); return Ok(state); }
          state := state.(phase := SendingOtp);
        } else if state.otpAttempts >= budgets.otpAttempts {
          if state.otpSends >= budgets.otpSends { FailWith(InvalidOtp); return Ok(state); }
          state := state.(phase := SendingOtp);
        }
      } else if phase.ResolvingWorkspace? && e.WorkspaceResolved? {
        state := state.(phase := AwaitingWorkspacePassword);
        state := state.(passwordAttempts := 0);
      } else if phase.AwaitingWorkspacePassword? && e.WorkspacePasswordAccepted? {
        state := state.(phase := ExchangingToken);
      } else if phase.AwaitingWorkspacePassword? && e.WorkspacePasswordRejected? {
        state := state.(passwordAttempts := state.passwordAttempts + 1);
        if state.passwordAttempts >= budgets.passwordAttempts {
          FailWith(InvalidWorkspacePassword);
          return Ok(state);
        }
      } else if phase.ExchangingToken? && e.TokenExchanged? {
        state := state.(phase := Persisting);
      } else if phase.Persisting? && e.PersistStarted? {
      } else if phase.Persisting? && e.PersistSucceeded? {
        state := state.(phase := Complete);
      } else if e.TransientFailure? {
        state := state.(transportAttempts := state.transportAttempts + 1);
        if state.transportAttempts >= budgets.transportAttempts {
          FailWith(TransientTransport);
          return Ok(state);
        }
      } else if e.TerminalFailure? {
        FailWith(e.kind);
        return Ok(state);
      } else if e.Cancel? {
        state := state.(failure := Some(CancelledByUser));
        state := state.(phase := Cancelled);
      } else {
        return Err(InvalidEvent(phase, e));
      }
      state := state.(failure := None);
      return Ok(state);
    }
  }

  // ---------------------------------------------------------------- reachable states

  /** A budget of zero still lets one attempt through. */
  function Limit(budget: nat): nat {
    if budget == 0 then 1 else budget
  }

  predicate Reachable(s: AuthState, b: Budgets) {
    && s.otpAttempts <= Limit(b.otpAttempts)
    && s.otpSends <= Limit(b.otpSends)
    && s.passwordAttempts <= Limit(b.passwordAttempts)
    && s.transportAttempts <= Limit(b.transportAttempts)
    && (s.failure.Some? <==> s.phase.Failed?)
    && (s.phase.Idle? ==> s.otpSends == 0)
    && (s.phase.SendingOtp? ==> s.otpSends < Limit(b.otpSends))
    && (s.phase.AwaitingOtp? ==> s.otpSends >= 1 && s.otpAttempts < Limit(b.otpAttempts))
    && (s.phase.AwaitingWorkspacePassword? ==> s.passwordAttempts < Limit(b.passwordAttempts))
    && (!IsTerminal(s.phase) ==> s.transportAttempts < Limit(b.transportAttempts))
    && !s.phase.ValidatingOtp? && !s.phase.ValidatingWorkspacePassword?
  }

  /** Run events one by one; rejected events change nothing and are counted out. */
  function After(s: AuthState, b: Budgets, es: seq<Event>): AuthState
    decreases |es|
  {
    if es == [] then s
    else
      var r := Apply(s, b, es[0]);
      After(if r.Ok? then r.value else s, b, es[1..])
  }

  function Accepted(s: AuthState, b: Budgets, es: seq<Event>): nat
    decreases |es|
  {
    if es == [] then 0
    else
      var r := Apply(s, b, es[0]);
      if r.Ok? then 1 + Accepted(r.value, b, es[1..]) else Accepted(s, b, es[1..])
  }

  lemma StepStaysReachable(s: AuthState, b: Budgets, e: Event)
    requires Reachable(s, b)
    ensures Apply(s, b, e).Ok? ==> Reachable(Apply(s, b, e).value, b)
  {
  }

  /**
  In every reachable state no counter exceeds its budget (or one, for a budget
  of zero), so with 32-bit budgets none can overflow, and a failure is recorded
  exactly in the failed phase.
  */
  lemma {:induction false} CountersStayInBudget(s: AuthState, b: Budgets, es: seq<Event>)
    requires Reachable(s, b)
    ensures Reachable(After(s, b, es), b)
    decreases |es|
  {
    if es != [] {
      StepStaysReachable(s, b, es[0]);
      var r := Apply(s, b, es[0]);
      CountersStayInBudget(if r.Ok? then r.value else s, b, es[1..]);
    }
  }

  // ---------------------------------------------------------------- termination

  function PasswordRounds(b: Budgets): nat { Limit(b.passwordAttempts) + 3 }

  function Rounds(s: AuthState, b: Budgets): nat
    requires Reachable(s, b)
  {
    var a, n := Limit(b.otpAttempts), Limit(b.otpSends);
    if s.phase.Idle? then PasswordRounds(b) + n * (a + 1) + 1
    else if s.phase.SendingOtp? then PasswordRounds(b) + (n - s.otpSends) * (a + 1)
    else if s.phase.AwaitingOtp? then PasswordRounds(b) + (n - s.otpSends) * (a + 1) + (a - s.otpAttempts)
    else if s.phase.ResolvingWorkspace? then PasswordRounds(b)
    else if s.phase.AwaitingWorkspacePassword? then Limit(b.passwordAttempts) - s.passwordAttempts + 2
    else if s.phase.ExchangingToken? then 2
    else 1
  }

  /** How many more events other than `PersistStarted` can be accepted. */
  function Rank(s: AuthState, b: Budgets): nat
    requires Reachable(s, b)
  {
    if IsTerminal(s.phase) then 0
    else Rounds(s, b) + (Limit(b.transportAttempts) - 1 - s.transportAttempts)
  }

  lemma OneFewer(n: nat, k: nat, a: nat)
    requires k < n
    ensures (n - k) * (a + 1) == (n - (k + 1)) * (a + 1) + a + 1
  {
  }

  lemma RankFalls(s: AuthState, b: Budgets, e: Event)
    requires Reachable(s, b) && !e.PersistStarted? && Apply(s, b, e).Ok?
    ensures Reachable(Apply(s, b, e).value, b) && Rank(Apply(s, b, e).value, b) < Rank(s, b)
  {
    StepStaysReachable(s, b, e);
    if s.phase.SendingOtp? && e.OtpSent? {
      OneFewer(Limit(b.otpSends), s.otpSends, Limit(b.otpAttempts));
    } else if s.phase.AwaitingOtp? && e.OtpRejected? {
      RejectionRankFalls(s, b, e.expired);
    } else if s.phase.AwaitingOtp? && e.OtpAccepted? {
      NotNegative(Limit(b.otpSends), s.otpSends, Limit(b.otpAttempts));
    }
  }

  lemma NotNegative(n: nat, k: nat, a: nat)
    requires k <= n
    ensures (n - k) * (a + 1) >= 0
  {
  }

  lemma RejectionRankFalls(s: AuthState, b: Budgets, expired: bool)
    requires Reachable(s, b) && s.phase.AwaitingOtp?
    ensures var s' := AfterRejectedOtp(s.(otpAttempts := s.otpAttempts + 1), b, expired);
            Reachable(s', b) && Rank(s', b) < Rank(s, b)
  {
    StepStaysReachable(s, b, OtpRejected(expired));
    NotNegative(Limit(b.otpSends), s.otpSends, Limit(b.otpAttempts));
  }

  /** The longest possible login, as a function of the four budgets. */
  function LongestRun(b: Budgets): nat {
    Limit(b.otpSends) * (Limit(b.otpAttempts) + 1) + Limit(b.passwordAttempts) + Limit(b.transportAttempts) + 3
  }

  lemma {:induction false} AcceptedIsBounded(s: AuthState, b: Budgets, es: seq<Event>)
    requires Reachable(s, b) && forall e | e in es :: !e.PersistStarted?
    ensures Accepted(s, b, es) <= Rank(s, b)
    decreases |es|
  {
    if es != [] {
      assert es[0] in es;
      var r := Apply(s, b, es[0]);
      if r.Ok? { RankFalls(s, b, es[0]); }
      AcceptedIsBounded(if r.Ok? then r.value else s, b, es[1..]);
    }
  }

  /** Every login ends: no sequence of events has more accepted ones than the budgets allow. */
  lemma LoginTerminates(b: Budgets, es: seq<Event>)
    requires forall e | e in es :: !e.PersistStarted?
    ensures Accepted(INITIAL, b, es) <= LongestRun(b)
  {
    AcceptedIsBounded(INITIAL, b, es);
  }

  // ---------------------------------------------------------------- the bound is reached

  function Repeat(e: Event, n: nat): seq<Event> {
    seq(n, i => e)
  }

  lemma {:induction false} RunJoins(s: AuthState, b: Budgets, x: seq<Event>, y: seq<Event>)
    ensures After(s, b, x + y) == After(After(s, b, x), b, y)
    ensures Accepted(s, b, x + y) == Accepted(s, b, x) + Accepted(After(s, b, x), b, y)
    decreases |x|
  {
    if x == [] {
      assert x + y == y;
    } else {
      assert (x + y)[0] == x[0] && (x + y)[1..] == x[1..] + y;
      var r := Apply(s, b, x[0]);
      RunJoins(if r.Ok? then r.value else s, b, x[1..], y);
    }
  }

  /** `n` rejections that stay within the phase's budget. */
  lemma {:induction false} RejectionsPass(s: AuthState, b: Budgets, n: nat)
    requires s.phase.AwaitingOtp? && s.failure.None? && s.otpAttempts + n < Limit(b.otpAttempts)
    ensures After(s, b, Repeat(OtpRejected(false), n)) == s.(otpAttempts := s.otpAttempts + n)
    ensures Accepted(s, b, Repeat(OtpRejected(false), n)) == n
    decreases n
  {
    if n > 0 {
      assert Repeat(OtpRejected(false), n)[1..] == Repeat(OtpRejected(false), n - 1);
      RejectionsPass(Apply(s, b, OtpRejected(false)).value, b, n - 1);
    }
  }

  lemma {:induction false} PasswordsPass(s: AuthState, b: Budgets, n: nat)
    requires s.phase.AwaitingWorkspacePassword? && s.failure.None?
    requires s.passwordAttempts + n < Limit(b.passwordAttempts)
    ensures After(s, b, Repeat(WorkspacePasswordRejected, n)) == s.(passwordAttempts := s.passwordAttempts + n)
    ensures Accepted(s, b, Repeat(WorkspacePasswordRejected, n)) == n
    decreases n
  {
    if n > 0 {
      assert Repeat(WorkspacePasswordRejected, n)[1..] == Repeat(WorkspacePasswordRejected, n - 1);
      PasswordsPass(Apply(s, b, WorkspacePasswordRejected).value, b, n - 1);
    }
  }

  lemma {:induction false} TransientsPass(s: AuthState, b: Budgets, n: nat)
    requires !IsTerminal(s.phase) && s.failure.None? && s.transportAttempts + n < Limit(b.transportAttempts)
    ensures After(s, b, Repeat(TransientFailure, n)) == s.(transportAttempts := s.transportAttempts + n)
    ensures Accepted(s, b, Repeat(TransientFailure, n)) == n
    decreases n
  {
    if n > 0 {
      assert Repeat(TransientFailure, n)[1..] == Repeat(TransientFailure, n - 1);
      TransientsPass(Apply(s, b, TransientFailure).value, b, n - 1);
    }
  }

  /** One code is sent and rejected until its budget is gone; another may be sent. */
  lemma OneReference(s: AuthState, b: Budgets) returns (es: seq<Event>)
    requires s.phase.SendingOtp? && s.failure.None? && s.otpSends + 1 < Limit(b.otpSends)
    ensures Quiet(es) && Accepted(s, b, es) == Limit(b.otpAttempts) + 1
    ensures var s' := After(s, b, es);
            && s'.phase.SendingOtp? && s'.failure.None? && s'.otpSends == s.otpSends + 1
            && s'.transportAttempts == s.transportAttempts
  {
    var a := Limit(b.otpAttempts);
    var sent := Apply(s, b, OtpSent).value;
    RejectionsPass(sent, b, a - 1);
    var rejected := Repeat(OtpRejected(false), a - 1);
    var last := [OtpRejected(false)];
    Single(s, b, OtpSent);
    Single(After(sent, b, rejected), b, OtpRejected(false));
    RunJoins(sent, b, rejected, last);
    RunJoins(s, b, [OtpSent], rejected + last);
    es := [OtpSent] + (rejected + last);
  }

  predicate Quiet(es: seq<Event>) {
    forall e | e in es :: !e.PersistStarted?
  }

  lemma Single(s: AuthState, b: Budgets, e: Event)
    ensures After(s, b, [e]) == if Apply(s, b, e).Ok? then Apply(s, b, e).value else s
    ensures Accepted(s, b, [e]) == if Apply(s, b, e).Ok? then 1 else 0
  {
    var r := Apply(s, b, e);
    assert After(if r.Ok? then r.value else s, b, [e][1..]) == if r.Ok? then r.value else s;
  }

  lemma {:induction false} References(s: AuthState, b: Budgets, n: nat) returns (es: seq<Event>)
    requires s.phase.SendingOtp? && s.failure.None? && s.otpSends + n < Limit(b.otpSends)
    ensures Quiet(es) && Accepted(s, b, es) == n * (Limit(b.otpAttempts) + 1)
    ensures var s' := After(s, b, es);
            && s'.phase.SendingOtp? && s'.failure.None? && s'.otpSends == s.otpSends + n
            && s'.transportAttempts == s.transportAttempts
    decreases n
  {
    if n == 0 {
      es := [];
    } else {
      var first := OneReference(s, b);
      var rest := References(After(s, b, first), b, n - 1);
      RunJoins(s, b, first, rest);
      es := first + rest;
    }
  }

  /** From the workspace on: the password succeeds at its last attempt, the transport at its last. */
  lemma PasswordRun(s: AuthState, b: Budgets) returns (es: seq<Event>)
    requires s.phase.ResolvingWorkspace? && s.failure.None? && s.transportAttempts == 0
    ensures Quiet(es) && Accepted(s, b, es) == Limit(b.passwordAttempts) + Limit(b.transportAttempts) + 2
  {
    var w, t := Limit(b.passwordAttempts), Limit(b.transportAttempts);
    var s4 := Apply(s, b, WorkspaceResolved).value;
    PasswordsPass(s4, b, w - 1);
    var s5 := After(s4, b, Repeat(WorkspacePasswordRejected, w - 1));
    TransientsPass(s5, b, t - 1);
    var s6 := After(s5, b, Repeat(TransientFailure, t - 1));
    es := ExchangeRun(s6, b);
    RunJoins(s5, b, Repeat(TransientFailure, t - 1), es);
    es := Repeat(TransientFailure, t - 1) + es;
    RunJoins(s4, b, Repeat(WorkspacePasswordRejected, w - 1), es);
    es := Repeat(WorkspacePasswordRejected, w - 1) + es;
    es := Prepend(s, b, WorkspaceResolved, es);
  }

  lemma ExchangeRun(s: AuthState, b: Budgets) returns (es: seq<Event>)
    requires s.phase.AwaitingWorkspacePassword?
    ensures Quiet(es) && Accepted(s, b, es) == 3
  {
    var s7 := Apply(s, b, WorkspacePasswordAccepted).value;
    var s8 := Apply(s7, b, TokenExchanged).value;
    Single(s8, b, PersistSucceeded);
    es := Prepend(s7, b, TokenExchanged, [PersistSucceeded]);
    es := Prepend(s, b, WorkspacePasswordAccepted, es);
  }

  /** The last code succeeds at its last attempt. */
  lemma LastReference(s: AuthState, b: Budgets) returns (es: seq<Event>)
    requires s.phase.SendingOtp? && s.failure.None? && s.transportAttempts == 0
    ensures Quiet(es)
    ensures Accepted(s, b, es) == Limit(b.otpAttempts) + 1 + Limit(b.passwordAttempts) + Limit(b.transportAttempts) + 2
  {
    var a := Limit(b.otpAttempts);
    var s1 := Apply(s, b, OtpSent).value;
    RejectionsPass(s1, b, a - 1);
    var s2 := After(s1, b, Repeat(OtpRejected(false), a - 1));
    es := PasswordRun(Apply(s2, b, OtpAccepted).value, b);
    es := Prepend(s2, b, OtpAccepted, es);
    RunJoins(s1, b, Repeat(OtpRejected(false), a - 1), es);
    es := Repeat(OtpRejected(false), a - 1) + es;
    es := Prepend(s, b, OtpSent, es);
  }

  lemma Prepend(s: AuthState, b: Budgets, e: Event, es: seq<Event>) returns (all: seq<Event>)
    requires Apply(s, b, e).Ok? && !e.PersistStarted? && Quiet(es)
    ensures Quiet(all) && all == [e] + es
    ensures Accepted(s, b, all) == 1 + Accepted(Apply(s, b, e).value, b, es)
  {
    Single(s, b, e);
    RunJoins(s, b, [e], es);
    all := [e] + es;
  }

  /** The bound is exact: for all budgets some login is that long. */
  lemma LongestRunIsReached(b: Budgets) returns (es: seq<Event>)
    ensures Quiet(es) && Accepted(INITIAL, b, es) == LongestRun(b)
  {
    var n, a := Limit(b.otpSends), Limit(b.otpAttempts);
    var s := Apply(INITIAL, b, Begin).value;
    var first := References(s, b, n - 1);
    var last := LastReference(After(s, b, first), b);
    RunJoins(s, b, first, last);
    es := Prepend(INITIAL, b, Begin, first + last);
    OneFewer(n, 0, a);
  }

  // ---------------------------------------------------------------- the legacy policy

  datatype OtpAction = Reprompt | Resend | GiveUp

  const OTP_ATTEMPTS_PER_REFERENCE := 3
  const MAX_OTP_SENDS := 2

  function NextOtpAction(attempt: nat, sends: nat): OtpAction {
    if attempt < OTP_ATTEMPTS_PER_REFERENCE then Reprompt
    else if sends < MAX_OTP_SENDS then Resend
    else GiveUp
  }

  /** With default budgets the legacy lane and the state machine treat a wrong code alike. */
  lemma LegacyPolicyIsTheMachines(s: AuthState)
    requires s.phase.AwaitingOtp?
    ensures var s' := Apply(s, DEFAULT_BUDGETS, OtpRejected(false)).value;
            var action := NextOtpAction(s.otpAttempts + 1, s.otpSends);
            && (action.Reprompt? <==> s'.phase.AwaitingOtp?)
            && (action.Resend? <==> s'.phase.SendingOtp?)
            && (action.GiveUp? <==> s'.phase.Failed?)
            && (action.GiveUp? ==> s'.failure == Some(InvalidOtp))
  {
  }
}
