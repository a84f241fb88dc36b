/** The state of the authentication machine, read off the events it has accepted. */
module AuthHistory {
  import opened Common
  import opened AuthMachine

  /** The events that were accepted, in order. */
  function Taken(s: AuthState, b: Budgets, es: seq<Event>): seq<Event>
    decreases |es|
  {
    if es == [] then []
    else
      var r := Apply(s, b, es[0]);
      if r.Ok? then [es[0]] + Taken(r.value, b, es[1..]) else Taken(s, b, es[1..])
  }

  // ---------------------------------------------------------------- what was accepted

  /** Rejected codes since the last mail. */
  function RejectedSinceSend(t: seq<Event>): nat
    decreases |t|
  {
    if t == [] || t[|t| - 1].OtpSent? then 0
    else RejectedSinceSend(t[..|t| - 1]) + if t[|t| - 1].OtpRejected? then 1 else 0
  }

  const AFTER_MAIL: seq<Event> :=
    [OtpAccepted, WorkspaceResolved, WorkspacePasswordAccepted, TokenExchanged, PersistSucceeded]

  predicate IsMilestone(e: Event) {
    e.Begin? || e.OtpSent? || e in AFTER_MAIL
  }

  /** The milestones among the events. */
  function Milestones(t: seq<Event>): seq<Event>
    decreases |t|
  {
    if t == [] then []
    else Milestones(t[..|t| - 1]) + if IsMilestone(t[|t| - 1]) then [t[|t| - 1]] else []
  }

  /** `sends` mails and `k` of the milestones that follow them. */
  function Course(sends: nat, k: nat): seq<Event>
    requires k <= 5
  {
    [Begin] + seq(sends, i => OtpSent) + AFTER_MAIL[..k]
  }

  /** How many milestones behind the mails each phase stands for. */
  predicate PhaseAt(p: Phase, k: nat) {
    match p
    case SendingOtp => k == 0
    case AwaitingOtp => k == 0
    case ResolvingWorkspace => k == 1
    case AwaitingWorkspacePassword => k == 2
    case ExchangingToken => k == 3
    case Persisting => k == 4
    case Complete => k == 5
    case Failed => k < 5
    case Cancelled => k < 5
    case _ => false
  }

  /** The counters are counts of accepted events. */
  predicate Counted(s: AuthState, t: seq<Event>) {
    && s.otpSends == multiset(t)[OtpSent] && s.otpAttempts == RejectedSinceSend(t)
    && s.passwordAttempts == multiset(t)[WorkspacePasswordRejected]
    && s.transportAttempts == multiset(t)[TransientFailure]
  }

  ghost predicate OnCourse(s: AuthState, t: seq<Event>) {
    if Milestones(t) == [] then s.otpSends == 0 && (s.phase.Idle? || s.phase.Failed? || s.phase.Cancelled?)
    else exists k: nat | k <= 5 :: PhaseAt(s.phase, k) && Milestones(t) == Course(s.otpSends, k)
  }

  /** Before the workspace is known no password can have been rejected. */
  predicate NoPasswordYet(s: AuthState) {
    s.phase in {Idle, SendingOtp, AwaitingOtp, ResolvingWorkspace} ==> s.passwordAttempts == 0
  }

  lemma OneMore(t: seq<Event>, e: Event)
    ensures Milestones(t + [e]) == Milestones(t) + if IsMilestone(e) then [e] else []
    ensures RejectedSinceSend(t + [e]) ==
            if e.OtpSent? then 0 else RejectedSinceSend(t) + if e.OtpRejected? then 1 else 0
  {
    assert (t + [e])[..|t|] == t;
  }

  function One(yes: bool): nat {
    if yes then 1 else 0
  }

  lemma CountOfMore(t: seq<Event>, e: Event, x: Event)
    ensures multiset(t + [e])[x] == multiset(t)[x] + One(e == x)
  {
  }

  /** What an accepted event does to the counters. */
  lemma CountersStep(s: AuthState, b: Budgets, e: Event)
    requires NoPasswordYet(s) && Apply(s, b, e).Ok?
    ensures var s' := Apply(s, b, e).value;
            && NoPasswordYet(s') && s'.otpSends == s.otpSends + One(e == OtpSent)
            && s'.otpAttempts == (if e.OtpSent? then 0 else s.otpAttempts + One(e.OtpRejected?))
            && s'.passwordAttempts == s.passwordAttempts + One(e == WorkspacePasswordRejected)
            && s'.transportAttempts == s.transportAttempts + One(e == TransientFailure)
  {
  }

  lemma StepIsCounted(s: AuthState, b: Budgets, e: Event, t: seq<Event>)
    requires Counted(s, t) && NoPasswordYet(s) && Apply(s, b, e).Ok?
    ensures Counted(Apply(s, b, e).value, t + [e]) && NoPasswordYet(Apply(s, b, e).value)
  {
    CountersStep(s, b, e);
    OneMore(t, e);
    CountOfMore(t, e, OtpSent);
    CountOfMore(t, e, WorkspacePasswordRejected);
    CountOfMore(t, e, TransientFailure);
  }

  lemma NextMail(sends: nat)
    ensures Course(sends, 0) + [OtpSent] == Course(sends + 1, 0)
  {
  }

  lemma NextMilestone(sends: nat, k: nat)
    requires k < 5
    ensures Course(sends, k) + [AFTER_MAIL[k]] == Course(sends, k + 1)
  {
    assert AFTER_MAIL[..k] + [AFTER_MAIL[k]] == AFTER_MAIL[..k + 1];
  }

  /** The phase behind the milestones goes on with the events. */
  function StepsOn(k: nat, e: Event): nat {
    if e in AFTER_MAIL then k + 1 else k
  }

  lemma PhaseStepsOn(s: AuthState, b: Budgets, e: Event, k: nat)
    requires k <= 5 && PhaseAt(s.phase, k) && Apply(s, b, e).Ok?
    ensures !e.Begin? && (e in AFTER_MAIL ==> k < 5 && e == AFTER_MAIL[k])
    ensures PhaseAt(Apply(s, b, e).value.phase, StepsOn(k, e)) && (e.OtpSent? ==> k == 0)
    ensures Apply(s, b, e).value.otpSends == s.otpSends + if e.OtpSent? then 1 else 0
  {
  }

  lemma CourseGoesOn(sends: nat, k: nat, e: Event)
    requires k <= 5 && !e.Begin? && (e in AFTER_MAIL ==> k < 5 && e == AFTER_MAIL[k]) && (e.OtpSent? ==> k == 0)
    ensures Course(sends, k) + (if IsMilestone(e) then [e] else [])
         == Course(sends + if e.OtpSent? then 1 else 0, StepsOn(k, e))
  {
    if e.OtpSent? {
      NextMail(sends);
    } else if e in AFTER_MAIL {
      NextMilestone(sends, k);
    }
  }

  lemma IsOnCourse(s: AuthState, t: seq<Event>, k: nat)
    requires k <= 5 && PhaseAt(s.phase, k) && Milestones(t) == Course(s.otpSends, k)
    ensures OnCourse(s, t)
  {
  }

  lemma StepStaysOnCourse(s: AuthState, b: Budgets, e: Event, t: seq<Event>)
    requires OnCourse(s, t) && Apply(s, b, e).Ok?
    ensures OnCourse(Apply(s, b, e).value, t + [e])
  {
    OneMore(t, e);
    if Milestones(t) != [] {
      var k: nat :| k <= 5 && PhaseAt(s.phase, k) && Milestones(t) == Course(s.otpSends, k);
      PhaseStepsOn(s, b, e, k);
      CourseGoesOn(s.otpSends, k, e);
      IsOnCourse(Apply(s, b, e).value, t + [e], StepsOn(k, e));
    } else if e.Begin? {
      IsOnCourse(Apply(s, b, e).value, t + [e], 0);
    }
  }

  // ---------------------------------------------------------------- whole runs

  lemma {:induction false} RunIsCounted(s: AuthState, b: Budgets, es: seq<Event>, t: seq<Event>)
    requires Counted(s, t) && NoPasswordYet(s)
    ensures Counted(After(s, b, es), t + Taken(s, b, es))
    decreases |es|
  {
    if es == [] {
      assert t + [] == t;
    } else {
      var r := Apply(s, b, es[0]);
      if r.Ok? {
        StepIsCounted(s, b, es[0], t);
        RunIsCounted(r.value, b, es[1..], t + [es[0]]);
        assert t + [es[0]] + Taken(r.value, b, es[1..]) == t + Taken(s, b, es);
      } else {
        RunIsCounted(s, b, es[1..], t);
      }
    }
  }

  lemma {:induction false} RunStaysOnCourse(s: AuthState, b: Budgets, es: seq<Event>, t: seq<Event>)
    requires OnCourse(s, t)
    ensures OnCourse(After(s, b, es), t + Taken(s, b, es))
    decreases |es|
  {
    if es == [] {
      assert t + [] == t;
    } else {
      var r := Apply(s, b, es[0]);
      if r.Ok? {
        StepStaysOnCourse(s, b, es[0], t);
        RunStaysOnCourse(r.value, b, es[1..], t + [es[0]]);
        assert t + [es[0]] + Taken(r.value, b, es[1..]) == t + Taken(s, b, es);
      } else {
        RunStaysOnCourse(s, b, es[1..], t);
      }
    }
  }

  /**
  Whatever is sent to the machine: each counter is the number of accepted events
  it counts, and the accepted milestones are the begin, some mails, and then a
  prefix of one fixed order, whose length the phase tells. So a login is complete
  exactly if all five milestones after the mails were accepted.
  */
  lemma StateTellsHistory(b: Budgets, es: seq<Event>)
    ensures Counted(After(INITIAL, b, es), Taken(INITIAL, b, es))
    ensures OnCourse(After(INITIAL, b, es), Taken(INITIAL, b, es))
  {
    RunIsCounted(INITIAL, b, es, []);
    RunStaysOnCourse(INITIAL, b, es, []);
    assert [] + Taken(INITIAL, b, es) == Taken(INITIAL, b, es);
  }

  // ---------------------------------------------------------------- what may be accepted, and why it fails

  /** The event fits the phase. */
  predicate Fits(p: Phase, e: Event) {
    match e
    case Begin => p == Idle
    case OtpSent => p == SendingOtp
    case OtpAccepted => p == AwaitingOtp
    case OtpRejected(_) => p == AwaitingOtp
    case WorkspaceResolved => p == ResolvingWorkspace
    case WorkspacePasswordAccepted => p == AwaitingWorkspacePassword
    case WorkspacePasswordRejected => p == AwaitingWorkspacePassword
    case TokenExchanged => p == ExchangingToken
    case PersistStarted => p == Persisting
    case PersistSucceeded => p == Persisting
    case _ => true
  }

  /** The budget that the event uses up, or the failure it reports. */
  predicate EndsIn(s: AuthState, b: Budgets, e: Event, kind: FailureKind) {
    || e == TerminalFailure(kind)
    || (e == OtpRejected(true) && kind == ExpiredOtp && s.otpSends >= b.otpSends)
    || (e == OtpRejected(false) && kind == InvalidOtp
        && s.otpSends >= b.otpSends && s.otpAttempts + 1 >= b.otpAttempts)
    || (e == WorkspacePasswordRejected && kind == InvalidWorkspacePassword
        && s.passwordAttempts + 1 >= b.passwordAttempts)
    || (e == TransientFailure && kind == TransientTransport && s.transportAttempts + 1 >= b.transportAttempts)
  }

  /** A code that may be typed again, on the mail that is out. */
  predicate SameMail(s: AuthState, b: Budgets, e: Event) {
    e == OtpRejected(false) && s.otpAttempts + 1 < b.otpAttempts
  }

  /**
  An event is accepted exactly if the machine is not at its end and the event
  fits the phase. It ends in a failure exactly if it uses up its budget or
  reports one; a rejected code that does not is followed by another one on the
  same mail, or, if it is expired or the mail's attempts are used up, by another mail.
  */
  lemma AcceptedExactlyWhen(s: AuthState, b: Budgets, e: Event)
    ensures Apply(s, b, e).Ok? <==> !IsTerminal(s.phase) && Fits(s.phase, e)
    ensures Apply(s, b, e).Err? ==>
              Apply(s, b, e).error == if IsTerminal(s.phase) then AlreadyTerminal(s.phase) else InvalidEvent(s.phase, e)
    ensures Apply(s, b, e).Ok? ==>
              forall kind :: Apply(s, b, e).value.failure == Some(kind) <==> EndsIn(s, b, e, kind)
    ensures Apply(s, b, e).Ok? ==>
              var s' := Apply(s, b, e).value;
              && (s'.failure.Some? <==> s'.phase.Failed?)
              && (s'.phase.Cancelled? <==> e.Cancel?)
              && (e.OtpRejected? && s'.failure.None? ==>
                    s'.phase == if SameMail(s, b, e) then AwaitingOtp else SendingOtp)
              && (e.TransientFailure? && s'.failure.None? ==> s'.phase == s.phase)
  {
  }

  lemma {:induction false} TerminalStays(s: AuthState, b: Budgets, es: seq<Event>)
    requires IsTerminal(s.phase)
    ensures After(s, b, es) == s
    decreases |es|
  {
    if es != [] { TerminalStays(s, b, es[1..]); }
  }

  /** A failed login failed at one accepted event, which used up a budget or reported the failure. */
  lemma {:induction false} WhyFailed(s: AuthState, b: Budgets, es: seq<Event>) returns (i: nat)
    requires !IsTerminal(s.phase) && s.failure.None? && After(s, b, es).phase.Failed?
    ensures i < |es| && !IsTerminal(After(s, b, es[..i]).phase) && Fits(After(s, b, es[..i]).phase, es[i])
    ensures After(s, b, es).failure.Some?
    ensures EndsIn(After(s, b, es[..i]), b, es[i], After(s, b, es).failure.value)
    decreases |es|
  {
    var r := Apply(s, b, es[0]);
    var s' := if r.Ok? then r.value else s;
    AcceptedExactlyWhen(s, b, es[0]);
    if IsTerminal(s'.phase) {
      TerminalStays(s', b, es[1..]);
      i := 0;
    } else {
      i := WhyFailed(s', b, es[1..]);
      i := i + 1;
      assert es[..i][0] == es[0] && es[..i][1..] == es[1..][..i - 1];
    }
  }

  /** The same from the start, with the budgets counted in accepted events. */
  lemma FailureIsExplained(b: Budgets, es: seq<Event>) returns (i: nat)
    requires After(INITIAL, b, es).phase.Failed?
    ensures i < |es| && After(INITIAL, b, es).failure.Some?
    ensures var t, kind := Taken(INITIAL, b, es[..i]), After(INITIAL, b, es).failure.value;
            || es[i] == TerminalFailure(kind)
            || (es[i] == OtpRejected(true) && kind == ExpiredOtp && multiset(t)[OtpSent] >= b.otpSends)
            || (es[i] == OtpRejected(false) && kind == InvalidOtp && multiset(t)[OtpSent] >= b.otpSends
                && RejectedSinceSend(t) + 1 >= b.otpAttempts)
            || (es[i] == WorkspacePasswordRejected && kind == InvalidWorkspacePassword
                && multiset(t)[WorkspacePasswordRejected] + 1 >= b.passwordAttempts)
            || (es[i] == TransientFailure && kind == TransientTransport
                && multiset(t)[TransientFailure] + 1 >= b.transportAttempts)
  {
    i := WhyFailed(INITIAL, b, es);
    StateTellsHistory(b, es[..i]);
  }
}
