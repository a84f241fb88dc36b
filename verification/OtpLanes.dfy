/**
The two email-OTP lanes, the Legacy driver and the Wizard driver: when do they
say exactly the same things to the server and the user?
*/
module OtpLanes {
  import opened Common
  import opened AuthMachine
  import W = WizardEngine
  import opened OtpExchange
  import opened Text

  type Ending = (History, Result<Login, OtpError>)

  // ---------------------------------------------------------------- the Legacy lane

  /** Send a code after `sends` earlier ones, then ask for it. */
  function LegacySend(w: World, h: History, sends: nat): (r: (History, Result<Done, OtpError>))
    requires sends < MAX_OTP_SENDS
    ensures h < r.0
    decreases (MAX_OTP_SENDS - sends) * 10
  {
    var (h1, reference) := Effect(w, h, SendPasscode);
    if reference.Err? then (h1, Err(reference.error))
    else
      var r := LegacyCodes(w, h1, reference.value, 0, sends + 1);
      assert h1 < r.0;
      r
  }

  /** Ask for a code and try it, after `attempt` failures on this reference. */
  function LegacyCodes(w: World, h: History, reference: string, attempt: nat, sends: nat)
    : (r: (History, Result<Done, OtpError>))
    requires attempt < OTP_ATTEMPTS_PER_REFERENCE && 0 < sends <= MAX_OTP_SENDS
    ensures h < r.0
    decreases (MAX_OTP_SENDS - sends) * 10 + 5 - attempt
  {
    var h1 := h + [AskedOtp];
    var code := w.code(h1);
    if code.None? then (h1, Err(NoInput))
    else
      var (h2, v) := Validate(w, h1, reference, code.value);
      if v.Ok? then (h2, v)
      else match NextOtpAction(attempt + 1, sends)
        case Reprompt => var r := LegacyCodes(w, h2, reference, attempt + 1, sends); assert h2 < r.0; r
        case Resend => var r := LegacySend(w, h2, sends); assert h2 < r.0; r
        case GiveUp => (h2, v)
  }

  function Legacy(w: World, fixed: Option<string>): Ending {
    var (h, otp) := LegacySend(w, [Sent(WarmUp)], 0);
    if otp.Err? then (h, Err(otp.error)) else AfterOtp(w, h, fixed)
  }

  method OtpLoginWithReprompt(c: Client) returns (r: Result<Done, OtpError>)
    modifies c
    ensures (c.log, r) == LegacySend(c.world, old(c.log), 0)
  {
    var sends: nat := 0;
    while true
      invariant sends < MAX_OTP_SENDS
      invariant LegacySend(c.world, old(c.log), 0) == LegacySend(c.world, c.log, sends)
      decreases MAX_OTP_SENDS - sends
    {
      sends := sends + 1;
      var reference := c.SendEffect(SendPasscode);
      if reference.Err? { return Err(reference.error); }
      var attempt: nat := 0;
      while true
        invariant attempt < OTP_ATTEMPTS_PER_REFERENCE
        invariant LegacySend(c.world, old(c.log), 0)
               == LegacyCodes(c.world, c.log, reference.value, attempt, sends)
        decreases OTP_ATTEMPTS_PER_REFERENCE - attempt
      {
        attempt := attempt + 1;
        var code := c.GetOtp();
        if code.None? { return Err(NoInput); }
        var v := c.SendSubmission(ValidatePasscode(reference.value, Trim(code.value)), CodeRejected);
        if v.Ok? { return v; }
        var action := NextOtpAction(attempt, sends);
        if action.GiveUp? { return v; }
        if action.Resend? { break; }
      }
    }
  }

  /** The frozen driver. */
  method LegacyLogin(w: World, fixed: Option<string>) returns (r: Result<Login, OtpError>, said: History)
    ensures (said, r) == Legacy(w, fixed)
  {
    var c := new Client(w);
    var otp := OtpLoginWithReprompt(c);
    said := c.log;
    if otp.Err? { return Err(otp.error), said; }
    var id := c.ResolveWorkspacePage();
    said := c.log;
    if id.Err? { return Err(id.error), said; }
    var password := c.LoginWithPrompt(fixed);
    said := c.log;
    if password.Err? { return Err(password.error), said; }
    var resumed := c.FollowRedirects(Resume(id.value));
    said := c.log;
    if resumed.Err? { return Err(resumed.error), said; }
    var token := c.MintPat();
    said := c.log;
    if token.Err? { return Err(token.error), said; }
    return Ok(Login(token.value, password.value)), said;
  }

  // ---------------------------------------------------------------- the Wizard lane

  /** Ask for a code and try it, after `rejections` classified rejections. */
  function WizardCodes(w: World, h: History, reference: string, rejections: nat)
    : (r: (History, Result<Done, OtpError>))
    requires rejections < DEFAULT_BUDGETS.otpAttempts
    ensures h < r.0
    decreases DEFAULT_BUDGETS.otpAttempts - rejections
  {
    var h1 := h + [AskedOtp];
    var code := w.code(h1);
    if code.None? then (h1, Err(NoInput))
    else
      var (h2, v) := Validate(w, h1, reference, code.value);
      if v.Ok? then (h2, v)
      else if !v.error.CodeRejected? then (h2, Err(Unclassified))
      else if rejections + 1 >= DEFAULT_BUDGETS.otpAttempts then (h2, Err(ReferenceExhausted))
      else
        var r := WizardCodes(w, h2, reference, rejections + 1);
        assert h2 < r.0;
        r
  }

  function WizardSend(w: World, h: History): (r: (History, Result<Done, OtpError>))
    ensures h < r.0
  {
    var (h1, reference) := Effect(w, h, SendPasscode);
    if reference.Err? then (h1, Err(reference.error))
    else
      var r := WizardCodes(w, h1, reference.value, 0);
      assert h1 < r.0;
      r
  }

  function Wizard(w: World, fixed: Option<string>): Ending {
    var (h, otp) := WizardSend(w, [Sent(WarmUp)]);
    if otp.Err? then (h, Err(otp.error)) else AfterOtp(w, h, fixed)
  }

  /** The engine while the driver asks for codes: one send, `n` rejections, nothing pending. */
  ghost predicate Asking(e: W.Engine, n: nat) {
    e == W.Engine(W.ENGINE_VERSION, AuthState(AwaitingOtp, n, 1, 0, 0, None), None)
  }

  predicate Expected(r: W.Reply, step: W.Step) {
    r.Ok? && r.value == W.Invoke(step)
  }

  /** The engine waits for the outcome of `step`. */
  ghost predicate Waiting(e: W.Engine, step: W.Step) {
    e.version == W.ENGINE_VERSION && e.pending == Some(step) && e.auth.phase == W.PhaseOf(step)
  }

  /** The step that follows at once when `step` is accepted. */
  function NextStep(step: W.Step): Option<W.Step> {
    match step
    case ValidateOtp => Some(W.ResolveWorkspace)
    case SubmitWorkspacePassword => Some(W.ResumeOidc)
    case ResumeOidc => Some(W.MintPat)
    case MintPat => Some(W.Persist)
    case _ => None
  }

  /** Report acceptance and expect to be told to invoke `next`: it cannot fail. */
  method AcceptThen(engine: W.Wizard, ghost step: W.Step, next: W.Step) returns (agreed: bool)
    requires Waiting(engine.View(), step) && NextStep(step) == Some(next)
    modifies engine, engine.machine
    ensures agreed && Waiting(engine.View(), next)
  {
    var a := engine.RecordOutcome(W.Accepted);
    if a.Err? { return false; }
    if !Expected(a, next) { return false; }
    return true;
  }

  /** The workspace is resolved: the engine asks for the password, which is at hand. */
  method AcceptWorkspace(engine: W.Wizard) returns (agreed: bool)
    requires Waiting(engine.View(), W.ResolveWorkspace)
    modifies engine, engine.machine
    ensures agreed && Waiting(engine.View(), W.SubmitWorkspacePassword)
  {
    var a := engine.RecordOutcome(W.Accepted);
    if a.Err? { return false; }
    if a.value != W.PromptWorkspacePassword { return false; }
    a := engine.SupplyPassword();
    if a.Err? { return false; }
    if !Expected(a, W.SubmitWorkspacePassword) { return false; }
    return true;
  }

  /** Start the engine, and report the first send once it went well. */
  method StartAndSend(c: Client, engine: W.Wizard) returns (r: Result<string, OtpError>)
    requires engine.View() == W.Fresh() && engine.machine.budgets == DEFAULT_BUDGETS
    modifies c, engine, engine.machine
    ensures (c.log, r) == Effect(c.world, old(c.log), SendPasscode)
    ensures r.Ok? ==> Asking(engine.View(), 0)
  {
    var a := engine.Begin();
    if a.Err? { return Err(Refused); }
    if !Expected(a, W.SendOtp) { return Err(Drifted); }
    r := c.SendEffect(SendPasscode);
    if r.Err? { return; }
    a := engine.RecordOutcome(W.Accepted);
    if a.Err? { return Err(Refused); }
    if a.value != W.PromptOtp { return Err(Drifted); }
  }

  /** A code is being tried after `n` rejections. */
  ghost predicate Trying(e: W.Engine, n: nat) {
    e == W.Engine(W.ENGINE_VERSION, AuthState(AwaitingOtp, n, 1, 0, 0, None), Some(W.ValidateOtp))
  }

  method StartTrying(engine: W.Wizard, ghost n: nat) returns (a: W.Reply)
    requires Asking(engine.View(), n)
    modifies engine, engine.machine
    ensures Trying(engine.View(), n) && a == Ok(W.Invoke(W.ValidateOtp))
  {
    a := engine.SupplyOtp();
  }

  method ReportWrongCode(engine: W.Wizard, ghost n: nat) returns (a: W.Reply)
    requires engine.machine.budgets == DEFAULT_BUDGETS && Trying(engine.View(), n)
    modifies engine, engine.machine
    ensures if n + 1 < DEFAULT_BUDGETS.otpAttempts then a == Ok(W.PromptOtp) && Asking(engine.View(), n + 1)
            else a == Ok(W.Invoke(W.SendOtp))
  {
    a := engine.RecordOutcome(W.Rejected(InvalidOtp));
  }

  /** Ask for one code and try it: the lane is at its end, or asks again. */
  method TryOneCode(c: Client, engine: W.Wizard, reference: string, ghost n: nat)
    returns (again: bool, r: Result<Done, OtpError>)
    requires n < DEFAULT_BUDGETS.otpAttempts
    requires engine.machine.budgets == DEFAULT_BUDGETS && Asking(engine.View(), n)
    modifies c, engine, engine.machine
    ensures if again then n + 1 < DEFAULT_BUDGETS.otpAttempts && Asking(engine.View(), n + 1)
            else r.Ok? ==> Waiting(engine.View(), W.ValidateOtp)
    ensures WizardCodes(c.world, old(c.log), reference, n)
         == if again then WizardCodes(c.world, c.log, reference, n + 1) else (c.log, r)
  {
    var code := c.GetOtp();
    if code.None? { return false, Err(NoInput); }
    var a := StartTrying(engine, n);
    if a.Err? { return false, Err(Refused); }
    if !Expected(a, W.ValidateOtp) { return false, Err(Drifted); }
    var v := c.ValidateOtp(reference, code.value);
    if v.Ok? { return false, v; }
    if !v.error.CodeRejected? {
      a := engine.RecordOutcome(W.Rejected(TransientTransport));
      if a.Err? { return false, Err(Refused); }
      return false, Err(Unclassified);
    }
    a := ReportWrongCode(engine, n);
    if a.Err? { return false, Err(Refused); }
    if a.value == W.Invoke(W.SendOtp) { return false, Err(ReferenceExhausted); }
    if a.value != W.PromptOtp { return false, Err(Drifted); }
    return true, v;
  }

  method AskForCodes(c: Client, engine: W.Wizard, reference: string) returns (r: Result<Done, OtpError>)
    requires engine.machine.budgets == DEFAULT_BUDGETS && Asking(engine.View(), 0)
    modifies c, engine, engine.machine
    ensures (c.log, r) == WizardCodes(c.world, old(c.log), reference, 0)
    ensures r.Ok? ==> Waiting(engine.View(), W.ValidateOtp)
  {
    ghost var n: nat := 0;
    while true
      invariant n < DEFAULT_BUDGETS.otpAttempts && Asking(engine.View(), n)
      invariant WizardCodes(c.world, old(c.log), reference, 0) == WizardCodes(c.world, c.log, reference, n)
      decreases DEFAULT_BUDGETS.otpAttempts - n
    {
      var again;
      again, r := TryOneCode(c, engine, reference, n);
      if !again { return; }
      n := n + 1;
    }
  }

  method FinishLogin(c: Client, engine: W.Wizard, fixed: Option<string>) returns (r: Result<Login, OtpError>)
    requires Waiting(engine.View(), W.ValidateOtp)
    modifies c, engine, engine.machine
    ensures (c.log, r) == AfterOtp(c.world, old(c.log), fixed)
  {
    var agreed := AcceptThen(engine, W.ValidateOtp, W.ResolveWorkspace);
    if !agreed { return Err(Drifted); }
    var id := c.ResolveWorkspacePage();
    if id.Err? { return Err(id.error); }
    agreed := AcceptWorkspace(engine);
    if !agreed { return Err(Drifted); }
    var password := c.LoginWithPrompt(fixed);
    if password.Err? { return Err(password.error); }
    agreed := AcceptThen(engine, W.SubmitWorkspacePassword, W.ResumeOidc);
    if !agreed { return Err(Drifted); }
    r := ResumeAndMint(c, engine, id.value, password.value);
  }

  method ResumeAndMint(c: Client, engine: W.Wizard, id: string, password: string) returns (r: Result<Login, OtpError>)
    requires Waiting(engine.View(), W.ResumeOidc)
    modifies c, engine, engine.machine
    ensures (c.log, r) == AfterPassword(c.world, old(c.log), id, password)
  {
    var resumed := c.FollowRedirects(Resume(id));
    if resumed.Err? { return Err(resumed.error); }
    var agreed := AcceptThen(engine, W.ResumeOidc, W.MintPat);
    if !agreed { return Err(Drifted); }
    r := MintAndPersist(c, engine, password);
  }

  method MintAndPersist(c: Client, engine: W.Wizard, password: string) returns (r: Result<Login, OtpError>)
    requires Waiting(engine.View(), W.MintPat)
    modifies c, engine, engine.machine
    ensures var (h, token) := Mint(c.world, old(c.log));
            c.log == h && r == if token.Err? then Err(token.error) else Ok(Login(token.value, password))
  {
    var token := c.MintPat();
    if token.Err? { return Err(token.error); }
    var agreed := AcceptThen(engine, W.MintPat, W.Persist);
    if !agreed { return Err(Drifted); }
    var last := engine.RecordOutcome(W.Accepted);
    if last.Err? { return Err(Refused); }
    return Ok(Login(token.value, password));
  }

  // ---------------------------------------------------------------- no branch drifts

  predicate Drifts<T>(r: Result<T, OtpError>) {
    r.Err? && (r.error.Drifted? || r.error.Refused?)
  }

  lemma {:induction false} PasswordNeverDrifts(w: World, h: History, fixed: Option<string>, attempt: nat)
    requires attempt < WORKSPACE_PASSWORD_ATTEMPTS
    ensures !Drifts(PasswordLogin(w, h, fixed, attempt).1)
    decreases WORKSPACE_PASSWORD_ATTEMPTS - attempt
  {
    var h1 := if fixed.Some? then h else h + [AskedPassword];
    var password := if fixed.Some? then fixed else w.password(h1);
    if password.Some? && attempt + 1 < WORKSPACE_PASSWORD_ATTEMPTS {
      PasswordNeverDrifts(w, Submit(w, h1, PostSession(password.value), PasswordRejected).0, fixed, attempt + 1);
    }
  }

  lemma {:induction false} FollowNeverDrifts(w: World, h: History, visited: seq<Url>, hops: nat)
    requires visited != [] && hops <= MAX_HOPS
    ensures !Drifts(Follow(w, h, visited, hops).1)
    decreases MAX_HOPS - hops
  {
    if hops < MAX_HOPS {
      var (h1, reply) := Exchange(w, h, Page(visited[|visited| - 1]), AnyTransient, 0);
      if IsRedirect(reply) { FollowNeverDrifts(w, h1, visited + [Target(reply.payload.value)], hops + 1); }
    }
  }

  lemma EntryNeverDrifts(w: World, h: History)
    ensures !Drifts(EnterWorkspace(w, h).1)
  {
    var (g, reply) := Exchange(w, h, Accounts, AnyTransient, 0);
    if reply.Response? && reply.payload.Some? { OpenNeverDrifts(w, g, reply.payload.value); }
  }

  lemma OpenNeverDrifts(w: World, h: History, name: string)
    ensures !Drifts(OpenWorkspace(w, h, name).1)
  {
    FollowNeverDrifts(w, h, [Entry(name)], 0);
  }

  lemma AfterOtpNeverDrifts(w: World, h: History, fixed: Option<string>)
    ensures !Drifts(AfterOtp(w, h, fixed).1)
  {
    EntryNeverDrifts(w, h);
    var (h1, id) := EnterWorkspace(w, h);
    if id.Ok? {
      PasswordNeverDrifts(w, h1, fixed, 0);
      var (h2, password) := PasswordLogin(w, h1, fixed, 0);
      if password.Ok? { AfterPasswordNeverDrifts(w, h2, id.value, password.value); }
    }
  }

  lemma AfterPasswordNeverDrifts(w: World, h: History, id: string, password: string)
    ensures !Drifts(AfterPassword(w, h, id, password).1)
  {
    FollowNeverDrifts(w, h, [Resume(id)], 0);
  }

  lemma {:induction false} CodesNeverDrift(w: World, h: History, reference: string, n: nat)
    requires n < DEFAULT_BUDGETS.otpAttempts
    ensures !Drifts(WizardCodes(w, h, reference, n).1)
    decreases DEFAULT_BUDGETS.otpAttempts - n
  {
    var h1 := h + [AskedOtp];
    var code := w.code(h1);
    if code.Some? && n + 1 < DEFAULT_BUDGETS.otpAttempts {
      CodesNeverDrift(w, Validate(w, h1, reference, code.value).0, reference, n + 1);
    }
  }

  /** Whatever the server and the user do, the Wizard lane's engine agrees with its driver. */
  lemma WizardNeverDrifts(w: World, fixed: Option<string>)
    ensures !Drifts(Wizard(w, fixed).1)
  {
    var (h1, reference) := Effect(w, [Sent(WarmUp)], SendPasscode);
    if reference.Ok? { CodesNeverDrift(w, h1, reference.value, 0); }
    AfterOtpNeverDrifts(w, WizardSend(w, [Sent(WarmUp)]).0, fixed);
  }

  /**
  The driver that asks the engine at every step. Its result and everything it
  says are those of `Wizard`, which never ends in `Refused` or `Drifted`: no
  branch in which the engine refuses a call, or answers with another action
  than the driver expects, is ever taken.
  */
  method WizardLogin(w: World, fixed: Option<string>) returns (r: Result<Login, OtpError>, said: History)
    ensures (said, r) == Wizard(w, fixed)
    ensures !Drifts(r)
  {
    WizardNeverDrifts(w, fixed);
    var engine := new W.Wizard(DEFAULT_BUDGETS);
    var c := new Client(w);
    var reference := StartAndSend(c, engine);
    said := c.log;
    if reference.Err? { return Err(reference.error), said; }
    var otp := AskForCodes(c, engine, reference.value);
    said := c.log;
    if otp.Err? { return Err(otp.error), said; }
    r := FinishLogin(c, engine, fixed);
    said := c.log;
  }

  // ---------------------------------------------------------------- when the lanes agree

  /**
  From here on, on one reference: every failed validation is a classified
  rejection, and fewer than three occur before a code is accepted or the user
  gives up.
  */
  predicate FewClassifiedRejections(w: World, h: History, reference: string, failures: nat)
    requires failures < OTP_ATTEMPTS_PER_REFERENCE
    decreases OTP_ATTEMPTS_PER_REFERENCE - failures
  {
    var h1 := h + [AskedOtp];
    var code := w.code(h1);
    code.None? ||
    var (h2, v) := Validate(w, h1, reference, code.value);
    v.Ok? ||
    (v.error.CodeRejected? && failures + 1 < OTP_ATTEMPTS_PER_REFERENCE
     && FewClassifiedRejections(w, h2, reference, failures + 1))
  }

  /** The same for the whole login; vacuous when no code could be sent. */
  predicate CodesGoWell(w: World) {
    var (h, reference) := Effect(w, [Sent(WarmUp)], SendPasscode);
    reference.Ok? ==> FewClassifiedRejections(w, h, reference.value, 0)
  }

  lemma {:induction false} CodesAgree(w: World, h: History, reference: string, n: nat)
    requires n < OTP_ATTEMPTS_PER_REFERENCE && FewClassifiedRejections(w, h, reference, n)
    ensures WizardCodes(w, h, reference, n) == LegacyCodes(w, h, reference, n, 1)
    decreases OTP_ATTEMPTS_PER_REFERENCE - n
  {
    var h1 := h + [AskedOtp];
    var code := w.code(h1);
    if code.Some? {
      var (h2, v) := Validate(w, h1, reference, code.value);
      if v.Err? { CodesAgree(w, h2, reference, n + 1); }
    }
  }

  /** Otherwise the Wizard stops where Legacy goes on to ask or send again. */
  lemma {:induction false} CodesPart(w: World, h: History, reference: string, n: nat)
    requires n < OTP_ATTEMPTS_PER_REFERENCE && !FewClassifiedRejections(w, h, reference, n)
    ensures WizardCodes(w, h, reference, n).1.Err?
    ensures WizardCodes(w, h, reference, n).0 < LegacyCodes(w, h, reference, n, 1).0
    decreases OTP_ATTEMPTS_PER_REFERENCE - n
  {
    var h1 := h + [AskedOtp];
    var (h2, v) := Validate(w, h1, reference, w.code(h1).value);
    if v.error.CodeRejected? && n + 1 < OTP_ATTEMPTS_PER_REFERENCE { CodesPart(w, h2, reference, n + 1); }
  }

  /**
  The two lanes send the same requests and ask the same questions, in the same
  order, exactly when every failed validation of the first code mail is a
  classified rejection and fewer than three occur before acceptance. Then they
  also end alike.
  */
  lemma LanesAgreeExactlyWhen(w: World, fixed: Option<string>)
    ensures Wizard(w, fixed).0 == Legacy(w, fixed).0 <==> CodesGoWell(w)
    ensures CodesGoWell(w) ==> Wizard(w, fixed) == Legacy(w, fixed)
  {
    var (h, reference) := Effect(w, [Sent(WarmUp)], SendPasscode);
    if reference.Ok? {
      if CodesGoWell(w) {
        CodesAgree(w, h, reference.value, 0);
      } else {
        CodesPart(w, h, reference.value, 0);
        assert Wizard(w, fixed).0 == WizardCodes(w, h, reference.value, 0).0;
        assert LegacySend(w, [Sent(WarmUp)], 0).0 <= Legacy(w, fixed).0;
      }
    }
  }
}
