/** How often one login can send a code mail or mint a token, counting requests whose fate is unknown. */
module OtpEffects {
  import opened Common
  import opened Text
  import opened AuthMachine
  import opened OtpExchange
  import opened OtpLanes

  datatype Effectful = Mail | PatMint

  predicate Causes(q: Request, k: Effectful) {
    match k
    case Mail => q.SendPasscode?
    case PatMint => q.MintToken?
  }

  /** The last event of `h` may have had the effect. */
  predicate LastReached(w: World, h: History, k: Effectful)
    requires h != []
  {
    var e := h[|h| - 1];
    e.Sent? && Causes(e.request, k) && !w.reply(h).NoConnection?
  }

  /** How many requests of `h` may have had the effect: all but those never connected. */
  function Reached(w: World, h: History, k: Effectful): nat
    decreases |h|
  {
    if h == [] then 0
    else Reached(w, h[..|h| - 1], k) + if LastReached(w, h, k) then 1 else 0
  }

  lemma OneMore(w: World, h: History, e: Said, k: Effectful)
    ensures Reached(w, h + [e], k) == Reached(w, h, k) + if LastReached(w, h + [e], k) then 1 else 0
  {
    assert (h + [e])[..|h|] == h;
  }

  lemma {:induction false} ExchangeReaches(w: World, h: History, q: Request, p: Policy, attempt: nat, k: Effectful)
    requires attempt < TRANSIENT_RETRY_ATTEMPTS && (Causes(q, k) ==> p.PreSendOnly?)
    ensures var (h', reply) := Exchange(w, h, q, p, attempt);
            Reached(w, h', k) == Reached(w, h, k) + if Causes(q, k) && !reply.NoConnection? then 1 else 0
    decreases TRANSIENT_RETRY_ATTEMPTS - attempt
  {
    var h1 := h + [Sent(q)];
    OneMore(w, h, Sent(q), k);
    if attempt + 1 < TRANSIENT_RETRY_ATTEMPTS && ShouldRetry(p, w.reply(h1)) {
      ExchangeReaches(w, h1, q, p, attempt + 1, k);
    }
  }

  lemma {:induction false} FollowReaches(w: World, h: History, visited: seq<Url>, hops: nat, k: Effectful)
    requires visited != [] && hops <= MAX_HOPS
    ensures Reached(w, Follow(w, h, visited, hops).0, k) == Reached(w, h, k)
    decreases MAX_HOPS - hops
  {
    if hops < MAX_HOPS {
      var q := Page(visited[|visited| - 1]);
      ExchangeReaches(w, h, q, AnyTransient, 0, k);
      var (h1, reply) := Exchange(w, h, q, AnyTransient, 0);
      if IsRedirect(reply) { FollowReaches(w, h1, visited + [Target(reply.payload.value)], hops + 1, k); }
    }
  }

  lemma OpenReaches(w: World, h: History, name: string, k: Effectful)
    ensures Reached(w, OpenWorkspace(w, h, name).0, k) == Reached(w, h, k)
  {
    FollowReaches(w, h, [Entry(name)], 0, k);
  }

  lemma EntryReaches(w: World, h: History, k: Effectful)
    ensures Reached(w, EnterWorkspace(w, h).0, k) == Reached(w, h, k)
  {
    ExchangeReaches(w, h, Accounts, AnyTransient, 0, k);
    var (g, reply) := Exchange(w, h, Accounts, AnyTransient, 0);
    if Usable(reply) { OpenReaches(w, g, reply.payload.value, k); }
  }

  lemma {:induction false} PasswordReaches(w: World, h: History, fixed: Option<string>, attempt: nat, k: Effectful)
    requires attempt < WORKSPACE_PASSWORD_ATTEMPTS
    ensures Reached(w, PasswordLogin(w, h, fixed, attempt).0, k) == Reached(w, h, k)
    decreases WORKSPACE_PASSWORD_ATTEMPTS - attempt
  {
    OneMore(w, h, AskedPassword, k);
    var h1 := if fixed.Some? then h else h + [AskedPassword];
    var password := if fixed.Some? then fixed else w.password(h1);
    if password.Some? {
      ExchangeReaches(w, h1, PostSession(password.value), AnyTransient, 0, k);
      if attempt + 1 < WORKSPACE_PASSWORD_ATTEMPTS {
        PasswordReaches(w, Submit(w, h1, PostSession(password.value), PasswordRejected).0, fixed, attempt + 1, k);
      }
    }
  }

  /** A login that succeeds mints exactly one token, one that fails at most one. */
  lemma AfterOtpReaches(w: World, h: History, fixed: Option<string>)
    ensures var (h', r) := AfterOtp(w, h, fixed);
            && Reached(w, h', Mail) == Reached(w, h, Mail)
            && Reached(w, h', PatMint) <= Reached(w, h, PatMint) + 1
            && (r.Ok? ==> Reached(w, h', PatMint) == Reached(w, h, PatMint) + 1)
  {
    var (h1, id) := EnterWorkspace(w, h);
    var (h2, password) := PasswordLogin(w, h1, fixed, 0);
    forall k ensures Reached(w, h2, k) == Reached(w, h, k) {
      EntryReaches(w, h, k);
      PasswordReaches(w, h1, fixed, 0, k);
    }
    EntryReaches(w, h, Mail);
    EntryReaches(w, h, PatMint);
    if id.Ok? && password.Ok? { AfterPasswordReaches(w, h2, id.value, password.value); }
  }

  lemma AfterPasswordReaches(w: World, h: History, id: string, password: string)
    ensures var (h', r) := AfterPassword(w, h, id, password);
            && Reached(w, h', Mail) == Reached(w, h, Mail)
            && Reached(w, h', PatMint) <= Reached(w, h, PatMint) + 1
            && (r.Ok? ==> Reached(w, h', PatMint) == Reached(w, h, PatMint) + 1)
  {
    var (h1, resumed) := Follow(w, h, [Resume(id)], 0);
    FollowReaches(w, h, [Resume(id)], 0, Mail);
    FollowReaches(w, h, [Resume(id)], 0, PatMint);
    var bearer := w.bearer(h1);
    if bearer.Some? {
      ExchangeReaches(w, h1, MintToken(bearer.value), PreSendOnly, 0, Mail);
      ExchangeReaches(w, h1, MintToken(bearer.value), PreSendOnly, 0, PatMint);
    }
  }

  lemma TryReaches(w: World, h: History, reference: string, code: string, k: Effectful)
    ensures Reached(w, h + [AskedOtp], k) == Reached(w, h, k)
    ensures Reached(w, Validate(w, h + [AskedOtp], reference, code).0, k) == Reached(w, h, k)
  {
    OneMore(w, h, AskedOtp, k);
    ExchangeReaches(w, h + [AskedOtp], ValidatePasscode(reference, Trim(code)), AnyTransient, 0, k);
  }

  lemma {:induction false} WizardCodesReach(w: World, h: History, reference: string, n: nat, k: Effectful)
    requires n < DEFAULT_BUDGETS.otpAttempts
    ensures Reached(w, WizardCodes(w, h, reference, n).0, k) == Reached(w, h, k)
    decreases DEFAULT_BUDGETS.otpAttempts - n
  {
    var code := w.code(h + [AskedOtp]);
    TryReaches(w, h, reference, if code.Some? then code.value else "", k);
    if code.Some? && n + 1 < DEFAULT_BUDGETS.otpAttempts {
      WizardCodesReach(w, Validate(w, h + [AskedOtp], reference, code.value).0, reference, n + 1, k);
    }
  }

  lemma {:induction false} LegacySendReaches(w: World, h: History, sends: nat, k: Effectful)
    requires sends < MAX_OTP_SENDS
    ensures Reached(w, LegacySend(w, h, sends).0, k)
         <= Reached(w, h, k) + if k.Mail? then MAX_OTP_SENDS - sends else 0
    decreases (MAX_OTP_SENDS - sends) * 10
  {
    ExchangeReaches(w, h, SendPasscode, PreSendOnly, 0, k);
    var (h1, reference) := Effect(w, h, SendPasscode);
    if reference.Ok? { LegacyCodesReach(w, h1, reference.value, 0, sends + 1, k); }
  }

  lemma {:induction false} LegacyCodesReach(
    w: World, h: History, reference: string, attempt: nat, sends: nat, k: Effectful)
    requires attempt < OTP_ATTEMPTS_PER_REFERENCE && 0 < sends <= MAX_OTP_SENDS
    ensures Reached(w, LegacyCodes(w, h, reference, attempt, sends).0, k)
         <= Reached(w, h, k) + if k.Mail? then MAX_OTP_SENDS - sends else 0
    decreases (MAX_OTP_SENDS - sends) * 10 + 5 - attempt
  {
    var code := w.code(h + [AskedOtp]);
    TryReaches(w, h, reference, if code.Some? then code.value else "", k);
    if code.Some? {
      var h2 := Validate(w, h + [AskedOtp], reference, code.value).0;
      match NextOtpAction(attempt + 1, sends)
      case Reprompt => LegacyCodesReach(w, h2, reference, attempt + 1, sends, k);
      case Resend => LegacySendReaches(w, h2, sends, k);
      case GiveUp =>
    }
  }

  /** Everything one lane did, counted. */
  ghost predicate Sparing(w: World, end: Ending, mails: nat) {
    && Reached(w, end.0, Mail) <= mails
    && Reached(w, end.0, PatMint) <= 1
    && (end.1.Ok? ==> Reached(w, end.0, PatMint) == 1)
  }

  /**
  Whatever times out or is rejected, the Wizard lane sends at most one code mail
  and Legacy at most two, and neither can leave a second token behind.
  */
  lemma LoginsAreSparing(w: World, fixed: Option<string>)
    ensures Sparing(w, Wizard(w, fixed), 1)
    ensures Sparing(w, Legacy(w, fixed), MAX_OTP_SENDS)
  {
    var h: History := [Sent(WarmUp)];
    OneMore(w, [], Sent(WarmUp), Mail);
    OneMore(w, [], Sent(WarmUp), PatMint);
    assert [] + [Sent(WarmUp)] == h;
    ExchangeReaches(w, h, SendPasscode, PreSendOnly, 0, Mail);
    ExchangeReaches(w, h, SendPasscode, PreSendOnly, 0, PatMint);
    var (h1, reference) := Effect(w, h, SendPasscode);
    if reference.Ok? {
      WizardCodesReach(w, h1, reference.value, 0, Mail);
      WizardCodesReach(w, h1, reference.value, 0, PatMint);
    }
    AfterOtpReaches(w, WizardSend(w, h).0, fixed);
    LegacySendReaches(w, h, 0, Mail);
    LegacySendReaches(w, h, 0, PatMint);
    AfterOtpReaches(w, LegacySend(w, h, 0).0, fixed);
  }
}
