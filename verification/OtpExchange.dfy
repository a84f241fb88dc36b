/**
The requests both email-OTP lanes share: bounded retries, redirects, the
workspace password and the token mint. A `World` answers as a function of
everything said so far, so two lanes can be run against the same server and the
same user.
*/
module OtpExchange {
  import opened Common
  import opened Text

  datatype Url = Entry(workspace: string) | Resume(interaction: string) | Target(location: string)

  datatype Request =
    | WarmUp | SendPasscode | ValidatePasscode(reference: string, code: string)
    | Accounts | Page(url: Url) | PostSession(password: string) | MintToken(bearer: string)

  datatype Said = Sent(request: Request) | AskedOtp | AskedPassword

  type History = seq<Said>

  /**
  What one attempt of a request came to. `payload` is what the caller needs from the
  response (the reference, the workspace name, the acceptable redirect target or
  the token), None when it is missing, malformed or refused.
  */
  datatype Reply = NoConnection | TimedOut | Broken | Response(status: nat, payload: Option<string>)

  datatype World = World(
    reply: History -> Reply,
    code: History -> Option<string>,
    password: History -> Option<string>,
    interaction: seq<Url> -> Option<string>,
    bearer: History -> Option<string>)

  datatype OtpError =
    | Unreachable | HttpStatus(status: nat) | Malformed | CodeRejected | PasswordRejected
    | NoInput | NoInteraction | NoBearer | BadRedirect | TooManyRedirects
    | ReferenceExhausted | Unclassified | Drifted | Refused

  datatype Done = Done

  const TRANSIENT_RETRY_ATTEMPTS := 3
  const WORKSPACE_PASSWORD_ATTEMPTS := 3
  const MAX_HOPS := 25

  // ---------------------------------------------------------------- one request with retries

  /** Retry only what surely was not sent, or any transient failure. */
  datatype Policy = PreSendOnly | AnyTransient

  predicate ShouldRetry(p: Policy, r: Reply) {
    match r
    case NoConnection => true
    case TimedOut => p.AnyTransient?
    case Broken => false
    case Response(status, _) => p.AnyTransient? && (status == 429 || status == 500 || 502 <= status <= 504)
  }

  /** The history and the reply after `attempt` attempts have been made. */
  function Exchange(w: World, h: History, q: Request, p: Policy, attempt: nat): (r: (History, Reply))
    requires attempt < TRANSIENT_RETRY_ATTEMPTS
    ensures h < r.0
    decreases TRANSIENT_RETRY_ATTEMPTS - attempt
  {
    var h1 := h + [Sent(q)];
    var reply := w.reply(h1);
    if attempt + 1 >= TRANSIENT_RETRY_ATTEMPTS || !ShouldRetry(p, reply) then (h1, reply)
    else
      var r := Exchange(w, h1, q, p, attempt + 1);
      assert h1 < r.0;
      r
  }

  predicate Success(status: nat) { 200 <= status < 300 }

  predicate ErrorStatus(status: nat) { 400 <= status < 600 }

  /** Statuses read as a wrong code or a wrong password. */
  predicate RejectionStatus(status: nat) { status == 400 || status == 401 || status == 422 }

  /** A request with a side effect: the body is read unless the status is an error. */
  function Effect(w: World, h: History, q: Request): (r: (History, Result<string, OtpError>))
    ensures h < r.0
  {
    var (h1, reply) := Exchange(w, h, q, PreSendOnly, 0);
    (h1,
     if !reply.Response? then Err(Unreachable)
     else if ErrorStatus(reply.status) then Err(HttpStatus(reply.status))
     else if reply.payload.None? then Err(Malformed)
     else Ok(reply.payload.value))
  }

  /** A submission the server may reject: a code or a password. */
  function Submit(w: World, h: History, q: Request, rejection: OtpError): (r: (History, Result<Done, OtpError>))
    ensures h < r.0
  {
    var (h1, reply) := Exchange(w, h, q, AnyTransient, 0);
    (h1,
     if !reply.Response? then Err(Unreachable)
     else if Success(reply.status) then Ok(Done)
     else if RejectionStatus(reply.status) then Err(rejection)
     else Err(HttpStatus(reply.status)))
  }

  function Validate(w: World, h: History, reference: string, code: string): (r: (History, Result<Done, OtpError>))
    ensures h < r.0
  {
    Submit(w, h, ValidatePasscode(reference, Trim(code)), CodeRejected)
  }

  // ---------------------------------------------------------------- the workspace page

  function Follow(w: World, h: History, visited: seq<Url>, hops: nat): (r: (History, Result<seq<Url>, OtpError>))
    requires visited != [] && hops <= MAX_HOPS
    ensures h <= r.0
    decreases MAX_HOPS - hops
  {
    if hops == MAX_HOPS then (h, Err(TooManyRedirects))
    else
      var (h1, reply) := Exchange(w, h, Page(visited[|visited| - 1]), AnyTransient, 0);
      if IsRedirect(reply) then
        var r := Follow(w, h1, visited + [Target(reply.payload.value)], hops + 1);
        assert h1 <= r.0;
        r
      else (h1, Arrival(reply, visited))
  }

  /** A redirect to a place that may be followed. */
  predicate IsRedirect(reply: Reply) {
    reply.Response? && 300 <= reply.status < 400 && reply.payload.Some?
  }

  function Arrival(reply: Reply, visited: seq<Url>): Result<seq<Url>, OtpError> {
    if !reply.Response? then Err(Unreachable)
    else if 300 <= reply.status < 400 then Err(BadRedirect)
    else Ok(visited)
  }

  function OpenWorkspace(w: World, h: History, name: string): (r: (History, Result<string, OtpError>))
    ensures h <= r.0
  {
    var (h1, visited) := Follow(w, h, [Entry(name)], 0);
    if visited.Err? then (h1, Err(visited.error))
    else
      var id := w.interaction(visited.value);
      (h1, if id.None? then Err(NoInteraction) else Ok(id.value))
  }

  function EnterWorkspace(w: World, h: History): (r: (History, Result<string, OtpError>))
    ensures h <= r.0
  {
    var (h1, reply) := Exchange(w, h, Accounts, AnyTransient, 0);
    if Usable(reply) then OpenWorkspace(w, h1, reply.payload.value) else (h1, Err(AccountsError(reply)))
  }

  predicate Usable(reply: Reply) {
    reply.Response? && Success(reply.status) && reply.payload.Some?
  }

  function AccountsError(reply: Reply): OtpError {
    if !reply.Response? then Unreachable
    else if !Success(reply.status) then HttpStatus(reply.status)
    else Malformed
  }

  // ---------------------------------------------------------------- the workspace password

  /** A typed password may be tried three times, one from a fixed source once. */
  function PasswordLogin(w: World, h: History, fixed: Option<string>, attempt: nat)
    : (r: (History, Result<string, OtpError>))
    requires attempt < WORKSPACE_PASSWORD_ATTEMPTS
    ensures h <= r.0
    decreases WORKSPACE_PASSWORD_ATTEMPTS - attempt
  {
    var h1 := if fixed.Some? then h else h + [AskedPassword];
    var password := if fixed.Some? then fixed else w.password(h1);
    if password.None? then (h1, Err(NoInput))
    else
      var (h2, v) := Submit(w, h1, PostSession(password.value), PasswordRejected);
      if v.Ok? then (h2, Ok(password.value))
      else if !v.error.PasswordRejected? || fixed.Some? || attempt + 1 >= WORKSPACE_PASSWORD_ATTEMPTS
      then (h2, Err(v.error))
      else
        var r := PasswordLogin(w, h2, fixed, attempt + 1);
        assert h2 <= r.0;
        r
  }

  // ---------------------------------------------------------------- resume and mint

  function Mint(w: World, h: History): (r: (History, Result<string, OtpError>))
    ensures h <= r.0
  {
    var bearer := w.bearer(h);
    if bearer.None? then (h, Err(NoBearer)) else Effect(w, h, MintToken(bearer.value))
  }

  /** What a login gives its caller: the token, and the password that worked. */
  datatype Login = Login(token: string, password: string)

  function AfterPassword(w: World, h: History, id: string, password: string): (r: (History, Result<Login, OtpError>))
    ensures h <= r.0
  {
    var (h1, resumed) := Follow(w, h, [Resume(id)], 0);
    if resumed.Err? then (h1, Err(resumed.error))
    else
      var (h2, token) := Mint(w, h1);
      (h2, if token.Err? then Err(token.error) else Ok(Login(token.value, password)))
  }

  function AfterOtp(w: World, h: History, fixed: Option<string>): (r: (History, Result<Login, OtpError>))
    ensures h <= r.0
  {
    var (h1, id) := EnterWorkspace(w, h);
    if id.Err? then (h1, Err(id.error))
    else
      var (h2, password) := PasswordLogin(w, h1, fixed, 0);
      if password.Err? then (h2, Err(password.error)) else AfterPassword(w, h2, id.value, password.value)
  }

  // ---------------------------------------------------------------- the client

  /** The client of one login; `log` is everything it has sent and asked so far. */
  class Client {
    const world: World
    var log: History

    /** A new session sends one warm-up request and ignores the answer. */
    constructor (world: World)
      ensures this.world == world && log == [Sent(WarmUp)]
    {
      this.world := world;
      log := [Sent(WarmUp)];
    }

    method RetryTransient(q: Request, p: Policy) returns (reply: Reply)
      modifies this
      ensures (log, reply) == Exchange(world, old(log), q, p, 0)
    {
      var attempt: nat := 0;
      while true
        invariant attempt < TRANSIENT_RETRY_ATTEMPTS
        invariant Exchange(world, old(log), q, p, 0) == Exchange(world, log, q, p, attempt)
        decreases TRANSIENT_RETRY_ATTEMPTS - attempt
      {
        attempt := attempt + 1;
        log := log + [Sent(q)];
        reply := world.reply(log);
        if attempt >= TRANSIENT_RETRY_ATTEMPTS || !ShouldRetry(p, reply) { return; }
      }
    }

    method SendEffect(q: Request) returns (r: Result<string, OtpError>)
      modifies this
      ensures (log, r) == Effect(world, old(log), q)
    {
      var reply := RetryTransient(q, PreSendOnly);
      if !reply.Response? { return Err(Unreachable); }
      if ErrorStatus(reply.status) { return Err(HttpStatus(reply.status)); }
      if reply.payload.None? { return Err(Malformed); }
      return Ok(reply.payload.value);
    }

    method SendSubmission(q: Request, rejection: OtpError) returns (r: Result<Done, OtpError>)
      modifies this
      ensures (log, r) == Submit(world, old(log), q, rejection)
    {
      var reply := RetryTransient(q, AnyTransient);
      if !reply.Response? { return Err(Unreachable); }
      if !Success(reply.status) {
        if RejectionStatus(reply.status) { return Err(rejection); }
        return Err(HttpStatus(reply.status));
      }
      return Ok(Done);
    }

    method GetOtp() returns (code: Option<string>)
      modifies this
      ensures log == old(log) + [AskedOtp] && code == world.code(log)
    {
      log := log + [AskedOtp];
      code := world.code(log);
    }

    method ValidateOtp(reference: string, code: string) returns (r: Result<Done, OtpError>)
      modifies this
      ensures (log, r) == Validate(world, old(log), reference, code)
    {
      r := SendSubmission(ValidatePasscode(reference, Trim(code)), CodeRejected);
    }

    method FollowRedirects(start: Url) returns (r: Result<seq<Url>, OtpError>)
      modifies this
      ensures (log, r) == Follow(world, old(log), [start], 0)
    {
      var visited := [start];
      var current := start;
      var hops: nat := 0;
      while hops < MAX_HOPS
        invariant hops <= MAX_HOPS
        invariant visited != [] && current == visited[|visited| - 1]
        invariant Follow(world, old(log), [start], 0) == Follow(world, log, visited, hops)
      {
        var reply := RetryTransient(Page(current), AnyTransient);
        if !reply.Response? { return Err(Unreachable); }
        if !(300 <= reply.status < 400) { return Ok(visited); }
        if reply.payload.None? { return Err(BadRedirect); }
        current := Target(reply.payload.value);
        visited := visited + [current];
        hops := hops + 1;
      }
      return Err(TooManyRedirects);
    }

    method ResolveWorkspacePage() returns (r: Result<string, OtpError>)
      modifies this
      ensures (log, r) == EnterWorkspace(world, old(log))
    {
      var reply := RetryTransient(Accounts, AnyTransient);
      if !reply.Response? { return Err(Unreachable); }
      if !Success(reply.status) { return Err(HttpStatus(reply.status)); }
      if reply.payload.None? { return Err(Malformed); }
      var visited := FollowRedirects(Entry(reply.payload.value));
      if visited.Err? { return Err(visited.error); }
      var id := world.interaction(visited.value);
      if id.None? { return Err(NoInteraction); }
      return Ok(id.value);
    }

    method LoginWithPrompt(fixed: Option<string>) returns (r: Result<string, OtpError>)
      modifies this
      ensures (log, r) == PasswordLogin(world, old(log), fixed, 0)
    {
      var attempt: nat := 0;
      while true
        invariant attempt < WORKSPACE_PASSWORD_ATTEMPTS
        invariant PasswordLogin(world, old(log), fixed, 0) == PasswordLogin(world, log, fixed, attempt)
        decreases WORKSPACE_PASSWORD_ATTEMPTS - attempt
      {
        attempt := attempt + 1;
        var password := fixed;
        if fixed.None? {
          log := log + [AskedPassword];
          password := world.password(log);
          if password.None? { return Err(NoInput); }
        }
        var v := SendSubmission(PostSession(password.value), PasswordRejected);
        if v.Ok? { return Ok(password.value); }
        if !v.error.PasswordRejected? { return Err(v.error); }
        if fixed.Some? { return Err(v.error); }
        if attempt >= WORKSPACE_PASSWORD_ATTEMPTS { return Err(v.error); }
      }
    }

    method MintPat() returns (r: Result<string, OtpError>)
      modifies this
      ensures (log, r) == Mint(world, old(log))
    {
      var bearer := world.bearer(log);
      if bearer.None? { return Err(NoBearer); }
      r := SendEffect(MintToken(bearer.value));
    }
  }
}
