/**
What may be said next in a login, rule by rule, from what was said before. Both
drivers follow these rules, and stop only where none of them applies.
*/
module OtpScript {
  import opened Common
  import opened Text
  import opened AuthMachine
  import opened OtpExchange
  import opened OtpLanes

  datatype Lane = LegacyLane | WizardLane

  // ---------------------------------------------------------------- what was said so far

  /**
  The reference last mailed, codes asked for on it, references used, passwords
  asked for, and the pages of the last chain of redirects.
  */
  datatype Context = Context(reference: string, tries: nat, references: nat, prompts: nat, trail: seq<Url>)

  function Last(h: History): Said
    requires h != []
  {
    h[|h| - 1]
  }

  function Before(h: History): History
    requires h != []
  {
    h[..|h| - 1]
  }

  function ContextOf(w: World, h: History): Context
    decreases |h|
  {
    if h == [] then Context("", 0, 0, 0, []) else After(w, Before(h), ContextOf(w, Before(h)), Last(h))
  }

  /** One more thing said. */
  function After(w: World, past: History, c: Context, said: Said): Context {
    match said
    case AskedOtp =>
      if past != [] && Last(past) == Sent(SendPasscode) then c.(tries := 1, references := c.references + 1)
      else c.(tries := c.tries + 1)
    case AskedPassword => c.(prompts := c.prompts + 1)
    case Sent(q) =>
      match q
      case SendPasscode =>
        var reply := w.reply(past + [said]);
        if reply.Response? && reply.payload.Some? then c.(reference := reply.payload.value) else c
      case Page(url) =>
        if past != [] && IsPage(Last(past)) then
          if Redirects(w.reply(past)) then c.(trail := c.trail + [url]) else c
        else c.(trail := [url])
      case _ => c
  }

  predicate Redirects(reply: Reply) {
    reply.Response? && 300 <= reply.status < 400 && reply.payload.Some?
  }

  predicate IsPage(said: Said) {
    said.Sent? && said.request.Page?
  }

  // ---------------------------------------------------------------- retries

  /** A mail and a token are asked for again only if the request was surely not sent. */
  function PolicyOf(q: Request): Policy {
    if q.SendPasscode? || q.MintToken? then PreSendOnly else AnyTransient
  }

  /** A reply after which the request is sent again. */
  predicate Transient(q: Request, reply: Reply) {
    || reply.NoConnection?
    || (!q.SendPasscode? && !q.MintToken?
        && (reply.TimedOut? || (reply.Response? && reply.status in {429, 500, 502, 503, 504})))
  }

  /** Attempts of the request that was sent last. */
  function Attempts(w: World, h: History): nat
    requires h != []
    decreases |h|, 0
  {
    if Before(h) != [] && Last(Before(h)) == Last(h) && Retries(w, Before(h)) then Attempts(w, Before(h)) + 1 else 1
  }

  predicate Retries(w: World, h: History)
    requires h != []
    decreases |h|, 1
  {
    && Last(h).Sent? && !Last(h).request.WarmUp?
    && Transient(Last(h).request, w.reply(h)) && Attempts(w, h) < 3
  }

  // ---------------------------------------------------------------- the rules

  predicate Answered(reply: Reply) {
    reply.Response? && !(400 <= reply.status < 600) && reply.payload.Some?
  }

  predicate Accepted(reply: Reply) {
    reply.Response? && 200 <= reply.status < 300
  }

  predicate Rejected(reply: Reply) {
    reply.Response? && reply.status in {400, 401, 422}
  }

  function AfterCode(lane: Lane, c: Context, reply: Reply): Option<Said> {
    if Accepted(reply) then Some(Sent(Accounts))
    else match lane
         case LegacyLane =>
           if c.tries < 3 then Some(AskedOtp) else if c.references < 2 then Some(Sent(SendPasscode)) else None
         case WizardLane =>
           if Rejected(reply) && c.tries < 3 then Some(AskedOtp) else None
  }

  function AfterPage(w: World, fixed: Option<string>, h: History, c: Context, reply: Reply): Option<Said> {
    if !reply.Response? then None
    else if 300 <= reply.status < 400 then
      if reply.payload.Some? && |c.trail| < 25 then Some(Sent(Page(Target(reply.payload.value)))) else None
    else if c.trail != [] && c.trail[0].Resume? then
      var bearer := w.bearer(h);
      if bearer.Some? then Some(Sent(MintToken(bearer.value))) else None
    else if w.interaction(c.trail).None? then None
    else if fixed.Some? then Some(Sent(PostSession(fixed.value)))
    else Some(AskedPassword)
  }

  function AfterSession(w: World, fixed: Option<string>, c: Context, reply: Reply): Option<Said> {
    if Accepted(reply) then
      var id := w.interaction(c.trail);
      if id.Some? then Some(Sent(Page(Resume(id.value)))) else None
    else if Rejected(reply) && fixed.None? && c.prompts < 3 then Some(AskedPassword)
    else None
  }

  /** What is said next; nothing when the login is over. */
  function NextSaid(w: World, fixed: Option<string>, lane: Lane, h: History): Option<Said> {
    if h == [] then Some(Sent(WarmUp))
    else if Retries(w, h) then Some(Last(h))
    else
      var c, reply := ContextOf(w, h), w.reply(h);
      match Last(h)
      case AskedOtp =>
        var code := w.code(h);
        if code.Some? then Some(Sent(ValidatePasscode(c.reference, Trim(code.value)))) else None
      case AskedPassword =>
        var password := w.password(h);
        if password.Some? then Some(Sent(PostSession(password.value))) else None
      case Sent(q) =>
        match q
        case WarmUp => Some(Sent(SendPasscode))
        case SendPasscode => if Answered(reply) then Some(AskedOtp) else None
        case ValidatePasscode(_, _) => AfterCode(lane, c, reply)
        case Accounts =>
          if Accepted(reply) && reply.payload.Some? then Some(Sent(Page(Entry(reply.payload.value)))) else None
        case Page(_) => AfterPage(w, fixed, h, c, reply)
        case PostSession(_) => AfterSession(w, fixed, c, reply)
        case MintToken(_) => None
  }

  /** From `h` on, every word of `g` is the next one. */
  ghost predicate Scripted(w: World, fixed: Option<string>, lane: Lane, h: History, g: History)
    decreases |g|
  {
    && h <= g
    && (h == g || (NextSaid(w, fixed, lane, Before(g)) == Some(Last(g)) && Scripted(w, fixed, lane, h, Before(g))))
  }

  lemma {:induction false} ScriptedMeans(w: World, fixed: Option<string>, lane: Lane, h: History, g: History, i: nat)
    requires Scripted(w, fixed, lane, h, g) && |h| <= i < |g|
    ensures NextSaid(w, fixed, lane, g[..i]) == Some(g[i])
    decreases |g|
  {
    if i + 1 < |g| {
      ScriptedMeans(w, fixed, lane, h, Before(g), i);
      assert Before(g)[..i] == g[..i];
    }
  }

  lemma {:induction false} ScriptedJoin(
    w: World, fixed: Option<string>, lane: Lane, h: History, g: History, k: History)
    requires Scripted(w, fixed, lane, h, g) && Scripted(w, fixed, lane, g, k)
    ensures Scripted(w, fixed, lane, h, k)
    decreases |k|
  {
    if g != k {
      ScriptedJoin(w, fixed, lane, h, g, Before(k));
    }
  }

  lemma ScriptedOne(w: World, fixed: Option<string>, lane: Lane, h: History, said: Said)
    requires NextSaid(w, fixed, lane, h) == Some(said)
    ensures Scripted(w, fixed, lane, h, h + [said])
    ensures Before(h + [said]) == h && Last(h + [said]) == said
    ensures ContextOf(w, h + [said]) == After(w, h, ContextOf(w, h), said)
  {
    assert (h + [said])[..|h|] == h;
  }

  // ---------------------------------------------------------------- one exchange

  /** An exchange, from its `attempt`-th repetition on. */
  ghost predicate AtAttempt(
    w: World, fixed: Option<string>, lane: Lane, h: History, q: Request, attempt: nat)
  {
    if attempt == 0 then (h == [] || !Retries(w, h)) && NextSaid(w, fixed, lane, h) == Some(Sent(q))
    else h != [] && Last(h) == Sent(q) && Retries(w, h) && Attempts(w, h) == attempt
  }

  /** The context after the first attempt; repetitions leave it alone. */
  lemma {:induction false} ExchangeScripted(
    w: World, fixed: Option<string>, lane: Lane, h: History, q: Request, attempt: nat)
    requires attempt < TRANSIENT_RETRY_ATTEMPTS && !q.WarmUp? && AtAttempt(w, fixed, lane, h, q, attempt)
    ensures var (g, reply) := Exchange(w, h, q, PolicyOf(q), attempt);
            && Scripted(w, fixed, lane, h, g) && Last(g) == Sent(q) && reply == w.reply(g) && !Retries(w, g)
            && (!q.SendPasscode? ==>
                  ContextOf(w, g) == if attempt == 0 then After(w, h, ContextOf(w, h), Sent(q)) else ContextOf(w, h))
            && (q.SendPasscode? ==>
                  && (reply.Response? && reply.payload.Some? ==>
                        ContextOf(w, g) == ContextOf(w, h).(reference := reply.payload.value)))
    decreases TRANSIENT_RETRY_ATTEMPTS - attempt
  {
    var h1 := h + [Sent(q)];
    ScriptedOne(w, fixed, lane, h, Sent(q));
    assert Attempts(w, h1) == attempt + 1;
    if attempt + 1 < TRANSIENT_RETRY_ATTEMPTS && ShouldRetry(PolicyOf(q), w.reply(h1)) {
      ExchangeScripted(w, fixed, lane, h1, q, attempt + 1);
      ScriptedJoin(w, fixed, lane, h, h1, Exchange(w, h1, q, PolicyOf(q), attempt + 1).0);
    }
  }

  /** The token in the answer to the last thing sent. */
  function TokenAnswered(w: World, h: History): Option<string> {
    if h != [] && Last(h).Sent? && Last(h).request.MintToken? && Answered(w.reply(h)) then w.reply(h).payload else None
  }

  /** Over without a token. */
  ghost predicate Failed(w: World, fixed: Option<string>, lane: Lane, h: History) {
    NextSaid(w, fixed, lane, h) == None && TokenAnswered(w, h) == None
  }

  // ---------------------------------------------------------------- pages

  /** Ready to say `said`, and not in the middle of repeating something. */
  ghost predicate Ready(w: World, fixed: Option<string>, lane: Lane, h: History, said: Said) {
    h != [] && !Retries(w, h) && NextSaid(w, fixed, lane, h) == Some(said)
  }

  /** A page has been reached that does not redirect. */
  ghost predicate Arrived(w: World, h: History, trail: seq<Url>) {
    && h != [] && IsPage(Last(h)) && !Retries(w, h) && ContextOf(w, h).trail == trail
    && w.reply(h).Response? && !(300 <= w.reply(h).status < 400)
  }

  /** The next page, when there may be one more, is the last of `visited`. */
  ghost predicate ReadyForPage(w: World, fixed: Option<string>, lane: Lane, h: History, visited: seq<Url>)
    requires visited != []
  {
    && Ready(w, fixed, lane, h, Sent(Page(visited[|visited| - 1])))
    && After(w, h, ContextOf(w, h), Sent(Page(visited[|visited| - 1]))) == ContextOf(w, h).(trail := visited)
  }

  /** The page answers with a redirect: it may be followed, or the login is over. */
  lemma Redirected(w: World, fixed: Option<string>, lane: Lane, h: History, visited: seq<Url>)
    requires h != [] && IsPage(Last(h)) && !Retries(w, h) && IsRedirect(w.reply(h))
    requires 0 < |visited| <= MAX_HOPS && ContextOf(w, h).trail == visited
    ensures var more := visited + [Target(w.reply(h).payload.value)];
            if |visited| < MAX_HOPS then ReadyForPage(w, fixed, lane, h, more) else Failed(w, fixed, lane, h)
  {
  }

  /** The page has been asked for, and is answered at `g`. */
  ghost predicate Visited(w: World, fixed: Option<string>, lane: Lane, h: History, visited: seq<Url>, g: History) {
    && Scripted(w, fixed, lane, h, g) && g != [] && IsPage(Last(g)) && !Retries(w, g)
    && ContextOf(w, g) == ContextOf(w, h).(trail := visited)
  }

  lemma PageScripted(w: World, fixed: Option<string>, lane: Lane, h: History, visited: seq<Url>)
    requires visited != [] && ReadyForPage(w, fixed, lane, h, visited)
    ensures var (g, reply) := Exchange(w, h, Page(visited[|visited| - 1]), AnyTransient, 0);
            Visited(w, fixed, lane, h, visited, g) && reply == w.reply(g)
  {
    ExchangeScripted(w, fixed, lane, h, Page(visited[|visited| - 1]), 0);
  }

  /** The pages have come to an end: one is reached, or the login is over. */
  ghost predicate PagesEnd(
    w: World, fixed: Option<string>, lane: Lane, h: History, visited: seq<Url>,
    end: (History, Result<seq<Url>, OtpError>))
  {
    && Scripted(w, fixed, lane, h, end.0)
    && (end.1.Ok? ==>
          && Arrived(w, end.0, end.1.value) && visited <= end.1.value
          && ContextOf(w, end.0) == ContextOf(w, h).(trail := end.1.value))
    && (end.1.Err? ==> Failed(w, fixed, lane, end.0))
  }

  /** A round that redirects, when the rest has come to its end. */
  lemma PagesEndEarlier(
    w: World, fixed: Option<string>, lane: Lane, h: History, visited: seq<Url>, g: History, more: seq<Url>,
    end: (History, Result<seq<Url>, OtpError>))
    requires Visited(w, fixed, lane, h, visited, g) && visited <= more && PagesEnd(w, fixed, lane, g, more, end)
    ensures PagesEnd(w, fixed, lane, h, visited, end)
  {
    ScriptedJoin(w, fixed, lane, h, g, end.0);
  }

  /** The page does not redirect, or to a place that may not be followed. */
  lemma NotRedirected(w: World, fixed: Option<string>, lane: Lane, h: History, visited: seq<Url>, g: History)
    requires Visited(w, fixed, lane, h, visited, g) && !IsRedirect(w.reply(g))
    ensures PagesEnd(w, fixed, lane, h, visited, (g, Arrival(w.reply(g), visited)))
  {
  }

  /** The loop over pages, one round unfolded. */
  lemma PageRound(w: World, h: History, visited: seq<Url>, hops: nat)
    requires visited != [] && hops == |visited| - 1 < MAX_HOPS
    ensures var (g, reply) := Exchange(w, h, Page(visited[|visited| - 1]), AnyTransient, 0);
            Follow(w, h, visited, hops) ==
            if IsRedirect(reply) then Follow(w, g, visited + [Target(reply.payload.value)], hops + 1)
            else (g, Arrival(reply, visited))
  {
  }

  lemma {:induction false} RedirectScripted(
    w: World, fixed: Option<string>, lane: Lane, h: History, visited: seq<Url>, hops: nat, g: History)
    requires visited != [] && hops == |visited| - 1 < MAX_HOPS
    requires Visited(w, fixed, lane, h, visited, g) && IsRedirect(w.reply(g))
    ensures var more := visited + [Target(w.reply(g).payload.value)];
            PagesEnd(w, fixed, lane, h, visited, Follow(w, g, more, hops + 1))
    decreases MAX_HOPS - hops, 0
  {
    var more := visited + [Target(w.reply(g).payload.value)];
    Redirected(w, fixed, lane, g, visited);
    FollowScripted(w, fixed, lane, g, more, hops + 1);
    PagesEndEarlier(w, fixed, lane, h, visited, g, more, Follow(w, g, more, hops + 1));
  }

  lemma {:induction false} FollowScripted(
    w: World, fixed: Option<string>, lane: Lane, h: History, visited: seq<Url>, hops: nat)
    requires visited != [] && hops == |visited| - 1 <= MAX_HOPS
    requires if hops == MAX_HOPS then Failed(w, fixed, lane, h) else ReadyForPage(w, fixed, lane, h, visited)
    ensures PagesEnd(w, fixed, lane, h, visited, Follow(w, h, visited, hops))
    decreases MAX_HOPS - hops, 1
  {
    if hops < MAX_HOPS {
      PageRound(w, h, visited, hops);
      PageScripted(w, fixed, lane, h, visited);
      var (g, reply) := Exchange(w, h, Page(visited[|visited| - 1]), AnyTransient, 0);
      if IsRedirect(reply) {
        RedirectScripted(w, fixed, lane, h, visited, hops, g);
      } else {
        NotRedirected(w, fixed, lane, h, visited, g);
      }
    }
  }

  /** The workspace's page is open, and names its interaction. */
  ghost predicate AtWorkspace(w: World, h: History, id: string) {
    var trail := ContextOf(w, h).trail;
    Arrived(w, h, trail) && trail != [] && !trail[0].Resume? && w.interaction(trail) == Some(id)
  }

  /** The workspace has been looked for: its page is open, or the login is over. */
  ghost predicate EntryEnd(
    w: World, fixed: Option<string>, lane: Lane, h: History, prompts: nat, end: (History, Result<string, OtpError>))
  {
    && Scripted(w, fixed, lane, h, end.0)
    && (end.1.Ok? ==> AtWorkspace(w, end.0, end.1.value) && ContextOf(w, end.0).prompts == prompts)
    && (end.1.Err? ==> Failed(w, fixed, lane, end.0))
  }

  /** The page of the workspace names no interaction, or one. */
  lemma OpenScripted(w: World, fixed: Option<string>, lane: Lane, h: History, name: string)
    requires ReadyForPage(w, fixed, lane, h, [Entry(name)])
    ensures EntryEnd(w, fixed, lane, h, ContextOf(w, h).prompts, OpenWorkspace(w, h, name))
  {
    FollowScripted(w, fixed, lane, h, [Entry(name)], 0);
  }

  /** The list of workspaces is answered: the page is opened next, or the login is over. */
  lemma AccountsAnswered(w: World, fixed: Option<string>, lane: Lane, h: History)
    requires h != [] && Last(h) == Sent(Accounts) && !Retries(w, h)
    ensures if Usable(w.reply(h)) then ReadyForPage(w, fixed, lane, h, [Entry(w.reply(h).payload.value)])
            else Failed(w, fixed, lane, h)
  {
  }

  lemma AccountsScripted(w: World, fixed: Option<string>, lane: Lane, h: History)
    requires Ready(w, fixed, lane, h, Sent(Accounts))
    ensures var (g, reply) := Exchange(w, h, Accounts, AnyTransient, 0);
            && Scripted(w, fixed, lane, h, g) && ContextOf(w, g) == ContextOf(w, h)
            && if Usable(reply) then ReadyForPage(w, fixed, lane, g, [Entry(reply.payload.value)])
               else Failed(w, fixed, lane, g)
  {
    ExchangeScripted(w, fixed, lane, h, Accounts, 0);
    AccountsAnswered(w, fixed, lane, Exchange(w, h, Accounts, AnyTransient, 0).0);
  }

  lemma EntryScripted(w: World, fixed: Option<string>, lane: Lane, h: History)
    requires Ready(w, fixed, lane, h, Sent(Accounts))
    ensures EntryEnd(w, fixed, lane, h, ContextOf(w, h).prompts, EnterWorkspace(w, h))
  {
    AccountsScripted(w, fixed, lane, h);
    var (g, reply) := Exchange(w, h, Accounts, AnyTransient, 0);
    if Usable(reply) {
      OpenScripted(w, fixed, lane, g, reply.payload.value);
      ScriptedJoin(w, fixed, lane, h, g, OpenWorkspace(w, g, reply.payload.value).0);
    }
  }

  // ---------------------------------------------------------------- the password

  function PasswordPrompt(fixed: Option<string>): Said {
    if fixed.Some? then Sent(PostSession(fixed.value)) else AskedPassword
  }

  /** The session is open: the last thing sent is the password that opened it. */
  ghost predicate SessionOpen(w: World, h: History, password: string, trail: seq<Url>) {
    && h != [] && Last(h) == Sent(PostSession(password)) && !Retries(w, h)
    && Accepted(w.reply(h)) && ContextOf(w, h).trail == trail
  }

  /** The password has been sent, after `prompts` questions, and `v` is what came of it. */
  ghost predicate Tried(
    w: World, fixed: Option<string>, lane: Lane, h: History, trail: seq<Url>, prompts: nat, g: History,
    password: string, v: Result<Done, OtpError>)
  {
    && Scripted(w, fixed, lane, h, g) && g != [] && Last(g) == Sent(PostSession(password)) && !Retries(w, g)
    && ContextOf(w, g).prompts == prompts && ContextOf(w, g).trail == trail
    && (v.Ok? <==> Accepted(w.reply(g)))
    && (v.Err? ==> (v.error.PasswordRejected? <==> Rejected(w.reply(g))))
  }

  /** What the answer to a password means. */
  lemma VerdictOnPassword(w: World, h: History, password: string)
    ensures var (g, v) := Submit(w, h, PostSession(password), PasswordRejected);
            var reply := Exchange(w, h, PostSession(password), AnyTransient, 0).1;
            && g == Exchange(w, h, PostSession(password), AnyTransient, 0).0 && (v.Ok? <==> Accepted(reply))
            && (v.Err? ==> (v.error.PasswordRejected? <==> Rejected(reply)))
  {
  }

  lemma SubmissionScripted(w: World, fixed: Option<string>, lane: Lane, h: History, password: string)
    requires Ready(w, fixed, lane, h, Sent(PostSession(password)))
    ensures var (g, v) := Submit(w, h, PostSession(password), PasswordRejected);
            Tried(w, fixed, lane, h, ContextOf(w, h).trail, ContextOf(w, h).prompts, g, password, v)
  {
    VerdictOnPassword(w, h, password);
    ExchangeScripted(w, fixed, lane, h, PostSession(password), 0);
  }

  function Prompted(h: History, fixed: Option<string>): History {
    if fixed.Some? then h else h + [AskedPassword]
  }

  /** The password that is at hand after the question, if there had to be one. */
  function AtHand(w: World, h: History, fixed: Option<string>): Option<string> {
    if fixed.Some? then fixed else w.password(Prompted(h, fixed))
  }

  lemma PromptScripted(w: World, fixed: Option<string>, lane: Lane, h: History)
    requires Ready(w, fixed, lane, h, PasswordPrompt(fixed))
    ensures var h1, c := Prompted(h, fixed), ContextOf(w, h);
            && Scripted(w, fixed, lane, h, h1)
            && ContextOf(w, h1) == (if fixed.Some? then c else c.(prompts := c.prompts + 1))
            && match AtHand(w, h, fixed)
               case None => Failed(w, fixed, lane, h1)
               case Some(password) => Ready(w, fixed, lane, h1, Sent(PostSession(password)))
  {
    ScriptedOne(w, fixed, lane, h, PasswordPrompt(fixed));
  }

  function PromptsAfter(fixed: Option<string>, prompts: nat): nat {
    if fixed.Some? then prompts else prompts + 1
  }

  /** One password, typed or fixed, and the answer to it. */
  lemma AttemptScripted(
    w: World, fixed: Option<string>, lane: Lane, h: History, trail: seq<Url>, prompts: nat, password: string)
    requires Ready(w, fixed, lane, h, PasswordPrompt(fixed)) && AtHand(w, h, fixed) == Some(password)
    requires ContextOf(w, h).trail == trail && ContextOf(w, h).prompts == prompts
    ensures var (g, v) := Submit(w, Prompted(h, fixed), PostSession(password), PasswordRejected);
            Tried(w, fixed, lane, h, trail, PromptsAfter(fixed, prompts), g, password, v)
  {
    PromptScripted(w, fixed, lane, h);
    SubmissionScripted(w, fixed, lane, Prompted(h, fixed), password);
    ScriptedJoin(w, fixed, lane, h, Prompted(h, fixed),
                 Submit(w, Prompted(h, fixed), PostSession(password), PasswordRejected).0);
  }

  /** A password is rejected: another one may be typed. */
  lemma SessionRefused(
    w: World, fixed: Option<string>, lane: Lane, h: History, trail: seq<Url>, prompts: nat, g: History,
    password: string, v: Result<Done, OtpError>)
    requires Tried(w, fixed, lane, h, trail, prompts, g, password, v) && v.Err? && v.error.PasswordRejected?
    requires fixed.None? && prompts < WORKSPACE_PASSWORD_ATTEMPTS
    ensures Ready(w, fixed, lane, g, AskedPassword)
  {
  }

  /** The passwords have come to an end: one opens the session, or the login is over. */
  ghost predicate PasswordsEnd(
    w: World, fixed: Option<string>, lane: Lane, h: History, trail: seq<Url>,
    end: (History, Result<string, OtpError>))
  {
    && Scripted(w, fixed, lane, h, end.0)
    && (end.1.Ok? ==> SessionOpen(w, end.0, end.1.value, trail))
    && (end.1.Err? ==> Failed(w, fixed, lane, end.0))
  }

  lemma PasswordsEndEarlier(
    w: World, fixed: Option<string>, lane: Lane, h: History, trail: seq<Url>, g: History,
    end: (History, Result<string, OtpError>))
    requires Scripted(w, fixed, lane, h, g) && PasswordsEnd(w, fixed, lane, g, trail, end)
    ensures PasswordsEnd(w, fixed, lane, h, trail, end)
  {
    ScriptedJoin(w, fixed, lane, h, g, end.0);
  }

  /** The last password to be tried has been. */
  lemma PasswordsDone(
    w: World, fixed: Option<string>, lane: Lane, h: History, trail: seq<Url>, prompts: nat, g: History,
    password: string, v: Result<Done, OtpError>)
    requires Tried(w, fixed, lane, h, trail, prompts, g, password, v)
    requires v.Err? && v.error.PasswordRejected? && fixed.None? ==> prompts >= WORKSPACE_PASSWORD_ATTEMPTS
    ensures PasswordsEnd(w, fixed, lane, h, trail, (g, if v.Ok? then Ok(password) else Err(v.error)))
  {
  }

  /** The password is the last to be tried. */
  predicate IsLastTry(fixed: Option<string>, prompts: nat, v: Result<Done, OtpError>) {
    v.Ok? || !v.error.PasswordRejected? || fixed.Some? || prompts >= WORKSPACE_PASSWORD_ATTEMPTS
  }

  /** The loop over passwords, one round unfolded. */
  lemma PasswordRound(w: World, h: History, fixed: Option<string>, attempt: nat)
    requires attempt < WORKSPACE_PASSWORD_ATTEMPTS
    ensures var h1 := Prompted(h, fixed);
            PasswordLogin(w, h, fixed, attempt) ==
            match AtHand(w, h, fixed)
            case None => (h1, Err(NoInput))
            case Some(password) =>
              var (g, v) := Submit(w, h1, PostSession(password), PasswordRejected);
              if IsLastTry(fixed, PromptsAfter(fixed, attempt), v)
              then (g, if v.Ok? then Ok(password) else Err(v.error)) else PasswordLogin(w, g, fixed, attempt + 1)
  {
  }

  lemma {:induction false} PasswordScripted(
    w: World, fixed: Option<string>, lane: Lane, h: History, attempt: nat, trail: seq<Url>)
    requires attempt < WORKSPACE_PASSWORD_ATTEMPTS && Ready(w, fixed, lane, h, PasswordPrompt(fixed))
    requires ContextOf(w, h).prompts == attempt && ContextOf(w, h).trail == trail
    ensures PasswordsEnd(w, fixed, lane, h, trail, PasswordLogin(w, h, fixed, attempt))
    decreases WORKSPACE_PASSWORD_ATTEMPTS - attempt
  {
    PasswordRound(w, h, fixed, attempt);
    match AtHand(w, h, fixed)
    case None =>
      PromptScripted(w, fixed, lane, h);
    case Some(password) =>
      AttemptScripted(w, fixed, lane, h, trail, attempt, password);
      var prompts := PromptsAfter(fixed, attempt);
      var (g, v) := Submit(w, Prompted(h, fixed), PostSession(password), PasswordRejected);
      if IsLastTry(fixed, prompts, v) {
        PasswordsDone(w, fixed, lane, h, trail, prompts, g, password, v);
      } else {
        SessionRefused(w, fixed, lane, h, trail, prompts, g, password, v);
        PasswordScripted(w, fixed, lane, g, attempt + 1, trail);
        PasswordsEndEarlier(w, fixed, lane, h, trail, g, PasswordLogin(w, g, fixed, attempt + 1));
      }
  }

  // ---------------------------------------------------------------- the token

  /** The password sent last. */
  function PasswordSent(h: History): Option<string>
    decreases |h|
  {
    if h == [] then None
    else if Last(h).Sent? && Last(h).request.PostSession? then Some(Last(h).request.password)
    else PasswordSent(Before(h))
  }

  /** Over: nothing may be said any more, and the result is what the last answer says. */
  ghost predicate Over(w: World, fixed: Option<string>, lane: Lane, end: Ending) {
    && NextSaid(w, fixed, lane, end.0) == None
    && TokenAnswered(w, end.0) == (if end.1.Ok? then Some(end.1.value.token) else None)
    && (end.1.Ok? ==> PasswordSent(end.0) == Some(end.1.value.password))
  }

  lemma {:induction false} ExchangeKeepsPassword(w: World, h: History, q: Request, p: Policy, attempt: nat)
    requires attempt < TRANSIENT_RETRY_ATTEMPTS && !q.PostSession?
    ensures PasswordSent(Exchange(w, h, q, p, attempt).0) == PasswordSent(h)
    decreases TRANSIENT_RETRY_ATTEMPTS - attempt
  {
    var h1 := h + [Sent(q)];
    assert Before(h1) == h;
    if attempt + 1 < TRANSIENT_RETRY_ATTEMPTS && ShouldRetry(p, w.reply(h1)) {
      ExchangeKeepsPassword(w, h1, q, p, attempt + 1);
    }
  }

  lemma {:induction false} FollowKeepsPassword(w: World, h: History, visited: seq<Url>, hops: nat)
    requires visited != [] && hops <= MAX_HOPS
    ensures PasswordSent(Follow(w, h, visited, hops).0) == PasswordSent(h)
    decreases MAX_HOPS - hops
  {
    if hops < MAX_HOPS {
      var q := Page(visited[|visited| - 1]);
      ExchangeKeepsPassword(w, h, q, AnyTransient, 0);
      var (g, reply) := Exchange(w, h, q, AnyTransient, 0);
      if IsRedirect(reply) { FollowKeepsPassword(w, g, visited + [Target(reply.payload.value)], hops + 1); }
    }
  }

  lemma MintScripted(w: World, fixed: Option<string>, lane: Lane, h: History, trail: seq<Url>)
    requires Arrived(w, h, trail) && trail != [] && trail[0].Resume?
    ensures var (g, r) := Mint(w, h);
            && Scripted(w, fixed, lane, h, g) && NextSaid(w, fixed, lane, g) == None
            && PasswordSent(g) == PasswordSent(h)
            && TokenAnswered(w, g) == (if r.Ok? then Some(r.value) else None)
  {
    var bearer := w.bearer(h);
    if bearer.Some? {
      ExchangeScripted(w, fixed, lane, h, MintToken(bearer.value), 0);
      ExchangeKeepsPassword(w, h, MintToken(bearer.value), PreSendOnly, 0);
    }
  }

  lemma ResumeScripted(
    w: World, fixed: Option<string>, lane: Lane, h: History, id: string, password: string, trail: seq<Url>)
    requires SessionOpen(w, h, password, trail) && w.interaction(trail) == Some(id)
    ensures var end := AfterPassword(w, h, id, password);
            Scripted(w, fixed, lane, h, end.0) && Over(w, fixed, lane, end)
  {
    FollowScripted(w, fixed, lane, h, [Resume(id)], 0);
    FollowKeepsPassword(w, h, [Resume(id)], 0);
    var (h1, resumed) := Follow(w, h, [Resume(id)], 0);
    if resumed.Ok? {
      MintScripted(w, fixed, lane, h1, resumed.value);
      ScriptedJoin(w, fixed, lane, h, h1, Mint(w, h1).0);
    }
  }

  // ---------------------------------------------------------------- from the code on

  /** The code is accepted. */
  ghost predicate CodeAccepted(w: World, h: History) {
    && h != [] && Last(h).Sent? && Last(h).request.ValidatePasscode? && !Retries(w, h)
    && Accepted(w.reply(h)) && ContextOf(w, h).prompts == 0
  }

  lemma EntryThenPassword(w: World, fixed: Option<string>, lane: Lane, h: History)
    requires CodeAccepted(w, h) && EnterWorkspace(w, h).1.Ok?
    ensures var (h1, id) := EnterWorkspace(w, h);
            var (h2, password) := PasswordLogin(w, h1, fixed, 0);
            var trail := ContextOf(w, h1).trail;
            && Scripted(w, fixed, lane, h, h2) && w.interaction(trail) == Some(id.value)
            && (password.Ok? ==> SessionOpen(w, h2, password.value, trail))
            && (password.Err? ==> Failed(w, fixed, lane, h2))
  {
    EntryScripted(w, fixed, lane, h);
    var h1 := EnterWorkspace(w, h).0;
    PasswordScripted(w, fixed, lane, h1, 0, ContextOf(w, h1).trail);
    ScriptedJoin(w, fixed, lane, h, h1, PasswordLogin(w, h1, fixed, 0).0);
  }

  lemma AfterOtpScripted(w: World, fixed: Option<string>, lane: Lane, h: History)
    requires CodeAccepted(w, h)
    ensures var end := AfterOtp(w, h, fixed);
            Scripted(w, fixed, lane, h, end.0) && Over(w, fixed, lane, end)
  {
    EntryScripted(w, fixed, lane, h);
    var (h1, id) := EnterWorkspace(w, h);
    if id.Ok? {
      EntryThenPassword(w, fixed, lane, h);
      var (h2, password) := PasswordLogin(w, h1, fixed, 0);
      if password.Ok? {
        ResumeScripted(w, fixed, lane, h2, id.value, password.value, ContextOf(w, h1).trail);
        ScriptedJoin(w, fixed, lane, h, h2, AfterPassword(w, h2, id.value, password.value).0);
      }
    }
  }

  // ---------------------------------------------------------------- the codes

  /** A code is asked for, `tries` having been on the `references`-th reference. */
  ghost predicate AsksForCode(
    w: World, fixed: Option<string>, lane: Lane, h: History, reference: string, tries: nat, references: nat)
  {
    && Ready(w, fixed, lane, h, AskedOtp)
    && var c := After(w, h, ContextOf(w, h), AskedOtp);
       c.reference == reference && c.tries == tries && c.references == references && c.prompts == 0
  }

  /** A code has been refused, or the answer is lost. */
  ghost predicate CodeRefused(w: World, h: History, reference: string, tries: nat, references: nat) {
    && h != [] && Last(h).Sent? && Last(h).request.ValidatePasscode? && !Retries(w, h) && !Accepted(w.reply(h))
    && var c := ContextOf(w, h);
       c.reference == reference && c.tries == tries && c.references == references && c.prompts == 0
  }

  lemma MailScripted(w: World, fixed: Option<string>, lane: Lane, h: History)
    requires Ready(w, fixed, lane, h, Sent(SendPasscode)) && ContextOf(w, h).prompts == 0
    ensures var (g, reference) := Effect(w, h, SendPasscode);
            && Scripted(w, fixed, lane, h, g)
            && (reference.Ok? ==>
                  AsksForCode(w, fixed, lane, g, reference.value, 1, ContextOf(w, h).references + 1))
            && (reference.Err? ==> Failed(w, fixed, lane, g))
  {
    ExchangeScripted(w, fixed, lane, h, SendPasscode, 0);
  }

  /** One code: nothing typed, accepted, or refused. */
  lemma CodeScripted(
    w: World, fixed: Option<string>, lane: Lane, h: History, reference: string, tries: nat, references: nat)
    requires AsksForCode(w, fixed, lane, h, reference, tries, references)
    ensures var h1 := h + [AskedOtp];
            var code := w.code(h1);
            if code.None? then Scripted(w, fixed, lane, h, h1) && Failed(w, fixed, lane, h1)
            else
              var (h2, v) := Validate(w, h1, reference, code.value);
              && Scripted(w, fixed, lane, h, h2)
              && (v.Ok? ==> CodeAccepted(w, h2))
              && (v.Err? ==> CodeRefused(w, h2, reference, tries, references)
                             && (v.error.CodeRejected? <==> Rejected(w.reply(h2))))
  {
    var h1 := h + [AskedOtp];
    ScriptedOne(w, fixed, lane, h, AskedOtp);
    var code := w.code(h1);
    if code.Some? {
      var q := ValidatePasscode(reference, Trim(code.value));
      ExchangeScripted(w, fixed, lane, h1, q, 0);
      ScriptedJoin(w, fixed, lane, h, h1, Exchange(w, h1, q, AnyTransient, 0).0);
    }
  }

  lemma WizardRefused(w: World, fixed: Option<string>, h: History, reference: string, tries: nat, references: nat)
    requires CodeRefused(w, h, reference, tries, references)
    ensures if Rejected(w.reply(h)) && tries < DEFAULT_BUDGETS.otpAttempts
            then AsksForCode(w, fixed, WizardLane, h, reference, tries + 1, references)
            else Failed(w, fixed, WizardLane, h)
  {
  }

  /** The codes have come to an end: one is accepted, or the login is over. */
  ghost predicate CodesEnd(
    w: World, fixed: Option<string>, lane: Lane, h: History, end: (History, Result<Done, OtpError>))
  {
    && Scripted(w, fixed, lane, h, end.0)
    && if end.1.Ok? then CodeAccepted(w, end.0) else Failed(w, fixed, lane, end.0)
  }

  /** The same from an earlier point on. */
  lemma CodesEndEarlier(
    w: World, fixed: Option<string>, lane: Lane, h: History, g: History, end: (History, Result<Done, OtpError>))
    requires Scripted(w, fixed, lane, h, g) && CodesEnd(w, fixed, lane, g, end)
    ensures CodesEnd(w, fixed, lane, h, end)
  {
    ScriptedJoin(w, fixed, lane, h, g, end.0);
  }

  lemma {:induction false} WizardCodesScripted(
    w: World, fixed: Option<string>, h: History, reference: string, n: nat, references: nat)
    requires n < DEFAULT_BUDGETS.otpAttempts
    requires AsksForCode(w, fixed, WizardLane, h, reference, n + 1, references)
    ensures CodesEnd(w, fixed, WizardLane, h, WizardCodes(w, h, reference, n))
    decreases DEFAULT_BUDGETS.otpAttempts - n
  {
    CodeScripted(w, fixed, WizardLane, h, reference, n + 1, references);
    var code := w.code(h + [AskedOtp]);
    if code.Some? {
      var (h2, v) := Validate(w, h + [AskedOtp], reference, code.value);
      if v.Err? { WizardRefused(w, fixed, h2, reference, n + 1, references); }
      if v.Err? && v.error.CodeRejected? && n + 1 < DEFAULT_BUDGETS.otpAttempts {
        WizardCodesScripted(w, fixed, h2, reference, n + 1, references);
        CodesEndEarlier(w, fixed, WizardLane, h, h2, WizardCodes(w, h2, reference, n + 1));
      }
    }
  }

  lemma LegacyRefused(w: World, fixed: Option<string>, h: History, reference: string, tries: nat, references: nat)
    requires CodeRefused(w, h, reference, tries, references)
    ensures match NextOtpAction(tries, references)
            case Reprompt => AsksForCode(w, fixed, LegacyLane, h, reference, tries + 1, references)
            case Resend => Ready(w, fixed, LegacyLane, h, Sent(SendPasscode))
            case GiveUp => Failed(w, fixed, LegacyLane, h)
  {
  }

  lemma {:induction false} LegacySendScripted(w: World, fixed: Option<string>, h: History, sends: nat)
    requires sends < MAX_OTP_SENDS && Ready(w, fixed, LegacyLane, h, Sent(SendPasscode))
    requires ContextOf(w, h).references == sends && ContextOf(w, h).prompts == 0
    ensures CodesEnd(w, fixed, LegacyLane, h, LegacySend(w, h, sends))
    decreases (MAX_OTP_SENDS - sends) * 10
  {
    MailScripted(w, fixed, LegacyLane, h);
    var (h1, reference) := Effect(w, h, SendPasscode);
    if reference.Ok? {
      assert LegacySend(w, h, sends) == LegacyCodes(w, h1, reference.value, 0, sends + 1);
      LegacyCodesScripted(w, fixed, h1, reference.value, 0, sends + 1);
      CodesEndEarlier(w, fixed, LegacyLane, h, h1, LegacyCodes(w, h1, reference.value, 0, sends + 1));
    }
  }

  lemma {:induction false} LegacyCodesScripted(
    w: World, fixed: Option<string>, h: History, reference: string, attempt: nat, sends: nat)
    requires attempt < OTP_ATTEMPTS_PER_REFERENCE && 0 < sends <= MAX_OTP_SENDS
    requires AsksForCode(w, fixed, LegacyLane, h, reference, attempt + 1, sends)
    ensures CodesEnd(w, fixed, LegacyLane, h, LegacyCodes(w, h, reference, attempt, sends))
    decreases (MAX_OTP_SENDS - sends) * 10 + 5 - attempt
  {
    CodeScripted(w, fixed, LegacyLane, h, reference, attempt + 1, sends);
    var code := w.code(h + [AskedOtp]);
    if code.Some? {
      var (h2, v) := Validate(w, h + [AskedOtp], reference, code.value);
      if v.Err? {
        LegacyRefused(w, fixed, h2, reference, attempt + 1, sends);
        match NextOtpAction(attempt + 1, sends)
        case Reprompt =>
          LegacyCodesScripted(w, fixed, h2, reference, attempt + 1, sends);
          CodesEndEarlier(w, fixed, LegacyLane, h, h2, LegacyCodes(w, h2, reference, attempt + 1, sends));
        case Resend =>
          LegacySendScripted(w, fixed, h2, sends);
          CodesEndEarlier(w, fixed, LegacyLane, h, h2, LegacySend(w, h2, sends));
        case GiveUp =>
      }
    }
  }

  // ---------------------------------------------------------------- whole logins

  lemma WarmUpScripted(w: World, fixed: Option<string>, lane: Lane)
    ensures var h: History := [Sent(WarmUp)];
            && Scripted(w, fixed, lane, [], h) && Ready(w, fixed, lane, h, Sent(SendPasscode))
            && ContextOf(w, h) == Context("", 0, 0, 0, [])
  {
    ScriptedOne(w, fixed, lane, [], Sent(WarmUp));
    assert [] + [Sent(WarmUp)] == [Sent(WarmUp)];
  }

  lemma WizardScripted(w: World, fixed: Option<string>)
    ensures Scripted(w, fixed, WizardLane, [], Wizard(w, fixed).0) && Over(w, fixed, WizardLane, Wizard(w, fixed))
  {
    var h: History := [Sent(WarmUp)];
    WarmUpScripted(w, fixed, WizardLane);
    MailScripted(w, fixed, WizardLane, h);
    var (h1, reference) := Effect(w, h, SendPasscode);
    ScriptedJoin(w, fixed, WizardLane, [], h, h1);
    if reference.Ok? {
      WizardCodesScripted(w, fixed, h1, reference.value, 0, 1);
      var (h2, r) := WizardCodes(w, h1, reference.value, 0);
      ScriptedJoin(w, fixed, WizardLane, [], h1, h2);
      if r.Ok? {
        AfterOtpScripted(w, fixed, WizardLane, h2);
        ScriptedJoin(w, fixed, WizardLane, [], h2, AfterOtp(w, h2, fixed).0);
      }
    }
  }

  lemma LegacyScripted(w: World, fixed: Option<string>)
    ensures Scripted(w, fixed, LegacyLane, [], Legacy(w, fixed).0) && Over(w, fixed, LegacyLane, Legacy(w, fixed))
  {
    var h: History := [Sent(WarmUp)];
    WarmUpScripted(w, fixed, LegacyLane);
    LegacySendScripted(w, fixed, h, 0);
    var (h1, r) := LegacySend(w, h, 0);
    ScriptedJoin(w, fixed, LegacyLane, [], h, h1);
    if r.Ok? {
      AfterOtpScripted(w, fixed, LegacyLane, h1);
      ScriptedJoin(w, fixed, LegacyLane, [], h1, AfterOtp(w, h1, fixed).0);
    }
  }

  function LoginBy(lane: Lane, w: World, fixed: Option<string>): Ending {
    if lane.WizardLane? then Wizard(w, fixed) else Legacy(w, fixed)
  }

  lemma LoginScripted(lane: Lane, w: World, fixed: Option<string>)
    ensures Scripted(w, fixed, lane, [], LoginBy(lane, w, fixed).0) && Over(w, fixed, lane, LoginBy(lane, w, fixed))
  {
    WizardScripted(w, fixed);
    LegacyScripted(w, fixed);
  }

  /**
  Both drivers say, word for word, what the rules say next, until no rule applies.
  A login succeeds exactly if the last thing said was a request for a token and it
  was answered; it gives that token, and the password that was sent last.
  */
  lemma LoginFollowsTheScript(lane: Lane, w: World, fixed: Option<string>)
    ensures var h := LoginBy(lane, w, fixed).0;
            forall i | 0 <= i < |h| :: NextSaid(w, fixed, lane, h[..i]) == Some(h[i])
    ensures Over(w, fixed, lane, LoginBy(lane, w, fixed))
  {
    LoginScripted(lane, w, fixed);
    var h := LoginBy(lane, w, fixed).0;
    forall i | 0 <= i < |h| ensures NextSaid(w, fixed, lane, h[..i]) == Some(h[i]) {
      ScriptedMeans(w, fixed, lane, [], h, i);
    }
  }

  lemma {:induction false} ScriptsAgree(
    w: World, fixed: Option<string>, lane: Lane, h: History, g: History, n: nat)
    requires Scripted(w, fixed, lane, [], h) && Scripted(w, fixed, lane, [], g) && n <= |h| && n <= |g|
    ensures h[..n] == g[..n]
    decreases n
  {
    if n > 0 {
      ScriptsAgree(w, fixed, lane, h, g, n - 1);
      ScriptedMeans(w, fixed, lane, [], h, n - 1);
      ScriptedMeans(w, fixed, lane, [], g, n - 1);
      assert h[..n] == h[..n - 1] + [h[n - 1]] && g[..n] == g[..n - 1] + [g[n - 1]];
    }
  }

  lemma EndsLater(w: World, fixed: Option<string>, lane: Lane, h: History, g: History)
    requires Scripted(w, fixed, lane, [], h) && Scripted(w, fixed, lane, [], g)
    requires NextSaid(w, fixed, lane, g) == None
    ensures |h| <= |g|
  {
    assert g == g[..|g|];
    if |g| < |h| {
      ScriptsAgree(w, fixed, lane, h, g, |g|);
      ScriptedMeans(w, fixed, lane, [], h, |g|);
    }
  }

  /** The rules leave no choice: the only conversation that follows them to their end is the login's. */
  lemma ScriptFixesTheLogin(lane: Lane, w: World, fixed: Option<string>, h: History)
    ensures h == LoginBy(lane, w, fixed).0 <==>
              Scripted(w, fixed, lane, [], h) && NextSaid(w, fixed, lane, h) == None
  {
    var g := LoginBy(lane, w, fixed).0;
    LoginScripted(lane, w, fixed);
    if Scripted(w, fixed, lane, [], h) && NextSaid(w, fixed, lane, h) == None {
      EndsLater(w, fixed, lane, h, g);
      EndsLater(w, fixed, lane, g, h);
      ScriptsAgree(w, fixed, lane, h, g, |h|);
      assert h == h[..|h|] && g == g[..|h|];
    }
  }

  // ---------------------------------------------------------------- where codes and passwords come from

  predicate IsCode(said: Said) {
    said.Sent? && said.request.ValidatePasscode?
  }

  predicate IsSession(said: Said) {
    said.Sent? && said.request.PostSession?
  }

  /** What was said up to any point followed the rules as well. */
  lemma {:induction false} PrefixScripted(w: World, fixed: Option<string>, lane: Lane, h: History, i: nat)
    requires Scripted(w, fixed, lane, [], h) && i <= |h|
    ensures Scripted(w, fixed, lane, [], h[..i])
    decreases |h|
  {
    if i < |h| {
      PrefixScripted(w, fixed, lane, Before(h), i);
      assert Before(h)[..i] == h[..i];
    } else {
      assert h[..i] == h;
    }
  }

  /** `said` is all that was said from `from` on. */
  predicate OnlyFrom(h: History, from: nat, said: Said) {
    forall j | from <= j < |h| :: h[j] == said
  }

  /** A code is sent again, or was just typed. */
  lemma CodeCause(w: World, fixed: Option<string>, lane: Lane, h: History, said: Said)
    requires NextSaid(w, fixed, lane, h) == Some(said) && IsCode(said)
    ensures h != []
    ensures || Last(h) == said
            || (Last(h) == AskedOtp && w.code(h).Some? && said.request.code == Trim(w.code(h).value)
                && said.request.reference == ContextOf(w, h).reference)
  {
  }

  /** A code is asked for after a mail that was answered, or after another code. */
  lemma PromptForCodeCause(w: World, fixed: Option<string>, lane: Lane, h: History)
    requires NextSaid(w, fixed, lane, h) == Some(AskedOtp)
    ensures h != [] && (IsCode(Last(h)) || (Last(h) == Sent(SendPasscode) && Answered(w.reply(h))))
  {
  }

  /** What stands between a code and the question for it is the code itself, repeated. */
  lemma {:induction false} AskedBefore(w: World, fixed: Option<string>, lane: Lane, h: History) returns (asked: nat)
    requires Scripted(w, fixed, lane, [], h) && h != [] && IsCode(Last(h))
    ensures asked + 1 < |h| && h[asked] == AskedOtp && OnlyFrom(h, asked + 1, Last(h))
    ensures w.code(h[..asked + 1]).Some? && Last(h).request.code == Trim(w.code(h[..asked + 1]).value)
    ensures Last(h).request.reference == ContextOf(w, h[..asked + 1]).reference
    decreases |h|
  {
    var g := Before(h);
    CodeCause(w, fixed, lane, g, Last(h));
    if Last(g) == Last(h) {
      asked := AskedBefore(w, fixed, lane, g);
      assert g[..asked + 1] == h[..asked + 1];
    } else {
      asked := |g| - 1;
      assert h[..asked + 1] == g;
    }
  }

  /** The mail whose reference is in use when a code is asked for. */
  lemma {:induction false} MailBefore(w: World, fixed: Option<string>, lane: Lane, h: History) returns (mail: nat)
    requires Scripted(w, fixed, lane, [], h) && h != [] && (Last(h) == AskedOtp || IsCode(Last(h)))
    ensures mail < |h| && h[mail] == Sent(SendPasscode) && Sent(SendPasscode) !in h[mail + 1..]
    ensures w.reply(h[..mail + 1]).Response?
    ensures w.reply(h[..mail + 1]).payload == Some(ContextOf(w, h).reference)
    decreases |h|
  {
    var g := Before(h);
    if IsCode(Last(h)) { CodeCause(w, fixed, lane, g, Last(h)); } else { PromptForCodeCause(w, fixed, lane, g); }
    if Last(g) == Sent(SendPasscode) {
      mail := |g| - 1;
      assert h[..mail + 1] == g == Before(g) + [Last(g)];
    } else {
      mail := MailBefore(w, fixed, lane, g);
      assert g[..mail + 1] == h[..mail + 1] && h[mail + 1..] == g[mail + 1..] + [Last(h)];
    }
  }

  lemma OnlyInPrefix(h: History, i: nat, from: nat, said: Said)
    requires i < |h| && OnlyFrom(h[..i + 1], from, said)
    ensures OnlyFrom(h[..i], from, said)
  {
    assert forall j | 0 <= j < i :: h[..i][j] == h[..i + 1][j];
  }

  /** `asked` is the question that the code at `i` answers. */
  ghost predicate CodeWasTyped(w: World, h: History, i: nat, asked: nat)
    requires i < |h| && IsCode(h[i])
  {
    && asked < i && h[asked] == AskedOtp && OnlyFrom(h[..i], asked + 1, h[i])
    && w.code(h[..asked + 1]).Some? && h[i].request.code == Trim(w.code(h[..asked + 1]).value)
  }

  /** `mail` is the last mail before `asked`, and `reference` is in the answer to it. */
  ghost predicate ReferenceWasMailed(w: World, h: History, asked: nat, mail: nat, reference: string) {
    && mail < asked < |h| && h[mail] == Sent(SendPasscode) && Sent(SendPasscode) !in h[mail + 1..asked]
    && w.reply(h[..mail + 1]).Response? && w.reply(h[..mail + 1]).payload == Some(reference)
  }

  lemma CodeAt(w: World, fixed: Option<string>, lane: Lane, h: History, i: nat) returns (asked: nat)
    requires Scripted(w, fixed, lane, [], h) && i < |h| && IsCode(h[i])
    ensures CodeWasTyped(w, h, i, asked) && h[i].request.reference == ContextOf(w, h[..asked + 1]).reference
  {
    PrefixScripted(w, fixed, lane, h, i + 1);
    asked := AskedBefore(w, fixed, lane, h[..i + 1]);
    assert h[..i + 1][..asked + 1] == h[..asked + 1];
    OnlyInPrefix(h, i, asked + 1, h[i]);
  }

  /** The mail found in `h[..asked + 1]` is the one wanted in `h`. */
  lemma MailWithin(w: World, h: History, asked: nat, mail: nat, reference: string)
    requires mail <= asked < |h| && h[mail] == Sent(SendPasscode) && h[asked] == AskedOtp
    requires Sent(SendPasscode) !in h[..asked + 1][mail + 1..]
    requires w.reply(h[..mail + 1]).Response? && w.reply(h[..mail + 1]).payload == Some(reference)
    ensures ReferenceWasMailed(w, h, asked, mail, reference)
  {
    assert mail != asked;
    assert h[..asked + 1][mail + 1..] == h[mail + 1..asked] + [h[asked]];
  }

  lemma MailAt(w: World, fixed: Option<string>, lane: Lane, h: History, asked: nat) returns (mail: nat)
    requires Scripted(w, fixed, lane, [], h) && asked < |h| && h[asked] == AskedOtp
    ensures ReferenceWasMailed(w, h, asked, mail, ContextOf(w, h[..asked + 1]).reference)
  {
    var g := h[..asked + 1];
    assert Scripted(w, fixed, lane, [], g) by { PrefixScripted(w, fixed, lane, h, asked + 1); }
    mail := MailBefore(w, fixed, lane, g);
    assert g[..mail + 1] == h[..mail + 1];
    MailWithin(w, h, asked, mail, ContextOf(w, g).reference);
  }

  /**
  Every code that is sent is the one typed last, trimmed, together with the
  reference of the mail sent last.
  */
  lemma CodeGoesWithItsReference(lane: Lane, w: World, fixed: Option<string>, i: nat)
    returns (mail: nat, asked: nat)
    requires i < |LoginBy(lane, w, fixed).0| && IsCode(LoginBy(lane, w, fixed).0[i])
    ensures var h := LoginBy(lane, w, fixed).0;
            CodeWasTyped(w, h, i, asked) && ReferenceWasMailed(w, h, asked, mail, h[i].request.reference)
  {
    LoginScripted(lane, w, fixed);
    asked := CodeAt(w, fixed, lane, LoginBy(lane, w, fixed).0, i);
    mail := MailAt(w, fixed, lane, LoginBy(lane, w, fixed).0, asked);
  }

  /** A password is sent again, or was just typed, or is the fixed one. */
  lemma SessionCause(w: World, fixed: Option<string>, lane: Lane, h: History, said: Said)
    requires NextSaid(w, fixed, lane, h) == Some(said) && IsSession(said)
    ensures h != []
    ensures || Last(h) == said
            || (Last(h) == AskedPassword && w.password(h) == Some(said.request.password))
            || (Last(h) != AskedPassword && fixed == Some(said.request.password))
  {
  }

  lemma PromptCause(w: World, fixed: Option<string>, lane: Lane, h: History)
    requires NextSaid(w, fixed, lane, h) == Some(AskedPassword)
    ensures fixed.None?
  {
  }

  lemma {:induction false} PasswordBefore(w: World, fixed: Option<string>, lane: Lane, h: History)
    returns (asked: nat)
    requires Scripted(w, fixed, lane, [], h) && h != [] && IsSession(Last(h))
    ensures fixed.Some? ==> fixed == Some(Last(h).request.password)
    ensures fixed.None? ==>
              && asked + 1 < |h| && h[asked] == AskedPassword && OnlyFrom(h, asked + 1, Last(h))
              && w.password(h[..asked + 1]) == Some(Last(h).request.password)
    decreases |h|
  {
    var g := Before(h);
    SessionCause(w, fixed, lane, g, Last(h));
    asked := |g| - 1;
    if Last(g) == Last(h) {
      asked := PasswordBefore(w, fixed, lane, g);
      if fixed.None? { assert g[..asked + 1] == h[..asked + 1]; }
    } else if Last(g) == AskedPassword {
      PromptCause(w, fixed, lane, Before(g));
      assert h[..asked + 1] == g;
    }
  }

  /** `asked` is the question that the password at `i` answers. */
  ghost predicate PasswordWasTyped(w: World, h: History, i: nat, asked: nat)
    requires i < |h| && IsSession(h[i])
  {
    && asked < i && h[asked] == AskedPassword && OnlyFrom(h[..i], asked + 1, h[i])
    && w.password(h[..asked + 1]) == Some(h[i].request.password)
  }

  lemma PasswordAt(w: World, fixed: Option<string>, lane: Lane, h: History, i: nat) returns (asked: nat)
    requires Scripted(w, fixed, lane, [], h) && i < |h| && IsSession(h[i])
    ensures fixed.Some? ==> fixed == Some(h[i].request.password)
    ensures fixed.None? ==> PasswordWasTyped(w, h, i, asked)
  {
    assert Scripted(w, fixed, lane, [], h[..i + 1]) by { PrefixScripted(w, fixed, lane, h, i + 1); }
    asked := PasswordBefore(w, fixed, lane, h[..i + 1]);
    if fixed.None? {
      assert h[..i + 1][..asked + 1] == h[..asked + 1];
      OnlyInPrefix(h, i, asked + 1, h[i]);
    }
  }

  /** Every password that is sent is the fixed one, or the one typed last. */
  lemma PasswordIsTheUsers(lane: Lane, w: World, fixed: Option<string>, i: nat) returns (asked: nat)
    requires i < |LoginBy(lane, w, fixed).0| && IsSession(LoginBy(lane, w, fixed).0[i])
    ensures var h := LoginBy(lane, w, fixed).0;
            && (fixed.Some? ==> fixed == Some(h[i].request.password))
            && (fixed.None? ==> PasswordWasTyped(w, h, i, asked))
  {
    LoginScripted(lane, w, fixed);
    asked := PasswordAt(w, fixed, lane, LoginBy(lane, w, fixed).0, i);
  }
}
