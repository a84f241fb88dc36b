/** Listing a paged collection: which pages are fetched, what is returned, and when it is complete. */
module Pagination {
  import opened Common

  type Token = Option<string>

  /** One fetch: a page, a failure the service reported, or an error of the request itself. */
  datatype Outcome<T> = Page(items: seq<T>, next: Token) | Failed(code: string) | Fault

  /** A server answers by everything asked so far, the current request last. */
  type Server<!T> = seq<Token> -> Outcome<T>

  datatype Params = Params(start: Token, autoAll: bool, maxPages: Option<nat>)

  datatype Reason = RepeatedToken | PageCap

  datatype Listing<T> =
    | Listed(items: seq<T>, pages: nat, next: Token)
    | Incomplete(reason: Reason, items: seq<T>, pages: nat, next: Token)
    | FirstPageFailed(code: string)
    | LaterPageFailed(code: string, items: seq<T>, pages: nat)
    | Aborted

  const DEFAULT_MAX_PAGES: nat := 50

  function MaxPages(p: Params): nat {
    if p.maxPages.Some? then p.maxPages.value else if p.autoAll then DEFAULT_MAX_PAGES else 1
  }

  /** An empty continuation token is none. */
  function Continuation<T>(o: Outcome<T>): Token {
    if o.Page? && o.next != Some("") then o.next else None
  }

  // ---------------------------------------------------------------- what a listing means

  /** The answer to request number `k`. */
  function Answer<T>(server: Server<T>, asked: seq<Token>, k: nat): Outcome<T>
    requires k < |asked|
  {
    server(asked[..k + 1])
  }

  /** The answer is a page that names another one. */
  predicate NamesNext<T>(o: Outcome<T>) {
    o.Page? && o.next.Some? && o.next.value != ""
  }

  /** Each request after the first asks for the page that the one before it names. */
  ghost predicate Chained<T(!new)>(server: Server<T>, start: Token, asked: seq<Token>) {
    && (asked != [] ==> asked[0] == start)
    && forall k: nat | k + 1 < |asked| ::
         NamesNext(Answer(server, asked, k)) && asked[k + 1] == Answer(server, asked, k).next
  }

  ghost predicate NoContinuationTwice(asked: seq<Token>) {
    forall j, k | 0 < j < k < |asked| :: asked[j] != asked[k]
  }

  /** The items of the first `n` pages, in order. */
  function Items<T>(server: Server<T>, asked: seq<Token>, n: nat): seq<T>
    requires n <= |asked|
  {
    if n == 0 then []
    else
      var page := Answer(server, asked, n - 1);
      Items(server, asked, n - 1) + if page.Page? then page.items else []
  }

  /** The page that the last answer names, if it names one. */
  function LastContinuation<T>(server: Server<T>, asked: seq<Token>): Token {
    if asked != [] && NamesNext(Answer(server, asked, |asked| - 1)) then Answer(server, asked, |asked| - 1).next
    else None
  }

  ghost predicate AllPages<T(!new)>(server: Server<T>, asked: seq<Token>) {
    forall k: nat | k < |asked| :: Answer(server, asked, k).Page?
  }

  ghost predicate Fetched<T(!new)>(server: Server<T>, p: Params, asked: seq<Token>) {
    && Chained(server, p.start, asked)
    && |asked| <= MaxPages(p)
    && (|asked| > 1 ==> p.autoAll)
    && NoContinuationTwice(asked)
  }

  /** `r` is the right report when exactly `asked` was requested. */
  ghost predicate Reports<T(!new)>(server: Server<T>, p: Params, asked: seq<Token>, r: Listing<T>) {
    var n := |asked|;
    match r
    case Listed(items, pages, next) =>
      && pages == n && AllPages(server, asked) && items == Items(server, asked, n)
      && next == LastContinuation(server, asked)
      && (n == 0 <==> MaxPages(p) == 0)
      && (p.autoAll ==> next.None?)
    case Incomplete(reason, items, pages, next) =>
      && p.autoAll && n > 0
      && pages == n && AllPages(server, asked) && items == Items(server, asked, n)
      && next == LastContinuation(server, asked) && next.Some?
      && (if reason.RepeatedToken? then next in asked[1..] else n == MaxPages(p) && next !in asked[1..])
    case FirstPageFailed(code) => n == 1 && Answer(server, asked, 0) == Failed(code)
    case LaterPageFailed(code, items, pages) =>
      && n > 1 && Answer(server, asked, n - 1) == Failed(code)
      && pages == n - 1 && items == Items(server, asked, n - 1)
    case Aborted => n > 0 && Answer(server, asked, n - 1).Fault?
  }

  // ---------------------------------------------------------------- the loop

  lemma AskMore<T(!new)>(server: Server<T>, start: Token, asked: seq<Token>, token: Token)
    requires Chained(server, start, asked)
    requires if asked == [] then token == start
             else LastContinuation(server, asked).Some? && token == LastContinuation(server, asked)
    ensures Chained(server, start, asked + [token])
    ensures forall k: nat | k < |asked| :: Answer(server, asked + [token], k) == Answer(server, asked, k)
    ensures Items(server, asked + [token], |asked|) == Items(server, asked, |asked|)
  {
    var more := asked + [token];
    forall k: nat | k < |asked| ensures Answer(server, more, k) == Answer(server, asked, k) {
      assert more[..k + 1] == asked[..k + 1];
    }
    SameItems(server, asked, more, |asked|);
  }

  lemma {:induction false} SameItems<T>(server: Server<T>, asked: seq<Token>, more: seq<Token>, n: nat)
    requires n <= |asked| && asked <= more
    ensures Items(server, more, n) == Items(server, asked, n)
  {
    if n > 0 {
      assert more[..n] == asked[..n];
      SameItems(server, asked, more, n - 1);
    }
  }

  ghost predicate SeenAre(seen: set<string>, tokens: seq<Token>) {
    && (forall t | t in seen :: Some(t) in tokens)
    && (forall t | Some(t) in tokens :: t in seen)
  }

  lemma SeenGrows(seen: set<string>, tokens: seq<Token>, t: string)
    requires SeenAre(seen, tokens)
    ensures SeenAre(seen + {t}, tokens + [Some(t)])
    ensures t in seen <==> Some(t) in tokens
  {
  }

  /** A continuation that was not asked for before can be asked for. */
  lemma AskNew(asked: seq<Token>, token: Token)
    requires NoContinuationTwice(asked) && (asked != [] ==> token !in asked[1..])
    ensures NoContinuationTwice(asked + [token])
  {
    var more := asked + [token];
    forall j, k | 0 < j < k < |more| ensures more[j] != more[k] {
      if k == |asked| { assert more[j] == asked[1..][j - 1]; }
    }
  }

  /** The loop between two fetches: `current` is to be asked next. */
  ghost predicate Going<T(!new)>(
    server: Server<T>, p: Params, asked: seq<Token>, items: seq<T>, last: Token, current: Token, seen: set<string>)
  {
    && Fetched(server, p, asked) && AllPages(server, asked)
    && items == Items(server, asked, |asked|) && last == LastContinuation(server, asked)
    && (if asked == [] then current == p.start && seen == {}
        else p.autoAll && last.Some? && current == last && current !in asked[1..]
             && SeenAre(seen, asked[1..] + [current]))
  }

  /** What one more fetch adds, whatever it brings. */
  lemma FetchOne<T(!new)>(
    server: Server<T>, p: Params, asked: seq<Token>, items: seq<T>, last: Token, current: Token, seen: set<string>)
    requires Going(server, p, asked, items, last, current, seen) && |asked| < MaxPages(p)
    ensures var more := asked + [current];
            var page := server(more);
            && Fetched(server, p, more) && Answer(server, more, |asked|) == page
            && Items(server, more, |asked|) == items
            && (page.Page? ==> AllPages(server, more) && Items(server, more, |more|) == items + page.items)
            && LastContinuation(server, more) == Continuation(page)
            && SeenAre(seen, more[1..])
  {
    var more := asked + [current];
    AskMore(server, p.start, asked, current);
    AskNew(asked, current);
    assert more[..|asked| + 1] == more;
    assert asked != [] ==> more[1..] == asked[1..] + [current];
    forall k: nat | k < |asked| ensures Answer(server, more, k).Page? {
      assert Answer(server, asked, k).Page?;
    }
  }

  /**
  Fetch page after page. For every server: the requests are chained by the
  tokens the pages carry and number at most the page limit, no continuation is
  requested twice, and the report is the right one for them.
  */
  method ListRequest<T(!new)>(server: Server<T>, p: Params) returns (r: Listing<T>, asked: seq<Token>)
    ensures Fetched(server, p, asked) && Reports(server, p, asked, r)
  {
    var current := p.start;
    var pages: nat := 0;
    var items: seq<T> := [];
    var lastNext: Token := None;
    var seen: set<string> := {};
    var sent: seq<Token> := [];
    while true
      invariant pages == |sent| && Going(server, p, sent, items, lastNext, current, seen)
      decreases MaxPages(p) - pages
    {
      if pages >= MaxPages(p) {
        if p.autoAll && lastNext.Some? { return Incomplete(PageCap, items, pages, lastNext), sent; }
        return Listed(items, pages, lastNext), sent;
      }
      FetchOne(server, p, sent, items, lastNext, current, seen);
      sent := sent + [current];
      var page := server(sent);
      if page.Fault? { return Aborted, sent; }
      if page.Failed? {
        if pages == 0 { return FirstPageFailed(page.code), sent; }
        return LaterPageFailed(page.code, items, pages), sent;
      }
      pages := pages + 1;
      items := items + page.items;
      lastNext := Continuation(page);
      if !p.autoAll || lastNext.None? { return Listed(items, pages, lastNext), sent; }
      SeenGrows(seen, sent[1..], lastNext.value);
      if lastNext.value in seen { return Incomplete(RepeatedToken, items, pages, lastNext), sent; }
      seen := seen + {lastNext.value};
      current := lastNext;
    }
  }

  // ---------------------------------------------------------------- the report is determined

  /** Two chains of requests to the same server start alike. */
  lemma {:induction false} ChainsAgree<T(!new)>(server: Server<T>, start: Token, x: seq<Token>, y: seq<Token>, n: nat)
    requires Chained(server, start, x) && Chained(server, start, y) && n <= |x| && n <= |y|
    ensures x[..n] == y[..n]
  {
    if n > 0 {
      ChainsAgree(server, start, x, y, n - 1);
      assert x[..n] == x[..n - 1] + [x[n - 1]] && y[..n] == y[..n - 1] + [y[n - 1]];
      if n > 1 {
        var k: nat := n - 2;
        assert k + 1 < |x| && k + 1 < |y|;
        assert Answer(server, x, k) == Answer(server, y, k);
      }
    }
  }

  /** After a report that ends a listing nothing more would have been asked. */
  lemma NothingMore<T(!new)>(server: Server<T>, p: Params, x: seq<Token>, r: Listing<T>, y: seq<Token>)
    requires Fetched(server, p, x) && Reports(server, p, x, r) && Fetched(server, p, y)
    ensures |y| <= |x|
  {
    if |x| < |y| {
      ChainsAgree(server, p.start, x, y, |x|);
      assert x == y[..|x|] by { assert x[..|x|] == x; }
      if |x| > 0 {
        var k: nat := |x| - 1;
        assert k + 1 < |y|;
        assert Answer(server, x, k) == Answer(server, y, k) by { assert x[..k + 1] == y[..k + 1]; }
      }
    }
  }

  /**
  What was requested and what is reported follow from the server and the
  parameters alone: the contract of `ListRequest` leaves nothing open.
  */
  lemma ListingIsDetermined<T(!new)>(
    server: Server<T>, p: Params, x: seq<Token>, r: Listing<T>, y: seq<Token>, q: Listing<T>)
    requires Fetched(server, p, x) && Reports(server, p, x, r)
    requires Fetched(server, p, y) && Reports(server, p, y, q)
    ensures x == y && r == q
  {
    NothingMore(server, p, x, r, y);
    NothingMore(server, p, y, q, x);
    ChainsAgree(server, p.start, x, y, |x|);
    assert x[..|x|] == x && y[..|y|] == y;
    if |x| > 0 { assert Answer(server, x, |x| - 1) == Answer(server, y, |y| - 1); }
    if AllPages(server, x) {
      if |x| > 0 { assert Answer(server, x, |x| - 1).Page?; }
    }
  }

  /** The answer is a page whose token is absent or empty. */
  predicate EndsCollection<T>(o: Outcome<T>) {
    o.Page? && (o.next.None? || o.next.value == "")
  }

  /**
  An automatic listing that is reported as complete really reached the end of
  the collection, exactly when at least one page was allowed: with a page limit
  of zero an empty listing is reported as complete whatever the server holds.
  */
  lemma CompleteMeansExhaustedExactlyWhen<T(!new)>(server: Server<T>, p: Params, asked: seq<Token>, r: Listing<T>)
    requires p.autoAll && Fetched(server, p, asked) && Reports(server, p, asked, r) && r.Listed?
    ensures MaxPages(p) > 0 <==> asked != [] && EndsCollection(Answer(server, asked, |asked| - 1))
    ensures MaxPages(p) == 0 ==> r == Listed([], 0, None)
  {
  }
}
