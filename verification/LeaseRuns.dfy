/** The two ways in which a lease comes to present a superseded token, as runs. */
module LeaseRuns {
  import opened Common
  import opened AuthJournal
  import opened JournalMachine
  import opened JournalProofs
  import C = CrashAtomicity
  import U = Undisturbed
  import opened LeaseSystem
  import opened LeaseProofs

  lemma {:induction false} HistorySplit(w: World, a: Accounts, x: seq<Event>, y: seq<Event>)
    ensures History(w, a, x + y) == History(History(w, a, x), a, y)
    decreases |x|
  {
    if x == [] {
      assert x + y == y;
    } else {
      assert (x + y)[0] == x[0] && (x + y)[1..] == x[1..] + y;
      HistorySplit(LeaseSystem.Next(w, a, x[0]), a, x[1..], y);
    }
  }

  lemma Single(w: World, a: Accounts, e: Event)
    ensures History(w, a, [e]) == LeaseSystem.Next(w, a, e)
  {
    assert History(LeaseSystem.Next(w, a, e), a, [e][1..]) == LeaseSystem.Next(w, a, e);
  }

  /** The events of an undisturbed refresh by process `p`, up to the exchange. */
  function RefreshEvents(p: nat, answer: Answer): seq<Event> {
    [Acquire(p, Refresh), Tick(p, Done), Load(p, true), Exchange(p, answer)]
  }

  /** Nobody holds the lock and nothing is left to recover. */
  ghost predicate AtRest(w: World, a: Accounts, v: Vault) {
    && w.lock.None? && w.d == Settled(v) && IsVault(v) && RefreshSlot(a) in v.secrets
    && forall p | 0 <= p < |w.procs| :: w.procs[p].Idle?
  }

  lemma RefreshPresentsStored(w: World, a: Accounts, p: nat, answer: Answer, v: Vault)
    requires AtRest(w, a, v) && p < |w.procs| && !answer.Unreachable?
    ensures var w' := History(w, a, RefreshEvents(p, answer));
            && |w'.log| == |w.log| + 1
            && w'.log[|w.log|].token == v.secrets[RefreshSlot(a)]
            && w'.log[|w.log|].superseded == Superseded(w.provider, v.secrets[RefreshSlot(a)])
            && (Superseded(w.provider, v.secrets[RefreshSlot(a)]) && w.provider.live !! w.provider.spent ==>
                  w'.clean == w.clean)
  {
    var es := RefreshEvents(p, answer);
    var w1 := LeaseSystem.Next(w, a, es[0]);
    var w2 := LeaseSystem.Next(w1, a, es[1]);
    assert At(w2, p) == Loading;
    var w3 := LeaseSystem.Next(w2, a, es[2]);
    var w4 := LeaseSystem.Next(w3, a, es[3]);
    assert es[1..][1..] == es[2..] && es[2..][1..] == es[3..] && es[3..][1..] == [];
    assert History(w3, a, es[3..]) == w4;
    assert History(w2, a, es[2..]) == w4;
    assert History(w1, a, es[1..]) == w4;
  }

  // ------------------------------------------------------------ a lost rotation

  /** What every event that loses a rotation leaves: an idle lock over a superseded token. */
  lemma LossLeavesSpentToken(w: World, a: Accounts, e: Event, v: Vault, stale: bool, shown: bool)
    requires WorldInv(w, a, v, stale, shown) && w.clean && !LeaseSystem.Next(w, a, e).clean
    ensures var w' := LeaseSystem.Next(w, a, e);
            && AtRest(w', a, v) && Superseded(w'.provider, v.secrets[RefreshSlot(a)])
            && |w'.procs| == |w.procs| && |w.log| <= |w'.log|
  {
    assert !e.Acquire? && !e.Tick? && !e.Load? && !e.Grant? && !e.CommitAccess?;
    assert w.lock == Some(e.p);
  }

  /**
  The condition of rotation safety is needed, whichever event breaks it: a
  process that dies between exchange and store, an answer that is lost, a store
  that fails. The next undisturbed refresh presents a superseded token.
  */
  lemma LostRotationIsReplayed(
    w: World, a: Accounts, e: Event, q: nat, answer: Answer, v: Vault, stale: bool, shown: bool)
    requires WorldInv(w, a, v, stale, shown) && w.clean && !LeaseSystem.Next(w, a, e).clean
    requires q < |w.procs| && !answer.Unreachable?
    ensures var w' := History(w, a, [e] + RefreshEvents(q, answer));
            |w'.log| > |w.log| && w'.log[|w'.log| - 1].superseded
            && w'.log[|w'.log| - 1].token == v.secrets[RefreshSlot(a)]
  {
    LossLeavesSpentToken(w, a, e, v, stale, shown);
    SpentTokenIsShown(w, a, e, q, answer, v);
  }

  lemma SpentTokenIsShown(w: World, a: Accounts, e: Event, q: nat, answer: Answer, v: Vault)
    requires var w' := LeaseSystem.Next(w, a, e);
             AtRest(w', a, v) && Superseded(w'.provider, v.secrets[RefreshSlot(a)]) && q < |w'.procs|
    requires !answer.Unreachable? && |w.log| <= |LeaseSystem.Next(w, a, e).log|
    ensures var w' := History(w, a, [e] + RefreshEvents(q, answer));
            |w'.log| > |w.log| && w'.log[|w'.log| - 1].superseded
            && w'.log[|w'.log| - 1].token == v.secrets[RefreshSlot(a)]
  {
    HistorySplit(w, a, [e], RefreshEvents(q, answer));
    Single(w, a, e);
    RefreshPresentsStored(LeaseSystem.Next(w, a, e), a, q, answer, v);
  }

  // ------------------------------------------------------------ a stale save

  function Ticks(p: nat, n: nat): seq<Event> {
    seq(n, i => Tick(p, Done))
  }

  /** The world while process `p` writes, `n` operations on. */
  lemma {:induction false} TicksFollow(w: World, a: Accounts, p: nat, n: nat)
    requires p < |w.procs| && At(w, p).Writing?
    requires !Run(State(w.d, At(w, p).pc), C.Dones(n)).pc.Stopped?
    ensures var s' := Run(State(w.d, At(w, p).pc), C.Dones(n));
            History(w, a, Ticks(p, n)) == Move(w, p, Writing(s'.pc)).(d := s'.d)
    decreases n
  {
    var s := State(w.d, At(w, p).pc);
    if n == 0 {
      assert w.procs[p := w.procs[p]] == w.procs;
    } else {
      C.RunDones(s, n);
      var s1 := Step(s, Done);
      if s1.pc.Stopped? { C.RunStopped(s1, C.Dones(n - 1)); }
      assert Ticks(p, n)[1..] == Ticks(p, n - 1);
      var w1 := LeaseSystem.Next(w, a, Tick(p, Done));
      assert w1 == Move(w, p, Writing(s1.pc)).(d := s1.d);
      TicksFollow(w1, a, p, n - 1);
      assert w.procs[p := Writing(s1.pc)][p := Writing(Run(s, C.Dones(n)).pc)]
          == w.procs[p := Writing(Run(s, C.Dones(n)).pc)];
    }
  }

  function SaveStarts(p: nat, txn: nat, plan: seq<PlanOp>, body: string): seq<Event> {
    [Acquire(p, Save(txn, plan, body)), Tick(p, Done)]
  }

  lemma SaveBegins(w: World, a: Accounts, p: nat, v: Vault, txn: nat, plan: seq<PlanOp>, body: string)
    requires AtRest(w, a, v) && p < |w.procs|
    ensures var pc := C.Begin(v, txn, plan, body).pc;
            History(w, a, SaveStarts(p, txn, plan, body)) == Move(w, p, Writing(pc)).(lock := Some(p))
  {
    var es := SaveStarts(p, txn, plan, body);
    var w1 := LeaseSystem.Next(w, a, es[0]);
    var w2 := LeaseSystem.Next(w1, a, es[1]);
    assert At(w1, p) == Recovering(Save(txn, plan, body), RecRead);
    assert es[1..] == [es[1]];
    Single(w1, a, es[1]);
    var pc := C.Begin(v, txn, plan, body).pc;
    assert w.procs[p := Recovering(Save(txn, plan, body), RecRead)][p := Writing(pc)] == w.procs[p := Writing(pc)];
  }

  lemma SaveEnds(w: World, a: Accounts, p: nat, v: Vault, target: Vault, s: State)
    requires AtRest(w, a, v) && p < |w.procs| && RefreshSlot(a) in target.secrets
    requires s.pc.CommitRemove? && Inv(s, target)
    ensures var w' := LeaseSystem.Next(Move(w, p, Writing(s.pc)).(lock := Some(p), d := s.d), a, Tick(p, Done));
            && AtRest(w', a, target) && |w'.procs| == |w.procs|
            && w'.provider == w.provider && w'.log == w.log && w'.clean == w.clean
  {
  }

  /** A whole undisturbed save, as events. */
  lemma SaveTakesEffect(w: World, a: Accounts, p: nat, v: Vault, txn: nat, plan: seq<PlanOp>, body: string)
    returns (es: seq<Event>)
    requires AtRest(w, a, v) && p < |w.procs|
    requires RefreshSlot(a) in C.Target(v, plan, body).secrets
    ensures var w' := History(w, a, es);
            && AtRest(w', a, C.Target(v, plan, body)) && |w'.procs| == |w.procs|
            && w'.provider == w.provider && w'.log == w.log && w'.clean == w.clean
  {
    var b, begin := C.Begin(v, txn, plan, body), SaveStarts(p, txn, plan, body);
    SaveBegins(w, a, p, v, txn, plan, body);
    var w2 := History(w, a, begin);
    assert At(w2, p) == Writing(b.pc) && w2.d == b.d;
    var n := U.WriterGetsToRemove(v, txn, plan, body);
    var s := Run(b, C.Dones(n));
    TicksFollow(w2, a, p, n);
    var w3 := History(w2, a, Ticks(p, n));
    assert w.procs[p := Writing(b.pc)][p := Writing(s.pc)] == w.procs[p := Writing(s.pc)];
    assert w3 == Move(w, p, Writing(s.pc)).(lock := Some(p), d := s.d);
    SaveEnds(w, a, p, v, C.Target(v, plan, body), s);
    es := begin + (Ticks(p, n) + [Tick(p, Done)]);
    HistorySplit(w, a, begin, Ticks(p, n) + [Tick(p, Done)]);
    HistorySplit(w2, a, Ticks(p, n), [Tick(p, Done)]);
    Single(w3, a, Tick(p, Done));
  }

  /**
  Nothing stops a save from writing back a token it loaded before a lease rotated
  it: for every such save the next refresh presents the superseded token, and no
  rotation was lost.
  */
  lemma StaleSaveIsLeased(
    w: World, a: Accounts, p: nat, q: nat, answer: Answer, v: Vault, txn: nat, plan: seq<PlanOp>, body: string)
    returns (es: seq<Event>)
    requires AtRest(w, a, v) && p < |w.procs| && q < |w.procs| && !answer.Unreachable?
    requires w.provider.live !! w.provider.spent
    requires StaleToken(a, w.provider, C.Target(v, plan, body).secrets)
    ensures var w' := History(w, a, es);
            && w'.clean == w.clean && |w'.log| == |w.log| + 1
            && w'.log[|w.log|].superseded
            && w'.log[|w.log|].token == C.Target(v, plan, body).secrets[RefreshSlot(a)]
  {
    var save := SaveTakesEffect(w, a, p, v, txn, plan, body);
    es := save + RefreshEvents(q, answer);
    HistorySplit(w, a, save, RefreshEvents(q, answer));
    RefreshPresentsStored(History(w, a, save), a, q, answer, C.Target(v, plan, body));
  }

  /** The refresh that rotates the stored token and stores its replacement. */
  function Rotation(q: nat, access: string, issued: string): seq<Event> {
    RefreshEvents(q, Answered(access, Some(issued))) + [CommitRefresh(q, Done), CommitAccess(q, Done)]
  }

  /** The whole story: load, a lease rotates, save what was loaded, refresh. */
  lemma LoadBeforeRotationIsReplayed(
    w: World, a: Accounts, p: nat, q: nat, access: string, issued: string, answer: Answer,
    v: Vault, txn: nat, body: string)
    returns (es: seq<Event>)
    requires AtRest(w, a, v) && a.refresh != a.access && p < |w.procs| && q < |w.procs| && !answer.Unreachable?
    requires w.provider.live !! w.provider.spent && v.secrets[RefreshSlot(a)] in w.provider.live
    requires Fresh(w.provider, issued)
    ensures var w' := History(w, a, Rotation(q, access, issued) + es);
            && w'.clean == w.clean && |w'.log| > 0
            && w'.log[|w'.log| - 1].superseded && w'.log[|w'.log| - 1].token == v.secrets[RefreshSlot(a)]
  {
    var loaded := v.secrets[RefreshSlot(a)];
    var v1 := Vault(v.secrets[RefreshSlot(a) := issued][Real(a.access) := access], v.profile);
    RotationIsStored(w, a, q, access, issued, v);
    var w1 := History(w, a, Rotation(q, access, issued));
    var plan := [Put(a.refresh, loaded)];
    assert ApplyPlan(v1.secrets, plan) == ApplyPlan(ApplyOp(v1.secrets, plan[0]), []);
    es := StaleSaveIsLeased(w1, a, p, q, answer, v1, txn, plan, body);
    HistorySplit(w, a, Rotation(q, access, issued), es);
  }

  lemma RotationIsStored(w: World, a: Accounts, q: nat, access: string, issued: string, v: Vault)
    requires AtRest(w, a, v) && a.refresh != a.access && q < |w.procs|
    requires w.provider.live !! w.provider.spent && v.secrets[RefreshSlot(a)] in w.provider.live
    requires Fresh(w.provider, issued)
    ensures var w' := History(w, a, Rotation(q, access, issued));
            && AtRest(w', a, Vault(v.secrets[RefreshSlot(a) := issued][Real(a.access) := access], v.profile))
            && w'.clean == w.clean && |w'.procs| == |w.procs|
            && w'.provider.live !! w'.provider.spent
            && Superseded(w'.provider, v.secrets[RefreshSlot(a)])
  {
    var es := Rotation(q, access, issued);
    var w1 := LeaseSystem.Next(w, a, es[0]);
    var w2 := LeaseSystem.Next(w1, a, es[1]);
    var w3 := LeaseSystem.Next(w2, a, es[2]);
    var w4 := LeaseSystem.Next(w3, a, es[3]);
    assert At(w3, q) == Leased(v.secrets[RefreshSlot(a)]);
    assert At(w4, q) == Exchanged(v.secrets[RefreshSlot(a)], access, Some(issued));
    var w5 := LeaseSystem.Next(w4, a, es[4]);
    var w6 := LeaseSystem.Next(w5, a, es[5]);
    SixEvents(w, a, es);
  }

  lemma SixEvents(w: World, a: Accounts, es: seq<Event>)
    requires |es| == 6
    ensures var w1 := LeaseSystem.Next(w, a, es[0]);
            var w2 := LeaseSystem.Next(w1, a, es[1]);
            var w3 := LeaseSystem.Next(w2, a, es[2]);
            var w4 := LeaseSystem.Next(w3, a, es[3]);
            var w5 := LeaseSystem.Next(w4, a, es[4]);
            History(w, a, es) == LeaseSystem.Next(w5, a, es[5])
  {
    assert es == [es[0]] + ([es[1]] + ([es[2]] + ([es[3]] + ([es[4]] + [es[5]]))));
    HistorySplit(w, a, [es[0]], [es[1]] + ([es[2]] + ([es[3]] + ([es[4]] + [es[5]]))));
    Single(w, a, es[0]);
    var w1 := LeaseSystem.Next(w, a, es[0]);
    HistorySplit(w1, a, [es[1]], [es[2]] + ([es[3]] + ([es[4]] + [es[5]])));
    Single(w1, a, es[1]);
    var w2 := LeaseSystem.Next(w1, a, es[1]);
    HistorySplit(w2, a, [es[2]], [es[3]] + ([es[4]] + [es[5]]));
    Single(w2, a, es[2]);
    var w3 := LeaseSystem.Next(w2, a, es[2]);
    HistorySplit(w3, a, [es[3]], [es[4]] + [es[5]]);
    Single(w3, a, es[3]);
    var w4 := LeaseSystem.Next(w3, a, es[3]);
    HistorySplit(w4, a, [es[4]], [es[5]]);
    Single(w4, a, es[4]);
    Single(LeaseSystem.Next(w4, a, es[4]), a, es[5]);
  }
}
