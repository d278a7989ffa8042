/** What a search that fails to launch leaves behind. */
module FailedSearch {
  import opened Lists
  import opened StoreSearch
  import opened FanIn
  import opened IndexRoundTrip
  import opened SearchRuns

  // ----- stores that give nothing

  /** A result that makes a store's goroutine hand out nothing. */
  predicate Quietly(st: Store, r: SearchResult) {
    match r
    case Failure(_) => Optional(st)
    case Found(_, _, FetchFailed) => true
    case Found(_, _, ParseFailed) => false
    case Found(_, _, Contexts(names)) => names == []
  }

  /** The store is skipped, reads an empty index, or finds nothing to show and no error to report. */
  predicate Silent(c: Config, st: Store) {
    match PlanOf(c.options, st)
    case Skip => true
    case Abort => false
    case ReadIndex => st.index.Some? && st.index.value.paths == map[]
    case Search => forall r :: r in st.script ==> Quietly(st, r)
  }

  lemma QuietResult(st: Store, aliases: Aliases, r: SearchResult)
    ensures Emitted(ResultActions(st, aliases, r)) == [] <==> Quietly(st, r)
  {
    hide ContextActions, Showings;
    match r
    case Failure(error) => EmitLast([], StoreError(error));
    case Found(path, tags, FetchFailed) =>
    case Found(path, tags, ParseFailed) => EmitLast([], KubeconfigError(path));
    case Found(path, tags, Contexts(names)) =>
      NoContexts(path, tags, aliases);
      if names != [] {
        var init, last := names[..|names| - 1], names[|names| - 1];
        NextContext([], init, last, path, tags, aliases);
        assert init + [last] == names;
        assert Show(Entry(last, path, tags), aliases) == Showings(last, path, tags, aliases);
      }
  }

  lemma {:induction false} QuietScript(st: Store, aliases: Aliases, script: seq<SearchResult>)
    ensures Emitted(ScriptActions(st, aliases, script)) == [] <==> forall r :: r in script ==> Quietly(st, r)
    decreases |script|
  {
    hide ResultActions, Quietly, Emitted;
    if script == [] {
      NothingYet(st, aliases);
    } else {
      var init, last := script[..|script| - 1], script[|script| - 1];
      assert script == init + [last];
      QuietScript(st, aliases, init);
      QuietResult(st, aliases, last);
      EmittedAppend(ScriptActions(st, aliases, init), ResultActions(st, aliases, last));
    }
  }

  lemma EmptyListing(c: Config, st: Store, order: seq<string>)
    requires Orders(st, order)
    ensures Listing(c, st, order) == [] <==> st.index.value.paths == map[]
  {
    hide Showings;
    OrdersCover(st, order);
    if order != [] {
      var name := order[|order| - 1];
      assert name in order;
      var e := Entry(name, st.index.value.paths[name], IndexTags(st.index.value, name));
      assert Show(e, c.aliases) == Showings(e.name, e.path, e.tags, c.aliases);
    }
  }

  /** A store is silent exactly when it gives nothing on its own. */
  lemma SilentIff(c: Config, st: Store)
    ensures Silent(c, st) <==> Alone(c, st, [])
  {
    hide Quietly, Listing, ScriptActions, GateOf;
    match PlanOf(c.options, st)
    case Search => QuietScript(st, c.aliases, st.script);
    case ReadIndex =>
      ReadsAnIndex(c, st);
      var order := AnyOrder(st.index.value.paths);
      EmptyListing(c, st, order);
      if Listed(c, st, []) {
        var some :| Orders(st, some) && [] == Listing(c, st, some);
        EmptyListing(c, st, some);
      }
    case _ =>
  }

  lemma ReadsAnIndex(c: Config, st: Store)
    requires PlanOf(c.options, st) == ReadIndex
    ensures st.index.Some?
  {
  }

  // ----- before the channel is returned nothing is received

  predicate Unheard(s: State) {
    s.main.Launching? || s.main.Failed? ==> s.log == []
  }

  lemma StepKeepsUnheard(c: Config, s: State, step: Step)
    requires Inv(c, s) && Unheard(s) && Enabled(c, s, step)
    ensures Unheard(Apply(c, s, step))
  {
    hide ProcsOk, Pending, NextAction, PlanOf;
  }

  lemma {:induction false} RunKeepsUnheard(c: Config, s: State, steps: seq<Step>)
    requires Inv(c, s) && Unheard(s) && Legal(c, s, steps)
    ensures Unheard(After(c, s, steps))
    decreases |steps|
  {
    hide ProcsOk, MainOk, Pending, Enabled, Apply, Unheard;
    if steps != [] {
      StepKeepsInv(c, s, steps[0]);
      StepKeepsUnheard(c, s, steps[0]);
      RunKeepsUnheard(c, Apply(c, s, steps[0]), steps[1..]);
    }
  }

  // ----- who is left behind

  /** Nothing can move any more. */
  ghost predicate Settled(c: Config, s: State)
    requires |s.procs| == |c.stores|
  {
    forall step :: !Enabled(c, s, step)
  }

  /** After a failed launch the channel is never closed, and a goroutine with a result to hand out never finishes. */
  lemma {:induction false} FailureStrands(c: Config, s: State, steps: seq<Step>, i: nat)
    requires Inv(c, s) && s.main.Failed? && Legal(c, s, steps)
    requires i < |s.procs| && Holding(c, s, i)
    ensures var s' := After(c, s, steps);
            && Inv(c, s') && s'.main == s.main && s'.closes == 0
            && s'.log == s.log && Holding(c, s', i) && s'.wg > 0
    decreases |steps|
  {
    hide ProcsOk, Pending, Enabled, Apply, Holding;
    if steps == [] {
      HoldingPends(c, s, i);
    } else {
      StepKeepsInv(c, s, steps[0]);
      FailureStays(c, s, steps[0], i);
      FailureStrands(c, Apply(c, s, steps[0]), steps[1..], i);
    }
  }

  lemma HoldingPends(c: Config, s: State, i: nat)
    requires Inv(c, s) && i < |s.procs| && Holding(c, s, i)
    ensures s.wg > 0
  {
    hide ProcsOk, MainOk, Pending;
    PendingAt(s.procs, i);
  }

  lemma FailureStays(c: Config, s: State, step: Step, i: nat)
    requires Inv(c, s) && s.main.Failed? && Enabled(c, s, step)
    requires i < |s.procs| && Holding(c, s, i)
    ensures var s' := Apply(c, s, step);
            s'.main == s.main && s'.log == s.log && |s'.procs| == |s.procs| && Holding(c, s', i)
  {
    hide ProcsOk, Pending, Acts, Listing;
  }

  /** A started store that cannot move has finished or holds a result nobody takes. */
  lemma FinishedOrHolding(c: Config, s: State, i: nat)
    requires Inv(c, s) && Settled(c, s) && i < |s.procs| && !s.procs[i].Unstarted?
    ensures s.procs[i].Finished? || Holding(c, s, i)
  {
    hide Inv, Enabled, Holding;
    SizeOf(c, s);
    if !s.procs[i].Finished? && !Holding(c, s, i) {
      var move := MoveOf(c, s, i);
    }
  }

  lemma {:induction false} ActsPrefix(c: Config, st: Store, sent: nat)
    requires sent <= |st.script|
    ensures Acts(c, st, sent) <= AllActs(c, st)
    decreases |st.script| - sent
  {
    hide ScriptActions, ResultActions;
    if sent == |st.script| {
      assert st.script[..sent] == st.script;
    } else {
      MoreActs(c, st, sent);
      ActsPrefix(c, st, sent + 1);
    }
  }

  lemma {:induction false} EmitShows(acts: seq<Action>, k: nat)
    requires k < |acts| && acts[k].Emit?
    ensures Emitted(acts) != []
    decreases |acts|
  {
    if k < |acts| - 1 {
      EmitShows(acts[..|acts| - 1], k);
    }
  }

  lemma HoldingIsNotSilent(c: Config, s: State, i: nat)
    requires Inv(c, s) && i < |s.procs| && Holding(c, s, i)
    ensures !Silent(c, c.stores[i])
  {
    hide Pending, MainOk, ProcsOk, From, Emitted, PathsOf, TagsOf, Written, PlanOf, ScriptActions, Listing, Quietly;
    var st, p := c.stores[i], s.procs[i];
    assert ProcOk(c, st, p, From(s.log, i), s.FileOf(i)) by { ProcAt(c, s, i); }
    if p.Searching? {
      ActsPrefix(c, st, p.sent);
      EmitShows(AllActs(c, st), p.pos);
      QuietScript(st, c.aliases, st.script);
    } else {
      EmptyListing(c, st, p.order);
    }
  }

  /** Once everything has come to rest after a failed launch, a launched store's goroutine has finished exactly when
      the store gives nothing; otherwise it is left behind. */
  lemma LeftBehindIff(c: Config, s: State, i: nat)
    requires Inv(c, s) && Unheard(s) && s.main.Failed? && Settled(c, s) && i < s.main.at
    ensures s.procs[i].Finished? <==> Silent(c, c.stores[i])
    ensures s.procs[i].Finished? <==> !Holding(c, s, i)
  {
    hide ProcsOk, Pending, PlanOf, Enabled, Holding, Silent;
    FinishedOrHolding(c, s, i);
    if Holding(c, s, i) {
      HoldingIsNotSilent(c, s, i);
      HoldingMoves(c, s, i);
    } else {
      FinishedGaveAll(c, s, i);
      SilentIff(c, c.stores[i]);
    }
  }

  lemma HoldingMoves(c: Config, s: State, i: nat)
    requires |s.procs| == |c.stores| && i < |s.procs| && Holding(c, s, i)
    ensures !s.procs[i].Finished?
  {
  }

  lemma FinishedGaveAll(c: Config, s: State, i: nat)
    requires Inv(c, s) && s.log == [] && i < |s.procs| && s.procs[i].Finished?
    ensures Alone(c, c.stores[i], [])
  {
    hide Alone, Written, Pending;
    ProcAt(c, s, i);
  }

  /** The same for every sequence of steps that comes to rest: all launched goroutines finish exactly when every store
      before the one that failed the launch is silent. */
  lemma AllFinishIff(c: Config, steps: seq<Step>)
    requires Legal(c, Initial(c), steps)
    requires Final(c, steps).main.Failed? && Settled(c, Final(c, steps))
    ensures var s := Final(c, steps);
            && s.main.at < |s.procs|
            && (forall i: nat :: i < s.main.at ==> (s.procs[i].Finished? <==> Silent(c, c.stores[i])))
            && ((forall i: nat :: i < s.main.at ==> s.procs[i].Finished?)
                <==> forall i: nat :: i < s.main.at ==> Silent(c, c.stores[i]))
            && (s.wg == |c.stores| - s.main.at <==> forall i: nat :: i < s.main.at ==> Silent(c, c.stores[i]))
  {
    hide ProcsOk, Pending, PlanOf, Enabled, Silent, Settled, Legal;
    var s := Final(c, steps);
    InitialInv(c);
    FinalInv(c, steps);
    RunKeepsUnheard(c, Initial(c), steps);
    forall i: nat | i < s.main.at
      ensures s.procs[i].Finished? <==> Silent(c, c.stores[i])
    {
      LeftBehindIff(c, s, i);
    }
    PendingFrom(s.procs, s.main.at);
  }

  /** The WaitGroup is back at the number of stores never launched exactly when all launched ones have finished. */
  lemma {:induction false} PendingFrom(procs: seq<Proc>, at: nat)
    requires at <= |procs| && forall j :: at <= j < |procs| ==> procs[j].Unstarted?
    ensures Pending(procs) == |procs| - at <==> forall i :: 0 <= i < at ==> procs[i].Finished?
    ensures Pending(procs) >= |procs| - at
    decreases |procs|
  {
    if procs != [] {
      if at == |procs| {
        PendingFrom(procs[..|procs| - 1], at - 1);
      } else {
        PendingFrom(procs[..|procs| - 1], at);
      }
    }
  }

  /** Every run of a search that some store fails comes to rest, failed at the first such store, with exactly the
      launched stores that are not silent left behind. */
  lemma FailedRunSettles(c: Config, run: nat -> State) returns (m: nat)
    requires IsRun(c, run) && !Launchable(c)
    ensures Inv(c, run(m)) && Settled(c, run(m)) && run(m).main.Failed?
    ensures var at := run(m).main.at;
            && PlanOf(c.options, c.stores[at]) == Abort
            && (forall i: nat :: i < at ==> PlanOf(c.options, c.stores[i]) != Abort)
            && forall i: nat :: i < at ==> (run(m).procs[i].Finished? <==> Silent(c, c.stores[i]))
  {
    hide IsRun, ProcsOk, Pending, PlanOf, Settled, Silent, Unheard;
    RunHears(c, run, 0);
    m := SettlesAfter(c, run, 0);
    RunHears(c, run, m);
    var s := run(m);
    NotStuckEarly(c, s);
    if s.main.Closed? {
      forall i: nat | i < |c.stores|
        ensures PlanOf(c.options, c.stores[i]) != Abort
      {
        NeverAborted(c, s, i);
      }
    } else {
      forall i: nat | i < s.main.at
        ensures PlanOf(c.options, c.stores[i]) != Abort
        ensures s.procs[i].Finished? <==> Silent(c, c.stores[i])
      {
        NeverAborted(c, s, i);
        LeftBehindIff(c, s, i);
      }
    }
  }

  lemma NeverAborted(c: Config, s: State, i: nat)
    requires Inv(c, s) && i < |s.procs| && !s.procs[i].Unstarted?
    ensures PlanOf(c.options, c.stores[i]) != Abort
  {
    if PlanOf(c.options, c.stores[i]) == Abort {
      AbortNeverStarts(c, s, i);
    }
  }

  lemma NotStuckEarly(c: Config, s: State)
    requires Inv(c, s) && Settled(c, s)
    ensures Over(s)
  {
    hide Inv, Enabled;
    SizeOf(c, s);
    if !Over(s) {
      var step := Progress(c, s);
    }
  }

  lemma {:induction false} RunHears(c: Config, run: nat -> State, k: nat)
    requires IsRun(c, run)
    ensures Inv(c, run(k)) && Unheard(run(k))
  {
    hide Inv, Enabled, Apply;
    RunInv(c, run, k);
    if k > 0 {
      RunHears(c, run, k - 1);
      assert Follows(c, run, k - 1);
      var s := run(k - 1);
      if Moves(c, s, run(k)) {
        var step :| Enabled(c, s, step) && run(k) == Apply(c, s, step);
        StepKeepsUnheard(c, s, step);
      }
    }
  }

  lemma {:induction false} SettlesAfter(c: Config, run: nat -> State, k: nat) returns (m: nat)
    requires IsRun(c, run) && |run(k).procs| == |c.stores|
    ensures Inv(c, run(m)) && Settled(c, run(m))
    decreases Rank(c, run(k)), Work(c, run(k).procs)
  {
    hide Inv, Enabled, Apply, Work, Rank;
    RunInv(c, run, k);
    RunInv(c, run, k + 1);
    assert Follows(c, run, k);
    var s := run(k);
    if step :| Enabled(c, s, step) {
      SizeOf(c, run(k + 1));
      var taken :| Enabled(c, s, taken) && run(k + 1) == Apply(c, s, taken);
      StepDecreases(c, s, taken);
      m := SettlesAfter(c, run, k + 1);
    } else {
      m := k;
    }
  }

  // ----- it happens

  const BROKEN := Store("a", "vault", None, true, [Failure("e")], true, None, true, None, None)
  const UNREACHABLE := Store("b", "vault", None, false, [], true, None, true, None, None)
  const TWO_STORES := Config([BROKEN, UNREACHABLE], map[], Options(false, false, None, 0))

  /** The first store's search reports an error, the second store cannot be reached, and both are required: after two
      launches, one hand-over and the end of the store's search, the goroutine can only wait for a receiver. */
  lemma OneIsLeftBehind()
    ensures var steps := [Launch([]), Launch([]), At(0, Hand), At(0, EndSearch)];
            && Legal(TWO_STORES, Initial(TWO_STORES), steps)
            && var s := Final(TWO_STORES, steps);
            s.main == Failed(1) && Settled(TWO_STORES, s) && Holding(TWO_STORES, s, 0) && s.wg == 2
  {
    hide Acts, Settled, ScriptActions;
    var c := TWO_STORES;
    var s0 := Initial(c);
    var s1 := Apply(c, s0, Launch([]));
    var s2 := Apply(c, s1, Launch([]));
    assert s1.procs[0] == Searching(0, true, 0, map[], map[]);
    NoActs(c);
    var s3 := Apply(c, s2, At(0, Hand));
    var steps := [Launch([]), Launch([]), At(0, Hand), At(0, EndSearch)];
    var s4 := Apply(c, s3, At(0, EndSearch));
    assert steps[1..] == [Launch([]), At(0, Hand), At(0, EndSearch)];
    assert steps[1..][1..] == [At(0, Hand), At(0, EndSearch)];
    assert steps[1..][1..][1..] == [At(0, EndSearch)];
    assert steps[1..][1..][1..][1..] == [];
    assert After(c, s0, steps) == s4;
    assert s4.procs == [Searching(1, false, 0, map[], map[]), Unstarted];
    AtRest(s4);
  }

  lemma AtRest(s: State)
    requires s.main == Failed(1) && s.closes == 0 && s.procs == [Searching(1, false, 0, map[], map[]), Unstarted]
    ensures Settled(TWO_STORES, s) && Holding(TWO_STORES, s, 0)
  {
    hide Acts;
    NoActs(TWO_STORES);
  }

  lemma NoActs(c: Config)
    ensures Acts(c, BROKEN, 0) == []
    ensures Acts(c, BROKEN, 1) == [Emit(StoreError("e"))]
  {
    var script := BROKEN.script;
    assert script[..0] == [] && script[..1] == script;
    assert ScriptActions(BROKEN, c.aliases, script) == ResultActions(BROKEN, c.aliases, Failure("e"));
  }
}
