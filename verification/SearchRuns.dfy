/** Whole runs of a concurrent search: what they deliver, that they end, and what the next search reads back. */
module SearchRuns {
  import opened Lists
  import opened StoreSearch
  import opened FanIn
  import opened IndexRoundTrip

  function Final(c: Config, steps: seq<Step>): (s: State)
    requires Legal(c, Initial(c), steps)
    ensures |s.procs| == |c.stores|
  {
    InitialInv(c);
    RunKeepsInv(c, Initial(c), steps);
    After(c, Initial(c), steps)
  }

  lemma FinalInv(c: Config, steps: seq<Step>)
    requires Legal(c, Initial(c), steps)
    ensures Inv(c, Final(c, steps))
  {
    InitialInv(c);
    RunKeepsInv(c, Initial(c), steps);
  }

  /** Every reachable state: the WaitGroup counts the unfinished stores, the channel is closed at most once and only
      when all have finished, and no send or close hits a closed channel. */
  lemma Safety(c: Config, steps: seq<Step>)
    requires Legal(c, Initial(c), steps)
    ensures var s := Final(c, steps);
            && !s.panicked
            && s.wg == |Unfinished(s.procs)|
            && s.closes <= 1
            && (s.closes == 1 ==> Unfinished(s.procs) == {} && forall step :: !Enabled(c, s, step))
  {
    hide Legal, Initial, Final;
    FinalInv(c, steps);
    var s := Final(c, steps);
    PendingCounts(s.procs);
    if s.closes == 1 {
      forall step
        ensures !Enabled(c, s, step) && Unfinished(s.procs) == {}
      {
        ClosedIsFinal(c, s, step);
      }
    }
  }

  function Unfinished(procs: seq<Proc>): set<nat> {
    set i: nat | i < |procs| && !procs[i].Finished?
  }

  lemma NoneUnfinished()
    ensures Unfinished([]) == {}
  {
  }

  lemma UnfinishedNext(procs: seq<Proc>)
    requires procs != []
    ensures var last := |procs| - 1;
            last !in Unfinished(procs[..last])
            && Unfinished(procs) == Unfinished(procs[..last]) + (if procs[last].Finished? then {} else {last})
  {
  }

  lemma {:induction false} PendingCounts(procs: seq<Proc>)
    ensures Pending(procs) == |Unfinished(procs)|
    decreases |procs|
  {
    hide Unfinished;
    NoneUnfinished();
    if procs != [] {
      var last := |procs| - 1;
      PendingCounts(procs[..last]);
      UnfinishedNext(procs);
    }
  }

  // ----- what is delivered

  function Flatten(outs: seq<seq<Discovered>>): seq<Discovered> {
    if outs == [] then [] else Flatten(outs[..|outs| - 1]) + outs[|outs| - 1]
  }

  function Outs(log: seq<Delivery>, n: nat): seq<seq<Discovered>> {
    seq(n, i requires 0 <= i < n => From(log, i))
  }

  lemma {:induction false} FlattenUpdate(outs: seq<seq<Discovered>>, i: nat, d: Discovered)
    requires i < |outs|
    ensures multiset(Flatten(outs[i := outs[i] + [d]])) == multiset(Flatten(outs)) + multiset{d}
    decreases |outs|
  {
    var last := |outs| - 1;
    var more := outs[i := outs[i] + [d]];
    if i == last {
      assert more[..last] == outs[..last];
    } else {
      assert more[..last] == outs[..last][i := outs[..last][i] + [d]];
      FlattenUpdate(outs[..last], i, d);
    }
  }

  lemma {:induction false} FlattenNothing(n: nat)
    ensures Flatten(Outs([], n)) == []
  {
    if n > 0 {
      assert Outs([], n)[..n - 1] == Outs([], n - 1);
      FlattenNothing(n - 1);
    }
  }

  lemma OutsNext(log: seq<Delivery>, d: Delivery, n: nat)
    requires d.from < n
    ensures Outs(log + [d], n) == Outs(log, n)[d.from := Outs(log, n)[d.from] + [d.what]]
  {
    hide From;
    forall i: nat | i < n
      ensures Outs(log + [d], n)[i] == Outs(log, n)[d.from := Outs(log, n)[d.from] + [d.what]][i]
    {
      FromNext(log, d, i);
    }
  }

  /** A log is shared out among its senders. */
  lemma {:induction false} Partition(log: seq<Delivery>, n: nat)
    requires Sourced(log, n)
    ensures multiset(Whats(log)) == multiset(Flatten(Outs(log, n)))
    decreases |log|
  {
    hide Flatten, From;
    if log == [] {
      FlattenNothing(n);
    } else {
      var init, d := log[..|log| - 1], log[|log| - 1];
      Partition(init, n);
      assert Whats(log) == Whats(init) + [d.what];
      var before := Outs(init, n);
      OutsNext(init, d, n);
      assert log == init + [d];
      FlattenUpdate(before, d.from, d.what);
    }
  }

  lemma {:induction false} FlattenBag(a: seq<seq<Discovered>>, b: seq<seq<Discovered>>)
    requires |a| == |b| && forall i :: 0 <= i < |a| ==> multiset(a[i]) == multiset(b[i])
    ensures multiset(Flatten(a)) == multiset(Flatten(b))
    decreases |a|
  {
    if a != [] {
      FlattenBag(a[..|a| - 1], b[..|b| - 1]);
    }
  }

  /** Once the channel is closed, each store's deliveries are, in order, what it gives alone, and together they are
      everything that was delivered. */
  lemma ClosedDelivers(c: Config, steps: seq<Step>) returns (outs: seq<seq<Discovered>>)
    requires Legal(c, Initial(c), steps) && Final(c, steps).main.Closed?
    ensures |outs| == |c.stores|
    ensures forall i: nat :: i < |outs| ==> outs[i] == From(Final(c, steps).log, i) && Alone(c, c.stores[i], outs[i])
    ensures forall i: nat :: i < |outs| ==> Written(c, c.stores[i], Final(c, steps).FileOf(i))
    ensures multiset(Whats(Final(c, steps).log)) == multiset(Flatten(outs))
  {
    hide Legal, Initial, Alone, Written, Final, PlanOf, From, Whats;
    FinalInv(c, steps);
    var s := Final(c, steps);
    outs := Outs(s.log, |c.stores|);
    Partition(s.log, |c.stores|);
    forall i: nat | i < |outs|
      ensures Alone(c, c.stores[i], From(s.log, i)) && Written(c, c.stores[i], s.FileOf(i))
    {
      ClosedIsFinal(c, s, Return);
      ProcAt(c, s, i);
    }
  }

  /** The order in which an index is read does not change how often anything is shown. */
  lemma OrderIrrelevant(index: Index, aliases: Aliases, a: seq<string>, b: seq<string>)
    requires Enumerates(index.paths, a) && Enumerates(index.paths, b)
    ensures multiset(IndexResults(index, aliases, a)) == multiset(IndexResults(index, aliases, b))
  {
    hide IndexResults, AllShown, IndexTags;
    var x, y := IndexEntries(index, a), IndexEntries(index, b);
    IndexShown(index, aliases, a);
    IndexShown(index, aliases, b);
    EntriesWithin(index, a, b);
    EntriesWithin(index, b, a);
    SameBag(x, y);
    SubBag(x, y, aliases);
    SubBag(y, x, aliases);
  }

  lemma EntriesWithin(index: Index, a: seq<string>, b: seq<string>)
    requires Enumerates(index.paths, a) && Enumerates(index.paths, b)
    ensures forall e :: e in IndexEntries(index, a) ==> e in IndexEntries(index, b)
  {
    hide IndexTags;
    var x, y := IndexEntries(index, a), IndexEntries(index, b);
    forall e | e in x
      ensures e in y
    {
      var k :| 0 <= k < |x| && x[k] == e;
      assert a[k] in b;
      var m :| 0 <= m < |b| && b[m] == a[k];
      assert y[m] == e;
    }
  }

  lemma AloneBag(c: Config, st: Store, a: seq<Discovered>, b: seq<Discovered>)
    requires Alone(c, st, a) && Alone(c, st, b)
    ensures multiset(a) == multiset(b)
  {
    hide IndexResults, AllActs, Emitted, Enumerates;
    if PlanOf(c.options, st) == ReadIndex {
      var x :| Orders(st, x) && a == Listing(c, st, x);
      var y :| Orders(st, y) && b == Listing(c, st, y);
      OrdersCover(st, x);
      OrdersCover(st, y);
      OrderIrrelevant(st.index.value, c.aliases, x, y);
    }
  }

  lemma OrdersCover(st: Store, order: seq<string>)
    requires Orders(st, order)
    ensures Covers(st, order)
  {
  }

  /** Every interleaving, and every map iteration order, delivers the same results the same number of times. */
  lemma SameDelivery(c: Config, a: seq<Step>, b: seq<Step>)
    requires Legal(c, Initial(c), a) && Legal(c, Initial(c), b)
    requires Final(c, a).main.Closed? && Final(c, b).main.Closed?
    ensures multiset(Whats(Final(c, a).log)) == multiset(Whats(Final(c, b).log))
  {
    hide Legal, Initial, Final, Alone, Flatten, From, Whats;
    var x := ClosedDelivers(c, a);
    var y := ClosedDelivers(c, b);
    forall i: nat | i < |x|
      ensures multiset(x[i]) == multiset(y[i])
    {
      AloneBag(c, c.stores[i], x[i], y[i]);
    }
    FlattenBag(x, y);
  }

  // ----- errors

  /** A search error is shown exactly when the store is not optional. */
  lemma {:induction false} ErrorShownIff(st: Store, aliases: Aliases, script: seq<SearchResult>, e: string)
    ensures StoreError(e) in Emitted(ScriptActions(st, aliases, script)) <==> !Optional(st) && Failure(e) in script
    decreases |script|
  {
    if script != [] {
      var init, last := script[..|script| - 1], script[|script| - 1];
      ErrorShownIff(st, aliases, init, e);
      assert script == init + [last];
      EmittedAppend(ScriptActions(st, aliases, init), ResultActions(st, aliases, last));
      ErrorOfResult(st, aliases, last, e);
    }
  }

  lemma ErrorOfResult(st: Store, aliases: Aliases, r: SearchResult, e: string)
    ensures StoreError(e) in Emitted(ResultActions(st, aliases, r)) <==> !Optional(st) && r == Failure(e)
  {
    hide ContextActions, Faithful;
    match r
    case Failure(error) =>
      EmitLast([], StoreError(error));
    case Found(path, tags, FetchFailed) =>
    case Found(path, tags, ParseFailed) =>
      EmitLast([], KubeconfigError(path));
    case Found(path, tags, Contexts(names)) =>
      OnlyContexts(names, path, tags, aliases);
  }

  lemma {:induction false} OnlyContexts(names: seq<string>, path: string, tags: Tags, aliases: Aliases)
    ensures forall d :: d in Emitted(ContextActions(names, path, tags, aliases)) ==> d.Context?
    decreases |names|
  {
    hide DisplayAliases;
    if names == [] {
      NoContexts(path, tags, aliases);
    } else {
      var init, last := names[..|names| - 1], names[|names| - 1];
      OnlyContexts(init, path, tags, aliases);
      NextContext([], init, last, path, tags, aliases);
      assert init + [last] == names;
    }
  }

  // ----- every run ends

  function Cost(c: Config, st: Store, p: Proc): nat {
    match p
    case Reading(order, pos) => Less(|Listing(c, st, order)|, pos) + 2
    case Searching(sent, open, pos, _, _) =>
      Less(|AllActs(c, st)|, pos) + Less(|st.script|, sent) + (if open then 1 else 0) + 4
    case Saving(_, _) => 3
    case Stamping(_) => 2
    case Leaving => 1
    case _ => 0
  }

  function Less(n: nat, m: nat): nat {
    if m <= n then n - m else 0
  }

  function Work(c: Config, procs: seq<Proc>): nat
    requires |procs| <= |c.stores|
  {
    if procs == [] then 0
    else Work(c, procs[..|procs| - 1]) + Cost(c, c.stores[|procs| - 1], procs[|procs| - 1])
  }

  /** How far the launching loop, and then the closer, has still to go. */
  function Rank(c: Config, s: State): nat {
    match s.main
    case Launching(next) => Less(|c.stores|, next) + 2
    case Waiting => 1
    case _ => 0
  }

  lemma {:induction false} WorkUpdate(c: Config, procs: seq<Proc>, i: nat, p: Proc)
    requires i < |procs| <= |c.stores|
    ensures Work(c, procs[i := p]) == Work(c, procs) - Cost(c, c.stores[i], procs[i]) + Cost(c, c.stores[i], p)
    decreases |procs|
  {
    hide Cost;
    var last := |procs| - 1;
    if i == last {
      assert procs[i := p][..last] == procs[..last];
    } else {
      assert procs[i := p][..last] == procs[..last][i := p];
      WorkUpdate(c, procs[..last], i, p);
    }
  }

  lemma {:induction false} ActsGrow(c: Config, st: Store, sent: nat)
    requires sent <= |st.script|
    ensures |Acts(c, st, sent)| <= |AllActs(c, st)|
    decreases |st.script| - sent
  {
    hide ScriptActions, ResultActions;
    if sent == |st.script| {
      assert st.script[..sent] == st.script;
    } else {
      MoreActs(c, st, sent);
      ActsGrow(c, st, sent + 1);
    }
  }

  lemma MoveCosts(c: Config, s: State, i: nat, move: Move)
    requires Inv(c, s) && Enabled(c, s, At(i, move))
    ensures Cost(c, c.stores[i], Apply(c, s, At(i, move)).procs[i]) < Cost(c, c.stores[i], s.procs[i])
    ensures Apply(c, s, At(i, move)).procs == s.procs[i := Apply(c, s, At(i, move)).procs[i]]
    ensures Apply(c, s, At(i, move)).main == s.main
  {
    hide ProcsOk, MainOk, Pending, From, Emitted, PathsOf, TagsOf, Written, Alone, PlanOf, AllActs, Acts, Listing,
      Orders;
    ProcAt(c, s, i);
    if s.procs[i].Searching? {
      ActsGrow(c, c.stores[i], s.procs[i].sent);
    }
  }

  /** Every step brings the launching loop or the closer nearer its end, or some store. */
  lemma StepDecreases(c: Config, s: State, step: Step)
    requires Inv(c, s) && Enabled(c, s, step)
    ensures |Apply(c, s, step).procs| == |s.procs|
    ensures var s' := Apply(c, s, step);
            Rank(c, s') < Rank(c, s) || (Rank(c, s') == Rank(c, s) && Work(c, s'.procs) < Work(c, s.procs))
  {
    hide ProcsOk, EnabledAt, ApplyMove, Pending, PlanOf, Cost;
    if step.At? {
      MoveCosts(c, s, step.i, step.move);
      WorkUpdate(c, s.procs, step.i, Apply(c, s, step).procs[step.i]);
    }
  }

  lemma {:induction false} AnyOrder<T>(m: map<string, T>) returns (order: seq<string>)
    ensures Enumerates(m, order)
    decreases |m|
  {
    if m == map[] {
      order := [];
    } else {
      var k :| k in m;
      assert (m - {k}).Keys == m.Keys - {k};
      var rest := AnyOrder(m - {k});
      order := rest + [k];
    }
  }

  /** Before the end some step can be taken: the search cannot deadlock while its channel is drained. */
  lemma Progress(c: Config, s: State) returns (step: Step)
    requires Inv(c, s) && (s.main.Launching? || s.main.Waiting?)
    ensures Enabled(c, s, step)
  {
    hide ProcsOk, Pending, ProcOk, Enumerates, EnabledAt;
    match s.main
    case Launching(next) =>
      if next == |c.stores| {
        return Return;
      }
      var st := c.stores[next];
      var order := [];
      if PlanOf(c.options, st) == ReadIndex {
        order := AnyOrder(st.index.value.paths);
      }
      return Launch(order);
    case Waiting =>
      if s.wg == 0 {
        return Close;
      }
      var i := PendingWitness(s.procs);
      var move := MoveOf(c, s, i);
      return At(i, move);
  }

  /** The goroutine of the store has a result to hand out. */
  predicate Holding(c: Config, s: State, i: nat)
    requires |s.procs| == |c.stores| && i < |s.procs|
  {
    var next := NextAction(c, c.stores[i], s.procs[i]);
    next.Some? && next.value.Emit?
  }

  lemma MoveOf(c: Config, s: State, i: nat) returns (move: Move)
    requires Inv(c, s) && i < |s.procs| && !s.procs[i].Unstarted? && !s.procs[i].Finished?
    requires s.main.Waiting? || !Holding(c, s, i)
    ensures Enabled(c, s, At(i, move))
  {
    hide Pending, From, Emitted, PathsOf, TagsOf, Written, Alone, PlanOf, AllActs, Acts, Listing, Orders, ScriptActions;
    ProcAt(c, s, i);
    var st, p := c.stores[i], s.procs[i];
    var next := NextAction(c, st, p);
    if next.Some? {
      return if next.value.Emit? then Deliver else Note;
    }
    match p
    case Reading(_, _) => return Drain;
    case Searching(sent, open, _, _, _) =>
      return if !open then Drain else if sent < |st.script| then Hand else EndSearch;
    case Saving(_, _) => return WriteIndex(true);
    case Stamping(_) => return WriteStamp(true);
    case Leaving => return Leave;
  }

  ghost predicate Moves(c: Config, s: State, s': State)
    requires |s.procs| == |c.stores|
  {
    exists step :: Enabled(c, s, step) && s' == Apply(c, s, step)
  }

  /** A run takes a step at every moment at which one can be taken. */
  ghost predicate Follows(c: Config, run: nat -> State, k: nat) {
    var s, s' := run(k), run(k + 1);
    && |s.procs| == |c.stores|
    && (Moves(c, s, s') || (s' == s && forall step :: !Enabled(c, s, step)))
  }

  ghost predicate IsRun(c: Config, run: nat -> State) {
    run(0) == Initial(c) && forall k: nat :: Follows(c, run, k)
  }

  lemma {:induction false} RunInv(c: Config, run: nat -> State, k: nat)
    requires IsRun(c, run)
    ensures Inv(c, run(k))
  {
    hide Inv, Enabled, Apply;
    if k == 0 {
      InitialInv(c);
    } else {
      RunInv(c, run, k - 1);
      assert Follows(c, run, k - 1);
      var s := run(k - 1);
      if Moves(c, s, run(k)) {
        var step :| Enabled(c, s, step) && run(k) == Apply(c, s, step);
        StepKeepsInv(c, s, step);
      }
    }
  }

  ghost predicate Over(s: State) {
    s.main.Closed? || s.main.Failed?
  }

  lemma {:induction false} EndsAfter(c: Config, run: nat -> State, k: nat) returns (m: nat)
    requires IsRun(c, run) && |run(k).procs| == |c.stores|
    ensures Over(run(m))
    decreases Rank(c, run(k)), Work(c, run(k).procs)
  {
    hide Enabled, Apply, ProcsOk, MainOk, Work, Rank, Pending, IsRun;
    RunInv(c, run, k);
    if Over(run(k)) {
      m := k;
    } else {
      RunInv(c, run, k + 1);
      RunStep(c, run, k);
      m := EndsAfter(c, run, k + 1);
    }
  }

  lemma RunStep(c: Config, run: nat -> State, k: nat)
    requires IsRun(c, run) && Inv(c, run(k)) && !Over(run(k)) && |run(k + 1).procs| == |c.stores|
    ensures Rank(c, run(k + 1)) < Rank(c, run(k))
         || (Rank(c, run(k + 1)) == Rank(c, run(k)) && Work(c, run(k + 1).procs) < Work(c, run(k).procs))
  {
    hide Inv, Enabled, Apply, Work, Rank;
    assert Follows(c, run, k);
    var s := run(k);
    SizeOf(c, s);
    var some := Progress(c, s);
    var step :| Enabled(c, s, step) && run(k + 1) == Apply(c, s, step);
    StepDecreases(c, s, step);
  }

  lemma SizeOf(c: Config, s: State)
    requires Inv(c, s)
    ensures |s.procs| == |c.stores|
  {
  }

  predicate Launchable(c: Config) {
    forall i :: 0 <= i < |c.stores| ==> PlanOf(c.options, c.stores[i]) != Abort
  }

  /** Every run ends: it closes the channel exactly when no store stops the launching loop. */
  lemma EveryRunEnds(c: Config, run: nat -> State) returns (m: nat)
    requires IsRun(c, run)
    ensures Over(run(m))
    ensures run(m).main.Closed? <==> Launchable(c)
    ensures run(m).main.Failed? ==>
              forall i :: 0 <= i < |c.stores| && PlanOf(c.options, c.stores[i]) == Abort ==> run(m).main.at <= i
  {
    hide IsRun, Follows, PlanOf, ProcsOk, Pending;
    RunInv(c, run, 0);
    m := EndsAfter(c, run, 0);
    RunInv(c, run, m);
    var s := run(m);
    forall i: nat | i < |s.procs| && PlanOf(c.options, c.stores[i]) == Abort
      ensures s.procs[i].Unstarted?
    {
      AbortNeverStarts(c, s, i);
    }
  }

  lemma AbortNeverStarts(c: Config, s: State, i: nat)
    requires Inv(c, s) && i < |s.procs| && PlanOf(c.options, c.stores[i]) == Abort
    ensures s.procs[i].Unstarted?
  {
    hide PlanOf, From, Written, SearchOk, ReadOk, AllActs, MainOk, Pending;
    ProcAt(c, s, i);
  }

  // ----- the next search

  /** A later search with the same aliases that reads what this one wrote shows the same contexts exactly when the
      noted entries are consistent, and as often exactly when no name was noted twice. */
  lemma NextSearchAgrees(c: Config, steps: seq<Step>, i: nat, later: Options, time: int, out: seq<Discovered>)
    requires Legal(c, Initial(c), steps) && Final(c, steps).main.Closed?
    requires i < |c.stores| && Final(c, steps).FileOf(i).Some? && Final(c, steps).files[i].Both?
    requires GateOf(later, Reindexed(c.stores[i], Final(c, steps).files[i].index, time)) == FromIndex
    requires Alone(c.(options := later), Reindexed(c.stores[i], Final(c, steps).files[i].index, time), out)
    ensures var seen := Filter(IsContext(), From(Final(c, steps).log, i));
            && (SameElements(out, seen) <==> Consistent(LiveEntries(c.stores[i], c.aliases)))
            && (multiset(out) == multiset(seen) <==> DistinctNames(LiveEntries(c.stores[i], c.aliases)))
  {
    hide Legal, Initial, Final, Flatten, From, Whats, ScriptActions, Filter, IndexResults, Enumerates, Consistent,
      DistinctNames, SameElements, LiveEntries, GateOf;
    var st, s := c.stores[i], Final(c, steps);
    var outs := ClosedDelivers(c, steps);
    assert Written(c, st, s.FileOf(i));
    var st' := Reindexed(st, s.files[i].index, time);
    assert s.files[i].index == WrittenIndex(st, c.aliases);
    assert Listed(c.(options := later), st', out);
    var order :| Orders(st', order) && out == Listing(c.(options := later), st', order);
    OrdersCover(st', order);
    SameContextsIff(st, c.aliases, order);
    SameMultisetIff(st, c.aliases, order);
  }

  /** The index of the store of the command line flag is written like any other, whenever its search found a context;
      and a later search reads it exactly when it forces the index, and does not disable it. */
  lemma FlagStoreIndexed(c: Config, steps: seq<Step>, i: nat, later: Options, index: Index, time: int)
    requires Legal(c, Initial(c), steps) && Final(c, steps).main.Closed?
    requires i < |c.stores| && c.stores[i].id == ENV_AND_FLAG && PlanOf(c.options, c.stores[i]) == Search
    ensures Final(c, steps).FileOf(i).Some? <==> LiveEntries(c.stores[i], c.aliases) != []
    ensures index.kind == c.stores[i].kind ==>
              (GateOf(later, Reindexed(c.stores[i], index, time)) == FromIndex <==> !later.noIndex && later.forceIndex)
  {
    hide Legal, Initial, Final, Flatten, From, Whats, ScriptActions, Alone;
    var outs := ClosedDelivers(c, steps);
    assert Written(c, c.stores[i], Final(c, steps).FileOf(i));
    IndexNames(AllActs(c, c.stores[i]));
    if LiveEntries(c.stores[i], c.aliases) != [] {
      assert LiveEntries(c.stores[i], c.aliases)[0] in LiveEntries(c.stores[i], c.aliases);
    }
    if index.kind == c.stores[i].kind {
      GateAfterSave(later, c.stores[i], index, time);
    }
  }
}
