/** A concurrent search: a goroutine or two per store feed one unbuffered channel, and a closer waits for all. */
module FanIn {
  import opened Lists
  import opened StoreSearch
  import IndexRoundTrip

  datatype Config = Config(stores: seq<Store>, aliases: Aliases, options: Options)

  /** What the launching loop decides about a store. */
  datatype Plan = Skip | Abort | ReadIndex | Search

  /** What a search left of a store's two index files. */
  datatype Files = NotWritten | IndexOnly(index: Index) | Both(index: Index)

  /** Where a store is: `sent` results handed over by its search, `pos` actions done by its consumer. */
  datatype Proc =
    | Unstarted
    | Reading(order: seq<string>, pos: nat)
    | Searching(sent: nat, open: bool, pos: nat, paths: map<string, string>, tags: map<string, Tags>)
    | Saving(paths: map<string, string>, tags: map<string, Tags>)
    | Stamping(index: Index)
    | Leaving
    | Finished

  /** The caller's goroutine, then the closer it leaves behind. */
  datatype Main = Launching(next: nat) | Waiting | Closed | Failed(at: nat)

  datatype Delivery = Delivery(from: nat, what: Discovered)

  /** `log` is what the receiver has got; `panicked` is set by a send on, or a close of, a closed channel, and by a
      negative WaitGroup. */
  datatype State = State(
    main: Main, procs: seq<Proc>, wg: int, closes: nat, panicked: bool,
    log: seq<Delivery>, files: map<nat, Files>)
  {
    function Go(i: nat, p: Proc): State
      requires i < |procs|
    {
      this.(procs := procs[i := p])
    }

    function Done(): State {
      this.(wg := wg - 1, panicked := panicked || wg <= 0)
    }

    function FileOf(i: nat): Option<Files> {
      if i in files then Some(files[i]) else None
    }
  }

  /** One step of one store's goroutine, or of the pair that searches it. */
  datatype Move =
    | Hand
    | EndSearch
    | Deliver
    | Note
    | Drain
    | WriteIndex(ok: bool)
    | WriteStamp(ok: bool)
    | Leave

  datatype Step = Launch(order: seq<string>) | Return | Close | At(i: nat, move: Move)

  // ----- the steps

  function PlanOf(o: Options, st: Store): Plan {
    if !st.verifies then (if Optional(st) then Skip else Abort)
    else match GateOf(o, st)
      case Broken => Abort
      case FromIndex => ReadIndex
      case Live => Search
  }

  /** What the live goroutine does once `sent` results have been handed to it. */
  function Acts(c: Config, st: Store, sent: nat): seq<Action> {
    if sent <= |st.script| then ScriptActions(st, c.aliases, st.script[..sent]) else []
  }

  function AllActs(c: Config, st: Store): seq<Action> {
    ScriptActions(st, c.aliases, st.script)
  }

  predicate Covers(st: Store, order: seq<string>) {
    st.index.Some? && forall n :: n in order ==> n in st.index.value.paths
  }

  ghost predicate Orders(st: Store, order: seq<string>) {
    st.index.Some? && Enumerates(st.index.value.paths, order)
  }

  function Listing(c: Config, st: Store, order: seq<string>): seq<Discovered> {
    if Covers(st, order) then IndexResults(st.index.value, c.aliases, order) else []
  }

  function NextAction(c: Config, st: Store, p: Proc): Option<Action> {
    match p
    case Reading(order, pos) =>
      var all := Listing(c, st, order);
      if pos < |all| then Some(Emit(all[pos])) else None
    case Searching(sent, _, pos, _, _) =>
      var acts := Acts(c, st, sent);
      if pos < |acts| then Some(acts[pos]) else None
    case _ => None
  }

  function Initial(c: Config): State {
    State(Launching(0), seq(|c.stores|, _ => Unstarted), |c.stores|, 0, false, [], map[])
  }

  ghost predicate Enabled(c: Config, s: State, step: Step)
    requires |s.procs| == |c.stores|
  {
    match step
    case Launch(order) =>
      && s.main.Launching? && s.main.next < |c.stores|
      && (PlanOf(c.options, c.stores[s.main.next]) == ReadIndex ==> Orders(c.stores[s.main.next], order))
    case Return => s.main == Launching(|c.stores|)
    case Close => s.main.Waiting? && s.wg == 0
    case At(i, move) => i < |s.procs| && EnabledAt(c, c.stores[i], s, move, s.procs[i])
  }

  predicate EnabledAt(c: Config, st: Store, s: State, move: Move, p: Proc) {
    var next := NextAction(c, st, p);
    match move
    case Hand => p.Searching? && p.open && p.sent < |st.script| && next == None
    case EndSearch => p.Searching? && p.open && p.sent == |st.script|
    case Deliver => next.Some? && next.value.Emit? && (s.main.Waiting? || s.closes > 0)
    case Note => next.Some? && next.value.Record? && p.Searching?
    case Drain => next == None && (p.Reading? || (p.Searching? && !p.open))
    case WriteIndex(_) => p.Saving?
    case WriteStamp(_) => p.Stamping?
    case Leave => p.Leaving?
  }

  function ApplyLaunch(c: Config, s: State, order: seq<string>): State
    requires |s.procs| == |c.stores| && s.main.Launching? && s.main.next < |c.stores|
  {
    var k := s.main.next;
    var s' := s.(main := Launching(k + 1));
    match PlanOf(c.options, c.stores[k])
    case Skip => s'.Done().Go(k, Finished)
    case Abort => s.(main := Failed(k))
    case ReadIndex => s'.Go(k, Reading(order, 0))
    case Search => s'.Go(k, Searching(0, true, 0, map[], map[]))
  }

  function Advance(p: Proc): Proc
    requires p.Reading? || p.Searching?
  {
    match p
    case Reading(order, pos) => Reading(order, pos + 1)
    case Searching(sent, open, pos, paths, tags) => Searching(sent, open, pos + 1, paths, tags)
  }

  /** Noting a context changes the goroutine's own maps. */
  function Remember(p: Proc, a: Action): Proc
    requires p.Searching? && a.Record?
  {
    p.(pos := p.pos + 1,
       paths := p.paths[a.name := a.path],
       tags := if |a.tags| > 0 then p.tags[a.name := a.tags] else p.tags)
  }

  function ApplyMove(c: Config, s: State, i: nat, move: Move): State
    requires |s.procs| == |c.stores| && i < |s.procs| && EnabledAt(c, c.stores[i], s, move, s.procs[i])
  {
    var p := s.procs[i];
    var next := NextAction(c, c.stores[i], p);
    match move
    case Hand => s.Go(i, p.(sent := p.sent + 1))
    case EndSearch => s.Go(i, p.(open := false))
    case Deliver =>
      s.Go(i, Advance(p)).(log := s.log + [Delivery(i, next.value.result)], panicked := s.panicked || s.closes > 0)
    case Note => s.Go(i, Remember(p, next.value))
    case Drain => s.Go(i, if p.Searching? && |p.paths| > 0 then Saving(p.paths, p.tags) else Leaving)
    case WriteIndex(ok) =>
      var index := Index(c.stores[i].kind, p.paths, p.tags);
      if ok then s.Go(i, Stamping(index)).(files := s.files[i := IndexOnly(index)])
      else s.Go(i, Leaving).(files := s.files[i := NotWritten])
    case WriteStamp(ok) =>
      s.Go(i, Leaving).(files := s.files[i := if ok then Both(p.index) else IndexOnly(p.index)])
    case Leave => s.Done().Go(i, Finished)
  }

  function Apply(c: Config, s: State, step: Step): State
    requires |s.procs| == |c.stores| && Enabled(c, s, step)
  {
    match step
    case Launch(order) => ApplyLaunch(c, s, order)
    case Return => s.(main := Waiting)
    case Close => s.(main := Closed, closes := s.closes + 1, panicked := s.panicked || s.closes > 0)
    case At(i, move) => ApplyMove(c, s, i, move)
  }

  ghost predicate Legal(c: Config, s: State, steps: seq<Step>)
    requires |s.procs| == |c.stores|
    decreases |steps|
  {
    steps != [] ==> Enabled(c, s, steps[0]) && Legal(c, Apply(c, s, steps[0]), steps[1..])
  }

  function After(c: Config, s: State, steps: seq<Step>): State
    requires |s.procs| == |c.stores| && Legal(c, s, steps)
    decreases |steps|
  {
    if steps == [] then s else After(c, Apply(c, s, steps[0]), steps[1..])
  }

  // ----- what each store does on its own

  /** The deliveries of one store, in the order they arrived. */
  function From(log: seq<Delivery>, i: nat): seq<Discovered> {
    if log == [] then []
    else
      var last := log[|log| - 1];
      From(log[..|log| - 1], i) + (if last.from == i then [last.what] else [])
  }

  function Whats(log: seq<Delivery>): seq<Discovered> {
    seq(|log|, k requires 0 <= k < |log| => log[k].what)
  }

  ghost predicate Listed(c: Config, st: Store, out: seq<Discovered>) {
    exists order :: Orders(st, order) && out == Listing(c, st, order)
  }

  /** What a store gives when its goroutine runs alone from beginning to end. */
  ghost predicate Alone(c: Config, st: Store, out: seq<Discovered>) {
    match PlanOf(c.options, st)
    case Skip => out == []
    case Abort => false
    case ReadIndex => Listed(c, st, out)
    case Search => out == Emitted(AllActs(c, st))
  }

  /** The index files a store leaves: none, unless it searched and found a context. */
  predicate Written(c: Config, st: Store, files: Option<Files>) {
    if PlanOf(c.options, st) == Search && PathsOf(AllActs(c, st)) != map[]
    then files.Some? && (files.value.NotWritten? || files.value.index == IndexOf(st, AllActs(c, st)))
    else files == None
  }

  // ----- the invariant

  predicate SearchOk(c: Config, st: Store, p: Proc, out: seq<Discovered>)
    requires p.Searching?
  {
    && p.sent <= |st.script| && (!p.open ==> p.sent == |st.script|)
    && p.pos <= |Acts(c, st, p.sent)|
    && var done := Acts(c, st, p.sent)[..p.pos];
    && out == Emitted(done) && p.paths == PathsOf(done) && p.tags == TagsOf(done)
  }

  ghost predicate ReadOk(c: Config, st: Store, p: Proc, out: seq<Discovered>)
    requires p.Reading?
  {
    Orders(st, p.order) && p.pos <= |Listing(c, st, p.order)| && out == Listing(c, st, p.order)[..p.pos]
  }

  ghost predicate ProcOk(c: Config, st: Store, p: Proc, out: seq<Discovered>, files: Option<Files>) {
    var plan := PlanOf(c.options, st);
    match p
    case Unstarted => out == [] && files == None
    case Reading(_, _) => plan == ReadIndex && ReadOk(c, st, p, out) && files == None
    case Searching(_, _, _, _, _) => plan == Search && SearchOk(c, st, p, out) && files == None
    case Saving(paths, tags) =>
      && plan == Search && out == Emitted(AllActs(c, st)) && files == None
      && paths == PathsOf(AllActs(c, st)) && paths != map[] && tags == TagsOf(AllActs(c, st))
    case Stamping(index) =>
      && plan == Search && out == Emitted(AllActs(c, st)) && files == Some(IndexOnly(index))
      && PathsOf(AllActs(c, st)) != map[] && index == IndexOf(st, AllActs(c, st))
    case _ => Alone(c, st, out) && Written(c, st, files)
  }

  function Pending(procs: seq<Proc>): nat {
    if procs == [] then 0
    else Pending(procs[..|procs| - 1]) + (if procs[|procs| - 1].Finished? then 0 else 1)
  }

  predicate Started(s: State, from: nat) {
    forall j :: 0 <= j < |s.procs| ==> (s.procs[j].Unstarted? <==> j >= from)
  }

  predicate MainOk(c: Config, s: State)
    requires |s.procs| == |c.stores|
  {
    && s.closes == (if s.main.Closed? then 1 else 0)
    && match s.main
       case Launching(next) => next <= |s.procs| && Started(s, next)
       case Waiting => Started(s, |s.procs|)
       case Closed => Started(s, |s.procs|) && s.wg == 0
       case Failed(at) => at < |s.procs| && Started(s, at) && PlanOf(c.options, c.stores[at]) == Abort
  }

  ghost predicate ProcsOk(c: Config, s: State)
    requires |s.procs| == |c.stores|
  {
    forall i: nat :: i < |s.procs| ==> ProcOk(c, c.stores[i], s.procs[i], From(s.log, i), s.FileOf(i))
  }

  predicate Sourced(log: seq<Delivery>, n: nat) {
    forall k :: 0 <= k < |log| ==> log[k].from < n
  }

  ghost predicate Inv(c: Config, s: State) {
    && |s.procs| == |c.stores|
    && !s.panicked
    && s.wg == Pending(s.procs)
    && MainOk(c, s)
    && ProcsOk(c, s)
    && Sourced(s.log, |s.procs|)
  }

  lemma {:induction false} PendingUpdate(procs: seq<Proc>, i: nat, p: Proc)
    requires i < |procs|
    ensures Pending(procs[i := p])
         == Pending(procs) - (if procs[i].Finished? then 0 else 1) + (if p.Finished? then 0 else 1)
    decreases |procs|
  {
    var last := |procs| - 1;
    if i == last {
      assert procs[i := p][..last] == procs[..last];
    } else {
      assert procs[i := p][..last] == procs[..last][i := p];
      PendingUpdate(procs[..last], i, p);
    }
  }

  lemma {:induction false} PendingAt(procs: seq<Proc>, i: nat)
    requires i < |procs| && !procs[i].Finished?
    ensures Pending(procs) > 0
    decreases |procs|
  {
    if i < |procs| - 1 {
      PendingAt(procs[..|procs| - 1], i);
    }
  }

  lemma {:induction false} PendingWitness(procs: seq<Proc>) returns (i: nat)
    requires Pending(procs) > 0
    ensures i < |procs| && !procs[i].Finished?
    decreases |procs|
  {
    if procs[|procs| - 1].Finished? {
      i := PendingWitness(procs[..|procs| - 1]);
    } else {
      i := |procs| - 1;
    }
  }

  lemma {:induction false} PendingFresh(procs: seq<Proc>)
    requires forall j :: 0 <= j < |procs| ==> procs[j].Unstarted?
    ensures Pending(procs) == |procs|
    decreases |procs|
  {
    if procs != [] {
      PendingFresh(procs[..|procs| - 1]);
    }
  }

  lemma FromNext(log: seq<Delivery>, d: Delivery, j: nat)
    ensures From(log + [d], j) == From(log, j) + (if d.from == j then [d.what] else [])
  {
    assert (log + [d])[..|log|] == log;
  }

  lemma InitialInv(c: Config)
    ensures Inv(c, Initial(c))
  {
    PendingFresh(Initial(c).procs);
  }

  /** One started store moves and the others stand still. */
  lemma Frame(c: Config, s: State, s': State, i: nat)
    requires Inv(c, s) && i < |s.procs| && |s'.procs| == |s.procs|
    requires s'.procs == s.procs[i := s'.procs[i]]
    requires !s.procs[i].Unstarted? && !s'.procs[i].Unstarted?
    requires s'.main == s.main && s'.closes == s.closes && !s'.panicked
    requires !s.procs[i].Finished?
    requires s'.wg == s.wg - (if s'.procs[i].Finished? then 1 else 0)
    requires forall j: nat :: j < |s.procs| && j != i ==>
               From(s'.log, j) == From(s.log, j) && s'.FileOf(j) == s.FileOf(j)
    requires ProcOk(c, c.stores[i], s'.procs[i], From(s'.log, i), s'.FileOf(i))
    requires Sourced(s'.log, |s.procs|)
    ensures Inv(c, s')
  {
    hide ProcOk, From, Pending, PlanOf, Sourced;
    PendingUpdate(s.procs, i, s'.procs[i]);
    PendingAt(s.procs, i);
  }

  /** Nothing moves once the channel is closed. */
  lemma ClosedIsFinal(c: Config, s: State, step: Step)
    requires Inv(c, s) && s.main.Closed?
    ensures !Enabled(c, s, step)
    ensures forall i :: 0 <= i < |s.procs| ==> s.procs[i].Finished?
  {
    hide ProcOk, From, Pending, PlanOf, Sourced, ProcsOk;
    forall i | 0 <= i < |s.procs|
      ensures s.procs[i].Finished?
    {
      if !s.procs[i].Finished? {
        PendingAt(s.procs, i);
      }
    }
  }

  lemma LaunchKeepsInv(c: Config, s: State, order: seq<string>)
    requires Inv(c, s) && Enabled(c, s, Launch(order))
    ensures Inv(c, Apply(c, s, Launch(order)))
  {
    hide From, Pending, Sourced, AllActs, IndexOf, GateOf, Orders, Listing;
    var s' := Apply(c, s, Launch(order));
    var k := s.main.next;
    assert ProcOk(c, c.stores[k], s.procs[k], From(s.log, k), s.FileOf(k));
    PendingAt(s.procs, k);
    PendingUpdate(s.procs, k, s'.procs[k]);
    FreshSearch(c, c.stores[k]);
    forall i: nat | i < |s.procs|
      ensures ProcOk(c, c.stores[i], s'.procs[i], From(s'.log, i), s'.FileOf(i))
    {
      assert ProcOk(c, c.stores[i], s.procs[i], From(s.log, i), s.FileOf(i));
    }
  }

  lemma FreshSearch(c: Config, st: Store)
    ensures SearchOk(c, st, Searching(0, true, 0, map[], map[]), [])
  {
  }

  lemma AdvanceOk(c: Config, st: Store, p: Proc, out: seq<Discovered>, d: Discovered)
    requires p.Searching? || p.Reading?
    requires if p.Searching? then SearchOk(c, st, p, out) else ReadOk(c, st, p, out)
    requires NextAction(c, st, p) == Some(Emit(d))
    ensures if p.Searching? then SearchOk(c, st, Advance(p), out + [d]) else ReadOk(c, st, Advance(p), out + [d])
  {
    hide Emitted, PathsOf, TagsOf, Orders, ScriptActions;
    if p.Searching? {
      var acts := Acts(c, st, p.sent);
      assert acts[..p.pos + 1] == acts[..p.pos] + [Emit(d)];
      EmitLast(acts[..p.pos], d);
    } else {
      var all := Listing(c, st, p.order);
      assert all[..p.pos + 1] == all[..p.pos] + [d];
    }
  }

  lemma ProcAt(c: Config, s: State, i: nat)
    requires Inv(c, s) && i < |s.procs|
    ensures ProcOk(c, c.stores[i], s.procs[i], From(s.log, i), s.FileOf(i))
    ensures s.main.Closed? || s.closes == 0
  {
  }

  lemma NotClosed(c: Config, s: State, i: nat)
    requires Inv(c, s) && i < |s.procs| && !s.procs[i].Finished?
    ensures !s.main.Closed? && s.closes == 0 && s.wg > 0
  {
    hide ProcOk, From, Pending, PlanOf, Sourced, ProcsOk;
    PendingAt(s.procs, i);
  }

  lemma NoteOk(c: Config, st: Store, p: Proc, out: seq<Discovered>, a: Action)
    requires p.Searching? && SearchOk(c, st, p, out) && a.Record? && NextAction(c, st, p) == Some(a)
    ensures SearchOk(c, st, Remember(p, a), out)
  {
    hide Emitted, PathsOf, TagsOf, ScriptActions;
    var acts := Acts(c, st, p.sent);
    assert acts[..p.pos + 1] == acts[..p.pos] + [a];
    RecordLast(acts[..p.pos], a.name, a.path, a.tags);
    assert |a.tags| > 0 <==> a.tags != map[];
  }

  lemma HandOk(c: Config, st: Store, p: Proc, out: seq<Discovered>)
    requires p.Searching? && SearchOk(c, st, p, out) && p.open && p.sent < |st.script|
    ensures SearchOk(c, st, p.(sent := p.sent + 1), out)
  {
    hide Emitted, PathsOf, TagsOf, ScriptActions, ResultActions;
    MoreActs(c, st, p.sent);
    assert Acts(c, st, p.sent + 1)[..p.pos] == Acts(c, st, p.sent)[..p.pos];
  }

  lemma MoreActs(c: Config, st: Store, sent: nat)
    requires sent < |st.script|
    ensures Acts(c, st, sent + 1) == Acts(c, st, sent) + ResultActions(st, c.aliases, st.script[sent])
  {
    assert st.script[..sent + 1][..sent] == st.script[..sent];
  }

  lemma SearchDone(c: Config, st: Store, p: Proc, out: seq<Discovered>)
    requires p.Searching? && SearchOk(c, st, p, out) && !p.open && NextAction(c, st, p) == None
    ensures out == Emitted(AllActs(c, st)) && p.paths == PathsOf(AllActs(c, st)) && p.tags == TagsOf(AllActs(c, st))
    ensures |p.paths| > 0 <==> p.paths != map[]
  {
    hide Emitted, PathsOf, TagsOf, ScriptActions;
    assert st.script[..|st.script|] == st.script;
    assert AllActs(c, st)[..p.pos] == AllActs(c, st);
  }

  lemma ReadDone(c: Config, st: Store, p: Proc, out: seq<Discovered>)
    requires p.Reading? && ReadOk(c, st, p, out) && NextAction(c, st, p) == None
    ensures Listed(c, st, out)
  {
    assert out == Listing(c, st, p.order);
  }

  /** A delivery is the sender's only. */
  lemma Delivered(c: Config, s: State, i: nat, j: nat)
    requires |s.procs| == |c.stores| && Enabled(c, s, At(i, Deliver))
    ensures var d := NextAction(c, c.stores[i], s.procs[i]).value.result;
            From(Apply(c, s, At(i, Deliver)).log, j) == From(s.log, j) + (if i == j then [d] else [])
  {
    FromNext(s.log, Delivery(i, NextAction(c, c.stores[i], s.procs[i]).value.result), j);
  }

  lemma ActorIs(c: Config, st: Store, p: Proc)
    ensures NextAction(c, st, p).Some? ==> p.Searching? || p.Reading?
  {
  }

  lemma DeliverKeepsInv(c: Config, s: State, i: nat)
    requires Inv(c, s) && Enabled(c, s, At(i, Deliver))
    ensures Inv(c, Apply(c, s, At(i, Deliver)))
  {
    hide Pending, GateOf, PlanOf, MainOk, ProcsOk, From, SearchOk, ReadOk, NextAction;
    var st, p := c.stores[i], s.procs[i];
    ActorIs(c, st, p);
    ProcAt(c, s, i);
    NotClosed(c, s, i);
    AdvanceOk(c, st, p, From(s.log, i), NextAction(c, st, p).value.result);
    forall j: nat
      ensures From(Apply(c, s, At(i, Deliver)).log, j)
           == From(s.log, j) + (if i == j then [NextAction(c, st, p).value.result] else [])
    {
      Delivered(c, s, i, j);
    }
    Frame(c, s, Apply(c, s, At(i, Deliver)), i);
  }

  lemma MoveKeepsInv(c: Config, s: State, i: nat, move: Move)
    requires Inv(c, s) && Enabled(c, s, At(i, move))
    ensures Inv(c, Apply(c, s, At(i, move)))
  {
    hide Pending, GateOf, PlanOf, MainOk, ProcsOk, From, SearchOk, ReadOk, NextAction, AllActs, Listed, Sourced;
    if move.Deliver? {
      DeliverKeepsInv(c, s, i);
      return;
    }
    var st, p, out := c.stores[i], s.procs[i], From(s.log, i);
    ActorIs(c, st, p);
    ProcAt(c, s, i);
    NotClosed(c, s, i);
    if move.Hand? {
      HandOk(c, st, p, out);
    } else if move.EndSearch? {
      EndOk(c, st, p, out);
    } else if move.Note? {
      NoteOk(c, st, p, out, NextAction(c, st, p).value);
    } else if move.Drain? {
      if p.Searching? {
        SearchDone(c, st, p, out);
      } else {
        ReadDone(c, st, p, out);
      }
    }
    Frame(c, s, Apply(c, s, At(i, move)), i);
  }

  lemma EndOk(c: Config, st: Store, p: Proc, out: seq<Discovered>)
    requires p.Searching? && SearchOk(c, st, p, out) && p.sent == |st.script|
    ensures SearchOk(c, st, p.(open := false), out)
  {
  }

  lemma StepKeepsInv(c: Config, s: State, step: Step)
    requires Inv(c, s) && Enabled(c, s, step)
    ensures Inv(c, Apply(c, s, step))
  {
    hide ProcsOk, Pending, EnabledAt, ApplyMove;
    match step
    case Launch(order) => LaunchKeepsInv(c, s, order);
    case Return => ReturnKeepsInv(c, s);
    case Close => CloseKeepsInv(c, s);
    case At(i, move) => MoveKeepsInv(c, s, i, move);
  }

  lemma ReturnKeepsInv(c: Config, s: State)
    requires Inv(c, s) && Enabled(c, s, Return)
    ensures Inv(c, Apply(c, s, Return))
  {
    hide ProcOk, From, Pending, Sourced;
  }

  lemma CloseKeepsInv(c: Config, s: State)
    requires Inv(c, s) && Enabled(c, s, Close)
    ensures Inv(c, Apply(c, s, Close))
  {
    hide ProcOk, From, Pending, Sourced;
  }

  lemma {:induction false} RunKeepsInv(c: Config, s: State, steps: seq<Step>)
    requires Inv(c, s) && Legal(c, s, steps)
    ensures Inv(c, After(c, s, steps))
    decreases |steps|
  {
    hide ProcsOk, Pending, Enabled, Apply, MainOk;
    if steps != [] {
      StepKeepsInv(c, s, steps[0]);
      RunKeepsInv(c, Apply(c, s, steps[0]), steps[1..]);
    }
  }
}
