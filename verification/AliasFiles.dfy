/** Many processes writing and loading the alias directory, each write through a temporary file and a rename. */
module AliasFiles {
  import opened Lists
  import opened AliasState

  datatype Writer = Writer(alias: string, context: string)

  /** The directory at first, the writers, and the names that others may remove. */
  datatype System = System(dir: Dir, writers: seq<Writer>, removable: set<string>)

  /** A change of the visible files: a rename by a writer, or a removal. */
  datatype Event = Wrote(i: nat) | Removed(name: string)

  /** Where a writer stands; `tmp` is its temporary file. */
  datatype Pc =
    | Start
    | Filling(tmp: string, written: nat)
    | Closed(tmp: string)
    | Cleaning(tmp: string, ok: bool)
    | Finished(ok: bool)

  /** A load in progress: the visible names listed, how many of them it has read, what they held, the mapping so far,
      whether it has failed, and how many events came before the listing. */
  datatype Loader = Loader(
    names: seq<string>, pos: nat, got: Dir, mapping: Mapping, failed: bool, since: nat)

  datatype State = State(
    dir: Dir, pcs: seq<Pc>, used: set<string>, events: seq<Event>, loaders: map<nat, Loader>)

  datatype Step =
    | Refuse(i: nat)
    | Create(i: nat, tmp: string)
    | Chunk(i: nat, n: nat)
    | Close(i: nat)
    | Rename(i: nat)
    | Fail(i: nat)
    | Cleanup(i: nat)
    | Remove(name: string)
    | Listing(l: nat, names: seq<string>)
    | Read(l: nat)

  function Initial(c: System): State {
    State(c.dir, seq(|c.writers|, _ => Start), c.dir.Keys, [], map[])
  }

  /** `names` are the visible files of the directory, in the order of some listing. */
  ghost predicate Shows(dir: Dir, names: seq<string>) {
    NoDup(names) && forall n :: n in names <==> n in dir && !Hidden(n)
  }

  /** An invalid name is refused, and so is any writer whose temporary file cannot be created. Temporary names are
      fresh: never in use before, by anyone. */
  ghost predicate Enabled(c: System, s: State, step: Step)
    requires |s.pcs| == |c.writers|
  {
    match step
    case Remove(name) => name in s.dir && !Hidden(name) && name in c.removable
    case Listing(_, names) => Shows(s.dir, names)
    case Read(l) => l in s.loaders && s.loaders[l].pos < |s.loaders[l].names| && !s.loaders[l].failed
    case _ => step.i < |s.pcs| && WriterEnabled(c.writers[step.i], s, step, s.pcs[step.i])
  }

  predicate WriterEnabled(w: Writer, s: State, step: Step, pc: Pc) {
    match step
    case Refuse(_) => pc.Start?
    case Create(_, tmp) => pc.Start? && ValidName(w.alias) && ".alias-tmp-" <= tmp && tmp !in s.used
    case Chunk(_, n) => pc.Filling? && pc.tmp in s.dir && pc.written < n <= |w.context|
    case Close(_) => pc.Filling? && pc.written == |w.context|
    case Rename(_) => pc.Closed? && pc.tmp in s.dir
    case Fail(_) => pc.Filling? || pc.Closed?
    case Cleanup(_) => pc.Cleaning?
    case _ => false
  }

  /** A name that has vanished since the listing ends the load with an error. */
  function ReadNext(dir: Dir, loader: Loader): Loader
    requires loader.pos < |loader.names|
  {
    var name := loader.names[loader.pos];
    if name !in dir then loader.(failed := true)
    else
      var got := loader.got[name := dir[name]];
      loader.(pos := loader.pos + 1, got := got, mapping := LoadOne(got, name, loader.mapping))
  }

  function Apply(c: System, s: State, step: Step): State
    requires |s.pcs| == |c.writers| && Enabled(c, s, step)
    ensures |Apply(c, s, step).pcs| == |c.writers|
  {
    match step
    case Refuse(i) => s.(pcs := s.pcs[i := Finished(false)])
    case Create(i, tmp) => s.(dir := s.dir[tmp := ""], pcs := s.pcs[i := Filling(tmp, 0)], used := s.used + {tmp})
    case Chunk(i, n) =>
      var tmp := s.pcs[i].tmp;
      s.(dir := s.dir[tmp := c.writers[i].context[..n]], pcs := s.pcs[i := Filling(tmp, n)])
    case Close(i) => s.(pcs := s.pcs[i := Closed(s.pcs[i].tmp)])
    case Rename(i) =>
      var tmp := s.pcs[i].tmp;
      s.(dir := (s.dir - {tmp})[c.writers[i].alias := s.dir[tmp]],
         pcs := s.pcs[i := Cleaning(tmp, true)],
         events := s.events + [Wrote(i)])
    case Fail(i) => s.(pcs := s.pcs[i := Cleaning(s.pcs[i].tmp, false)])
    case Cleanup(i) => s.(dir := s.dir - {s.pcs[i].tmp}, pcs := s.pcs[i := Finished(s.pcs[i].ok)])
    case Remove(name) => s.(dir := s.dir - {name}, events := s.events + [Removed(name)])
    case Listing(l, names) => s.(loaders := s.loaders[l := Loader(names, 0, map[], map[], false, |s.events|)])
    case Read(l) => s.(loaders := s.loaders[l := ReadNext(s.dir, s.loaders[l])])
  }

  ghost predicate Legal(c: System, s: State, steps: seq<Step>)
    requires |s.pcs| == |c.writers|
    decreases |steps|
  {
    steps != [] ==> Enabled(c, s, steps[0]) && Legal(c, Apply(c, s, steps[0]), steps[1..])
  }

  function After(c: System, s: State, steps: seq<Step>): State
    requires |s.pcs| == |c.writers| && Legal(c, s, steps)
    ensures |After(c, s, steps).pcs| == |c.writers|
    decreases |steps|
  {
    if steps == [] then s else After(c, Apply(c, s, steps[0]), steps[1..])
  }

  // ----- one change after the other

  predicate Known(c: System, events: seq<Event>) {
    forall k :: 0 <= k < |events| && events[k].Wrote? ==> events[k].i < |c.writers|
  }

  /** The directory after these changes, each done at once, in this order. */
  function Sequential(c: System, events: seq<Event>): Dir
    requires Known(c, events)
  {
    if events == [] then c.dir
    else
      var dir := Sequential(c, events[..|events| - 1]);
      match events[|events| - 1]
      case Wrote(i) => dir[c.writers[i].alias := c.writers[i].context]
      case Removed(name) => dir - {name}
  }

  /** What the last of these changes that concerns a file does to it. */
  datatype Fate = Untouched | Holds(context: string) | Gone

  function FateOf(c: System, events: seq<Event>, name: string): Fate
    requires Known(c, events)
  {
    if events == [] then Untouched
    else
      var before := FateOf(c, events[..|events| - 1], name);
      match events[|events| - 1]
      case Wrote(i) => if c.writers[i].alias == name then Holds(c.writers[i].context) else before
      case Removed(n) => if n == name then Gone else before
  }

  /** The last change of a name decides, and a name nobody changed is as it was. */
  lemma {:induction false} LastChangeWins(c: System, events: seq<Event>, name: string)
    requires Known(c, events)
    ensures var dir := Sequential(c, events);
            match FateOf(c, events, name)
            case Untouched => (name in dir <==> name in c.dir) && (name in dir ==> dir[name] == c.dir[name])
            case Holds(context) => name in dir && dir[name] == context
            case Gone => name !in dir
    decreases |events|
  {
    if events != [] {
      LastChangeWins(c, events[..|events| - 1], name);
    }
  }

  /** A file holds what one of its writers wrote, and is gone only if it was removed. */
  lemma {:induction false} FateIs(c: System, events: seq<Event>, name: string)
    requires Known(c, events)
    ensures match FateOf(c, events, name)
            case Untouched =>
              forall e :: e in events ==> if e.Wrote? then c.writers[e.i].alias != name else e.name != name
            case Holds(context) =>
              exists i: nat :: Wrote(i) in events && c.writers[i].alias == name && c.writers[i].context == context
            case Gone => Removed(name) in events
    decreases |events|
  {
    if events != [] {
      var init, last := events[..|events| - 1], events[|events| - 1];
      assert events == init + [last];
      FateIs(c, init, name);
      if FateOf(c, events, name).Holds? && FateOf(c, init, name) == FateOf(c, events, name) {
        var i: nat :| Wrote(i) in init && c.writers[i].alias == name
                      && c.writers[i].context == FateOf(c, init, name).context;
        assert Wrote(i) in events;
      }
    }
  }

  lemma FateNext(c: System, events: seq<Event>, e: Event, name: string)
    requires Known(c, events) && (e.Wrote? ==> e.i < |c.writers|)
    ensures Known(c, events + [e])
    ensures FateOf(c, events + [e], name)
         == match e
            case Wrote(i) =>
              if c.writers[i].alias == name then Holds(c.writers[i].context) else FateOf(c, events, name)
            case Removed(n) => if n == name then Gone else FateOf(c, events, name)
  {
    assert (events + [e])[..|events|] == events && (events + [e])[|events|] == e;
  }

  /** The contents a file may show: what it held at first, or a writer's complete context. */
  ghost predicate Whole(c: System, name: string, bytes: string) {
    || (name in c.dir && bytes == c.dir[name])
    || exists i :: 0 <= i < |c.writers| && c.writers[i].alias == name && c.writers[i].context == bytes
  }

  lemma {:induction false} SequentialWhole(c: System, events: seq<Event>)
    requires Known(c, events)
    ensures forall n :: n in Sequential(c, events) ==> Whole(c, n, Sequential(c, events)[n])
    decreases |events|
  {
    if events != [] {
      SequentialWhole(c, events[..|events| - 1]);
    }
  }

  // ----- the invariant

  predicate HasTemp(pc: Pc) {
    pc.Filling? || pc.Closed? || pc.Cleaning?
  }

  /** The temporary file is still in the directory. */
  predicate OwnsTemp(pc: Pc) {
    pc.Filling? || pc.Closed? || (pc.Cleaning? && !pc.ok)
  }

  predicate Renamed(pc: Pc) {
    (pc.Cleaning? || pc.Finished?) && pc.ok
  }

  /** Temporary names are hidden, new, and not shared, and only writers of valid names have one. */
  ghost predicate TempNames(c: System, s: State)
    requires |s.pcs| == |c.writers|
  {
    && c.dir.Keys <= s.used
    && (forall i :: 0 <= i < |s.pcs| && HasTemp(s.pcs[i]) ==>
          && ValidName(c.writers[i].alias) && Hidden(s.pcs[i].tmp)
          && s.pcs[i].tmp in s.used && s.pcs[i].tmp !in c.dir)
    && (forall i, j :: 0 <= i < j < |s.pcs| && HasTemp(s.pcs[i]) && HasTemp(s.pcs[j]) ==> s.pcs[i].tmp != s.pcs[j].tmp)
  }

  /** What a writer has put in its temporary file. */
  ghost predicate TempContents(c: System, s: State)
    requires |s.pcs| == |c.writers|
  {
    forall i :: 0 <= i < |s.pcs| && OwnsTemp(s.pcs[i]) ==>
      && s.pcs[i].tmp in s.dir
      && (s.pcs[i].Filling? ==>
            && s.pcs[i].written <= |c.writers[i].context|
            && s.dir[s.pcs[i].tmp] == c.writers[i].context[..s.pcs[i].written])
      && (s.pcs[i].Closed? ==> s.dir[s.pcs[i].tmp] == c.writers[i].context)
  }

  ghost predicate Owned(s: State, n: string) {
    exists i :: 0 <= i < |s.pcs| && OwnsTemp(s.pcs[i]) && s.pcs[i].tmp == n
  }

  /** Every new hidden file is some writer's temporary one, and the old ones are as they were. */
  ghost predicate HiddenFiles(c: System, s: State) {
    && (forall n :: n in s.dir && Hidden(n) && n !in c.dir ==> Owned(s, n))
    && (forall n :: n in c.dir && Hidden(n) ==> n in s.dir && s.dir[n] == c.dir[n])
  }

  ghost predicate TempsInv(c: System, s: State) {
    |s.pcs| == |c.writers| && TempNames(c, s) && TempContents(c, s) && HiddenFiles(c, s)
  }

  /** The history has each writer that has renamed exactly once, and only visible files changed. */
  ghost predicate History(c: System, s: State)
    requires |s.pcs| == |c.writers|
  {
    && Known(c, s.events)
    && (forall i: nat :: Wrote(i) in s.events <==> i < |s.pcs| && Renamed(s.pcs[i]))
    && (forall j, k :: 0 <= j < k < |s.events| && s.events[j].Wrote? ==> s.events[j] != s.events[k])
    && (forall i: nat :: Wrote(i) in s.events ==> i < |c.writers| && ValidName(c.writers[i].alias))
    && (forall n :: Removed(n) in s.events ==> !Hidden(n) && n in c.removable)
  }

  /** The visible files are those of the changes done one after the other, in the order of the history. */
  ghost predicate FilesInv(c: System, s: State)
    requires |s.pcs| == |c.writers|
  {
    && History(c, s)
    && var dir := Sequential(c, s.events);
    && (forall n :: !Hidden(n) ==> (n in s.dir <==> n in dir))
    && (forall n :: !Hidden(n) && n in dir ==> s.dir[n] == dir[n])
  }

  /** A load has read its names whole so far, its mapping is the one loaded from them, a listed name is missing exactly
      when it was removed since and not written again, and the load has failed only if the name it is at was removed. */
  ghost predicate LoaderOk(c: System, dir: Dir, events: seq<Event>, l: Loader)
    requires Known(c, events)
  {
    && l.pos <= |l.names| && NoDup(l.names) && l.since <= |events|
    && (forall n :: n in l.names ==> !Hidden(n) && (n in dir <==> !FateOf(c, events[l.since..], n).Gone?))
    && (forall n :: n in l.got <==> n in l.names[..l.pos])
    && (forall n :: n in l.got ==> Whole(c, n, l.got[n]))
    && l.mapping == Loaded(l.got, l.names[..l.pos])
    && (l.failed ==> l.pos < |l.names| && Removed(l.names[l.pos]) in events[l.since..])
  }

  ghost predicate LoadersInv(c: System, s: State)
    requires Known(c, s.events)
  {
    forall l :: l in s.loaders ==> LoaderOk(c, s.dir, s.events, s.loaders[l])
  }

  ghost predicate Inv(c: System, s: State) {
    TempsInv(c, s) && FilesInv(c, s) && LoadersInv(c, s)
  }

  lemma ValidNotHidden(name: string)
    requires ValidName(name)
    ensures !Hidden(name)
  {
  }

  lemma TempHidden(tmp: string)
    requires ".alias-tmp-" <= tmp
    ensures Hidden(tmp)
  {
    assert ".alias-tmp-"[..1] == ".";
    assert tmp[..1] == ".";
  }

  // ----- temporary files

  lemma StepKeepsNames(c: System, s: State, step: Step)
    requires TempsInv(c, s) && Enabled(c, s, step)
    ensures TempNames(c, Apply(c, s, step))
  {
    hide Hidden, ValidName, TempContents, HiddenFiles;
    if step.Create? {
      TempHidden(step.tmp);
    }
  }

  lemma StepKeepsContents(c: System, s: State, step: Step)
    requires TempsInv(c, s) && Enabled(c, s, step)
    ensures TempContents(c, Apply(c, s, step))
  {
    hide Hidden, ValidName, HiddenFiles;
    if step.Rename? {
      ValidNotHidden(c.writers[step.i].alias);
    }
  }

  lemma StepKeepsHidden(c: System, s: State, step: Step)
    requires TempsInv(c, s) && Enabled(c, s, step)
    ensures HiddenFiles(c, Apply(c, s, step))
  {
    hide Hidden, ValidName, TempContents, Owned;
    var s' := Apply(c, s, step);
    if step.Rename? {
      ValidNotHidden(c.writers[step.i].alias);
    }
    forall n | n in s'.dir && Hidden(n) && n !in c.dir
      ensures Owned(s', n)
    {
      OwnedAfter(c, s, step, n);
    }
  }

  /** A temporary file stays its writer's until it is renamed or removed. */
  lemma OwnedAfter(c: System, s: State, step: Step, n: string)
    requires |s.pcs| == |c.writers| && Enabled(c, s, step)
    requires Owned(s, n) || (step.Create? && step.tmp == n)
    requires n in Apply(c, s, step).dir
    requires step.Rename? ==> c.writers[step.i].alias != n
    ensures Owned(Apply(c, s, step), n)
  {
    hide Hidden, ValidName;
    var s' := Apply(c, s, step);
    if step.Create? && step.tmp == n {
      assert OwnsTemp(s'.pcs[step.i]) && s'.pcs[step.i].tmp == n;
    } else {
      var k :| 0 <= k < |s.pcs| && OwnsTemp(s.pcs[k]) && s.pcs[k].tmp == n;
      assert OwnsTemp(s'.pcs[k]) && s'.pcs[k].tmp == n;
    }
  }

  lemma StepKeepsTemps(c: System, s: State, step: Step)
    requires TempsInv(c, s) && Enabled(c, s, step)
    ensures TempsInv(c, Apply(c, s, step))
  {
    hide TempNames, TempContents, HiddenFiles, Enabled, Apply;
    StepKeepsNames(c, s, step);
    StepKeepsContents(c, s, step);
    StepKeepsHidden(c, s, step);
  }

  // ----- visible files

  /** Only a rename or a removal touches the visible files. */
  lemma VisibleFiles(c: System, s: State, step: Step, n: string)
    requires TempsInv(c, s) && Enabled(c, s, step) && !Hidden(n)
    ensures var s' := Apply(c, s, step);
            if step.Rename? && n == c.writers[step.i].alias then
              n in s'.dir && s'.dir[n] == c.writers[step.i].context
            else if step.Remove? && n == step.name then n !in s'.dir
            else (n in s'.dir <==> n in s.dir) && (n in s.dir ==> s'.dir[n] == s.dir[n])
  {
    hide ValidName, Hidden, HiddenFiles;
    if step.Create? {
      TempHidden(step.tmp);
    }
  }

  /** What a step adds to the history. */
  function Added(step: Step): seq<Event> {
    match step
    case Rename(i) => [Wrote(i)]
    case Remove(name) => [Removed(name)]
    case _ => []
  }

  lemma EventsNext(c: System, s: State, step: Step)
    requires |s.pcs| == |c.writers| && Enabled(c, s, step) && Known(c, s.events)
    ensures var s' := Apply(c, s, step);
            && s'.events == s.events + Added(step) && Known(c, s'.events)
            && Sequential(c, s'.events)
               == match step
                  case Rename(i) => Sequential(c, s.events)[c.writers[i].alias := c.writers[i].context]
                  case Remove(name) => Sequential(c, s.events) - {name}
                  case _ => Sequential(c, s.events)
  {
    var s' := Apply(c, s, step);
    if Added(step) != [] {
      assert s'.events[..|s.events|] == s.events;
    }
  }

  /** A writer has renamed from its rename on. */
  lemma RenamedAfter(c: System, s: State, step: Step, i: nat)
    requires |s.pcs| == |c.writers| && Enabled(c, s, step) && i < |s.pcs|
    ensures var s' := Apply(c, s, step);
            && (Renamed(s'.pcs[i]) <==> Renamed(s.pcs[i]) || step == Rename(i))
            && (step == Rename(i) ==> !Renamed(s.pcs[i]))
  {
  }

  lemma AddedOk(c: System, s: State, step: Step)
    requires TempsInv(c, s) && Enabled(c, s, step)
    ensures forall e :: e in Added(step) ==>
              if e.Wrote? then step == Rename(e.i) && e.i < |c.writers| && ValidName(c.writers[e.i].alias)
              else !Hidden(e.name) && e.name in c.removable
  {
    hide ValidName, Hidden, HiddenFiles, TempContents;
  }

  lemma StepKeepsHistory(c: System, s: State, step: Step)
    requires TempsInv(c, s) && History(c, s) && Enabled(c, s, step)
    ensures History(c, Apply(c, s, step))
  {
    hide TempNames, TempContents, HiddenFiles, ValidName, Hidden, Enabled, Apply, Sequential, Renamed;
    var s' := Apply(c, s, step);
    EventsNext(c, s, step);
    AddedOk(c, s, step);
    forall i: nat
      ensures Wrote(i) in s'.events <==> i < |s'.pcs| && Renamed(s'.pcs[i])
    {
      assert Wrote(i) in s.events <==> i < |s.pcs| && Renamed(s.pcs[i]);
      if i < |s.pcs| {
        RenamedAfter(c, s, step, i);
      }
    }
    if step.Rename? {
      RenamedAfter(c, s, step, step.i);
      assert Wrote(step.i) !in s.events;
    }
  }

  lemma StepKeepsFiles(c: System, s: State, step: Step)
    requires TempsInv(c, s) && FilesInv(c, s) && Enabled(c, s, step)
    ensures FilesInv(c, Apply(c, s, step))
  {
    hide TempNames, TempContents, HiddenFiles, Hidden, History, Enabled;
    HistoryKnown(c, s);
    var s' := Apply(c, s, step);
    StepKeepsHistory(c, s, step);
    EventsNext(c, s, step);
    forall n | !Hidden(n)
      ensures var dir := Sequential(c, s'.events);
              (n in s'.dir <==> n in dir) && (n in dir ==> s'.dir[n] == dir[n])
    {
      VisibleFiles(c, s, step, n);
    }
  }

  lemma HistoryKnown(c: System, s: State)
    requires |s.pcs| == |c.writers| && History(c, s)
    ensures Known(c, s.events)
  {
  }

  // ----- loads

  lemma {:induction false} LoadedFrame(a: Dir, b: Dir, names: seq<string>)
    requires forall n :: n in names ==> n in a && n in b && a[n] == b[n]
    ensures Loaded(a, names) == Loaded(b, names)
    decreases |names|
  {
    if names != [] {
      assert names[|names| - 1] in names;
      LoadedFrame(a, b, names[..|names| - 1]);
    }
  }

  lemma LoadedNext(dir: Dir, names: seq<string>, name: string)
    requires name in dir && forall n :: n in names ==> n in dir
    ensures Loaded(dir, names + [name]) == LoadOne(dir, name, Loaded(dir, names))
  {
    assert (names + [name])[..|names|] == names;
  }

  lemma ReadKeepsLoader(c: System, dir: Dir, events: seq<Event>, l: Loader)
    requires Known(c, events) && LoaderOk(c, dir, events, l) && l.pos < |l.names| && !l.failed
    requires forall n :: n in dir && !Hidden(n) ==> Whole(c, n, dir[n])
    ensures LoaderOk(c, dir, events, ReadNext(dir, l))
  {
    hide Whole, Hidden, LoadOne, FateOf, Loaded;
    var l' := ReadNext(dir, l);
    var name := l.names[l.pos];
    assert name in l.names;
    if name in dir {
      assert l.names[..l.pos + 1] == l.names[..l.pos] + [name];
      assert l.names[..l.pos + 1][..l.pos] == l.names[..l.pos];
      assert name !in l.names[..l.pos];
      LoadedFrame(l.got, l'.got, l.names[..l.pos]);
      LoadedNext(l'.got, l.names[..l.pos], name);
    } else {
      FateIs(c, events[l.since..], name);
    }
  }

  /** What a step does to a visible name agrees with what it adds to the history. */
  lemma ChangeAgrees(c: System, s: State, step: Step, since: nat, n: string)
    requires TempsInv(c, s) && Known(c, s.events) && Enabled(c, s, step) && !Hidden(n) && since <= |s.events|
    requires n in s.dir <==> !FateOf(c, s.events[since..], n).Gone?
    ensures var s' := Apply(c, s, step);
            && since <= |s'.events| && Known(c, s'.events)
            && (n in s'.dir <==> !FateOf(c, s'.events[since..], n).Gone?)
  {
    hide TempNames, TempContents, HiddenFiles, Hidden, FateOf;
    var s' := Apply(c, s, step);
    EventsNext(c, s, step);
    VisibleFiles(c, s, step, n);
    assert s'.events[since..] == s.events[since..] + Added(step);
    if Added(step) == [] {
      assert s'.events == s.events;
    } else {
      FateNext(c, s.events[since..], Added(step)[0], n);
    }
  }

  lemma ChangeKeepsLoader(c: System, s: State, step: Step, l: Loader)
    requires TempsInv(c, s) && Known(c, s.events) && Enabled(c, s, step) && LoaderOk(c, s.dir, s.events, l)
    ensures Known(c, Apply(c, s, step).events)
    ensures LoaderOk(c, Apply(c, s, step).dir, Apply(c, s, step).events, l)
  {
    hide TempNames, TempContents, HiddenFiles, Hidden, Whole, Loaded, FateOf, Enabled, Apply, Added;
    var s' := Apply(c, s, step);
    EventsNext(c, s, step);
    assert s'.events[l.since..] == s.events[l.since..] + Added(step);
    forall n | n in l.names
      ensures n in s'.dir <==> !FateOf(c, s'.events[l.since..], n).Gone?
    {
      ChangeAgrees(c, s, step, l.since, n);
    }
  }

  lemma StepKeepsLoaders(c: System, s: State, step: Step)
    requires Inv(c, s) && Enabled(c, s, step)
    ensures Known(c, Apply(c, s, step).events) && LoadersInv(c, Apply(c, s, step))
  {
    hide TempNames, TempContents, HiddenFiles, Hidden, Whole, Loaded, WriterEnabled, LoaderOk;
    var s' := Apply(c, s, step);
    EventsNext(c, s, step);
    VisibleWhole(c, s);
    forall l | l in s'.loaders
      ensures LoaderOk(c, s'.dir, s'.events, s'.loaders[l])
    {
      if step.Read? && step.l == l {
        ReadKeepsLoader(c, s.dir, s.events, s.loaders[l]);
      } else if step.Listing? && step.l == l {
        NothingRead(c, s.dir, s.events, step.names);
      } else {
        ChangeKeepsLoader(c, s, step, s.loaders[l]);
      }
    }
  }

  lemma NothingRead(c: System, dir: Dir, events: seq<Event>, names: seq<string>)
    requires Known(c, events) && Shows(dir, names)
    ensures LoaderOk(c, dir, events, Loader(names, 0, map[], map[], false, |events|))
  {
    assert events[|events|..] == [];
  }

  lemma VisibleWhole(c: System, s: State)
    requires |s.pcs| == |c.writers| && FilesInv(c, s)
    ensures forall n :: n in s.dir && !Hidden(n) ==> Whole(c, n, s.dir[n])
  {
    hide Whole, Hidden, Sequential;
    SequentialWhole(c, s.events);
  }

  // ----- runs

  lemma StepKeepsInv(c: System, s: State, step: Step)
    requires Inv(c, s) && Enabled(c, s, step)
    ensures Inv(c, Apply(c, s, step))
  {
    hide FilesInv, LoadersInv, TempNames, TempContents, HiddenFiles, Enabled, Apply;
    StepKeepsTemps(c, s, step);
    StepKeepsFiles(c, s, step);
    StepKeepsLoaders(c, s, step);
  }

  lemma {:induction false} RunKeepsInv(c: System, s: State, steps: seq<Step>)
    requires Inv(c, s) && Legal(c, s, steps)
    ensures Inv(c, After(c, s, steps))
    decreases |steps|
  {
    hide FilesInv, LoadersInv, TempNames, TempContents, HiddenFiles, Enabled, Apply;
    if steps != [] {
      StepKeepsInv(c, s, steps[0]);
      RunKeepsInv(c, Apply(c, s, steps[0]), steps[1..]);
    }
  }

  lemma InitialInv(c: System)
    ensures Inv(c, Initial(c))
  {
  }

  function Final(c: System, steps: seq<Step>): (s: State)
    requires Legal(c, Initial(c), steps)
    ensures |s.pcs| == |c.writers|
  {
    After(c, Initial(c), steps)
  }

  lemma FinalInv(c: System, steps: seq<Step>)
    requires Legal(c, Initial(c), steps)
    ensures Inv(c, Final(c, steps))
  {
    InitialInv(c);
    RunKeepsInv(c, Initial(c), steps);
  }

  lemma LoaderAt(c: System, s: State, l: nat)
    requires Inv(c, s) && l in s.loaders
    ensures |s.pcs| == |c.writers| && Known(c, s.events) && LoaderOk(c, s.dir, s.events, s.loaders[l])
  {
    hide TempNames, TempContents, HiddenFiles, LoaderOk, Sequential;
  }

  // ----- what every interleaving guarantees

  /** No load ever reads a temporary file or sees a half-written one, whoever writes or removes what meanwhile. It fails
      only at a name that was removed after it was listed. */
  lemma LoadsSeeWholeFiles(c: System, steps: seq<Step>, l: nat)
    requires Legal(c, Initial(c), steps) && l in Final(c, steps).loaders
    ensures var s := Final(c, steps);
            var loader := s.loaders[l];
            && (forall n :: n in loader.got ==> !Hidden(n) && Whole(c, n, loader.got[n]))
            && loader.since <= |s.events|
            && (loader.failed ==> loader.pos < |loader.names|
                                  && Removed(loader.names[loader.pos]) in s.events[loader.since..])
  {
    hide Legal, Final, Inv, Hidden, Whole, Loaded, FateOf;
    FinalInv(c, steps);
    LoaderAt(c, Final(c, steps), l);
  }

  /** And the next read fails exactly when the name it comes to has been removed since the listing and not written
      again. */
  lemma ReadFailsIff(c: System, steps: seq<Step>, l: nat)
    requires Legal(c, Initial(c), steps) && Enabled(c, Final(c, steps), Read(l))
    ensures var s := Final(c, steps);
            var loader := s.loaders[l];
            && loader.since <= |s.events| && Known(c, s.events[loader.since..])
            && (Apply(c, s, Read(l)).loaders[l].failed
                <==> FateOf(c, s.events[loader.since..], loader.names[loader.pos]).Gone?)
  {
    hide Legal, Final, Inv, Hidden, Whole, Loaded, FateOf;
    var s := Final(c, steps);
    FinalInv(c, steps);
    LoaderAt(c, s, l);
    assert s.loaders[l].names[s.loaders[l].pos] in s.loaders[l].names;
  }

  /** Loader `l` is not started again. */
  predicate Undisturbed(steps: seq<Step>, l: nat) {
    forall k :: 0 <= k < |steps| ==> !(steps[k].Listing? && steps[k].l == l)
  }

  lemma {:induction false} NamesStay(c: System, s: State, steps: seq<Step>, l: nat)
    requires |s.pcs| == |c.writers| && Legal(c, s, steps) && l in s.loaders && Undisturbed(steps, l)
    ensures l in After(c, s, steps).loaders
    ensures After(c, s, steps).loaders[l].names == s.loaders[l].names
    ensures After(c, s, steps).loaders[l].since == s.loaders[l].since
    decreases |steps|
  {
    hide LoadOne, ValidName;
    if steps != [] {
      NamesStay(c, Apply(c, s, steps[0]), steps[1..], l);
    }
  }

  /** A finished load has read every file that was visible when it listed the directory, each of them whole, and its
      mapping is the one that loading exactly these contents gives. */
  lemma FinishedLoad(c: System, before: seq<Step>, l: nat, names: seq<string>, after: seq<Step>)
    requires Legal(c, Initial(c), before) && Enabled(c, Final(c, before), Listing(l, names))
    requires Legal(c, Apply(c, Final(c, before), Listing(l, names)), after) && Undisturbed(after, l)
    ensures var s := Final(c, before);
            var end := After(c, Apply(c, s, Listing(l, names)), after);
            && l in end.loaders
            && (end.loaders[l].pos == |end.loaders[l].names| ==>
                  var got := end.loaders[l].got;
                  && !end.loaders[l].failed
                  && got.Keys == (set n | n in s.dir && !Hidden(n))
                  && (forall n :: n in got ==> Whole(c, n, got[n]))
                  && Enumerates(got, names) && end.loaders[l].mapping == Loaded(got, names))
  {
    hide Legal, After, Final, Hidden, Whole, FilesInv, LoadersInv, TempNames, TempContents, HiddenFiles, Loaded, FateOf;
    FinalInv(c, before);
    var s := Final(c, before);
    var started := Apply(c, s, Listing(l, names));
    StepKeepsInv(c, s, Listing(l, names));
    RunKeepsInv(c, started, after);
    NamesStay(c, started, after, l);
    var end := After(c, started, after);
    LoaderAt(c, end, l);
    assert names[..|names|] == names;
  }

  ghost predicate Complete(c: System, steps: seq<Step>)
    requires Legal(c, Initial(c), steps)
  {
    forall i :: 0 <= i < |c.writers| ==> Final(c, steps).pcs[i].Finished?
  }

  /** When all writers are through, the directory is the one that the successful writes and the removals, done one after
      the other in the order of the history, would have left; no temporary file remains. */
  lemma NoLostUpdates(c: System, steps: seq<Step>)
    requires Legal(c, Initial(c), steps) && Complete(c, steps)
    ensures var s := Final(c, steps);
            && (forall i: nat :: Wrote(i) in s.events <==> i < |c.writers| && s.pcs[i].ok)
            && (forall j, k :: 0 <= j < k < |s.events| && s.events[j].Wrote? ==> s.events[j] != s.events[k])
            && Known(c, s.events) && s.dir == Sequential(c, s.events)
  {
    hide Legal, Final, LoadersInv, TempNames, TempContents, Sequential;
    FinalInv(c, steps);
    var s := Final(c, steps);
    forall n | Hidden(n)
      ensures var dir := Sequential(c, s.events);
              (n in s.dir <==> n in dir) && (n in dir ==> s.dir[n] == dir[n])
    {
      SequentialHidden(c, s.events, n);
    }
  }

  lemma {:induction false} SequentialHidden(c: System, events: seq<Event>, n: string)
    requires Known(c, events) && Hidden(n)
    requires forall e :: e in events ==> if e.Wrote? then ValidName(c.writers[e.i].alias) else !Hidden(e.name)
    ensures var dir := Sequential(c, events);
            (n in dir <==> n in c.dir) && (n in dir ==> dir[n] == c.dir[n])
    decreases |events|
  {
    if events != [] {
      assert events[|events| - 1] in events;
      SequentialHidden(c, events[..|events| - 1], n);
    }
  }
}
