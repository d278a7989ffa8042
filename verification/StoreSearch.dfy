/** What one kubeconfig store contributes to a search: live from its backing store, or from its index. */
module StoreSearch {
  import opened Lists
  import Text

  type Tags = map<string, string>

  /** Context to alias, as loaded once at the start of a search. */
  type Aliases = map<string, string>

  /** What fetching and parsing the kubeconfig of a found path gives. */
  datatype Fetched = FetchFailed | ParseFailed | Contexts(names: seq<string>)

  /** One message of a store's search. */
  datatype SearchResult = Failure(error: string) | Found(path: string, tags: Tags, fetched: Fetched)

  datatype Discovered =
    | Context(path: string, name: string, tags: Tags, alias: string)
    | StoreError(error: string)
    | KubeconfigError(path: string)

  datatype Index = Index(kind: string, paths: map<string, string>, tags: map<string, Tags>)

  datatype IndexState = IndexState(kind: string, updated: int)

  /** A store, with what it finds and the index files on disk when the search starts. */
  datatype Store = Store(
    id: string, kind: string, required: Option<bool>, verifies: bool, script: seq<SearchResult>,
    indexReadable: bool, index: Option<Index>,
    stampReadable: bool, stamp: Option<IndexState>, refreshAfter: Option<int>)

  datatype Options = Options(noIndex: bool, forceIndex: bool, refreshAfter: Option<int>, now: int)

  /** What one goroutine does for a store: hand out results, and note context mappings for the index. */
  datatype Action = Emit(result: Discovered) | Record(name: string, path: string, tags: Tags)

  const ENV_AND_FLAG := "filesystem.env-and-flag"

  // ----- specification

  predicate Optional(st: Store) {
    st.required == Some(false)
  }

  function NonEmpty(): string -> bool {
    (s: string) => s != ""
  }

  function StoreAliases(tags: Tags): seq<string> {
    if "aliases" in tags && tags["aliases"] != "" then Filter(NonEmpty(), Text.Split(tags["aliases"], ",")) else []
  }

  /** The persistent alias, or else the store's aliases, or else none. */
  function DisplayAliases(name: string, tags: Tags, aliases: Aliases): (r: seq<string>)
    ensures r != []
  {
    if name in aliases && aliases[name] != "" then [aliases[name]]
    else if StoreAliases(tags) != [] then StoreAliases(tags)
    else [""]
  }

  /** One result per display alias. */
  function Shown(name: string, path: string, tags: Tags, display: seq<string>): seq<Discovered> {
    seq(|display|, i requires 0 <= i < |display| => Context(path, name, tags, display[i]))
  }

  function Showings(name: string, path: string, tags: Tags, aliases: Aliases): seq<Discovered> {
    Shown(name, path, tags, DisplayAliases(name, tags, aliases))
  }

  function Emits(results: seq<Discovered>): seq<Action> {
    seq(|results|, i requires 0 <= i < |results| => Emit(results[i]))
  }

  function ContextActions(names: seq<string>, path: string, tags: Tags, aliases: Aliases): seq<Action> {
    if names == [] then []
    else
      ContextActions(names[..|names| - 1], path, tags, aliases)
      + Emits(Showings(names[|names| - 1], path, tags, aliases))
      + [Record(names[|names| - 1], path, tags)]
  }

  function ResultActions(st: Store, aliases: Aliases, r: SearchResult): seq<Action> {
    match r
    case Failure(error) => if Optional(st) then [] else [Emit(StoreError(error))]
    case Found(path, tags, FetchFailed) => []
    case Found(path, tags, ParseFailed) => [Emit(KubeconfigError(path))]
    case Found(path, tags, Contexts(names)) => ContextActions(names, path, tags, aliases)
  }

  /** All a live store's goroutine does, in order, for a script of results. */
  function ScriptActions(st: Store, aliases: Aliases, script: seq<SearchResult>): seq<Action> {
    if script == [] then []
    else ScriptActions(st, aliases, script[..|script| - 1]) + ResultActions(st, aliases, script[|script| - 1])
  }

  function Emitted(actions: seq<Action>): seq<Discovered> {
    if actions == [] then []
    else
      var last := actions[|actions| - 1];
      Emitted(actions[..|actions| - 1]) + (if last.Emit? then [last.result] else [])
  }

  /** The context-to-path mapping a run of actions leaves: the last path of a name wins. */
  function PathsOf(actions: seq<Action>): map<string, string> {
    if actions == [] then map[]
    else
      var rest := PathsOf(actions[..|actions| - 1]);
      var last := actions[|actions| - 1];
      if last.Record? then rest[last.name := last.path] else rest
  }

  /** Empty tags are not recorded, so they do not replace earlier ones. */
  function TagsOf(actions: seq<Action>): map<string, Tags> {
    if actions == [] then map[]
    else
      var rest := TagsOf(actions[..|actions| - 1]);
      var last := actions[|actions| - 1];
      if last.Record? && last.tags != map[] then rest[last.name := last.tags] else rest
  }

  function IndexOf(st: Store, actions: seq<Action>): Index {
    Index(st.kind, PathsOf(actions), TagsOf(actions))
  }

  function IndexTags(index: Index, name: string): Tags {
    if name in index.tags then index.tags[name] else map[]
  }

  /** What the index goroutine emits when the map iteration visits the names in this order. */
  function IndexResults(index: Index, aliases: Aliases, order: seq<string>): seq<Discovered>
    requires forall n :: n in order ==> n in index.paths
  {
    if order == [] then []
    else
      var name := order[|order| - 1];
      IndexResults(index, aliases, order[..|order| - 1])
      + Showings(name, index.paths[name], IndexTags(index, name), aliases)
  }

  /** The tag a store that knows several aliases of a path puts on its result. */
  function AliasTag(list: seq<string>): Tags {
    if |list| > 0 then map["aliases" := Text.Join(list, ",")] else map[]
  }

  /** A list of aliases survives its tag exactly when none of them is empty or holds a comma. */
  lemma AliasTagRoundTrip(list: seq<string>)
    ensures StoreAliases(AliasTag(list)) == list <==> forall a :: a in list ==> a != "" && ',' !in a
  {
    if list != [] {
      var raw := Text.Join(list, ",");
      var parts := Text.Split(raw, ",");
      Text.SplitLeavesNone(raw, ',');
      forall p
        ensures p in Filter(NonEmpty(), parts) <==> p in parts && p != ""
      {
        FilterMember(NonEmpty(), parts, p);
      }
      if forall a :: a in list ==> a != "" && ',' !in a {
        Text.SplitJoinOn(list, ',');
        FilterAll(NonEmpty(), list);
        assert list[0] in list;
        assert list[0] <= raw;
      }
    }
  }

  // ----- whether the index is read

  datatype Gate = Broken | FromIndex | Live

  predicate HasKind(st: Store) {
    st.index.Some? && st.index.value.kind == st.kind
  }

  /** A store's own setting goes before the general one. */
  function RefreshAfter(o: Options, st: Store): Option<int> {
    if st.refreshAfter.Some? then st.refreshAfter else o.refreshAfter
  }

  function ShouldBeUsed(o: Options, st: Store): Gate {
    if !st.stampReadable then Broken
    else if st.stamp == None || st.stamp.value.kind != st.kind then Live
    else if RefreshAfter(o, st) == None then Live
    else if o.now < st.stamp.value.updated + RefreshAfter(o, st).value then FromIndex
    else Live
  }

  function GateOf(o: Options, st: Store): Gate {
    if !st.indexReadable then Broken
    else if o.noIndex then Live
    else if o.forceIndex && HasKind(st) then FromIndex
    else if st.id == ENV_AND_FLAG then Live
    else if HasKind(st) then ShouldBeUsed(o, st)
    else Live
  }

  /** The store as a later search finds it once `writeIndex` has written both files. */
  function Reindexed(st: Store, index: Index, time: int): Store {
    st.(indexReadable := true, index := Some(index), stampReadable := true, stamp := Some(IndexState(st.kind, time)))
  }

  /** A freshly written index is read back exactly when it is not disabled and is either forced or still fresh. */
  lemma GateAfterSave(o: Options, st: Store, index: Index, time: int)
    requires index.kind == st.kind
    ensures GateOf(o, Reindexed(st, index, time)) == FromIndex
       <==> && !o.noIndex
            && (o.forceIndex
                || (st.id != ENV_AND_FLAG && RefreshAfter(o, st).Some? && o.now < time + RefreshAfter(o, st).value))
  {
  }

  // ----- the code

  /** Filters the split parts in place, reusing their array. */
  method StoreAliasesFromTags(tags: Tags) returns (out: seq<string>)
    ensures out == StoreAliases(tags)
  {
    var raw := if "aliases" in tags then tags["aliases"] else "";
    if raw == "" {
      return [];
    }
    var split := Text.Split(raw, ",");
    var n := |split|;
    var parts := new string[n](i requires 0 <= i < n => split[i]);
    var w := 0;
    for i := 0 to n
      invariant w <= i
      invariant parts[..w] == Filter(NonEmpty(), split[..i])
      invariant forall k :: i <= k < n ==> parts[k] == split[k]
    {
      var p := parts[i];
      assert split[..i + 1] == split[..i] + [p];
      FilterAppend(NonEmpty(), split[..i], [p]);
      if p != "" {
        parts[w] := p;
        assert parts[..w + 1] == parts[..w] + [p];
        w := w + 1;
      }
    }
    assert split[..n] == split;
    out := parts[..w];
  }

  method DisplayAliasesOf(name: string, tags: Tags, aliases: Aliases) returns (display: seq<string>)
    ensures display == DisplayAliases(name, tags, aliases)
  {
    var persistent := if name in aliases then aliases[name] else "";
    var storeAliases := StoreAliasesFromTags(tags);
    display := [""];
    if persistent != "" {
      display := [persistent];
    } else if |storeAliases| > 0 {
      display := storeAliases;
    }
  }

  lemma NoContexts(path: string, tags: Tags, aliases: Aliases)
    ensures ContextActions([], path, tags, aliases) == [] && Emitted([]) == []
  {
  }

  /** One more context name: what it emits, and what it records after whatever came before. */
  lemma NextContext(before: seq<Action>, names: seq<string>, name: string, path: string, tags: Tags, aliases: Aliases)
    ensures var done := ContextActions(names, path, tags, aliases);
            var next := ContextActions(names + [name], path, tags, aliases);
            && Emitted(next) == Emitted(done) + Showings(name, path, tags, aliases)
            && PathsOf(before + next) == PathsOf(before + done)[name := path]
            && TagsOf(before + next)
               == if tags == map[] then TagsOf(before + done) else TagsOf(before + done)[name := tags]
  {
    hide Emitted, PathsOf, TagsOf, DisplayAliases;
    var done := ContextActions(names, path, tags, aliases);
    var results := Showings(name, path, tags, aliases);
    var shown := Emits(results);
    assert (names + [name])[..|names|] == names;
    assert ContextActions(names + [name], path, tags, aliases) == done + shown + [Record(name, path, tags)];
    EmitsOnly(done, results);
    EmitsOnly(before + done, results);
    RecordLast(done + shown, name, path, tags);
    RecordLast(before + done + shown, name, path, tags);
    assert before + (done + shown + [Record(name, path, tags)]) == before + done + shown + [Record(name, path, tags)];
  }

  /** The live goroutine's loop over one fetched kubeconfig. */
  method DiscoverContexts(names: seq<string>, path: string, tags: Tags, aliases: Aliases,
                          ghost before: seq<Action>, paths: map<string, string>, tagsByName: map<string, Tags>)
    returns (out: seq<Discovered>, paths': map<string, string>, tags': map<string, Tags>)
    requires paths == PathsOf(before) && tagsByName == TagsOf(before)
    ensures var actions := ContextActions(names, path, tags, aliases);
            && out == Emitted(actions)
            && paths' == PathsOf(before + actions)
            && tags' == TagsOf(before + actions)
  {
    hide Emitted, PathsOf, TagsOf, ContextActions, DisplayAliases;
    out, paths', tags' := [], paths, tagsByName;
    NoContexts(path, tags, aliases);
    assert before + [] == before;
    for i := 0 to |names|
      invariant out == Emitted(ContextActions(names[..i], path, tags, aliases))
      invariant paths' == PathsOf(before + ContextActions(names[..i], path, tags, aliases))
      invariant tags' == TagsOf(before + ContextActions(names[..i], path, tags, aliases))
    {
      var name := names[i];
      NextContext(before, names[..i], name, path, tags, aliases);
      assert names[..i + 1] == names[..i] + [name];
      var display := DisplayAliasesOf(name, tags, aliases);
      out := out + Shown(name, path, tags, display);
      paths' := paths'[name := path];
      if |tags| > 0 {
        tags' := tags'[name := tags];
      }
    }
    assert names[..|names|] == names;
  }

  lemma NothingYet(st: Store, aliases: Aliases)
    ensures ScriptActions(st, aliases, []) == [] && Emitted([]) == []
    ensures PathsOf([]) == map[] && TagsOf([]) == map[]
  {
  }

  lemma NextResult(st: Store, aliases: Aliases, i: nat)
    requires i < |st.script|
    ensures var done := ScriptActions(st, aliases, st.script[..i]);
            var more := ResultActions(st, aliases, st.script[i]);
            && ScriptActions(st, aliases, st.script[..i + 1]) == done + more
            && Emitted(done + more) == Emitted(done) + Emitted(more)
            && Emitted(done + []) == Emitted(done) && PathsOf(done + []) == PathsOf(done)
            && TagsOf(done + []) == TagsOf(done)
  {
    hide Emitted, PathsOf, TagsOf, ResultActions;
    var done := ScriptActions(st, aliases, st.script[..i]);
    assert st.script[..i + 1][..i] == st.script[..i];
    EmittedAppend(done, ResultActions(st, aliases, st.script[i]));
    assert done + [] == done;
  }

  /** The live goroutine: every result of the store's search, then the mappings for the index. */
  method SearchStore(st: Store, aliases: Aliases)
    returns (out: seq<Discovered>, paths: map<string, string>, tags: map<string, Tags>)
    ensures var actions := ScriptActions(st, aliases, st.script);
            out == Emitted(actions) && paths == PathsOf(actions) && tags == TagsOf(actions)
  {
    hide Emitted, PathsOf, TagsOf, ScriptActions, ContextActions;
    NothingYet(st, aliases);
    out, paths, tags := [], map[], map[];
    for i := 0 to |st.script|
      invariant out == Emitted(ScriptActions(st, aliases, st.script[..i]))
      invariant paths == PathsOf(ScriptActions(st, aliases, st.script[..i]))
      invariant tags == TagsOf(ScriptActions(st, aliases, st.script[..i]))
    {
      ghost var done := ScriptActions(st, aliases, st.script[..i]);
      var r := st.script[i];
      NextResult(st, aliases, i);
      match r
      case Failure(error) =>
        if Optional(st) {
          continue;
        }
        EmitLast(done, StoreError(error));
        EmitLast([], StoreError(error));
        out := out + [StoreError(error)];
      case Found(path, _, FetchFailed) =>
        continue;
      case Found(path, _, ParseFailed) =>
        EmitLast(done, KubeconfigError(path));
        EmitLast([], KubeconfigError(path));
        out := out + [KubeconfigError(path)];
      case Found(path, t, Contexts(names)) =>
        var found;
        found, paths, tags := DiscoverContexts(names, path, t, aliases, done, paths, tags);
        out := out + found;
    }
    assert st.script[..|st.script|] == st.script;
  }

  /** The index goroutine, for one iteration order of the map. */
  method ReadIndex(index: Index, aliases: Aliases, order: seq<string>) returns (out: seq<Discovered>)
    requires Enumerates(index.paths, order)
    ensures out == IndexResults(index, aliases, order)
  {
    out := [];
    for i := 0 to |order|
      invariant forall n :: n in order[..i] ==> n in index.paths
      invariant out == IndexResults(index, aliases, order[..i])
    {
      var name := order[i];
      assert order[..i + 1][..i] == order[..i];
      assert order[i] in order;
      var tags := map[];
      if name in index.tags {
        tags := index.tags[name];
      }
      var display := DisplayAliasesOf(name, tags, aliases);
      out := out + Shown(name, index.paths[name], tags, display);
    }
    assert order[..|order|] == order;
  }

  // ----- actions

  lemma {:induction false} EmittedAppend(a: seq<Action>, b: seq<Action>)
    ensures Emitted(a + b) == Emitted(a) + Emitted(b)
    decreases |b|
  {
    if b == [] {
      assert a + b == a;
    } else {
      assert (a + b)[..|a + b| - 1] == a + b[..|b| - 1];
      EmittedAppend(a, b[..|b| - 1]);
    }
  }

  lemma EmitLast(a: seq<Action>, d: Discovered)
    ensures Emitted(a + [Emit(d)]) == Emitted(a) + [d]
    ensures PathsOf(a + [Emit(d)]) == PathsOf(a) && TagsOf(a + [Emit(d)]) == TagsOf(a)
  {
    assert (a + [Emit(d)])[..|a|] == a;
  }

  lemma RecordLast(a: seq<Action>, name: string, path: string, tags: Tags)
    ensures Emitted(a + [Record(name, path, tags)]) == Emitted(a)
    ensures PathsOf(a + [Record(name, path, tags)]) == PathsOf(a)[name := path]
    ensures TagsOf(a + [Record(name, path, tags)]) == if tags == map[] then TagsOf(a) else TagsOf(a)[name := tags]
  {
    assert (a + [Record(name, path, tags)])[..|a|] == a;
  }

  lemma {:induction false} EmitsOnly(a: seq<Action>, results: seq<Discovered>)
    ensures Emitted(a + Emits(results)) == Emitted(a) + results
    ensures PathsOf(a + Emits(results)) == PathsOf(a) && TagsOf(a + Emits(results)) == TagsOf(a)
    decreases |results|
  {
    if results == [] {
      assert a + Emits(results) == a;
    } else {
      var init, last := results[..|results| - 1], results[|results| - 1];
      assert a + Emits(results) == (a + Emits(init)) + [Emit(last)];
      EmitsOnly(a, init);
      EmitLast(a + Emits(init), last);
    }
  }
}
