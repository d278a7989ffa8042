/** A store's index, written by a live search and read back by a later one. */
module IndexRoundTrip {
  import opened Lists
  import opened StoreSearch

  /** One context noted for the index. */
  datatype Entry = Entry(name: string, path: string, tags: Tags)

  function Noted(actions: seq<Action>): seq<Entry> {
    if actions == [] then []
    else
      var last := actions[|actions| - 1];
      Noted(actions[..|actions| - 1]) + (if last.Record? then [Entry(last.name, last.path, last.tags)] else [])
  }

  function IndexEntries(index: Index, order: seq<string>): seq<Entry>
    requires forall n :: n in order ==> n in index.paths
  {
    seq(|order|, i requires 0 <= i < |order| =>
      assert order[i] in order; Entry(order[i], index.paths[order[i]], IndexTags(index, order[i])))
  }

  function Show(e: Entry, aliases: Aliases): (r: seq<Discovered>)
    ensures r != []
    ensures forall d :: d in r ==> d.Context? && Entry(d.name, d.path, d.tags) == e
  {
    Showings(e.name, e.path, e.tags, aliases)
  }

  function AllShown(entries: seq<Entry>, aliases: Aliases): seq<Discovered> {
    if entries == [] then []
    else AllShown(entries[..|entries| - 1], aliases) + Show(entries[|entries| - 1], aliases)
  }

  function IsContext(): Discovered -> bool {
    (d: Discovered) => d.Context?
  }

  /** The contexts a live search of the store hands out. */
  function LiveContexts(st: Store, aliases: Aliases): seq<Discovered> {
    Filter(IsContext(), Emitted(ScriptActions(st, aliases, st.script)))
  }

  /** The contexts it notes for the index. */
  function LiveEntries(st: Store, aliases: Aliases): seq<Entry> {
    Noted(ScriptActions(st, aliases, st.script))
  }

  function WrittenIndex(st: Store, aliases: Aliases): Index {
    IndexOf(st, ScriptActions(st, aliases, st.script))
  }

  ghost predicate SameElements<T(!new)>(s: seq<T>, t: seq<T>) {
    forall x :: x in s <==> x in t
  }

  /** A name noted more than once was noted with the same path and tags each time. */
  ghost predicate Consistent(entries: seq<Entry>) {
    forall e, f :: e in entries && f in entries && e.name == f.name ==> e == f
  }

  ghost predicate DistinctNames(entries: seq<Entry>) {
    forall i, j :: 0 <= i < j < |entries| ==> entries[i].name != entries[j].name
  }

  // ----- the round trip

  /** Reading the written index back shows the same contexts exactly when the noted entries are consistent. */
  lemma SameContextsIff(st: Store, aliases: Aliases, order: seq<string>)
    requires Enumerates(WrittenIndex(st, aliases).paths, order)
    ensures SameElements(IndexResults(WrittenIndex(st, aliases), aliases, order), LiveContexts(st, aliases))
       <==> Consistent(LiveEntries(st, aliases))
  {
    hide ScriptActions, AllShown, Noted, PathsOf, TagsOf, IndexResults, Filter, Emitted, Show;
    var live := LiveEntries(st, aliases);
    var index := WrittenIndex(st, aliases);
    var read := IndexEntries(index, order);
    LiveShown(st, aliases, st.script);
    IndexShown(index, aliases, order);
    SameShown(read, live, aliases);
    SameEntriesIff(st, ScriptActions(st, aliases, st.script), order);
  }

  /** It shows each of them the same number of times exactly when no name was noted twice. */
  lemma SameMultisetIff(st: Store, aliases: Aliases, order: seq<string>)
    requires Enumerates(WrittenIndex(st, aliases).paths, order)
    ensures multiset(IndexResults(WrittenIndex(st, aliases), aliases, order)) == multiset(LiveContexts(st, aliases))
       <==> DistinctNames(LiveEntries(st, aliases))
  {
    hide ScriptActions, AllShown, Noted, PathsOf, TagsOf, IndexResults, Filter, Emitted, Show, Consistent, SameElements;
    var live := LiveEntries(st, aliases);
    var index := WrittenIndex(st, aliases);
    var read := IndexEntries(index, order);
    var shown, results := LiveContexts(st, aliases), IndexResults(index, aliases, order);
    LiveShown(st, aliases, st.script);
    IndexShown(index, aliases, order);
    if DistinctNames(live) {
      DistinctIsConsistent(live);
      SameEntriesIff(st, ScriptActions(st, aliases, st.script), order);
      SameBag(read, live);
      SubBag(read, live, aliases);
      SubBag(live, read, aliases);
    }
    if multiset(results) == multiset(shown) {
      SameMembers(results, shown);
      SameContextsIff(st, aliases, order);
      SameEntriesIff(st, ScriptActions(st, aliases, st.script), order);
      SubsetBag(read, live);
      SubBag(read, live, aliases);
      assert |results| == |multiset(results)| == |multiset(shown)| == |shown|;
      NoRepeats(live, read);
    }
  }

  /** One context name in two files of a store: the live search shows both, the index only the second. */
  lemma SameNameTwice(st: Store, aliases: Aliases, name: string, p: string, q: string, order: seq<string>)
    requires p != q
    requires st.script == [Found(p, map[], Contexts([name])), Found(q, map[], Contexts([name]))]
    requires Enumerates(WrittenIndex(st, aliases).paths, order)
    ensures !SameElements(IndexResults(WrittenIndex(st, aliases), aliases, order), LiveContexts(st, aliases))
    ensures WrittenIndex(st, aliases).paths == map[name := q]
  {
    hide ScriptActions, ResultActions, Noted, PathsOf, TagsOf, Enumerates, SameElements, Emitted, IndexResults, Filter;
    var first, second := Entry(name, p, map[]), Entry(name, q, map[]);
    var a, b := ResultActions(st, aliases, st.script[0]), ResultActions(st, aliases, st.script[1]);
    TwoResults(st, aliases, st.script);
    OneContext(st, aliases, name, p);
    OneContext(st, aliases, name, q);
    NotedAppend(a, b);
    assert LiveEntries(st, aliases) == [first, second];
    SecondPathWins(st, aliases, name, p, q);
    SameContextsIff(st, aliases, order);
    assert first in LiveEntries(st, aliases) && second in LiveEntries(st, aliases);
  }

  lemma TwoResults(st: Store, aliases: Aliases, script: seq<SearchResult>)
    requires |script| == 2
    ensures ScriptActions(st, aliases, script)
            == ResultActions(st, aliases, script[0]) + ResultActions(st, aliases, script[1])
  {
    hide ResultActions;
    assert script[..1] == [script[0]] && [script[0]][..0] == [];
    assert ScriptActions(st, aliases, [script[0]]) == [] + ResultActions(st, aliases, script[0]);
    assert ScriptActions(st, aliases, script)
        == ScriptActions(st, aliases, script[..1]) + ResultActions(st, aliases, script[1]);
  }

  lemma OneContext(st: Store, aliases: Aliases, name: string, path: string)
    ensures Noted(ResultActions(st, aliases, Found(path, map[], Contexts([name])))) == [Entry(name, path, map[])]
  {
    hide Showings;
    var shown := Showings(name, path, map[], aliases);
    var none := ContextActions([name][..0], path, map[], aliases);
    assert none == [];
    assert ContextActions([name], path, map[], aliases) == none + Emits(shown) + [Record(name, path, map[])];
    assert none + Emits(shown) == Emits(shown);
    EmitsNoteNothing(shown);
    NotedAppend(Emits(shown), [Record(name, path, map[])]);
  }

  lemma SecondPathWins(st: Store, aliases: Aliases, name: string, p: string, q: string)
    ensures var a := ResultActions(st, aliases, Found(p, map[], Contexts([name])));
            var b := ResultActions(st, aliases, Found(q, map[], Contexts([name])));
            PathsOf(a + b) == map[name := q]
  {
    hide Showings, PathsOf, TagsOf, Emitted;
    var a := ResultActions(st, aliases, Found(p, map[], Contexts([name])));
    NextContext([], [], name, p, map[], aliases);
    NextContext(a, [], name, q, map[], aliases);
    NothingYet(st, aliases);
    NoContexts(q, map[], aliases);
    var none: seq<Action> := [];
    assert [] + [name] == [name] && a + none == a && none + a == a && none + none == none;
  }

  // ----- what the two paths show

  lemma {:induction false} NotedAppend(a: seq<Action>, b: seq<Action>)
    ensures Noted(a + b) == Noted(a) + Noted(b)
    decreases |b|
  {
    if b == [] {
      assert a + b == a;
    } else {
      assert (a + b)[..|a + b| - 1] == a + b[..|b| - 1];
      NotedAppend(a, b[..|b| - 1]);
    }
  }

  lemma {:induction false} AllShownAppend(a: seq<Entry>, b: seq<Entry>, aliases: Aliases)
    ensures AllShown(a + b, aliases) == AllShown(a, aliases) + AllShown(b, aliases)
    decreases |b|
  {
    hide Show;
    if b == [] {
      assert a + b == a;
    } else {
      assert (a + b)[..|a + b| - 1] == a + b[..|b| - 1];
      AllShownAppend(a, b[..|b| - 1], aliases);
      assert AllShown(a + b, aliases) == AllShown(a + b[..|b| - 1], aliases) + Show(b[|b| - 1], aliases);
    }
  }

  lemma {:induction false} EmitsNoteNothing(results: seq<Discovered>)
    ensures Noted(Emits(results)) == [] && Emitted(Emits(results)) == results
    decreases |results|
  {
    if results != [] {
      var init, last := results[..|results| - 1], results[|results| - 1];
      assert Emits(results)[..|results| - 1] == Emits(init);
      EmitsNoteNothing(init);
    }
  }

  /** A run of actions whose contexts are the showings of what it notes. */
  predicate Faithful(actions: seq<Action>, aliases: Aliases) {
    Filter(IsContext(), Emitted(actions)) == AllShown(Noted(actions), aliases)
  }

  lemma FaithfulAppend(a: seq<Action>, b: seq<Action>, aliases: Aliases)
    requires Faithful(a, aliases) && Faithful(b, aliases)
    ensures Faithful(a + b, aliases)
  {
    hide Filter, Emitted, Noted, AllShown;
    EmittedAppend(a, b);
    NotedAppend(a, b);
    FilterAppend(IsContext(), Emitted(a), Emitted(b));
    AllShownAppend(Noted(a), Noted(b), aliases);
  }

  lemma FaithfulContext(name: string, path: string, tags: Tags, aliases: Aliases)
    ensures Faithful(Emits(Showings(name, path, tags, aliases)) + [Record(name, path, tags)], aliases)
  {
    var e := Entry(name, path, tags);
    var shown := Show(e, aliases);
    var a, b := Emits(shown), [Record(name, path, tags)];
    EmitsNoteNothing(shown);
    RecordLast(a, name, path, tags);
    NotedAppend(a, b);
    assert Noted(b) == [e];
    FilterAll(IsContext(), shown);
    assert AllShown([e], aliases) == shown;
  }

  lemma {:induction false} FaithfulContexts(names: seq<string>, path: string, tags: Tags, aliases: Aliases)
    ensures Faithful(ContextActions(names, path, tags, aliases), aliases)
    decreases |names|
  {
    hide Faithful, Showings;
    if names == [] {
      FaithfulEmpty(aliases);
    } else {
      var init, last := names[..|names| - 1], names[|names| - 1];
      FaithfulContexts(init, path, tags, aliases);
      FaithfulContext(last, path, tags, aliases);
      var done := ContextActions(init, path, tags, aliases);
      var shown := Emits(Showings(last, path, tags, aliases));
      FaithfulAppend(done, shown + [Record(last, path, tags)], aliases);
      assert done + (shown + [Record(last, path, tags)]) == done + shown + [Record(last, path, tags)];
    }
  }

  lemma FaithfulEmpty(aliases: Aliases)
    ensures Faithful([], aliases)
  {
  }

  lemma FaithfulError(d: Discovered, aliases: Aliases)
    requires !d.Context?
    ensures Faithful([Emit(d)], aliases)
  {
    assert Emitted([Emit(d)]) == [d];
    assert Noted([Emit(d)]) == [];
  }

  lemma FaithfulResult(st: Store, aliases: Aliases, r: SearchResult)
    ensures Faithful(ResultActions(st, aliases, r), aliases)
  {
    hide ContextActions, Faithful;
    match r
    case Failure(error) =>
      FaithfulEmpty(aliases);
      FaithfulError(StoreError(error), aliases);
    case Found(path, tags, FetchFailed) =>
      FaithfulEmpty(aliases);
    case Found(path, tags, ParseFailed) =>
      FaithfulError(KubeconfigError(path), aliases);
    case Found(path, tags, Contexts(names)) =>
      FaithfulContexts(names, path, tags, aliases);
  }

  lemma {:induction false} LiveShown(st: Store, aliases: Aliases, script: seq<SearchResult>)
    ensures Faithful(ScriptActions(st, aliases, script), aliases)
    decreases |script|
  {
    hide Faithful, ResultActions;
    if script == [] {
      FaithfulEmpty(aliases);
    } else {
      LiveShown(st, aliases, script[..|script| - 1]);
      FaithfulResult(st, aliases, script[|script| - 1]);
      FaithfulAppend(ScriptActions(st, aliases, script[..|script| - 1]),
                     ResultActions(st, aliases, script[|script| - 1]), aliases);
    }
  }

  lemma {:induction false} IndexShown(index: Index, aliases: Aliases, order: seq<string>)
    requires forall n :: n in order ==> n in index.paths
    ensures IndexResults(index, aliases, order) == AllShown(IndexEntries(index, order), aliases)
    decreases |order|
  {
    if order != [] {
      var init := order[..|order| - 1];
      IndexShown(index, aliases, init);
      assert IndexEntries(index, order)[..|order| - 1] == IndexEntries(index, init);
    }
  }

  // ----- what the index holds

  /** The index holds exactly the noted names. */
  lemma {:induction false} IndexNames(actions: seq<Action>)
    ensures forall e :: e in Noted(actions) ==> e.name in PathsOf(actions)
    ensures forall n :: n in PathsOf(actions) ==> exists e :: e in Noted(actions) && e.name == n
    ensures TagsOf(actions).Keys <= PathsOf(actions).Keys
    decreases |actions|
  {
    if actions != [] {
      var init, last := actions[..|actions| - 1], actions[|actions| - 1];
      IndexNames(init);
      forall n | n in PathsOf(actions)
        ensures exists e :: e in Noted(actions) && e.name == n
      {
        if n in PathsOf(init) {
          var e :| e in Noted(init) && e.name == n;
          assert e in Noted(actions);
        } else {
          assert Entry(last.name, last.path, last.tags) in Noted(actions);
        }
      }
    }
  }

  ghost predicate Holds(st: Store, actions: seq<Action>, e: Entry) {
    && e.name in PathsOf(actions)
    && e == Entry(e.name, PathsOf(actions)[e.name], IndexTags(IndexOf(st, actions), e.name))
  }

  /** Consistent entries are held just as they were noted. */
  lemma {:induction false} IndexHolds(st: Store, actions: seq<Action>, e: Entry)
    requires Consistent(Noted(actions)) && e in Noted(actions)
    ensures Holds(st, actions, e)
    decreases |actions|
  {
    var init, last := actions[..|actions| - 1], actions[|actions| - 1];
    assert forall f :: f in Noted(init) ==> f in Noted(actions);
    if e in Noted(init) {
      IndexHolds(st, init, e);
    } else {
      IndexNames(init);
    }
    if last.Record? {
      assert Entry(last.name, last.path, last.tags) in Noted(actions);
    }
  }

  lemma SameEntriesIff(st: Store, actions: seq<Action>, order: seq<string>)
    requires Enumerates(PathsOf(actions), order)
    ensures SameElements(IndexEntries(IndexOf(st, actions), order), Noted(actions)) <==> Consistent(Noted(actions))
    ensures DistinctNames(IndexEntries(IndexOf(st, actions), order))
  {
    hide Noted, PathsOf, TagsOf, IndexTags;
    var index := IndexOf(st, actions);
    var live, read := Noted(actions), IndexEntries(index, order);
    IndexNames(actions);
    forall e, f | e in read && f in read && e.name == f.name
      ensures e == f
    {
    }
    if Consistent(live) {
      forall e | e in live
        ensures Holds(st, actions, e)
      {
        IndexHolds(st, actions, e);
      }
      forall e
        ensures e in read <==> e in live
      {
        if e in read {
          var f :| f in live && f.name == e.name;
          assert e == f;
        }
        if e in live {
          var k :| 0 <= k < |order| && order[k] == e.name;
          assert read[k] == e;
        }
      }
    }
  }

  // ----- showings of entries

  lemma {:induction false} ShownBy(entries: seq<Entry>, aliases: Aliases, d: Discovered) returns (e: Entry)
    requires d in AllShown(entries, aliases)
    ensures e in entries && d in Show(e, aliases)
    decreases |entries|
  {
    hide Show;
    var last := entries[|entries| - 1];
    if d in Show(last, aliases) {
      e := last;
    } else {
      e := ShownBy(entries[..|entries| - 1], aliases, d);
    }
  }

  lemma {:induction false} ShownIn(entries: seq<Entry>, aliases: Aliases, e: Entry, d: Discovered)
    requires e in entries && d in Show(e, aliases)
    ensures d in AllShown(entries, aliases)
    decreases |entries|
  {
    hide Show;
    if e != entries[|entries| - 1] {
      ShownIn(entries[..|entries| - 1], aliases, e, d);
    }
  }

  /** An entry can be read off each of its showings. */
  lemma EntryShown(a: seq<Entry>, b: seq<Entry>, aliases: Aliases, e: Entry)
    requires e in a
    requires forall d :: d in AllShown(a, aliases) ==> d in AllShown(b, aliases)
    ensures e in b
  {
    hide AllShown, Showings;
    var d := Show(e, aliases)[0];
    ShownIn(a, aliases, e, d);
    var f := ShownBy(b, aliases, d);
    assert f == e;
  }

  lemma SameShown(a: seq<Entry>, b: seq<Entry>, aliases: Aliases)
    ensures SameElements(AllShown(a, aliases), AllShown(b, aliases)) <==> SameElements(a, b)
  {
    hide AllShown, Show;
    if SameElements(AllShown(a, aliases), AllShown(b, aliases)) {
      forall e
        ensures e in a <==> e in b
      {
        if e in a {
          EntryShown(a, b, aliases, e);
        }
        if e in b {
          EntryShown(b, a, aliases, e);
        }
      }
    }
    if SameElements(a, b) {
      forall d
        ensures d in AllShown(a, aliases) <==> d in AllShown(b, aliases)
      {
        if d in AllShown(a, aliases) {
          var e := ShownBy(a, aliases, d);
          ShownIn(b, aliases, e, d);
        }
        if d in AllShown(b, aliases) {
          var e := ShownBy(b, aliases, d);
          ShownIn(a, aliases, e, d);
        }
      }
    }
  }

  // ----- multisets

  lemma SameMembers<T(!new)>(s: seq<T>, t: seq<T>)
    requires multiset(s) == multiset(t)
    ensures SameElements(s, t)
  {
    forall x
      ensures x in s <==> x in t
    {
      assert x in s <==> x in multiset(s);
    }
  }

  lemma DistinctIsConsistent(entries: seq<Entry>)
    requires DistinctNames(entries)
    ensures Consistent(entries)
  {
  }

  lemma {:induction false} DistinctOnce(entries: seq<Entry>)
    requires DistinctNames(entries)
    ensures forall e :: multiset(entries)[e] == if e in entries then 1 else 0
    decreases |entries|
  {
    if entries != [] {
      var init, last := entries[..|entries| - 1], entries[|entries| - 1];
      DistinctOnce(init);
      assert entries == init + [last];
    }
  }

  lemma SubsetBag(a: seq<Entry>, b: seq<Entry>)
    requires DistinctNames(a) && SameElements(a, b)
    ensures multiset(a) <= multiset(b)
  {
    DistinctOnce(a);
    forall e | e in multiset(a)
      ensures multiset(a)[e] <= multiset(b)[e]
    {
      assert e in b;
      assert e in multiset(b);
    }
  }

  lemma SameBag(a: seq<Entry>, b: seq<Entry>)
    requires DistinctNames(a) && DistinctNames(b) && SameElements(a, b)
    ensures multiset(a) == multiset(b)
  {
    DistinctOnce(a);
    DistinctOnce(b);
  }

  lemma {:induction false} SubBag(a: seq<Entry>, b: seq<Entry>, aliases: Aliases)
    requires multiset(a) <= multiset(b)
    ensures multiset(AllShown(a, aliases)) <= multiset(AllShown(b, aliases))
    ensures |a| < |b| ==> |AllShown(a, aliases)| < |AllShown(b, aliases)|
    decreases |a|
  {
    hide Show;
    if a == [] {
      if b != [] {
        assert |Show(b[|b| - 1], aliases)| > 0;
      }
    } else {
      var init, e := a[..|a| - 1], a[|a| - 1];
      assert a == init + [e];
      assert e in multiset(a);
      var k := Position(b, e);
      var before, after := b[..k], b[k + 1..];
      assert b == before + [e] + after;
      assert multiset(b) == multiset(before + after) + multiset{e};
      assert multiset(a) == multiset(init) + multiset{e};
      BagCancel(multiset(init), multiset(before + after), e);
      SubBag(init, before + after, aliases);
      AllShownAppend(before, after, aliases);
      AllShownAppend(before + [e], after, aliases);
      AllShownAppend(before, [e], aliases);
      assert AllShown([e], aliases) == Show(e, aliases);
    }
  }

  lemma BagCancel(x: multiset<Entry>, y: multiset<Entry>, e: Entry)
    requires x + multiset{e} <= y + multiset{e}
    ensures x <= y
  {
    forall f
      ensures x[f] <= y[f]
    {
      assert (x + multiset{e})[f] <= (y + multiset{e})[f];
    }
  }

  lemma Position(s: seq<Entry>, e: Entry) returns (k: nat)
    requires e in multiset(s)
    ensures k < |s| && s[k] == e
  {
    assert e in s;
    k :| 0 <= k < |s| && s[k] == e;
  }

  lemma RepeatsTwice(s: seq<Entry>, i: nat, j: nat)
    requires i < j < |s| && s[i] == s[j]
    ensures multiset(s)[s[i]] >= 2
  {
    var e := s[i];
    assert s == s[..j] + [e] + s[j + 1..];
    assert s[..j][i] == e;
    assert e in multiset(s[..j]);
  }

  /** Equal totals leave no room for a repeated entry. */
  lemma NoRepeats(live: seq<Entry>, read: seq<Entry>)
    requires multiset(read) <= multiset(live) && |live| <= |read|
    requires DistinctNames(read) && Consistent(live)
    ensures DistinctNames(live)
  {
    if i: nat, j: nat :| i < j < |live| && live[i].name == live[j].name {
      assert live[i] in live && live[j] in live;
      RepeatsTwice(live, i, j);
      SameSizeBag(read, live);
      DistinctOnce(read);
      assert false;
    }
  }

  lemma SameSizeBag(a: seq<Entry>, b: seq<Entry>)
    requires multiset(a) <= multiset(b) && |b| <= |a|
    ensures multiset(a) == multiset(b)
  {
    var rest := multiset(b) - multiset(a);
    assert multiset(b) == multiset(a) + rest;
    assert |multiset(b)| == |b| && |multiset(a)| == |a|;
    assert rest == multiset{};
  }
}
