/** When a successful alias write can be lost, and when a load can fail. */
module AliasRaces {
  import opened Lists
  import AliasState
  import opened AliasFiles

  /** Writers of one valid alias have one context. */
  predicate NoRace(c: System) {
    forall i, j :: 0 <= i < |c.writers| && 0 <= j < |c.writers| ==>
      c.writers[i].alias == c.writers[j].alias && AliasState.ValidName(c.writers[i].alias) ==>
        c.writers[i].context == c.writers[j].context
  }

  /** No valid alias of a writer may be removed by others. */
  predicate NoneRemovable(c: System) {
    forall i :: 0 <= i < |c.writers| && AliasState.ValidName(c.writers[i].alias) ==> c.writers[i].alias !in c.removable
  }

  /** Every writer that reports success finds its context in its file. */
  ghost predicate AllStay(c: System, s: State)
    requires |s.pcs| == |c.writers|
  {
    forall i :: 0 <= i < |s.pcs| && s.pcs[i] == Finished(true) ==>
      c.writers[i].alias in s.dir && s.dir[c.writers[i].alias] == c.writers[i].context
  }

  /** In every interleaving, once all writers are through. */
  ghost predicate EveryUpdateStays(c: System) {
    forall steps :: Legal(c, Initial(c), steps) && Complete(c, steps) ==> AllStay(c, Final(c, steps))
  }

  /** No interleaving loses the context of a writer that reports success exactly when writers of one valid alias agree
      on the context and nobody removes a writer's alias. */
  lemma EveryUpdateStaysIff(c: System)
    ensures EveryUpdateStays(c) <==> NoRace(c) && NoneRemovable(c)
  {
    hide Legal, Final, AllStay, AliasState.ValidName, Complete;
    if NoRace(c) && NoneRemovable(c) {
      forall steps | Legal(c, Initial(c), steps) && Complete(c, steps)
        ensures AllStay(c, Final(c, steps))
      {
        UpdatesStay(c, steps);
      }
    }
    if i: nat, j: nat :| i < |c.writers| && j < |c.writers| && c.writers[i].alias == c.writers[j].alias
                         && AliasState.ValidName(c.writers[i].alias) && c.writers[i].context != c.writers[j].context {
      var steps := InTurn(c, i, j);
      OverwrittenIsLost(c, Final(c, steps), i, j);
    }
    if i: nat :| i < |c.writers| && AliasState.ValidName(c.writers[i].alias) && c.writers[i].alias in c.removable {
      var steps := WriteThenRemove(c, i);
      RemovedIsLost(c, Final(c, steps), i);
    }
  }

  lemma OverwrittenIsLost(c: System, s: State, i: nat, j: nat)
    requires |s.pcs| == |c.writers| && i < |s.pcs| && j < |s.pcs| && s.pcs[i] == Finished(true)
    requires c.writers[i].alias == c.writers[j].alias && c.writers[i].context != c.writers[j].context
    requires c.writers[j].alias in s.dir && s.dir[c.writers[j].alias] == c.writers[j].context
    ensures !AllStay(c, s)
  {
  }

  lemma RemovedIsLost(c: System, s: State, i: nat)
    requires |s.pcs| == |c.writers| && i < |s.pcs| && s.pcs[i] == Finished(true) && c.writers[i].alias !in s.dir
    ensures !AllStay(c, s)
  {
  }

  lemma UpdatesStay(c: System, steps: seq<Step>)
    requires Legal(c, Initial(c), steps) && Complete(c, steps) && NoRace(c) && NoneRemovable(c)
    ensures AllStay(c, Final(c, steps))
  {
    hide Legal, Final, Inv, Sequential, FateOf, AliasState.ValidName;
    var s := Final(c, steps);
    NoLostUpdates(c, steps);
    FinalInv(c, steps);
    HistoryAt(c, s);
    forall i: nat | i < |s.pcs| && s.pcs[i] == Finished(true)
      ensures c.writers[i].alias in s.dir && s.dir[c.writers[i].alias] == c.writers[i].context
    {
      var name := c.writers[i].alias;
      assert Wrote(i) in s.events;
      LastChangeWins(c, s.events, name);
      FateIs(c, s.events, name);
    }
  }

  lemma HistoryAt(c: System, s: State)
    requires Inv(c, s)
    ensures |s.pcs| == |c.writers|
    ensures forall i: nat :: Wrote(i) in s.events ==> i < |c.writers| && AliasState.ValidName(c.writers[i].alias)
    ensures forall n :: Removed(n) in s.events ==> n in c.removable
  {
  }

  // ----- runs

  lemma {:induction false} RunOn(c: System, s: State, a: seq<Step>, b: seq<Step>)
    requires |s.pcs| == |c.writers| && Legal(c, s, a) && Legal(c, After(c, s, a), b)
    ensures Legal(c, s, a + b) && After(c, s, a + b) == After(c, After(c, s, a), b)
    decreases |a|
  {
    hide Enabled, Apply;
    if a == [] {
      assert a + b == b;
    } else {
      assert (a + b)[0] == a[0] && (a + b)[1..] == a[1..] + b;
      RunOn(c, Apply(c, s, a[0]), a[1..], b);
    }
  }

  lemma OneStep(c: System, s: State, step: Step)
    requires |s.pcs| == |c.writers| && Enabled(c, s, step)
    ensures Legal(c, s, [step]) && After(c, s, [step]) == Apply(c, s, step)
  {
    hide Enabled, Apply;
    assert [step][1..] == [];
  }

  lemma {:induction false} LongerThanAll(names: set<string>) returns (n: nat)
    ensures forall x :: x in names ==> |x| < n
    decreases |names|
  {
    if names == {} {
      n := 0;
    } else {
      var x :| x in names;
      var rest := LongerThanAll(names - {x});
      n := if rest > |x| then rest else |x| + 1;
    }
  }

  lemma FreshTemp(names: set<string>) returns (tmp: string)
    ensures ".alias-tmp-" <= tmp && tmp !in names
  {
    var n := LongerThanAll(names);
    tmp := ".alias-tmp-" + seq(n, _ => '0');
  }

  /** A state in which only what a complete write changes has changed. */
  predicate Wrote1(c: System, s: State, i: nat, s': State)
    requires |s.pcs| == |c.writers| && i < |s.pcs|
  {
    && s'.pcs == s.pcs[i := Finished(true)]
    && s'.dir == s.dir[c.writers[i].alias := c.writers[i].context]
    && s'.loaders == s.loaders
  }

  /** A writer that nobody interrupts. */
  lemma WriteAlone(c: System, s: State, i: nat) returns (steps: seq<Step>)
    requires |s.pcs| == |c.writers| && i < |s.pcs| && s.pcs[i].Start? && AliasState.ValidName(c.writers[i].alias)
    ensures Legal(c, s, steps) && Wrote1(c, s, i, After(c, s, steps))
  {
    hide Legal, After, AliasState.ValidName;
    var tmp := FreshTemp(s.used + s.dir.Keys);
    TempIsNoAlias(tmp, c.writers[i].alias);
    var context := c.writers[i].context;
    var s1 := Apply(c, s, Create(i, tmp));
    OneStep(c, s, Create(i, tmp));
    var s2 := s1;
    steps := [Create(i, tmp)];
    if context != "" {
      s2 := Apply(c, s1, Chunk(i, |context|));
      OneStep(c, s1, Chunk(i, |context|));
      RunOn(c, s, steps, [Chunk(i, |context|)]);
      steps := steps + [Chunk(i, |context|)];
    }
    assert s2.dir == s.dir[tmp := context] && s2.pcs == s.pcs[i := Filling(tmp, |context|)] by {
      assert context[..|context|] == context;
    }
    OneStep(c, s2, Close(i));
    RunOn(c, s, steps, [Close(i)]);
    steps := steps + [Close(i)];
    var s3 := Apply(c, s2, Close(i));
    OneStep(c, s3, Rename(i));
    RunOn(c, s, steps, [Rename(i)]);
    steps := steps + [Rename(i)];
    var s4 := Apply(c, s3, Rename(i));
    OneStep(c, s4, Cleanup(i));
    RunOn(c, s, steps, [Cleanup(i)]);
    steps := steps + [Cleanup(i)];
  }

  lemma TempIsNoAlias(tmp: string, alias: string)
    requires ".alias-tmp-" <= tmp && AliasState.ValidName(alias)
    ensures tmp != alias
  {
    TempHidden(tmp);
    ValidNotHidden(alias);
  }

  /** All writers from `k` on, but for some, are refused. */
  lemma {:induction false} RefuseOthers(c: System, s: State, k: nat, keep: set<nat>) returns (steps: seq<Step>)
    requires |s.pcs| == |c.writers| && k <= |s.pcs|
    requires forall j :: k <= j < |s.pcs| && j !in keep ==> s.pcs[j].Start?
    ensures Legal(c, s, steps)
    ensures var s' := After(c, s, steps);
            && s' == s.(pcs := s'.pcs) && |s'.pcs| == |s.pcs|
            && forall j: nat :: j < |s.pcs| ==>
                 s'.pcs[j] == if j >= k && j !in keep then Finished(false) else s.pcs[j]
    decreases |s.pcs| - k
  {
    if k == |s.pcs| {
      steps := [];
    } else if k in keep {
      steps := RefuseOthers(c, s, k + 1, keep);
    } else {
      hide Legal, After;
      OneStep(c, s, Refuse(k));
      var rest := RefuseOthers(c, Apply(c, s, Refuse(k)), k + 1, keep);
      RunOn(c, s, [Refuse(k)], rest);
      steps := [Refuse(k)] + rest;
    }
  }

  lemma FinalAfter(c: System, steps: seq<Step>)
    requires Legal(c, Initial(c), steps)
    ensures Final(c, steps) == After(c, Initial(c), steps)
  {
  }

  /** Writer `i` and then writer `j` write alone, and all others are refused: both succeed, and the file of their common
      alias holds the second context. */
  lemma InTurn(c: System, i: nat, j: nat) returns (steps: seq<Step>)
    requires i < |c.writers| && j < |c.writers| && i != j
    requires AliasState.ValidName(c.writers[i].alias) && c.writers[i].alias == c.writers[j].alias
    ensures Legal(c, Initial(c), steps) && Complete(c, steps)
    ensures Final(c, steps).pcs[i] == Final(c, steps).pcs[j] == Finished(true)
    ensures c.writers[j].alias in Final(c, steps).dir
    ensures Final(c, steps).dir[c.writers[j].alias] == c.writers[j].context
  {
    hide Legal, After, AliasState.ValidName, Final;
    var refused := RefuseOthers(c, Initial(c), 0, {i, j});
    var s1 := After(c, Initial(c), refused);
    var first := WriteAlone(c, s1, i);
    var s2 := After(c, s1, first);
    var second := WriteAlone(c, s2, j);
    RunOn(c, Initial(c), refused, first);
    RunOn(c, Initial(c), refused + first, second);
    steps := refused + first + second;
    FinalAfter(c, steps);
  }

  /** Writer `i` writes alone, all others are refused, and its file is then removed. */
  lemma WriteThenRemove(c: System, i: nat) returns (steps: seq<Step>)
    requires i < |c.writers| && AliasState.ValidName(c.writers[i].alias) && c.writers[i].alias in c.removable
    ensures Legal(c, Initial(c), steps) && Complete(c, steps)
    ensures Final(c, steps).pcs[i] == Finished(true) && c.writers[i].alias !in Final(c, steps).dir
  {
    hide Legal, After, Final, AliasState.ValidName, AliasState.Hidden;
    ValidNotHidden(c.writers[i].alias);
    var refused := RefuseOthers(c, Initial(c), 0, {i});
    var s1 := After(c, Initial(c), refused);
    var first := WriteAlone(c, s1, i);
    var s2 := After(c, s1, first);
    OneStep(c, s2, Remove(c.writers[i].alias));
    RunOn(c, Initial(c), refused, first);
    RunOn(c, Initial(c), refused + first, [Remove(c.writers[i].alias)]);
    steps := refused + first + [Remove(c.writers[i].alias)];
    FinalAfter(c, steps);
  }

  /** Two processes write the same alias: both report success, and one context is gone. */
  lemma RaceLoses(alias: string, x: string, y: string) returns (steps: seq<Step>)
    requires AliasState.ValidName(alias) && x != y
    ensures var c := System(map[], [Writer(alias, x), Writer(alias, y)], {});
            && Legal(c, Initial(c), steps) && Complete(c, steps)
            && var s := Final(c, steps);
            && s.pcs == [Finished(true), Finished(true)]
            && alias in s.dir && s.dir[alias] == y
  {
    hide Legal, Final, AliasState.ValidName;
    var c := System(map[], [Writer(alias, x), Writer(alias, y)], {});
    steps := InTurn(c, 0, 1);
  }

  // ----- loads

  /** The name is there at first, or a writer can bring it there. */
  predicate CanAppear(c: System, n: string) {
    n in c.dir || exists i :: 0 <= i < |c.writers| && c.writers[i].alias == n && AliasState.ValidName(n)
  }

  ghost predicate LoadsNeverFail(c: System) {
    forall steps, l :: Legal(c, Initial(c), steps) && l in Final(c, steps).loaders ==>
      !Final(c, steps).loaders[l].failed
  }

  /** No visible file that can ever be there may be removed. */
  predicate NothingVanishes(c: System) {
    forall n :: n in c.removable && !AliasState.Hidden(n) ==> !CanAppear(c, n)
  }

  /** No load fails in any interleaving exactly when nothing that can be visible may be removed. */
  lemma LoadsNeverFailIff(c: System)
    ensures LoadsNeverFail(c) <==> NothingVanishes(c)
  {
    hide Legal, Final, AliasState.Hidden, CanAppear;
    if NothingVanishes(c) {
      forall steps, l | Legal(c, Initial(c), steps) && l in Final(c, steps).loaders
        ensures !Final(c, steps).loaders[l].failed
      {
        if Final(c, steps).loaders[l].failed {
          FailureNeedsRemoval(c, steps, l);
        }
      }
    } else {
      var n :| n in c.removable && !AliasState.Hidden(n) && CanAppear(c, n);
      var steps := RemoveBeforeRead(c, n);
      FailsOnce(c, steps);
    }
  }

  lemma FailsOnce(c: System, steps: seq<Step>)
    requires Legal(c, Initial(c), steps) && 0 in Final(c, steps).loaders && Final(c, steps).loaders[0].failed
    ensures !LoadsNeverFail(c)
  {
    hide Legal, Final;
  }

  lemma FailureNeedsRemoval(c: System, steps: seq<Step>, l: nat)
    requires Legal(c, Initial(c), steps) && l in Final(c, steps).loaders && Final(c, steps).loaders[l].failed
    ensures !NothingVanishes(c)
  {
    hide Legal, Final, AliasState.Hidden, CanAppear, Inv;
    var s := Final(c, steps);
    LoadsSeeWholeFiles(c, steps, l);
    var n := s.loaders[l].names[s.loaders[l].pos];
    var late := s.events[s.loaders[l].since..];
    var k :| 0 <= k < |late| && late[k] == Removed(n);
    assert s.events[s.loaders[l].since + k] == Removed(n);
    InitialAppear(c);
    RunKeepsAppear(c, Initial(c), steps);
    FinalAfter(c, steps);
  }

  /** Only names that can appear are ever visible or removed. */
  ghost predicate Appearing(c: System, s: State) {
    && (forall n :: n in s.dir && !AliasState.Hidden(n) ==> CanAppear(c, n))
    && (forall n :: Removed(n) in s.events ==> n in c.removable && !AliasState.Hidden(n) && CanAppear(c, n))
  }

  lemma InitialAppear(c: System)
    ensures Appearing(c, Initial(c)) && Inv(c, Initial(c))
  {
    InitialInv(c);
  }

  lemma StepKeepsAppear(c: System, s: State, step: Step)
    requires Inv(c, s) && Appearing(c, s) && Enabled(c, s, step)
    ensures Appearing(c, Apply(c, s, step))
  {
    hide AliasState.Hidden, TempContents, HiddenFiles, FilesInv, LoadersInv, CanAppear;
    var s' := Apply(c, s, step);
    if step.Rename? {
      AliasAppears(c, step.i);
    }
    forall n | n in s'.dir && !AliasState.Hidden(n)
      ensures CanAppear(c, n)
    {
      VisibleFiles(c, s, step, n);
    }
  }

  lemma AliasAppears(c: System, i: nat)
    requires i < |c.writers|
    ensures AliasState.ValidName(c.writers[i].alias) ==> CanAppear(c, c.writers[i].alias)
  {
  }

  lemma {:induction false} RunKeepsAppear(c: System, s: State, steps: seq<Step>)
    requires Inv(c, s) && Appearing(c, s) && Legal(c, s, steps)
    ensures Appearing(c, After(c, s, steps))
    decreases |steps|
  {
    hide FilesInv, LoadersInv, TempNames, TempContents, HiddenFiles, Enabled, Apply, Appearing;
    if steps != [] {
      StepKeepsInv(c, s, steps[0]);
      StepKeepsAppear(c, s, steps[0]);
      RunKeepsAppear(c, Apply(c, s, steps[0]), steps[1..]);
    }
  }

  /** A listing with the given visible file in front. */
  lemma ListedFirst(dir: AliasState.Dir, n: string) returns (names: seq<string>)
    requires n in dir && !AliasState.Hidden(n)
    ensures Shows(dir, names) && names != [] && names[0] == n
  {
    hide AliasState.Hidden;
    var rest := AnyListing(set x | x in dir && !AliasState.Hidden(x) && x != n);
    names := [n] + rest;
    forall x
      ensures x in names <==> x in dir && !AliasState.Hidden(x)
    {
      assert x in names <==> x == n || x in rest;
    }
    forall j, k | 0 <= j < k < |names|
      ensures names[j] != names[k]
    {
      assert names[k] == rest[k - 1] && rest[k - 1] in rest;
    }
  }

  lemma {:induction false} AnyListing(names: set<string>) returns (listing: seq<string>)
    ensures NoDup(listing) && forall x :: x in listing <==> x in names
    decreases |names|
  {
    if names == {} {
      listing := [];
    } else {
      var x :| x in names;
      var rest := AnyListing(names - {x});
      listing := rest + [x];
    }
  }

  /** A load lists the directory, the first file it listed is removed, and the load fails at it. */
  lemma RemoveBeforeRead(c: System, n: string) returns (steps: seq<Step>)
    requires n in c.removable && !AliasState.Hidden(n) && CanAppear(c, n)
    ensures Legal(c, Initial(c), steps) && 0 in Final(c, steps).loaders && Final(c, steps).loaders[0].failed
  {
    hide Legal, After, Final, AliasState.Hidden, AliasState.ValidName, Shows;
    var before := MakeAppear(c, n);
    var s1 := After(c, Initial(c), before);
    var names := ListedFirst(s1.dir, n);
    OneStep(c, s1, Listing(0, names));
    var s2 := Apply(c, s1, Listing(0, names));
    OneStep(c, s2, Remove(n));
    var s3 := Apply(c, s2, Remove(n));
    OneStep(c, s3, Read(0));
    RunOn(c, Initial(c), before, [Listing(0, names)]);
    RunOn(c, Initial(c), before + [Listing(0, names)], [Remove(n)]);
    RunOn(c, Initial(c), before + [Listing(0, names)] + [Remove(n)], [Read(0)]);
    steps := before + [Listing(0, names)] + [Remove(n)] + [Read(0)];
    FinalAfter(c, steps);
  }

  lemma MakeAppear(c: System, n: string) returns (steps: seq<Step>)
    requires CanAppear(c, n)
    ensures Legal(c, Initial(c), steps) && n in After(c, Initial(c), steps).dir
  {
    if n in c.dir {
      steps := [];
    } else {
      hide Legal, After;
      var i :| 0 <= i < |c.writers| && c.writers[i].alias == n && AliasState.ValidName(n);
      steps := WriteAlone(c, Initial(c), i);
    }
  }
}
