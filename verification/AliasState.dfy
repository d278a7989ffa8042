/** The alias directory: one file per alias, named after it and holding the context it stands for. */
module AliasState {
  import opened Lists
  import Text

  /** The regular files of the alias directory, by name. */
  type Dir = map<string, string>

  /** The in-memory state, from context to alias. */
  type Mapping = map<string, string>

  // ----- specification

  /** The white space `strings.TrimSpace` removes. */
  predicate IsSpace(c: char) {
    var n := c as int;
    9 <= n <= 13 || 0x2000 <= n <= 0x200a
    || n in {0x20, 0x85, 0xa0, 0x1680, 0x2028, 0x2029, 0x202f, 0x205f, 0x3000}
  }

  function TrimLeft(s: string): string {
    if s != "" && IsSpace(s[0]) then TrimLeft(s[1..]) else s
  }

  function TrimRight(s: string): string {
    if s != "" && IsSpace(s[|s| - 1]) then TrimRight(s[..|s| - 1]) else s
  }

  function TrimSpace(s: string): string {
    TrimRight(TrimLeft(s))
  }

  /** A single plain file name that a load does not skip. */
  predicate ValidName(name: string) {
    name != "" && name[0] != '.' && '/' !in name && '\\' !in name
  }

  predicate Hidden(name: string) {
    Text.HasPrefix(name, ".")
  }

  predicate ReadsAs(dir: Dir, name: string, context: string) {
    name in dir && !Hidden(name) && context != "" && TrimSpace(dir[name]) == context
  }

  function LoadOne(dir: Dir, name: string, m: Mapping): Mapping
    requires name in dir
  {
    var context := TrimSpace(dir[name]);
    if Hidden(name) || context == "" then m else m[context := name]
  }

  /** What a load reads when the directory is listed in the given order. */
  function Loaded(dir: Dir, listing: seq<string>): Mapping
    requires forall n :: n in listing ==> n in dir
  {
    if listing == [] then map[]
    else LoadOne(dir, listing[|listing| - 1], Loaded(dir, listing[..|listing| - 1]))
  }

  /** The first visible file that cannot be read, or the length. */
  function FirstUnreadable(listing: seq<string>, unreadable: set<string>): (k: nat)
    ensures k <= |listing|
    ensures k < |listing| ==> !Hidden(listing[k]) && listing[k] in unreadable
    ensures forall i :: 0 <= i < k ==> Hidden(listing[i]) || listing[i] !in unreadable
  {
    if listing == [] || (!Hidden(listing[0]) && listing[0] in unreadable) then 0
    else 1 + FirstUnreadable(listing[1..], unreadable)
  }

  function WriteEach(dir: Dir, m: Mapping, order: seq<string>): Dir
    requires forall c :: c in order ==> c in m
  {
    if order == [] then dir
    else
      var context := order[|order| - 1];
      var rest := WriteEach(dir, m, order[..|order| - 1]);
      if ValidName(m[context]) then rest[m[context] := context] else rest
  }

  function Desired(m: Mapping): set<string> {
    set c | c in m && ValidName(m[c]) :: m[c]
  }

  /** The directory after writing all of `m`: stale alias files are gone, hidden files untouched. */
  function Written(dir: Dir, m: Mapping, order: seq<string>): Dir
    requires forall c :: c in order ==> c in m
  {
    var all := WriteEach(dir, m, order);
    map n | n in all && (Hidden(n) || n in Desired(m)) :: all[n]
  }

  /** The usable aliases of the given contexts. */
  function Usable(m: Mapping, contexts: seq<string>): set<string>
    requires forall c :: c in contexts ==> c in m
  {
    set c | c in contexts && ValidName(m[c]) :: m[c]
  }

  /** The directory once the named files have been examined. */
  function Pruned(dir: Dir, desired: set<string>, names: seq<string>): Dir {
    map n | n in dir && (Hidden(n) || n in desired || n !in names) :: dir[n]
  }

  /** The file operations that go wrong while all aliases are written: creating the directory, writing the file of a
      name, listing the directory, removing the file of a name. */
  datatype Faults = Faults(mkdir: bool, writes: set<string>, readDir: bool, removes: set<string>)

  predicate Breaks(m: Mapping, context: string, faults: Faults) {
    context in m && ValidName(m[context]) && m[context] in faults.writes
  }

  /** The first context whose file cannot be written, or the length. */
  function FirstBreak(m: Mapping, order: seq<string>, faults: Faults): (k: nat)
    ensures k <= |order|
    ensures k < |order| ==> Breaks(m, order[k], faults)
    ensures forall i :: 0 <= i < k ==> !Breaks(m, order[i], faults)
  {
    if order == [] || Breaks(m, order[0], faults) then 0 else 1 + FirstBreak(m, order[1..], faults)
  }

  /** Stale files that cannot be removed stay, silently. */
  function WrittenBut(dir: Dir, m: Mapping, order: seq<string>, stay: set<string>): Dir
    requires forall c :: c in order ==> c in m
  {
    var all := WriteEach(dir, m, order);
    map n | n in all && (Hidden(n) || n in Desired(m) || n in stay) :: all[n]
  }

  function WriteAllError(m: Mapping, order: seq<string>, faults: Faults): Option<Error> {
    if faults.mkdir then Some(DirectoryError)
    else if FirstBreak(m, order, faults) < |order| then Some(FileError(m[order[FirstBreak(m, order, faults)]]))
    else if faults.readDir then Some(DirectoryError)
    else None
  }

  /** The directory after writing all of `m` as far as the faults allow. */
  function WriteAll(dir: Dir, m: Mapping, order: seq<string>, faults: Faults): Dir
    requires forall c :: c in order ==> c in m
  {
    if faults.mkdir then dir
    else if FirstBreak(m, order, faults) < |order| || faults.readDir then
      WriteEach(dir, m, order[..FirstBreak(m, order, faults)])
    else WrittenBut(dir, m, order, faults.removes)
  }

  /** A context of `m` that may be reported as the one `alias` stood for. */
  predicate Replaces(m: Mapping, alias: string, r: Option<string>) {
    match r
    case Some(c) => c in m && m[c] == alias
    case None => alias !in m.Values
  }

  /** `alias` moved to `context`, from the context it stood for. */
  function Rebound(m: Mapping, alias: string, context: string, replaced: Option<string>): Mapping {
    (m - (if replaced.Some? then {replaced.value} else {}))[context := alias]
  }

  ghost predicate Injective(m: Mapping) {
    forall c, d :: c in m && d in m && m[c] == m[d] ==> c == d
  }

  function Without(m: Mapping, alias: string): Mapping {
    map c | c in m && m[c] != alias :: m[c]
  }

  // ----- the code

  datatype Error = InvalidName(name: string) | NoSuchAlias(alias: string) | FileError(name: string) | DirectoryError

  method ValidateAliasName(name: string) returns (error: Option<Error>)
    ensures error == if ValidName(name) then None else Some(InvalidName(name))
  {
    if name == "" {
      return Some(InvalidName(name));
    } else if name == "." || name == ".." {
      return Some(InvalidName(name));
    } else if Text.HasPrefix(name, ".") {
      assert name[0] == '.';
      return Some(InvalidName(name));
    } else if exists i :: 0 <= i < |name| && (name[i] == '/' || name[i] == '\\') {
      return Some(InvalidName(name));
    }
    assert name[..1] == [name[0]];
    return None;
  }

  lemma WriteNone(dir: Dir, m: Mapping)
    ensures WriteEach(dir, m, []) == dir && Usable(m, []) == {}
  {
  }

  lemma WriteNext(dir: Dir, m: Mapping, order: seq<string>, i: nat)
    requires i < |order| && forall c :: c in order ==> c in m
    ensures order[i] in m && forall c :: c in order[..i + 1] ==> c in m
    ensures var alias := m[order[i]];
            var before := WriteEach(dir, m, order[..i]);
            && WriteEach(dir, m, order[..i + 1]) == (if ValidName(alias) then before[alias := order[i]] else before)
            && Usable(m, order[..i + 1]) == Usable(m, order[..i]) + (if ValidName(alias) then {alias} else {})
  {
    hide ValidName;
    assert order[..i + 1] == order[..i] + [order[i]];
    assert order[..i + 1][..i] == order[..i];
  }

  lemma {:induction false} FirstBreakIs(m: Mapping, order: seq<string>, faults: Faults, k: nat)
    requires k <= |order| && (k < |order| ==> Breaks(m, order[k], faults))
    requires forall i :: 0 <= i < k ==> !Breaks(m, order[i], faults)
    ensures FirstBreak(m, order, faults) == k
  {
  }

  lemma {:induction false} FirstUnreadableIs(listing: seq<string>, unreadable: set<string>, k: nat)
    requires k <= |listing| && (k < |listing| ==> !Hidden(listing[k]) && listing[k] in unreadable)
    requires forall i :: 0 <= i < k ==> Hidden(listing[i]) || listing[i] !in unreadable
    ensures FirstUnreadable(listing, unreadable) == k
  {
  }

  lemma PruneNone(dir: Dir, desired: set<string>, stay: set<string>)
    ensures Pruned(dir, desired + stay, []) == dir
  {
  }

  lemma PruneNext(dir: Dir, desired: set<string>, names: seq<string>, i: nat)
    requires i < |names|
    ensures var before := Pruned(dir, desired, names[..i]);
            Pruned(dir, desired, names[..i + 1])
            == if Hidden(names[i]) || names[i] in desired then before else before - {names[i]}
  {
    hide Hidden;
    assert names[..i + 1] == names[..i] + [names[i]];
  }

  lemma PruneAll(dir: Dir, m: Mapping, order: seq<string>, listing: seq<string>, stay: set<string>)
    requires Enumerates(m, order) && Enumerates(WriteEach(dir, m, order), listing)
    ensures Pruned(WriteEach(dir, m, order), Usable(m, order) + stay, listing) == WrittenBut(dir, m, order, stay)
  {
    hide WriteEach, Hidden, ValidName;
    assert Usable(m, order) == Desired(m);
  }

  class Alias {
    var dir: Dir
    var content: Option<Mapping>

    constructor (dir: Dir)
      ensures this.dir == dir && content == None
    {
      this.dir := dir;
      content := None;
    }

    function Contexts(): Mapping
      reads this
    {
      content.GetOr(map[])
    }

    /** The first visible file that cannot be read ends the load. */
    method LoadFromDir(listing: seq<string>, unreadable: set<string>) returns (error: Option<Error>)
      requires Enumerates(dir, listing)
      modifies this`content
      ensures var k := FirstUnreadable(listing, unreadable);
              && error == (if k < |listing| then Some(FileError(listing[k])) else None)
              && content == Some(Loaded(dir, listing[..k]))
    {
      hide FirstUnreadable;
      var m: Mapping := map[];
      for i := 0 to |listing|
        invariant forall n :: n in listing[..i] ==> n in dir
        invariant m == Loaded(dir, listing[..i])
        invariant forall k :: 0 <= k < i ==> Hidden(listing[k]) || listing[k] !in unreadable
      {
        assert listing[..i + 1][..i] == listing[..i];
        var name := listing[i];
        if Text.HasPrefix(name, ".") {
          continue;
        }
        if name in unreadable {
          FirstUnreadableIs(listing, unreadable, i);
          content := Some(m);
          return Some(FileError(name));
        }
        var ctx := TrimSpace(dir[name]);
        if ctx != "" {
          m := m[ctx := name];
        }
      }
      FirstUnreadableIs(listing, unreadable, |listing|);
      content := Some(m);
      return None;
    }

    /** Which context is returned for an alias held twice depends on the map's iteration order. */
    method ContainsAlias(alias: string) returns (context: Option<string>)
      ensures context.Some? ==> context.value in Contexts() && Contexts()[context.value] == alias
      ensures context == None ==> alias !in Contexts().Values
    {
      var m := Contexts();
      var rest := m.Keys;
      while rest != {}
        invariant rest <= m.Keys
        invariant forall c :: c in m && c !in rest ==> m[c] != alias
        decreases |rest|
      {
        var c :| c in rest;
        if m[c] == alias {
          return Some(c);
        }
        rest := rest - {c};
      }
      return None;
    }

    /** The memory is changed before the file is written, and stays changed when that fails. */
    method WriteAlias(alias: string, context: string, faults: Faults)
      returns (replaced: Option<string>, error: Option<Error>)
      modifies this
      ensures error == if !ValidName(alias) then Some(InvalidName(alias))
                       else if faults.mkdir then Some(DirectoryError)
                       else if alias in faults.writes then Some(FileError(alias))
                       else None
      ensures !ValidName(alias) ==> dir == old(dir) && content == old(content) && replaced == None
      ensures ValidName(alias) ==>
                exists r :: Replaces(old(Contexts()), alias, r) && replaced == (if error == None then r else None)
                            && content == Some(Rebound(old(Contexts()), alias, context, r))
      ensures dir == if error == None then old(dir)[alias := context] else old(dir)
    {
      error := ValidateAliasName(alias);
      if error.Some? {
        return None, error;
      }
      if content == None {
        content := Some(map[]);
      }
      var found := ContainsAlias(alias);
      assert Contexts() - {} == Contexts();
      if found.Some? {
        content := Some(content.value - {found.value});
      }
      content := Some(content.value[context := alias]);
      assert Replaces(old(Contexts()), alias, found);
      if faults.mkdir {
        return None, Some(DirectoryError);
      }
      if alias in faults.writes {
        return None, Some(FileError(alias));
      }
      dir := dir[alias := context];
      return found, None;
    }

    method WriteAllAliases(order: seq<string>, listing: seq<string>, faults: Faults) returns (error: Option<Error>)
      requires Enumerates(Contexts(), order)
      requires Enumerates(WriteEach(dir, Contexts(), order), listing)
      modifies this`dir
      ensures error == WriteAllError(Contexts(), order, faults)
      ensures dir == WriteAll(old(dir), Contexts(), order, faults)
    {
      hide WriteEach, WrittenBut, Usable, Pruned, ValidName, FirstBreak;
      var m := Contexts();
      if faults.mkdir {
        return Some(DirectoryError);
      }
      var desired: set<string> := {};
      WriteNone(dir, m);
      for i := 0 to |order|
        invariant dir == WriteEach(old(dir), m, order[..i])
        invariant desired == Usable(m, order[..i])
        invariant forall k :: 0 <= k < i ==> !Breaks(m, order[k], faults)
      {
        WriteNext(old(dir), m, order, i);
        var alias := m[order[i]];
        var invalid := ValidateAliasName(alias);
        if invalid.Some? {
          continue;
        }
        desired := desired + {alias};
        if alias in faults.writes {
          FirstBreakIs(m, order, faults, i);
          return Some(FileError(alias));
        }
        dir := dir[alias := order[i]];
      }
      assert order[..|order|] == order;
      FirstBreakIs(m, order, faults, |order|);
      if faults.readDir {
        return Some(DirectoryError);
      }
      ghost var all := dir;
      PruneNone(all, desired, faults.removes);
      for i := 0 to |listing|
        invariant dir == Pruned(all, desired + faults.removes, listing[..i])
      {
        PruneNext(all, desired + faults.removes, listing, i);
        if Text.HasPrefix(listing[i], ".") {
          continue;
        }
        if listing[i] !in desired && listing[i] !in faults.removes {
          dir := dir - {listing[i]};
        }
      }
      assert listing[..|listing|] == listing;
      PruneAll(old(dir), m, order, listing, faults.removes);
      return None;
    }

    /** Runs on freshly loaded state. The memory is changed first, and stays changed when the directory fails. */
    method RemoveAlias(alias: string, order: seq<string>, listing: seq<string>, faults: Faults)
      returns (error: Option<Error>)
      requires Enumerates(Without(Contexts(), alias), order)
      requires Enumerates(WriteEach(dir, Without(Contexts(), alias), order), listing)
      modifies this
      ensures var m := Without(old(Contexts()), alias);
              if old(content) == None then error == None && content == None && dir == old(dir)
              else if alias !in old(Contexts()).Values then
                error == Some(NoSuchAlias(alias)) && content == old(content) && dir == old(dir)
              else
                && error == WriteAllError(m, order, faults)
                && content == Some(m) && dir == WriteAll(old(dir), m, order, faults)
    {
      hide WriteAll, WriteAllError;
      if content == None {
        return None;
      }
      var m := content.value;
      var kept: Mapping := map[];
      var found := false;
      var rest := m.Keys;
      while rest != {}
        invariant rest <= m.Keys
        invariant content == old(content) && dir == old(dir)
        invariant kept == map c | c in m && c !in rest && m[c] != alias :: m[c]
        invariant found <==> exists c :: c in m && c !in rest && m[c] == alias
        decreases |rest|
      {
        var c :| c in rest;
        rest := rest - {c};
        if m[c] == alias {
          found := true;
          continue;
        }
        kept := kept[c := m[c]];
      }
      if !found {
        return Some(NoSuchAlias(alias));
      }
      assert kept == Without(m, alias);
      content := Some(kept);
      error := WriteAllAliases(order, listing, faults);
    }
  }

  // ----- loading

  /** The loaded map sends a context to a visible file that reads as it, and knows every such context. */
  lemma {:induction false} LoadedIs(dir: Dir, listing: seq<string>, context: string)
    requires forall n :: n in listing ==> n in dir
    ensures context in Loaded(dir, listing) <==> exists n :: n in listing && ReadsAs(dir, n, context)
    ensures context in Loaded(dir, listing) ==>
              Loaded(dir, listing)[context] in listing && ReadsAs(dir, Loaded(dir, listing)[context], context)
  {
    if listing != [] {
      var init, last := listing[..|listing| - 1], listing[|listing| - 1];
      assert listing == init + [last];
      LoadedIs(dir, init, context);
      if n :| n in listing && ReadsAs(dir, n, context) {
        assert n == last || n in init;
      }
      if n :| n in init && ReadsAs(dir, n, context) {
        assert n in listing;
      }
      assert last in listing;
      assert ReadsAs(dir, last, context) <==> !Hidden(last) && context != "" && TrimSpace(dir[last]) == context;
    }
  }

  /** Whatever is on disk, a load gives every alias to one context. */
  lemma LoadedInjective(dir: Dir, listing: seq<string>)
    requires forall n :: n in listing ==> n in dir
    ensures Injective(Loaded(dir, listing))
  {
    var m := Loaded(dir, listing);
    forall c, d | c in m && d in m && m[c] == m[d]
      ensures c == d
    {
      LoadedIs(dir, listing, c);
      LoadedIs(dir, listing, d);
    }
  }

  lemma {:induction false} TrimLeftIdem(s: string)
    ensures TrimLeft(TrimLeft(s)) == TrimLeft(s)
    ensures TrimLeft(s) != "" ==> !IsSpace(TrimLeft(s)[0])
  {
    if s != "" && IsSpace(s[0]) {
      TrimLeftIdem(s[1..]);
    }
  }

  lemma {:induction false} TrimRightIdem(s: string)
    ensures TrimRight(TrimRight(s)) == TrimRight(s)
    ensures TrimRight(s) <= s
    ensures s != "" && !IsSpace(s[0]) ==> TrimRight(s) != "" && TrimRight(s)[0] == s[0]
  {
    if s != "" && IsSpace(s[|s| - 1]) {
      TrimRightIdem(s[..|s| - 1]);
    }
  }

  lemma TrimIdem(s: string)
    ensures TrimSpace(TrimSpace(s)) == TrimSpace(s)
  {
    TrimLeftIdem(s);
    TrimRightIdem(TrimLeft(s));
  }

  // ----- writing everything back

  ghost predicate Writes(m: Mapping, order: seq<string>, name: string)
    requires forall c :: c in order ==> c in m
  {
    exists c :: c in order && ValidName(m[c]) && m[c] == name
  }

  lemma WritesLast(m: Mapping, order: seq<string>, name: string)
    requires order != [] && forall c :: c in order ==> c in m
    ensures var last := order[|order| - 1];
            Writes(m, order, name) <==> Writes(m, order[..|order| - 1], name) || (ValidName(m[last]) && m[last] == name)
  {
    hide ValidName;
    assert order == order[..|order| - 1] + [order[|order| - 1]];
  }

  lemma {:induction false} WriteEachIs(dir: Dir, m: Mapping, order: seq<string>, name: string)
    requires forall c :: c in order ==> c in m
    ensures var all := WriteEach(dir, m, order);
            && (name in all <==> name in dir || Writes(m, order, name))
            && (Writes(m, order, name) ==> name in all && all[name] in order && m[all[name]] == name)
            && (!Writes(m, order, name) && name in all ==> all[name] == dir[name])
  {
    hide ValidName, Writes;
    if order == [] {
      WritesNothing(m, name);
    } else {
      WriteEachIs(dir, m, order[..|order| - 1], name);
      WritesLast(m, order, name);
    }
  }

  lemma WritesNothing(m: Mapping, name: string)
    ensures !Writes(m, [], name)
  {
  }

  lemma WrittenIs(dir: Dir, m: Mapping, order: seq<string>, name: string)
    requires Enumerates(m, order)
    ensures var d := Written(dir, m, order);
            && (!Hidden(name) ==> (name in d <==> name in Desired(m)))
            && (!Hidden(name) && name in d ==> d[name] in m && m[d[name]] == name)
            && (Hidden(name) ==> (name in d <==> name in dir) && (name in dir ==> d[name] == dir[name]))
  {
    WriteEachIs(dir, m, order, name);
    if name in Desired(m) {
      var c :| c in m && ValidName(m[c]) && m[c] == name;
      assert c in order;
      assert !Hidden(name);
    }
  }

  /** Whatever fails, every visible file holds what it held or a context of its alias. An error loses no file, and
      without one every valid alias has its file and every other visible file is gone, if it could be removed. */
  lemma WriteAllIs(dir: Dir, m: Mapping, order: seq<string>, faults: Faults, name: string)
    requires Enumerates(m, order) && !Hidden(name)
    ensures var d, error := WriteAll(dir, m, order, faults), WriteAllError(m, order, faults);
            && (name in d ==> (name in dir && d[name] == dir[name]) || (d[name] in m && m[d[name]] == name))
            && (error.Some? && name in dir ==> name in d)
            && (error == None && name in Desired(m) ==> name in d && d[name] in m && m[d[name]] == name)
            && (error == None && name in d ==> name in Desired(m) || name in faults.removes)
  {
    hide FirstBreak, ValidName, Writes, Hidden;
    var k := FirstBreak(m, order, faults);
    WriteEachIs(dir, m, order, name);
    WriteEachIs(dir, m, order[..k], name);
    WritesDesired(m, order, name);
    assert k == |order| ==> order[..k] == order;
  }

  lemma WritesDesired(m: Mapping, order: seq<string>, name: string)
    requires Enumerates(m, order)
    ensures Writes(m, order, name) <==> name in Desired(m)
  {
  }

  /** A mapping a caller can check: no alias twice, every alias a usable name, every context trimmed and non-empty. */
  ghost predicate Storable(m: Mapping) {
    && Injective(m)
    && (forall c :: c in m ==> ValidName(m[c]))
    && (forall c :: c in m ==> c != "" && TrimSpace(c) == c)
  }

  lemma WrittenThenLoaded(dir: Dir, m: Mapping, order: seq<string>, listing: seq<string>)
    requires Enumerates(m, order) && Enumerates(Written(dir, m, order), listing)
    ensures Loaded(Written(dir, m, order), listing) == m <==> Storable(m)
  {
    var d := Written(dir, m, order);
    var l := Loaded(d, listing);
    if Storable(m) {
      forall c
        ensures c in l <==> c in m
        ensures c in m ==> l[c] == m[c]
      {
        LoadedIs(d, listing, c);
        if c in m {
          WrittenIs(dir, m, order, m[c]);
          assert m[c] in Desired(m);
          assert ReadsAs(d, m[c], c);
        }
        if c in l {
          WrittenIs(dir, m, order, l[c]);
          assert TrimSpace(d[l[c]]) == d[l[c]];
        }
      }
    }
    if l == m {
      LoadedInjective(d, listing);
      forall c | c in m
        ensures ValidName(m[c]) && c != "" && TrimSpace(c) == c
      {
        LoadedIs(d, listing, c);
        WrittenIs(dir, m, order, m[c]);
        TrimIdem(d[m[c]]);
      }
    }
  }

  /** A stale file is left because it cannot be removed. */
  ghost predicate LeavesStale(dir: Dir, m: Mapping, faults: Faults) {
    exists n :: n in dir && n in faults.removes && !Hidden(n) && n !in Desired(m)
  }

  /** Once all aliases have been written without an error and without a stale file left, loading them gives the mapping
      back exactly when it is storable, whatever was on disk, and in whatever order the map is iterated and the
      directory listed. */
  lemma StoreThenLoad(dir: Dir, m: Mapping, order: seq<string>, faults: Faults, listing: seq<string>)
    requires Enumerates(m, order) && WriteAllError(m, order, faults) == None && !LeavesStale(dir, m, faults)
    requires Enumerates(WriteAll(dir, m, order, faults), listing)
    ensures Loaded(WriteAll(dir, m, order, faults), listing) == m <==> Storable(m)
  {
    hide Desired, Loaded, Storable, FirstBreak, WriteEach;
    var all := WriteEach(dir, m, order);
    forall n | n in all && n in faults.removes && !Hidden(n)
      ensures n in Desired(m)
    {
      hide Writes;
      WriteEachIs(dir, m, order, n);
      WritesDesired(m, order, n);
    }
    assert WriteAll(dir, m, order, faults) == Written(dir, m, order);
    WrittenThenLoaded(dir, m, order, listing);
  }

  // ----- runs

  /** A process's view over loads, writes and removals. */
  datatype Op =
    | Load(dir: Dir, listing: seq<string>)
    | Write(alias: string, context: string, replaced: Option<string>)
    | Remove(alias: string)

  /** What `Write` may report as replaced. */
  ghost predicate Possible(m: Mapping, op: Op) {
    match op
    case Load(dir, listing) => forall n :: n in listing ==> n in dir
    case Write(alias, _, replaced) => Replaces(m, alias, replaced)
    case Remove(_) => true
  }

  function Apply(m: Mapping, op: Op): Mapping
    requires Possible(m, op)
  {
    match op
    case Load(dir, listing) => Loaded(dir, listing)
    case Write(alias, context, replaced) =>
      if ValidName(alias) then Rebound(m, alias, context, replaced) else m
    case Remove(alias) => Without(m, alias)
  }

  ghost predicate Legal(m: Mapping, ops: seq<Op>)
    decreases |ops|
  {
    ops != [] ==> Possible(m, ops[0]) && Legal(Apply(m, ops[0]), ops[1..])
  }

  function Run(m: Mapping, ops: seq<Op>): Mapping
    requires Legal(m, ops)
    decreases |ops|
  {
    if ops == [] then m else Run(Apply(m, ops[0]), ops[1..])
  }

  lemma ApplyInjective(m: Mapping, op: Op)
    requires Injective(m) && Possible(m, op)
    ensures Injective(Apply(m, op))
  {
    match op
    case Load(dir, listing) => LoadedInjective(dir, listing);
    case Write(alias, context, replaced) =>
      forall c | c in m && m[c] == alias
        ensures replaced == Some(c)
      {
        assert alias in m.Values;
      }
    case Remove(_) =>
  }

  /** Writing an alias changes the memory unless the alias is already the one of that context, and that is the context
      reported. */
  lemma ReboundSameIff(m: Mapping, alias: string, context: string, r: Option<string>)
    requires Replaces(m, alias, r)
    ensures Rebound(m, alias, context, r) == m <==> r == Some(context)
    ensures Injective(m) ==> (Rebound(m, alias, context, r) == m <==> context in m && m[context] == alias)
  {
    var after := Rebound(m, alias, context, r);
    assert context in after && after[context] == alias;
    if context in m && m[context] == alias {
      assert alias in m.Values;
    }
    if r == Some(context) {
      assert after == m;
    } else if r.Some? {
      assert r.value !in after;
    }
  }

  /** Into an empty directory whose files cannot be written: the write fails, and the memory has the alias. */
  method FailedWrite(alias: string, context: string) returns (error: Option<Error>, memory: Option<Mapping>, disk: Dir)
    requires ValidName(alias)
    ensures error == Some(FileError(alias)) && memory == Some(map[context := alias]) && disk == map[]
  {
    var a := new Alias(map[]);
    var empty: Mapping := map[];
    assert a.Contexts() == empty;
    forall r | Replaces(empty, alias, r)
      ensures Rebound(empty, alias, context, r) == map[context := alias]
    {
      assert empty - {} == empty;
    }
    var replaced;
    replaced, error := a.WriteAlias(alias, context, Faults(false, {alias}, false, {}));
    memory, disk := a.content, a.dir;
  }

  /** Over every run no alias ever stands for two contexts. */
  lemma {:induction false} RunInjective(m: Mapping, ops: seq<Op>)
    requires Injective(m) && Legal(m, ops)
    ensures Injective(Run(m, ops))
    decreases |ops|
  {
    if ops != [] {
      ApplyInjective(m, ops[0]);
      RunInjective(Apply(m, ops[0]), ops[1..]);
    }
  }
}
