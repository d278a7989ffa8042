/** Editing a kubeconfig document: contexts, the clusters and users they name, and the current context. */
module Kubeconfig {
  import opened Lists
  import opened Yaml
  import opened Upsert
  import Text

  const CONTEXTS := "contexts"
  const CLUSTERS := "clusters"
  const USERS := "users"
  const CURRENT := "current-context"
  const DEFAULT_NAMESPACE := "default"

  datatype Error = NoContexts | ContextsNotSequence | ContextNotFound(name: string) | CurrentContextUnset

  datatype Result<+T> = Success(value: T) | Failure(error: Error)

  // ----- specification

  /** The document with the elements of a sequence section replaced; a document without the section is unchanged. */
  function SetEntries(root: Node, key: string, entries: seq<Node>): Node {
    match ValueOf(root, key)
    case None => root
    case Some(n) => if n.kind == Sequence then Put(root, key, n.(content := entries)) else root
  }

  /** The text at `key` replaced in place, or a new pair appended. */
  function SetScalar(m: Node, key: string, value: string): Node {
    var j := KeyFrom(m.content, key, 0);
    Put(m, key, if j + 1 < |m.content| then m.content[j + 1].(value := value) else ScalarNode(value))
  }

  function CurrentContext(root: Node): string {
    ScalarValue(root, CURRENT)
  }

  /** What a context entry says under `context.<field>`. */
  function Field(e: Node, field: string): Option<string> {
    match ValueOf(e, "context")
    case None => None
    case Some(body) =>
      match ValueOf(body, field)
      case None => None
      case Some(v) => Some(v.value)
  }

  function Referenced(contexts: seq<Node>, field: string): set<string> {
    set e | e in contexts && Field(e, field).Some? :: Field(e, field).value
  }

  predicate NamedIn(e: Node, names: set<string>) {
    NameOf(e).Some? && NameOf(e).value in names
  }

  function NotNamed(name: string): Node -> bool {
    e => !Named(e, name)
  }

  function IsReferenced(contexts: seq<Node>, field: string): Node -> bool {
    e => NamedIn(e, Referenced(contexts, field))
  }

  function WithoutContext(contexts: seq<Node>, name: string): seq<Node> {
    Filter(NotNamed(name), contexts)
  }

  function OnlyReferenced(entries: seq<Node>, contexts: seq<Node>, field: string): seq<Node> {
    Filter(IsReferenced(contexts, field), entries)
  }

  /** A document section pruned to what the contexts reference through `field`. */
  function Pruned(root: Node, section: string, field: string): Node {
    SetEntries(root, section, OnlyReferenced(Entries(root, section), Entries(root, CONTEXTS), field))
  }

  function Removed(root: Node, name: string): Node {
    Pruned(
      Pruned(
        SetEntries(root, CONTEXTS, WithoutContext(Entries(root, CONTEXTS), name)),
        CLUSTERS, "cluster"),
      USERS, "user")
  }

  function ContextsNode(root: Node): Result<seq<Node>> {
    match ValueOf(root, CONTEXTS)
    case None => Failure(NoContexts)
    case Some(n) => if n.kind == Sequence then Success(n.content) else Failure(ContextsNotSequence)
  }

  predicate Called(e: Node, name: string) {
    ValueOf(e, "name").Some? && ValueOf(e, "name").value.kind == Scalar && ValueOf(e, "name").value.value == name
  }

  function FirstCalled(contexts: seq<Node>, name: string): (i: nat)
    ensures i <= |contexts|
    ensures i < |contexts| ==> Called(contexts[i], name)
    ensures forall k :: 0 <= k < i ==> !Called(contexts[k], name)
  {
    if contexts == [] || Called(contexts[0], name) then 0 else 1 + FirstCalled(contexts[1..], name)
  }

  /** The index of the first context called `name`. */
  function FindContext(root: Node, name: string): Result<nat> {
    match ContextsNode(root)
    case Failure(e) => Failure(e)
    case Success(contexts) =>
      var i := FirstCalled(contexts, name);
      if i < |contexts| then Success(i) else Failure(ContextNotFound(name))
  }

  function RenamedEntry(e: Node, name: string): Node {
    match ValueOf(e, "name")
    case None => e
    case Some(n) => Put(e, "name", n.(value := name))
  }

  function WithNamespace(e: Node, ns: string): Node {
    match ValueOf(e, "context")
    case None => Put(e, "context", Node(Mapping, "", [ScalarNode("namespace"), ScalarNode(ns)]))
    case Some(body) =>
      match ValueOf(body, "namespace")
      case Some(n) => Put(e, "context", Put(body, "namespace", n.(value := ns)))
      case None => Put(e, "context", body.(content := body.content + [ScalarNode("namespace"), ScalarNode(ns)]))
  }

  function EditContext(root: Node, name: string, edit: Node -> Node): Node {
    match FindContext(root, name)
    case Failure(_) => root
    case Success(i) =>
      var contexts := Entries(root, CONTEXTS);
      SetEntries(root, CONTEXTS, contexts[i := edit(contexts[i])])
  }

  function NamespacedRoot(root: Node, name: string, ns: string): Node {
    EditContext(root, name, e => WithNamespace(e, ns))
  }

  function RenamedRoot(root: Node, from: string, name: string): Node {
    EditContext(root, from, e => RenamedEntry(e, name))
  }

  function NamespaceOf(e: Node): string {
    match Field(e, "namespace")
    case None => DEFAULT_NAMESPACE
    case Some(ns) => if ns == "" then DEFAULT_NAMESPACE else ns
  }

  /** The context name behind an alias, without the store's prefix. */
  function Unprefixed(original: string, prefix: string): string {
    if prefix != "" && Text.HasPrefix(original, prefix) then Text.TrimPrefix(original, prefix + "/") else original
  }

  function Switched(root: Node, current: string, original: string, prefix: string): Result<Node> {
    if original == "" then Success(SetScalar(root, CURRENT, current))
    else
      match FindContext(root, Unprefixed(original, prefix))
      case Failure(e) => Failure(e)
      case Success(_) => Success(SetScalar(RenamedRoot(root, Unprefixed(original, prefix), current), CURRENT, current))
  }

  function ContextNames(contexts: seq<Node>): seq<string> {
    if contexts == [] then []
    else (if NameOf(contexts[0]).Some? then [NameOf(contexts[0]).value] else []) + ContextNames(contexts[1..])
  }

  ghost predicate AllNamed(entries: seq<Node>) {
    forall e :: e in entries ==> NameOf(e).Some?
  }

  /** A lookup stops at the first match; a context without a name before that makes the original crash. */
  ghost predicate Searchable(root: Node, name: string) {
    var contexts := Entries(root, CONTEXTS);
    forall k :: 0 <= k < |contexts| && k < FirstCalled(contexts, name) ==> NameOf(contexts[k]).Some?
  }

  // ----- the code

  method SetScalarIn(m: Node, key: string, value: string) returns (r: Node)
    requires |m.content| % 2 == 0
    ensures r == SetScalar(m, key, value)
  {
    for i := 0 to |m.content|
      invariant forall k :: 0 <= k < i && k % 2 == 0 ==> !IsKey(m.content[k], key)
    {
      if i % 2 == 0 && m.content[i].kind == Scalar && m.content[i].value == key {
        KeyFromIs(m.content, key, i);
        return m.(content := m.content[i + 1 := m.content[i + 1].(value := value)]);
      }
    }
    KeyFromIs(m.content, key, |m.content|);
    return m.(content := m.content + [ScalarNode(key), ScalarNode(value)]);
  }

  class Document {
    var rootNode: Node

    constructor (root: Node)
      requires root.kind == Mapping
      ensures rootNode == root
    {
      rootNode := root;
    }

    method GetCurrentContext() returns (name: string)
      ensures name == CurrentContext(rootNode)
    {
      var v := FindValue(rootNode, CURRENT);
      return if v.Some? then v.value.value else "";
    }

    method GetContexts() returns (r: Result<seq<Node>>)
      ensures r == ContextsNode(rootNode)
    {
      var contexts := FindValue(rootNode, CONTEXTS);
      if contexts == None {
        return Failure(NoContexts);
      } else if contexts.value.kind != Sequence {
        return Failure(ContextsNotSequence);
      }
      return Success(contexts.value.content);
    }

    method ContextNode(name: string) returns (r: Result<nat>)
      requires Searchable(rootNode, name)
      ensures r == FindContext(rootNode, name)
    {
      var contexts := GetContexts();
      if contexts.Failure? {
        return Failure(contexts.error);
      }
      for i := 0 to |contexts.value|
        invariant forall k :: 0 <= k < i ==> !Called(contexts.value[k], name)
      {
        var nameNode := FindValue(contexts.value[i], "name");
        NameIsThere(rootNode, contexts.value, name, i);
        if nameNode.value.kind == Scalar && nameNode.value.value == name {
          FirstCalledIs(contexts.value, name, i);
          return Success(i);
        }
      }
      FirstCalledIs(contexts.value, name, |contexts.value|);
      return Failure(ContextNotFound(name));
    }

    method GetContextNames() returns (r: Result<seq<string>>)
      ensures r == match ContextsNode(rootNode)
                   case Failure(e) => Failure(e)
                   case Success(contexts) => Success(ContextNames(contexts))
    {
      var contexts := GetContexts();
      if contexts.Failure? {
        return Failure(contexts.error);
      }
      var names: seq<string> := [];
      for i := 0 to |contexts.value|
        invariant names + ContextNames(contexts.value[i..]) == ContextNames(contexts.value)
      {
        var name := FindValue(contexts.value[i], "name");
        if name.Some? {
          names := names + [name.value.value];
        }
      }
      assert contexts.value[|contexts.value|..] == [];
      assert names + [] == names;
      return Success(names);
    }

    method ModifyCurrentContext(name: string)
      requires rootNode.kind == Mapping && |rootNode.content| % 2 == 0
      modifies this
      ensures rootNode == SetScalar(old(rootNode), CURRENT, name)
    {
      rootNode := SetScalarIn(rootNode, CURRENT, name);
    }

    method ModifyContextName(from: string, name: string) returns (error: Option<Error>)
      requires Searchable(rootNode, from)
      modifies this
      ensures rootNode == RenamedRoot(old(rootNode), from, name)
      ensures error == match FindContext(old(rootNode), from)
                       case Failure(e) => Some(e)
                       case Success(_) => None
    {
      var contexts := GetContexts();
      if contexts.Failure? {
        return Some(contexts.error);
      }
      for i := 0 to |contexts.value|
        invariant rootNode == old(rootNode)
        invariant forall k :: 0 <= k < i ==> !Called(contexts.value[k], from)
      {
        var nameNode := FindValue(contexts.value[i], "name");
        NameIsThere(rootNode, contexts.value, from, i);
        if nameNode.value.kind == Scalar && nameNode.value.value == from {
          FirstCalledIs(contexts.value, from, i);
          var entry := Put(contexts.value[i], "name", nameNode.value.(value := name));
          rootNode := SetEntries(rootNode, CONTEXTS, contexts.value[i := entry]);
          return None;
        }
      }
      FirstCalledIs(contexts.value, from, |contexts.value|);
      return Some(ContextNotFound(from));
    }

    method SetContext(current: string, original: string, prefix: string) returns (error: Option<Error>)
      requires IsMap(rootNode) && (original != "" ==> Searchable(rootNode, Unprefixed(original, prefix)))
      modifies this
      ensures match Switched(old(rootNode), current, original, prefix)
              case Failure(e) => error == Some(e) && rootNode == old(rootNode)
              case Success(root) => error == None && rootNode == root
    {
      if |original| > 0 {
        var name := original;
        if |prefix| > 0 && Text.HasPrefix(name, prefix) {
          name := Text.TrimPrefix(name, prefix + "/");
        }
        EditKeepsMap(rootNode, name, e => RenamedEntry(e, current));
        var failed := ModifyContextName(name, current);
        if failed.Some? {
          return failed;
        }
      }
      ModifyCurrentContext(current);
      return None;
    }

    method ReferencedContextField(field: string) returns (names: set<string>)
      ensures names == Referenced(Entries(rootNode, CONTEXTS), field)
    {
      names := {};
      var contexts := FindValue(rootNode, CONTEXTS);
      if contexts == None || contexts.value.kind != Sequence {
        return;
      }
      var entries := contexts.value.content;
      for i := 0 to |entries|
        invariant names == Referenced(entries[..i], field)
      {
        assert entries[..i + 1] == entries[..i] + [entries[i]];
        ReferencedSnoc(entries[..i], entries[i], field);
        var body := FindValue(entries[i], "context");
        if body == None {
          continue;
        }
        var v := FindValue(body.value, field);
        if v.Some? {
          names := names + {v.value.value};
        }
      }
      assert entries[..|entries|] == entries;
    }

    /** Serves clusters and users alike. */
    method RemoveOrphaned(section: string, field: string)
      modifies this
      ensures rootNode == Pruned(old(rootNode), section, field)
    {
      var entries := FindValue(rootNode, section);
      if entries == None || entries.value.kind != Sequence {
        return;
      }
      var names := ReferencedContextField(field);
      ghost var contexts := Entries(rootNode, CONTEXTS);
      var all := entries.value.content;
      var keep: seq<Node> := [];
      for i := 0 to |all|
        invariant rootNode == old(rootNode)
        invariant keep == OnlyReferenced(all[..i], contexts, field)
      {
        assert all[..i + 1] == all[..i] + [all[i]];
        FilterAppend(IsReferenced(contexts, field), all[..i], [all[i]]);
        var name := FindValue(all[i], "name");
        if name.Some? && name.value.value in names {
          keep := keep + [all[i]];
        }
      }
      assert all[..|all|] == all;
      rootNode := SetEntries(rootNode, section, keep);
    }

    method RemoveContext(name: string) returns (error: Option<Error>)
      requires AllNamed(Entries(rootNode, CONTEXTS))
      modifies this
      ensures match ContextsNode(old(rootNode))
              case Failure(e) => error == Some(e) && rootNode == old(rootNode)
              case Success(_) => error == None && rootNode == Removed(old(rootNode), name)
    {
      var contexts := GetContexts();
      if contexts.Failure? {
        return Some(contexts.error);
      }
      var all := contexts.value;
      var keep: seq<Node> := [];
      for i := 0 to |all|
        invariant rootNode == old(rootNode)
        invariant keep == WithoutContext(all[..i], name)
      {
        assert all[..i + 1] == all[..i] + [all[i]];
        FilterAppend(NotNamed(name), all[..i], [all[i]]);
        var contextName := FindValue(all[i], "name");
        if contextName.value.value == name {
          continue;
        }
        keep := keep + [all[i]];
      }
      assert all[..|all|] == all;
      rootNode := SetEntries(rootNode, CONTEXTS, keep);
      RemoveOrphaned(CLUSTERS, "cluster");
      RemoveOrphaned(USERS, "user");
      return None;
    }

    method SetNamespace(name: string, ns: string) returns (error: Option<Error>)
      requires Searchable(rootNode, name)
      modifies this
      ensures rootNode == NamespacedRoot(old(rootNode), name, ns)
      ensures error == match FindContext(old(rootNode), name)
                       case Failure(e) => Some(e)
                       case Success(_) => None
    {
      var found := ContextNode(name);
      if found.Failure? {
        return Some(found.error);
      }
      var contexts := GetContexts();
      var entry := contexts.value[found.value];
      var body := FindValue(entry, "context");
      var bodyWasEmpty := body == None;
      var bodyNode := if bodyWasEmpty then Node(Mapping, "", []) else body.value;
      var nsNode := FindValue(bodyNode, "namespace");
      if nsNode.Some? {
        bodyNode := Put(bodyNode, "namespace", nsNode.value.(value := ns));
      } else {
        bodyNode := bodyNode.(content := bodyNode.content + [ScalarNode("namespace"), ScalarNode(ns)]);
      }
      entry := Put(entry, "context", bodyNode);
      assert entry == WithNamespace(contexts.value[found.value], ns) by {
        if bodyWasEmpty {
          assert bodyNode.content == [ScalarNode("namespace"), ScalarNode(ns)];
        }
      }
      rootNode := SetEntries(rootNode, CONTEXTS, contexts.value[found.value := entry]);
      return None;
    }

    method NamespaceOfContext(name: string) returns (r: Result<string>)
      requires Searchable(rootNode, name)
      ensures r == match FindContext(rootNode, name)
                   case Failure(e) => Failure(e)
                   case Success(i) => Success(NamespaceOf(Entries(rootNode, CONTEXTS)[i]))
    {
      var found := ContextNode(name);
      if found.Failure? {
        return Failure(found.error);
      }
      var contexts := GetContexts();
      var body := FindValue(contexts.value[found.value], "context");
      if body == None {
        return Success(DEFAULT_NAMESPACE);
      }
      var ns := FindValue(body.value, "namespace");
      if ns == None || ns.value.value == "" {
        return Success(DEFAULT_NAMESPACE);
      }
      return Success(ns.value.value);
    }

    method SetNamespaceForCurrentContext(ns: string) returns (error: Option<Error>)
      requires CurrentContext(rootNode) != "" ==> Searchable(rootNode, CurrentContext(rootNode))
      modifies this
      ensures CurrentContext(old(rootNode)) == "" ==> error == Some(CurrentContextUnset) && rootNode == old(rootNode)
      ensures CurrentContext(old(rootNode)) != "" ==>
                && rootNode == NamespacedRoot(old(rootNode), CurrentContext(old(rootNode)), ns)
                && error == match FindContext(old(rootNode), CurrentContext(old(rootNode)))
                            case Failure(e) => Some(e)
                            case Success(_) => None
    {
      var current := GetCurrentContext();
      if |current| == 0 {
        return Some(CurrentContextUnset);
      }
      error := SetNamespace(current, ns);
    }
  }

  /** A lookup that has passed `i` contexts finds a name at the next one. */
  lemma NameIsThere(root: Node, contexts: seq<Node>, name: string, i: nat)
    requires Searchable(root, name) && contexts == Entries(root, CONTEXTS)
    requires i < |contexts| && forall k :: 0 <= k < i ==> !Called(contexts[k], name)
    ensures ValueOf(contexts[i], "name").Some?
  {
    assert i <= FirstCalled(contexts, name);
    if i < FirstCalled(contexts, name) {
      assert NameOf(contexts[i]).Some?;
    }
  }

  lemma {:induction false} FirstCalledIs(contexts: seq<Node>, name: string, i: nat)
    requires i <= |contexts|
    requires i < |contexts| ==> Called(contexts[i], name)
    requires forall k :: 0 <= k < i ==> !Called(contexts[k], name)
    ensures FirstCalled(contexts, name) == i
  {
  }

  lemma ReferencedSnoc(contexts: seq<Node>, e: Node, field: string)
    ensures Referenced(contexts + [e], field)
            == Referenced(contexts, field) + (if Field(e, field).Some? then {Field(e, field).value} else {})
  {
    assert e in contexts + [e];
    forall c | c in contexts ensures c in contexts + [e] {}
  }

  // ----- laws of the section updates

  lemma SetGet(root: Node, key: string, entries: seq<Node>, other: string)
    requires IsMap(root)
    ensures IsMap(SetEntries(root, key, entries))
    ensures other != key ==> ValueOf(SetEntries(root, key, entries), other) == ValueOf(root, other)
    ensures Entries(SetEntries(root, key, entries), other)
            == if other == key && ContainsSection(root, key) then entries else Entries(root, other)
    ensures ContainsSection(SetEntries(root, key, entries), other) == ContainsSection(root, other)
  {
    if ContainsSection(root, key) {
      PutGet(root, key, ValueOf(root, key).value.(content := entries), other);
    }
  }

  predicate ContainsSection(root: Node, key: string) {
    ValueOf(root, key).Some? && ValueOf(root, key).value.kind == Sequence
  }

  lemma EditKeepsMap(root: Node, name: string, edit: Node -> Node)
    requires IsMap(root)
    ensures IsMap(EditContext(root, name, edit))
  {
    match FindContext(root, name)
    case Failure(_) =>
    case Success(i) =>
      SetGet(root, CONTEXTS, Entries(root, CONTEXTS)[i := edit(Entries(root, CONTEXTS)[i])], CONTEXTS);
  }

  lemma SetSet(root: Node, key: string, a: seq<Node>, b: seq<Node>)
    requires IsMap(root)
    ensures SetEntries(SetEntries(root, key, a), key, b) == SetEntries(root, key, b)
  {
    if ContainsSection(root, key) {
      var n := ValueOf(root, key).value;
      PutGet(root, key, n.(content := a), key);
      PutPut(root, key, n.(content := a), n.(content := b));
    }
  }

  lemma SetCommute(root: Node, k: string, a: seq<Node>, l: string, b: seq<Node>)
    requires IsMap(root) && k != l
    ensures SetEntries(SetEntries(root, k, a), l, b) == SetEntries(SetEntries(root, l, b), k, a)
  {
    SetGet(root, k, a, l);
    SetGet(root, l, b, k);
    if ContainsSection(root, k) && ContainsSection(root, l) {
      PutCommute(root, k, ValueOf(root, k).value.(content := a), l, ValueOf(root, l).value.(content := b));
    }
  }

  /** All three sections replaced at once. */
  function Sections(root: Node, contexts: seq<Node>, clusters: seq<Node>, users: seq<Node>): Node {
    SetEntries(SetEntries(SetEntries(root, CONTEXTS, contexts), CLUSTERS, clusters), USERS, users)
  }

  lemma SectionsGet(root: Node, c: seq<Node>, l: seq<Node>, u: seq<Node>, key: string)
    requires IsMap(root)
    ensures IsMap(Sections(root, c, l, u))
    ensures key !in {CONTEXTS, CLUSTERS, USERS} ==> ValueOf(Sections(root, c, l, u), key) == ValueOf(root, key)
    ensures Entries(Sections(root, c, l, u), key)
            == if !ContainsSection(root, key) then []
               else if key == CONTEXTS then c else if key == CLUSTERS then l else if key == USERS then u
               else Entries(root, key)
    ensures ContainsSection(Sections(root, c, l, u), key) == ContainsSection(root, key)
  {
    var r1 := SetEntries(root, CONTEXTS, c);
    var r2 := SetEntries(r1, CLUSTERS, l);
    SetGet(root, CONTEXTS, c, key);
    SetGet(root, CONTEXTS, c, CLUSTERS);
    SetGet(root, CONTEXTS, c, USERS);
    SetGet(r1, CLUSTERS, l, key);
    SetGet(r1, CLUSTERS, l, USERS);
    SetGet(r2, USERS, u, key);
  }

  lemma SectionsOverwrite(root: Node, c: seq<Node>, l: seq<Node>, u: seq<Node>,
                          c': seq<Node>, l': seq<Node>, u': seq<Node>)
    requires IsMap(root)
    ensures Sections(Sections(root, c, l, u), c', l', u') == Sections(root, c', l', u')
  {
    var rc := SetEntries(root, CONTEXTS, c);
    var rcl := SetEntries(rc, CLUSTERS, l);
    SectionsGet(root, c, l, u, USERS);
    SetGet(root, CONTEXTS, c, CLUSTERS);
    SetGet(rc, CLUSTERS, l, USERS);
    // move the new contexts inwards, then the new clusters, then the new users
    SetCommute(rcl, USERS, u, CONTEXTS, c');
    SetCommute(rc, CLUSTERS, l, CONTEXTS, c');
    SetSet(root, CONTEXTS, c, c');
    var rc' := SetEntries(root, CONTEXTS, c');
    SetGet(root, CONTEXTS, c', CLUSTERS);
    SetGet(rc', CLUSTERS, l, USERS);
    SetCommute(SetEntries(rc', CLUSTERS, l), USERS, u, CLUSTERS, l');
    SetSet(rc', CLUSTERS, l, l');
    SetGet(rc', CLUSTERS, l', USERS);
    SetSet(SetEntries(rc', CLUSTERS, l'), USERS, u, u');
  }

  // ----- removal

  /** The section contents a removal leaves: the other contexts, and what those reference. */
  lemma RemovedIs(root: Node, name: string)
    requires IsMap(root)
    ensures var kept := WithoutContext(Entries(root, CONTEXTS), name);
            Removed(root, name) == Sections(root, kept,
              OnlyReferenced(Entries(root, CLUSTERS), kept, "cluster"),
              OnlyReferenced(Entries(root, USERS), kept, "user"))
  {
    var kept := WithoutContext(Entries(root, CONTEXTS), name);
    var r1 := SetEntries(root, CONTEXTS, kept);
    var r2 := Pruned(r1, CLUSTERS, "cluster");
    SetGet(root, CONTEXTS, kept, CONTEXTS);
    SetGet(root, CONTEXTS, kept, CLUSTERS);
    SetGet(root, CONTEXTS, kept, USERS);
    if !ContainsSection(root, CONTEXTS) {
      assert kept == [];
    }
    var clusters := OnlyReferenced(Entries(r1, CLUSTERS), kept, "cluster");
    SetGet(r1, CLUSTERS, clusters, CONTEXTS);
    SetGet(r1, CLUSTERS, clusters, USERS);
  }

  /** After a removal the document holds exactly the other contexts and exactly the named clusters and users they
      reference, in order. */
  lemma RemovedSections(root: Node, name: string)
    requires IsMap(root)
    ensures var after := Removed(root, name);
            var contexts := Entries(after, CONTEXTS);
            && contexts == WithoutContext(Entries(root, CONTEXTS), name)
            && Entries(after, CLUSTERS) == OnlyReferenced(Entries(root, CLUSTERS), contexts, "cluster")
            && Entries(after, USERS) == OnlyReferenced(Entries(root, USERS), contexts, "user")
            && CurrentContext(after) == CurrentContext(root)
            && IsMap(after)
  {
    RemovedIs(root, name);
    var kept := WithoutContext(Entries(root, CONTEXTS), name);
    var l := OnlyReferenced(Entries(root, CLUSTERS), kept, "cluster");
    var u := OnlyReferenced(Entries(root, USERS), kept, "user");
    SectionsGet(root, kept, l, u, CONTEXTS);
    SectionsGet(root, kept, l, u, CLUSTERS);
    SectionsGet(root, kept, l, u, USERS);
    SectionsGet(root, kept, l, u, CURRENT);
  }

  lemma RemovedTwice(root: Node, a: string, b: string)
    requires IsMap(root)
    ensures var kept := WithoutContext(WithoutContext(Entries(root, CONTEXTS), a), b);
            Removed(Removed(root, a), b) == Sections(root, kept,
              OnlyReferenced(Entries(root, CLUSTERS), kept, "cluster"),
              OnlyReferenced(Entries(root, USERS), kept, "user"))
  {
    var once := WithoutContext(Entries(root, CONTEXTS), a);
    var twice := WithoutContext(once, b);
    RemovedIs(root, a);
    RemovedSections(root, a);
    RemovedIs(Removed(root, a), b);
    PruneAgain(Entries(root, CLUSTERS), once, b, "cluster");
    PruneAgain(Entries(root, USERS), once, b, "user");
    SectionsOverwrite(root, once,
      OnlyReferenced(Entries(root, CLUSTERS), once, "cluster"), OnlyReferenced(Entries(root, USERS), once, "user"),
      twice,
      OnlyReferenced(Entries(root, CLUSTERS), twice, "cluster"), OnlyReferenced(Entries(root, USERS), twice, "user"));
  }

  /** Pruning for fewer contexts absorbs an earlier pruning. */
  lemma PruneAgain(entries: seq<Node>, contexts: seq<Node>, name: string, field: string)
    ensures var fewer := WithoutContext(contexts, name);
            OnlyReferenced(OnlyReferenced(entries, contexts, field), fewer, field)
            == OnlyReferenced(entries, fewer, field)
  {
    var fewer := WithoutContext(contexts, name);
    ReferencedShrinks(contexts, name, field);
    FilterTwice(IsReferenced(fewer, field), IsReferenced(contexts, field), IsReferenced(fewer, field), entries);
  }

  lemma ReferencedShrinks(contexts: seq<Node>, name: string, field: string)
    ensures Referenced(WithoutContext(contexts, name), field) <= Referenced(contexts, field)
  {
    forall e | e in WithoutContext(contexts, name)
      ensures e in contexts
    {
      FilterMember(NotNamed(name), contexts, e);
    }
  }

  /** Removals of two contexts commute on the whole document. */
  lemma RemoveCommutes(root: Node, a: string, b: string)
    requires IsMap(root)
    ensures Removed(Removed(root, a), b) == Removed(Removed(root, b), a)
  {
    RemovedTwice(root, a, b);
    RemovedTwice(root, b, a);
    FilterSwap(NotNamed(a), NotNamed(b), Entries(root, CONTEXTS));
  }

  /** Removing a context twice is removing it once. */
  lemma RemoveIdempotent(root: Node, a: string)
    requires IsMap(root)
    ensures Removed(Removed(root, a), a) == Removed(root, a)
  {
    RemovedTwice(root, a, a);
    RemovedIs(root, a);
    FilterTwice(NotNamed(a), NotNamed(a), NotNamed(a), Entries(root, CONTEXTS));
  }
}
