/** Merging one kubeconfig into another, and what any sequence of merges and edits keeps. */
module Merge {
  import opened Lists
  import opened Yaml
  import opened Upsert
  import opened Kubeconfig

  // ----- specification

  function MergedSection(dst: Node, src: Node, section: string): Node {
    match ValueOf(src, section)
    case None => dst
    case Some(srcSeq) =>
      if srcSeq.kind != Sequence then dst
      else
        match ValueOf(dst, section)
        case None =>
          dst.(content := dst.content + [ScalarNode(section), Node(Sequence, "", PutAll([], srcSeq.content))])
        case Some(dstSeq) => Put(dst, section, dstSeq.(content := PutAll(dstSeq.content, srcSeq.content)))
  }

  function MergedAll(dst: Node, src: Node, sections: seq<string>): Node
    decreases |sections|
  {
    if sections == [] then dst else MergedAll(MergedSection(dst, src, sections[0]), src, sections[1..])
  }

  function Merged(dst: Node, src: Node): Node {
    var all := MergedAll(dst, src, [CLUSTERS, CONTEXTS, USERS]);
    var current := CurrentContext(src);
    if current != "" then SetScalar(all, CURRENT, current) else all
  }

  // ----- the code

  method MergeSection(dst: Node, src: Node, section: string) returns (root: Node)
    ensures root == MergedSection(dst, src, section)
    ensures |dst.content| % 2 == 0 ==> |root.content| % 2 == 0
  {
    root := dst;
    var srcSeq := FindValue(src, section);
    if srcSeq == None || srcSeq.value.kind != Sequence {
      return;
    }
    var dstSeq := FindValue(root, section);
    var absent := dstSeq == None;
    var seqNode := if absent then Node(Sequence, "", []) else dstSeq.value;
    var entries := UpsertEntries(seqNode.content, srcSeq.value.content);
    seqNode := seqNode.(content := entries);
    if absent {
      root := root.(content := root.content + [ScalarNode(section), seqNode]);
    } else {
      root := Put(root, section, seqNode);
    }
  }

  method MergeKubeconfigs(dst: Node, src: Node) returns (root: Node)
    requires |dst.content| % 2 == 0
    ensures root == Merged(dst, src)
  {
    hide MergedSection, SetScalar;
    root := dst;
    var sections := [CLUSTERS, CONTEXTS, USERS];
    for i := 0 to |sections|
      invariant |root.content| % 2 == 0
      invariant MergedAll(root, src, sections[i..]) == MergedAll(dst, src, sections)
    {
      root := MergeSection(root, src, sections[i]);
    }
    var current := FindValue(src, CURRENT);
    if current.Some? && current.value.value != "" {
      root := SetScalarIn(root, CURRENT, current.value.value);
    }
  }

  // ----- what a merge does to each section

  /** What becomes of a section's value, given the values on both sides. */
  function MergedValue(dst: Option<Node>, src: Option<Node>): Option<Node> {
    if src == None || src.value.kind != Sequence then dst
    else if dst == None then Some(Node(Sequence, "", PutAll([], src.value.content)))
    else Some(dst.value.(content := PutAll(dst.value.content, src.value.content)))
  }

  lemma MergedSectionGet(dst: Node, src: Node, section: string, other: string)
    requires IsMap(dst)
    ensures IsMap(MergedSection(dst, src, section))
    ensures ValueOf(MergedSection(dst, src, section), other)
            == if other == section then MergedValue(ValueOf(dst, section), ValueOf(src, section))
               else ValueOf(dst, other)
  {
    var v := MergedValue(ValueOf(dst, section), ValueOf(src, section));
    if ContainsSection(src, section) {
      assert MergedSection(dst, src, section) == Put(dst, section, v.value);
      PutGet(dst, section, v.value, other);
    }
  }

  lemma {:induction false} PutAllMembers(dst: seq<Node>, src: seq<Node>, e: Node)
    requires e in PutAll(dst, src)
    ensures e in dst || e in src
    decreases |src|
  {
    if src != [] {
      PutAllMembers(Put1(dst, src[0]), src[1..], e);
    }
  }

  lemma LookupIff(entries: seq<Node>, name: string)
    ensures Lookup(entries, name).Some? <==> HasName(entries, name)
  {
  }

  /** A name is in the merged section exactly when one of the two sides has it. */
  lemma MergedNames(dst: seq<Node>, src: seq<Node>, name: string)
    ensures HasName(PutAll(dst, src), name) <==> HasName(dst, name) || HasName(src, name)
  {
    MergeLookup(dst, src, name);
    LastNamedIff(src, name);
    LookupIff(dst, name);
    LookupIff(PutAll(dst, src), name);
  }

  /** A destination section holding something other than a sequence, such as `contexts: null`, swallows the merge: the
      source's named entries are found in the result exactly when the section is absent, a sequence, or not needed. */
  lemma MergeDelivers(dst: Node, src: Node, section: string)
    requires IsMap(dst) && ContainsSection(src, section)
    ensures (forall name :: HasName(Entries(src, section), name) ==>
               HasName(Entries(MergedSection(dst, src, section), section), name))
       <==> ValueOf(dst, section) == None || ContainsSection(dst, section)
            || forall e :: e in Entries(src, section) ==> NameOf(e) == None
  {
    var srcEntries := Entries(src, section);
    var after := Entries(MergedSection(dst, src, section), section);
    MergedSectionGet(dst, src, section, section);
    if ValueOf(dst, section) == None || ContainsSection(dst, section) {
      forall name | HasName(srcEntries, name)
        ensures HasName(after, name)
      {
        MergedNames(Entries(dst, section), srcEntries, name);
      }
    } else if e :| e in srcEntries && NameOf(e).Some? {
      var i :| 0 <= i < |srcEntries| && srcEntries[i] == e;
      assert Named(srcEntries[i], NameOf(e).value);
      assert HasName(srcEntries, NameOf(e).value) && !HasName(after, NameOf(e).value);
    } else {
      forall i | 0 <= i < |srcEntries|
        ensures NameOf(srcEntries[i]) == None
      {
        assert srcEntries[i] in srcEntries;
      }
    }
  }

  // ----- referential closure

  /** A kubeconfig with this value at `contexts`. */
  function WithContexts(v: Node): Node {
    Node(Mapping, "", [ScalarNode(CONTEXTS), v])
  }

  /** `contexts: null` in the target loses the one context merged into it. */
  lemma NullSwallows(name: string)
    ensures var dst := WithContexts(ScalarNode("null"));
            var src := WithContexts(Node(Sequence, "", [PlainEntry(name, "")]));
            && IsMap(dst) && ContainsSection(src, CONTEXTS)
            && HasName(Entries(src, CONTEXTS), name)
            && !HasName(Entries(MergedSection(dst, src, CONTEXTS), CONTEXTS), name)
  {
    var dst := WithContexts(ScalarNode("null"));
    var src := WithContexts(Node(Sequence, "", [PlainEntry(name, "")]));
    PlainEntryName(name, "");
    KeyFromIs(dst.content, CONTEXTS, 0);
    KeyFromIs(src.content, CONTEXTS, 0);
    MergedSectionGet(dst, src, CONTEXTS, CONTEXTS);
    assert Named(Entries(src, CONTEXTS)[0], name);
  }

  /** Every reference the contexts make through `field` names one of `targets`. */
  ghost predicate Resolves(contexts: seq<Node>, field: string, targets: seq<Node>) {
    forall e :: e in contexts && Field(e, field).Some? ==> HasName(targets, Field(e, field).value)
  }

  /** A context entry: a named mapping whose body, when there is one, is a mapping. */
  predicate TidyContext(e: Node) {
    && IsMap(e)
    && ValueOf(e, "name").Some? && ValueOf(e, "name").value.kind == Scalar
    && (ValueOf(e, "context").Some? ==> IsMap(ValueOf(e, "context").value))
  }

  ghost predicate Tidy(root: Node) {
    && IsMap(root)
    && (forall s :: s in {CONTEXTS, CLUSTERS, USERS} && ValueOf(root, s).Some? ==> ContainsSection(root, s))
    && (forall e :: e in Entries(root, CONTEXTS) ==> TidyContext(e))
  }

  ghost predicate Closed(root: Node) {
    && Tidy(root)
    && Resolves(Entries(root, CONTEXTS), "cluster", Entries(root, CLUSTERS))
    && Resolves(Entries(root, CONTEXTS), "user", Entries(root, USERS))
  }

  /** The current context, when set, is one of the contexts. */
  ghost predicate CurrentExists(root: Node) {
    CurrentContext(root) == "" || HasName(Entries(root, CONTEXTS), CurrentContext(root))
  }

  lemma SetScalarGet(m: Node, key: string, value: string, other: string)
    requires IsMap(m)
    ensures IsMap(SetScalar(m, key, value))
    ensures other != key ==> ValueOf(SetScalar(m, key, value), other) == ValueOf(m, other)
    ensures ScalarValue(SetScalar(m, key, value), key) == value
  {
    var j := KeyFrom(m.content, key, 0);
    var v := if j + 1 < |m.content| then m.content[j + 1].(value := value) else ScalarNode(value);
    PutGet(m, key, v, other);
    PutGet(m, key, v, key);
  }

  lemma MergedAllThree(dst: Node, src: Node)
    ensures MergedAll(dst, src, [CLUSTERS, CONTEXTS, USERS])
            == MergedSection(MergedSection(MergedSection(dst, src, CLUSTERS), src, CONTEXTS), src, USERS)
  {
    assert [CLUSTERS, CONTEXTS, USERS][1..] == [CONTEXTS, USERS];
    assert [CONTEXTS, USERS][1..] == [USERS];
    assert [USERS][1..] == [];
    var r1 := MergedSection(dst, src, CLUSTERS);
    var r2 := MergedSection(r1, src, CONTEXTS);
    assert MergedAll(r2, src, [USERS]) == MergedSection(r2, src, USERS);
    assert MergedAll(r1, src, [CONTEXTS, USERS]) == MergedAll(r2, src, [USERS]);
  }

  lemma MergedGet(dst: Node, src: Node, key: string)
    requires IsMap(dst)
    ensures IsMap(Merged(dst, src))
    ensures key in {CONTEXTS, CLUSTERS, USERS} ==>
              ValueOf(Merged(dst, src), key) == MergedValue(ValueOf(dst, key), ValueOf(src, key))
    ensures CurrentContext(Merged(dst, src))
         == if CurrentContext(src) != "" then CurrentContext(src) else CurrentContext(dst)
  {
    var r1 := MergedSection(dst, src, CLUSTERS);
    var r2 := MergedSection(r1, src, CONTEXTS);
    var r3 := MergedSection(r2, src, USERS);
    MergedAllThree(dst, src);
    MergedSectionGet(dst, src, CLUSTERS, key);
    MergedSectionGet(r1, src, CONTEXTS, key);
    MergedSectionGet(r2, src, USERS, key);
    MergedSectionGet(dst, src, CLUSTERS, CURRENT);
    MergedSectionGet(r1, src, CONTEXTS, CURRENT);
    MergedSectionGet(r2, src, USERS, CURRENT);
    if CurrentContext(src) != "" {
      SetScalarGet(r3, CURRENT, CurrentContext(src), key);
    }
  }

  lemma MergedSections(dst: Node, src: Node, s: string)
    requires Tidy(dst) && Tidy(src) && s in {CONTEXTS, CLUSTERS, USERS}
    ensures Entries(Merged(dst, src), s) == PutAll(Entries(dst, s), Entries(src, s))
    ensures ValueOf(Merged(dst, src), s).Some? ==> ContainsSection(Merged(dst, src), s)
  {
    MergedGet(dst, src, s);
  }

  /** Merging closed documents gives a closed document whose current context exists. */
  lemma MergeCloses(dst: Node, src: Node)
    requires Closed(dst) && Closed(src)
    ensures Closed(Merged(dst, src))
    ensures CurrentExists(dst) && CurrentExists(src) ==> CurrentExists(Merged(dst, src))
  {
    var root := Merged(dst, src);
    MergedGet(dst, src, CONTEXTS);
    MergedSections(dst, src, CONTEXTS);
    MergedSections(dst, src, CLUSTERS);
    MergedSections(dst, src, USERS);
    forall e | e in Entries(root, CONTEXTS)
      ensures TidyContext(e)
      ensures Field(e, "cluster").Some? ==> HasName(Entries(root, CLUSTERS), Field(e, "cluster").value)
      ensures Field(e, "user").Some? ==> HasName(Entries(root, USERS), Field(e, "user").value)
    {
      PutAllMembers(Entries(dst, CONTEXTS), Entries(src, CONTEXTS), e);
      if Field(e, "cluster").Some? {
        MergedNames(Entries(dst, CLUSTERS), Entries(src, CLUSTERS), Field(e, "cluster").value);
      }
      if Field(e, "user").Some? {
        MergedNames(Entries(dst, USERS), Entries(src, USERS), Field(e, "user").value);
      }
    }
    MergedNames(Entries(dst, CONTEXTS), Entries(src, CONTEXTS), CurrentContext(root));
  }

  lemma FilteredNames(entries: seq<Node>, keep: Node -> bool, name: string)
    requires forall e :: e in entries && Named(e, name) ==> keep(e)
    ensures HasName(Filter(keep, entries), name) <==> HasName(entries, name)
  {
    var kept := Filter(keep, entries);
    if i :| 0 <= i < |entries| && Named(entries[i], name) {
      FilterMember(keep, entries, entries[i]);
      var k :| 0 <= k < |kept| && kept[k] == entries[i];
      assert Named(kept[k], name);
    }
    if k :| 0 <= k < |kept| && Named(kept[k], name) {
      FilterMember(keep, entries, kept[k]);
      var i :| 0 <= i < |entries| && entries[i] == kept[k];
      assert Named(entries[i], name);
    }
  }

  lemma PrunedResolves(contexts: seq<Node>, kept: seq<Node>, field: string, targets: seq<Node>)
    requires Resolves(contexts, field, targets)
    requires forall e :: e in kept ==> e in contexts
    ensures Resolves(kept, field, OnlyReferenced(targets, kept, field))
  {
    forall e | e in kept && Field(e, field).Some?
      ensures HasName(OnlyReferenced(targets, kept, field), Field(e, field).value)
    {
      var name := Field(e, field).value;
      assert name in Referenced(kept, field);
      FilteredNames(targets, IsReferenced(kept, field), name);
    }
  }

  /** Removing a context keeps the document closed. */
  lemma RemoveCloses(root: Node, name: string)
    requires Closed(root)
    ensures Closed(Removed(root, name))
  {
    var contexts := Entries(root, CONTEXTS);
    var kept := WithoutContext(contexts, name);
    RemovedIs(root, name);
    RemovedSections(root, name);
    var l := OnlyReferenced(Entries(root, CLUSTERS), kept, "cluster");
    var u := OnlyReferenced(Entries(root, USERS), kept, "user");
    forall s | s in {CONTEXTS, CLUSTERS, USERS} {
      SectionsGet(root, kept, l, u, s);
    }
    SectionKinds(root, kept, l, u);
    forall e | e in kept
      ensures e in contexts
    {
      FilterMember(NotNamed(name), contexts, e);
    }
    PrunedResolves(contexts, kept, "cluster", Entries(root, CLUSTERS));
    PrunedResolves(contexts, kept, "user", Entries(root, USERS));
  }

  lemma SectionKinds(root: Node, c: seq<Node>, l: seq<Node>, u: seq<Node>)
    requires Tidy(root)
    ensures forall s :: s in {CONTEXTS, CLUSTERS, USERS} && ValueOf(Sections(root, c, l, u), s).Some? ==>
              ContainsSection(Sections(root, c, l, u), s)
  {
    forall s | s in {CONTEXTS, CLUSTERS, USERS} && ValueOf(Sections(root, c, l, u), s).Some?
      ensures ContainsSection(Sections(root, c, l, u), s)
    {
      SectionsGet(root, c, l, u, s);
      if !ContainsSection(root, s) {
        AbsentStays(root, c, l, u, s);
      }
    }
  }

  lemma AbsentStays(root: Node, c: seq<Node>, l: seq<Node>, u: seq<Node>, s: string)
    requires IsMap(root) && ValueOf(root, s) == None
    ensures ValueOf(Sections(root, c, l, u), s) == None
  {
    var r1 := SetEntries(root, CONTEXTS, c);
    var r2 := SetEntries(r1, CLUSTERS, l);
    SetGet(root, CONTEXTS, c, s);
    SetGet(r1, CLUSTERS, l, s);
    SetGet(r2, USERS, u, s);
  }

  /** A removal leaves the current context in place exactly when it removes some other context. */
  lemma RemoveKeepsCurrentIff(root: Node, name: string)
    requires IsMap(root) && CurrentExists(root) && CurrentContext(root) != ""
    ensures CurrentExists(Removed(root, name)) <==> name != CurrentContext(root)
  {
    RemovedSections(root, name);
    var contexts := Entries(root, CONTEXTS);
    var current := CurrentContext(root);
    if name != current {
      FilteredNames(contexts, NotNamed(name), current);
    } else {
      var kept := WithoutContext(contexts, name);
      if k :| 0 <= k < |kept| && Named(kept[k], name) {
        FilterMember(NotNamed(name), contexts, kept[k]);
      }
    }
  }

  // ----- edits of one context entry

  /** The edited entry is still tidy and references what it referenced before. */
  predicate KeepsReferences(e: Node, edited: Node) {
    && TidyContext(edited)
    && Field(edited, "cluster") == Field(e, "cluster")
    && Field(edited, "user") == Field(e, "user")
  }

  lemma EditGet(root: Node, name: string, edit: Node -> Node)
    requires IsMap(root)
    ensures var after := EditContext(root, name, edit);
            && IsMap(after)
            && (forall k :: k != CONTEXTS ==> ValueOf(after, k) == ValueOf(root, k))
            && (ValueOf(after, CONTEXTS).Some? <==> ValueOf(root, CONTEXTS).Some?)
            && ContainsSection(after, CONTEXTS) == ContainsSection(root, CONTEXTS)
            && (FindContext(root, name).Failure? ==> after == root)
            && (FindContext(root, name).Success? ==>
                  var i := FindContext(root, name).value;
                  && i < |Entries(root, CONTEXTS)|
                  && Entries(after, CONTEXTS) == Entries(root, CONTEXTS)[i := edit(Entries(root, CONTEXTS)[i])])
  {
    match FindContext(root, name)
    case Failure(_) =>
    case Success(i) =>
      var contexts := Entries(root, CONTEXTS);
      var edited := contexts[i := edit(contexts[i])];
      forall k { SetGet(root, CONTEXTS, edited, k); }
      SetGet(root, CONTEXTS, edited, CONTEXTS);
  }

  lemma ReplacedResolves(contexts: seq<Node>, i: nat, edited: Node, field: string, targets: seq<Node>)
    requires i < |contexts| && Resolves(contexts, field, targets) && Field(edited, field) == Field(contexts[i], field)
    ensures Resolves(contexts[i := edited], field, targets)
  {
    var after := contexts[i := edited];
    forall e | e in after && Field(e, field).Some?
      ensures HasName(targets, Field(e, field).value)
    {
      var k :| 0 <= k < |after| && after[k] == e;
      assert contexts[k] in contexts;
    }
  }

  lemma EditCloses(root: Node, name: string, edit: Node -> Node)
    requires Closed(root)
    requires FindContext(root, name).Success? ==>
               var e := Entries(root, CONTEXTS)[FindContext(root, name).value];
               KeepsReferences(e, edit(e))
    ensures Closed(EditContext(root, name, edit))
  {
    hide Field, ValueOf, TidyContext, FindContext, EditContext, HasName;
    EditGet(root, name, edit);
    match FindContext(root, name)
    case Failure(_) =>
    case Success(i) =>
      var contexts := Entries(root, CONTEXTS);
      var edited := edit(contexts[i]);
      assert contexts[i] in contexts;
      ReplacedResolves(contexts, i, edited, "cluster", Entries(root, CLUSTERS));
      ReplacedResolves(contexts, i, edited, "user", Entries(root, USERS));
      forall e | e in contexts[i := edited]
        ensures TidyContext(e)
      {
        var k :| 0 <= k < |contexts| && contexts[i := edited][k] == e;
        assert contexts[k] in contexts;
      }
  }

  /** Setting the namespace of an entry is read back, and changes neither its name nor its references. */
  lemma NamespaceEntry(e: Node, ns: string)
    requires TidyContext(e)
    ensures var after := WithNamespace(e, ns);
            && TidyContext(after)
            && ValueOf(after, "name") == ValueOf(e, "name")
            && NamespaceOf(after) == (if ns == "" then DEFAULT_NAMESPACE else ns)
            && forall f :: f != "namespace" ==> Field(after, f) == Field(e, f)
  {
    var after := WithNamespace(e, ns);
    match ValueOf(e, "context")
    case None =>
      var body := Node(Mapping, "", [ScalarNode("namespace"), ScalarNode(ns)]);
      PutGet(e, "context", body, "context");
      PutGet(e, "context", body, "name");
      KeyFromIs(body.content, "namespace", 0);
      forall f | f != "namespace"
        ensures Field(after, f) == Field(e, f)
      {
        KeyFromIs(body.content, f, 2);
      }
    case Some(body) =>
      var v := match ValueOf(body, "namespace") case Some(n) => n.(value := ns) case None => ScalarNode(ns);
      var body' := Put(body, "namespace", v);
      assert after == Put(e, "context", body');
      PutGet(e, "context", body', "context");
      PutGet(e, "context", body', "name");
      PutGet(body, "namespace", v, "namespace");
      forall f | f != "namespace"
        ensures Field(after, f) == Field(e, f)
      {
        PutGet(body, "namespace", v, f);
      }
  }

  lemma RenamedEntryIs(e: Node, name: string)
    requires TidyContext(e)
    ensures var after := RenamedEntry(e, name);
            && TidyContext(after) && Called(after, name)
            && forall f :: Field(after, f) == Field(e, f)
  {
    var v := ValueOf(e, "name").value.(value := name);
    PutGet(e, "name", v, "name");
    PutGet(e, "name", v, "context");
  }

  /** Setting a namespace is read back from the same context and leaves every other context untouched. */
  lemma NamespaceRoundTrip(root: Node, name: string, ns: string)
    requires Tidy(root) && FindContext(root, name).Success?
    ensures var after := NamespacedRoot(root, name, ns);
            var i := FindContext(root, name).value;
            && FindContext(after, name) == Success(i)
            && |Entries(after, CONTEXTS)| == |Entries(root, CONTEXTS)|
            && i < |Entries(after, CONTEXTS)|
            && NamespaceOf(Entries(after, CONTEXTS)[i]) == (if ns == "" then DEFAULT_NAMESPACE else ns)
            && (forall k :: 0 <= k < |Entries(root, CONTEXTS)| && k != i ==>
                  Entries(after, CONTEXTS)[k] == Entries(root, CONTEXTS)[k])
            && forall key :: key != CONTEXTS ==> ValueOf(after, key) == ValueOf(root, key)
  {
    var edit := (e: Node) => WithNamespace(e, ns);
    EditGet(root, name, edit);
    var i := FindContext(root, name).value;
    var contexts := Entries(root, CONTEXTS);
    assert contexts[i] in contexts;
    NamespaceEntry(contexts[i], ns);
    FirstCalledIs(Entries(NamespacedRoot(root, name, ns), CONTEXTS), name, i);
  }

  // ----- runs

  datatype Op =
    | MergeFrom(src: Node)
    | Remove(name: string)
    | Namespace(name: string, ns: string)
    | Switch(current: string, original: string, prefix: string)

  /** The document after one operation; an operation that fails leaves it as it was. */
  function Apply(root: Node, op: Op): Node {
    match op
    case MergeFrom(src) => Merged(root, src)
    case Remove(name) => if ContextsNode(root).Success? then Removed(root, name) else root
    case Namespace(name, ns) => NamespacedRoot(root, name, ns)
    case Switch(current, original, prefix) =>
      match Switched(root, current, original, prefix)
      case Failure(_) => root
      case Success(after) => after
  }

  function Run(root: Node, ops: seq<Op>): Node
    decreases |ops|
  {
    if ops == [] then root else Run(Apply(root, ops[0]), ops[1..])
  }

  ghost predicate SourcesClosed(ops: seq<Op>) {
    forall i :: 0 <= i < |ops| && ops[i].MergeFrom? ==> Closed(ops[i].src)
  }

  lemma SetCurrentCloses(root: Node, name: string)
    requires Closed(root)
    ensures Closed(SetScalar(root, CURRENT, name))
    ensures Entries(SetScalar(root, CURRENT, name), CONTEXTS) == Entries(root, CONTEXTS)
    ensures CurrentContext(SetScalar(root, CURRENT, name)) == name
  {
    forall s | s in {CONTEXTS, CLUSTERS, USERS} {
      SetScalarGet(root, CURRENT, name, s);
    }
    SetScalarGet(root, CURRENT, name, CONTEXTS);
    SetScalarGet(root, CURRENT, name, CLUSTERS);
    SetScalarGet(root, CURRENT, name, USERS);
  }

  lemma NamespaceCloses(root: Node, name: string, ns: string)
    requires Closed(root)
    ensures Closed(NamespacedRoot(root, name, ns))
  {
    hide WithNamespace, Field, ValueOf, TidyContext, SetEntries;
    var edit := (e: Node) => WithNamespace(e, ns);
    if FindContext(root, name).Success? {
      var e := Entries(root, CONTEXTS)[FindContext(root, name).value];
      assert e in Entries(root, CONTEXTS);
      NamespaceEntry(e, ns);
      assert KeepsReferences(e, edit(e));
    }
    EditCloses(root, name, edit);
  }

  lemma RenameCloses(root: Node, from: string, name: string)
    requires Closed(root)
    ensures Closed(RenamedRoot(root, from, name))
  {
    hide RenamedEntry, Field, ValueOf, TidyContext, SetEntries;
    var edit := (e: Node) => RenamedEntry(e, name);
    if FindContext(root, from).Success? {
      var e := Entries(root, CONTEXTS)[FindContext(root, from).value];
      assert e in Entries(root, CONTEXTS);
      RenamedEntryIs(e, name);
      assert KeepsReferences(e, edit(e));
    }
    EditCloses(root, from, edit);
  }

  lemma ApplyCloses(root: Node, op: Op)
    requires Closed(root) && (op.MergeFrom? ==> Closed(op.src))
    ensures Closed(Apply(root, op))
  {
    hide Closed, Merged, Removed, RenamedRoot, SetScalar, ContextsNode, FindContext;
    match op
    case MergeFrom(src) =>
      MergeCloses(root, src);
    case Remove(name) =>
      RemoveCloses(root, name);
    case Namespace(name, ns) =>
      NamespaceCloses(root, name, ns);
    case Switch(current, original, prefix) =>
      if original == "" {
        SetCurrentCloses(root, current);
      } else {
        RenameCloses(root, Unprefixed(original, prefix), current);
        SetCurrentCloses(RenamedRoot(root, Unprefixed(original, prefix), current), current);
      }
  }

  /** Whatever merges of closed documents, removals, namespace changes and switches are run, references keep
      resolving. */
  lemma {:induction false} RunStaysClosed(root: Node, ops: seq<Op>)
    requires Closed(root) && SourcesClosed(ops)
    ensures Closed(Run(root, ops))
    decreases |ops|
  {
    if ops != [] {
      ApplyCloses(root, ops[0]);
      RunStaysClosed(Apply(root, ops[0]), ops[1..]);
    }
  }

  /** The caller's check before an operation that could leave the current context dangling. */
  ghost predicate Careful(root: Node, op: Op) {
    match op
    case MergeFrom(src) => CurrentExists(src)
    case Remove(name) => name != CurrentContext(root) || name == ""
    case Namespace(_, _) => true
    case Switch(current, original, _) => original == "" && current != "" ==> HasName(Entries(root, CONTEXTS), current)
  }

  ghost predicate CarefulRun(root: Node, ops: seq<Op>)
    decreases |ops|
  {
    ops != [] ==> Careful(root, ops[0]) && CarefulRun(Apply(root, ops[0]), ops[1..])
  }

  lemma NamespaceKeepsNames(root: Node, name: string, ns: string, k: string)
    requires Tidy(root)
    ensures HasName(Entries(NamespacedRoot(root, name, ns), CONTEXTS), k) <==> HasName(Entries(root, CONTEXTS), k)
  {
    var after := Entries(NamespacedRoot(root, name, ns), CONTEXTS);
    var before := Entries(root, CONTEXTS);
    EditGet(root, name, e => WithNamespace(e, ns));
    if FindContext(root, name).Success? {
      var i := FindContext(root, name).value;
      assert before[i] in before;
      NamespaceEntry(before[i], ns);
      if j :| 0 <= j < |before| && Named(before[j], k) {
        assert Named(after[j], k);
      }
      if j :| 0 <= j < |after| && Named(after[j], k) {
        assert Named(before[j], k);
      }
    }
  }

  lemma ApplyKeepsCurrent(root: Node, op: Op)
    requires Closed(root) && (op.MergeFrom? ==> Closed(op.src)) && CurrentExists(root) && Careful(root, op)
    ensures CurrentExists(Apply(root, op))
  {
    match op
    case MergeFrom(src) =>
      MergeCloses(root, src);
    case Remove(name) =>
      if CurrentContext(root) != "" {
        RemoveKeepsCurrentIff(root, name);
      } else {
        RemovedSections(root, name);
      }
    case Namespace(name, ns) =>
      EditGet(root, name, e => WithNamespace(e, ns));
      NamespaceKeepsNames(root, name, ns, CurrentContext(root));
    case Switch(current, original, prefix) =>
      if original == "" {
        SetCurrentCloses(root, current);
      } else if FindContext(root, Unprefixed(original, prefix)).Success? {
        SwitchFinds(root, current, original, prefix);
      }
  }

  /** Switching through an alias leaves the current context naming the renamed entry. */
  lemma SwitchFinds(root: Node, current: string, original: string, prefix: string)
    requires Tidy(root) && original != "" && FindContext(root, Unprefixed(original, prefix)).Success?
    ensures var after := Switched(root, current, original, prefix);
            && after.Success?
            && CurrentContext(after.value) == current
            && HasName(Entries(after.value, CONTEXTS), current)
  {
    var name := Unprefixed(original, prefix);
    var i := FindContext(root, name).value;
    var renamed := RenamedRoot(root, name, current);
    EditGet(root, name, e => RenamedEntry(e, current));
    assert Entries(root, CONTEXTS)[i] in Entries(root, CONTEXTS);
    RenamedEntryIs(Entries(root, CONTEXTS)[i], current);
    assert Named(Entries(renamed, CONTEXTS)[i], current);
    SetScalarGet(renamed, CURRENT, current, CONTEXTS);
  }

  /** A run that never removes the current context and never switches to an unknown one keeps the current context
      valid. */
  lemma {:induction false} RunKeepsCurrent(root: Node, ops: seq<Op>)
    requires Closed(root) && CurrentExists(root) && SourcesClosed(ops) && CarefulRun(root, ops)
    ensures CurrentExists(Run(root, ops))
    decreases |ops|
  {
    if ops != [] {
      ApplyCloses(root, ops[0]);
      ApplyKeepsCurrent(root, ops[0]);
      RunKeepsCurrent(Apply(root, ops[0]), ops[1..]);
    }
  }
}
