/** The two filters that prune discovered contexts before they are shown. */
module ContextFilters {
  import opened Lists
  import Text

  datatype StoreKind = KindStore | Filesystem | OtherStore(name: string)

  datatype Context = Context(path: string, name: string, alias: string, tags: map<string, string>,
                             storeId: string, kind: StoreKind)

  /** The credential-free part of a kubeconfig. */
  datatype KubeConfig = KubeConfig(current: string, contexts: seq<KubeContext>, clusters: seq<KubeCluster>)
  datatype KubeContext = KubeContext(name: string, cluster: string)
  datatype KubeCluster = KubeCluster(name: string, identity: Identity)
  datatype Identity = Identity(server: string, ca: string)

  /** Fetching and parsing the kubeconfig behind a context; None when either fails. */
  type Fetch = Context -> Option<KubeConfig>

  // ----- specification

  function ClusterOf(contexts: seq<KubeContext>, name: string): string {
    if contexts == [] then ""
    else if contexts[0].name == name then contexts[0].cluster
    else ClusterOf(contexts[1..], name)
  }

  function IdentityOf(clusters: seq<KubeCluster>, name: string): Option<Identity> {
    if clusters == [] then None
    else if clusters[0].name == name then Some(clusters[0].identity)
    else IdentityOf(clusters[1..], name)
  }

  /** The identity of the cluster a kubeconfig's current context, or else its first context, refers to. */
  function ConfigIdentity(k: KubeConfig): Option<Identity> {
    var name := if k.current == "" && k.contexts != [] then k.contexts[0].name else k.current;
    IdentityOf(k.clusters, ClusterOf(k.contexts, name))
  }

  function ClusterIdentity(fetch: Fetch, dc: Context): Option<Identity> {
    match fetch(dc)
    case None => None
    case Some(k) => ConfigIdentity(k)
  }

  predicate FromKind(fetch: Fetch, dc: Context) {
    dc.kind == KindStore && ClusterIdentity(fetch, dc).Some? && ClusterIdentity(fetch, dc).value.server != ""
  }

  function KindIdentities(fetch: Fetch, contexts: seq<Context>): set<Identity> {
    set dc | dc in contexts && FromKind(fetch, dc) :: ClusterIdentity(fetch, dc).value
  }

  predicate Shadowed(fetch: Fetch, ids: set<Identity>, dc: Context) {
    dc.kind == Filesystem && ClusterIdentity(fetch, dc).Some? && ClusterIdentity(fetch, dc).value in ids
  }

  function NotShadowed(fetch: Fetch, ids: set<Identity>): Context -> bool {
    (dc: Context) => !Shadowed(fetch, ids, dc)
  }

  function WithoutKindDuplicates(fetch: Fetch, contexts: seq<Context>): seq<Context> {
    Filter(NotShadowed(fetch, KindIdentities(fetch, contexts)), contexts)
  }

  predicate IsExternal(dc: Context) {
    Text.HasSuffix(dc.name, "-external")
  }

  function External(): Context -> bool {
    (dc: Context) => IsExternal(dc)
  }

  function OnPath(path: string): Context -> bool {
    (dc: Context) => dc.path == path
  }

  /** The paths in order of first occurrence. */
  function Order(contexts: seq<Context>): seq<string> {
    if contexts == [] then []
    else
      var rest := Order(contexts[..|contexts| - 1]);
      var path := contexts[|contexts| - 1].path;
      if path in rest then rest else rest + [path]
  }

  function Group(contexts: seq<Context>, path: string): seq<Context> {
    Filter(OnPath(path), contexts)
  }

  /** What is kept of one path: its `-external` contexts if it has any, else all of them. */
  function Kept(contexts: seq<Context>, path: string): seq<Context> {
    var externals := Filter(External(), Group(contexts, path));
    if externals != [] then externals else Group(contexts, path)
  }

  function KeptOf(contexts: seq<Context>, order: seq<string>): seq<Context> {
    if order == [] then []
    else KeptOf(contexts, order[..|order| - 1]) + Kept(contexts, order[|order| - 1])
  }

  function PreferExternal(contexts: seq<Context>): seq<Context> {
    KeptOf(contexts, Order(contexts))
  }

  function ApplyFilters(fetch: Fetch, contexts: seq<Context>): seq<Context> {
    PreferExternal(WithoutKindDuplicates(fetch, contexts))
  }

  // ----- the code

  method ClusterIdentityForContext(fetch: Fetch, dc: Context) returns (id: Option<Identity>)
    ensures id == ClusterIdentity(fetch, dc)
  {
    var data := fetch(dc);
    if data == None {
      return None;
    }
    var k := data.value;
    var ctxName := k.current;
    if ctxName == "" && |k.contexts| > 0 {
      ctxName := k.contexts[0].name;
    }
    var clusterName := "";
    for i := 0 to |k.contexts|
      invariant clusterName == ""
      invariant ClusterOf(k.contexts, ctxName) == ClusterOf(k.contexts[i..], ctxName)
    {
      if k.contexts[i].name == ctxName {
        clusterName := k.contexts[i].cluster;
        assert clusterName == ClusterOf(k.contexts, ctxName);
        break;
      }
    }
    for i := 0 to |k.clusters|
      invariant IdentityOf(k.clusters, clusterName) == IdentityOf(k.clusters[i..], clusterName)
    {
      if k.clusters[i].name == clusterName {
        return Some(k.clusters[i].identity);
      }
    }
    return None;
  }

  method FilterKindDuplicates(fetch: Fetch, contexts: seq<Context>) returns (result: seq<Context>)
    ensures result == WithoutKindDuplicates(fetch, contexts)
  {
    hide ClusterIdentity;
    var hasKind := false;
    for i := 0 to |contexts|
      invariant !hasKind
      invariant forall k :: 0 <= k < i ==> contexts[k].kind != KindStore
    {
      if contexts[i].kind == KindStore {
        hasKind := true;
        break;
      }
    }
    ghost var all := KindIdentities(fetch, contexts);
    if !hasKind {
      FilterAll(NotShadowed(fetch, all), contexts);
      return contexts;
    }
    var ids: set<Identity> := {};
    for i := 0 to |contexts|
      invariant ids == KindIdentities(fetch, contexts[..i])
    {
      assert contexts[..i + 1] == contexts[..i] + [contexts[i]];
      KindIdentitiesSnoc(fetch, contexts[..i], contexts[i]);
      if contexts[i].kind != KindStore {
        continue;
      }
      var id := ClusterIdentityForContext(fetch, contexts[i]);
      if id.Some? && id.value.server != "" {
        ids := ids + {id.value};
      }
    }
    assert contexts[..|contexts|] == contexts;
    if ids == {} {
      FilterAll(NotShadowed(fetch, all), contexts);
      return contexts;
    }
    result := [];
    for i := 0 to |contexts|
      invariant result == Filter(NotShadowed(fetch, ids), contexts[..i])
    {
      assert contexts[..i + 1] == contexts[..i] + [contexts[i]];
      FilterAppend(NotShadowed(fetch, ids), contexts[..i], [contexts[i]]);
      if contexts[i].kind == Filesystem {
        var id := ClusterIdentityForContext(fetch, contexts[i]);
        if id.Some? && id.value in ids {
          continue;
        }
      }
      result := result + [contexts[i]];
    }
  }

  method GroupByPath(contexts: seq<Context>) returns (order: seq<string>, byPath: map<string, seq<Context>>)
    ensures order == Order(contexts)
    ensures forall p :: p in byPath <==> p in order
    ensures forall p :: p in byPath ==> byPath[p] == Group(contexts, p)
  {
    byPath := map[];
    order := [];
    for i := 0 to |contexts|
      invariant order == Order(contexts[..i])
      invariant forall p :: p in byPath <==> p in order
      invariant forall p :: p in byPath ==> byPath[p] == Group(contexts[..i], p)
    {
      var dc := contexts[i];
      assert contexts[..i + 1] == contexts[..i] + [dc];
      GroupSnoc(contexts[..i], dc);
      if dc.path !in byPath {
        order := order + [dc.path];
        NewPathGroup(contexts[..i], dc.path);
        byPath := byPath[dc.path := [dc]];
      } else {
        byPath := byPath[dc.path := byPath[dc.path] + [dc]];
      }
    }
    assert contexts[..|contexts|] == contexts;
  }

  method ExternalsOf(entries: seq<Context>) returns (externals: seq<Context>)
    ensures externals == Filter(External(), entries)
  {
    externals := [];
    for k := 0 to |entries|
      invariant externals == Filter(External(), entries[..k])
    {
      assert entries[..k + 1] == entries[..k] + [entries[k]];
      FilterAppend(External(), entries[..k], [entries[k]]);
      if IsExternal(entries[k]) {
        externals := externals + [entries[k]];
      }
    }
    assert entries[..|entries|] == entries;
  }

  method KeepOnPath(ghost contexts: seq<Context>, ghost path: string, entries: seq<Context>)
    returns (keep: seq<Context>)
    requires entries == Group(contexts, path)
    ensures keep == Kept(contexts, path)
  {
    var externals := ExternalsOf(entries);
    keep := entries;
    if |externals| > 0 {
      keep := externals;
    }
  }

  method FilterPreferExternal(contexts: seq<Context>) returns (result: seq<Context>)
    ensures result == PreferExternal(contexts)
  {
    hide Filter, Kept, Group, Order;
    var order, byPath := GroupByPath(contexts);
    result := [];
    for i := 0 to |order|
      invariant result == KeptOf(contexts, order[..i])
    {
      assert order[i] in order;
      var keep := KeepOnPath(contexts, order[i], byPath[order[i]]);
      KeptSnoc(contexts, order[..i], order[i]);
      assert order[..i + 1] == order[..i] + [order[i]];
      result := result + keep;
    }
    assert order[..|order|] == order;
    assert result == PreferExternal(contexts);
  }

  method ApplyContextFilters(fetch: Fetch, contexts: seq<Context>) returns (result: seq<Context>)
    ensures result == ApplyFilters(fetch, contexts)
  {
    result := FilterKindDuplicates(fetch, contexts);
    result := FilterPreferExternal(result);
  }

  lemma KeptSnoc(contexts: seq<Context>, order: seq<string>, path: string)
    ensures KeptOf(contexts, order + [path]) == KeptOf(contexts, order) + Kept(contexts, path)
  {
    assert (order + [path])[..|order|] == order;
  }

  lemma KindIdentitiesSnoc(fetch: Fetch, contexts: seq<Context>, dc: Context)
    ensures KindIdentities(fetch, contexts + [dc])
            == KindIdentities(fetch, contexts)
               + (if FromKind(fetch, dc) then {ClusterIdentity(fetch, dc).value} else {})
  {
    var all := contexts + [dc];
    assert dc in all;
    forall c | c in contexts ensures c in all {}
  }

  lemma GroupSnoc(contexts: seq<Context>, dc: Context)
    ensures forall p :: Group(contexts + [dc], p) == Group(contexts, p) + (if dc.path == p then [dc] else [])
    ensures Order(contexts + [dc])
         == if dc.path in Order(contexts) then Order(contexts) else Order(contexts) + [dc.path]
  {
    assert (contexts + [dc])[..|contexts|] == contexts;
    forall p
      ensures Group(contexts + [dc], p) == Group(contexts, p) + (if dc.path == p then [dc] else [])
    {
      FilterAppend(OnPath(p), contexts, [dc]);
    }
  }

  lemma {:induction false} OrderMember(contexts: seq<Context>, path: string)
    ensures path in Order(contexts) <==> exists i :: 0 <= i < |contexts| && contexts[i].path == path
    ensures NoDup(Order(contexts))
  {
    if contexts != [] {
      var init := contexts[..|contexts| - 1];
      OrderMember(init, path);
      if i :| 0 <= i < |contexts| && contexts[i].path == path {
        if i < |init| {
          assert init[i].path == path;
        }
      }
      if i :| 0 <= i < |init| && init[i].path == path {
        assert contexts[i].path == path;
      }
    }
  }

  lemma NewPathGroup(contexts: seq<Context>, path: string)
    requires path !in Order(contexts)
    ensures Group(contexts, path) == []
  {
    OrderMember(contexts, path);
    FilterNone(OnPath(path), contexts);
  }

  // ----- preferring external contexts

  lemma KeptMember(contexts: seq<Context>, path: string, dc: Context)
    ensures dc in Kept(contexts, path)
       <==> dc in contexts && dc.path == path
            && (IsExternal(dc) || forall e :: e in contexts && e.path == path ==> !IsExternal(e))
  {
    var group := Group(contexts, path);
    var externals := Filter(External(), group);
    FilterMember(OnPath(path), contexts, dc);
    FilterMember(External(), group, dc);
    if externals != [] {
      var e := externals[0];
      FilterMember(External(), group, e);
      FilterMember(OnPath(path), contexts, e);
    } else {
      forall e | e in contexts && e.path == path
        ensures !IsExternal(e)
      {
        FilterMember(OnPath(path), contexts, e);
        FilterMember(External(), group, e);
      }
    }
  }

  lemma KeptNonEmpty(contexts: seq<Context>, path: string)
    requires path in Order(contexts)
    ensures Kept(contexts, path) != []
  {
    OrderMember(contexts, path);
    var i :| 0 <= i < |contexts| && contexts[i].path == path;
    FilterMember(OnPath(path), contexts, contexts[i]);
  }

  lemma {:induction false} GroupOfKept(contexts: seq<Context>, order: seq<string>, path: string)
    requires NoDup(order)
    ensures Group(KeptOf(contexts, order), path) == if path in order then Kept(contexts, path) else []
  {
    if order != [] {
      var init, last := order[..|order| - 1], order[|order| - 1];
      GroupOfKept(contexts, init, path);
      FilterAppend(OnPath(path), KeptOf(contexts, init), Kept(contexts, last));
      forall dc | dc in Kept(contexts, last)
        ensures dc.path == last
      {
        KeptMember(contexts, last, dc);
      }
      if path == last {
        FilterAll(OnPath(path), Kept(contexts, last));
      } else {
        FilterNone(OnPath(path), Kept(contexts, last));
      }
    }
  }

  lemma {:induction false} OrderAppendGroup(xs: seq<Context>, group: seq<Context>, path: string)
    requires group != [] && forall dc :: dc in group ==> dc.path == path
    ensures Order(xs + group) == if path in Order(xs) then Order(xs) else Order(xs) + [path]
    decreases |group|
  {
    var init, last := group[..|group| - 1], group[|group| - 1];
    assert (xs + group)[..|xs + group| - 1] == xs + init;
    assert (xs + group)[|xs + group| - 1] == last;
    if init == [] {
      assert xs + init == xs;
    } else {
      OrderAppendGroup(xs, init, path);
    }
  }

  lemma {:induction false} OrderOfKept(contexts: seq<Context>, order: seq<string>)
    requires NoDup(order) && forall p :: p in order ==> p in Order(contexts)
    ensures Order(KeptOf(contexts, order)) == order
  {
    if order != [] {
      var init, last := order[..|order| - 1], order[|order| - 1];
      OrderOfKept(contexts, init);
      KeptNonEmpty(contexts, last);
      forall dc | dc in Kept(contexts, last)
        ensures dc.path == last
      {
        KeptMember(contexts, last, dc);
      }
      OrderAppendGroup(KeptOf(contexts, init), Kept(contexts, last), last);
      assert init + [last] == order;
    }
  }

  /** Per path the result is exactly the `-external` contexts, or all when there are none, and no path disappears. */
  lemma PreferExternalPerPath(contexts: seq<Context>, path: string)
    ensures Group(PreferExternal(contexts), path) == if path in Order(contexts) then Kept(contexts, path) else []
    ensures Order(PreferExternal(contexts)) == Order(contexts)
    ensures path in Order(contexts) ==> Group(PreferExternal(contexts), path) != []
  {
    OrderMember(contexts, path);
    GroupOfKept(contexts, Order(contexts), path);
    OrderOfKept(contexts, Order(contexts));
    if path in Order(contexts) {
      KeptNonEmpty(contexts, path);
    }
  }

  /** A context survives exactly when it is external or no context of its path is. */
  lemma PreferExternalMember(contexts: seq<Context>, dc: Context)
    ensures dc in PreferExternal(contexts)
       <==> dc in contexts && (IsExternal(dc) || forall e :: e in contexts && e.path == dc.path ==> !IsExternal(e))
  {
    PreferExternalPerPath(contexts, dc.path);
    FilterMember(OnPath(dc.path), PreferExternal(contexts), dc);
    KeptMember(contexts, dc.path, dc);
    OrderMember(contexts, dc.path);
  }

  lemma KeptAgain(contexts: seq<Context>, path: string)
    requires path in Order(contexts)
    ensures Kept(PreferExternal(contexts), path) == Kept(contexts, path)
  {
    PreferExternalPerPath(contexts, path);
    var group := Group(contexts, path);
    FilterTwice(External(), External(), External(), group);
  }

  lemma {:induction false} KeptOfAgree(a: seq<Context>, b: seq<Context>, order: seq<string>)
    requires forall p :: p in order ==> Kept(a, p) == Kept(b, p)
    ensures KeptOf(a, order) == KeptOf(b, order)
  {
    if order != [] {
      KeptOfAgree(a, b, order[..|order| - 1]);
    }
  }

  lemma PreferExternalIdempotent(contexts: seq<Context>)
    ensures PreferExternal(PreferExternal(contexts)) == PreferExternal(contexts)
  {
    PreferExternalPerPath(contexts, "");
    forall p | p in Order(contexts)
      ensures Kept(PreferExternal(contexts), p) == Kept(contexts, p)
    {
      KeptAgain(contexts, p);
    }
    KeptOfAgree(PreferExternal(contexts), contexts, Order(contexts));
  }

  // ----- kind duplicates, and the two filters together

  /** Every context the first filter drops has a kind entry of the same cluster in that filter's output. */
  lemma DroppedHasKind(fetch: Fetch, contexts: seq<Context>, dc: Context)
    requires dc in contexts && dc !in WithoutKindDuplicates(fetch, contexts)
    ensures exists k :: k in WithoutKindDuplicates(fetch, contexts) && k.kind == KindStore
                        && ClusterIdentity(fetch, k) == ClusterIdentity(fetch, dc)
  {
    var ids := KindIdentities(fetch, contexts);
    FilterMember(NotShadowed(fetch, ids), contexts, dc);
    var k :| k in contexts && FromKind(fetch, k) && ClusterIdentity(fetch, k).value == ClusterIdentity(fetch, dc).value;
    FilterMember(NotShadowed(fetch, ids), contexts, k);
  }

  lemma KindFilterSettled(fetch: Fetch, contexts: seq<Context>, some: seq<Context>)
    requires forall dc :: dc in some ==> dc in WithoutKindDuplicates(fetch, contexts)
    ensures WithoutKindDuplicates(fetch, some) == some
  {
    var ids := KindIdentities(fetch, contexts);
    forall dc | dc in some
      ensures dc in contexts && !Shadowed(fetch, ids, dc)
    {
      FilterMember(NotShadowed(fetch, ids), contexts, dc);
    }
    assert KindIdentities(fetch, some) <= ids;
    FilterAll(NotShadowed(fetch, KindIdentities(fetch, some)), some);
  }

  /** Applying the filters to their own result changes nothing, order included. */
  lemma FiltersIdempotent(fetch: Fetch, contexts: seq<Context>)
    ensures ApplyFilters(fetch, ApplyFilters(fetch, contexts)) == ApplyFilters(fetch, contexts)
  {
    var first := WithoutKindDuplicates(fetch, contexts);
    var both := PreferExternal(first);
    forall dc | dc in both
      ensures dc in first
    {
      PreferExternalMember(first, dc);
    }
    KindFilterSettled(fetch, contexts, both);
    PreferExternalIdempotent(first);
  }

  /** After both filters the kind entry that shadowed a dropped context may itself be gone: it stays exactly
      when it is external or its path has no external context. */
  lemma KindEntryStays(fetch: Fetch, contexts: seq<Context>, k: Context)
    requires k in contexts && k.kind == KindStore
    ensures k in ApplyFilters(fetch, contexts)
       <==> || IsExternal(k)
            || forall e :: e in WithoutKindDuplicates(fetch, contexts) && e.path == k.path ==> !IsExternal(e)
  {
    FilterMember(NotShadowed(fetch, KindIdentities(fetch, contexts)), contexts, k);
    PreferExternalMember(WithoutKindDuplicates(fetch, contexts), k);
  }

  /** The context is external and not shadowed, so the first filter leaves it. */
  predicate Prevails(fetch: Fetch, contexts: seq<Context>, e: Context) {
    e in contexts && IsExternal(e) && !Shadowed(fetch, KindIdentities(fetch, contexts), e)
  }

  lemma SurvivesIff(fetch: Fetch, contexts: seq<Context>, dc: Context)
    ensures dc in ApplyFilters(fetch, contexts)
       <==> && dc in contexts && !Shadowed(fetch, KindIdentities(fetch, contexts), dc)
            && (IsExternal(dc) || !exists e :: Prevails(fetch, contexts, e) && e.path == dc.path)
  {
    var ids := KindIdentities(fetch, contexts);
    var first := WithoutKindDuplicates(fetch, contexts);
    forall e
      ensures e in first <==> e in contexts && !Shadowed(fetch, ids, e)
    {
      FilterMember(NotShadowed(fetch, ids), contexts, e);
    }
    PreferExternalMember(first, dc);
  }

  /** A cluster disappears from the result exactly when each of its contexts is a filesystem one of a cluster that has a
      kind entry, or shares its path with an external context that is not. */
  lemma ClusterVanishesIff(fetch: Fetch, contexts: seq<Context>, id: Identity)
    ensures (forall dc :: dc in ApplyFilters(fetch, contexts) ==> ClusterIdentity(fetch, dc) != Some(id))
       <==> forall dc :: dc in contexts && ClusterIdentity(fetch, dc) == Some(id) ==>
              || Shadowed(fetch, KindIdentities(fetch, contexts), dc)
              || (!IsExternal(dc) && exists e :: Prevails(fetch, contexts, e) && e.path == dc.path)
  {
    hide Shadowed, ApplyFilters;
    forall dc
      ensures dc in ApplyFilters(fetch, contexts)
         <==> && dc in contexts && !Shadowed(fetch, KindIdentities(fetch, contexts), dc)
              && (IsExternal(dc) || !exists e :: Prevails(fetch, contexts, e) && e.path == dc.path)
    {
      SurvivesIff(fetch, contexts, dc);
    }
  }

  ghost predicate Shows(fetch: Fetch, contexts: seq<Context>, id: Identity) {
    exists dc :: dc in contexts && ClusterIdentity(fetch, dc) == Some(id)
  }

  /** The first filter alone loses no cluster. */
  lemma KindFilterKeepsClusters(fetch: Fetch, contexts: seq<Context>, id: Identity)
    ensures Shows(fetch, WithoutKindDuplicates(fetch, contexts), id) <==> Shows(fetch, contexts, id)
  {
    var ids := KindIdentities(fetch, contexts);
    if dc :| dc in contexts && ClusterIdentity(fetch, dc) == Some(id) {
      if dc !in WithoutKindDuplicates(fetch, contexts) {
        DroppedHasKind(fetch, contexts, dc);
      }
    }
    forall dc | dc in WithoutKindDuplicates(fetch, contexts)
      ensures dc in contexts
    {
      FilterMember(NotShadowed(fetch, ids), contexts, dc);
    }
  }

  /** The contexts of a path all belong to one cluster, or to none. */
  ghost predicate PathsAgree(fetch: Fetch, contexts: seq<Context>) {
    forall a, b :: a in contexts && b in contexts && a.path == b.path ==>
      ClusterIdentity(fetch, a) == ClusterIdentity(fetch, b)
  }

  /** Where paths agree, neither filter nor both together lose a cluster. */
  lemma AgreeingPathsKeepClusters(fetch: Fetch, contexts: seq<Context>, id: Identity)
    requires PathsAgree(fetch, contexts)
    ensures Shows(fetch, PreferExternal(contexts), id) <==> Shows(fetch, contexts, id)
    ensures Shows(fetch, ApplyFilters(fetch, contexts), id) <==> Shows(fetch, contexts, id)
  {
    hide PreferExternal, WithoutKindDuplicates, ClusterIdentity;
    var first := WithoutKindDuplicates(fetch, contexts);
    KindFilterKeepsClusters(fetch, contexts, id);
    forall dc | dc in first
      ensures dc in contexts
    {
      KindFilterDrops(fetch, contexts, dc);
    }
    ExternalKeepsClusters(fetch, contexts, id);
    ExternalKeepsClusters(fetch, first, id);
  }

  lemma KindFilterDrops(fetch: Fetch, contexts: seq<Context>, dc: Context)
    requires dc in WithoutKindDuplicates(fetch, contexts)
    ensures dc in contexts
  {
    FilterMember(NotShadowed(fetch, KindIdentities(fetch, contexts)), contexts, dc);
  }

  lemma ExternalKeepsClusters(fetch: Fetch, contexts: seq<Context>, id: Identity)
    requires PathsAgree(fetch, contexts)
    ensures Shows(fetch, PreferExternal(contexts), id) <==> Shows(fetch, contexts, id)
  {
    hide PreferExternal, ClusterIdentity;
    if dc :| dc in contexts && ClusterIdentity(fetch, dc) == Some(id) {
      PreferExternalMember(contexts, dc);
      if dc !in PreferExternal(contexts) {
        var e :| e in contexts && e.path == dc.path && IsExternal(e);
        PreferExternalMember(contexts, e);
      }
    }
    if dc :| dc in PreferExternal(contexts) && ClusterIdentity(fetch, dc) == Some(id) {
      PreferExternalMember(contexts, dc);
    }
  }

  /** It happens: a kind entry shadows a filesystem context and then gives way to an external one of its path. When the
      filesystem context has a path of its own, it takes both filters, for either alone keeps the cluster. */
  lemma ClusterCanVanish(fetch: Fetch, kind: Context, file: Context, other: Context, id: Identity)
    requires kind.kind == KindStore && file.kind == Filesystem && other.kind != Filesystem
    requires ClusterIdentity(fetch, kind) == ClusterIdentity(fetch, file) == Some(id) && id.server != ""
    requires other.path == kind.path && IsExternal(other) && !IsExternal(kind)
    requires ClusterIdentity(fetch, other) != Some(id)
    ensures !Shows(fetch, ApplyFilters(fetch, [kind, file, other]), id)
    ensures Shows(fetch, WithoutKindDuplicates(fetch, [kind, file, other]), id)
    ensures file.path != kind.path ==> Shows(fetch, PreferExternal([kind, file, other]), id)
  {
    hide PreferExternal, WithoutKindDuplicates, ApplyFilters;
    var contexts := [kind, file, other];
    assert FromKind(fetch, kind) && kind in contexts && file in contexts && other in contexts;
    assert id in KindIdentities(fetch, contexts);
    assert Prevails(fetch, contexts, other);
    ClusterVanishesIff(fetch, contexts, id);
    KindFilterKeepsClusters(fetch, contexts, id);
    PreferExternalMember(contexts, file);
  }

  /** The second filter alone loses a cluster whose only context gives way to an external one of another cluster. */
  lemma ExternalCanHide(fetch: Fetch, dc: Context, other: Context, id: Identity)
    requires ClusterIdentity(fetch, dc) == Some(id) != ClusterIdentity(fetch, other)
    requires other.path == dc.path && IsExternal(other) && !IsExternal(dc)
    ensures !Shows(fetch, PreferExternal([dc, other]), id)
  {
    forall e | e in PreferExternal([dc, other])
      ensures e == other
    {
      PreferExternalMember([dc, other], e);
      assert other in [dc, other];
    }
  }
}
