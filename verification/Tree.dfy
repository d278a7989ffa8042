/** The context tree of the selection screen: a flat list of items that encodes a forest through parent paths. */
module Tree {
  import opened Lists

  datatype Item = Item(
    displayName: string, dimSuffix: string, contextName: string, path: string, storeId: string,
    depth: nat, parentPath: string,
    isLoading: bool, expanded: bool, expandedEmpty: bool)
  {
    predicate SameShape(other: Item) {
      path == other.path && parentPath == other.parentPath && depth == other.depth
    }

    function SearchName(): string {
      if dimSuffix != "" then displayName + " " + dimSuffix else displayName
    }
  }

  /** What a sub-cluster discovery reports for the item it was started on. */
  datatype Expansion = Expansion(parentPath: string, children: seq<Item>, failed: bool)

  // ----- the forest

  /** Items of one path agree on parent and depth. */
  ghost predicate Coherent(items: seq<Item>) {
    forall a, b :: a in items && b in items && a.path == b.path ==> a.SameShape(b)
  }

  predicate ParentOf(a: Item, it: Item) {
    a.path == it.parentPath && a.depth < it.depth
  }

  /** Every non-empty parent path belongs to a present item of strictly smaller depth. */
  ghost predicate Rooted(items: seq<Item>) {
    forall it :: it in items && it.parentPath != "" ==> HasParent(items, it)
  }

  ghost predicate HasParent(items: seq<Item>, it: Item) {
    exists a :: a in items && ParentOf(a, it)
  }

  ghost predicate Forest(items: seq<Item>) {
    Coherent(items) && Rooted(items)
  }

  lemma ParentIn(items: seq<Item>, it: Item) returns (a: Item)
    requires HasParent(items, it)
    ensures a in items && ParentOf(a, it)
  {
    a :| a in items && ParentOf(a, it);
  }

  lemma HasParentIn(items: seq<Item>, it: Item, a: Item)
    requires a in items && ParentOf(a, it)
    ensures HasParent(items, it)
  {
  }

  ghost predicate Present(items: seq<Item>, path: string) {
    exists a :: a in items && a.path == path
  }

  /** From `p` one reaches `path` in `n` steps from item to parent. */
  ghost predicate Reaches(items: seq<Item>, p: string, path: string, n: nat)
    decreases n
  {
    p != "" &&
    if n == 0 then p == path
    else exists a :: a in items && a.path == p && Reaches(items, a.parentPath, path, n - 1)
  }

  /** `it` lies below `path`, at whatever distance. */
  ghost predicate Descendant(items: seq<Item>, it: Item, path: string) {
    exists n: nat :: Reaches(items, it.parentPath, path, n)
  }

  /** The index of the first item with this path, or the length. */
  function FirstAt(items: seq<Item>, path: string): (i: nat)
    ensures i <= |items|
    ensures i < |items| ==> items[i].path == path
    ensures forall k :: 0 <= k < i ==> items[k].path != path
  {
    if items == [] || items[0].path == path then 0 else 1 + FirstAt(items[1..], path)
  }

  lemma {:induction false} FirstAtIs(items: seq<Item>, path: string, i: nat)
    requires i <= |items|
    requires i < |items| ==> items[i].path == path
    requires forall k :: 0 <= k < i ==> items[k].path != path
    ensures FirstAt(items, path) == i
  {
  }

  // ----- walking up

  /** One step of the walk in `collapseItem`: to the parent of the first item at `p`, or nowhere when there is none.
      The walk ends at "". */
  function WalkStep(items: seq<Item>, p: string): string {
    var i := FirstAt(items, p);
    if p != "" && i < |items| then items[i].parentPath else p
  }

  function Walk(items: seq<Item>, p: string, n: nat): string
    decreases n
  {
    if n == 0 then p else Walk(items, WalkStep(items, p), n - 1)
  }

  /** The walk from `p` meets the top or the target, so the loop ends. */
  ghost predicate Ends(items: seq<Item>, p: string, path: string) {
    exists n: nat :: Walk(items, p, n) in {"", path}
  }

  /** The walk from `it` meets the target. */
  ghost predicate Below(items: seq<Item>, it: Item, path: string) {
    path != "" && exists n: nat :: Walk(items, it.parentPath, n) == path
  }

  /** Collapsing `path` comes back: every walk it makes ends. */
  ghost predicate CollapseEnds(items: seq<Item>, path: string) {
    forall it :: it in items && it.path != path ==> Ends(items, it.parentPath, path)
  }

  lemma {:induction false} WalkOn(items: seq<Item>, p: string, n: nat)
    ensures Walk(items, p, n + 1) == WalkStep(items, Walk(items, p, n))
    decreases n
  {
    if n > 0 {
      WalkOn(items, WalkStep(items, p), n - 1);
    }
  }

  /** A walk that has ended or is stuck stays where it is. */
  lemma {:induction false} Stuck(items: seq<Item>, p: string, n: nat)
    requires WalkStep(items, p) == p
    ensures Walk(items, p, n) == p
    decreases n
  {
    if n > 0 {
      Stuck(items, p, n - 1);
    }
  }

  lemma {:induction false} WalkSplit(items: seq<Item>, p: string, m: nat, n: nat)
    ensures Walk(items, p, m + n) == Walk(items, Walk(items, p, m), n)
    decreases m
  {
    if m > 0 {
      WalkSplit(items, WalkStep(items, p), m - 1, n);
    }
  }

  /** A walk that met the top first never meets the target. */
  lemma TopIsNotBelow(items: seq<Item>, it: Item, path: string, k: nat)
    requires Walk(items, it.parentPath, k) == "" && forall j: nat :: j < k ==> Walk(items, it.parentPath, j) != path
    ensures !Below(items, it, path)
  {
    if path != "" {
      forall n: nat
        ensures Walk(items, it.parentPath, n) != path
      {
        if n >= k {
          WalkSplit(items, it.parentPath, k, n - k);
          Stuck(items, "", n - k);
        }
      }
    }
  }

  /** The ancestor walk of `collapseItem`, wherever it ends. */
  method IsDescendant(items: seq<Item>, it: Item, path: string) returns (b: bool)
    requires Ends(items, it.parentPath, path)
    ensures b <==> Below(items, it, path)
  {
    hide Below;
    ghost var n: nat :| Walk(items, it.parentPath, n) in {"", path};
    ghost var k: nat := 0;
    var p := it.parentPath;
    while p != ""
      invariant k <= n && p == Walk(items, it.parentPath, k)
      invariant forall j: nat :: j < k ==> Walk(items, it.parentPath, j) !in {"", path}
      decreases n - k
    {
      if p == path {
        MeetsIsBelow(items, it, path, k);
        return true;
      }
      ghost var before := p;
      WalkOn(items, it.parentPath, k);
      var i := 0;
      while i < |items| && items[i].path != p
        invariant i <= |items|
        invariant forall j :: 0 <= j < i ==> items[j].path != p
      {
        i := i + 1;
      }
      FirstAtIs(items, p, i);
      if i < |items| {
        p := items[i].parentPath;
      }
      k := k + 1;
    }
    TopIsNotBelow(items, it, path, k);
    return false;
  }

  lemma MeetsIsBelow(items: seq<Item>, it: Item, path: string, k: nat)
    requires path != "" && Walk(items, it.parentPath, k) == path
    ensures Below(items, it, path)
  {
  }

  /** In a forest the walk meets exactly the ancestors. */
  lemma BelowIff(items: seq<Item>, it: Item, path: string)
    requires Coherent(items)
    ensures Below(items, it, path) <==> Descendant(items, it, path)
  {
    if Below(items, it, path) {
      var n: nat :| Walk(items, it.parentPath, n) == path;
      WalkReaches(items, it.parentPath, path, n);
    }
    if n: nat :| Reaches(items, it.parentPath, path, n) {
      ReachesWalks(items, it.parentPath, path, n);
    }
  }

  lemma {:induction false} WalkReaches(items: seq<Item>, p: string, path: string, n: nat)
    requires path != "" && Walk(items, p, n) == path
    ensures exists m: nat :: Reaches(items, p, path, m)
    decreases n
  {
    var i := FirstAt(items, p);
    if n == 0 || p == path {
      assert Reaches(items, p, path, 0);
    } else if WalkStep(items, p) == p {
      Stuck(items, p, n);
      assert false;
    } else {
      WalkReaches(items, items[i].parentPath, path, n - 1);
      var m: nat :| Reaches(items, items[i].parentPath, path, m);
      assert items[i] in items;
      assert Reaches(items, p, path, m + 1);
    }
  }

  lemma {:induction false} ReachesWalks(items: seq<Item>, p: string, path: string, n: nat)
    requires Coherent(items) && Reaches(items, p, path, n)
    ensures Walk(items, p, n) == path && path != ""
    decreases n
  {
    if n > 0 {
      var a :| a in items && a.path == p && Reaches(items, a.parentPath, path, n - 1);
      ReachesWalks(items, a.parentPath, path, n - 1);
      var k :| 0 <= k < |items| && items[k] == a;
      var i := FirstAt(items, p);
      assert i <= k;
      assert items[i] in items && items[i].SameShape(a);
    }
  }

  /** The items of a forest are found, under the parents they have, in `after` as well. */
  ghost predicate Embeds(items: seq<Item>, after: seq<Item>) {
    forall a :: a in items ==>
      FirstAt(after, a.path) < |after| && after[FirstAt(after, a.path)].parentPath == a.parentPath
  }

  lemma {:induction false} ForestEnds(items: seq<Item>, after: seq<Item>, it: Item, path: string)
    requires Forest(items) && Embeds(items, after) && it in items
    ensures Ends(after, it.parentPath, path)
    decreases it.depth
  {
    hide HasParent;
    if it.parentPath == "" {
      assert Walk(after, it.parentPath, 0) == "";
    } else {
      var a := ParentIn(items, it);
      ForestEnds(items, after, a, path);
      var n: nat :| Walk(after, a.parentPath, n) in {"", path};
      assert WalkStep(after, it.parentPath) == a.parentPath;
      assert Walk(after, it.parentPath, n + 1) == Walk(after, a.parentPath, n);
    }
  }

  /** In a forest every collapse comes back. */
  lemma ForestCollapses(items: seq<Item>, path: string)
    requires Forest(items)
    ensures CollapseEnds(items, path)
  {
    forall a | a in items
      ensures FirstAt(items, a.path) < |items| && items[FirstAt(items, a.path)].parentPath == a.parentPath
    {
      var k :| 0 <= k < |items| && items[k] == a;
      var i := FirstAt(items, a.path);
      assert i <= k;
      assert items[i] in items && items[i].SameShape(a);
    }
    forall it | it in items
      ensures Ends(items, it.parentPath, path)
    {
      ForestEnds(items, items, it, path);
    }
  }

  // ----- specification of the list operations

  function MarkedItem(it: Item, path: string): Item {
    if it.path == path then it.(isLoading := true) else it
  }

  function Marked(items: seq<Item>, path: string): seq<Item> {
    seq(|items|, i requires 0 <= i < |items| => MarkedItem(items[i], path))
  }

  function SettledItem(it: Item, msg: Expansion): Item {
    if it.path != msg.parentPath then it
    else if !msg.failed && |msg.children| > 0 then it.(isLoading := false, expanded := true)
    else if !msg.failed then it.(isLoading := false, expandedEmpty := true)
    else it.(isLoading := false)
  }

  function Settled(items: seq<Item>, msg: Expansion): seq<Item> {
    seq(|items|, i requires 0 <= i < |items| => SettledItem(items[i], msg))
  }

  /** The children go immediately before their parent, or to the end when it is gone. */
  function Spliced(items: seq<Item>, msg: Expansion): seq<Item> {
    var i := FirstAt(items, msg.parentPath);
    if i < |items| then items[..i] + msg.children + items[i..] else items + msg.children
  }

  function Expanded(items: seq<Item>, msg: Expansion): seq<Item> {
    if msg.failed || |msg.children| == 0 then Settled(items, msg) else Spliced(Settled(items, msg), msg)
  }

  function ResetItem(it: Item, path: string): Item {
    if it.path == path then it.(expanded := false, isLoading := false) else it
  }

  ghost predicate Stays(items: seq<Item>, path: string, it: Item) {
    it.path == path || !Below(items, it, path)
  }

  lemma StaysIff(items: seq<Item>, path: string, it: Item)
    requires Coherent(items)
    ensures Stays(items, path, it) <==> it.path == path || !Descendant(items, it, path)
  {
    BelowIff(items, it, path);
  }

  ghost function CollapsedPart(items: seq<Item>, path: string, part: seq<Item>): seq<Item> {
    if part == [] then []
    else
      var it := part[|part| - 1];
      CollapsedPart(items, path, part[..|part| - 1]) + (if Stays(items, path, it) then [ResetItem(it, path)] else [])
  }

  /** The list without the transitive descendants of `path`, whose own items are no longer expanded or loading. */
  ghost function Collapsed(items: seq<Item>, path: string): seq<Item> {
    CollapsedPart(items, path, items)
  }

  lemma SettledFirstAt(items: seq<Item>, msg: Expansion)
    ensures FirstAt(Settled(items, msg), msg.parentPath) == FirstAt(items, msg.parentPath)
  {
    var settled := Settled(items, msg);
    var i := FirstAt(items, msg.parentPath);
    forall k | 0 <= k < i
      ensures settled[k].path != msg.parentPath
    {
      assert settled[k] == items[k];
    }
    FirstAtIs(settled, msg.parentPath, i);
  }

  /** In a forest the walk may follow any item of a path: they all have the same parent. */
  lemma Climb(items: seq<Item>, child: Item, a: Item, path: string)
    requires Coherent(items) && a in items && a.path == child.parentPath && a.path != "" && a.path != path
    ensures Descendant(items, child, path) <==> Descendant(items, a, path)
  {
    if n: nat :| Reaches(items, child.parentPath, path, n) {
      var b :| b in items && b.path == a.path && Reaches(items, b.parentPath, path, n - 1);
      assert b.SameShape(a);
    }
    if n: nat :| Reaches(items, a.parentPath, path, n) {
      assert Reaches(items, child.parentPath, path, n + 1);
    }
  }

  // ----- what the operations keep

  ghost predicate SameShapes(a: seq<Item>, b: seq<Item>) {
    |a| == |b| && forall i :: 0 <= i < |a| ==> a[i].SameShape(b[i])
  }

  lemma ShapesKeepForest(a: seq<Item>, b: seq<Item>)
    requires SameShapes(a, b) && Forest(a)
    ensures Forest(b)
  {
    hide HasParent;
    forall x, y | x in b && y in b && x.path == y.path
      ensures x.SameShape(y)
    {
      var i :| 0 <= i < |b| && b[i] == x;
      var j :| 0 <= j < |b| && b[j] == y;
      assert a[i] in a && a[j] in a;
      assert a[i].SameShape(a[j]);
    }
    forall it | it in b && it.parentPath != ""
      ensures HasParent(b, it)
    {
      var i :| 0 <= i < |b| && b[i] == it;
      assert a[i] in a;
      var p := ParentIn(a, a[i]);
      var j :| 0 <= j < |a| && a[j] == p;
      HasParentIn(b, it, b[j]);
    }
  }

  lemma MarkingKeepsForest(items: seq<Item>, path: string)
    requires Forest(items)
    ensures Forest(Marked(items, path))
  {
    ShapesKeepForest(items, Marked(items, path));
  }

  lemma SettlingKeepsForest(items: seq<Item>, msg: Expansion)
    requires Forest(items)
    ensures Forest(Settled(items, msg)) && SameShapes(items, Settled(items, msg))
  {
    ShapesKeepForest(items, Settled(items, msg));
  }

  /** Top-level items arriving from the discovery keep the forest as long as they agree with what is there. */
  lemma BatchKeepsForest(items: seq<Item>, batch: seq<Item>)
    requires Forest(items) && Coherent(items + batch) && forall it :: it in batch ==> it.parentPath == ""
    ensures Forest(items + batch)
  {
    hide HasParent;
    var all := items + batch;
    forall it | it in all && it.parentPath != ""
      ensures HasParent(all, it)
    {
      var a := ParentIn(items, it);
      HasParentIn(all, it, a);
    }
  }

  /** What a discovery started on an item at `parentPath` delivers: items one level below it. */
  ghost predicate Delivers(items: seq<Item>, msg: Expansion) {
    && !msg.failed && msg.children != [] && msg.parentPath != ""
    && (forall c :: c in msg.children ==> c.parentPath == msg.parentPath)
    && Coherent(items + msg.children)
    && (forall a, c :: a in items && c in msg.children && a.path == msg.parentPath ==> a.depth < c.depth)
  }

  lemma SplicedMembers(items: seq<Item>, msg: Expansion, it: Item)
    ensures it in Spliced(items, msg) <==> it in items || it in msg.children
  {
    var i := FirstAt(items, msg.parentPath);
    if i < |items| {
      assert items == items[..i] + items[i..];
    }
  }

  /** An expand result keeps the forest exactly when its parent is still in the list. */
  lemma ExpandKeepsForestIff(items: seq<Item>, msg: Expansion)
    requires Forest(items) && Delivers(items, msg)
    ensures Forest(Expanded(items, msg)) <==> Present(items, msg.parentPath)
  {
    hide HasParent;
    var settled := Settled(items, msg);
    var after := Expanded(items, msg);
    SettlingKeepsForest(items, msg);
    SettledCoherent(items, msg);
    forall it
      ensures it in after <==> it in settled || it in msg.children
    {
      SplicedMembers(settled, msg, it);
    }
    if Present(items, msg.parentPath) {
      var a :| a in items && a.path == msg.parentPath;
      var i :| 0 <= i < |items| && items[i] == a;
      assert settled[i].SameShape(a) && settled[i] in settled;
      forall it | it in after && it.parentPath != ""
        ensures HasParent(after, it)
      {
        if it in msg.children {
          HasParentIn(after, it, settled[i]);
        } else {
          var p := ParentIn(settled, it);
          HasParentIn(after, it, p);
        }
      }
    } else if Forest(after) {
      RootlessChild(items, msg);
    }
  }

  /** A child of a missing parent could only hang from another child, which would then hang from itself. */
  lemma RootlessChild(items: seq<Item>, msg: Expansion)
    requires Forest(items) && Delivers(items, msg) && Forest(Expanded(items, msg))
    ensures Present(items, msg.parentPath)
  {
    hide HasParent;
    var settled := Settled(items, msg);
    var after := Expanded(items, msg);
    var c := msg.children[0];
    SplicedMembers(settled, msg, c);
    var p := ParentIn(after, c);
    SplicedMembers(settled, msg, p);
    if p in settled {
      var i :| 0 <= i < |settled| && settled[i] == p;
      assert items[i] in items && items[i].path == msg.parentPath;
    } else {
      var q := ParentIn(after, p);
    }
  }

  lemma SettledCoherent(items: seq<Item>, msg: Expansion)
    requires Coherent(items + msg.children)
    ensures Coherent(Settled(items, msg) + msg.children)
    ensures Coherent(Expanded(items, msg))
  {
    var settled := Settled(items, msg);
    var all := settled + msg.children;
    forall x, y | x in all && y in all && x.path == y.path
      ensures x.SameShape(y)
    {
      var x' := Original(items, msg, x);
      var y' := Original(items, msg, y);
      assert x'.SameShape(y');
    }
    forall it | it in Expanded(items, msg)
      ensures it in all
    {
      SplicedMembers(settled, msg, it);
    }
  }

  lemma Original(items: seq<Item>, msg: Expansion, x: Item) returns (x': Item)
    requires x in Settled(items, msg) + msg.children
    ensures x' in items + msg.children && x'.SameShape(x)
  {
    if x in msg.children {
      x' := x;
    } else {
      var i :| 0 <= i < |items| && Settled(items, msg)[i] == x;
      x' := items[i];
      assert items[i] in items;
    }
  }

  /** After a result whose parent was collapsed away, collapsing `path` comes back exactly when it is the missing path
      itself or the path of every new item. */
  lemma LateCollapseEndsIff(items: seq<Item>, msg: Expansion, path: string)
    requires Forest(items) && Delivers(items, msg) && !Present(items, msg.parentPath)
    ensures CollapseEnds(Expanded(items, msg), path)
       <==> path == msg.parentPath || forall c :: c in msg.children ==> c.path == path
  {
    hide Forest, Settled;
    var after := Expanded(items, msg);
    LateAppends(items, msg);
    LateEmbeds(items, msg);
    forall it | it in after && it !in msg.children
      ensures Ends(after, it.parentPath, path)
    {
      var a := OldItem(items, msg, it);
      ForestEnds(items, after, a, path);
    }
    LateIsStuck(items, msg);
    if path == msg.parentPath {
      assert Walk(after, path, 0) == path;
    } else {
      forall n: nat
        ensures Walk(after, msg.parentPath, n) == msg.parentPath
      {
        Stuck(after, msg.parentPath, n);
      }
      assert !Ends(after, msg.parentPath, path);
      assert forall c :: c in msg.children ==> c in after;
    }
  }

  lemma LateAppends(items: seq<Item>, msg: Expansion)
    requires Delivers(items, msg) && !Present(items, msg.parentPath)
    ensures Expanded(items, msg) == Settled(items, msg) + msg.children
    ensures forall k :: 0 <= k < |items| ==> Settled(items, msg)[k] == items[k]
  {
    forall k | 0 <= k < |items|
      ensures Settled(items, msg)[k] == items[k] && items[k].path != msg.parentPath
    {
      assert items[k] in items;
    }
  }

  lemma OldItem(items: seq<Item>, msg: Expansion, it: Item) returns (a: Item)
    requires Delivers(items, msg) && !Present(items, msg.parentPath)
    requires it in Expanded(items, msg) && it !in msg.children
    ensures a in items && a.parentPath == it.parentPath
  {
    LateAppends(items, msg);
    assert |Settled(items, msg)| == |items|;
    var k :| 0 <= k < |items| && Settled(items, msg)[k] == it;
    a := items[k];
  }

  lemma LateEmbeds(items: seq<Item>, msg: Expansion)
    requires Coherent(items) && Delivers(items, msg) && !Present(items, msg.parentPath)
    ensures Embeds(items, Expanded(items, msg))
  {
    LateAppends(items, msg);
    var after := Expanded(items, msg);
    assert |Settled(items, msg)| == |items|;
    forall a | a in items
      ensures FirstAt(after, a.path) < |after| && after[FirstAt(after, a.path)].parentPath == a.parentPath
    {
      var k :| 0 <= k < |items| && items[k] == a;
      assert after[k] == a;
      var i := FirstAt(after, a.path);
      assert i <= k;
      assert items[i] in items && after[i] == items[i];
    }
  }

  /** From a new item the walk stays at the missing parent, or at a new item that would be its own parent. */
  lemma LateIsStuck(items: seq<Item>, msg: Expansion)
    requires Delivers(items, msg) && !Present(items, msg.parentPath)
    ensures WalkStep(Expanded(items, msg), msg.parentPath) == msg.parentPath
  {
    LateAppends(items, msg);
    var after := Expanded(items, msg);
    assert |Settled(items, msg)| == |items|;
    var i := FirstAt(after, msg.parentPath);
    if |items| <= i < |after| {
      assert after[i] == msg.children[i - |items|];
    }
  }

  // ----- collapse

  lemma {:induction false} CollapsedMember(items: seq<Item>, path: string, part: seq<Item>, it: Item)
    ensures it in CollapsedPart(items, path, part)
       <==> exists x :: x in part && Stays(items, path, x) && it == ResetItem(x, path)
  {
    if part != [] {
      var init, last := part[..|part| - 1], part[|part| - 1];
      assert part == init + [last];
      CollapsedMember(items, path, init, it);
      if x :| x in part && Stays(items, path, x) && it == ResetItem(x, path) {
        assert x == last || x in init;
      }
    }
  }

  /** The parent of an item that stays stays too. */
  lemma ParentStays(items: seq<Item>, path: string, x: Item, p: Item)
    requires Forest(items) && x in items && p in items && ParentOf(p, x) && p.path != "" && Stays(items, path, x)
    ensures Stays(items, path, p)
  {
    hide HasParent;
    StaysIff(items, path, x);
    StaysIff(items, path, p);
    if p.path != path && Descendant(items, p, path) {
      Climb(items, x, p, path);
      DescendantDeeper(items, x, path);
    }
  }

  /** Collapsing keeps the forest. */
  lemma CollapseKeepsForest(items: seq<Item>, path: string)
    requires Forest(items)
    ensures Forest(Collapsed(items, path))
  {
    hide HasParent, Stays;
    var after := Collapsed(items, path);
    forall x, y | x in after && y in after && x.path == y.path
      ensures x.SameShape(y)
    {
      CollapsedMember(items, path, items, x);
      CollapsedMember(items, path, items, y);
    }
    forall it | it in after && it.parentPath != ""
      ensures HasParent(after, it)
    {
      CollapsedMember(items, path, items, it);
      var x :| x in items && Stays(items, path, x) && it == ResetItem(x, path);
      var p := ParentIn(items, x);
      ParentStays(items, path, x, p);
      CollapsedMember(items, path, items, ResetItem(p, path));
      HasParentIn(after, it, ResetItem(p, path));
    }
  }

  /** Nothing lies below itself. */
  lemma DescendantDeeper(items: seq<Item>, x: Item, path: string)
    requires Forest(items) && x in items && Descendant(items, x, path)
    ensures x.path != path
  {
    hide HasParent;
    var n: nat :| Reaches(items, x.parentPath, path, n);
    ReachesShallower(items, x, path, n);
  }

  lemma {:induction false} ReachesShallower(items: seq<Item>, x: Item, path: string, n: nat)
    requires Forest(items) && x in items && Reaches(items, x.parentPath, path, n)
    ensures exists a :: a in items && a.path == path && a.depth < x.depth
    decreases n
  {
    hide HasParent;
    var p := ParentIn(items, x);
    if n > 0 {
      var a :| a in items && a.path == x.parentPath && Reaches(items, a.parentPath, path, n - 1);
      assert a.SameShape(p);
      ReachesShallower(items, a, path, n - 1);
    }
  }

  /** After a collapse nothing is left below the collapsed path. */
  lemma CollapseLeavesNone(items: seq<Item>, path: string, it: Item)
    requires Forest(items) && it in Collapsed(items, path)
    ensures !Descendant(Collapsed(items, path), it, path)
  {
    hide HasParent;
    var after := Collapsed(items, path);
    CollapsedMember(items, path, items, it);
    var x :| x in items && Stays(items, path, x) && it == ResetItem(x, path);
    StaysIff(items, path, x);
    if n: nat :| Reaches(after, it.parentPath, path, n) {
      ReachesBefore(items, path, it.parentPath, n);
      assert Descendant(items, x, path);
      DescendantDeeper(items, x, path);
    }
  }

  lemma {:induction false} ReachesBefore(items: seq<Item>, path: string, p: string, n: nat)
    requires Reaches(Collapsed(items, path), p, path, n)
    ensures Reaches(items, p, path, n)
    decreases n
  {
    hide Stays;
    if n > 0 {
      var after := Collapsed(items, path);
      var a :| a in after && a.path == p && Reaches(after, a.parentPath, path, n - 1);
      CollapsedMember(items, path, items, a);
      var x :| x in items && Stays(items, path, x) && a == ResetItem(x, path);
      ReachesBefore(items, path, a.parentPath, n - 1);
      assert x.path == p && Reaches(items, x.parentPath, path, n - 1);
    }
  }

  /** A kept item is kept with its name, flags aside: only the collapsed items' own flags change. */
  lemma CollapseKeepsExactly(items: seq<Item>, path: string, it: Item)
    requires Forest(items) && it in items
    ensures ResetItem(it, path) in Collapsed(items, path) <==> !Descendant(items, it, path)
  {
    hide HasParent;
    CollapsedMember(items, path, items, ResetItem(it, path));
    StaysIff(items, path, it);
    if ResetItem(it, path) in Collapsed(items, path) && Descendant(items, it, path) {
      var x :| x in items && Stays(items, path, x) && ResetItem(it, path) == ResetItem(x, path);
      assert x.SameShape(it);
      DescendantDeeper(items, it, path);
    }
  }

  // ----- mark, expand and collapse undo each other

  ghost predicate Quiet(items: seq<Item>, path: string) {
    && Present(items, path)
    && (forall it :: it in items && it.path == path ==> !it.isLoading && !it.expanded)
    && (forall it :: it in items ==> !Descendant(items, it, path))
  }

  /** A chain that starts at an old item's path passes through old items only. */
  lemma {:induction false} ReachesThroughOld(items: seq<Item>, after: seq<Item>, x: Item, path: string, n: nat)
    requires Forest(items) && Coherent(after)
    requires forall y :: y in items ==> exists z :: z in after && z.SameShape(y)
    requires x in items && Reaches(after, x.parentPath, path, n)
    ensures Reaches(items, x.parentPath, path, n)
    decreases n
  {
    hide HasParent;
    if n > 0 {
      var p := ParentIn(items, x);
      var a :| a in after && a.path == x.parentPath && Reaches(after, a.parentPath, path, n - 1);
      var z :| z in after && z.SameShape(p);
      assert z.SameShape(a);
      ReachesThroughOld(items, after, p, path, n - 1);
    }
  }

  lemma {:induction false} CollapsedPartAppend(items: seq<Item>, path: string, a: seq<Item>, b: seq<Item>)
    ensures CollapsedPart(items, path, a + b) == CollapsedPart(items, path, a) + CollapsedPart(items, path, b)
    decreases |b|
  {
    if b == [] {
      assert a + b == a;
    } else {
      var init, last := b[..|b| - 1], b[|b| - 1];
      assert (a + b)[..|a + b| - 1] == a + init;
      CollapsedPartAppend(items, path, a, init);
    }
  }

  lemma {:induction false} CollapsedPartAll(items: seq<Item>, path: string, part: seq<Item>)
    requires forall it :: it in part ==> Stays(items, path, it)
    ensures CollapsedPart(items, path, part) == seq(|part|, i requires 0 <= i < |part| => ResetItem(part[i], path))
  {
    if part != [] {
      CollapsedPartAll(items, path, part[..|part| - 1]);
    }
  }

  lemma {:induction false} CollapsedPartNone(items: seq<Item>, path: string, part: seq<Item>)
    requires forall it :: it in part ==> !Stays(items, path, it)
    ensures CollapsedPart(items, path, part) == []
  {
    if part != [] {
      CollapsedPartNone(items, path, part[..|part| - 1]);
    }
  }

  /** Collapsing a list with goers in the middle of stayers leaves the stayers. */
  lemma InsertedVanish(items: seq<Item>, path: string, a: seq<Item>, kids: seq<Item>, b: seq<Item>)
    requires forall it :: it in a + b ==> Stays(items, path, it)
    requires forall it :: it in kids ==> !Stays(items, path, it)
    ensures CollapsedPart(items, path, a + kids + b)
            == seq(|a + b|, i requires 0 <= i < |a + b| => ResetItem((a + b)[i], path))
  {
    hide Stays;
    CollapsedPartAppend(items, path, a + kids, b);
    CollapsedPartAppend(items, path, a, kids);
    CollapsedPartNone(items, path, kids);
    CollapsedPartAppend(items, path, a, b);
    CollapsedPartAll(items, path, a + b);
  }

  lemma ExpandedSplits(items: seq<Item>, msg: Expansion) returns (i: nat)
    requires Delivers(items, msg) && Present(items, msg.parentPath)
    ensures var settled := Settled(Marked(items, msg.parentPath), msg);
            && i <= |settled|
            && Expanded(Marked(items, msg.parentPath), msg) == settled[..i] + msg.children + settled[i..]
  {
    var settled := Settled(Marked(items, msg.parentPath), msg);
    var a :| a in items && a.path == msg.parentPath;
    var k :| 0 <= k < |items| && items[k] == a;
    assert settled[k].path == msg.parentPath;
    i := FirstAt(settled, msg.parentPath);
  }

  lemma SettledLength(items: seq<Item>, msg: Expansion)
    ensures |Settled(Marked(items, msg.parentPath), msg)| == |items|
  {
  }

  lemma ResetRestores(items: seq<Item>, msg: Expansion, j: nat)
    requires Delivers(items, msg) && Quiet(items, msg.parentPath) && j < |items|
    ensures ResetItem(Settled(Marked(items, msg.parentPath), msg)[j], msg.parentPath) == items[j]
  {
    assert items[j] in items;
  }

  /** Marking an idle item as loading, expanding it and collapsing it again restores the list, order and flags
      included. */
  lemma ExpandCollapseRestores(items: seq<Item>, msg: Expansion)
    requires Forest(items) && Delivers(items, msg) && Quiet(items, msg.parentPath)
    ensures Collapsed(Expanded(Marked(items, msg.parentPath), msg), msg.parentPath) == items
  {
    hide Forest, Delivers, Stays, ResetItem, Settled, Marked, Expanded, CollapsedPart;
    var path := msg.parentPath;
    var settled := Settled(Marked(items, path), msg);
    var after := Expanded(Marked(items, path), msg);
    var i := ExpandedSplits(items, msg);
    assert settled[..i] + settled[i..] == settled;
    forall c | c in msg.children
      ensures !Stays(after, path, c)
    {
      ChildGoes(items, msg, c);
    }
    forall it | it in settled
      ensures Stays(after, path, it)
    {
      OldItemStays(items, msg, it);
    }
    InsertedVanish(after, path, settled[..i], msg.children, settled[i..]);
    SettledLength(items, msg);
    forall j | 0 <= j < |items|
      ensures ResetItem(settled[j], path) == items[j]
    {
      ResetRestores(items, msg, j);
    }
  }

  lemma ChildGoes(items: seq<Item>, msg: Expansion, c: Item)
    requires Forest(items) && Delivers(items, msg) && Present(items, msg.parentPath) && c in msg.children
    ensures !Stays(Expanded(Marked(items, msg.parentPath), msg), msg.parentPath, c)
  {
    hide HasParent;
    var after := Expanded(Marked(items, msg.parentPath), msg);
    assert Reaches(after, c.parentPath, msg.parentPath, 0);
    MarkedSettles(items, msg);
    StaysIff(after, msg.parentPath, c);
    var a :| a in items && a.path == msg.parentPath;
    assert a in items + msg.children && c in items + msg.children;
  }

  lemma MarkedSettles(items: seq<Item>, msg: Expansion)
    requires Forest(items) && Delivers(items, msg)
    ensures Coherent(Expanded(Marked(items, msg.parentPath), msg))
  {
    hide HasParent;
    var marked := Marked(items, msg.parentPath);
    var all := marked + msg.children;
    forall x, y | x in all && y in all && x.path == y.path
      ensures x.SameShape(y)
    {
      var x' := Unmarked(items, msg, x);
      var y' := Unmarked(items, msg, y);
      assert x'.SameShape(y');
    }
    SettledCoherent(marked, msg);
  }

  lemma Unmarked(items: seq<Item>, msg: Expansion, x: Item) returns (x': Item)
    requires x in Marked(items, msg.parentPath) + msg.children
    ensures x' in items + msg.children && x'.SameShape(x)
  {
    if x in msg.children {
      x' := x;
    } else {
      var i :| 0 <= i < |items| && Marked(items, msg.parentPath)[i] == x;
      x' := items[i];
      assert items[i] in items;
    }
  }

  lemma ExpandedIsSpliced(items: seq<Item>, msg: Expansion)
    requires Delivers(items, msg)
    ensures Expanded(Marked(items, msg.parentPath), msg) == Spliced(Settled(Marked(items, msg.parentPath), msg), msg)
  {
  }

  lemma OldItemStays(items: seq<Item>, msg: Expansion, it: Item)
    requires Forest(items) && Delivers(items, msg) && Quiet(items, msg.parentPath)
    requires it in Settled(Marked(items, msg.parentPath), msg)
    ensures Stays(Expanded(Marked(items, msg.parentPath), msg), msg.parentPath, it)
  {
    hide Coherent, Rooted, Delivers, Quiet, Descendant, Expanded, Settled, Marked, Stays;
    MarkedSettles(items, msg);
    StaysIff(Expanded(Marked(items, msg.parentPath), msg), msg.parentPath, it);
    OldItemAbove(items, msg, it);
  }

  lemma OldItemAbove(items: seq<Item>, msg: Expansion, it: Item)
    requires Forest(items) && Delivers(items, msg) && Quiet(items, msg.parentPath)
    requires it in Settled(Marked(items, msg.parentPath), msg)
    ensures !Descendant(Expanded(Marked(items, msg.parentPath), msg), it, msg.parentPath)
  {
    hide HasParent, Delivers, FirstAt, Rooted;
    var path := msg.parentPath;
    var settled := Settled(Marked(items, path), msg);
    var after := Expanded(Marked(items, path), msg);
    MarkedSettles(items, msg);
    ExpandedIsSpliced(items, msg);
    var j :| 0 <= j < |settled| && settled[j] == it;
    assert items[j] in items && items[j].SameShape(it);
    forall y | y in items
      ensures exists z :: z in after && z.SameShape(y)
    {
      var k :| 0 <= k < |items| && items[k] == y;
      assert settled[k] in settled;
      SplicedMembers(settled, msg, settled[k]);
      assert settled[k].SameShape(y);
    }
    if n: nat :| Reaches(after, it.parentPath, path, n) {
      ReachesThroughOld(items, after, items[j], path, n);
    }
  }
}
