/** The selection screen's state: the context tree, its filtered view, the cursor and the scroll window. */
module Screen {
  import opened Lists
  import opened Tree

  /** Fuzzy search: the indices of the names that match a query, best first. */
  type Find = (string, seq<string>) -> seq<nat>

  /** All that is assumed of the search: distinct indices in range. */
  ghost predicate Sound(find: Find) {
    forall query, names ::
      NoDup(find(query, names)) && forall k :: 0 <= k < |find(query, names)| ==> find(query, names)[k] < |names|
  }

  datatype View = View(items: seq<Item>, filtered: seq<Item>, query: string, cursor: int, viewOffset: int, height: int)

  datatype Message =
    | Resize(height: int)
    | Batch(items: seq<Item>)
    | ExpandResult(msg: Expansion)
    | Edited(query: string)
    | WordDeleted(query: string)
    | Right
    | Left
    | Up
    | Down
    | PageUp
    | PageDown
    | ClearQuery

  // ----- specification

  function Names(items: seq<Item>): seq<string> {
    seq(|items|, i requires 0 <= i < |items| => items[i].SearchName())
  }

  function FilterItems(find: Find, query: string, items: seq<Item>): seq<Item>
    requires Sound(find)
  {
    if query == "" then items
    else
      var matches := find(query, Names(items));
      assert |Names(items)| == |items|;
      seq(|matches|, k requires 0 <= k < |matches| => items[matches[k]])
  }

  function ListHeight(height: int): int {
    if height - 2 > 1 then height - 2 else 1
  }

  function Max(a: int, b: int): int {
    if a > b then a else b
  }

  function Clamped(v: View): View {
    if v.filtered == [] then v.(cursor := 0, viewOffset := 0)
    else
      var low := if v.cursor < 0 then 0 else v.cursor;
      var cursor := if low >= |v.filtered| then |v.filtered| - 1 else low;
      var maxOffset := Max(|v.filtered| - ListHeight(v.height), 0);
      v.(cursor := cursor, viewOffset := if v.viewOffset > maxOffset then maxOffset else v.viewOffset)
  }

  function Scrolled(v: View): View {
    var offset := if v.cursor < v.viewOffset then v.cursor else v.viewOffset;
    v.(viewOffset := if v.cursor >= offset + ListHeight(v.height) then v.cursor - ListHeight(v.height) + 1 else offset)
  }

  function Moved(v: View, delta: int): View {
    if v.filtered == [] then v else Scrolled(Clamped(v.(cursor := v.cursor + delta)))
  }

  function WithItems(find: Find, v: View, items: seq<Item>): View
    requires Sound(find)
  {
    v.(items := items, filtered := FilterItems(find, v.query, items))
  }

  function Refiltered(find: Find, v: View, query: string): View
    requires Sound(find)
  {
    v.(query := query, filtered := FilterItems(find, query, v.items), cursor := 0, viewOffset := 0)
  }

  function ExpandedView(find: Find, v: View, msg: Expansion): View
    requires Sound(find)
  {
    var after := WithItems(find, v, Expanded(v.items, msg));
    var i := FirstAt(v.items, msg.parentPath);
    if msg.failed || msg.children == [] then after
    else if i < |v.items| then Scrolled(Clamped(after.(cursor := i + |msg.children| - 1)))
    else Clamped(after)
  }

  ghost function CollapsedView(find: Find, v: View, path: string): View
    requires Sound(find)
  {
    Clamped(WithItems(find, v, Collapsed(v.items, path)))
  }

  /** The cursor on the first shown item of this path, if it is shown. */
  function OnPath(v: View, path: string): View {
    var i := FirstAt(v.filtered, path);
    if i < |v.filtered| then Scrolled(v.(cursor := i)) else v
  }

  ghost function Updated(find: Find, v: View, m: Message): View
    requires Sound(find) && CursorLegal(v)
  {
    match m
    case Resize(height) => v.(height := height)
    case Batch(items) => Clamped(WithItems(find, v, v.items + items))
    case ExpandResult(msg) => ExpandedView(find, v, msg)
    case Edited(query) => if query != v.query then Refiltered(find, v, query) else v
    case WordDeleted(query) => Refiltered(find, v, query)
    case Right =>
      if v.filtered == [] then v
      else
        var sel := v.filtered[v.cursor];
        if !sel.expanded && !sel.isLoading then WithItems(find, v, Marked(v.items, sel.path)) else v
    case Left =>
      if v.filtered == [] then v
      else
        var sel := v.filtered[v.cursor];
        if sel.expanded then CollapsedView(find, v, sel.path)
        else if sel.parentPath != "" then OnPath(CollapsedView(find, v, sel.parentPath), sel.parentPath)
        else v
    case Up => Moved(v, 1)
    case Down => Moved(v, -1)
    case PageUp => Moved(v, ListHeight(v.height))
    case PageDown => Moved(v, -ListHeight(v.height))
    case ClearQuery => v.(query := "", filtered := FilterItems(find, "", v.items), cursor := 0)
  }

  // ----- invariants

  /** Reading the item under the cursor is safe whenever anything is shown. */
  predicate CursorLegal(v: View) {
    0 <= v.cursor && 0 <= v.viewOffset && (if v.filtered == [] then v.cursor == 0 else v.cursor < |v.filtered|)
  }

  predicate CursorVisible(v: View) {
    v.viewOffset <= v.cursor < v.viewOffset + ListHeight(v.height)
  }

  /** What is shown always comes from the items, and the cursor is a legal index into it. */
  ghost predicate Inv(find: Find, v: View)
    requires Sound(find)
  {
    CursorLegal(v) && v.filtered == FilterItems(find, v.query, v.items)
  }

  /** What the discovery and the expansions send. */
  ghost predicate Sent(v: View, m: Message) {
    match m
    case Batch(items) => Coherent(v.items + items) && forall it :: it in items ==> it.parentPath == ""
    case ExpandResult(msg) => msg.failed || msg.children == [] || Delivers(v.items, msg)
    case _ => true
  }

  /** An expand result whose parent has been collapsed away. */
  ghost predicate Late(v: View, m: Message) {
    m.ExpandResult? && !m.msg.failed && m.msg.children != [] && !Present(v.items, m.msg.parentPath)
  }

  /** The path a message makes the screen collapse. */
  function Target(v: View, m: Message): Option<string>
    requires CursorLegal(v)
  {
    if m.Left? && v.filtered != [] then
      var sel := v.filtered[v.cursor];
      if sel.expanded then Some(sel.path) else if sel.parentPath != "" then Some(sel.parentPath) else None
    else None
  }

  /** The message is handled in finite time. */
  ghost predicate Returns(v: View, m: Message)
    requires CursorLegal(v)
  {
    Target(v, m).Some? ==> CollapseEnds(v.items, Target(v, m).value)
  }

  // ----- the code

  class Model {
    const find: Find
    var allItems: seq<Item>
    var filtered: seq<Item>
    var query: string
    var cursor: int
    var viewOffset: int
    var height: int

    constructor (find: Find)
      requires Sound(find)
      ensures this.find == find && State() == View([], [], "", 0, 0, 0)
    {
      this.find := find;
      allItems, filtered, query := [], [], "";
      cursor, viewOffset, height := 0, 0, 0;
    }

    function State(): View
      reads this
    {
      View(allItems, filtered, query, cursor, viewOffset, height)
    }

    method ListRows() returns (h: int)
      ensures h == ListHeight(height) && h >= 1
    {
      h := Max(height - 2, 1);
    }

    method ClampCursor()
      modifies this
      ensures State() == Clamped(old(State()))
    {
      if |filtered| == 0 {
        cursor, viewOffset := 0, 0;
        return;
      }
      if cursor < 0 {
        cursor := 0;
      }
      if cursor >= |filtered| {
        cursor := |filtered| - 1;
      }
      var h := ListRows();
      var maxOffset := Max(|filtered| - h, 0);
      if viewOffset > maxOffset {
        viewOffset := maxOffset;
      }
    }

    method ScrollIntoView()
      modifies this
      ensures State() == Scrolled(old(State()))
    {
      var lh := ListRows();
      if cursor < viewOffset {
        viewOffset := cursor;
      }
      if cursor >= viewOffset + lh {
        viewOffset := cursor - lh + 1;
      }
    }

    method MoveCursor(delta: int)
      modifies this
      ensures State() == Moved(old(State()), delta)
    {
      if |filtered| == 0 {
        return;
      }
      cursor := cursor + delta;
      ClampCursor();
      ScrollIntoView();
    }

    method Refilter()
      requires Sound(find)
      modifies this
      ensures State() == Refiltered(find, old(State()), old(query))
    {
      filtered := FilterItems(find, query, allItems);
      cursor := 0;
      viewOffset := 0;
    }

    method MarkLoading(path: string)
      requires Sound(find)
      modifies this
      ensures State() == WithItems(find, old(State()), Marked(old(allItems), path))
    {
      ghost var before := allItems;
      for i := 0 to |allItems|
        invariant |allItems| == |before|
        invariant State() == old(State()).(items := allItems)
        invariant forall k :: 0 <= k < i ==> allItems[k] == MarkedItem(before[k], path)
        invariant forall k :: i <= k < |before| ==> allItems[k] == before[k]
      {
        if allItems[i].path == path {
          allItems := allItems[i := allItems[i].(isLoading := true)];
        }
      }
      assert allItems == Marked(before, path);
      filtered := FilterItems(find, query, allItems);
    }

    /** Clears the loading flag of the parent and records what the expansion found. */
    method SettleParent(msg: Expansion)
      modifies this
      ensures State() == old(State()).(items := Settled(old(allItems), msg))
    {
      ghost var before := allItems;
      for i := 0 to |allItems|
        invariant |allItems| == |before|
        invariant State() == old(State()).(items := allItems)
        invariant forall k :: 0 <= k < i ==> allItems[k] == SettledItem(before[k], msg)
        invariant forall k :: i <= k < |before| ==> allItems[k] == before[k]
      {
        if allItems[i].path == msg.parentPath {
          allItems := allItems[i := allItems[i].(isLoading := false)];
          if !msg.failed && |msg.children| > 0 {
            allItems := allItems[i := allItems[i].(expanded := true)];
          } else if !msg.failed {
            allItems := allItems[i := allItems[i].(expandedEmpty := true)];
          }
        }
      }
      assert allItems == Settled(before, msg);
    }

    method FindParent(path: string) returns (parentIdx: int)
      ensures parentIdx == if FirstAt(allItems, path) < |allItems| then FirstAt(allItems, path) else -1
    {
      for i := 0 to |allItems|
        invariant forall k :: 0 <= k < i ==> allItems[k].path != path
      {
        if allItems[i].path == path {
          FirstAtIs(allItems, path, i);
          return i;
        }
      }
      FirstAtIs(allItems, path, |allItems|);
      return -1;
    }

    method ApplyExpandResult(msg: Expansion)
      requires Sound(find)
      modifies this
      ensures State() == ExpandedView(find, old(State()), msg)
    {
      hide Settled, FilterItems, Clamped, Scrolled, FirstAt;
      ghost var before := allItems;
      SettledLengthIs(before, msg);
      SettleParent(msg);
      if msg.failed || |msg.children| == 0 {
        filtered := FilterItems(find, query, allItems);
        return;
      }
      var parentIdx := FindParent(msg.parentPath);
      SettledFirstAt(before, msg);
      if parentIdx >= 0 {
        allItems := allItems[..parentIdx] + msg.children + allItems[parentIdx..];
      } else {
        allItems := allItems + msg.children;
      }
      filtered := FilterItems(find, query, allItems);
      if parentIdx >= 0 && |msg.children| > 0 {
        cursor := parentIdx + |msg.children| - 1;
        ClampCursor();
        ScrollIntoView();
      } else {
        ClampCursor();
      }
    }

    method CollapseItem(path: string)
      requires Sound(find) && CollapseEnds(allItems, path)
      modifies this
      ensures State() == CollapsedView(find, old(State()), path)
    {
      allItems := KeepUncollapsed(allItems, path);
      filtered := FilterItems(find, query, allItems);
      ClampCursor();
    }

    method Update(m: Message)
      requires Sound(find) && CursorLegal(State()) && Returns(State(), m)
      modifies this
      ensures State() == Updated(find, old(State()), m)
    {
      match m
      case Resize(h) =>
        height := h;
      case Batch(items) =>
        allItems := allItems + items;
        filtered := FilterItems(find, query, allItems);
        ClampCursor();
      case ExpandResult(msg) =>
        ApplyExpandResult(msg);
      case Edited(newQuery) =>
        if newQuery != query {
          query := newQuery;
          Refilter();
        }
      case WordDeleted(newQuery) =>
        query := newQuery;
        Refilter();
      case Right =>
        if |filtered| > 0 {
          var sel := filtered[cursor];
          if !sel.expanded && !sel.isLoading {
            MarkLoading(sel.path);
          }
        }
      case Left =>
        if |filtered| > 0 {
          var sel := filtered[cursor];
          if sel.expanded {
            CollapseItem(sel.path);
          } else if sel.parentPath != "" {
            CollapseItem(sel.parentPath);
            GoTo(sel.parentPath);
          }
        }
      case Up => MoveCursor(1);
      case Down => MoveCursor(-1);
      case PageUp =>
        var h := ListRows();
        MoveCursor(h);
      case PageDown =>
        var h := ListRows();
        MoveCursor(-h);
      case ClearQuery =>
        query := "";
        filtered := FilterItems(find, "", allItems);
        cursor := 0;
    }

    method GoTo(path: string)
      modifies this
      ensures State() == OnPath(old(State()), path)
    {
      for i := 0 to |filtered|
        invariant State() == old(State())
        invariant forall k :: 0 <= k < i ==> filtered[k].path != path
      {
        if filtered[i].path == path {
          FirstAtIs(filtered, path, i);
          cursor := i;
          ScrollIntoView();
          return;
        }
      }
      FirstAtIs(filtered, path, |filtered|);
    }
  }

  /** The collapse loop: a copy is filtered in place, writing behind the position being read. */
  method KeepUncollapsed(items: seq<Item>, path: string) returns (newItems: seq<Item>)
    requires CollapseEnds(items, path)
    ensures newItems == Collapsed(items, path)
  {
    hide Ends, Stays, CollapsedPart, Below;
    var n := |items|;
    var kept := new Item[n](i requires 0 <= i < n => items[i]);
    var w := 0;
    CollapsedPartNil(items, path);
    for i := 0 to n
      invariant w <= i
      invariant kept[..w] == CollapsedPart(items, path, items[..i])
      invariant forall k :: i <= k < n ==> kept[k] == items[k]
    {
      var it := kept[i];
      assert items[..i + 1] == items[..i] + [it];
      CollapsedPartSnoc(items, path, items[..i], it);
      var stays := true;
      if it.path == path {
        kept[w] := it.(expanded := false, isLoading := false);
      } else {
        assert items[i] in items;
        var below := IsDescendant(items, it, path);
        stays := !below;
        if stays {
          kept[w] := it;
        }
      }
      if stays {
        assert kept[..w + 1] == kept[..w] + [ResetItem(it, path)];
        w := w + 1;
      }
    }
    assert items[..n] == items;
    newItems := kept[..w];
  }

  lemma CollapsedPartNil(items: seq<Item>, path: string)
    ensures CollapsedPart(items, path, []) == []
  {
  }

  lemma CollapsedPartSnoc(items: seq<Item>, path: string, part: seq<Item>, it: Item)
    ensures CollapsedPart(items, path, part + [it])
            == CollapsedPart(items, path, part)
               + (if it.path == path || !Below(items, it, path) then [ResetItem(it, path)] else [])
  {
    assert (part + [it])[..|part|] == part;
  }

  /** Go's two nested appends at the splice, on a backing array that may have room to spare: the tail is copied out
      first, so writing into the array in place still gives the items around the children. */
  method SpliceInPlace(buf: array<Item>, len: nat, at: nat, children: seq<Item>) returns (out: array<Item>, outLen: nat)
    requires at <= len <= buf.Length
    modifies buf
    ensures out == buf || fresh(out)
    ensures outLen == len + |children| <= out.Length
    ensures out[..outLen] == old(buf[..at]) + children + old(buf[at..len])
  {
    var first, tail := buf[..at], buf[at..len];
    var inserted := children + tail;
    outLen := at + |inserted|;
    if outLen <= buf.Length {
      out := buf;
    } else {
      out := new Item[2 * outLen](i requires 0 <= i => if i < at then first[i] else inserted[0]);
    }
    assert out[..at] == first;
    for k := 0 to |inserted|
      invariant out[..at + k] == first + inserted[..k]
    {
      out[at + k] := inserted[k];
      assert out[..at + k + 1] == out[..at + k] + [inserted[k]];
    }
    assert inserted[..|inserted|] == inserted;
    assert first + inserted == first + children + tail;
  }

  lemma SettledLengthIs(items: seq<Item>, msg: Expansion)
    ensures |Settled(items, msg)| == |items|
  {
  }

  // ----- the cursor

  lemma ClampLegal(v: View)
    requires v.viewOffset >= 0
    ensures CursorLegal(Clamped(v))
    ensures Clamped(v).items == v.items && Clamped(v).filtered == v.filtered && Clamped(v).query == v.query
  {
  }

  /** Scrolling shows the cursor and moves the window no further than that takes. */
  lemma ScrollShows(v: View, offset: int)
    requires CursorLegal(v)
    ensures CursorLegal(Scrolled(v)) && CursorVisible(Scrolled(v)) && Scrolled(v).cursor == v.cursor
    ensures CursorVisible(v.(viewOffset := offset)) ==>
              Distance(v.viewOffset, Scrolled(v).viewOffset) <= Distance(v.viewOffset, offset)
  {
  }

  function Distance(a: int, b: int): int {
    if a < b then b - a else a - b
  }

  /** A move lands on the shown item nearest to where it was headed, and shows it. */
  lemma MoveLands(v: View, delta: int, other: int)
    requires CursorLegal(v) && 0 <= other < |v.filtered|
    ensures var after := Moved(v, delta);
            && CursorLegal(after) && CursorVisible(after)
            && Distance(v.cursor + delta, after.cursor) <= Distance(v.cursor + delta, other)
            && after == v.(cursor := after.cursor, viewOffset := after.viewOffset)
  {
  }

  /** Shrinking or reordering the shown list and clamping never moves the cursor out of the window. */
  lemma ClampKeepsVisible(v: View, filtered: seq<Item>)
    requires v.viewOffset >= 0 && CursorVisible(v)
    ensures CursorVisible(Clamped(v.(filtered := filtered)))
  {
  }

  /** The shown list depends on the items only through their names. */
  lemma SameNamesSameLength(find: Find, query: string, a: seq<Item>, b: seq<Item>)
    requires Sound(find) && Names(a) == Names(b)
    ensures |FilterItems(find, query, a)| == |FilterItems(find, query, b)|
  {
    assert |Names(a)| == |a| && |Names(b)| == |b|;
  }

  lemma MarkedNames(items: seq<Item>, path: string)
    ensures Names(Marked(items, path)) == Names(items)
  {
  }

  lemma SettledNames(items: seq<Item>, msg: Expansion)
    ensures Names(Settled(items, msg)) == Names(items)
  {
  }

  /** Whatever arrives, a late result included, what is shown comes from the items and the cursor stays legal. */
  lemma UpdateKeepsInv(find: Find, v: View, m: Message)
    requires Sound(find) && Inv(find, v)
    ensures Inv(find, Updated(find, v, m))
  {
    hide FilterItems, Collapsed, Clamped, Scrolled, Expanded;
    match m
    case Batch(items) => ClampLegal(WithItems(find, v, v.items + items));
    case ExpandResult(msg) => ExpandedViewInv(find, v, msg);
    case Right =>
      if v.filtered != [] {
        var path := v.filtered[v.cursor].path;
        MarkedNames(v.items, path);
        SameNamesSameLength(find, v.query, v.items, Marked(v.items, path));
      }
    case Left =>
      if v.filtered != [] {
        var sel := v.filtered[v.cursor];
        CollapsedViewInv(find, v, sel.path);
        CollapsedViewInv(find, v, sel.parentPath);
        OnPathInv(find, CollapsedView(find, v, sel.parentPath), sel.parentPath);
      }
    case Up => MovedInv(v, 1);
    case Down => MovedInv(v, -1);
    case PageUp => MovedInv(v, ListHeight(v.height));
    case PageDown => MovedInv(v, -ListHeight(v.height));
    case _ =>
  }

  lemma MovedInv(v: View, delta: int)
    requires CursorLegal(v)
    ensures CursorLegal(Moved(v, delta))
    ensures Moved(v, delta).items == v.items && Moved(v, delta).filtered == v.filtered
    ensures Moved(v, delta).query == v.query
  {
  }

  lemma ExpandedViewInv(find: Find, v: View, msg: Expansion)
    requires Sound(find) && Inv(find, v)
    ensures Inv(find, ExpandedView(find, v, msg))
    ensures CursorVisible(v) ==> CursorVisible(ExpandedView(find, v, msg))
  {
    hide FilterItems;
    if msg.failed || msg.children == [] {
      SettledNames(v.items, msg);
      SameNamesSameLength(find, v.query, v.items, Settled(v.items, msg));
    } else {
      var after := WithItems(find, v, Expanded(v.items, msg));
      var i := FirstAt(v.items, msg.parentPath);
      if i < |v.items| {
        var clamped := Clamped(after.(cursor := i + |msg.children| - 1));
        ClampLegal(after.(cursor := i + |msg.children| - 1));
        ScrollShows(clamped, clamped.viewOffset);
      } else {
        ClampLegal(after);
        if CursorVisible(v) {
          ClampKeepsVisible(v.(items := after.items), after.filtered);
        }
      }
    }
  }

  lemma CollapsedViewInv(find: Find, v: View, path: string)
    requires Sound(find) && Inv(find, v)
    ensures Inv(find, CollapsedView(find, v, path))
    ensures CursorVisible(v) ==> CursorVisible(CollapsedView(find, v, path))
  {
    var after := WithItems(find, v, Collapsed(v.items, path));
    ClampLegal(after);
    if CursorVisible(v) {
      ClampKeepsVisible(v.(items := after.items), after.filtered);
    }
  }

  lemma OnPathInv(find: Find, v: View, path: string)
    requires Sound(find) && Inv(find, v)
    ensures Inv(find, OnPath(v, path))
    ensures CursorVisible(v) ==> CursorVisible(OnPath(v, path))
  {
    var i := FirstAt(v.filtered, path);
    if i < |v.filtered| {
      ScrollShows(v.(cursor := i), i);
    }
  }

  /** The cursor stays inside the scroll window, except that clearing the query keeps the window's offset and resizing
      its place: after those it is visible exactly under the stated conditions. */
  lemma UpdateKeepsVisibleIff(find: Find, v: View, m: Message)
    requires Sound(find) && Inv(find, v) && CursorVisible(v)
    ensures CursorVisible(Updated(find, v, m))
       <==> match m
            case Resize(height) => v.cursor < v.viewOffset + ListHeight(height)
            case ClearQuery => v.viewOffset == 0
            case _ => true
  {
    hide FilterItems, Collapsed, Expanded, FirstAt;
    match m
    case Batch(items) =>
      var after := WithItems(find, v, v.items + items);
      ClampKeepsVisible(v.(items := after.items), after.filtered);
    case ExpandResult(msg) => ExpandedViewInv(find, v, msg);
    case Left =>
      if v.filtered != [] {
        var sel := v.filtered[v.cursor];
        CollapsedViewInv(find, v, sel.path);
        CollapsedViewInv(find, v, sel.parentPath);
        OnPathInv(find, CollapsedView(find, v, sel.parentPath), sel.parentPath);
      }
    case _ =>
  }

  // ----- the tree

  /** A message leaves the items a forest exactly when it is no late result. */
  lemma UpdateKeepsForestIff(find: Find, v: View, m: Message)
    requires Sound(find) && Inv(find, v) && Forest(v.items) && Sent(v, m)
    ensures Forest(Updated(find, v, m).items) <==> !Late(v, m)
  {
    hide Forest, FilterItems, Delivers, Collapsed, Expanded, Present;
    match m
    case Batch(items) => BatchKeepsForest(v.items, items);
    case ExpandResult(msg) =>
      if msg.failed || msg.children == [] {
        SettlingKeepsForest(v.items, msg);
        SettledOnly(v.items, msg);
      } else {
        ExpandKeepsForestIff(v.items, msg);
      }
    case Right =>
      if v.filtered != [] {
        MarkingKeepsForest(v.items, v.filtered[v.cursor].path);
      }
    case Left =>
      if v.filtered != [] {
        CollapseKeepsForest(v.items, v.filtered[v.cursor].path);
        CollapseKeepsForest(v.items, v.filtered[v.cursor].parentPath);
      }
    case _ =>
  }

  lemma SettledOnly(items: seq<Item>, msg: Expansion)
    requires msg.failed || msg.children == []
    ensures Expanded(items, msg) == Settled(items, msg)
  {
  }

  // ----- runs

  /** The screen after any messages at all: what is shown comes from the items, and the cursor is legal. */
  ghost function Run(find: Find, v: View, ms: seq<Message>): (after: View)
    requires Sound(find) && Inv(find, v)
    ensures Inv(find, after)
    decreases |ms|
  {
    if ms == [] then v
    else
      UpdateKeepsInv(find, v, ms[0]);
      Run(find, Updated(find, v, ms[0]), ms[1..])
  }

  /** Every message of a run is one that the discovery and the expansions send, and no result is late. */
  ghost predicate Timely(find: Find, v: View, ms: seq<Message>)
    requires Sound(find) && Inv(find, v)
    decreases |ms|
  {
    if ms == [] then true
    else
      UpdateKeepsInv(find, v, ms[0]);
      Sent(v, ms[0]) && !Late(v, ms[0]) && Timely(find, Updated(find, v, ms[0]), ms[1..])
  }

  /** Over every run without a late result the list stays a forest, so the next message is handled in finite time. */
  lemma {:induction false} RunKeepsForest(find: Find, v: View, ms: seq<Message>, next: Message)
    requires Sound(find) && Inv(find, v) && Forest(v.items) && Timely(find, v, ms)
    ensures Forest(Run(find, v, ms).items) && Returns(Run(find, v, ms), next)
    decreases |ms|
  {
    hide Forest, FilterItems, Updated, Sent, Late, CollapseEnds;
    if ms == [] {
      var target := Target(v, next);
      if target.Some? {
        ForestCollapses(v.items, target.value);
      }
    } else {
      UpdateKeepsInv(find, v, ms[0]);
      UpdateKeepsForestIff(find, v, ms[0]);
      RunKeepsForest(find, Updated(find, v, ms[0]), ms[1..], next);
    }
  }

  /** Over every run, late results included, the cursor also stays visible, as long as the query is not cleared in one
      go nor the window resized. */
  lemma {:induction false} RunKeepsVisible(find: Find, v: View, ms: seq<Message>)
    requires Sound(find) && Inv(find, v) && CursorVisible(v)
    requires forall i :: 0 <= i < |ms| ==> !ms[i].Resize? && !ms[i].ClearQuery?
    ensures CursorVisible(Run(find, v, ms))
    decreases |ms|
  {
    hide FilterItems, Updated, CursorVisible;
    if ms != [] {
      UpdateKeepsInv(find, v, ms[0]);
      UpdateKeepsVisibleIff(find, v, ms[0]);
      RunKeepsVisible(find, Updated(find, v, ms[0]), ms[1..]);
    }
  }

  /** In a window of one row: two items arrive, the cursor moves up, and clearing the query leaves it out of sight. */
  lemma ClearQueryHides(find: Find, a: Item, b: Item)
    requires Sound(find)
    ensures var after := Run(find, View([], [], "", 0, 0, 3), [Batch([a, b]), Up, ClearQuery]);
            after.cursor == 0 && after.viewOffset == 1 && !CursorVisible(after)
  {
    var ms := [Batch([a, b]), Up, ClearQuery];
    var v0 := View([], [], "", 0, 0, 3);
    assert ms[1..] == [Up, ClearQuery] && ms[1..][1..] == [ClearQuery] && ms[1..][1..][1..] == [];
    assert v0.items + [a, b] == [a, b];
    var v1 := View([a, b], [a, b], "", 0, 0, 3);
    assert Updated(find, v0, ms[0]) == v1;
    var v2 := v1.(cursor := 1, viewOffset := 1);
    assert Updated(find, v1, Up) == v2;
    var v3 := v2.(cursor := 0);
    assert Updated(find, v2, ClearQuery) == v3;
    assert Run(find, v2, [ClearQuery]) == v3;
  }

  /** With two rows the cursor is on the second item; shrinking the window to one row leaves it out of sight. */
  lemma ResizeHides(find: Find, a: Item, b: Item)
    requires Sound(find)
    ensures var after := Run(find, View([], [], "", 0, 0, 4), [Batch([a, b]), Up, Resize(3)]);
            after.cursor == 1 && after.viewOffset == 0 && !CursorVisible(after)
  {
    var ms := [Batch([a, b]), Up, Resize(3)];
    var v0 := View([], [], "", 0, 0, 4);
    assert ms[1..] == [Up, Resize(3)] && ms[1..][1..] == [Resize(3)] && ms[1..][1..][1..] == [];
    assert v0.items + [a, b] == [a, b];
    var v1 := View([a, b], [a, b], "", 0, 0, 4);
    assert Updated(find, v0, ms[0]) == v1;
    var v2 := v1.(cursor := 1);
    assert Updated(find, v1, Up) == v2;
    assert Run(find, v2, [Resize(3)]) == v2.(height := 3);
  }
}
