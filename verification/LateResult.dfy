/** A run of the selection screen whose last expand result comes too late, so that the next key press hangs it. */
module LateResult {
  import opened Lists
  import opened Screen
  import opened Tree

  function At(path: string, depth: nat, parentPath: string): Item {
    Item(path, "", path, path, "store", depth, parentPath, false, false, false)
  }

  const TOP := At("a", 0, "")
  const MIDDLE := At("b", 1, "a")
  const LOW := At("c", 2, "b")
  const ORPHAN := At("d", 3, "c")

  const OPENED_TOP := TOP.(expanded := true)
  const OPENED_MIDDLE := MIDDLE.(expanded := true)

  const EMPTY := View([], [], "", 0, 0, 0)

  /** Three nested clusters are expanded one below the other; the middle one is collapsed while the lowest still
      loads. */
  const MESSAGES := [
    Batch([TOP]), Right, ExpandResult(Expansion("a", [MIDDLE], false)),
    Right, ExpandResult(Expansion("b", [LOW], false)),
    Right, Left, ExpandResult(Expansion("c", [ORPHAN], false))
  ]

  /** All items are shown, with the cursor on the first. */
  function Showing(items: seq<Item>): View {
    View(items, items, "", 0, 0, 0)
  }

  /** The run, and that each of its messages is one that is really sent and is handled in finite time. */
  ghost predicate Leads(find: Find, v: View, ms: seq<Message>, end: View)
    requires Sound(find)
    decreases |ms|
  {
    if ms == [] then v == end
    else CursorLegal(v) && Sent(v, ms[0]) && Returns(v, ms[0]) && Leads(find, Updated(find, v, ms[0]), ms[1..], end)
  }

  lemma {:induction false} LeadsOn(find: Find, v: View, ms: seq<Message>, mid: View, m: Message)
    requires Sound(find) && Leads(find, v, ms, mid)
    requires CursorLegal(mid) && Sent(mid, m) && Returns(mid, m)
    ensures Leads(find, v, ms + [m], Updated(find, mid, m))
    decreases |ms|
  {
    hide Sent, Returns, Updated, CursorLegal;
    if ms == [] {
      assert ms + [m] == [m] && [m][1..] == [];
    } else {
      assert (ms + [m])[1..] == ms[1..] + [m];
      LeadsOn(find, Updated(find, v, ms[0]), ms[1..], mid, m);
    }
  }

  lemma ShowTop(find: Find)
    requires Sound(find)
    ensures Leads(find, EMPTY, MESSAGES[..1], Showing([TOP]))
  {
    assert EMPTY.items + [TOP] == [TOP];
    LeadsOn(find, EMPTY, [], EMPTY, MESSAGES[0]);
    assert [] + [MESSAGES[0]] == MESSAGES[..1];
  }

  /** Pressing right on the first item and receiving its one child. */
  lemma OpenFirst(find: Find, ms: seq<Message>, it: Item, rest: seq<Item>, child: Item)
    requires Sound(find) && Leads(find, EMPTY, ms, Showing([it] + rest))
    requires !it.expanded && !it.isLoading && it.path != ""
    requires forall r :: r in rest ==> r.path != it.path
    requires Delivers([it] + rest, Expansion(it.path, [child], false))
    ensures var last := ExpandResult(Expansion(it.path, [child], false));
            Leads(find, EMPTY, ms + [Right] + [last], Showing([child, it.(expanded := true)] + rest))
  {
    hide Leads;
    var msg := Expansion(it.path, [child], false);
    var items := [it] + rest;
    var loading := [it.(isLoading := true)] + rest;
    MarkFirst(it, rest);
    LeadsOn(find, EMPTY, ms, Showing(items), Right);
    DeliversMarked(it, rest, child);
    OpenedFirst(it, rest, child);
    LeadsOn(find, EMPTY, ms + [Right], Showing(loading), ExpandResult(msg));
  }

  lemma MarkFirst(it: Item, rest: seq<Item>)
    requires forall r :: r in rest ==> r.path != it.path
    ensures Marked([it] + rest, it.path) == [it.(isLoading := true)] + rest
  {
    forall k | 1 <= k < |rest| + 1
      ensures MarkedItem(([it] + rest)[k], it.path) == rest[k - 1]
    {
      assert rest[k - 1] in rest;
    }
  }

  lemma DeliversMarked(it: Item, rest: seq<Item>, child: Item)
    requires Delivers([it] + rest, Expansion(it.path, [child], false))
    ensures Delivers([it.(isLoading := true)] + rest, Expansion(it.path, [child], false))
  {
    var idle := [it] + rest + [child];
    var all := [it.(isLoading := true)] + rest + [child];
    forall x, y | x in all && y in all && x.path == y.path
      ensures x.SameShape(y)
    {
      var x' := if x in idle then x else it;
      var y' := if y in idle then y else it;
      assert x' in idle && y' in idle && x'.SameShape(y');
    }
    assert it in [it] + rest;
  }

  lemma SettleFirst(it: Item, rest: seq<Item>, child: Item)
    requires forall r :: r in rest ==> r.path != it.path
    ensures Settled([it.(isLoading := true)] + rest, Expansion(it.path, [child], false))
            == [it.(isLoading := false, expanded := true)] + rest
  {
    var msg := Expansion(it.path, [child], false);
    var loading := [it.(isLoading := true)] + rest;
    forall k | 1 <= k < |rest| + 1
      ensures SettledItem(loading[k], msg) == rest[k - 1]
    {
      assert rest[k - 1] in rest;
    }
  }

  lemma OpenedFirst(it: Item, rest: seq<Item>, child: Item)
    requires forall r :: r in rest ==> r.path != it.path
    ensures var loading := [it.(isLoading := true)] + rest;
            && FirstAt(loading, it.path) == 0
            && Expanded(loading, Expansion(it.path, [child], false))
               == [child, it.(isLoading := false, expanded := true)] + rest
  {
    hide FirstAt, Settled;
    var msg := Expansion(it.path, [child], false);
    var loading := [it.(isLoading := true)] + rest;
    var settled := [it.(isLoading := false, expanded := true)] + rest;
    SettleFirst(it, rest, child);
    FirstAtIs(loading, it.path, 0);
    FirstAtIs(settled, it.path, 0);
    assert settled[..0] + msg.children + settled[0..] == [child, settled[0]] + rest;
  }

  /** The forest the run has built just before the lowest item is collapsed away. */
  lemma NestedForest()
    ensures Forest([LOW.(isLoading := true), OPENED_MIDDLE, OPENED_TOP])
    ensures Forest([MIDDLE, OPENED_TOP])
  {
    var low := LOW.(isLoading := true);
    HasParentIn([low, OPENED_MIDDLE, OPENED_TOP], low, OPENED_MIDDLE);
    HasParentIn([low, OPENED_MIDDLE, OPENED_TOP], OPENED_MIDDLE, OPENED_TOP);
    HasParentIn([MIDDLE, OPENED_TOP], MIDDLE, OPENED_TOP);
  }

  lemma CollapseMiddle()
    ensures Collapsed([LOW.(isLoading := true), OPENED_MIDDLE, OPENED_TOP], "b") == [MIDDLE, OPENED_TOP]
  {
    hide Forest, Below;
    var low := LOW.(isLoading := true);
    var items := [low, OPENED_MIDDLE, OPENED_TOP];
    MeetsIsBelow(items, low, "b", 0);
    TopIsNotBelow(items, OPENED_TOP, "b", 0);
    assert items[..2] == [low, OPENED_MIDDLE] && items[..2][..1] == [low] && [low][..0] == [];
    assert CollapsedPart(items, "b", [low]) == [];
    assert CollapsedPart(items, "b", [low, OPENED_MIDDLE]) == [MIDDLE];
  }

  lemma OpenTop(find: Find)
    requires Sound(find)
    ensures Leads(find, EMPTY, MESSAGES[..3], Showing([MIDDLE] + [OPENED_TOP]))
  {
    hide Leads;
    ShowTop(find);
    assert [TOP] == [TOP] + [];
    OpenFirst(find, MESSAGES[..1], TOP, [], MIDDLE);
    assert MESSAGES[..1] + [MESSAGES[1]] + [MESSAGES[2]] == MESSAGES[..3];
    assert [MIDDLE, OPENED_TOP] + [] == [MIDDLE] + [OPENED_TOP];
  }

  lemma OpenMiddle(find: Find)
    requires Sound(find)
    ensures Leads(find, EMPTY, MESSAGES[..5], Showing([LOW] + [OPENED_MIDDLE, OPENED_TOP]))
  {
    hide Leads;
    OpenTop(find);
    OpenFirst(find, MESSAGES[..3], MIDDLE, [OPENED_TOP], LOW);
    assert MESSAGES[..3] + [MESSAGES[3]] + [MESSAGES[4]] == MESSAGES[..5];
    assert [LOW, OPENED_MIDDLE] + [OPENED_TOP] == [LOW] + [OPENED_MIDDLE, OPENED_TOP];
  }

  lemma CollapseTooEarly(find: Find)
    requires Sound(find)
    ensures Leads(find, EMPTY, MESSAGES[..7], Showing([MIDDLE, OPENED_TOP]))
  {
    hide Leads, Forest, CollapseEnds, Collapsed;
    var low := LOW.(isLoading := true);
    var items := [low, OPENED_MIDDLE, OPENED_TOP];
    OpenMiddle(find);
    MarkFirst(LOW, [OPENED_MIDDLE, OPENED_TOP]);
    assert [low] + [OPENED_MIDDLE, OPENED_TOP] == items;
    LeadsOn(find, EMPTY, MESSAGES[..5], Showing([LOW] + [OPENED_MIDDLE, OPENED_TOP]), Right);
    assert MESSAGES[..5] + [MESSAGES[5]] == MESSAGES[..6];
    NestedForest();
    ForestCollapses(items, "b");
    CollapseMiddle();
    FirstAtIs([MIDDLE, OPENED_TOP], "b", 0);
    LeadsOn(find, EMPTY, MESSAGES[..6], Showing(items), Left);
    assert MESSAGES[..6] + [MESSAGES[6]] == MESSAGES[..7];
  }

  /** From the empty screen the run leads to a list whose last item has no parent. */
  lemma LateArrives(find: Find)
    requires Sound(find)
    ensures Leads(find, EMPTY, MESSAGES, Showing([MIDDLE, OPENED_TOP, ORPHAN]))
    ensures Late(Showing([MIDDLE, OPENED_TOP]), MESSAGES[7])
  {
    hide Leads;
    var items := [MIDDLE, OPENED_TOP];
    CollapseTooEarly(find);
    FirstAtIs(items, "c", 2);
    LateAppends(items, MESSAGES[7].msg);
    assert Settled(items, MESSAGES[7].msg) == items;
    assert items + [ORPHAN] == [MIDDLE, OPENED_TOP, ORPHAN];
    LeadsOn(find, EMPTY, MESSAGES[..7], Showing(items), MESSAGES[7]);
    assert MESSAGES[..7] + [MESSAGES[7]] == MESSAGES;
  }

  /** Every message of the run is handled, and then pressing left, which collapses the top cluster, is not. */
  lemma LateResultHangs(find: Find)
    requires Sound(find)
    ensures var end := Showing([MIDDLE, OPENED_TOP, ORPHAN]);
            Leads(find, EMPTY, MESSAGES, end) && CursorLegal(end) && !Returns(end, Left)
  {
    hide Leads, CollapseEnds;
    LateArrives(find);
    NestedForest();
    var msg := MESSAGES[7].msg;
    assert ORPHAN in msg.children;
    LateCollapseEndsIff([MIDDLE, OPENED_TOP], msg, "a");
    LateAppends([MIDDLE, OPENED_TOP], msg);
    assert Expanded([MIDDLE, OPENED_TOP], msg) == [MIDDLE, OPENED_TOP, ORPHAN];
  }
}
