/** The ordered, right-biased upsert of named entries that merging a kubeconfig section performs. */
module Upsert {
  import opened Lists
  import opened Yaml

  /** The text of an entry's `name`; None for an entry that has none. */
  function NameOf(e: Node): Option<string> {
    match ValueOf(e, "name")
    case None => None
    case Some(n) => Some(n.value)
  }

  predicate Named(e: Node, name: string) {
    NameOf(e) == Some(name)
  }

  /** Position of the first entry called `name`, or the length. */
  function Position(entries: seq<Node>, name: string): (i: nat)
    ensures i <= |entries|
    ensures i < |entries| ==> Named(entries[i], name)
    ensures forall k :: 0 <= k < i ==> !Named(entries[k], name)
  {
    if entries == [] || Named(entries[0], name) then 0 else 1 + Position(entries[1..], name)
  }

  function Put1(entries: seq<Node>, e: Node): seq<Node> {
    match NameOf(e)
    case None => entries
    case Some(name) =>
      var i := Position(entries, name);
      if i < |entries| then entries[i := e] else entries + [e]
  }

  /** All of `src` upserted into `dst`, in order. */
  function PutAll(dst: seq<Node>, src: seq<Node>): seq<Node>
    decreases |src|
  {
    if src == [] then dst else PutAll(Put1(dst, src[0]), src[1..])
  }

  method UpsertEntries(dst: seq<Node>, src: seq<Node>) returns (merged: seq<Node>)
    ensures merged == PutAll(dst, src)
  {
    merged := dst;
    for n := 0 to |src|
      invariant PutAll(dst, src) == PutAll(merged, src[n..])
    {
      var srcName := FindValue(src[n], "name");
      if srcName == None {
        continue;
      }
      var replaced := false;
      ghost var before := merged;
      for i := 0 to |merged|
        invariant merged == before && !replaced
        invariant forall k :: 0 <= k < i ==> !Named(merged[k], srcName.value.value)
      {
        var dstName := FindValue(merged[i], "name");
        if dstName.Some? && dstName.value.value == srcName.value.value {
          PositionIs(before, srcName.value.value, i);
          merged := merged[i := src[n]];
          replaced := true;
          break;
        }
      }
      if !replaced {
        PositionIs(before, srcName.value.value, |before|);
        merged := merged + [src[n]];
      }
    }
  }

  lemma {:induction false} PositionIs(entries: seq<Node>, name: string, i: nat)
    requires i <= |entries|
    requires i < |entries| ==> Named(entries[i], name)
    requires forall k :: 0 <= k < i ==> !Named(entries[k], name)
    ensures Position(entries, name) == i
  {
    var j := Position(entries, name);
    if j < i {
      assert false;
    }
  }

  // ----- lookup

  ghost predicate HasName(entries: seq<Node>, name: string) {
    exists i :: 0 <= i < |entries| && Named(entries[i], name)
  }

  ghost function Names(entries: seq<Node>): set<string> {
    set e | e in entries && NameOf(e).Some? :: NameOf(e).value
  }

  function Lookup(entries: seq<Node>, name: string): Option<Node> {
    var i := Position(entries, name);
    if i < |entries| then Some(entries[i]) else None
  }

  function LastNamed(entries: seq<Node>, name: string): Option<Node> {
    if entries == [] then None
    else if Named(entries[|entries| - 1], name) then Some(entries[|entries| - 1])
    else LastNamed(entries[..|entries| - 1], name)
  }

  lemma {:induction false} PutAllSnoc(dst: seq<Node>, src: seq<Node>, e: Node)
    ensures PutAll(dst, src + [e]) == Put1(PutAll(dst, src), e)
    decreases |src|
  {
    if src == [] {
      assert (src + [e])[1..] == [];
    } else {
      assert (src + [e])[1..] == src[1..] + [e];
      PutAllSnoc(Put1(dst, src[0]), src[1..], e);
    }
  }

  lemma {:induction false} PutAllAppend(dst: seq<Node>, s: seq<Node>, t: seq<Node>)
    ensures PutAll(dst, s + t) == PutAll(PutAll(dst, s), t)
    decreases |t|
  {
    if t == [] {
      assert s + t == s;
    } else {
      assert s + t == (s + [t[0]]) + t[1..];
      PutAllAppend(dst, s + [t[0]], t[1..]);
      PutAllSnoc(dst, s, t[0]);
    }
  }

  lemma Put1Position(entries: seq<Node>, e: Node, name: string)
    ensures Position(Put1(entries, e), name)
            == if Position(entries, name) < |entries| || Named(e, name) then Position(entries, name)
               else |Put1(entries, e)|
  {
    var r := Put1(entries, e);
    var p := Position(entries, name);
    if p < |entries| || Named(e, name) {
      forall k | 0 <= k < p
        ensures !Named(r[k], name)
      {
        if NameOf(e).Some? && k == Position(entries, NameOf(e).value) && Named(e, name) {
          assert false;
        }
      }
      PositionIs(r, name, p);
    } else {
      PositionIs(r, name, |r|);
    }
  }

  lemma Put1Lookup(entries: seq<Node>, e: Node, name: string)
    ensures Lookup(Put1(entries, e), name) == if Named(e, name) then Some(e) else Lookup(entries, name)
  {
    Put1Position(entries, e, name);
  }

  /** Merging is right-biased: by name one finds the last source entry, or else the first destination entry. */
  lemma {:induction false} MergeLookup(dst: seq<Node>, src: seq<Node>, name: string)
    ensures Lookup(PutAll(dst, src), name)
            == if LastNamed(src, name).Some? then LastNamed(src, name) else Lookup(dst, name)
    decreases |src|
  {
    if src != [] {
      var last := src[|src| - 1];
      var init := src[..|src| - 1];
      assert src == init + [last];
      PutAllSnoc(dst, init, last);
      Put1Lookup(PutAll(dst, init), last, name);
      MergeLookup(dst, init, name);
    }
  }

  lemma {:induction false} LastNamedIff(src: seq<Node>, name: string)
    ensures LastNamed(src, name).Some? <==> HasName(src, name)
    ensures LastNamed(src, name).Some? ==> LastNamed(src, name).value in src && Named(LastNamed(src, name).value, name)
  {
    if src != [] {
      var init := src[..|src| - 1];
      LastNamedIff(init, name);
      if i :| 0 <= i < |src| && Named(src[i], name) {
        if i < |init| {
          assert Named(init[i], name);
        }
      }
      if i :| 0 <= i < |init| && Named(init[i], name) {
        assert Named(src[i], name);
      }
    }
  }

  /** Destination slots keep their place: only the first slot of a name the source has is overwritten. */
  lemma {:induction false} MergeSlots(dst: seq<Node>, src: seq<Node>, i: nat)
    requires i < |dst|
    ensures |dst| <= |PutAll(dst, src)|
    ensures PutAll(dst, src)[i]
            == match NameOf(dst[i])
               case None => dst[i]
               case Some(name) =>
                 if Position(dst, name) == i && LastNamed(src, name).Some? then LastNamed(src, name).value else dst[i]
    ensures NameOf(PutAll(dst, src)[i]) == NameOf(dst[i])
    decreases |src|
  {
    if src != [] {
      var last := src[|src| - 1];
      var init := src[..|src| - 1];
      assert src == init + [last];
      PutAllSnoc(dst, init, last);
      MergeSlots(dst, init, i);
      if NameOf(dst[i]).Some? {
        LastNamedIff(init, NameOf(dst[i]).value);
      }
      if NameOf(last).Some? {
        MergePosition(dst, init, NameOf(last).value);
      }
    }
  }

  /** A name of the destination keeps its position. */
  lemma {:induction false} MergePosition(dst: seq<Node>, src: seq<Node>, name: string)
    ensures |dst| <= |PutAll(dst, src)|
    ensures Position(dst, name) < |dst| ==> Position(PutAll(dst, src), name) == Position(dst, name)
    ensures Position(dst, name) == |dst| ==> Position(PutAll(dst, src), name) >= |dst|
    decreases |src|
  {
    if src != [] {
      Put1Position(dst, src[0], name);
      MergePosition(Put1(dst, src[0]), src[1..], name);
    }
  }

  /** Entries of names the source lacks stay, in order, and nothing else of that kind appears. */
  lemma {:induction false} MergeKeepsUnmatched(dst: seq<Node>, src: seq<Node>, keep: Node -> bool)
    requires forall d, e :: e in src && NameOf(e).Some? && NameOf(d) == NameOf(e) ==> !keep(d)
    ensures Filter(keep, PutAll(dst, src)) == Filter(keep, dst)
    decreases |src|
  {
    if src != [] {
      var e := src[0];
      if NameOf(e).Some? {
        var i := Position(dst, NameOf(e).value);
        if i < |dst| {
          FilterReplace(keep, dst, i, e);
        } else {
          FilterAppend(keep, dst, [e]);
        }
      }
      MergeKeepsUnmatched(Put1(dst, e), src[1..], keep);
    }
  }

  lemma FilterReplace(keep: Node -> bool, s: seq<Node>, i: nat, e: Node)
    requires i < |s| && !keep(s[i]) && !keep(e)
    ensures Filter(keep, s[i := e]) == Filter(keep, s)
  {
    assert s == s[..i] + ([s[i]] + s[i + 1..]);
    assert s[i := e] == s[..i] + ([e] + s[i + 1..]);
    FilterAppend(keep, s[..i], [s[i]] + s[i + 1..]);
    FilterAppend(keep, s[..i], [e] + s[i + 1..]);
    FilterAppend(keep, [s[i]], s[i + 1..]);
    FilterAppend(keep, [e], s[i + 1..]);
  }

  lemma {:induction false} MergeLength(dst: seq<Node>, src: seq<Node>)
    requires forall e :: e in src && NameOf(e).Some? ==> HasName(dst, NameOf(e).value)
    ensures |PutAll(dst, src)| == |dst|
    decreases |src|
  {
    if src != [] {
      var e := src[0];
      var next := Put1(dst, e);
      assert |next| == |dst|;
      forall f | f in src[1..] && NameOf(f).Some?
        ensures HasName(next, NameOf(f).value)
      {
        assert f in src;
        Put1Position(dst, e, NameOf(f).value);
        var p := Position(dst, NameOf(f).value);
        assert Position(next, NameOf(f).value) == p;
      }
      MergeLength(next, src[1..]);
    }
  }

  /** Merging the same source twice is merging it once. */
  lemma MergeIdempotent(dst: seq<Node>, src: seq<Node>)
    ensures PutAll(PutAll(dst, src), src) == PutAll(dst, src)
  {
    var once := PutAll(dst, src);
    forall e | e in src && NameOf(e).Some?
      ensures HasName(once, NameOf(e).value)
    {
      var name := NameOf(e).value;
      var i :| 0 <= i < |src| && src[i] == e;
      assert Named(src[i], name);
      LastNamedIff(src, name);
      MergeLookup(dst, src, name);
    }
    MergeLength(once, src);
    forall i | 0 <= i < |once|
      ensures PutAll(once, src)[i] == once[i]
    {
      MergeSlots(once, src, i);
      if NameOf(once[i]).Some? {
        MergeLookup(dst, src, NameOf(once[i]).value);
      }
    }
  }

  // ----- associativity

  ghost predicate DistinctNames(entries: seq<Node>) {
    forall i, j :: 0 <= i < j < |entries| && NameOf(entries[i]).Some? ==> NameOf(entries[i]) != NameOf(entries[j])
  }

  lemma Put1Distinct(entries: seq<Node>, e: Node)
    requires DistinctNames(entries)
    ensures DistinctNames(Put1(entries, e))
  {
  }

  lemma {:induction false} PutAllDistinct(dst: seq<Node>, src: seq<Node>)
    requires DistinctNames(dst)
    ensures DistinctNames(PutAll(dst, src))
    decreases |src|
  {
    if src != [] {
      Put1Distinct(dst, src[0]);
      PutAllDistinct(Put1(dst, src[0]), src[1..]);
    }
  }

  /** Replacing an entry already present commutes with upserting one of another name. */
  lemma Put1Commute(z: seq<Node>, f: Node, e: Node)
    requires NameOf(e).Some? && NameOf(f) != NameOf(e)
    requires HasName(z, NameOf(e).value)
    ensures Put1(Put1(z, f), e) == Put1(Put1(z, e), f)
    ensures HasName(Put1(z, f), NameOf(e).value)
  {
    hide NameOf;
    var n := NameOf(e).value;
    var i := Position(z, n);
    Put1Position(z, f, n);
    assert Position(Put1(z, f), n) == i;
    assert Named(Put1(z, f)[i], n);
    if NameOf(f).Some? {
      var k := NameOf(f).value;
      var j := Position(z, k);
      Put1Position(z, e, k);
      assert Put1(z, e) == z[i := e];
      if j < |z| {
        assert Put1(z, f) == z[j := f];
        assert z[j := f][i := e] == z[i := e][j := f];
      } else {
        assert Put1(z, f) == z + [f];
        assert (z + [f])[i := e] == z[i := e] + [f];
      }
    }
  }

  lemma {:induction false} PutAllCommute(z: seq<Node>, src: seq<Node>, e: Node)
    requires NameOf(e).Some? && HasName(z, NameOf(e).value)
    requires forall f :: f in src ==> NameOf(f) != NameOf(e)
    ensures Put1(PutAll(z, src), e) == PutAll(Put1(z, e), src)
    decreases |src|
  {
    if src != [] {
      Put1Commute(z, src[0], e);
      PutAllCommute(Put1(z, src[0]), src[1..], e);
    }
  }

  lemma Put1Put1(z: seq<Node>, x: Node, e: Node)
    requires NameOf(e).Some? && NameOf(x) == NameOf(e)
    ensures Put1(Put1(z, x), e) == Put1(z, e)
    ensures HasName(Put1(z, x), NameOf(e).value)
  {
    var n := NameOf(e).value;
    Put1Position(z, x, n);
    var i := Position(z, n);
    assert Named(Put1(z, x)[i], n);
    if i < |z| {
      assert z[i := x][i := e] == z[i := e];
    } else {
      assert (z + [x])[i := e] == z + [e];
    }
  }

  lemma PutAllSplit(dst: seq<Node>, head: seq<Node>, x: Node, tail: seq<Node>)
    ensures PutAll(dst, head + [x] + tail) == PutAll(Put1(PutAll(dst, head), x), tail)
  {
    PutAllAppend(dst, head + [x], tail);
    PutAllSnoc(dst, head, x);
  }

  lemma PutThroughAt(dst: seq<Node>, head: seq<Node>, x: Node, tail: seq<Node>, e: Node)
    requires NameOf(e).Some? && NameOf(x) == NameOf(e)
    requires forall f :: f in tail ==> NameOf(f) != NameOf(e)
    ensures Put1(PutAll(dst, head + [x] + tail), e) == PutAll(dst, head + [e] + tail)
  {
    hide NameOf;
    var y := PutAll(dst, head);
    PutAllSplit(dst, head, x, tail);
    PutAllSplit(dst, head, e, tail);
    Put1Put1(y, x, e);
    PutAllCommute(Put1(y, x), tail, e);
  }

  /** Upserting into the middle operand first is upserting afterwards, when the middle names are distinct. */
  lemma PutThrough(dst: seq<Node>, mid: seq<Node>, e: Node)
    requires DistinctNames(mid)
    ensures Put1(PutAll(dst, mid), e) == PutAll(dst, Put1(mid, e))
  {
    hide NameOf, PutAll;
    if NameOf(e).Some? {
      var i := Position(mid, NameOf(e).value);
      if i == |mid| {
        PutAllSnoc(dst, mid, e);
      } else {
        var head, tail := mid[..i], mid[i + 1..];
        forall f | f in tail
          ensures NameOf(f) != NameOf(e)
        {
          var j :| 0 <= j < |tail| && tail[j] == f;
          assert f == mid[i + 1 + j];
        }
        PutThroughAt(dst, head, mid[i], tail, e);
        assert mid == head + [mid[i]] + tail;
        assert mid[i := e] == head + [e] + tail;
      }
    }
  }

  lemma {:induction false} MergeAssociative(a: seq<Node>, b: seq<Node>, c: seq<Node>)
    requires DistinctNames(b)
    ensures PutAll(PutAll(a, b), c) == PutAll(a, PutAll(b, c))
    decreases |c|
  {
    if c != [] {
      PutThrough(a, b, c[0]);
      Put1Distinct(b, c[0]);
      MergeAssociative(a, Put1(b, c[0]), c[1..]);
    }
  }

  function PlainEntry(name: string, mark: string): Node {
    Node(Mapping, mark, [ScalarNode("name"), ScalarNode(name)])
  }

  lemma PlainEntryName(name: string, mark: string)
    ensures Named(PlainEntry(name, mark), name)
  {
    KeyFromIs(PlainEntry(name, mark).content, "name", 0);
  }

  ghost predicate Associates(b: seq<Node>) {
    forall a, c :: PutAll(PutAll(a, b), c) == PutAll(a, PutAll(b, c))
  }

  /** A repeated name in the middle operand breaks associativity: its later entry resurfaces on one side only. */
  lemma RepeatBreaksAssociativity(b: seq<Node>, i: nat, j: nat) returns (c: seq<Node>)
    requires i < j < |b| && NameOf(b[i]).Some? && NameOf(b[i]) == NameOf(b[j])
    ensures PutAll(PutAll([], b), c) != PutAll([], PutAll(b, c))
  {
    var name := NameOf(b[i]).value;
    var last := LastNamed(b, name);
    assert Named(b[i], name);
    LastNamedIff(b, name);
    var mark := if last == Some(PlainEntry(name, "")) then "other" else "";
    var w := PlainEntry(name, mark);
    PlainEntryName(name, mark);
    c := [w];
    assert c[1..] == [];
    MergeLookup(PutAll([], b), c, name);
    assert LastNamed(c, name) == Some(w);
    var p := Position(b, name);
    assert PutAll(b, c) == b[p := w];
    LastAfterFirst(b, name, p, j, w);
    MergeLookup([], b[p := w], name);
  }

  /** Replacing an entry leaves a later one of the same name the last. */
  lemma {:induction false} LastAfterFirst(b: seq<Node>, name: string, p: nat, j: nat, w: Node)
    requires p < j < |b| && Named(b[j], name)
    ensures LastNamed(b[p := w], name) == LastNamed(b, name)
    decreases |b|
  {
    var r := b[p := w];
    assert r[|r| - 1] == b[|b| - 1];
    if !Named(b[|b| - 1], name) {
      assert r[..|r| - 1] == b[..|b| - 1][p := w];
      LastAfterFirst(b[..|b| - 1], name, p, j, w);
    }
  }

  /** Merging through a middle operand is associative for all outer operands exactly when its names are distinct. */
  lemma AssociativeIff(b: seq<Node>)
    ensures Associates(b) <==> DistinctNames(b)
  {
    if DistinctNames(b) {
      forall a, c
        ensures PutAll(PutAll(a, b), c) == PutAll(a, PutAll(b, c))
      {
        MergeAssociative(a, b, c);
      }
    } else {
      var i, j :| 0 <= i < j < |b| && NameOf(b[i]).Some? && NameOf(b[i]) == NameOf(b[j]);
      var c := RepeatBreaksAssociativity(b, i, j);
    }
  }
}
