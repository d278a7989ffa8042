/** YAML node trees as the kubeconfig code sees them: a mapping's content alternates keys and values. */
module Yaml {
  import opened Lists

  datatype Kind = Scalar | Mapping | Sequence

  datatype Node = Node(kind: Kind, value: string, content: seq<Node>)

  function ScalarNode(value: string): Node {
    Node(Scalar, value, [])
  }

  predicate IsKey(n: Node, key: string) {
    n.kind == Scalar && n.value == key
  }

  /** A mapping as the parser builds it. */
  predicate IsMap(n: Node) {
    n.kind == Mapping && |n.content| % 2 == 0
  }

  /** Position of the first key `key` at or after `i`, or the length. */
  function KeyFrom(content: seq<Node>, key: string, i: nat): (j: nat)
    requires i <= |content| && i % 2 == 0
    ensures i <= j <= |content|
    ensures j < |content| ==> j % 2 == 0 && IsKey(content[j], key)
    ensures forall k :: i <= k < j && k % 2 == 0 ==> !IsKey(content[k], key)
    decreases |content| - i
  {
    if i == |content| || IsKey(content[i], key) then i
    else if i + 1 == |content| then |content|
    else KeyFrom(content, key, i + 2)
  }

  /** The value of the first key `key` of a mapping. A parsed mapping has a value for every key. */
  function ValueOf(m: Node, key: string): Option<Node> {
    var j := KeyFrom(m.content, key, 0);
    if m.kind == Mapping && j + 1 < |m.content| then Some(m.content[j + 1]) else None
  }

  /** The text at `key`, or "" when the key is absent. */
  function ScalarValue(m: Node, key: string): string {
    match ValueOf(m, key)
    case None => ""
    case Some(n) => n.value
  }

  /** `m` with the value at `key` replaced, or with a new pair appended. */
  function Put(m: Node, key: string, v: Node): Node {
    var j := KeyFrom(m.content, key, 0);
    if j + 1 < |m.content| then m.(content := m.content[j + 1 := v])
    else m.(content := m.content + [ScalarNode(key), v])
  }

  /** The elements a reader finds in section `key`: those of a sequence, and none otherwise. */
  function Entries(m: Node, key: string): seq<Node> {
    match ValueOf(m, key)
    case None => []
    case Some(n) => if n.kind == Sequence then n.content else []
  }

  method FindValue(m: Node, key: string) returns (v: Option<Node>)
    ensures v == ValueOf(m, key)
  {
    if m.kind != Mapping {
      return None;
    }
    for i := 0 to |m.content|
      invariant forall k :: 0 <= k < i && k % 2 == 0 ==> !IsKey(m.content[k], key)
    {
      if i % 2 == 0 && m.content[i].kind == Scalar && m.content[i].value == key {
        KeyFromIs(m.content, key, i);
        return if i + 1 < |m.content| then Some(m.content[i + 1]) else None;
      }
    }
    KeyFromIs(m.content, key, |m.content|);
    return None;
  }

  lemma KeyFromIs(content: seq<Node>, key: string, j: nat)
    requires j <= |content|
    requires j < |content| ==> j % 2 == 0 && IsKey(content[j], key)
    requires forall k :: 0 <= k < j && k % 2 == 0 ==> !IsKey(content[k], key)
    ensures KeyFrom(content, key, 0) == j
  {
  }

  /** Where a key is found after a put: at its old place, or at the end when it is new. */
  lemma KeyAfterPut(m: Node, key: string, v: Node, other: string)
    requires IsMap(m)
    ensures IsMap(Put(m, key, v))
    ensures var j := KeyFrom(m.content, other, 0);
            KeyFrom(Put(m, key, v).content, other, 0)
            == if j < |m.content| || other == key then j else |Put(m, key, v).content|
  {
    var c := Put(m, key, v).content;
    var j := KeyFrom(m.content, other, 0);
    if j < |m.content| || other == key {
      forall k | 0 <= k < j && k % 2 == 0
        ensures !IsKey(c[k], other)
      {
        assert c[k] == m.content[k];
      }
      KeyFromIs(c, other, j);
    } else {
      forall k | 0 <= k < |c| && k % 2 == 0
        ensures !IsKey(c[k], other)
      {
        if k < |m.content| {
          assert c[k] == m.content[k];
        }
      }
      KeyFromIs(c, other, |c|);
    }
  }

  /** A put is seen at its key and nowhere else. */
  lemma PutGet(m: Node, key: string, v: Node, other: string)
    requires IsMap(m)
    ensures IsMap(Put(m, key, v))
    ensures ValueOf(Put(m, key, v), other) == if other == key then Some(v) else ValueOf(m, other)
  {
    KeyAfterPut(m, key, v, other);
  }

  lemma PutPut(m: Node, key: string, v: Node, w: Node)
    requires IsMap(m)
    ensures Put(Put(m, key, v), key, w) == Put(m, key, w)
  {
    KeyAfterPut(m, key, v, key);
    var j := KeyFrom(m.content, key, 0);
    if j == |m.content| {
      assert Put(Put(m, key, v), key, w).content == m.content + [ScalarNode(key), w];
    }
  }

  /** Replacing the values of two present keys can be done in either order. */
  lemma PutCommute(m: Node, k1: string, v1: Node, k2: string, v2: Node)
    requires IsMap(m) && k1 != k2
    requires ValueOf(m, k1).Some? && ValueOf(m, k2).Some?
    ensures Put(Put(m, k1, v1), k2, v2) == Put(Put(m, k2, v2), k1, v1)
  {
    KeyAfterPut(m, k1, v1, k2);
    KeyAfterPut(m, k2, v2, k1);
    var i, j := KeyFrom(m.content, k1, 0), KeyFrom(m.content, k2, 0);
    assert i != j;
    assert m.content[i + 1 := v1][j + 1 := v2] == m.content[j + 1 := v2][i + 1 := v1];
  }
}
