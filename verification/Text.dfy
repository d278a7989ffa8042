/** The parts of Go's `strings` package the modelled code relies on. */
module Text {
  import opened Lists

  predicate OccursAt(s: string, sep: string, i: int) {
    0 <= i <= |s| - |sep| && s[i..i + |sep|] == sep
  }

  predicate Contains(s: string, sep: string) {
    exists i :: 0 <= i <= |s| && OccursAt(s, sep, i)
  }

  predicate HasPrefix(s: string, prefix: string) {
    prefix <= s
  }

  predicate HasSuffix(s: string, suffix: string) {
    |suffix| <= |s| && s[|s| - |suffix|..] == suffix
  }

  function TrimPrefix(s: string, prefix: string): string {
    if HasPrefix(s, prefix) then s[|prefix|..] else s
  }

  /** Index of the leftmost occurrence of `sep` at or after `from`. */
  function FindFrom(s: string, sep: string, from: nat): (r: Option<nat>)
    ensures r.Some? ==> from <= r.value && OccursAt(s, sep, r.value)
    ensures r.Some? ==> forall j :: from <= j < r.value ==> !OccursAt(s, sep, j)
    ensures r.None? ==> forall j :: from <= j ==> !OccursAt(s, sep, j)
    decreases |s| - from
  {
    if from + |sep| > |s| then None
    else if OccursAt(s, sep, from) then Some(from)
    else FindFrom(s, sep, from + 1)
  }

  /** `strings.Split` for a non-empty separator. */
  function Split(s: string, sep: string): (parts: seq<string>)
    requires sep != ""
    ensures parts != []
    decreases |s|
  {
    match FindFrom(s, sep, 0)
    case None => [s]
    case Some(i) => [s[..i]] + Split(s[i + |sep|..], sep)
  }

  /** `strings.Join`. */
  function Join(parts: seq<string>, sep: string): string
  {
    if parts == [] then ""
    else if |parts| == 1 then parts[0]
    else parts[0] + sep + Join(parts[1..], sep)
  }

  /** `strings.ReplaceAll` for a one-character pattern. */
  function ReplaceChar(s: string, c: char, with: string): string
  {
    if s == "" then ""
    else (if s[0] == c then with else [s[0]]) + ReplaceChar(s[1..], c, with)
  }

  /** What splitting on the doubled character `c` needs of the parts that were joined. */
  ghost predicate Clean(parts: seq<string>, c: char) {
    && (forall i :: 0 <= i < |parts| ==> !Contains(parts[i], [c, c]))
    && (forall i :: 0 <= i < |parts| - 1 ==> !HasSuffix(parts[i], [c]))
  }

  lemma ContainsPrefix(p: string, rest: string, sep: string)
    requires Contains(p, sep)
    ensures exists i :: 0 <= i <= |p| - |sep| && OccursAt(p + rest, sep, i)
  {
    var i :| 0 <= i <= |p| && OccursAt(p, sep, i);
    assert (p + rest)[i..i + |sep|] == p[i..i + |sep|];
    assert OccursAt(p + rest, sep, i);
  }

  lemma PairAt(s: string, c: char, i: nat)
    ensures OccursAt(s, [c, c], i) <==> i < |s| - 1 && s[i] == c && s[i + 1] == c
  {
    if i < |s| - 1 {
      assert s[i..i + 2] == [s[i], s[i + 1]];
    }
  }

  /** The leftmost separator of `p + cc + rest` is the one after `p` exactly when `p` is clean. */
  lemma FirstSeparator(p: string, rest: string, c: char)
    ensures FindFrom(p + [c, c] + rest, [c, c], 0) == Some(|p|)
            <==> !Contains(p, [c, c]) && !HasSuffix(p, [c])
  {
    var s := p + [c, c] + rest;
    assert s == p + ([c, c] + rest);
    assert OccursAt(s, [c, c], |p|);
    if Contains(p, [c, c]) {
      ContainsPrefix(p, [c, c] + rest, [c, c]);
    } else if HasSuffix(p, [c]) {
      assert p[|p| - 1..] == [p[|p| - 1]];
      assert OccursAt(s, [c, c], |p| - 1);
    } else {
      forall j | 0 <= j < |p|
        ensures !OccursAt(s, [c, c], j)
      {
        PairAt(s, c, j);
        if j < |p| - 1 {
          PairAt(p, c, j);
        } else {
          assert p[|p| - 1..] == [p[j]];
        }
      }
    }
  }

  lemma CleanTail(parts: seq<string>, c: char)
    requires |parts| > 1
    ensures Clean(parts, c) <==> !Contains(parts[0], [c, c]) && !HasSuffix(parts[0], [c]) && Clean(parts[1..], c)
  {
    var rest := parts[1..];
    if !Contains(parts[0], [c, c]) && !HasSuffix(parts[0], [c]) && Clean(rest, c) {
      forall i | 0 <= i < |parts|
        ensures !Contains(parts[i], [c, c]) && (i < |parts| - 1 ==> !HasSuffix(parts[i], [c]))
      {
        if i > 0 {
          assert parts[i] == rest[i - 1];
        }
      }
    }
    if Clean(parts, c) {
      forall i | 0 <= i < |rest|
        ensures !Contains(rest[i], [c, c]) && (i < |rest| - 1 ==> !HasSuffix(rest[i], [c]))
      {
        assert rest[i] == parts[i + 1];
      }
    }
  }

  lemma SplitAt(s: string, sep: string, i: nat)
    requires sep != "" && FindFrom(s, sep, 0) == Some(i)
    ensures i + |sep| <= |s|
    ensures Split(s, sep) == [s[..i]] + Split(s[i + |sep|..], sep)
  {
  }

  /** A split begins with `p` and goes on with that of `tail` exactly when the leftmost separator comes right after
      `p`. */
  lemma SplitBegins(p: string, tail: string, c: char, rest: seq<string>)
    ensures Split(p + [c, c] + tail, [c, c]) == [p] + rest
       <==> FindFrom(p + [c, c] + tail, [c, c], 0) == Some(|p|) && Split(tail, [c, c]) == rest
  {
    var s := p + [c, c] + tail;
    assert s[|p|..|p| + 2] == [c, c];
    assert OccursAt(s, [c, c], |p|);
    var i := FindFrom(s, [c, c], 0).value;
    SplitAt(s, [c, c], i);
    hide Split, FindFrom;
    var split := [s[..i]] + Split(s[i + 2..], [c, c]);
    assert split[0] == s[..i] && split[1..] == Split(s[i + 2..], [c, c]);
    assert ([p] + rest)[0] == p && ([p] + rest)[1..] == rest;
    if i == |p| {
      assert s[..i] == p && s[i + 2..] == tail;
    } else {
      assert |s[..i]| != |p|;
    }
  }

  /** Splitting inverts joining exactly on clean parts. */
  lemma {:induction false} SplitJoin(parts: seq<string>, c: char)
    requires parts != []
    ensures Split(Join(parts, [c, c]), [c, c]) == parts <==> Clean(parts, c)
  {
    if |parts| == 1 {
      assert Contains(parts[0], [c, c]) <==> FindFrom(parts[0], [c, c], 0).Some?;
    } else {
      hide Split, FindFrom, Clean, Contains, HasSuffix;
      var tail := Join(parts[1..], [c, c]);
      assert parts == [parts[0]] + parts[1..];
      FirstSeparator(parts[0], tail, c);
      SplitBegins(parts[0], tail, c, parts[1..]);
      CleanTail(parts, c);
      SplitJoin(parts[1..], c);
    }
  }

  /** Joining inverts splitting on every string. */
  lemma {:induction false} JoinSplit(s: string, sep: string)
    requires sep != ""
    ensures Join(Split(s, sep), sep) == s
    decreases |s|
  {
    match FindFrom(s, sep, 0)
    case None =>
    case Some(i) =>
      JoinSplit(s[i + |sep|..], sep);
      assert Split(s, sep)[1..] == Split(s[i + |sep|..], sep);
      assert s == s[..i] + sep + s[i + |sep|..];
  }

  /** Splitting on one character leaves it in no part. */
  lemma {:induction false} SplitLeavesNone(s: string, c: char)
    ensures forall p :: p in Split(s, [c]) ==> c !in p
    decreases |s|
  {
    match FindFrom(s, [c], 0)
    case None =>
      forall i | 0 <= i < |s|
        ensures s[i] != c
      {
        assert !OccursAt(s, [c], i);
      }
    case Some(k) =>
      forall i | 0 <= i < k
        ensures s[i] != c
      {
        assert !OccursAt(s, [c], i);
      }
      SplitLeavesNone(s[k + 1..], c);
  }

  lemma {:induction false} SplitJoinOn(parts: seq<string>, c: char)
    requires parts != [] && forall p :: p in parts ==> c !in p
    ensures Split(Join(parts, [c]), [c]) == parts
  {
    var s := Join(parts, [c]);
    assert parts[0] in parts;
    if |parts| == 1 {
      forall i | 0 <= i < |s|
        ensures !OccursAt(s, [c], i)
      {
        assert s[i..i + 1] == [s[i]];
      }
      assert FindFrom(s, [c], 0) == None;
    } else {
      assert parts == [parts[0]] + parts[1..];
      var tail := Join(parts[1..], [c]);
      assert s == parts[0] + [c] + tail;
      assert s[|parts[0]|..|parts[0]| + 1] == [c];
      assert OccursAt(s, [c], |parts[0]|);
      forall i | 0 <= i < |parts[0]|
        ensures !OccursAt(s, [c], i)
      {
        assert s[i..i + 1] == [parts[0][i]];
      }
      assert FindFrom(s, [c], 0) == Some(|parts[0]|);
      SplitAt(s, [c], |parts[0]|);
      assert s[..|parts[0]|] == parts[0] && s[|parts[0]| + 1..] == tail;
      SplitJoinOn(parts[1..], c);
    }
  }
}
