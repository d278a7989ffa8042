/** Sequence helpers shared by the models. */
module Lists {

  datatype Option<+T> = None | Some(value: T) {
    function GetOr(default: T): T {
      if Some? then value else default
    }
  }

  function Filter<T>(keep: T -> bool, s: seq<T>): (r: seq<T>)
  {
    if s == [] then []
    else (if keep(s[0]) then [s[0]] else []) + Filter(keep, s[1..])
  }

  function Reverse<T>(s: seq<T>): (r: seq<T>)
  {
    if s == [] then [] else Reverse(s[1..]) + [s[0]]
  }

  ghost predicate NoDup<T>(s: seq<T>) {
    forall i, j :: 0 <= i < j < |s| ==> s[i] != s[j]
  }

  /** `order` visits every key of `m` once, as an iteration over a Go map does. */
  ghost predicate Enumerates<T>(m: map<string, T>, order: seq<string>) {
    NoDup(order) && forall n :: n in order <==> n in m
  }

  lemma {:induction false} FilterAppend<T>(keep: T -> bool, s: seq<T>, t: seq<T>)
    ensures Filter(keep, s + t) == Filter(keep, s) + Filter(keep, t)
  {
    if s == [] {
      assert s + t == t;
      assert Filter(keep, s) + Filter(keep, t) == Filter(keep, t);
    } else {
      FilterAppend(keep, s[1..], t);
      assert (s + t)[1..] == s[1..] + t;
      var head := if keep(s[0]) then [s[0]] else [];
      assert Filter(keep, s + t) == head + (Filter(keep, s[1..]) + Filter(keep, t));
      assert Filter(keep, s) == head + Filter(keep, s[1..]);
    }
  }

  lemma {:induction false} FilterMember<T>(keep: T -> bool, s: seq<T>, x: T)
    ensures x in Filter(keep, s) <==> x in s && keep(x)
  {
    if s != [] {
      assert s == [s[0]] + s[1..];
      FilterMember(keep, s[1..], x);
    }
  }

  /** Two filters that agree on the elements of `s` keep the same elements. */
  lemma {:induction false} FilterAgree<T>(p: T -> bool, q: T -> bool, s: seq<T>)
    requires forall x :: x in s ==> p(x) == q(x)
    ensures Filter(p, s) == Filter(q, s)
  {
    if s != [] {
      FilterAgree(p, q, s[1..]);
    }
  }

  lemma {:induction false} FilterAll<T>(p: T -> bool, s: seq<T>)
    requires forall x :: x in s ==> p(x)
    ensures Filter(p, s) == s
  {
    if s != [] {
      FilterAll(p, s[1..]);
    }
  }

  lemma {:induction false} FilterNone<T>(p: T -> bool, s: seq<T>)
    requires forall x :: x in s ==> !p(x)
    ensures Filter(p, s) == []
  {
    if s != [] {
      FilterNone(p, s[1..]);
    }
  }

  /** Filtering twice is filtering once by a predicate that is both. */
  lemma {:induction false} FilterTwice<T>(p: T -> bool, q: T -> bool, both: T -> bool, s: seq<T>)
    requires forall x :: x in s ==> both(x) == (p(x) && q(x))
    ensures Filter(p, Filter(q, s)) == Filter(both, s)
  {
    if s != [] {
      FilterTwice(p, q, both, s[1..]);
      FilterAppend(p, if q(s[0]) then [s[0]] else [], Filter(q, s[1..]));
    }
  }

  lemma {:induction false} FilterSwap<T>(p: T -> bool, q: T -> bool, s: seq<T>)
    ensures Filter(p, Filter(q, s)) == Filter(q, Filter(p, s))
  {
    FilterTwice(p, q, x => p(x) && q(x), s);
    FilterTwice(q, p, x => p(x) && q(x), s);
  }
}
