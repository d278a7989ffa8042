/** The in-memory kubeconfig cache, looked up by any number of goroutines with the upstream call made unlocked. */
module MemoryCache {
  import opened Lists

  type Tags = map<string, string>

  datatype Fetched = Ok(bytes: string) | Err(error: string)

  /** What the wrapped store answers. */
  type Upstream = (string, Tags) -> Fetched

  datatype Pc =
    | Idle
    | Looking(path: string, tags: Tags)
    | Calling(path: string, tags: Tags)
    | Writing(path: string, tags: Tags, bytes: string)
    | Returned(path: string, tags: Tags, result: Fetched)

  datatype Answer = Answer(path: string, tags: Tags, result: Fetched)

  /** The cache, the goroutines' program counters, and the history of upstream answers. */
  datatype State = State(cache: map<string, string>, pcs: map<nat, Pc>, answers: seq<Answer>) {
    function Pc(t: nat): Pc {
      if t in pcs then pcs[t] else Idle
    }

    function Go(t: nat, pc: Pc): State {
      this.(pcs := pcs[t := pc])
    }
  }

  datatype Step =
    | Call(t: nat, path: string, tags: Tags)
    | Look(t: nat)
    | Fetch(t: nat, result: Fetched)
    | Write(t: nat)

  const INITIAL := State(map[], map[], [])

  predicate Enabled(s: State, step: Step) {
    match step
    case Call(t, _, _) => s.Pc(t).Idle? || s.Pc(t).Returned?
    case Look(t) => s.Pc(t).Looking?
    case Fetch(t, _) => s.Pc(t).Calling?
    case Write(t) => s.Pc(t).Writing?
  }

  /** Look holds the read lock and Write the write lock, so each is atomic; Fetch holds none. */
  function Apply(s: State, step: Step): State
    requires Enabled(s, step)
  {
    match step
    case Call(t, path, tags) => s.Go(t, Looking(path, tags))
    case Look(t) =>
      var pc := s.Pc(t);
      s.Go(t, if pc.path in s.cache then Returned(pc.path, pc.tags, Ok(s.cache[pc.path]))
              else Calling(pc.path, pc.tags))
    case Fetch(t, result) =>
      var pc := s.Pc(t);
      s.Go(t, match result
              case Ok(bytes) => Writing(pc.path, pc.tags, bytes)
              case Err(_) => Returned(pc.path, pc.tags, result))
       .(answers := s.answers + [Answer(pc.path, pc.tags, result)])
    case Write(t) =>
      var pc := s.Pc(t);
      s.Go(t, Returned(pc.path, pc.tags, Ok(pc.bytes))).(cache := s.cache[pc.path := pc.bytes])
  }

  predicate Legal(s: State, steps: seq<Step>)
    decreases |steps|
  {
    steps != [] ==> Enabled(s, steps[0]) && Legal(Apply(s, steps[0]), steps[1..])
  }

  function After(s: State, steps: seq<Step>): State
    requires Legal(s, steps)
    decreases |steps|
  {
    if steps == [] then s else After(Apply(s, steps[0]), steps[1..])
  }

  // ----- provenance

  predicate Answered(s: State, path: string, result: Fetched) {
    exists i :: 0 <= i < |s.answers| && s.answers[i].path == path && s.answers[i].result == result
  }

  ghost predicate Inv(s: State) {
    && (forall p :: p in s.cache ==> Answered(s, p, Ok(s.cache[p])))
    && (forall t: nat :: s.Pc(t).Writing? ==> Answered(s, s.Pc(t).path, Ok(s.Pc(t).bytes)))
    && (forall t: nat :: s.Pc(t).Returned? ==> Answered(s, s.Pc(t).path, s.Pc(t).result))
  }

  lemma StepKeepsInv(s: State, step: Step)
    requires Inv(s) && Enabled(s, step)
    ensures Inv(Apply(s, step))
    ensures s.cache.Keys <= Apply(s, step).cache.Keys
    ensures s.answers <= Apply(s, step).answers
  {
    var s' := Apply(s, step);
    forall path, result | Answered(s, path, result)
      ensures Answered(s', path, result)
    {
      var i :| 0 <= i < |s.answers| && s.answers[i].path == path && s.answers[i].result == result;
      assert s'.answers[i] == s.answers[i];
    }
    forall t: nat | t != step.t
      ensures s'.Pc(t) == s.Pc(t)
    {
    }
    if step.Fetch? {
      assert s'.answers[|s.answers|] == Answer(s.Pc(step.t).path, s.Pc(step.t).tags, step.result);
      assert Answered(s', s.Pc(step.t).path, step.result);
    }
  }

  lemma {:induction false} RunKeepsInv(s: State, steps: seq<Step>)
    requires Inv(s) && Legal(s, steps)
    ensures Inv(After(s, steps))
    ensures s.cache.Keys <= After(s, steps).cache.Keys
    decreases |steps|
  {
    if steps != [] {
      StepKeepsInv(s, steps[0]);
      RunKeepsInv(Apply(s, steps[0]), steps[1..]);
    }
  }

  /** Every stored value and every returned value or error came from an upstream call for that very path. */
  lemma ValuesComeFromUpstream(steps: seq<Step>)
    requires Legal(INITIAL, steps)
    ensures var s := After(INITIAL, steps);
            && (forall p :: p in s.cache ==> Answered(s, p, Ok(s.cache[p])))
            && (forall t: nat :: s.Pc(t).Returned? ==> Answered(s, s.Pc(t).path, s.Pc(t).result))
  {
    RunKeepsInv(INITIAL, steps);
  }

  /** A stored path stays stored. */
  lemma StoredPathsStay(steps: seq<Step>, more: seq<Step>)
    requires Legal(INITIAL, steps) && Legal(After(INITIAL, steps), more)
    ensures After(INITIAL, steps).cache.Keys <= After(After(INITIAL, steps), more).cache.Keys
  {
    RunKeepsInv(INITIAL, steps);
    RunKeepsInv(After(INITIAL, steps), more);
  }

  // ----- transparency

  /** The run's upstream answers are those of `up`. */
  predicate Follows(up: Upstream, s: State, steps: seq<Step>)
    requires Legal(s, steps)
    decreases |steps|
  {
    steps != [] ==>
      && (steps[0].Fetch? ==> steps[0].result == up(s.Pc(steps[0].t).path, s.Pc(steps[0].t).tags))
      && Follows(up, Apply(s, steps[0]), steps[1..])
  }

  /** In no interleaving can a caller tell the cache from calling `up` directly. */
  ghost predicate Transparent(up: Upstream) {
    forall steps, t: nat ::
      Legal(INITIAL, steps) && Follows(up, INITIAL, steps) && After(INITIAL, steps).Pc(t).Returned? ==>
      var pc := After(INITIAL, steps).Pc(t);
      pc.result == up(pc.path, pc.tags)
  }

  /** Where a path can be fetched, its tags make no difference. */
  ghost predicate TagBlind(up: Upstream) {
    forall path, tags, other :: up(path, tags).Ok? ==> up(path, other) == up(path, tags)
  }

  ghost predicate Faithful(up: Upstream, s: State) {
    && (forall p, tags :: p in s.cache ==> up(p, tags) == Ok(s.cache[p]))
    && (forall t: nat :: s.Pc(t).Writing? ==> up(s.Pc(t).path, s.Pc(t).tags) == Ok(s.Pc(t).bytes))
    && (forall t: nat :: s.Pc(t).Returned? ==> up(s.Pc(t).path, s.Pc(t).tags) == s.Pc(t).result)
  }

  lemma {:induction false} RunStaysFaithful(up: Upstream, s: State, steps: seq<Step>)
    requires TagBlind(up) && Faithful(up, s) && Legal(s, steps) && Follows(up, s, steps)
    ensures Faithful(up, After(s, steps))
    decreases |steps|
  {
    if steps != [] {
      var s' := Apply(s, steps[0]);
      var t := steps[0].t;
      forall u: nat | u != t
        ensures s'.Pc(u) == s.Pc(u)
      {
      }
      if steps[0].Write? {
        forall tags
          ensures up(s.Pc(t).path, tags) == Ok(s.Pc(t).bytes)
        {
          assert up(s.Pc(t).path, s.Pc(t).tags).Ok?;
        }
      }
      RunStaysFaithful(up, s', steps[1..]);
    }
  }

  lemma LastStep(up: Upstream, s: State, step: Step)
    requires Enabled(s, step)
    requires step.Fetch? ==> step.result == up(s.Pc(step.t).path, s.Pc(step.t).tags)
    ensures Legal(s, [step]) && Follows(up, s, [step]) && After(s, [step]) == Apply(s, step)
  {
    assert [step][1..] == [];
  }

  lemma FirstStep(up: Upstream, s: State, step: Step, rest: seq<Step>)
    requires Enabled(s, step) && Legal(Apply(s, step), rest) && Follows(up, Apply(s, step), rest)
    requires step.Fetch? ==> step.result == up(s.Pc(step.t).path, s.Pc(step.t).tags)
    ensures Legal(s, [step] + rest) && Follows(up, s, [step] + rest)
    ensures After(s, [step] + rest) == After(Apply(s, step), rest)
  {
    assert ([step] + rest)[1..] == rest;
  }

  // ----- one call at a time, as the code

  function Served(up: Upstream, cache: map<string, string>, path: string, tags: Tags): Fetched {
    if path in cache then Ok(cache[path]) else up(path, tags)
  }

  function CacheAfter(up: Upstream, cache: map<string, string>, path: string, tags: Tags): map<string, string> {
    if path !in cache && up(path, tags).Ok? then cache[path := up(path, tags).bytes] else cache
  }

  /** The steps a goroutine takes when no other one interferes. */
  function OwnSteps(up: Upstream, cache: map<string, string>, t: nat, path: string, tags: Tags): seq<Step> {
    if path in cache then [Call(t, path, tags), Look(t)]
    else if up(path, tags).Err? then [Call(t, path, tags), Look(t), Fetch(t, up(path, tags))]
    else [Call(t, path, tags), Look(t), Fetch(t, up(path, tags)), Write(t)]
  }

  lemma FetchAndWrite(up: Upstream, s: State, t: nat)
    requires s.Pc(t).Calling?
    ensures var pc := s.Pc(t);
            var result := up(pc.path, pc.tags);
            var steps := [Fetch(t, result)] + (if result.Err? then [] else [Write(t)]);
            && Legal(s, steps) && Follows(up, s, steps)
            && After(s, steps).Pc(t) == Returned(pc.path, pc.tags, result)
            && After(s, steps).cache == (if result.Ok? then s.cache[pc.path := result.bytes] else s.cache)
            && forall u: nat :: u != t ==> After(s, steps).Pc(u) == s.Pc(u)
  {
    hide Legal, Follows, After;
    var fetch := Fetch(t, up(s.Pc(t).path, s.Pc(t).tags));
    if fetch.result.Ok? {
      LastStep(up, Apply(s, fetch), Write(t));
      FirstStep(up, s, fetch, [Write(t)]);
    } else {
      LastStep(up, s, fetch);
      assert [fetch] + [] == [fetch];
    }
  }

  /** Run alone, the protocol's steps serve and store exactly what the sequential method does. */
  lemma OwnStepsServe(up: Upstream, s: State, t: nat, path: string, tags: Tags)
    requires s.Pc(t).Idle? || s.Pc(t).Returned?
    ensures var steps := OwnSteps(up, s.cache, t, path, tags);
            && Legal(s, steps) && Follows(up, s, steps)
            && After(s, steps).Pc(t) == Returned(path, tags, Served(up, s.cache, path, tags))
            && After(s, steps).cache == CacheAfter(up, s.cache, path, tags)
            && forall u: nat :: u != t ==> After(s, steps).Pc(u) == s.Pc(u)
  {
    hide Legal, Follows, After;
    var s1 := Apply(s, Call(t, path, tags));
    var s2 := Apply(s1, Look(t));
    assert forall u: nat :: u != t ==> s2.Pc(u) == s1.Pc(u) == s.Pc(u);
    if path in s.cache {
      LastStep(up, s1, Look(t));
      FirstStep(up, s, Call(t, path, tags), [Look(t)]);
      assert [Call(t, path, tags)] + [Look(t)] == OwnSteps(up, s.cache, t, path, tags);
    } else {
      var tail := [Fetch(t, up(path, tags))] + (if up(path, tags).Err? then [] else [Write(t)]);
      FetchAndWrite(up, s2, t);
      FirstStep(up, s1, Look(t), tail);
      FirstStep(up, s, Call(t, path, tags), [Look(t)] + tail);
      assert [Call(t, path, tags)] + ([Look(t)] + tail) == OwnSteps(up, s.cache, t, path, tags);
    }
  }

  lemma {:induction false} RunOn(up: Upstream, s: State, a: seq<Step>, b: seq<Step>)
    requires Legal(s, a) && Follows(up, s, a)
    requires Legal(After(s, a), b) && Follows(up, After(s, a), b)
    ensures Legal(s, a + b) && Follows(up, s, a + b) && After(s, a + b) == After(After(s, a), b)
    decreases |a|
  {
    if a == [] {
      assert a + b == b;
    } else {
      RunOn(up, Apply(s, a[0]), a[1..], b);
      FirstStep(up, s, a[0], a[1..] + b);
      assert [a[0]] + (a[1..] + b) == a + b;
    }
  }

  /** Two calls one after the other, for the same path but other tags. */
  function TwoCalls(up: Upstream, path: string, tags: Tags, other: Tags): seq<Step> {
    OwnSteps(up, map[], 0, path, tags) + OwnSteps(up, CacheAfter(up, map[], path, tags), 1, path, other)
  }

  /** The second is answered from the cache. */
  lemma SecondCallHits(up: Upstream, path: string, tags: Tags, other: Tags)
    requires up(path, tags).Ok?
    ensures var steps := TwoCalls(up, path, tags, other);
            && Legal(INITIAL, steps) && Follows(up, INITIAL, steps)
            && After(INITIAL, steps).Pc(1) == Returned(path, other, up(path, tags))
  {
    hide Legal, Follows, After;
    var first := OwnSteps(up, map[], 0, path, tags);
    OwnStepsServe(up, INITIAL, 0, path, tags);
    OwnStepsServe(up, After(INITIAL, first), 1, path, other);
    RunOn(up, INITIAL, first, OwnSteps(up, CacheAfter(up, map[], path, tags), 1, path, other));
  }

  /** The cache cannot be told from the upstream, in any interleaving, exactly when fetchable paths ignore tags. */
  lemma TransparentIff(up: Upstream)
    ensures Transparent(up) <==> TagBlind(up)
  {
    if TagBlind(up) {
      forall steps, t: nat
        | Legal(INITIAL, steps) && Follows(up, INITIAL, steps) && After(INITIAL, steps).Pc(t).Returned?
        ensures var pc := After(INITIAL, steps).Pc(t);
                pc.result == up(pc.path, pc.tags)
      {
        RunStaysFaithful(up, INITIAL, steps);
      }
    }
    if Transparent(up) {
      forall path, tags, other | up(path, tags).Ok?
        ensures up(path, other) == up(path, tags)
      {
        SecondCallHits(up, path, tags, other);
        assert After(INITIAL, TwoCalls(up, path, tags, other)).Pc(1).Returned?;
      }
    }
  }

  class Cache {
    var cache: map<string, string>

    constructor ()
      ensures cache == map[]
    {
      cache := map[];
    }

    method GetKubeconfigForPath(up: Upstream, path: string, tags: Tags) returns (result: Fetched)
      modifies this
      ensures result == Served(up, old(cache), path, tags)
      ensures cache == CacheAfter(up, old(cache), path, tags)
    {
      if path in cache {
        return Ok(cache[path]);
      }
      var kube := up(path, tags);
      if kube.Err? {
        return kube;
      }
      cache := cache[path := kube.bytes];
      return kube;
    }
  }
}
