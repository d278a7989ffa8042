/** One-time initialisation with a mutex and an atomic flag, called by any number of goroutines. */
module LazyInit {
  import opened Lists

  datatype Outcome = Nil | Error

  /** Where a goroutine stands in `ensure`; between lock and unlock it holds the mutex. */
  datatype Pc =
    | Idle
    | FirstLoad
    | Locking
    | SecondLoad
    | Initialising
    | Storing
    | Unlocking(result: Outcome)
    | Returned(result: Outcome)

  datatype Event = Started | Succeeded | Failed

  /** Shared memory, the program counters of the goroutines seen so far, and the history of init runs. */
  datatype State = State(mu: Option<nat>, ready: bool, pcs: map<nat, Pc>, events: seq<Event>) {
    function Pc(t: nat): Pc {
      if t in pcs then pcs[t] else Idle
    }

    function Go(t: nat, pc: Pc): State {
      this.(pcs := pcs[t := pc])
    }

    predicate Holds(t: nat) {
      Pc(t).SecondLoad? || Pc(t).Initialising? || Pc(t).Storing? || Pc(t).Unlocking?
    }

    /** What `done` reports. */
    predicate Done() {
      ready
    }
  }

  datatype Step =
    | Call(t: nat)
    | LoadFirst(t: nat)
    | Lock(t: nat)
    | LoadSecond(t: nat)
    | FinishInit(t: nat, result: Outcome)
    | Store(t: nat)
    | Unlock(t: nat)

  const INITIAL := State(None, false, map[], [])

  predicate Enabled(s: State, step: Step) {
    match step
    case Call(t) => s.Pc(t).Idle? || s.Pc(t).Returned?
    case LoadFirst(t) => s.Pc(t).FirstLoad?
    case Lock(t) => s.Pc(t).Locking? && s.mu == None
    case LoadSecond(t) => s.Pc(t).SecondLoad?
    case FinishInit(t, _) => s.Pc(t).Initialising?
    case Store(t) => s.Pc(t).Storing?
    case Unlock(t) => s.Pc(t).Unlocking?
  }

  function Apply(s: State, step: Step): State
    requires Enabled(s, step)
  {
    match step
    case Call(t) => s.Go(t, FirstLoad)
    case LoadFirst(t) => s.Go(t, if s.ready then Returned(Nil) else Locking)
    case Lock(t) => s.Go(t, SecondLoad).(mu := Some(t))
    case LoadSecond(t) =>
      if s.ready then s.Go(t, Unlocking(Nil)) else s.Go(t, Initialising).(events := s.events + [Started])
    case FinishInit(t, Nil) => s.Go(t, Storing).(events := s.events + [Succeeded])
    case FinishInit(t, Error) => s.Go(t, Unlocking(Error)).(events := s.events + [Failed])
    case Store(t) => s.Go(t, Unlocking(Nil)).(ready := true)
    case Unlock(t) => s.Go(t, Returned(s.Pc(t).result)).(mu := None)
  }

  /** Every step of the run is enabled where it is taken. */
  predicate Legal(s: State, steps: seq<Step>)
    decreases |steps|
  {
    steps != [] ==> Enabled(s, steps[0]) && Legal(Apply(s, steps[0]), steps[1..])
  }

  function After(s: State, steps: seq<Step>): State
    requires Legal(s, steps)
    decreases |steps|
  {
    if steps == [] then s else After(Apply(s, steps[0]), steps[1..])
  }

  // ----- the history of init runs

  datatype Log = Quiet | Running | Completed | Overlapping

  /** Folds the history; Overlapping stands for a second concurrent run, or any run after a success. */
  function LogOf(events: seq<Event>): Log {
    if events == [] then Quiet
    else
      match (LogOf(events[..|events| - 1]), events[|events| - 1])
      case (Quiet, Started) => Running
      case (Running, Failed) => Quiet
      case (Running, Succeeded) => Completed
      case _ => Overlapping
  }

  /** A history that never overlaps has at most one success, and nothing follows it. */
  lemma {:induction false} SuccessIsLast(events: seq<Event>, i: nat)
    requires LogOf(events) != Overlapping && i < |events| && events[i] == Succeeded
    ensures i == |events| - 1
    decreases |events|
  {
    var init := events[..|events| - 1];
    if i < |init| {
      SuccessIsLast(init, i);
    }
  }

  // ----- the invariant

  ghost predicate Inv(s: State) {
    && (forall t: nat :: s.Holds(t) <==> s.mu == Some(t))
    && (forall t: nat :: s.Pc(t).Initialising? ==> LogOf(s.events) == Running)
    && (forall t: nat :: s.Pc(t).Storing? ==> LogOf(s.events) == Completed && !s.ready)
    && (LogOf(s.events) == Running ==> s.mu.Some? && s.Pc(s.mu.value).Initialising?)
    && (LogOf(s.events) == Completed ==> s.ready || (s.mu.Some? && s.Pc(s.mu.value).Storing?))
    && LogOf(s.events) != Overlapping
    && (s.ready ==> LogOf(s.events) == Completed)
    && (forall t: nat :: (s.Pc(t).Unlocking? || s.Pc(t).Returned?) && s.Pc(t).result == Nil ==> s.ready)
  }

  lemma LogSnoc(events: seq<Event>, e: Event)
    ensures LogOf(events + [e]) == match (LogOf(events), e)
                                   case (Quiet, Started) => Running
                                   case (Running, Failed) => Quiet
                                   case (Running, Succeeded) => Completed
                                   case _ => Overlapping
  {
    assert (events + [e])[..|events|] == events;
  }

  lemma StepKeepsInv(s: State, step: Step)
    requires Inv(s) && Enabled(s, step)
    ensures Inv(Apply(s, step))
    ensures s.ready ==> Apply(s, step).ready && Apply(s, step).events == s.events
  {
    hide LogOf;
    var s' := Apply(s, step);
    LogSnoc(s.events, Started);
    LogSnoc(s.events, Succeeded);
    LogSnoc(s.events, Failed);
    forall t: nat | t != step.t
      ensures s'.Pc(t) == s.Pc(t) && s'.Holds(t) == s.Holds(t)
    {
    }
    forall t: nat | s.Pc(t).Initialising? || s.Pc(t).Storing?
      ensures s.mu == Some(t)
    {
      assert s.Holds(t);
    }
    assert s.Holds(step.t) <==> s.mu == Some(step.t);
  }

  lemma {:induction false} RunKeepsInv(s: State, steps: seq<Step>)
    requires Inv(s) && Legal(s, steps)
    ensures Inv(After(s, steps))
    ensures s.ready ==> After(s, steps).ready && After(s, steps).events == s.events
    decreases |steps|
  {
    if steps != [] {
      StepKeepsInv(s, steps[0]);
      RunKeepsInv(Apply(s, steps[0]), steps[1..]);
    }
  }

  // ----- what callers rely on, for every interleaving of any number of goroutines

  /** At most one init runs at a time; at most one ever succeeds and none starts after it; a nil return is ready. */
  lemma InitRunsOnce(steps: seq<Step>)
    requires Legal(INITIAL, steps)
    ensures var s := After(INITIAL, steps);
            && (forall t: nat, u: nat :: s.Pc(t).Initialising? && s.Pc(u).Initialising? ==> t == u)
            && (forall i :: 0 <= i < |s.events| && s.events[i] == Succeeded ==> i == |s.events| - 1)
            && (forall t: nat :: s.Pc(t) == Returned(Nil) ==> s.Done())
  {
    RunKeepsInv(INITIAL, steps);
    var s := After(INITIAL, steps);
    forall i | 0 <= i < |s.events| && s.events[i] == Succeeded
      ensures i == |s.events| - 1
    {
      SuccessIsLast(s.events, i);
    }
    forall t: nat, u: nat | s.Pc(t).Initialising? && s.Pc(u).Initialising?
      ensures t == u
    {
      assert s.Holds(t) && s.Holds(u);
    }
  }

  /** `done` is false until an init has succeeded, and true from then on but for the one step that publishes it. */
  lemma DoneIsExact(steps: seq<Step>)
    requires Legal(INITIAL, steps)
    ensures var s := After(INITIAL, steps);
            && (s.Done() ==> Succeeded in s.events)
            && (Succeeded in s.events ==> s.Done() || exists t: nat :: s.Pc(t).Storing?)
            && !(s.Done() && exists t: nat :: s.Pc(t).Storing? || s.Pc(t).Initialising?)
  {
    RunKeepsInv(INITIAL, steps);
    var s := After(INITIAL, steps);
    if Succeeded in s.events {
      var i :| 0 <= i < |s.events| && s.events[i] == Succeeded;
      SuccessIsLast(s.events, i);
    }
  }

  /** Once done, always done: whatever runs afterwards starts no init. */
  lemma DoneIsStable(steps: seq<Step>, more: seq<Step>)
    requires Legal(INITIAL, steps) && After(INITIAL, steps).Done() && Legal(After(INITIAL, steps), more)
    ensures var s := After(After(INITIAL, steps), more);
            s.Done() && s.events == After(INITIAL, steps).events
  {
    RunKeepsInv(INITIAL, steps);
    RunKeepsInv(After(INITIAL, steps), more);
  }

  /** Failures leave init retryable: while no success has happened and the mutex is free, any new caller gets to run
      it. */
  lemma Retryable(steps: seq<Step>, t: nat)
    requires Legal(INITIAL, steps)
    requires !After(INITIAL, steps).ready && After(INITIAL, steps).mu == None
    requires After(INITIAL, steps).Pc(t).Idle? || After(INITIAL, steps).Pc(t) == Returned(Error)
    ensures var retry := [Call(t), LoadFirst(t), Lock(t), LoadSecond(t)];
            && Legal(After(INITIAL, steps), retry)
            && After(After(INITIAL, steps), retry).Pc(t).Initialising?
  {
    var s := After(INITIAL, steps);
    var s1 := Apply(s, Call(t));
    var s2 := Apply(s1, LoadFirst(t));
    var s3 := Apply(s2, Lock(t));
    assert [Call(t), LoadFirst(t), Lock(t), LoadSecond(t)][1..] == [LoadFirst(t), Lock(t), LoadSecond(t)];
    assert [LoadFirst(t), Lock(t), LoadSecond(t)][1..] == [Lock(t), LoadSecond(t)];
    assert [Lock(t), LoadSecond(t)][1..] == [LoadSecond(t)];
    assert [LoadSecond(t)][1..] == [];
    assert Legal(s3, [LoadSecond(t)]);
    assert After(s3, [LoadSecond(t)]) == Apply(s3, LoadSecond(t));
    assert After(s2, [Lock(t), LoadSecond(t)]) == After(s3, [LoadSecond(t)]);
    assert After(s1, [LoadFirst(t), Lock(t), LoadSecond(t)]) == After(s2, [Lock(t), LoadSecond(t)]);
    assert Legal(s2, [Lock(t), LoadSecond(t)]);
    assert Legal(s1, [LoadFirst(t), Lock(t), LoadSecond(t)]);
  }

  function StepOf(s: State, t: nat): Step {
    match s.Pc(t)
    case Idle => Call(t)
    case FirstLoad => LoadFirst(t)
    case Locking => Lock(t)
    case SecondLoad => LoadSecond(t)
    case Initialising => FinishInit(t, Error)
    case Storing => Store(t)
    case Unlocking(_) => Unlock(t)
    case Returned(_) => Call(t)
  }

  /** No deadlock: a goroutine inside `ensure` can move, or waits for a mutex whose holder can. */
  lemma SomeoneCanMove(steps: seq<Step>, t: nat)
    requires Legal(INITIAL, steps)
    ensures var s := After(INITIAL, steps);
            Enabled(s, StepOf(s, t))
            || (s.Pc(t).Locking? && s.mu.Some? && s.mu.value != t && Enabled(s, StepOf(s, s.mu.value)))
  {
    RunKeepsInv(INITIAL, steps);
    var s := After(INITIAL, steps);
    if s.Pc(t).Locking? && s.mu.Some? {
      assert s.Holds(s.mu.value);
    }
  }
}
