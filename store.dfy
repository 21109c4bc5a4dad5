/** The application's Redux store: one slice, `podcast`, whose five
    reducers assign fields of the state in place. `PodcastStore` holds the
    fields; `Reduce` says what each action does to a state value, and each
    reducer method is proved to do exactly that. */
module Store {
  import opened Wrappers
  import opened Models

  /** `PodcastState`; `null` is `None`, a JavaScript number is a real. */
  datatype PodcastState = PodcastState(
    isGenerating: bool,
    currentStep: string,
    progress: real,
    result: Option<PodcastPackage>,
    error: Option<string>)

  /** `initialState`. */
  const Initial := PodcastState(false, "", 0.0, None, None)

  /** The five actions of the slice, with their payloads. */
  datatype Action =
    | Start
    | Progress(step: string, value: real)
    | Succeeded(pkg: PodcastPackage)
    | Failed(message: string)
    | Reset

  const InitializingStep := "Initializing pipeline..."
  const CompleteStep := "Podcast generation complete!"
  const ErrorStep := "Error"

  /** The state after one action. */
  function Reduce(s: PodcastState, a: Action): (r: PodcastState)
    ensures a.Start? ==> r.isGenerating && r.currentStep == InitializingStep && r.progress == 0.0
                         && r.result.None? && r.error.None?
    ensures a.Progress? ==> r.currentStep == a.step && r.progress == a.value
                            && r.isGenerating == s.isGenerating && r.result == s.result && r.error == s.error
    ensures a.Succeeded? ==> !r.isGenerating && r.currentStep == CompleteStep && r.progress == 100.0
                             && r.result == Some(a.pkg) && r.error == s.error
    ensures a.Failed? ==> !r.isGenerating && r.currentStep == ErrorStep && r.error == Some(a.message)
                          && r.progress == s.progress && r.result == s.result
    ensures a.Reset? ==> r == Initial
  {
    match a
    case Start => s.(isGenerating := true, currentStep := InitializingStep, progress := 0.0,
                     result := None, error := None)
    case Progress(step, value) => s.(currentStep := step, progress := value)
    case Succeeded(pkg) => s.(isGenerating := false, currentStep := CompleteStep, progress := 100.0,
                              result := Some(pkg))
    case Failed(message) => s.(isGenerating := false, currentStep := ErrorStep, error := Some(message))
    case Reset => Initial
  }

  /** The state after a series of dispatched actions, in order. */
  function Run(s: PodcastState, actions: seq<Action>): PodcastState
    decreases |actions|
  {
    if actions == [] then s else Run(Reduce(s, actions[0]), actions[1..])
  }

  /** While a generation runs, neither a result nor an error is on show. */
  predicate Consistent(s: PodcastState) {
    s.isGenerating ==> s.result.None? && s.error.None?
  }

  /** Every action keeps the state consistent. */
  lemma ReduceConsistent(s: PodcastState, a: Action)
    requires Consistent(s)
    ensures Consistent(Reduce(s, a))
  {
  }

  /** Any series of actions from a consistent state, the initial one among
      them, ends in a consistent state. */
  lemma {:induction false} RunConsistent(s: PodcastState, actions: seq<Action>)
    requires Consistent(s)
    ensures Consistent(Run(s, actions))
    decreases |actions|
  {
    if actions != [] {
      ReduceConsistent(s, actions[0]);
      RunConsistent(Reduce(s, actions[0]), actions[1..]);
    }
  }

  /** Resetting gives the initial state, whatever came before, so a second
      reset changes nothing. */
  lemma ResetIdempotent(s: PodcastState)
    ensures Reduce(s, Reset) == Initial
    ensures Reduce(Reduce(s, Reset), Reset) == Reduce(s, Reset)
  {
  }

  /** Progress reports only move the step and the percentage. */
  predicate OnlyProgress(actions: seq<Action>) {
    forall i :: 0 <= i < |actions| ==> actions[i].Progress?
  }

  /** A run of progress reports keeps whether a generation is running, the
      result and the error. */
  lemma {:induction false} ProgressKeeps(s: PodcastState, updates: seq<Action>)
    requires OnlyProgress(updates)
    ensures var r := Run(s, updates);
      r.isGenerating == s.isGenerating && r.result == s.result && r.error == s.error
    decreases |updates|
  {
    if updates != [] {
      assert OnlyProgress(updates[1..]) by {
        forall i | 0 <= i < |updates[1..]| ensures updates[1..][i].Progress? {
          assert updates[1..][i] == updates[i + 1];
        }
      }
      ProgressKeeps(Reduce(s, updates[0]), updates[1..]);
    }
  }

  /** `Run` over two series is the run of the first, then the second. */
  lemma {:induction false} RunAppend(s: PodcastState, xs: seq<Action>, ys: seq<Action>)
    ensures Run(s, xs + ys) == Run(Run(s, xs), ys)
    decreases |xs|
  {
    if xs == [] {
      assert xs + ys == ys;
    } else {
      assert (xs + ys)[1..] == xs[1..] + ys;
      RunAppend(Reduce(s, xs[0]), xs[1..], ys);
    }
  }

  /** A generation started, reported on, and then finished: it is no longer
      running; on success the result is there and no error, on failure the
      error is there and no result. */
  lemma GenerationEnds(s: PodcastState, updates: seq<Action>, last: Action)
    requires OnlyProgress(updates)
    requires last.Succeeded? || last.Failed?
    ensures var r := Run(s, [Start] + updates + [last]);
      !r.isGenerating
      && (last.Succeeded? ==> r.result == Some(last.pkg) && r.error.None? && r.progress == 100.0)
      && (last.Failed? ==> r.error == Some(last.message) && r.result.None?)
  {
    var started := Reduce(s, Start);
    assert ([Start] + updates + [last])[1..] == updates + [last];
    RunAppend(started, updates, [last]);
    ProgressKeeps(started, updates);
  }

  /** The store holding the slice's state. */
  class PodcastStore {
    var isGenerating: bool
    var currentStep: string
    var progress: real
    var result: Option<PodcastPackage>
    var error: Option<string>

    /** The fields as a state value. */
    function State(): PodcastState
      reads this
    {
      PodcastState(isGenerating, currentStep, progress, result, error)
    }

    /** `configureStore` with the slice's `initialState`. */
    constructor ()
      ensures State() == Initial
    {
      isGenerating := false;
      currentStep := "";
      progress := 0.0;
      result := None;
      error := None;
    }

    /** `startGeneration`. */
    method StartGeneration()
      modifies this
      ensures State() == Reduce(old(State()), Start)
    {
      isGenerating := true;
      currentStep := InitializingStep;
      progress := 0.0;
      result := None;
      error := None;
    }

    /** `updateProgress`. */
    method UpdateProgress(step: string, value: real)
      modifies this
      ensures State() == Reduce(old(State()), Progress(step, value))
    {
      currentStep := step;
      progress := value;
    }

    /** `generationSuccess`. */
    method GenerationSuccess(pkg: PodcastPackage)
      modifies this
      ensures State() == Reduce(old(State()), Succeeded(pkg))
    {
      isGenerating := false;
      currentStep := CompleteStep;
      progress := 100.0;
      result := Some(pkg);
    }

    /** `generationFailure`. */
    method GenerationFailure(message: string)
      modifies this
      ensures State() == Reduce(old(State()), Failed(message))
    {
      isGenerating := false;
      currentStep := ErrorStep;
      error := Some(message);
    }

    /** `resetState`. */
    method ResetState()
      modifies this
      ensures State() == Reduce(old(State()), Reset)
    {
      isGenerating := false;
      currentStep := "";
      progress := 0.0;
      result := None;
      error := None;
    }

    /** `store.dispatch(action)`: the slice's reducer for the action. */
    method Dispatch(a: Action)
      modifies this
      ensures State() == Reduce(old(State()), a)
    {
      match a
      case Start => StartGeneration();
      case Progress(step, value) => UpdateProgress(step, value);
      case Succeeded(pkg) => GenerationSuccess(pkg);
      case Failed(message) => GenerationFailure(message);
      case Reset => ResetState();
    }

    /** Dispatching a series of actions, one at a time. */
    method DispatchAll(actions: seq<Action>)
      modifies this
      ensures State() == Run(old(State()), actions)
    {
      var i := 0;
      while i < |actions|
        invariant 0 <= i <= |actions|
        invariant Run(old(State()), actions) == Run(State(), actions[i..])
      {
        assert actions[i..][1..] == actions[i + 1..];
        Dispatch(actions[i]);
        i := i + 1;
      }
    }
  }
}
