/**
 * The loading state machine (`packages/core/src/domain/state.ts`): a request
 * goes from `Idle` to `Loading` and ends in `Success` or `Error`, which it
 * never leaves.
 */
module DomainState {
  import opened JsValue

  datatype State = Idle | Loading | Success(data: Value) | Error(reason: string)
  datatype Event = Load | Success(data: Value) | Fail(reason: string)

  /** `reducer(s, e)`. */
  function Reducer(s: State, e: Event): (r: State)
    ensures s.Idle? ==> (r.Loading? <==> e.Load?) && (!e.Load? ==> r == s)
    ensures s.Loading? && e.Success? ==> r == State.Success(e.data)
    ensures s.Loading? && e.Fail? ==> r == Error(e.reason)
    ensures s.Loading? && e.Load? ==> r == Loading
    ensures s.Success? || s.Error? ==> r == s
  {
    match s
    case Idle => if e.Load? then Loading else s
    case Loading =>
      (match e
       case Success(d) => State.Success(d)
       case Fail(reason) => Error(reason)
       case Load => s)
    case _ => s
  }

  /** Feeding a sequence of events to the reducer, first event first. */
  function Run(s: State, es: seq<Event>): State
    decreases |es|
  {
    if |es| == 0 then s else Run(Reducer(s, es[0]), es[1..])
  }

  /** 0 for `Idle`, 1 for `Loading`, 2 for the final states. */
  function Phase(s: State): nat {
    match s
    case Idle => 0
    case Loading => 1
    case _ => 2
  }

  /** `Success` and `Error` absorb every sequence of events. */
  lemma {:induction false} FinalStatesAbsorb(s: State, es: seq<Event>)
    requires s.Success? || s.Error?
    ensures Run(s, es) == s
    decreases |es|
  {
    if |es| > 0 {
      FinalStatesAbsorb(s, es[1..]);
    }
  }

  /** The machine never moves back: no event sequence lowers the phase. */
  lemma {:induction false} PhaseNeverDecreases(s: State, es: seq<Event>)
    ensures Phase(s) <= Phase(Run(s, es))
    decreases |es|
  {
    if |es| > 0 {
      PhaseNeverDecreases(Reducer(s, es[0]), es[1..]);
    }
  }

  /** From `Idle`, the machine stays `Idle` exactly as long as no `Load` arrives. */
  lemma {:induction false} IdleUntilLoad(es: seq<Event>)
    ensures Run(Idle, es).Idle? <==> forall i :: 0 <= i < |es| ==> !es[i].Load?
    decreases |es|
  {
    if |es| > 0 {
      IdleUntilLoad(es[1..]);
      if es[0].Load? {
        PhaseNeverDecreases(Loading, es[1..]);
      } else {
        assert forall i :: 1 <= i < |es| ==> es[i] == es[1..][i - 1];
      }
    }
  }

  /**
   * `Error(reason)` is reached from a state before the final phase only
   * through `Loading` followed by `Fail(reason)`: some prefix of the events
   * leads to `Loading` and the next event is that failure.
   */
  lemma {:induction false} ErrorOnlyThroughLoading(s: State, es: seq<Event>, reason: string)
    requires s.Idle? || s.Loading?
    requires Run(s, es) == Error(reason)
    ensures exists i :: 0 <= i < |es| && Run(s, es[..i]) == Loading && es[i] == Fail(reason)
    decreases |es|
  {
    var s' := Reducer(s, es[0]);
    if s'.Error? {
      FinalStatesAbsorb(s', es[1..]);
      assert Run(s, es[..0]) == s;
      assert es[..0] == [];
    } else if s'.Success? {
      FinalStatesAbsorb(s', es[1..]);
    } else {
      ErrorOnlyThroughLoading(s', es[1..], reason);
      var i :| 0 <= i < |es[1..]| && Run(s', es[1..][..i]) == Loading && es[1..][i] == Fail(reason);
      assert es[..i + 1][1..] == es[1..][..i];
      assert Run(s, es[..i + 1]) == Loading;
    }
  }
}
