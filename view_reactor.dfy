/**
 * The reactor that tracks the selected segment and the outcome of the last
 * data request: the decoded data, or the error the request failed with.
 *
 * The data type and the error type are not part of this model, so they are
 * the type parameters `D` and `E`. The network request and its decoding are an
 * input: `Mutate` is given the `Result` they produced.
 *
 * ReactorKit's store is replaced by `ReduceAll`, a fold over mutations in the
 * order they reach the store. Requests complete asynchronously, so that order
 * need not be the order of the actions; `ReduceAll` covers every such order.
 */
module ViewReactor {

  import opened Basics

  /** What the user can ask for. */
  datatype Action = UpdateSegment(index: int) | FetchData

  /** The state changes that actions are turned into. */
  datatype Mutation<D, E> = SetSegmentIndex(index: int) | SetData(data: D) | SetError(error: E)

  /** The view state. */
  datatype State<D, E> = State(selectedIndex: int, data: Option<D>, error: Option<E>)

  /** The state the reactor starts in: first segment, no data, no error. */
  function InitialState<D, E>(): (s: State<D, E>)
    ensures s.selectedIndex == 0 && s.data == None && s.error == None
  {
    State(0, None, None)
  }

  /**
   * Each action becomes exactly one mutation. A request that succeeds with `d`
   * becomes `SetData(d)`; one that fails with `e` becomes `SetError(e)`, so a
   * failure never escapes as an error that would end the stream.
   */
  function Mutate<D, E>(action: Action, fetched: Result<D, E>): (ms: seq<Mutation<D, E>>)
    ensures |ms| == 1
    ensures action.UpdateSegment? ==> ms[0] == SetSegmentIndex(action.index)
    ensures action.FetchData? && fetched.Success? ==> ms[0] == SetData(fetched.value)
    ensures action.FetchData? && fetched.Failure? ==> ms[0] == SetError(fetched.error)
  {
    match action
    case UpdateSegment(i) => [SetSegmentIndex(i)]
    case FetchData =>
      match fetched
      case Success(d) => [SetData(d)]
      case Failure(e) => [SetError(e)]
  }

  /**
   * A mutation changes only the fields it names: a segment change the index;
   * new data the data, clearing any earlier error; an error the error alone.
   */
  function Reduce<D, E>(state: State<D, E>, mutation: Mutation<D, E>): (next: State<D, E>)
    ensures mutation.SetSegmentIndex? ==>
              next.selectedIndex == mutation.index && next.data == state.data && next.error == state.error
    ensures mutation.SetData? ==>
              next.data == Some(mutation.data) && next.error == None && next.selectedIndex == state.selectedIndex
    ensures mutation.SetError? ==>
              next.error == Some(mutation.error) && next.data == state.data && next.selectedIndex == state.selectedIndex
  {
    match mutation
    case SetSegmentIndex(i) => state.(selectedIndex := i)
    case SetData(d) => state.(data := Some(d), error := None)
    case SetError(e) => state.(error := Some(e))
  }

  /** The store folding mutations in arrival order. */
  function ReduceAll<D, E>(state: State<D, E>, ms: seq<Mutation<D, E>>): State<D, E>
    decreases |ms|
  {
    if ms == [] then state else ReduceAll(Reduce(state, ms[0]), ms[1..])
  }

  /** One action handled end to end, given what its request (if any) produced. */
  function Step<D, E>(state: State<D, E>, action: Action, fetched: Result<D, E>): State<D, E>
  {
    ReduceAll(state, Mutate(action, fetched))
  }

  /** The index set last in `ms`, or `default` when none sets one. */
  function LastIndex<D, E>(ms: seq<Mutation<D, E>>, default: int): int
    decreases |ms|
  {
    if ms == [] then default
    else if ms[|ms| - 1].SetSegmentIndex? then ms[|ms| - 1].index
    else LastIndex(ms[..|ms| - 1], default)
  }

  /** The data delivered last in `ms`, or `default` when none delivers any. */
  function LastData<D, E>(ms: seq<Mutation<D, E>>, default: Option<D>): Option<D>
    decreases |ms|
  {
    if ms == [] then default
    else if ms[|ms| - 1].SetData? then Some(ms[|ms| - 1].data)
    else LastData(ms[..|ms| - 1], default)
  }

  /**
   * The error standing after `ms`: that of the last request outcome in `ms` if
   * it was a failure, none if it was a success, `default` when `ms` has no
   * request outcome.
   */
  function LastError<D, E>(ms: seq<Mutation<D, E>>, default: Option<E>): Option<E>
    decreases |ms|
  {
    if ms == [] then default
    else if ms[|ms| - 1].SetError? then Some(ms[|ms| - 1].error)
    else if ms[|ms| - 1].SetData? then None
    else LastError(ms[..|ms| - 1], default)
  }

  /** Folding `a` then `b` is folding `a`, then folding `b` from where `a` left off. */
  lemma {:induction false} ReduceAllAppend<D, E>(s: State<D, E>, a: seq<Mutation<D, E>>, b: seq<Mutation<D, E>>)
    ensures ReduceAll(s, a + b) == ReduceAll(ReduceAll(s, a), b)
    decreases |a|
  {
    if a == [] {
      assert a + b == b;
    } else {
      assert (a + b)[0] == a[0];
      assert (a + b)[1..] == a[1..] + b;
      ReduceAllAppend(Reduce(s, a[0]), a[1..], b);
    }
  }

  /** Folding a single mutation is `Reduce`. */
  lemma ReduceAllSingle<D, E>(s: State<D, E>, m: Mutation<D, E>)
    ensures ReduceAll(s, [m]) == Reduce(s, m)
  {
  }

  /**
   * After any mutations, in any arrival order, each field is determined by the
   * last mutation that touches it: the index by the last segment change, the
   * data by the last successful request, the error by the last request outcome.
   */
  lemma {:induction false} ReduceAllFields<D, E>(s: State<D, E>, ms: seq<Mutation<D, E>>)
    ensures ReduceAll(s, ms) == State(LastIndex(ms, s.selectedIndex), LastData(ms, s.data), LastError(ms, s.error))
    decreases |ms|
  {
    if ms != [] {
      var init, last := ms[..|ms| - 1], ms[|ms| - 1];
      assert ms == init + [last];
      ReduceAllAppend(s, init, [last]);
      ReduceAllFields(s, init);
      ReduceAllSingle(ReduceAll(s, init), last);
    }
  }

  /** Changing the segment changes the index only. */
  lemma UpdateSegmentEffect<D, E>(s: State<D, E>, i: int, fetched: Result<D, E>)
    ensures Step(s, UpdateSegment(i), fetched) == State(i, s.data, s.error)
  {
    ReduceAllSingle(s, SetSegmentIndex(i));
  }

  /** A successful request stores its data and clears the error; the index stays. */
  lemma FetchSuccessEffect<D, E>(s: State<D, E>, d: D)
    ensures Step(s, FetchData, Success(d)) == State(s.selectedIndex, Some(d), None)
  {
    ReduceAllSingle(s, SetData(d));
  }

  /** A failed request records its error and leaves the data and the index as they were. */
  lemma FetchFailureEffect<D, E>(s: State<D, E>, e: E)
    ensures Step(s, FetchData, Failure(e)) == State(s.selectedIndex, s.data, Some(e))
  {
    ReduceAllSingle(s, SetError(e));
  }

  /**
   * From the initial state, data is present exactly when some request
   * succeeded, and an error is present exactly when the last request outcome
   * was a failure.
   */
  lemma {:induction false} FromInitialState<D, E>(ms: seq<Mutation<D, E>>)
    ensures ReduceAll(InitialState(), ms).data.Some? <==> exists i :: 0 <= i < |ms| && ms[i].SetData?
    ensures ReduceAll(InitialState(), ms).error.Some? <==> LastOutcomeFailed(ms)
  {
    ReduceAllFields(InitialState(), ms);
    DataPresence(ms);
    ErrorPresence(ms);
  }

  /** The last request outcome in `ms` exists and is a failure. */
  predicate LastOutcomeFailed<D, E>(ms: seq<Mutation<D, E>>)
  {
    exists i :: 0 <= i < |ms| && ms[i].SetError? && forall j :: i < j < |ms| ==> ms[j].SetSegmentIndex?
  }

  /** With no data to start from, data is delivered exactly when some mutation delivers it. */
  lemma {:induction false} DataPresence<D, E>(ms: seq<Mutation<D, E>>)
    ensures LastData(ms, None).Some? <==> exists i :: 0 <= i < |ms| && ms[i].SetData?
    decreases |ms|
  {
    if ms != [] {
      var init := ms[..|ms| - 1];
      DataPresence(init);
      if !ms[|ms| - 1].SetData? {
        forall i | 0 <= i < |ms| && ms[i].SetData? ensures 0 <= i < |init| && init[i].SetData? { }
      }
    }
  }

  /** With no error to start from, an error stands exactly when the last request outcome failed. */
  lemma {:induction false} ErrorPresence<D, E>(ms: seq<Mutation<D, E>>)
    ensures LastError(ms, None).Some? <==> LastOutcomeFailed(ms)
    decreases |ms|
  {
    if ms != [] {
      var init, last := ms[..|ms| - 1], ms[|ms| - 1];
      ErrorPresence(init);
      if last.SetError? {
        assert LastOutcomeFailed(ms) by {
          var i := |ms| - 1;
          assert ms[i].SetError? && forall j :: i < j < |ms| ==> ms[j].SetSegmentIndex?;
        }
      } else if last.SetData? {
        forall i | 0 <= i < |ms| && ms[i].SetError?
          ensures exists j :: i < j < |ms| && !ms[j].SetSegmentIndex?
        {
          assert i < |ms| - 1 && !ms[|ms| - 1].SetSegmentIndex?;
        }
      } else {
        if LastOutcomeFailed(ms) {
          var i :| 0 <= i < |ms| && ms[i].SetError? && forall j :: i < j < |ms| ==> ms[j].SetSegmentIndex?;
          assert i < |init| && init[i].SetError? && forall j :: i < j < |init| ==> init[j].SetSegmentIndex?;
        }
        if LastOutcomeFailed(init) {
          var i :| 0 <= i < |init| && init[i].SetError? && forall j :: i < j < |init| ==> init[j].SetSegmentIndex?;
          assert ms[i].SetError? && forall j :: i < j < |ms| ==> ms[j].SetSegmentIndex?;
        }
      }
    }
  }
}
