/**
 * The reactor behind the profile grid screen: which gender's profiles are
 * shown, and whether the grid has one column or two.
 *
 * ReactorKit's store, which the model cannot see, is replaced by a pure fold:
 * each action is turned into its mutations by `Mutate`, reading the state
 * current at that moment, and the mutations are folded in order by `Reduce`.
 */
module ViewControllerReactor {

  datatype Gender = Male | Female

  /** What the user can ask for. */
  datatype Action = SelectGender(gender: Gender) | ToggleLayout

  /** The state changes that actions are turned into. */
  datatype Mutation = SetSelectedGender(gender: Gender) | SetLayout(layout: int)

  /** The view state; `columnLayout` is the number of grid columns. */
  datatype State = State(selectedGender: Gender, columnLayout: int)

  /** The state the screen starts in: men's profiles, one column. */
  function InitialState(): (s: State)
    ensures s.selectedGender == Male && s.columnLayout == 1
  {
    State(Male, 1)
  }

  /** The layouts the grid is meant to show: one column or two. */
  predicate ValidLayout(s: State)
  {
    s.columnLayout == 1 || s.columnLayout == 2
  }

  /** The layout a toggle switches to from `current`: always one or two, and two exactly when it was one. */
  function NextLayout(current: int): (next: int)
    ensures next == 1 || next == 2
    ensures (next == 2) == (current == 1)
  {
    if current == 1 then 2 else 1
  }

  /** Each action becomes exactly one mutation; a toggle reads the current layout. */
  function Mutate(state: State, action: Action): (ms: seq<Mutation>)
    ensures |ms| == 1
    ensures action.SelectGender? ==> ms[0] == SetSelectedGender(action.gender)
    ensures action.ToggleLayout? ==> ms[0].SetLayout? && ms[0].layout == NextLayout(state.columnLayout)
  {
    match action
    case SelectGender(g) => [SetSelectedGender(g)]
    case ToggleLayout => [SetLayout(NextLayout(state.columnLayout))]
  }

  /** A mutation overwrites the one field it names and leaves the other as it was. */
  function Reduce(state: State, mutation: Mutation): (next: State)
    ensures mutation.SetSelectedGender? ==>
              next.selectedGender == mutation.gender && next.columnLayout == state.columnLayout
    ensures mutation.SetLayout? ==>
              next.columnLayout == mutation.layout && next.selectedGender == state.selectedGender
  {
    match mutation
    case SetSelectedGender(g) => state.(selectedGender := g)
    case SetLayout(n) => state.(columnLayout := n)
  }

  /** The store folding mutations in arrival order. */
  function ReduceAll(state: State, ms: seq<Mutation>): State
    decreases |ms|
  {
    if ms == [] then state else ReduceAll(Reduce(state, ms[0]), ms[1..])
  }

  /** One action handled end to end: its mutations, folded into the state. */
  function Step(state: State, action: Action): State
  {
    ReduceAll(state, Mutate(state, action))
  }

  /** A sequence of actions handled one after the other. */
  function Run(state: State, actions: seq<Action>): State
    decreases |actions|
  {
    if actions == [] then state else Run(Step(state, actions[0]), actions[1..])
  }

  /** The gender last selected in `actions`, or `default` when none selects one. */
  function LastSelected(actions: seq<Action>, default: Gender): Gender
    decreases |actions|
  {
    if actions == [] then default
    else if actions[|actions| - 1].SelectGender? then actions[|actions| - 1].gender
    else LastSelected(actions[..|actions| - 1], default)
  }

  /** How many of `actions` toggle the layout. */
  function Toggles(actions: seq<Action>): nat
    decreases |actions|
  {
    if actions == [] then 0 else (if actions[0].ToggleLayout? then 1 else 0) + Toggles(actions[1..])
  }

  /** What one action does to the whole state: selecting sets the gender only, toggling the layout only. */
  lemma StepEffect(s: State, a: Action)
    ensures a.SelectGender? ==> Step(s, a) == State(a.gender, s.columnLayout)
    ensures a.ToggleLayout? ==> Step(s, a) == State(s.selectedGender, NextLayout(s.columnLayout))
  {
    var ms := Mutate(s, a);
    assert ms[1..] == [];
    assert ReduceAll(s, ms) == ReduceAll(Reduce(s, ms[0]), []);
  }

  /** A single toggle goes from one column to two and from two to one. */
  lemma ToggleOnce(s: State)
    requires ValidLayout(s)
    ensures ValidLayout(Step(s, ToggleLayout))
    ensures Step(s, ToggleLayout).columnLayout != s.columnLayout
    ensures Step(s, ToggleLayout).selectedGender == s.selectedGender
  {
  }

  /** Toggling twice gives back the state toggled from, when its layout is one or two. */
  lemma ToggleTwice(s: State)
    requires ValidLayout(s)
    ensures Run(s, [ToggleLayout, ToggleLayout]) == s
  {
  }

  /** Selecting the same gender twice is the same as selecting it once. */
  lemma SelectIdempotent(s: State, g: Gender)
    ensures Run(s, [SelectGender(g), SelectGender(g)]) == Run(s, [SelectGender(g)])
  {
    var once := Step(s, SelectGender(g));
    StepEffect(s, SelectGender(g));
    StepEffect(once, SelectGender(g));
    assert [SelectGender(g), SelectGender(g)][1..] == [SelectGender(g)];
    assert Run(s, [SelectGender(g), SelectGender(g)]) == Run(once, [SelectGender(g)]);
  }

  /** Handling `a` then `b` is handling `a`, then handling `b` from where `a` left off. */
  lemma {:induction false} RunAppend(s: State, a: seq<Action>, b: seq<Action>)
    ensures Run(s, a + b) == Run(Run(s, a), b)
    decreases |a|
  {
    if a == [] {
      assert a + b == b;
    } else {
      assert (a + b)[0] == a[0];
      assert (a + b)[1..] == a[1..] + b;
      RunAppend(Step(s, a[0]), a[1..], b);
    }
  }

  /** From a state with one or two columns, every sequence of actions keeps one or two columns. */
  lemma {:induction false} RunKeepsValidLayout(s: State, actions: seq<Action>)
    requires ValidLayout(s)
    ensures ValidLayout(Run(s, actions))
    decreases |actions|
  {
    if actions != [] {
      StepEffect(s, actions[0]);
      RunKeepsValidLayout(Step(s, actions[0]), actions[1..]);
    }
  }

  /** Every state reachable from the initial state has one or two columns. */
  lemma ReachableLayouts(actions: seq<Action>)
    ensures Run(InitialState(), actions).columnLayout in {1, 2}
  {
    RunKeepsValidLayout(InitialState(), actions);
  }

  /** After any actions, the gender shown is the one last selected, or the starting one. */
  lemma {:induction false} RunSelectsLastGender(s: State, actions: seq<Action>)
    ensures Run(s, actions).selectedGender == LastSelected(actions, s.selectedGender)
    decreases |actions|
  {
    if actions != [] {
      var init, last := actions[..|actions| - 1], actions[|actions| - 1];
      assert actions == init + [last];
      RunAppend(s, init, [last]);
      RunSelectsLastGender(s, init);
      var mid := Run(s, init);
      StepEffect(mid, last);
      assert [last][1..] == [];
      assert Run(mid, [last]) == Step(mid, last);
    }
  }

  /** From a state with one or two columns, the layout depends only on whether the number of toggles is even. */
  lemma {:induction false} RunLayoutParity(s: State, actions: seq<Action>)
    requires ValidLayout(s)
    ensures Run(s, actions).columnLayout ==
              if Toggles(actions) % 2 == 0 then s.columnLayout else NextLayout(s.columnLayout)
    decreases |actions|
  {
    if actions != [] {
      var next := Step(s, actions[0]);
      StepEffect(s, actions[0]);
      RunLayoutParity(next, actions[1..]);
    }
  }
}
