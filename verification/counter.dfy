/**
  The two counter components: one driven by a reducer through `dispatch`,
  one by plain `setCount` handlers. Both hold a single unbounded integer
  that starts at zero; `+` adds one, `-` subtracts one, with no clamping.
  The reducer throws on any action type other than the two it knows, which
  is modelled as a `Failure` that carries no state.
 */
module Counter {
  import opened Wrappers

  datatype State = State(count: int)

  /** The `type` of a dispatched action. Only the reducer's two cases are
      named; every other tag is `Other`. */
  datatype Action = Increment | Decrement | Other(tag: string)

  /** The error the reducer's `default` branch throws. */
  datatype Error = UnknownAction(tag: string)

  /** The two buttons of either counter. */
  datatype Button = Plus | Minus

  /** The reducer's initial state. */
  function InitialState(): (s: State)
    ensures s.count == 0
  {
    State(0)
  }

  /** Reads an action object's `type` string as the reducer's switch does:
      exact string equality with the two case labels. */
  function FromType(t: string): (a: Action)
    ensures a == Increment <==> t == "increment"
    ensures a == Decrement <==> t == "decrement"
    ensures a.Other? ==> a.tag == t
  {
    if t == "increment" then Increment
    else if t == "decrement" then Decrement
    else Other(t)
  }

  /** True for the actions the reducer has a case for. */
  predicate Known(a: Action) {
    !a.Other?
  }

  /** The reducer: one step of the counter for one dispatched action. */
  function Reduce(s: State, a: Action): (r: Result<State, Error>)
    ensures r.Success? <==> Known(a)
    ensures r.Failure? ==> r.error == UnknownAction(a.tag)
    ensures r.Success? ==> r.value.count != s.count
  {
    match a
    case Increment => Success(State(s.count + 1))
    case Decrement => Success(State(s.count - 1))
    case Other(tag) => Failure(UnknownAction(tag))
  }

  /** The state after dispatching a sequence of actions in order; the first
      unknown action throws, and nothing after it is applied. */
  function Run(s: State, actions: seq<Action>): (r: Result<State, Error>)
    ensures r.Success? <==> forall i :: 0 <= i < |actions| ==> Known(actions[i])
    decreases |actions|
  {
    if |actions| == 0 then Success(s)
    else
      match Reduce(s, actions[0])
      case Failure(e) => Failure(e)
      case Success(s') => Run(s', actions[1..])
  }

  /** How many times `a` occurs in `actions`. */
  function Occurrences(actions: seq<Action>, a: Action): nat {
    multiset(actions)[a]
  }

  /** Which action each button of the reducer counter dispatches. */
  function Dispatched(b: Button): (a: Action)
    ensures Known(a)
    ensures b == Plus <==> a == Increment
  {
    match b
    case Plus => Increment
    case Minus => Decrement
  }

  /** The `useState` counter: one click calls `setCount` with the current
      count plus or minus one. */
  function Click(count: int, b: Button): int {
    match b
    case Plus => count + 1
    case Minus => count - 1
  }

  /** The `useState` counter after a sequence of clicks, first click first. */
  function ClickAll(count: int, buttons: seq<Button>): int
    decreases |buttons|
  {
    if |buttons| == 0 then count else ClickAll(Click(count, buttons[0]), buttons[1..])
  }

  /** The actions the reducer counter dispatches for a sequence of clicks. */
  function DispatchAll(buttons: seq<Button>): (actions: seq<Action>)
    ensures |actions| == |buttons|
    ensures forall i :: 0 <= i < |buttons| ==> actions[i] == Dispatched(buttons[i])
  {
    seq(|buttons|, i requires 0 <= i < |buttons| => Dispatched(buttons[i]))
  }

  /** `increment` adds exactly one, for every count. */
  lemma IncrementAddsOne(n: int)
    ensures Reduce(State(n), Increment) == Success(State(n + 1))
  {
  }

  /** `decrement` subtracts exactly one, for every count, going below zero
      when the count is not positive. */
  lemma DecrementSubtractsOne(n: int)
    ensures Reduce(State(n), Decrement) == Success(State(n - 1))
    ensures n <= 0 ==> Reduce(State(n), Decrement).value.count < 0
  {
  }

  /** Any other action type throws and yields no new state, whatever the
      current state. */
  lemma UnknownTypeThrows(s: State, t: string)
    requires t != "increment" && t != "decrement"
    ensures Reduce(s, FromType(t)) == Failure(UnknownAction(t))
  {
  }

  /** `increment` and `decrement` undo each other, in either order. */
  lemma IncrementDecrementCancel(s: State)
    ensures Run(s, [Increment, Decrement]) == Success(s)
    ensures Run(s, [Decrement, Increment]) == Success(s)
  {
  }

  /** The reference meaning of a run of known actions: the count moves by
      the number of increments minus the number of decrements. */
  lemma {:induction false} RunCounts(s: State, actions: seq<Action>)
    requires forall i :: 0 <= i < |actions| ==> Known(actions[i])
    ensures Run(s, actions) ==
      Success(State(s.count + Occurrences(actions, Increment) - Occurrences(actions, Decrement)))
    decreases |actions|
  {
    if |actions| > 0 {
      assert actions == [actions[0]] + actions[1..];
      assert multiset(actions) == multiset{actions[0]} + multiset(actions[1..]);
      var s' := Reduce(s, actions[0]).value;
      RunCounts(s', actions[1..]);
    }
  }

  /** From the initial state, a run of known actions ends at
      `#increments - #decrements`. */
  lemma RunFromInitial(actions: seq<Action>)
    requires forall i :: 0 <= i < |actions| ==> Known(actions[i])
    ensures Run(InitialState(), actions).Success?
    ensures Run(InitialState(), actions).value.count ==
      Occurrences(actions, Increment) - Occurrences(actions, Decrement)
  {
    RunCounts(InitialState(), actions);
  }

  /** A run that dispatches an unknown action fails with the first unknown
      tag, and no state comes out of it. */
  lemma {:induction false} RunStopsAtFirstUnknown(s: State, actions: seq<Action>, k: nat)
    requires k < |actions| && actions[k].Other?
    requires forall i :: 0 <= i < k ==> Known(actions[i])
    ensures Run(s, actions) == Failure(UnknownAction(actions[k].tag))
    decreases k
  {
    if k > 0 {
      RunStopsAtFirstUnknown(Reduce(s, actions[0]).value, actions[1..], k - 1);
    }
  }

  /** The two counters agree: for every sequence of button clicks, the
      reducer counter fed the dispatched actions ends at the same count as
      the `useState` counter. */
  lemma {:induction false} CountersAgree(n: int, buttons: seq<Button>)
    ensures Run(State(n), DispatchAll(buttons)) == Success(State(ClickAll(n, buttons)))
    decreases |buttons|
  {
    if |buttons| > 0 {
      assert DispatchAll(buttons)[1..] == DispatchAll(buttons[1..]);
      CountersAgree(Click(n, buttons[0]), buttons[1..]);
    }
  }

  /** Scenario: increment, increment, decrement from the initial state ends
      at one. */
  lemma IncIncDecScenario()
    ensures Run(InitialState(), [Increment, Increment, Decrement]) == Success(State(1))
  {
  }
}
