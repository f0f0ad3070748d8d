# Event-card disclosure toggle and counter reducer

This project models the only two stateful pieces of a set of React notes.
Each one is a pure state-transition function.

- **Disclosure** (`disclosure.dfy`): the `EventCard` component's `show` object.
  It maps an event id to a "show the extra details" flag and starts empty.
  A click on an event's image copies the previous object and negates the
  clicked id's flag. A missing id reads as `false`, so its first click shows
  it. A card renders the event's time, address, postcode and description
  exactly when `show[event.id]` is truthy. The main result is
  `ApplyClicksParity`: after any clicks, an id's flag is its starting flag
  flipped once per click on that id. So from the mounted state, an event is
  expanded exactly when it has been clicked an odd number of times, whatever
  the order of the clicks.
- **Counter** (`counter.dfy`): the `useReducer` counter and the `useState`
  counter. The reducer has `increment` (+1) and `decrement` (−1) and throws
  on any other action type. That throw is modelled as `Failure(UnknownAction(tag))`.
  A run of dispatched actions stops at the first unknown one. The count is an
  unbounded integer with no clamping. Against independent definitions, the
  model proves two things. A run of known actions moves the count by
  `#increments − #decrements`. The reducer counter and the `setCount` counter
  reach the same count for every sequence of button clicks.
- `wrappers.dfy` holds the `Option` and `Result` datatypes both modules use.

React's hook runtime is not modelled. Each `setShow` or `dispatch` is one
synchronous, pure state step.

## Model

| member | source | states |
|---|---|---|
| Disclosure.Initial | testingExamples.js:76 | The mounted state is empty, so no id is shown |
| Disclosure.Toggle | testingExamples.js:79-86 | A click negates the clicked id's flag (a missing id becomes shown); every other id's flag, and every other stored entry, is kept by value; no id is rejected |
| Disclosure.ToggleTwice | testingExamples.js:84 | Two clicks on the same id give back every id's visibility, and the state itself when the id was already stored |
| Disclosure.ToggleCommutes | testingExamples.js:81-84 | Clicks on two different ids give the same state in either order |
| Disclosure.ApplyClicksParity | testingExamples.js:79-86 | After any click sequence, an id is shown iff its starting flag differs from "clicked an odd number of times" |
| Disclosure.ShownAfterClicks | testingExamples.js:76-86 | From the mounted state, an id is shown iff it was clicked an odd number of times |
| Disclosure.ClickOrderIrrelevant | testingExamples.js:79-86 | Two click sequences with the same clicks in any order show the same events |
| Disclosure.CardOf | testingExamples.js:108-117 | An event's extra details are rendered iff its flag is set, and then they are that event's own time, address, postcode and description |
| Disclosure.Render | testingExamples.js:92-120 | One card per event in list order, with the event's id and summary; extra details present iff that event's id is shown |
| Disclosure.ClickImage | testingExamples.js:95-97 | A click on the i-th image negates the flag of the i-th event's id and leaves every other id's flag alone |
| Disclosure.InitialHidesAll | testingExamples.js:199-205 | On mount no card renders its extra details |
| Disclosure.ClickChangesOnlyThatEvent | testingExamples.js:92-117 | After a click on an image, cards with the clicked id switch between expanded and collapsed; every other card renders exactly as before |
| Disclosure.ToggleUnlistedIdInvisible | testingExamples.js:79-86 | Toggling an id that no listed event has is accepted, changes nothing on screen, and still flips that id's stored flag |
| Disclosure.SampleScenario | testingExamples.js:186-206 | With the two sample events: nothing is rendered on mount; one click on the first image renders "This is Event 1" but not "This is Event 2"; a second click hides it again |
| Counter.InitialState | use_stuff_notes.js:33 | The reducer counter starts at zero |
| Counter.FromType | use_stuff_notes.js:36-42 | An action type is `increment` or `decrement` only on an exact match of the case label; any other string becomes an unknown action that keeps its tag |
| Counter.Reduce | use_stuff_notes.js:35-44 | The reducer succeeds exactly on the two known actions, and every success changes the count; an unknown action fails with its own tag and returns no state |
| Counter.Run | use_stuff_notes.js:46-53 | A sequence of dispatches succeeds iff every action in it is known |
| Counter.Dispatched | use_stuff_notes.js:52-53 | Each button dispatches a known action: `+` dispatches increment and `-` dispatches decrement |
| Counter.DispatchAll | use_stuff_notes.js:52-53 | A click sequence dispatches one action per click, in click order |
| Counter.IncrementAddsOne | use_stuff_notes.js:37-38 | For every integer n, increment takes count n to n + 1 |
| Counter.DecrementSubtractsOne | use_stuff_notes.js:39-40 | For every integer n, decrement takes count n to n − 1, and the count goes negative with no clamping |
| Counter.UnknownTypeThrows | use_stuff_notes.js:41-42 | Any type string other than the two labels throws from any state |
| Counter.IncrementDecrementCancel | use_stuff_notes.js:37-40 | Increment then decrement, or decrement then increment, gives back the original state |
| Counter.RunCounts | use_stuff_notes.js:35-53 | A run of known actions ends at the start count plus #increments minus #decrements |
| Counter.RunFromInitial | use_stuff_notes.js:33-53 | From the initial state, a run of known actions ends at #increments − #decrements |
| Counter.RunStopsAtFirstUnknown | use_stuff_notes.js:41-42 | A run fails with the tag of its first unknown action, whatever follows |
| Counter.CountersAgree | use_stuff_notes.js:129-136 | The `setCount` counter and the reducer counter, started at the same count, end at the same count for every sequence of `+`/`-` clicks |
| Counter.IncIncDecScenario | use_stuff_notes.js:33-44 | Increment, increment, decrement from the initial state ends at count 1 |

## Left out

- Ids are integers. JavaScript stringifies object keys, so in the source the ids `1` and `"1"` share one flag. The model does not represent that collision.
- A flag in the model is a boolean. In the source only `!prevShow[eventId]` ever writes a flag, so each stored flag is already a boolean, and `undefined` is modelled as an absent key.
- Rendering covers only the show/hide condition and which fields it guards. JSX markup, CSS classes and the image click wiring's DOM are presentation, so they are left out.
- The `HomePage` component only forwards a prop. Its test and the Jest/testing-library scaffolding are left out too. The `EventCard` tests appear only as the scenario lemmas `InitialHidesAll` and `SampleScenario`.
- The `useEffect` data-fetch example is network I/O and asynchronous behaviour, so it is left out.
- React's hook runtime is left out: scheduling, batching and re-rendering. Each `setShow`, `setCount` or `dispatch` is one synchronous step from the state the handler sees.
- JavaScript numbers are IEEE doubles, and a count beyond 2^53 would lose precision. The model's count is an unbounded integer.
- The thrown `Error` has no message in the source. It is modelled as `UnknownAction(tag)` so that the failing action can be named. What React does with the throw is not modelled: the model yields no new state.
