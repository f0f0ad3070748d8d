/**
  The per-event disclosure state of the `EventCard` component.

  The component keeps one object `show` mapping an event id to a boolean
  "show the extra details" flag. It starts empty; a click on an event's image
  replaces it by a copy in which only the clicked id's flag is negated, a
  missing id reading as `false`. An event's time, address, postcode and
  description are rendered exactly when its flag is truthy.
 */
module Disclosure {
  import opened Wrappers

  /** Event ids. JavaScript object keys are strings, so the source lets `1`
      and `"1"` share a flag; ids here are plain integers. */
  type Id = int

  /** The `show` object: a flag per id that has been clicked at least once. */
  type ShowState = map<Id, bool>

  /** The fields rendered for every event, whatever its flag. */
  datatype Summary = Summary(title: string, image: string, date: string, city: string)

  /** The fields rendered only while the event's flag is set. */
  datatype Extra = Extra(time: string, firstLineOfAddress: string, postcode: string, description: string)

  datatype Event = Event(id: Id, summary: Summary, extra: Extra)

  /** What the component renders for one event: the summary always, the extra
      details only when they are shown. */
  datatype Card = Card(id: Id, summary: Summary, extra: Option<Extra>)

  /** The flag read by the render condition: an absent id is not shown. */
  predicate IsShown(m: ShowState, k: Id) {
    k in m && m[k]
  }

  /** The state the component mounts with. */
  function Initial(): (m: ShowState)
    ensures forall k :: !IsShown(m, k)
    ensures |m| == 0
  {
    map[]
  }

  /** One click on the image of event `k`: copy the previous state, then
      overwrite `k` with the negation of its previous flag. Any id is
      accepted; there is no error case. */
  function Toggle(m: ShowState, k: Id): (r: ShowState)
    ensures IsShown(r, k) == !IsShown(m, k)
    ensures forall j :: j != k ==> IsShown(r, j) == IsShown(m, j)
    ensures r.Keys == m.Keys + {k}
    ensures forall j :: j in m && j != k ==> r[j] == m[j]
  {
    m[k := !IsShown(m, k)]
  }

  /** The state after a sequence of clicks, first click first. */
  function ApplyClicks(m: ShowState, clicks: seq<Id>): ShowState
    decreases |clicks|
  {
    if |clicks| == 0 then m else ApplyClicks(Toggle(m, clicks[0]), clicks[1..])
  }

  /** Toggling an id twice gives back its flag, and every other flag; when
      the id was already present the state itself comes back. */
  lemma ToggleTwice(m: ShowState, k: Id)
    ensures forall j :: IsShown(Toggle(Toggle(m, k), k), j) == IsShown(m, j)
    ensures k in m ==> Toggle(Toggle(m, k), k) == m
  {
  }

  /** Clicks on two different events do not interfere, whichever comes first. */
  lemma ToggleCommutes(m: ShowState, a: Id, b: Id)
    requires a != b
    ensures Toggle(Toggle(m, a), b) == Toggle(Toggle(m, b), a)
  {
  }

  /** The reference meaning of the state: after any sequence of clicks an id
      is shown exactly when it was shown before and was clicked an even
      number of times, or was hidden and was clicked an odd number of times. */
  lemma {:induction false} ApplyClicksParity(m: ShowState, clicks: seq<Id>, k: Id)
    ensures IsShown(ApplyClicks(m, clicks), k) == (IsShown(m, k) != (multiset(clicks)[k] % 2 == 1))
    decreases |clicks|
  {
    if |clicks| > 0 {
      assert clicks == [clicks[0]] + clicks[1..];
      assert multiset(clicks) == multiset{clicks[0]} + multiset(clicks[1..]);
      ApplyClicksParity(Toggle(m, clicks[0]), clicks[1..], k);
    }
  }

  /** From the mounted state, an event's details are shown exactly when its
      image has been clicked an odd number of times. */
  lemma ShownAfterClicks(clicks: seq<Id>, k: Id)
    ensures IsShown(ApplyClicks(Initial(), clicks), k) <==> multiset(clicks)[k] % 2 == 1
  {
    ApplyClicksParity(Initial(), clicks, k);
  }

  /** The order of clicks does not matter to what is shown. */
  lemma ClickOrderIrrelevant(m: ShowState, c1: seq<Id>, c2: seq<Id>)
    requires multiset(c1) == multiset(c2)
    ensures forall k :: IsShown(ApplyClicks(m, c1), k) == IsShown(ApplyClicks(m, c2), k)
  {
    forall k
      ensures IsShown(ApplyClicks(m, c1), k) == IsShown(ApplyClicks(m, c2), k)
    {
      ApplyClicksParity(m, c1, k);
      ApplyClicksParity(m, c2, k);
    }
  }

  /** The render condition for one event. */
  function CardOf(e: Event, show: ShowState): (c: Card)
    ensures c.id == e.id && c.summary == e.summary
    ensures c.extra.Some? <==> IsShown(show, e.id)
    ensures c.extra.Some? ==> c.extra.value == e.extra
  {
    Card(e.id, e.summary, if IsShown(show, e.id) then Some(e.extra) else None)
  }

  /** The cards rendered for a list of events, in list order. */
  function Render(events: seq<Event>, show: ShowState): (r: seq<Card>)
    ensures |r| == |events|
    ensures forall i :: 0 <= i < |r| ==> r[i].id == events[i].id && r[i].summary == events[i].summary
    ensures forall i :: 0 <= i < |r| ==> (r[i].extra.Some? <==> IsShown(show, events[i].id))
    ensures forall i :: 0 <= i < |r| && r[i].extra.Some? ==> r[i].extra.value == events[i].extra
  {
    seq(|events|, i requires 0 <= i < |events| => CardOf(events[i], show))
  }

  /** A click on the image of the `i`-th rendered event. */
  function ClickImage(events: seq<Event>, show: ShowState, i: nat): (r: ShowState)
    requires i < |events|
    ensures IsShown(r, events[i].id) == !IsShown(show, events[i].id)
    ensures forall j :: j != events[i].id ==> IsShown(r, j) == IsShown(show, j)
  {
    Toggle(show, events[i].id)
  }

  /** Whether some rendered card shows the given description text. */
  predicate DescriptionRendered(cards: seq<Card>, d: string) {
    exists i :: 0 <= i < |cards| && cards[i].extra.Some? && cards[i].extra.value.description == d
  }

  /** Nothing is expanded when the component mounts. */
  lemma InitialHidesAll(events: seq<Event>)
    ensures forall i :: 0 <= i < |events| ==> Render(events, Initial())[i].extra.None?
  {
  }

  /** A click on an event's image expands or collapses that event's card and
      every card with the same id, and leaves the rest of the rendering as it
      was. */
  lemma ClickChangesOnlyThatEvent(events: seq<Event>, show: ShowState, i: nat)
    requires i < |events|
    ensures forall j :: 0 <= j < |events| && events[j].id == events[i].id ==>
      (Render(events, ClickImage(events, show, i))[j].extra.Some? <==> Render(events, show)[j].extra.None?)
    ensures forall j :: 0 <= j < |events| && events[j].id != events[i].id ==>
      Render(events, ClickImage(events, show, i))[j] == Render(events, show)[j]
  {
  }

  /** Toggling an id that no listed event carries changes nothing on screen;
      the flag is still remembered for an event that later has that id. */
  lemma ToggleUnlistedIdInvisible(events: seq<Event>, show: ShowState, k: Id)
    requires forall i :: 0 <= i < |events| ==> events[i].id != k
    ensures Render(events, Toggle(show, k)) == Render(events, show)
    ensures IsShown(Toggle(show, k), k) == !IsShown(show, k)
  {
  }

  /** The two events of the component's test data; only ids and descriptions
      matter to the scenarios below. */
  function SampleEvents(): seq<Event> {
    [ Event(1, Summary("Event 1", "https://via.placeholder.com/150", "2023-06-12", "San Francisco"),
            Extra("10:00 AM", "123 Fake Street", "94101", "This is Event 1")),
      Event(2, Summary("Event 2", "https://via.placeholder.com/150", "2023-06-13", "New York"),
            Extra("11:00 AM", "456 Fake Avenue", "10001", "This is Event 2")) ]
  }

  /** Scenario: on mount neither description is rendered; after a click on
      the first image the first description is rendered and the second is
      not; a second click collapses the first again. */
  lemma SampleScenario()
    ensures !DescriptionRendered(Render(SampleEvents(), Initial()), "This is Event 1")
    ensures !DescriptionRendered(Render(SampleEvents(), Initial()), "This is Event 2")
    ensures DescriptionRendered(Render(SampleEvents(), ClickImage(SampleEvents(), Initial(), 0)), "This is Event 1")
    ensures !DescriptionRendered(Render(SampleEvents(), ClickImage(SampleEvents(), Initial(), 0)), "This is Event 2")
    ensures var once := ClickImage(SampleEvents(), Initial(), 0);
            !DescriptionRendered(Render(SampleEvents(), ClickImage(SampleEvents(), once, 0)), "This is Event 1")
  {
  }
}
