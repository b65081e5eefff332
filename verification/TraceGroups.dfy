/** Grouping a session's trace into turns, as `api/routes/trace.py` does for the timeline. */
module TraceGroups {
  import opened Basics
  import opened StableSort

  const AFTER_TURN_COMPLETED := "after_turn_completed"
  const INGEST_BUFFER_FLUSH := "ingest_buffer_flush"

  datatype Event = Event(timestamp: int, kind: string, payload: string)

  datatype TurnGroup = TurnGroup(turnIndex: nat, startTime: int, endTime: int, typeCounts: map<string, nat>, events: seq<Event>)

  function Earlier(a: Event, b: Event): bool { a.timestamp <= b.timestamp }

  function SortedEvents(events: seq<Event>): seq<Event> { Sort(events, Earlier) }

  function Occurs(events: seq<Event>, kind: string): nat {
    if events == [] then 0
    else Occurs(events[..|events| - 1], kind) + if events[|events| - 1].kind == kind then 1 else 0
  }

  predicate HasKind(events: seq<Event>, kind: string) {
    exists e :: e in events && e.kind == kind
  }

  function Boundary(events: seq<Event>): Option<string> {
    if HasKind(events, AFTER_TURN_COMPLETED) then Some(AFTER_TURN_COMPLETED)
    else if HasKind(events, INGEST_BUFFER_FLUSH) then Some(INGEST_BUFFER_FLUSH)
    else None
  }

  // ----- counting -----

  function Get(counts: map<string, nat>, kind: string): nat {
    if kind in counts then counts[kind] else 0
  }

  function Tally(events: seq<Event>): map<string, nat> {
    if events == [] then map[]
    else
      var before, kind := Tally(events[..|events| - 1]), events[|events| - 1].kind;
      before[kind := Get(before, kind) + 1]
  }

  /** The counting loop that `_make_turn_group` and `session_summary` share. */
  method CountKinds(events: seq<Event>) returns (counts: map<string, nat>)
    ensures counts == Tally(events)
  {
    counts := map[];
    for i := 0 to |events|
      invariant counts == Tally(events[..i])
    {
      var kind := events[i].kind;
      counts := counts[kind := Get(counts, kind) + 1];
      assert events[..i + 1][..i] == events[..i];
    }
    assert events[..|events|] == events;
  }

  /** The dictionary has exactly the kinds that occur, each with its number of occurrences. */
  lemma {:induction false} TallyCorrect(events: seq<Event>, kind: string)
    ensures kind in Tally(events) <==> Occurs(events, kind) > 0
    ensures Get(Tally(events), kind) == Occurs(events, kind)
  {
    if events != [] { TallyCorrect(events[..|events| - 1], kind); }
  }

  method MakeTurnGroup(index: nat, events: seq<Event>) returns (g: TurnGroup)
    requires events != []
    ensures GroupOk(g, index) && g.events == events
  {
    var counts := CountKinds(events);
    g := TurnGroup(index, events[0].timestamp, events[|events| - 1].timestamp, counts, events);
  }

  lemma {:induction false} OccursAppend(a: seq<Event>, b: seq<Event>, kind: string)
    ensures Occurs(a + b, kind) == Occurs(a, kind) + Occurs(b, kind)
  {
    if b == [] {
      assert a + b == a;
    } else {
      var n := |a + b| - 1;
      assert (a + b)[..n] == a + b[..|b| - 1];
      OccursAppend(a, b[..|b| - 1], kind);
    }
  }

  lemma {:induction false} OccursInsert(x: Event, xs: seq<Event>, kind: string)
    ensures Occurs(Insert(x, xs, Earlier), kind) == Occurs([x], kind) + Occurs(xs, kind)
  {
    OccursAppend([x], xs, kind);
    if xs != [] && !Earlier(x, xs[0]) {
      OccursInsert(x, xs[1..], kind);
      OccursAppend([xs[0]], Insert(x, xs[1..], Earlier), kind);
      OccursAppend([xs[0]], xs[1..], kind);
      assert xs == [xs[0]] + xs[1..];
    }
  }

  lemma {:induction false} OccursSorted(events: seq<Event>, kind: string)
    ensures Occurs(SortedEvents(events), kind) == Occurs(events, kind)
  {
    if events != [] {
      OccursSorted(events[1..], kind);
      OccursInsert(events[0], SortedEvents(events[1..]), kind);
      OccursAppend([events[0]], events[1..], kind);
      assert events == [events[0]] + events[1..];
    }
  }

  lemma {:induction false} OccursPositive(events: seq<Event>, kind: string)
    ensures Occurs(events, kind) > 0 <==> HasKind(events, kind)
  {
    if events != [] {
      var n := |events| - 1;
      OccursPositive(events[..n], kind);
      assert events == events[..n] + [events[n]];
    }
  }

  // ----- grouping -----

  function Events(groups: seq<TurnGroup>): seq<Event> {
    if groups == [] then [] else Events(groups[..|groups| - 1]) + groups[|groups| - 1].events
  }

  /** A full turn: it ends in the boundary kind and contains it nowhere else. */
  ghost predicate Closed(events: seq<Event>, boundary: string) {
    && events != [] && events[|events| - 1].kind == boundary
    && forall i :: 0 <= i < |events| - 1 ==> events[i].kind != boundary
  }

  ghost predicate Open(events: seq<Event>, boundary: string) {
    events != [] && forall i :: 0 <= i < |events| ==> events[i].kind != boundary
  }

  ghost predicate GroupOk(g: TurnGroup, index: nat) {
    && g.turnIndex == index && g.typeCounts == Tally(g.events) && g.events != []
    && g.startTime == g.events[0].timestamp && g.endTime == g.events[|g.events| - 1].timestamp
  }

  lemma EventsStep(groups: seq<TurnGroup>, g: TurnGroup)
    ensures Events(groups + [g]) == Events(groups) + g.events
  {
    assert (groups + [g])[..|groups|] == groups;
  }

  ghost predicate Numbered(groups: seq<TurnGroup>) {
    forall i :: 0 <= i < |groups| ==> GroupOk(groups[i], i)
  }

  ghost predicate AllClosed(groups: seq<TurnGroup>, boundary: string) {
    forall i :: 0 <= i < |groups| ==> Closed(groups[i].events, boundary)
  }

  /** Full turns, and possibly one unfinished turn at the end. */
  ghost predicate TurnsAt(groups: seq<TurnGroup>, boundary: string) {
    AllClosed(groups, boundary)
    || (groups != [] && AllClosed(groups[..|groups| - 1], boundary) && Open(groups[|groups| - 1].events, boundary))
  }

  lemma AddNumbered(groups: seq<TurnGroup>, g: TurnGroup)
    requires Numbered(groups) && GroupOk(g, |groups|)
    ensures Numbered(groups + [g])
  {
    forall i | 0 <= i < |groups + [g]| ensures GroupOk((groups + [g])[i], i) {
      if i < |groups| { assert (groups + [g])[i] == groups[i]; }
    }
  }

  lemma AddClosed(groups: seq<TurnGroup>, g: TurnGroup, boundary: string)
    requires AllClosed(groups, boundary)
    ensures Closed(g.events, boundary) ==> AllClosed(groups + [g], boundary)
    ensures Open(g.events, boundary) ==> TurnsAt(groups + [g], boundary)
  {
    assert (groups + [g])[..|groups|] == groups;
  }

  /** The loop's invariant: finished groups and the open one hold the events handled so far. */
  ghost predicate SoFar(groups: seq<TurnGroup>, current: seq<Event>, handled: seq<Event>, boundary: string) {
    && Events(groups) + current == handled && Numbered(groups) && AllClosed(groups, boundary)
    && (current == [] || Open(current, boundary))
  }

  lemma KeepOpen(groups: seq<TurnGroup>, current: seq<Event>, handled: seq<Event>, e: Event, boundary: string)
    requires SoFar(groups, current, handled, boundary) && e.kind != boundary
    ensures SoFar(groups, current + [e], handled + [e], boundary)
  {
    assert Events(groups) + (current + [e]) == handled + [e];
  }

  lemma CloseGroup(groups: seq<TurnGroup>, current: seq<Event>, handled: seq<Event>, g: TurnGroup, e: Event, boundary: string)
    requires SoFar(groups, current, handled, boundary) && e.kind == boundary
    requires GroupOk(g, |groups|) && g.events == current + [e]
    ensures SoFar(groups + [g], [], handled + [e], boundary)
  {
    AddNumbered(groups, g);
    CloseOpen(current, e, boundary);
    AddClosed(groups, g, boundary);
    EventsStep(groups, g);
    assert Events(groups + [g]) + [] == (Events(groups) + current) + [e];
  }

  lemma CloseOpen(current: seq<Event>, e: Event, boundary: string)
    requires (current == [] || Open(current, boundary)) && e.kind == boundary
    ensures Closed(current + [e], boundary)
  {
  }

  lemma LastGroup(groups: seq<TurnGroup>, current: seq<Event>, handled: seq<Event>, g: TurnGroup, boundary: string)
    requires SoFar(groups, current, handled, boundary) && current != []
    requires GroupOk(g, |groups|) && g.events == current
    ensures Events(groups + [g]) == handled && Numbered(groups + [g]) && TurnsAt(groups + [g], boundary)
  {
    AddNumbered(groups, g);
    AddClosed(groups, g, boundary);
    EventsStep(groups, g);
  }

  method GroupEventsByTurn(events: seq<Event>) returns (groups: seq<TurnGroup>)
    ensures Events(groups) == SortedEvents(events) && Numbered(groups)
    ensures Boundary(events).None? ==> |groups| <= 1
    ensures Boundary(events).Some? ==> TurnsAt(groups, Boundary(events).value)
  {
    var sorted := SortedEvents(events);
    BoundarySorted(events);
    var boundary := Boundary(sorted);
    if boundary.None? {
      groups := [];
      if |sorted| > 0 {
        var g := MakeTurnGroup(0, sorted);
        groups := [g];
        EventsStep([], g);
        assert [] + [g] == [g] && [] + sorted == sorted;
      }
      return;
    }
    groups := SplitAtBoundary(sorted, boundary.value);
  }

  /** The loop: an event of the boundary kind closes the current group. */
  method SplitAtBoundary(sorted: seq<Event>, boundary: string) returns (groups: seq<TurnGroup>)
    ensures Events(groups) == sorted && Numbered(groups) && TurnsAt(groups, boundary)
  {
    groups := [];
    var current: seq<Event> := [];
    var turnIndex := 0;
    for i := 0 to |sorted|
      invariant SoFar(groups, current, sorted[..i], boundary) && turnIndex == |groups|
    {
      ghost var before := current;
      current := current + [sorted[i]];
      assert sorted[..i + 1] == sorted[..i] + [sorted[i]];
      if sorted[i].kind == boundary {
        var g := MakeTurnGroup(turnIndex, current);
        CloseGroup(groups, before, sorted[..i], g, sorted[i], boundary);
        groups := groups + [g];
        current := [];
        turnIndex := turnIndex + 1;
      } else {
        KeepOpen(groups, before, sorted[..i], sorted[i], boundary);
      }
    }
    assert sorted[..|sorted|] == sorted;
    if |current| > 0 {
      var g := MakeTurnGroup(turnIndex, current);
      LastGroup(groups, current, sorted, g, boundary);
      groups := groups + [g];
    }
  }

  lemma {:induction false} ClosedOccursOnce(events: seq<Event>, boundary: string)
    ensures Closed(events, boundary) ==> Occurs(events, boundary) == 1
    ensures Open(events, boundary) ==> Occurs(events, boundary) == 0
  {
    if events != [] {
      var n := |events| - 1;
      OpenNever(events[..n], boundary);
    }
  }

  lemma {:induction false} OpenNever(events: seq<Event>, boundary: string)
    ensures (forall i :: 0 <= i < |events| ==> events[i].kind != boundary) ==> Occurs(events, boundary) == 0
  {
    OccursPositive(events, boundary);
  }

  lemma {:induction false} ClosedCount(groups: seq<TurnGroup>, boundary: string)
    requires AllClosed(groups, boundary)
    ensures Occurs(Events(groups), boundary) == |groups|
  {
    if groups != [] {
      var n := |groups| - 1;
      ClosedCount(groups[..n], boundary);
      ClosedOccursOnce(groups[n].events, boundary);
      OccursAppend(Events(groups[..n]), groups[n].events, boundary);
    }
  }

  /** The turn count of the summary: it always counts this one kind. */
  function SummaryTurnCount(events: seq<Event>): nat { Get(Tally(events), AFTER_TURN_COMPLETED) }

  /** The groups of the timeline that a boundary event finished. */
  ghost function FinishedGroups(groups: seq<TurnGroup>, boundary: Option<string>): nat {
    if groups == [] then 0
    else
      FinishedGroups(groups[..|groups| - 1], boundary)
      + if boundary.Some? && Closed(groups[|groups| - 1].events, boundary.value) then 1 else 0
  }

  lemma {:induction false} FinishedAllClosed(groups: seq<TurnGroup>, boundary: string)
    requires AllClosed(groups, boundary)
    ensures FinishedGroups(groups, Some(boundary)) == |groups|
  {
    if groups != [] { FinishedAllClosed(groups[..|groups| - 1], boundary); }
  }

  /** Every boundary event finishes one group. */
  lemma BoundariesFinish(events: seq<Event>, groups: seq<TurnGroup>, boundary: string)
    requires Events(groups) == SortedEvents(events) && TurnsAt(groups, boundary)
    ensures FinishedGroups(groups, Some(boundary)) == Occurs(events, boundary)
  {
    OccursSorted(events, boundary);
    if AllClosed(groups, boundary) {
      ClosedCount(groups, boundary);
      FinishedAllClosed(groups, boundary);
    } else {
      var n := |groups| - 1;
      ClosedCount(groups[..n], boundary);
      FinishedAllClosed(groups[..n], boundary);
      ClosedOccursOnce(groups[n].events, boundary);
      OccursAppend(Events(groups[..n]), groups[n].events, boundary);
    }
  }

  lemma {:induction false} NoneFinished(groups: seq<TurnGroup>)
    ensures FinishedGroups(groups, None) == 0
  {
    if groups != [] { NoneFinished(groups[..|groups| - 1]); }
  }

  /** The summary's turn count is the number of finished groups of the timeline if and only if a turn was
      completed or nothing was flushed; on flushes alone the timeline has turns and the summary none. */
  lemma TurnCountMatches(events: seq<Event>, groups: seq<TurnGroup>)
    requires Events(groups) == SortedEvents(events)
    requires Boundary(events).Some? ==> TurnsAt(groups, Boundary(events).value)
    ensures SummaryTurnCount(events) == FinishedGroups(groups, Boundary(events))
            <==> HasKind(events, AFTER_TURN_COMPLETED) || !HasKind(events, INGEST_BUFFER_FLUSH)
    ensures Boundary(events) == Some(INGEST_BUFFER_FLUSH) ==>
              SummaryTurnCount(events) == 0 < FinishedGroups(groups, Boundary(events)) == Occurs(events, INGEST_BUFFER_FLUSH)
  {
    TallyCorrect(events, AFTER_TURN_COMPLETED);
    OccursPositive(events, AFTER_TURN_COMPLETED);
    OccursPositive(events, INGEST_BUFFER_FLUSH);
    if Boundary(events).Some? {
      BoundariesFinish(events, groups, Boundary(events).value);
    } else {
      NoneFinished(groups);
    }
  }

  lemma BoundarySorted(events: seq<Event>)
    ensures Boundary(SortedEvents(events)) == Boundary(events)
  {
    forall kind ensures HasKind(SortedEvents(events), kind) <==> HasKind(events, kind) {
      OccursSorted(events, kind);
      OccursPositive(events, kind);
      OccursPositive(SortedEvents(events), kind);
    }
  }

  function TotalCount(groups: seq<TurnGroup>, kind: string): nat {
    if groups == [] then 0
    else TotalCount(groups[..|groups| - 1], kind) + Get(groups[|groups| - 1].typeCounts, kind)
  }

  lemma {:induction false} GroupCountsAddUp(groups: seq<TurnGroup>, kind: string)
    requires Numbered(groups)
    ensures TotalCount(groups, kind) == Occurs(Events(groups), kind)
  {
    if groups != [] {
      var n := |groups| - 1;
      GroupCountsAddUp(groups[..n], kind);
      OccursAppend(Events(groups[..n]), groups[n].events, kind);
      assert GroupOk(groups[n], n);
      TallyCorrect(groups[n].events, kind);
    }
  }

  /** The timeline and the summary agree: for every event kind the per-turn counts add up to the
      summary's count over the same, unsorted events. */
  lemma TimelineMatchesSummary(events: seq<Event>, groups: seq<TurnGroup>, kind: string)
    requires Events(groups) == SortedEvents(events) && Numbered(groups)
    ensures TotalCount(groups, kind) == Get(Tally(events), kind) == Occurs(events, kind)
  {
    GroupCountsAddUp(groups, kind);
    OccursSorted(events, kind);
    TallyCorrect(events, kind);
  }

  /** The grouped events are the given ones by rising time, events of the same time in the order given. */
  lemma SortedByTime(events: seq<Event>, time: int)
    ensures multiset(SortedEvents(events)) == multiset(events)
    ensures forall i, j :: 0 <= i < j < |SortedEvents(events)| ==>
              SortedEvents(events)[i].timestamp <= SortedEvents(events)[j].timestamp
    ensures Keep(SortedEvents(events), (e: Event) => e.timestamp == time) == Keep(events, (e: Event) => e.timestamp == time)
  {
    SortCorrect(events, Earlier);
    var at, same := Event(time, "", ""), (e: Event) => e.timestamp == time;
    assert Ties(SortedEvents(events), at, Earlier) == Ties(events, at, Earlier);
    TiesAre(SortedEvents(events), at, Earlier, same);
    TiesAre(events, at, Earlier, same);
  }
}
