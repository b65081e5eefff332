/** The recent-facts window: load, update and atomic scrub, and the bookkeeping of one turn. */
module RecentFacts {
  import opened Basics

  datatype Entry = Entry(id: string, text: string, category: string)

  /** What Redis holds under the window's key: nothing, a text that is no JSON, a JSON value that is
      neither array nor object, a JSON object, or the array of entries. */
  datatype Stored = Missing | Garbage(text: string) | Scalar | Object | Window(entries: seq<Entry>)

  /** What a load hands to the turn: a list, a JSON value that is no list, or the decoding error. */
  datatype Loaded = Facts(facts: seq<Entry>) | NotAList | DecodeError

  function Entries(w: Stored): seq<Entry> {
    if w.Window? then w.entries else []
  }

  function Without(es: seq<Entry>, id: string): seq<Entry> {
    Keep(es, (e: Entry) => e.id != id)
  }

  predicate Holds(es: seq<Entry>, id: string) {
    exists i :: 0 <= i < |es| && es[i].id == id
  }

  /** The scrub script as one step: the window after it, and its answer. */
  function Scrubbed(w: Stored, id: string): (Stored, nat) {
    match w
    case Missing => (Missing, 0)
    case Garbage(_) => (Missing, 0)
    case Scalar => (Missing, 0)
    case Object => (Object, 0)
    case Window(es) =>
      var kept := Without(es, id);
      WithoutShrinks(es, id);
      if |kept| == |es| then (w, 0) else (if kept == [] then Missing else Window(kept), |es| - |kept|)
  }

  /** `new_facts[-max_count:]`. */
  function Updated(facts: seq<Entry>, maxCount: nat): Stored {
    Window(LastN(facts, maxCount))
  }

  function LoadOf(w: Stored): Loaded {
    if w.Missing? || w == Garbage("") then Facts([])
    else if w.Garbage? then DecodeError
    else if w.Window? then Facts(w.entries)
    else NotAList
  }

  class RecentFactsStore {
    var windows: map<string, Stored>

    function At(sessionKey: string): Stored
      reads this
    {
      if sessionKey in windows then windows[sessionKey] else Missing
    }

    constructor ()
      ensures windows == map[]
    {
      windows := map[];
    }

    /** An absent key and an empty text count as no facts. */
    method LoadRecentFacts(sessionKey: string) returns (r: Loaded)
      ensures r == LoadOf(At(sessionKey))
      ensures At(sessionKey).Window? ==> r == Facts(At(sessionKey).entries)
      ensures At(sessionKey) in {Missing, Garbage("")} ==> r == Facts([])
      ensures At(sessionKey) in {Scalar, Object} ==> r == NotAList
      ensures At(sessionKey).Garbage? && At(sessionKey).text != "" ==> r == DecodeError
    {
      if sessionKey !in windows { return Facts([]); }
      match windows[sessionKey] {
        case Missing => r := Facts([]);
        case Garbage(text) => r := if |text| > 0 then DecodeError else Facts([]);
        case Scalar => r := NotAList;
        case Object => r := NotAList;
        case Window(entries) => r := Facts(entries);
      }
    }

    method UpdateRecentFacts(sessionKey: string, newFacts: seq<Entry>, maxCount: nat)
      modifies this
      ensures At(sessionKey) == Updated(newFacts, maxCount)
      ensures forall k :: k != sessionKey ==> At(k) == old(At(k))
    {
      windows := windows[sessionKey := Window(LastN(newFacts, maxCount))];
    }

    method ScrubFactFromRecent(sessionKey: string, factId: string) returns (removed: nat)
      modifies this
      ensures (At(sessionKey), removed) == Scrubbed(old(At(sessionKey)), factId)
      ensures forall k :: k != sessionKey ==> At(k) == old(At(k))
    {
      removed := 0;
      if sessionKey !in windows { return; }
      if windows[sessionKey].Object? { return; }
      if !windows[sessionKey].Window? {
        windows := windows - {sessionKey};
        return;
      }
      var entries := windows[sessionKey].entries;
      var filtered: seq<Entry> := [];
      ghost var other := (e: Entry) => e.id != factId;
      for i := 0 to |entries|
        invariant filtered == Keep(entries[..i], other)
        invariant removed + |filtered| == i && windows == old(windows)
      {
        if entries[i].id == factId {
          removed := removed + 1;
        } else {
          filtered := filtered + [entries[i]];
        }
        KeepStep(entries, i, other);
      }
      assert entries[..|entries|] == entries;
      assert filtered == Without(entries, factId);
      if removed == 0 { return; }
      if |filtered| == 0 {
        windows := windows - {sessionKey};
      } else {
        windows := windows[sessionKey := Window(filtered)];
      }
    }
  }

  // ----- atomic scrubs -----

  lemma {:induction false} WithoutShrinks(es: seq<Entry>, id: string)
    ensures |Without(es, id)| <= |es|
    ensures |Without(es, id)| == |es| <==> !Holds(es, id)
    ensures !Holds(es, id) ==> Without(es, id) == es
  {
    if es != [] {
      WithoutShrinks(es[1..], id);
      assert forall i :: 0 < i < |es| ==> es[i] == es[1..][i - 1];
    }
  }

  lemma {:induction false} WithoutClean(es: seq<Entry>, id: string, other: string)
    ensures !Holds(Without(es, id), id)
    ensures Holds(Without(es, id), other) <==> Holds(es, other) && other != id
  {
    forall i | 0 <= i < |Without(es, id)| ensures Without(es, id)[i].id != id && Holds(es, Without(es, id)[i].id) {
      KeepMember(es, (e: Entry) => e.id != id, Without(es, id)[i]);
    }
    if Holds(es, other) && other != id {
      var i :| 0 <= i < |es| && es[i].id == other;
      KeepMember(es, (e: Entry) => e.id != id, es[i]);
      assert es[i] in Without(es, id);
    }
  }

  lemma {:induction false} WithoutCommutes(es: seq<Entry>, a: string, b: string)
    ensures Without(Without(es, a), b) == Without(Without(es, b), a)
    ensures a != b ==> |Without(es, b)| - |Without(Without(es, b), a)| == |es| - |Without(es, a)|
  {
    if es != [] {
      var pa, pb := (e: Entry) => e.id != a, (e: Entry) => e.id != b;
      WithoutCommutes(es[1..], a, b);
      KeepAppend(if es[0].id != a then [es[0]] else [], Keep(es[1..], pa), pb);
      KeepAppend(if es[0].id != b then [es[0]] else [], Keep(es[1..], pb), pa);
      assert Keep([es[0]], pa) == if es[0].id != a then [es[0]] else [];
      assert Keep([es[0]], pb) == if es[0].id != b then [es[0]] else [];
    }
  }

  /** A scrub keeps exactly the other entries in order and counts the ones it took; the id is gone. When none
      is left, and when the value was neither array nor object, the key is deleted. */
  lemma ScrubExact(w: Stored, id: string)
    ensures w.Window? ==>
              Scrubbed(w, id).0 == if !Holds(w.entries, id) then w
                                   else if Without(w.entries, id) == [] then Missing else Window(Without(w.entries, id))
    ensures !w.Window? ==> Scrubbed(w, id) == (if w.Object? then Object else Missing, 0)
    ensures Entries(Scrubbed(w, id).0) == Without(Entries(w), id)
    ensures Scrubbed(w, id).1 == |Keep(Entries(w), (e: Entry) => e.id == id)|
    ensures !Holds(Entries(Scrubbed(w, id).0), id)
  {
    WithoutShrinks(Entries(w), id);
    WithoutClean(Entries(w), id, id);
    Complement(Entries(w), id);
  }

  lemma {:induction false} Complement(es: seq<Entry>, id: string)
    ensures |Keep(es, (e: Entry) => e.id == id)| + |Without(es, id)| == |es|
  {
    if es != [] { Complement(es[1..], id); }
  }

  /** Scrubs commute, and for different ids neither changes the other's count. */
  lemma ScrubsCommute(w: Stored, a: string, b: string)
    ensures Scrubbed(Scrubbed(w, a).0, b).0 == Scrubbed(Scrubbed(w, b).0, a).0
    ensures a != b ==> Scrubbed(Scrubbed(w, b).0, a).1 == Scrubbed(w, a).1
  {
    if w.Window? {
      var es := w.entries;
      WithoutCommutes(es, a, b);
      WithoutShrinks(es, a);
      WithoutShrinks(es, b);
      WithoutShrinks(Without(es, a), b);
      WithoutShrinks(Without(es, b), a);
      WithoutClean(es, a, b);
      WithoutClean(es, b, a);
    }
  }

  function ScrubAll(w: Stored, ids: seq<string>): Stored {
    if ids == [] then w else Scrubbed(ScrubAll(w, ids[..|ids| - 1]), ids[|ids| - 1]).0
  }

  /** What a turn loads after an update and any scrubs: the kept entries whose id was not scrubbed, in
      order; an empty list when none is left, although the key is gone then. */
  lemma {:induction false} LoadAfterScrubs(facts: seq<Entry>, maxCount: nat, ids: seq<string>)
    ensures LoadOf(ScrubAll(Updated(facts, maxCount), ids))
            == Facts(Keep(LastN(facts, maxCount), (e: Entry) => e.id !in ids))
  {
    var w := LastN(facts, maxCount);
    if ids == [] {
      KeepAll(w, (e: Entry) => e.id !in ids);
    } else {
      var n := |ids| - 1;
      LoadAfterScrubs(facts, maxCount, ids[..n]);
      ScrubAllKind(facts, maxCount, ids[..n]);
      var before := ScrubAll(Updated(facts, maxCount), ids[..n]);
      ScrubExact(before, ids[n]);
      ScrubAllKind(facts, maxCount, ids);
      KeepOneMore(w, ids);
    }
  }

  lemma {:induction false} ScrubAllKind(facts: seq<Entry>, maxCount: nat, ids: seq<string>)
    ensures ScrubAll(Updated(facts, maxCount), ids).Window? || ScrubAll(Updated(facts, maxCount), ids).Missing?
  {
    if ids != [] { ScrubAllKind(facts, maxCount, ids[..|ids| - 1]); }
  }

  lemma {:induction false} KeepOneMore(es: seq<Entry>, ids: seq<string>)
    requires ids != []
    ensures var n := |ids| - 1;
            Without(Keep(es, (e: Entry) => e.id !in ids[..n]), ids[n]) == Keep(es, (e: Entry) => e.id !in ids)
  {
    if es != [] {
      var n := |ids| - 1;
      var p := (e: Entry) => e.id !in ids[..n];
      KeepOneMore(es[1..], ids);
      KeepAppend(if p(es[0]) then [es[0]] else [], Keep(es[1..], p), (e: Entry) => e.id != ids[n]);
      WithoutOne(es[0], ids[n]);
      assert ids == ids[..n] + [ids[n]];
      assert Without([], ids[n]) == [];
    }
  }

  /** The pattern that the script replaced: a scrub that reads and writes back in two steps. */
  datatype SplitStep = Get(who: nat) | Set(who: nat)

  datatype SplitState = SplitState(window: seq<Entry>, read: map<nat, seq<Entry>>)

  function SplitDo(s: SplitState, step: SplitStep, ids: map<nat, string>): SplitState {
    match step
    case Get(who) => s.(read := s.read[who := s.window])
    case Set(who) => if who in s.read && who in ids then s.(window := Without(s.read[who], ids[who])) else s
  }

  lemma WithoutOne(e: Entry, id: string)
    ensures Without([e], id) == if e.id != id then [e] else []
  {
    var p := (e: Entry) => e.id != id;
    assert [e][1..] == [] && Keep([e][1..], p) == [];
  }

  /** Two split scrubs that overlap: the second write brings the first one's id back. */
  lemma SplitScrubLosesRemoval(a: Entry, b: Entry)
    requires a.id != b.id
    ensures var ids := map[0 := a.id, 1 := b.id];
            var s0 := SplitState([a, b], map[]);
            var s := SplitDo(SplitDo(SplitDo(SplitDo(s0, Get(0), ids), Get(1), ids), Set(0), ids), Set(1), ids);
            s.window == [a] && Entries(Scrubbed(Scrubbed(Window([a, b]), a.id).0, b.id).0) == []
  {
    assert [a, b][1..] == [b] && [b][1..] == [];
    WithoutOne(b, a.id);
    WithoutOne(b, b.id);
    assert Without([a, b], a.id) == [b] && Without([a, b], b.id) == [a];
  }

  // ----- turns and scrubs interleaved -----

  /** A turn loads the window, and writes it back with what it stored unless it extracted nothing. A turn
      that gets no list fails before it can write. */
  datatype Step = Load(turn: nat) | Finish(turn: nat, stored: seq<Entry>) | Abandon(turn: nat) | Scrub(id: string)

  datatype State = State(window: Stored, inFlight: map<nat, seq<Entry>>)

  function Do(s: State, step: Step, maxCount: nat): State {
    match step
    case Load(t) => if LoadOf(s.window).Facts? then s.(inFlight := s.inFlight[t := LoadOf(s.window).facts]) else s
    case Finish(t, stored) =>
      if t in s.inFlight then State(Updated(s.inFlight[t] + stored, maxCount), s.inFlight - {t}) else s
    case Abandon(t) => s.(inFlight := s.inFlight - {t})
    case Scrub(id) => s.(window := Scrubbed(s.window, id).0)
  }

  function Run(s: State, steps: seq<Step>, maxCount: nat): State {
    if steps == [] then s else Do(Run(s, steps[..|steps| - 1], maxCount), steps[|steps| - 1], maxCount)
  }

  ghost predicate Bounded(s: State, maxCount: nat) {
    maxCount >= 1 ==>
      |Entries(s.window)| <= maxCount && forall t :: t in s.inFlight ==> |s.inFlight[t]| <= maxCount
  }

  /** With a positive limit neither the window nor what a turn has loaded ever exceeds it. */
  lemma {:induction false} RunBounded(s: State, steps: seq<Step>, maxCount: nat)
    requires Bounded(s, maxCount)
    ensures Bounded(Run(s, steps, maxCount), maxCount)
  {
    if steps != [] {
      var before, step := Run(s, steps[..|steps| - 1], maxCount), steps[|steps| - 1];
      RunBounded(s, steps[..|steps| - 1], maxCount);
      if step.Scrub? {
        ScrubExact(before.window, step.id);
        WithoutShrinks(Entries(before.window), step.id);
      }
    }
  }

  /** The limit is kept by every run from an empty store exactly when it is positive: with limit 0 the
      slice from `-0` keeps everything, and one turn that stores a fact already exceeds it. */
  lemma LimitKept(maxCount: nat)
    ensures (forall steps :: WithinLimit(steps, maxCount)) <==> maxCount >= 1
  {
    if maxCount >= 1 {
      forall steps ensures WithinLimit(steps, maxCount) { PositiveLimitKept(steps, maxCount); }
    } else {
      var e := Entry("f", "", "");
      ZeroLimitExceeded(e);
      assert !WithinLimit([Load(0), Finish(0, [e])], maxCount);
    }
  }

  /** The window at the end of a run from an empty store is within the limit. */
  predicate WithinLimit(steps: seq<Step>, maxCount: nat) {
    |Entries(Run(State(Missing, map[]), steps, maxCount).window)| <= maxCount
  }

  lemma PositiveLimitKept(steps: seq<Step>, maxCount: nat)
    requires maxCount >= 1
    ensures WithinLimit(steps, maxCount)
  {
    RunBounded(State(Missing, map[]), steps, maxCount);
  }

  lemma ZeroLimitExceeded(e: Entry)
    ensures Run(State(Missing, map[]), [Load(0), Finish(0, [e])], 0).window == Window([e])
  {
    var empty, steps := State(Missing, map[]), [Load(0), Finish(0, [e])];
    assert steps[..1] == [Load(0)] && steps[..1][..0] == [];
    assert Run(empty, steps[..1], 0) == Do(empty, Load(0), 0);
    assert [] + [e] == [e];
  }

  ghost predicate NeverStores(steps: seq<Step>, id: string) {
    forall i :: 0 <= i < |steps| && steps[i].Finish? ==> !Holds(steps[i].stored, id)
  }

  ghost predicate Clean(s: State, id: string) {
    !Holds(Entries(s.window), id) && forall t :: t in s.inFlight ==> !Holds(s.inFlight[t], id)
  }

  lemma TrimHolds(loaded: seq<Entry>, stored: seq<Entry>, maxCount: nat, id: string)
    requires !Holds(loaded, id) && !Holds(stored, id)
    ensures !Holds(LastN(loaded + stored, maxCount), id)
  {
    HoldsNeither(loaded, stored, id);
    HoldsNoEnd(loaded + stored, |loaded + stored| - |LastN(loaded + stored, maxCount)|, id);
  }

  lemma HoldsNeither(a: seq<Entry>, b: seq<Entry>, id: string)
    requires !Holds(a, id) && !Holds(b, id)
    ensures !Holds(a + b, id)
  {
  }

  lemma HoldsNoEnd(a: seq<Entry>, k: nat, id: string)
    requires !Holds(a, id) && k <= |a|
    ensures !Holds(a[k..], id)
  {
  }

  lemma CleanStep(s: State, step: Step, maxCount: nat, id: string)
    requires Clean(s, id) && (step.Finish? ==> !Holds(step.stored, id))
    ensures Clean(Do(s, step, maxCount), id)
  {
    if step.Scrub? {
      ScrubExact(s.window, step.id);
      WithoutClean(Entries(s.window), step.id, id);
    } else if step.Finish? && step.turn in s.inFlight {
      TrimHolds(s.inFlight[step.turn], step.stored, maxCount, id);
    }
  }

  lemma {:induction false} CleanStaysClean(s: State, steps: seq<Step>, maxCount: nat, id: string)
    requires Clean(s, id) && NeverStores(steps, id)
    ensures Clean(Run(s, steps, maxCount), id)
  {
    if steps != [] {
      CleanStaysClean(s, steps[..|steps| - 1], maxCount, id);
      CleanStep(Run(s, steps[..|steps| - 1], maxCount), steps[|steps| - 1], maxCount, id);
    }
  }

  /** A turn that had loaded the id writes it back, even if it stores nothing of its own. */
  lemma FinishBringsBack(s: State, t: nat, maxCount: nat, id: string) returns (after: seq<Step>)
    requires t in s.inFlight && Holds(s.inFlight[t], id) && (maxCount >= 1 ==> |s.inFlight[t]| <= maxCount)
    ensures NeverStores(after, id) && Holds(Entries(Run(s, after, maxCount).window), id)
  {
    after := [Finish(t, [])];
    assert after[..0] == [] && Run(s, [], maxCount) == s;
    assert s.inFlight[t] + [] == s.inFlight[t];
    assert Entries(Run(s, after, maxCount).window) == s.inFlight[t];
  }

  /** When does a scrubbed fact stay out of the window? In every continuation that does not store it
      again, if and only if no turn between its load and its update had loaded it at that moment. */
  lemma ScrubbedStaysOut(start: Stored, before: seq<Step>, maxCount: nat, id: string)
    requires Bounded(State(start, map[]), maxCount)
    ensures var s := Run(State(start, map[]), before, maxCount);
            (forall after :: NeverStores(after, id) ==> !Holds(Entries(Run(Do(s, Scrub(id), maxCount), after, maxCount).window), id))
            <==> (forall t :: t in s.inFlight ==> !Holds(s.inFlight[t], id))
  {
    var s := Run(State(start, map[]), before, maxCount);
    var scrubbed := Do(s, Scrub(id), maxCount);
    RunBounded(State(start, map[]), before, maxCount);
    ScrubExact(s.window, id);
    if t :| t in s.inFlight && Holds(s.inFlight[t], id) {
      var after := FinishBringsBack(scrubbed, t, maxCount, id);
    } else {
      forall after | NeverStores(after, id) ensures !Holds(Entries(Run(scrubbed, after, maxCount).window), id) {
        CleanStaysClean(scrubbed, after, maxCount, id);
      }
    }
  }

  // ----- the bookkeeping of one turn -----

  /** An extracted fact with its references into the loaded window; -1 or out of range means none. */
  datatype RawFact = RawFact(text: string, category: string, supersedesIndex: int)

  datatype Outcome = Accepted | Duplicate | Failed

  function Supersedes(recent: seq<Entry>, f: RawFact): Option<string> {
    if 0 <= f.supersedesIndex < |recent| && recent[f.supersedesIndex].id != ""
    then Some(recent[f.supersedesIndex].id) else None
  }

  /** The facts that reached the store, as window entries. */
  function StoredEntries(facts: seq<RawFact>, ids: seq<string>, outcomes: seq<Outcome>): seq<Entry>
    requires |facts| == |ids| == |outcomes|
  {
    if facts == [] then []
    else
      var n := |facts| - 1;
      StoredEntries(facts[..n], ids[..n], outcomes[..n])
      + if outcomes[n].Accepted? then [Entry(ids[n], facts[n].text, facts[n].category)] else []
  }

  /** The old facts that lose confidence: one for each stored fact that names one. */
  function Decayed(recent: seq<Entry>, facts: seq<RawFact>, outcomes: seq<Outcome>): seq<string>
    requires |facts| == |outcomes|
  {
    if facts == [] then []
    else
      var n := |facts| - 1;
      Decayed(recent, facts[..n], outcomes[..n])
      + if outcomes[n].Accepted? && Supersedes(recent, facts[n]).Some? then [Supersedes(recent, facts[n]).value] else []
  }

  ghost predicate Fresh(ids: seq<string>) {
    forall i, j :: 0 <= i < j < |ids| ==> ids[i] != ids[j]
  }

  method FindSupersessions(recent: seq<Entry>, facts: seq<RawFact>) returns (supersessions: seq<Option<string>>)
    ensures |supersessions| == |facts| && forall k :: 0 <= k < |facts| ==> supersessions[k] == Supersedes(recent, facts[k])
  {
    supersessions := [];
    for i := 0 to |facts|
      invariant |supersessions| == i && forall k :: 0 <= k < i ==> supersessions[k] == Supersedes(recent, facts[k])
    {
      supersessions := supersessions + [Supersedes(recent, facts[i])];
    }
  }

  /** The supersession map is built from the loaded window before anything is stored, and is applied
      afterwards to the facts whose id is among the stored ids. */
  method RecordTurn(recent: seq<Entry>, facts: seq<RawFact>, ids: seq<string>, outcomes: seq<Outcome>)
    returns (stored: seq<Entry>, decayed: seq<string>, factsStored: nat, factsSuperseded: nat)
    requires |facts| == |ids| == |outcomes| && Fresh(ids)
    ensures stored == StoredEntries(facts, ids, outcomes) && factsStored == |stored|
    ensures decayed == Decayed(recent, facts, outcomes) && factsSuperseded == |decayed|
    ensures factsSuperseded <= factsStored
    ensures forall id :: id in decayed ==> Holds(recent, id)
  {
    var supersessions := FindSupersessions(recent, facts);
    stored, factsStored := [], 0;
    var storedIds: set<string> := {};
    for i := 0 to |facts|
      invariant stored == StoredEntries(facts[..i], ids[..i], outcomes[..i]) && factsStored == |stored|
      invariant forall k :: i <= k < |facts| ==> ids[k] !in storedIds
      invariant forall k :: 0 <= k < i ==> (ids[k] in storedIds <==> outcomes[k].Accepted?)
    {
      Prefixes(facts, ids, outcomes, i);
      if outcomes[i].Accepted? {
        stored := stored + [Entry(ids[i], facts[i].text, facts[i].category)];
        storedIds := storedIds + {ids[i]};
        factsStored := factsStored + 1;
      }
    }
    decayed, factsSuperseded := [], 0;
    for i := 0 to |facts|
      invariant decayed == Decayed(recent, facts[..i], outcomes[..i]) && factsSuperseded == |decayed|
      invariant |decayed| <= |StoredEntries(facts[..i], ids[..i], outcomes[..i])|
      invariant forall id :: id in decayed ==> Holds(recent, id)
    {
      Prefixes(facts, ids, outcomes, i);
      if supersessions[i].Some? && ids[i] in storedIds {
        decayed := decayed + [supersessions[i].value];
        factsSuperseded := factsSuperseded + 1;
      }
    }
    assert facts[..|facts|] == facts && ids[..|facts|] == ids && outcomes[..|facts|] == outcomes;
  }

  /** What a turn stores: the accepted facts in order, each under the id it was given. */
  lemma {:induction false} StoredExactly(facts: seq<RawFact>, ids: seq<string>, outcomes: seq<Outcome>) returns (at: seq<nat>)
    requires |facts| == |ids| == |outcomes|
    ensures var stored := StoredEntries(facts, ids, outcomes);
            && |at| == |stored|
            && (forall k :: 0 <= k < |at| ==> at[k] < |facts| && outcomes[at[k]].Accepted?)
            && (forall k :: 0 <= k < |at| ==> StoredAs(stored[k], facts[at[k]], ids[at[k]]))
            && (forall k, l :: 0 <= k < l < |at| ==> at[k] < at[l])
            && (forall i :: 0 <= i < |facts| && outcomes[i].Accepted? ==> i in at)
  {
    at := [];
    if facts != [] {
      var n := |facts| - 1;
      at := StoredExactly(facts[..n], ids[..n], outcomes[..n]);
      StoredStep(facts, ids, outcomes);
      if outcomes[n].Accepted? { at := at + [n]; }
    }
  }

  predicate StoredAs(e: Entry, f: RawFact, id: string) { e.id == id && e.text == f.text && e.category == f.category }

  lemma StoredStep(facts: seq<RawFact>, ids: seq<string>, outcomes: seq<Outcome>)
    requires |facts| == |ids| == |outcomes| > 0
    ensures var n := |facts| - 1;
            StoredEntries(facts, ids, outcomes)
            == StoredEntries(facts[..n], ids[..n], outcomes[..n])
               + if outcomes[n].Accepted? then [Entry(ids[n], facts[n].text, facts[n].category)] else []
  {
  }

  /** Which old facts lose confidence: for each accepted fact, in order, the one at its index in the loaded window,
      when the index is in range and the entry has an id. */
  lemma {:induction false} DecayedExactly(recent: seq<Entry>, facts: seq<RawFact>, outcomes: seq<Outcome>) returns (at: seq<nat>)
    requires |facts| == |outcomes|
    ensures var decayed := Decayed(recent, facts, outcomes);
            && |at| == |decayed|
            && (forall k :: 0 <= k < |at| ==> at[k] < |facts| && NamesOld(recent, facts[at[k]], outcomes[at[k]]))
            && (forall k :: 0 <= k < |at| ==> decayed[k] == recent[facts[at[k]].supersedesIndex].id)
            && (forall k, l :: 0 <= k < l < |at| ==> at[k] < at[l])
            && (forall i :: 0 <= i < |facts| && NamesOld(recent, facts[i], outcomes[i]) ==> i in at)
  {
    at := [];
    if facts != [] {
      var n := |facts| - 1;
      at := DecayedExactly(recent, facts[..n], outcomes[..n]);
      DecayedStep(recent, facts, outcomes);
      if NamesOld(recent, facts[n], outcomes[n]) { at := at + [n]; }
    }
  }

  lemma DecayedStep(recent: seq<Entry>, facts: seq<RawFact>, outcomes: seq<Outcome>)
    requires |facts| == |outcomes| > 0
    ensures var n := |facts| - 1;
            Decayed(recent, facts, outcomes)
            == Decayed(recent, facts[..n], outcomes[..n])
               + if NamesOld(recent, facts[n], outcomes[n]) then [recent[facts[n].supersedesIndex].id] else []
  {
  }

  predicate NamesOld(recent: seq<Entry>, f: RawFact, outcome: Outcome) {
    outcome == Accepted && f.supersedesIndex >= 0 && f.supersedesIndex < |recent| && recent[f.supersedesIndex].id != ""
  }

  lemma Prefixes(facts: seq<RawFact>, ids: seq<string>, outcomes: seq<Outcome>, i: nat)
    requires |facts| == |ids| == |outcomes| && i < |facts|
    ensures facts[..i + 1][..i] == facts[..i] && ids[..i + 1][..i] == ids[..i] && outcomes[..i + 1][..i] == outcomes[..i]
  {
  }

  /** A turn that runs undisturbed leaves the last `maxCount` entries of old ++ stored; with limit 0 it
      leaves them all. */
  lemma UndisturbedTurn(s: State, turn: nat, stored: seq<Entry>, maxCount: nat)
    requires LoadOf(s.window).Facts?
    ensures var s' := Do(Do(s, Load(turn), maxCount), Finish(turn, stored), maxCount);
            var all := Entries(s.window) + stored;
            && Entries(s'.window) == (if 0 < maxCount < |all| then all[|all| - maxCount..] else all)
            && s'.window.Window? && s'.inFlight == s.inFlight - {turn}
  {
  }

  function Concat(batches: seq<seq<Entry>>): seq<Entry> {
    if batches == [] then [] else Concat(batches[..|batches| - 1]) + batches[|batches| - 1]
  }

  /** One turn after the other. */
  function Turns(s: State, batches: seq<seq<Entry>>, maxCount: nat): State {
    if batches == [] then s
    else
      Do(Do(Turns(s, batches[..|batches| - 1], maxCount), Load(0), maxCount),
         Finish(0, batches[|batches| - 1]), maxCount)
  }

  /** What a load answers is the last `maxCount` entries of `all`; with limit 0 all of them. */
  predicate ShowsEndOf(s: State, all: seq<Entry>, maxCount: nat) {
    LoadOf(s.window) == Facts(LastN(all, maxCount))
  }

  /** Over any number of turns the window stays the end of everything ever stored: with a positive limit
      its last `maxCount` entries, with limit 0 all of it, without a bound. */
  lemma {:induction false} WindowOfTurns(s: State, earlier: seq<Entry>, batches: seq<seq<Entry>>, maxCount: nat)
    requires ShowsEndOf(s, earlier, maxCount)
    ensures ShowsEndOf(Turns(s, batches, maxCount), earlier + Concat(batches), maxCount)
    decreases |batches|
  {
    if batches == [] {
      assert earlier + [] == earlier;
    } else {
      var n := |batches| - 1;
      WindowOfTurns(s, earlier, batches[..n], maxCount);
      TurnOnTail(Turns(s, batches[..n], maxCount), earlier + Concat(batches[..n]), batches[n], maxCount);
      Reassociate(earlier, Concat(batches[..n]), batches[n]);
    }
  }

  lemma Reassociate(a: seq<Entry>, b: seq<Entry>, c: seq<Entry>)
    ensures a + b + c == a + (b + c)
  {
  }

  lemma TurnOnTail(s: State, xs: seq<Entry>, stored: seq<Entry>, maxCount: nat)
    requires ShowsEndOf(s, xs, maxCount)
    ensures ShowsEndOf(Do(Do(s, Load(0), maxCount), Finish(0, stored), maxCount), xs + stored, maxCount)
  {
    LastNTwice(xs, stored, maxCount);
  }
}
