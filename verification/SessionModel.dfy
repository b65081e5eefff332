/** What one lifecycle operation does to one session's record, and to the whole stored state. */
module SessionModel {
  import opened Basics
  import opened Messages
  import opened GoalForest
  import opened Compaction
  import Ids = SessionIds

  type Session = (string, string)

  datatype GoalMark = GoalMark(turn: nat, status: string)

  /** The parts of a profile that the lifecycle reads; a session keeps the profile it was started with. */
  datatype Profile = Profile(compaction: CompactionPolicy, smartGoals: bool, reminderInterval: nat)

  /** The stored session record. */
  datatype Context = Context(
    turnCount: nat, compactCount: nat, factTurns: map<string, nat>, goalHistory: map<string, GoalMark>,
    window: Option<int>, snapshotId: Option<string>, rt1Counter: nat, rt1LastBatchAt: Option<int>, profile: Profile)

  datatype Snapshot = Snapshot(id: string, items: seq<string>)

  /** What an assemble call works on: the working set, when it could be built, and the session's goals. */
  datatype Request = Request(snapshot: Option<Snapshot>, goals: seq<GoalState>)

  datatype State = State(
    store: map<Session, Context>, messages: map<Session, seq<Message>>, fallback: Ids.Cache, booted: Ids.Cache)

  // ----- one record -----

  function NewContext(profile: Profile): Context {
    Context(0, 0, map[], map[], None, None, 0, None, profile)
  }

  predicate ShouldInject(g: GoalState, history: map<string, GoalMark>, turn: nat, interval: nat) {
    g.id !in history || g.blockers != [] || g.status != history[g.id].status || turn - history[g.id].turn >= interval
  }

  /** The smart cadence: the injected goals, and the history after them. */
  function FilterSmart(goals: seq<GoalState>, history: map<string, GoalMark>, turn: nat, interval: nat)
    : (seq<GoalState>, map<string, GoalMark>)
  {
    if goals == [] then ([], history)
    else
      var (kept, h) := FilterSmart(goals[..|goals| - 1], history, turn, interval);
      var g := goals[|goals| - 1];
      if ShouldInject(g, h, turn, interval) then (kept + [g], h[g.id := GoalMark(turn, g.status)]) else (kept, h)
  }

  function FilterGoals(goals: seq<GoalState>, c: Context): (seq<GoalState>, map<string, GoalMark>) {
    if c.profile.smartGoals then FilterSmart(goals, c.goalHistory, c.turnCount, c.profile.reminderInterval)
    else (goals, c.goalHistory)
  }

  /** The first injection turn of each item. */
  function MarkItems(items: seq<string>, turns: map<string, nat>, turn: nat): map<string, nat> {
    if items == [] then turns
    else
      var t, id := MarkItems(items[..|items| - 1], turns, turn), items[|items| - 1];
      if id in t then t else t[id := turn]
  }

  function Assembled(c: Context, r: Request): Context {
    var c1 := c.(goalHistory := FilterGoals(r.goals, c).1);
    match r.snapshot
    case None => c1
    case Some(s) => c1.(factTurns := MarkItems(s.items, c.factTurns, c.turnCount), snapshotId := Some(s.id))
  }

  function Turned(c: Context): Context { c.(turnCount := c.turnCount + 1) }

  function Reset(c: Context): Context {
    c.(factTurns := map[], goalHistory := map[], compactCount := c.compactCount + 1)
  }

  ghost predicate MarksBound(h: map<string, GoalMark>, turn: nat) {
    forall id :: id in h ==> h[id].turn <= turn
  }

  ghost predicate TurnsBound(h: map<string, nat>, turn: nat) {
    forall id :: id in h ==> h[id] <= turn
  }

  /** No injection is recorded for a turn still to come. */
  ghost predicate Consistent(c: Context) {
    TurnsBound(c.factTurns, c.turnCount) && MarksBound(c.goalHistory, c.turnCount)
  }

  lemma {:induction false} FilterSmartBound(goals: seq<GoalState>, history: map<string, GoalMark>, turn: nat, interval: nat)
    requires MarksBound(history, turn)
    ensures MarksBound(FilterSmart(goals, history, turn, interval).1, turn)
  {
    if goals != [] { FilterSmartBound(goals[..|goals| - 1], history, turn, interval); }
  }

  lemma {:induction false} MarkItemsBound(items: seq<string>, turns: map<string, nat>, turn: nat)
    requires TurnsBound(turns, turn)
    ensures TurnsBound(MarkItems(items, turns, turn), turn)
  {
    if items != [] { MarkItemsBound(items[..|items| - 1], turns, turn); }
  }

  lemma AssembledConsistent(c: Context, r: Request)
    requires Consistent(c)
    ensures Consistent(Assembled(c, r))
  {
    FilterSmartBound(r.goals, c.goalHistory, c.turnCount, c.profile.reminderInterval);
    if r.snapshot.Some? { MarkItemsBound(r.snapshot.value.items, c.factTurns, c.turnCount); }
  }

  /** An item keeps its first injection turn; an item not seen before gets the current one. */
  lemma {:induction false} MarkItemsExact(items: seq<string>, turns: map<string, nat>, turn: nat, id: string)
    ensures var t := MarkItems(items, turns, turn);
            && (id in t <==> id in turns || id in items)
            && (id in t ==> t[id] == if id in turns then turns[id] else turn)
  {
    if items != [] {
      var n := |items| - 1;
      MarkItemsExact(items[..n], turns, turn, id);
      assert items == items[..n] + [items[n]];
    }
  }

  /** The injected goals are the given ones at strictly increasing positions. */
  lemma {:induction false} FilterIsSubsequence(goals: seq<GoalState>, history: map<string, GoalMark>, turn: nat, interval: nat)
    returns (at: seq<nat>)
    ensures var kept := FilterSmart(goals, history, turn, interval).0;
            && |at| == |kept| && (forall i :: 0 <= i < |at| ==> at[i] < |goals| && goals[at[i]] == kept[i])
            && (forall i, j :: 0 <= i < j < |at| ==> at[i] < at[j])
  {
    at := [];
    if goals != [] {
      var n := |goals| - 1;
      at := FilterIsSubsequence(goals[..n], history, turn, interval);
      if ShouldInject(goals[n], FilterSmart(goals[..n], history, turn, interval).1, turn, interval) {
        at := at + [n];
      }
    }
  }

  // ----- the whole state, operation by operation -----

  function MessagesOf(st: State, k: Session): seq<Message> {
    if k in st.messages then st.messages[k] else []
  }

  function Stamped(ms: seq<Message>, turn: nat): seq<Message> {
    seq(|ms|, i requires 0 <= i < |ms| => ms[i].(turn := turn))
  }

  /** The stored messages after a batch; an empty batch is not pushed. */
  function Pushed(st: State, k: Session, ms: seq<Message>): map<Session, seq<Message>> {
    if ms == [] then st.messages else st.messages[k := MessagesOf(st, k) + ms]
  }

  /** `_bootstrap_session_ids[key] = sid`, after dropping the oldest of 128. */
  function Remember(c: Ids.Cache, key: string, sid: string): Ids.Cache {
    var d := if |c| >= Ids.CAPACITY then c[1..] else c;
    if Ids.Has(d, key) then d[Ids.Find(d, key) := (key, sid)] else d + [(key, sid)]
  }

  function BootstrapSpec(st: State, sk: string, sid0: string, uuid: string, profile: Profile): State {
    var (sid, cache) := Ids.Entered(st.fallback, sid0, sk, uuid);
    var st1 := st.(fallback := cache, booted := Remember(st.booted, sk, sid));
    if (sk, sid) in st.store then st1 else st1.(store := st.store[(sk, sid) := NewContext(profile)])
  }

  /** The record is loaded, or created by a nested bootstrap under the id just resolved. */
  function Opened(st: State, sk: string, sid: string, uuid: string, profile: Profile): State {
    if (sk, sid) in st.store then st else BootstrapSpec(st, sk, sid, uuid, profile)
  }

  function AssembleSpec(st: State, sk: string, sid0: string, uuid: string, profile: Profile, r: Request): State {
    var (sid, cache) := Ids.Entered(st.fallback, sid0, sk, uuid);
    var st1 := Opened(st.(fallback := cache), sk, sid, uuid, profile);
    var k := (sk, sid);
    if k in st1.store then st1.(store := st1.store[k := Assembled(st1.store[k], r)]) else st1
  }

  function IngestSpec(st: State, sk: string, sid0: string, uuid: string, profile: Profile, ms: seq<Message>): State {
    var (sid, cache) := Ids.Entered(st.fallback, sid0, sk, uuid);
    var st1 := Opened(st.(fallback := cache), sk, sid, uuid, profile);
    var k := (sk, sid);
    var stamped := if k in st1.store then Stamped(ms, st1.store[k].turnCount) else ms;
    st1.(messages := Pushed(st1, k, stamped))
  }

  const CADENCE_MULTIPLIERS: map<string, real> := map["aggressive" := 1.5, "balanced" := 2.0, "minimal" := 3.0]

  /** The precheck as `after_turn` writes it. */
  predicate Precheck(total: nat, policy: CompactionPolicy) {
    var cadence := if policy.cadence in CADENCE_MULTIPLIERS then policy.cadence else "balanced";
    (total as real) > (policy.targetTokens as real) * CADENCE_MULTIPLIERS[cadence]
  }

  /** The two triggers agree: the precheck fires exactly when the engine's own test does. */
  lemma PrecheckAgrees(total: nat, policy: CompactionPolicy)
    ensures Precheck(total, policy) <==> ShouldTrigger(total, policy, false)
  {
    assert policy.cadence in CADENCE_MULTIPLIERS <==>
           policy.cadence == "aggressive" || policy.cadence == "balanced" || policy.cadence == "minimal";
    var t := policy.targetTokens as real;
    if policy.cadence == "aggressive" {
      assert "aggressive" != "minimal";
      assert 2.0 * (t * 1.5) == t * 3.0;
    }
  }

  /** Whether the messages of a session are over its compaction threshold. */
  predicate Overfull(ms: seq<Message>, policy: CompactionPolicy) {
    ms != [] && AboveThreshold(Tokens(ms), policy)
  }

  /** The net effect of a completed turn: the messages are stamped with the turn that ends, the turn count
      goes up by one, and if the messages are over the threshold the record is compacted as well. */
  function AfterTurnSpec(st: State, sk: string, sid0: string, uuid: string, ms: seq<Message>): State {
    var (sid, cache) := Ids.Entered(st.fallback, sid0, sk, uuid);
    var k := (sk, sid);
    if k !in st.store then st.(fallback := cache)
    else
      var c := st.store[k];
      var messages := Pushed(st, k, Stamped(ms, c.turnCount));
      var fires := Overfull(MessagesOf(st.(messages := messages), k), c.profile.compaction);
      State(st.store[k := if fires then Reset(Turned(c)) else Turned(c)], messages,
            if ms != [] || fires then Ids.Popped(cache, sk) else cache, st.booted)
  }

  function CompactSpec(st: State, sk: string, sid0: string, uuid: string, force: bool, count: Option<nat>): State {
    var (sid, cache) := Ids.Entered(st.fallback, sid0, sk, uuid);
    var st1 := st.(fallback := cache);
    var k := (sk, sid);
    if k !in st.store || MessagesOf(st, k) == [] then st1
    else
      var c := st.store[k];
      var tokens := if count.Some? then count.value else Tokens(MessagesOf(st, k));
      if ShouldTrigger(tokens, c.profile.compaction, force) then st1.(store := st.store[k := Reset(c)]) else st1
  }

  function WindowSpec(st: State, k: Session, window: Option<int>): State {
    if k in st.store then st.(store := st.store[k := st.store[k].(window := window)]) else st
  }

  /** Which session a call to end means: the given one, the remembered one, or the fallback. */
  function EndTarget(st: State, sk: string, sid: string, uuid: string): Session {
    if sid == "" && Ids.Has(st.booted, sk) then (sk, Ids.Lookup(st.booted, sk))
    else (sk, Ids.Ensured(st.fallback, sid, sk, uuid).0)
  }

  function EndSpec(st: State, sk: string, sid: string, uuid: string): State {
    var cache := if sid == "" && Ids.Has(st.booted, sk) then st.fallback else Ids.Ensured(st.fallback, sid, sk, uuid).1;
    State(st.store - {EndTarget(st, sk, sid, uuid)}, st.messages, Ids.Popped(cache, sk), Ids.Popped(st.booted, sk))
  }

  function DisposeSpec(st: State, sk: string, sid: string, uuid: string): State {
    st.(fallback := Ids.Popped(Ids.Ensured(st.fallback, sid, sk, uuid).1, sk))
  }
}
