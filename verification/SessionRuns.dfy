/** Properties of every run of lifecycle calls: turn counting, injection marks, stamps, compaction,
    the goal cadence, and what becomes of sessions without an id. */
module SessionRuns {
  import opened Basics
  import opened Messages
  import opened GoalForest
  import opened Compaction
  import opened SessionModel
  import opened Lifecycle
  import Ids = SessionIds

  /** One call. `uuid` is the identifier that a fallback would generate. */
  datatype Op =
    | Bootstrap(sk: string, sid: string, uuid: string, profile: Profile)
    | Assemble(sk: string, sid: string, uuid: string, profile: Profile, request: Request)
    | Ingest(sk: string, sid: string, uuid: string, profile: Profile, batch: seq<Message>)
    | AfterTurn(sk: string, sid: string, uuid: string, batch: seq<Message>)
    | Compact(sk: string, sid: string, uuid: string, force: bool, count: Option<nat>)
    | End(sk: string, sid: string, uuid: string)
    | Dispose(sk: string, sid: string, uuid: string)
    | Window(sk: string, sid: string, window: Option<int>)

  /** The effect of a call, as the methods of `ContextLifecycle` are proved to have it. */
  function Step(st: State, op: Op): State {
    match op
    case Bootstrap(sk, sid, uuid, profile) => BootstrapSpec(st, sk, sid, uuid, profile)
    case Assemble(sk, sid, uuid, profile, request) => AssembleSpec(st, sk, sid, uuid, profile, request)
    case Ingest(sk, sid, uuid, profile, batch) => IngestSpec(st, sk, sid, uuid, profile, batch)
    case AfterTurn(sk, sid, uuid, batch) => AfterTurnSpec(st, sk, sid, uuid, batch)
    case Compact(sk, sid, uuid, force, count) => CompactSpec(st, sk, sid, uuid, force, count)
    case End(sk, sid, uuid) => EndSpec(st, sk, sid, uuid)
    case Dispose(sk, sid, uuid) => DisposeSpec(st, sk, sid, uuid)
    case Window(sk, sid, window) => WindowSpec(st, (sk, sid), window)
  }

  function Run(st: State, ops: seq<Op>): State
    decreases |ops|
  {
    if ops == [] then st else Run(Step(st, ops[0]), ops[1..])
  }

  const Empty: State := State(map[], map[], [], [])

  /** The session a call works on. */
  function Target(st: State, op: Op): Session {
    match op
    case End(sk, sid, uuid) => EndTarget(st, sk, sid, uuid)
    case Window(sk, sid, _) => (sk, sid)
    case _ => (op.sk, Ids.Entered(st.fallback, op.sid, op.sk, op.uuid).0)
  }

  predicate Turns(st: State, op: Op, k: Session) { op.AfterTurn? && Target(st, op) == k }
  predicate Ends(st: State, op: Op, k: Session) { op.End? && Target(st, op) == k }

  /** No call of the run ends session `k`. */
  predicate Lives(st: State, ops: seq<Op>, k: Session)
    decreases |ops|
  {
    ops == [] || (!Ends(st, ops[0], k) && Lives(Step(st, ops[0]), ops[1..], k))
  }

  /** How many turns of session `k` the run completes. */
  function TurnCalls(st: State, ops: seq<Op>, k: Session): nat
    decreases |ops|
  {
    if ops == [] then 0 else (if Turns(st, ops[0], k) then 1 else 0) + TurnCalls(Step(st, ops[0]), ops[1..], k)
  }

  // ----- one call -----

  /** A call leaves every session but its own as it was. */
  lemma StepFrame(st: State, op: Op, k: Session)
    requires k != Target(st, op)
    ensures k in Step(st, op).store <==> k in st.store
    ensures k in st.store ==> Step(st, op).store[k] == st.store[k]
    ensures MessagesOf(Step(st, op), k) == MessagesOf(st, k)
  {
    match op
    case Bootstrap(_, _, _, _) =>
    case Assemble(sk, sid, uuid, profile, _) => OpenFrame(st, sk, sid, uuid, profile, k);
    case Ingest(sk, sid, uuid, profile, _) => OpenFrame(st, sk, sid, uuid, profile, k);
    case AfterTurn(_, _, _, _) =>
    case Compact(_, _, _, _, _) =>
    case End(_, _, _) =>
    case Dispose(_, _, _) =>
    case Window(_, _, _) =>
  }

  lemma OpenFrame(st: State, sk: string, sid0: string, uuid: string, profile: Profile, k: Session)
    requires k != (sk, Ids.Entered(st.fallback, sid0, sk, uuid).0)
    ensures var (sid, cache) := Ids.Entered(st.fallback, sid0, sk, uuid);
            var st1 := Opened(st.(fallback := cache), sk, sid, uuid, profile);
            && (k in st1.store <==> k in st.store) && (k in st.store ==> st1.store[k] == st.store[k])
            && st1.messages == st.messages
  {
  }

  /** A call never loses a record it does not end: the turn count goes up by one for a completed turn and
      otherwise stays, the profile stays, compactions and messages only accumulate. */
  lemma StepRecord(st: State, op: Op, k: Session)
    requires k in st.store && !Ends(st, op, k)
    ensures k in Step(st, op).store
    ensures var c, d := st.store[k], Step(st, op).store[k];
            && d.turnCount == c.turnCount + (if Turns(st, op, k) then 1 else 0)
            && d.profile == c.profile && d.compactCount >= c.compactCount
    ensures MessagesOf(st, k) <= MessagesOf(Step(st, op), k)
  {
    if k != Target(st, op) {
      StepFrame(st, op, k);
    } else {
      match op
      case Bootstrap(_, _, _, _) =>
      case Assemble(_, _, _, _, _) =>
      case Ingest(_, _, _, _, _) =>
      case AfterTurn(_, _, _, _) =>
      case Compact(_, _, _, _, _) =>
      case End(_, _, _) =>
      case Dispose(_, _, _) =>
      case Window(_, _, _) =>
    }
  }

  /** A completed turn over the threshold ends with all three updates in place: turn count and compaction
      count one higher, both injection maps empty. Otherwise the record changes in its turn count only. */
  lemma TurnEffect(st: State, op: Op)
    requires op.AfterTurn? && Target(st, op) in st.store
    ensures var k, after := Target(st, op), Step(st, op);
            var c := st.store[k];
            && MessagesOf(after, k) == MessagesOf(st, k) + Stamped(op.batch, c.turnCount)
            && (Overfull(MessagesOf(after, k), c.profile.compaction) ==>
                  after.store[k] == c.(turnCount := c.turnCount + 1, compactCount := c.compactCount + 1,
                                       factTurns := map[], goalHistory := map[]))
            && (!Overfull(MessagesOf(after, k), c.profile.compaction) ==>
                  after.store[k] == c.(turnCount := c.turnCount + 1))
  {
    var k := Target(st, op);
    assert MessagesOf(st, k) + [] == MessagesOf(st, k);
  }

  // ----- what every reachable record satisfies -----

  /** No mark lies ahead of the turn count, and the batch counter was never saved. */
  ghost predicate Settled(c: Context) {
    Consistent(c) && c.rt1Counter == 0 && c.rt1LastBatchAt.None?
  }

  ghost predicate Sound(st: State) { forall k :: k in st.store ==> Settled(st.store[k]) }

  lemma StepSound(st: State, op: Op)
    requires Sound(st)
    ensures Sound(Step(st, op))
  {
    var t := Target(st, op);
    forall k | k in Step(st, op).store ensures Settled(Step(st, op).store[k]) {
      if k != t {
        StepFrame(st, op, k);
      } else {
        StepSettled(st, op);
      }
    }
  }

  lemma AssembleSettled(st: State, op: Op)
    requires Sound(st) && op.Assemble? && Target(st, op) in Step(st, op).store
    ensures Settled(Step(st, op).store[Target(st, op)])
  {
    var k := Target(st, op);
    AssembledConsistent(if k in st.store then st.store[k] else NewContext(op.profile), op.request);
  }

  lemma StepSettled(st: State, op: Op)
    requires Sound(st) && Target(st, op) in Step(st, op).store
    ensures Settled(Step(st, op).store[Target(st, op)])
  {
    match op
    case Bootstrap(_, _, _, _) =>
    case Assemble(_, _, _, _, _) => AssembleSettled(st, op);
    case Ingest(_, _, _, _, _) =>
    case AfterTurn(_, _, _, _) =>
    case Compact(_, _, _, _, _) =>
    case End(_, _, _) =>
    case Dispose(_, _, _) =>
    case Window(_, _, _) =>
  }

  /** In every run of calls, every stored injection turn is at most the stored turn count. */
  lemma {:induction false} RunSound(st: State, ops: seq<Op>)
    requires Sound(st)
    ensures Sound(Run(st, ops))
    decreases |ops|
  {
    if ops != [] {
      StepSound(st, ops[0]);
      RunSound(Step(st, ops[0]), ops[1..]);
    }
  }

  /** No turn is lost or counted twice, whatever other calls and sessions a run interleaves: the count
      rises by exactly the number of completed turns of the session. */
  lemma {:induction false} TurnsCounted(st: State, ops: seq<Op>, k: Session)
    requires k in st.store && Lives(st, ops, k)
    ensures k in Run(st, ops).store
    ensures Run(st, ops).store[k].turnCount == st.store[k].turnCount + TurnCalls(st, ops, k)
    ensures Run(st, ops).store[k].profile == st.store[k].profile
    ensures Run(st, ops).store[k].compactCount >= st.store[k].compactCount
    ensures MessagesOf(st, k) <= MessagesOf(Run(st, ops), k)
    decreases |ops|
  {
    if ops != [] {
      StepRecord(st, ops[0], k);
      TurnsCounted(Step(st, ops[0]), ops[1..], k);
    }
  }

  /** Messages are stamped with a turn no smaller than that of any injection recorded earlier in the
      session, even when compactions have cleared the record since. */
  lemma StampsAfterInjections(st: State, ops: seq<Op>, op: Op, k: Session)
    requires Sound(st) && k in st.store && Lives(st, ops, k)
    requires (op.Ingest? || op.AfterTurn?) && Target(Run(st, ops), op) == k
    ensures var before, t := Run(st, ops), st.store[k].turnCount + TurnCalls(st, ops, k);
            && MessagesOf(Step(before, op), k) == MessagesOf(before, k) + Stamped(op.batch, t)
            && TurnsBound(st.store[k].factTurns, t) && MarksBound(st.store[k].goalHistory, t)
  {
    TurnsCounted(st, ops, k);
    var before := Run(st, ops);
    var t := before.store[k].turnCount;
    assert t == st.store[k].turnCount + TurnCalls(st, ops, k);
    assert MessagesOf(Step(before, op), k) == MessagesOf(before, k) + Stamped(op.batch, t) by {
      StampsCurrentTurn(before, op);
    }
    MarksStayBehind(st.store[k], t);
  }

  lemma MarksStayBehind(c: Context, t: nat)
    requires Settled(c) && c.turnCount <= t
    ensures TurnsBound(c.factTurns, t) && MarksBound(c.goalHistory, t)
  {
  }

  /** New messages carry the turn count that the record has when they arrive. */
  lemma StampsCurrentTurn(before: State, op: Op)
    requires (op.Ingest? || op.AfterTurn?) && Target(before, op) in before.store
    ensures var k := Target(before, op);
            MessagesOf(Step(before, op), k) == MessagesOf(before, k) + Stamped(op.batch, before.store[k].turnCount)
  {
    var k := Target(before, op);
    assert MessagesOf(before, k) + [] == MessagesOf(before, k);
    if op.AfterTurn? { TurnEffect(before, op); }
  }

  /** The batch evaluation counts on a copy that was saved before counting, so the stored counter stays
      at zero: in every run it fires on each turn for a batch size of at most one, and else never. */
  lemma BatchNeverFills(ops: seq<Op>, k: Session, batchSize: Option<nat>, now: int, timeout: int)
    requires k in Run(Empty, ops).store
    ensures Rt1Fires(Run(Empty, ops).store[k], batchSize, now, timeout) <==> batchSize.Some? && batchSize.value <= 1
  {
    RunSound(Empty, ops);
  }

  // ----- compaction does not empty the message list -----

  lemma {:induction false} TokensPrefix(a: seq<Message>, b: seq<Message>)
    requires a <= b
    ensures Tokens(a) <= Tokens(b)
  {
    assert b == a + b[|a|..];
    TokensAppend(a, b[|a|..]);
  }

  lemma OverfullPrefix(a: seq<Message>, b: seq<Message>, policy: CompactionPolicy)
    requires a <= b && Overfull(a, policy)
    ensures Overfull(b, policy)
  {
    TokensPrefix(a, b);
  }

  /** Once the messages of a session are over the threshold, every later turn compacts: the compaction
      count keeps pace with the turns, for no call shortens the stored list. */
  lemma {:induction false} EveryLaterTurnCompacts(st: State, ops: seq<Op>, k: Session)
    requires k in st.store && Lives(st, ops, k)
    requires Overfull(MessagesOf(st, k), st.store[k].profile.compaction)
    ensures k in Run(st, ops).store
    ensures Overfull(MessagesOf(Run(st, ops), k), st.store[k].profile.compaction)
    ensures Run(st, ops).store[k].compactCount >= st.store[k].compactCount + TurnCalls(st, ops, k)
    decreases |ops|
  {
    if ops != [] {
      var next := Step(st, ops[0]);
      StepRecord(st, ops[0], k);
      OverfullPrefix(MessagesOf(st, k), MessagesOf(next, k), st.store[k].profile.compaction);
      if Turns(st, ops[0], k) { TurnEffect(st, ops[0]); }
      EveryLaterTurnCompacts(next, ops[1..], k);
    }
  }

  // ----- the goal cadence -----

  predicate Lists(goals: seq<GoalState>, id: string) { exists i :: 0 <= i < |goals| && goals[i].id == id }

  /** The record an assemble call works on. */
  function Loaded(st: State, op: Op): Context
    requires op.Assemble?
  {
    if Target(st, op) in st.store then st.store[Target(st, op)] else NewContext(op.profile)
  }

  /** The call injects a goal of this id into session `k`. */
  predicate Injects(st: State, op: Op, k: Session, id: string) {
    op.Assemble? && Target(st, op) == k && Lists(FilterGoals(op.request.goals, Loaded(st, op)).0, id)
  }

  predicate InjectsSomewhere(st: State, ops: seq<Op>, k: Session, id: string)
    decreases |ops|
  {
    ops != [] && (Injects(st, ops[0], k, id) || InjectsSomewhere(Step(st, ops[0]), ops[1..], k, id))
  }

  /** The goal has not been injected in turn `t0` or later. */
  predicate LastBefore(h: map<string, GoalMark>, id: string, t0: nat) { id in h ==> h[id].turn < t0 }

  lemma ListsAppend(a: seq<GoalState>, g: GoalState, id: string)
    ensures Lists(a + [g], id) <==> Lists(a, id) || g.id == id
  {
    if i :| 0 <= i < |a| && a[i].id == id { assert (a + [g])[i].id == id; }
    assert (a + [g])[|a|] == g;
  }

  /** A listed goal that is due is injected; a goal that is not injected keeps its mark. */
  lemma {:induction false} FilterServes(goals: seq<GoalState>, h: map<string, GoalMark>, turn: nat, interval: nat, id: string)
    ensures var (kept, h') := FilterSmart(goals, h, turn, interval);
            && (Lists(goals, id) && (id !in h || turn - h[id].turn >= interval) ==> Lists(kept, id))
            && (!Lists(kept, id) ==> (id in h' <==> id in h) && (id in h ==> h'[id] == h[id]))
  {
    if goals != [] {
      var n := |goals| - 1;
      var g := goals[n];
      FilterServes(goals[..n], h, turn, interval, id);
      assert goals == goals[..n] + [g];
      ListsAppend(goals[..n], g, id);
      ListsAppend(FilterSmart(goals[..n], h, turn, interval).0, g, id);
    }
  }

  /** A goal with blockers is injected every time it is listed. */
  lemma {:induction false} BlockedServed(goals: seq<GoalState>, h: map<string, GoalMark>, turn: nat, interval: nat, i: nat)
    requires i < |goals| && goals[i].blockers != []
    ensures goals[i] in FilterSmart(goals, h, turn, interval).0
  {
    if i < |goals| - 1 { BlockedServed(goals[..|goals| - 1], h, turn, interval, i); }
  }

  /** Exactly when: with distinct ids a goal is injected if and only if it has no mark in the history that the
      call started with, is blocked, has changed its status since its mark, or is due again. Then its turn
      and status are on record; otherwise its mark stays. */
  lemma {:induction false} FilterExact(goals: seq<GoalState>, h: map<string, GoalMark>, turn: nat, interval: nat, i: nat)
    requires i < |goals| && forall a, b :: 0 <= a < b < |goals| ==> goals[a].id != goals[b].id
    ensures var (kept, h') := FilterSmart(goals, h, turn, interval);
            var g := goals[i];
            && (g in kept <==>
                  g.id !in h || g.blockers != [] || h[g.id].status != g.status || turn - h[g.id].turn >= interval)
            && (g in kept ==> g.id in h' && h'[g.id] == GoalMark(turn, g.status))
            && (g !in kept ==> g.id in h' && h'[g.id] == h[g.id])
  {
    var n := |goals| - 1;
    var g := goals[n];
    var kept := FilterSmart(goals[..n], h, turn, interval).0;
    FilterInside(goals[..n], h, turn, interval);
    assert g !in kept;
    if i < n {
      FilterExact(goals[..n], h, turn, interval, i);
    } else {
      assert forall j :: 0 <= j < |kept| ==> kept[j] in goals[..n];
      assert !Lists(kept, g.id);
      FilterServes(goals[..n], h, turn, interval, g.id);
    }
  }

  lemma FilterInside(goals: seq<GoalState>, h: map<string, GoalMark>, turn: nat, interval: nat)
    ensures forall g :: g in FilterSmart(goals, h, turn, interval).0 ==> g in goals
  {
    var at := FilterIsSubsequence(goals, h, turn, interval);
  }

  lemma AssembleServes(st: State, op: Op, id: string)
    requires op.Assemble? && Target(st, op) in st.store
    ensures var k, c := Target(st, op), Loaded(st, op);
            && k in Step(st, op).store && Step(st, op).store[k] == Assembled(c, op.request)
            && (Lists(op.request.goals, id)
                && (id !in c.goalHistory || c.turnCount - c.goalHistory[id].turn >= c.profile.reminderInterval)
                ==> Injects(st, op, k, id))
            && (!Injects(st, op, k, id) ==>
                  var h := Step(st, op).store[k].goalHistory;
                  (id in h <==> id in c.goalHistory) && (id in h ==> h[id] == c.goalHistory[id]))
  {
    var c := Loaded(st, op);
    LoadedServes(op.request, c, id);
    AssembleEffect(st, op);
  }

  lemma AssembleEffect(st: State, op: Op)
    requires op.Assemble? && Target(st, op) in st.store
    ensures Target(st, op) in Step(st, op).store
    ensures Step(st, op).store[Target(st, op)] == Assembled(Loaded(st, op), op.request)
  {
  }

  lemma LoadedServes(r: Request, c: Context, id: string)
    ensures var kept, h := FilterGoals(r.goals, c).0, Assembled(c, r).goalHistory;
            && (Lists(r.goals, id)
                && (id !in c.goalHistory || c.turnCount - c.goalHistory[id].turn >= c.profile.reminderInterval)
                ==> Lists(kept, id))
            && (!Lists(kept, id) ==> (id in h <==> id in c.goalHistory) && (id in h ==> h[id] == c.goalHistory[id]))
  {
    FilterServes(r.goals, c.goalHistory, c.turnCount, c.profile.reminderInterval, id);
  }

  lemma StepKeepsWaiting(st: State, op: Op, k: Session, id: string, t0: nat)
    requires k in st.store && !Ends(st, op, k) && !Injects(st, op, k, id)
    requires LastBefore(st.store[k].goalHistory, id, t0)
    ensures k in Step(st, op).store && LastBefore(Step(st, op).store[k].goalHistory, id, t0)
  {
    StepRecord(st, op, k);
    if k != Target(st, op) {
      StepFrame(st, op, k);
    } else if op.Assemble? {
      AssembleServes(st, op, id);
    } else if op.AfterTurn? {
      TurnEffect(st, op);
    }
  }

  /** The reminder cadence: take any run from turn `t0` on, with any calls, compactions included. If its
      last call lists the goal in turn `t0 + interval - 1` or later, some call of the run injected it. */
  lemma {:induction false} RemindedInTime(st: State, ops: seq<Op>, last: Op, k: Session, id: string, t0: nat)
    requires k in st.store && Lives(st, ops, k) && LastBefore(st.store[k].goalHistory, id, t0)
    requires last.Assemble? && Target(Run(st, ops), last) == k && Lists(last.request.goals, id)
    requires st.store[k].turnCount + TurnCalls(st, ops, k) + 1 >= t0 + st.store[k].profile.reminderInterval
    ensures InjectsSomewhere(st, ops, k, id) || Injects(Run(st, ops), last, k, id)
    decreases |ops|
  {
    if ops == [] {
      AssembleServes(st, last, id);
    } else if !Injects(st, ops[0], k, id) {
      StepRecord(st, ops[0], k);
      StepKeepsWaiting(st, ops[0], k, id, t0);
      RemindedInTime(Step(st, ops[0]), ops[1..], last, k, id, t0);
    }
  }

  /** So, counted from the end of any turn of a reachable session, `reminderInterval` turns do not go by
      without a reminder of a goal that is still listed in the last of them. */
  lemma ReminderEveryInterval(before: State, turn: Op, ops: seq<Op>, last: Op, id: string)
    requires Sound(before) && turn.AfterTurn? && Target(before, turn) in before.store
    requires var k, st := Target(before, turn), Step(before, turn);
             && Lives(st, ops, k)
             && last.Assemble? && Target(Run(st, ops), last) == k && Lists(last.request.goals, id)
             && TurnCalls(st, ops, k) + 1 >= before.store[k].profile.reminderInterval
    ensures var k, st := Target(before, turn), Step(before, turn);
            InjectsSomewhere(st, ops, k, id) || Injects(Run(st, ops), last, k, id)
  {
    var k, st := Target(before, turn), Step(before, turn);
    TurnEffect(before, turn);
    RemindedInTime(st, ops, last, k, id, st.store[k].turnCount);
  }

  /** All listings of the goal show it unblocked and in this status. */
  predicate Unchanged(goals: seq<GoalState>, id: string, status: string) {
    forall i :: 0 <= i < |goals| && goals[i].id == id ==> goals[i].blockers == [] && goals[i].status == status
  }

  predicate UnchangedThroughout(ops: seq<Op>, k: Session, id: string, status: string) {
    forall i :: 0 <= i < |ops| && ops[i].Assemble? && ops[i].sk == k.0 ==> Unchanged(ops[i].request.goals, id, status)
  }

  lemma {:induction false} FilterRests(goals: seq<GoalState>, h: map<string, GoalMark>, turn: nat, interval: nat, id: string)
    requires id in h && turn - h[id].turn < interval && Unchanged(goals, id, h[id].status)
    ensures !Lists(FilterSmart(goals, h, turn, interval).0, id)
  {
    if goals != [] {
      var n := |goals| - 1;
      assert forall i :: 0 <= i < n ==> goals[..n][i] == goals[i];
      FilterRests(goals[..n], h, turn, interval, id);
      FilterServes(goals[..n], h, turn, interval, id);
      ListsAppend(FilterSmart(goals[..n], h, turn, interval).0, goals[n], id);
    }
  }

  /** A call either compacts, which empties both maps and counts one compaction, or it keeps every mark of
      an injected item and gives new ones the current turn. */
  lemma StepMarks(st: State, op: Op, k: Session, id: string)
    requires k in st.store && !Ends(st, op, k)
    ensures k in Step(st, op).store
    ensures var c, d := st.store[k], Step(st, op).store[k];
            if d.compactCount != c.compactCount
            then d.compactCount == c.compactCount + 1 && d.factTurns == map[] && d.goalHistory == map[]
            else && (id in c.factTurns ==> id in d.factTurns && d.factTurns[id] == c.factTurns[id])
                 && (id in d.factTurns && id !in c.factTurns ==> d.factTurns[id] == c.turnCount)
                 && (!Injects(st, op, k, id) ==>
                       (id in d.goalHistory <==> id in c.goalHistory)
                       && (id in d.goalHistory ==> d.goalHistory[id] == c.goalHistory[id]))
  {
    StepRecord(st, op, k);
    if k != Target(st, op) {
      StepFrame(st, op, k);
    } else if op.Assemble? {
      AssembleServes(st, op, id);
      if op.request.snapshot.Some? {
        MarkItemsExact(op.request.snapshot.value.items, st.store[k].factTurns, st.store[k].turnCount, id);
      }
    } else if op.AfterTurn? {
      TurnEffect(st, op);
    }
  }

  /** The turn of an item's first injection stays on record for as long as the session is not compacted,
      however often the item is injected again. */
  lemma {:induction false} FirstInjectionStays(st: State, ops: seq<Op>, k: Session, id: string)
    requires k in st.store && Lives(st, ops, k) && id in st.store[k].factTurns
    ensures var c, d := st.store[k], Run(st, ops);
            && k in d.store
            && (d.store[k].compactCount == c.compactCount ==>
                  id in d.store[k].factTurns && d.store[k].factTurns[id] == c.factTurns[id])
    decreases |ops|
  {
    TurnsCounted(st, ops, k);
    if ops != [] {
      StepMarks(st, ops[0], k, id);
      TurnsCounted(Step(st, ops[0]), ops[1..], k);
      if Step(st, ops[0]).store[k].compactCount == st.store[k].compactCount {
        FirstInjectionStays(Step(st, ops[0]), ops[1..], k, id);
      }
    }
  }

  /** And no sooner: an unblocked goal in an unchanged status is not injected again before the interval is
      over, unless a compaction has cleared its mark. */
  lemma {:induction false} NoEarlyReminder(st: State, ops: seq<Op>, k: Session, id: string)
    requires k in st.store && Lives(st, ops, k) && st.store[k].profile.smartGoals && id in st.store[k].goalHistory
    requires UnchangedThroughout(ops, k, id, st.store[k].goalHistory[id].status)
    requires var c := st.store[k];
             c.turnCount + TurnCalls(st, ops, k) - c.goalHistory[id].turn < c.profile.reminderInterval
    requires k in Run(st, ops).store && Run(st, ops).store[k].compactCount == st.store[k].compactCount
    ensures !InjectsSomewhere(st, ops, k, id)
    decreases |ops|
  {
    if ops != [] {
      var op, next := ops[0], Step(st, ops[0]);
      var c := st.store[k];
      if Injects(st, op, k, id) {
        FilterRests(op.request.goals, c.goalHistory, c.turnCount, c.profile.reminderInterval, id);
        assert false;
      }
      StepRecord(st, op, k);
      StepMarks(st, op, k, id);
      TurnsCounted(next, ops[1..], k);
      assert forall i :: 0 <= i < |ops| - 1 ==> ops[1..][i] == ops[i + 1];
      NoEarlyReminder(next, ops[1..], k, id);
    }
  }

  // ----- sessions without an id -----

  lemma PoppedGone(c: Ids.Cache, key: string)
    ensures !Ids.Has(Ids.Popped(c, key), key)
    ensures forall e :: e in Ids.Popped(c, key) <==> e in c && e.0 != key
  {
    forall e ensures e in Ids.Popped(c, key) <==> e in c && e.0 != key {
      KeepMember(c, (e: (string, string)) => e.0 != key, e);
    }
    var p := Ids.Popped(c, key);
    forall i | 0 <= i < |p| ensures p[i].0 != key { assert p[i] in p; }
  }

  lemma {:induction false} AppendedLookup(c: Ids.Cache, key: string, id: string)
    requires !Ids.Has(c, key)
    ensures Ids.Has(c + [(key, id)], key) && Ids.Lookup(c + [(key, id)], key) == id
  {
    var d := c + [(key, id)];
    assert d[|c|].0 == key;
    assert forall i :: 0 <= i < |c| ==> d[i] == c[i] && c[i].0 != key;
  }

  lemma EnsuredKept(c: Ids.Cache, key: string, uuid: string)
    ensures var (sid, d) := Ids.Ensured(c, "", key, uuid);
            Ids.Has(d, key) && Ids.Lookup(d, key) == sid
  {
    if !Ids.Has(c, key) {
      var d := if |c| >= Ids.CAPACITY then c[1..] else c;
      if i :| 0 <= i < |d| && d[i].0 == key { assert c[if |c| >= Ids.CAPACITY then i + 1 else i].0 == key; }
      AppendedLookup(d, key, uuid);
    }
  }

  /** After an assemble or ingest without an id, the next call without an id means the same session if
      and only if the record existed before: creating it goes through a bootstrap that drops the id. */
  lemma FallbackSurvives(st: State, op: Op, uuid2: string)
    requires (op.Assemble? || op.Ingest?) && op.sid == "" && op.uuid != "" && CacheOk(st.fallback)
    requires uuid2 != Target(st, op).1
    ensures Ids.Ensured(Step(st, op).fallback, "", op.sk, uuid2).0 == Target(st, op).1 <==> Target(st, op) in st.store
  {
    EnteredOk(st.fallback, "", op.sk, op.uuid);
    EnsuredKept(st.fallback, op.sk, op.uuid);
    PoppedGone(Ids.Ensured(st.fallback, "", op.sk, op.uuid).1, op.sk);
  }

  /** A completed turn without an id drops it as well, unless it carried no messages and did not compact. */
  lemma FallbackAfterTurn(st: State, op: Op, uuid2: string)
    requires op.AfterTurn? && op.sid == "" && Target(st, op) in st.store && uuid2 != Target(st, op).1
    ensures Ids.Ensured(Step(st, op).fallback, "", op.sk, uuid2).0 == Target(st, op).1
            <==> op.batch == [] && !Overfull(MessagesOf(st, Target(st, op)), st.store[Target(st, op)].profile.compaction)
  {
    EnsuredKept(st.fallback, op.sk, op.uuid);
    PoppedGone(Ids.Ensured(st.fallback, "", op.sk, op.uuid).1, op.sk);
  }

  /** Every call for `key` comes without an id, none is an explicit bootstrap, and a generated id is new. */
  predicate Anonymous(st: State, ops: seq<Op>, key: string)
    decreases |ops|
  {
    ops == []
    || (var op := ops[0];
        && (op.sk == key && !op.Window? ==> !op.Bootstrap? && op.sid == "" && op.uuid != "" && (key, op.uuid) !in st.store)
        && Anonymous(Step(st, op), ops[1..], key))
  }

  /** No cached id of the key has a record, and no turn of any of its sessions was counted. */
  ghost predicate Adrift(st: State, key: string) {
    && (forall e :: e in st.fallback && e.0 == key ==> e.1 != "" && e !in st.store)
    && (forall k :: k in st.store && k.0 == key ==> st.store[k].turnCount == 0)
  }

  lemma LookupMember(c: Ids.Cache, key: string)
    requires Ids.Has(c, key)
    ensures (key, Ids.Lookup(c, key)) in c
  {
    assert c[Ids.Find(c, key)] == (key, Ids.Lookup(c, key));
  }

  lemma EnsuredMembers(c: Ids.Cache, sid: string, key: string, uuid: string)
    ensures forall e :: e in Ids.Ensured(c, sid, key, uuid).1 ==> e in c || e == (key, uuid)
    ensures forall e :: e in Ids.Entered(c, sid, key, uuid).1 ==> e in c || e == (key, uuid)
  {
    PoppedGone(c, key);
    var d := if |c| >= Ids.CAPACITY then c[1..] else c;
    assert forall e :: e in d ==> e in c;
  }

  /** A turn of such a run finds no record to count on. */
  lemma StepAdrift(st: State, op: Op, key: string)
    requires Adrift(st, key)
    requires op.sk == key && !op.Window? ==> !op.Bootstrap? && op.sid == "" && op.uuid != "" && (key, op.uuid) !in st.store
    ensures Adrift(Step(st, op), key)
  {
    var next := Step(st, op);
    if op.Window? {
    } else if op.sk != key {
      StepElsewhere(st, op, key);
    } else {
      StepAnonymous(st, op, key);
    }
  }

  /** A call can add only its own key with its own generated id to the cache. */
  lemma StepFallback(st: State, op: Op)
    requires !op.Window?
    ensures forall e :: e in Step(st, op).fallback ==> e in st.fallback || e == (op.sk, op.uuid)
  {
    var c, d := st.fallback, Ids.Entered(st.fallback, op.sid, op.sk, op.uuid).1;
    EnsuredMembers(c, op.sid, op.sk, op.uuid);
    PoppedGone(d, op.sk);
    match op
    case Bootstrap(_, _, _, _) =>
    case Assemble(sk, sid, uuid, profile, _) => OpenFallback(st.(fallback := d), sk, Target(st, op).1, uuid, profile);
    case Ingest(sk, sid, uuid, profile, _) => OpenFallback(st.(fallback := d), sk, Target(st, op).1, uuid, profile);
    case AfterTurn(_, _, _, _) =>
    case Compact(_, _, _, _, _) =>
    case End(_, _, _) => {
      PoppedGone(c, op.sk);
      PoppedGone(Ids.Ensured(c, op.sid, op.sk, op.uuid).1, op.sk);
    }
    case Dispose(_, _, _) => PoppedGone(Ids.Ensured(c, op.sid, op.sk, op.uuid).1, op.sk);
  }

  lemma OpenFallback(st: State, sk: string, sid: string, uuid: string, profile: Profile)
    ensures forall e :: e in Opened(st, sk, sid, uuid, profile).fallback ==> e in st.fallback || e == (sk, uuid)
  {
    EnsuredMembers(st.fallback, sid, sk, uuid);
  }

  lemma StepElsewhere(st: State, op: Op, key: string)
    requires Adrift(st, key) && op.sk != key && !op.Window?
    ensures Adrift(Step(st, op), key)
  {
    var next := Step(st, op);
    StepFallback(st, op);
    forall k | k in next.store && k.0 == key ensures k in st.store && next.store[k] == st.store[k] {
      StepFrame(st, op, k);
    }
    forall k: Session | k.0 == key && k !in st.store ensures k !in next.store {
      StepFrame(st, op, k);
    }
  }

  lemma StepAnonymous(st: State, op: Op, key: string)
    requires Adrift(st, key) && op.sk == key && !op.Window? && !op.Bootstrap? && op.sid == "" && op.uuid != ""
    requires (key, op.uuid) !in st.store
    ensures Adrift(Step(st, op), key)
  {
    if Ids.Has(st.fallback, key) { LookupMember(st.fallback, key); }
    var next := Step(st, op);
    if op.Assemble? || op.Ingest? {
      assert Target(st, op) !in st.store;
      var cache := Ids.Ensured(st.fallback, "", key, op.uuid).1;
      assert next.fallback == Ids.Popped(cache, key);
      PoppedGone(cache, key);
    } else {
      StepFallback(st, op);
      assert forall k :: k in next.store ==> k in st.store;
    }
  }

  /** A conversation that never gets a real id is never counted: over any run of such calls, however its
      sessions interleave with others, every one of its turn counts stays zero. */
  lemma {:induction false} AnonymousTurnsNeverCount(st: State, ops: seq<Op>, key: string)
    requires Adrift(st, key) && Anonymous(st, ops, key)
    ensures Adrift(Run(st, ops), key)
    decreases |ops|
  {
    if ops != [] {
      StepAdrift(st, ops[0], key);
      AnonymousTurnsNeverCount(Step(st, ops[0]), ops[1..], key);
    }
  }
}
