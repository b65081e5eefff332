/** What each lifecycle call does to the stored state, spelled out field by field, and which record the end of
    a session removes. */
module SessionEffects {
  import opened Basics
  import opened Messages
  import opened GoalForest
  import opened Compaction
  import opened SessionModel
  import opened Lifecycle
  import opened SessionRuns
  import Ids = SessionIds

  // ----- the parts -----

  /** The stamp is the only field of a message that changes. */
  predicate StampedWith(stamped: seq<Message>, ms: seq<Message>, turn: nat) {
    && |stamped| == |ms|
    && (forall i :: 0 <= i < |ms| ==> stamped[i].turn == turn && stamped[i].role == ms[i].role && stamped[i].text == ms[i].text)
    && (forall i :: 0 <= i < |ms| ==> stamped[i].name == ms[i].name && stamped[i].meta == ms[i].meta)
  }

  lemma StampedExactly(ms: seq<Message>, turn: nat)
    ensures StampedWith(Stamped(ms, turn), ms, turn)
  {
  }

  /** Over the threshold: the stored tokens against the target times the cadence's multiplier. */
  predicate TooLarge(ms: seq<Message>, policy: CompactionPolicy) {
    var multiplier := if policy.cadence == "aggressive" then 1.5 else if policy.cadence == "minimal" then 3.0 else 2.0;
    ms != [] && (Tokens(ms) as real) > (policy.targetTokens as real) * multiplier
  }

  lemma OverfullExactly(ms: seq<Message>, policy: CompactionPolicy)
    ensures Overfull(ms, policy) <==> TooLarge(ms, policy)
  {
    TriggerExactly(Tokens(ms), policy, false);
  }

  /** A session that has just begun. */
  predicate Blank(c: Context, profile: Profile) {
    && c.turnCount == 0 && c.compactCount == 0 && c.factTurns == map[] && c.goalHistory == map[]
    && c.window.None? && c.snapshotId.None? && c.rt1Counter == 0 && c.rt1LastBatchAt.None? && c.profile == profile
  }

  lemma EnteredExactly(c: Ids.Cache, sid: string, key: string, uuid: string)
    ensures var (id, after) := Ids.Entered(c, sid, key, uuid);
            && (sid != "" ==> id == sid && (forall e :: e in after <==> e in c && e.0 != key))
            && (sid == "" && Ids.Has(c, key) ==> id == Ids.Lookup(c, key) && after == c)
            && (sid == "" && !Ids.Has(c, key) ==>
                  id == uuid && after == (if |c| >= 128 then c[1..] else c) + [(key, uuid)])
  {
    PoppedGone(c, key);
  }

  lemma {:induction false} Replaced(c: Ids.Cache, key: string, sid: string, other: string)
    requires Ids.Has(c, key)
    ensures var d := c[Ids.Find(c, key) := (key, sid)];
            && Ids.Has(d, key) && Ids.Find(d, key) == Ids.Find(c, key) && Ids.Lookup(d, key) == sid
            && (other != key ==> (Ids.Has(d, other) <==> Ids.Has(c, other)))
            && (other != key && Ids.Has(c, other) ==>
                  Ids.Find(d, other) == Ids.Find(c, other) && Ids.Lookup(d, other) == Ids.Lookup(c, other))
  {
    var head, rest := c[0], c[1..];
    var i := Ids.Find(c, key);
    var d := c[i := (key, sid)];
    assert c == [head] + rest;
    Ids.HasCons(head, rest, key);
    Ids.HasCons(head, rest, other);
    if head.0 == key {
      assert d == [(key, sid)] + rest;
      Ids.HasCons((key, sid), rest, key);
      Ids.HasCons((key, sid), rest, other);
    } else {
      var e := rest[i - 1 := (key, sid)];
      Replaced(rest, key, sid, other);
      assert d == [head] + e;
      Ids.HasCons(head, e, key);
      Ids.HasCons(head, e, other);
    }
  }

  lemma {:induction false} Appended(c: Ids.Cache, key: string, sid: string, other: string)
    requires other != key
    ensures var d := c + [(key, sid)];
            && (Ids.Has(d, other) <==> Ids.Has(c, other))
            && (Ids.Has(c, other) ==> Ids.Find(d, other) == Ids.Find(c, other) && Ids.Lookup(d, other) == Ids.Lookup(c, other))
  {
    if c == [] {
      assert c + [(key, sid)] == [(key, sid)];
    } else {
      var head, rest := c[0], c[1..];
      Appended(rest, key, sid, other);
      assert c == [head] + rest && c + [(key, sid)] == [head] + (rest + [(key, sid)]);
      Ids.HasCons(head, rest, other);
      Ids.HasCons(head, rest + [(key, sid)], other);
    }
  }

  /** Remembering a session: its own key answers it; every other key that is still there answers as before, and
      an entry can only go that has 127 younger ones. */
  lemma RememberExactly(c: Ids.Cache, key: string, sid: string, other: string)
    requires Ids.Valid(c)
    ensures var d := Remember(c, key, sid);
            && Ids.Has(d, key) && Ids.Lookup(d, key) == sid
            && (other != key && Ids.Has(d, other) ==> Ids.Has(c, other) && Ids.Lookup(d, other) == Ids.Lookup(c, other))
            && (other != key && Ids.Has(c, other) && Ids.Newer(c, other) < 127 ==>
                  Ids.Has(d, other) && Ids.Newer(d, other) <= Ids.Newer(c, other) + 1)
  {
    var cut := if |c| >= Ids.CAPACITY then c[1..] else c;
    if |c| >= Ids.CAPACITY {
      assert c == [c[0]] + cut;
      Ids.HasCons(c[0], cut, key);
      Ids.HasCons(c[0], cut, other);
      assert forall i :: 0 <= i < |cut| ==> cut[i] == c[i + 1] && cut[i].0 != c[0].0;
    }
    if Ids.Has(cut, key) {
      Replaced(cut, key, sid, other);
    } else {
      AppendedLookup(cut, key, sid);
      if other != key { Appended(cut, key, sid, other); }
    }
  }

  lemma RememberValid(c: Ids.Cache, key: string, sid: string)
    requires Ids.Valid(c)
    ensures Ids.Valid(Remember(c, key, sid))
  {
    var cut := if |c| >= Ids.CAPACITY then c[1..] else c;
    assert forall i :: 0 <= i < |cut| ==> cut[i] == c[if |c| >= Ids.CAPACITY then i + 1 else i];
    if !Ids.Has(cut, key) { assert forall i :: 0 <= i < |cut| ==> cut[i].0 != key; }
  }

  // ----- the calls -----

  /** A call on a session that is there or can be named. */
  predicate Nameable(st: State, op: Op) {
    !op.Window? && (op.sid != "" || op.uuid != "") && forall i :: 0 <= i < |st.fallback| ==> st.fallback[i].1 != ""
  }

  /** The target of a call that is not the end of a session. */
  function Named(st: State, op: Op): Session
    requires !op.Window?
  {
    (op.sk, Ids.Entered(st.fallback, op.sid, op.sk, op.uuid).0)
  }

  lemma BootstrapEffect(st: State, op: Op)
    requires op.Bootstrap? && Ids.Valid(st.booted)
    ensures var k, after := Named(st, op), Step(st, op);
            && after.messages == st.messages && k in after.store
            && Ids.Has(after.booted, op.sk) && Ids.Lookup(after.booted, op.sk) == k.1
            && (k in st.store ==> after.store == st.store)
            && (k !in st.store ==> after.store == st.store[k := after.store[k]] && Blank(after.store[k], op.profile))
  {
    RememberExactly(st.booted, op.sk, Named(st, op).1, op.sk);
  }

  /** The record an assemble or ingest works on is the stored one, or a blank one for a new session. */
  lemma OpenedExactly(st: State, op: Op)
    requires (op.Assemble? || op.Ingest?) && Nameable(st, op)
    ensures var k := Named(st, op);
            var st1 := Opened(st.(fallback := Ids.Entered(st.fallback, op.sid, op.sk, op.uuid).1), op.sk, k.1, op.uuid, op.profile);
            && st1.messages == st.messages && k in st1.store
            && (k in st.store ==> st1.store == st.store)
            && (k !in st.store ==> st1.store == st.store[k := st1.store[k]] && Blank(st1.store[k], op.profile))
  {
    EnteredExactly(st.fallback, op.sid, op.sk, op.uuid);
    if op.sid == "" && Ids.Has(st.fallback, op.sk) {
      assert st.fallback[Ids.Find(st.fallback, op.sk)].1 != "";
    }
  }

  /** An assemble marks the snapshot's new items with the current turn, remembers the snapshot, records the goals
      it injects, and changes nothing else. */
  lemma AssembleChanges(st: State, op: Op, c: Context)
    requires op.Assemble? && Nameable(st, op)
    requires if Named(st, op) in st.store then c == st.store[Named(st, op)] else Blank(c, op.profile)
    ensures var k, after := Named(st, op), Step(st, op);
            && k in after.store && after.messages == st.messages && after.store == st.store[k := after.store[k]]
            && MarkedFor(after.store[k], c, op.request)
  {
    OpenedExactly(st, op);
    var k := Named(st, op);
    var st1 := Opened(st.(fallback := Ids.Entered(st.fallback, op.sid, op.sk, op.uuid).1), op.sk, k.1, op.uuid, op.profile);
    assert st1.store[k] == c;
    AssembledMarks(c, op.request);
  }

  ghost predicate MarkedFor(d: Context, c: Context, r: Request) {
    && d.turnCount == c.turnCount && d.compactCount == c.compactCount && d.window == c.window && d.profile == c.profile
    && d.rt1Counter == c.rt1Counter && d.rt1LastBatchAt == c.rt1LastBatchAt
    && d.goalHistory == FilterGoals(r.goals, c).1
    && (r.snapshot.None? ==> d.factTurns == c.factTurns && d.snapshotId == c.snapshotId)
    && (r.snapshot.Some? ==>
          && d.snapshotId == Some(r.snapshot.value.id)
          && (forall id :: id in d.factTurns <==> id in c.factTurns || id in r.snapshot.value.items)
          && (forall id :: id in d.factTurns ==> d.factTurns[id] == if id in c.factTurns then c.factTurns[id] else c.turnCount))
  }

  lemma AssembledMarks(c: Context, r: Request)
    ensures MarkedFor(Assembled(c, r), c, r)
  {
    if r.snapshot.Some? {
      var items := r.snapshot.value.items;
      var t := MarkItems(items, c.factTurns, c.turnCount);
      forall id
        ensures id in t <==> id in c.factTurns || id in items
        ensures id in t ==> t[id] == if id in c.factTurns then c.factTurns[id] else c.turnCount
      {
        MarkItemsExact(items, c.factTurns, c.turnCount, id);
      }
    }
  }

  /** Which goals an assemble injects. Always: all of them, and no history is kept. With the smart cadence: each
      one with blockers; and with distinct ids exactly those that are unrecorded, blocked, changed or due. */
  lemma InjectedExactly(goals: seq<GoalState>, c: Context, i: nat)
    requires i < |goals|
    ensures !c.profile.smartGoals ==> FilterGoals(goals, c).0 == goals && FilterGoals(goals, c).1 == c.goalHistory
    ensures goals[i].blockers != [] ==> goals[i] in FilterGoals(goals, c).0
    ensures c.profile.smartGoals && (forall a, b :: 0 <= a < b < |goals| ==> goals[a].id != goals[b].id) ==>
              var (injected, history) := FilterGoals(goals, c);
              var g := goals[i];
              && (g in injected <==>
                    g.id !in c.goalHistory || g.blockers != [] || g.status != c.goalHistory[g.id].status
                    || c.turnCount >= c.goalHistory[g.id].turn + c.profile.reminderInterval)
              && g.id in history
              && history[g.id] == if g in injected then GoalMark(c.turnCount, g.status) else c.goalHistory[g.id]
  {
    if goals[i].blockers != [] {
      BlockedServed(goals, c.goalHistory, c.turnCount, c.profile.reminderInterval, i);
    }
    if forall a, b :: 0 <= a < b < |goals| ==> goals[a].id != goals[b].id {
      FilterExact(goals, c.goalHistory, c.turnCount, c.profile.reminderInterval, i);
    }
  }

  /** The history of a goal that is not listed stays as it is. */
  lemma UnlistedStays(goals: seq<GoalState>, c: Context, id: string)
    requires forall i :: 0 <= i < |goals| ==> goals[i].id != id
    ensures var history := FilterGoals(goals, c).1;
            (id in history <==> id in c.goalHistory) && (id in history ==> history[id] == c.goalHistory[id])
  {
    FilterInside(goals, c.goalHistory, c.turnCount, c.profile.reminderInterval);
    FilterServes(goals, c.goalHistory, c.turnCount, c.profile.reminderInterval, id);
    var kept := FilterSmart(goals, c.goalHistory, c.turnCount, c.profile.reminderInterval).0;
    forall j | 0 <= j < |kept| ensures kept[j].id != id { assert kept[j] in goals; }
  }

  /** An ingest appends its messages, stamped with the current turn, and leaves the record alone. */
  lemma IngestEffect(st: State, op: Op)
    requires op.Ingest? && Nameable(st, op)
    ensures var k, after := Named(st, op), Step(st, op);
            && k in after.store && after.store == st.store[k := after.store[k]]
            && (k in st.store ==> after.store[k] == st.store[k]) && (k !in st.store ==> Blank(after.store[k], op.profile))
            && MessagesOf(st, k) <= MessagesOf(after, k)
            && StampedWith(MessagesOf(after, k)[|MessagesOf(st, k)|..], op.batch, after.store[k].turnCount)
  {
    OpenedExactly(st, op);
    var k, after := Named(st, op), Step(st, op);
    StampedExactly(op.batch, after.store[k].turnCount);
    var stamped := Stamped(op.batch, after.store[k].turnCount);
    assert MessagesOf(st, k) + [] == MessagesOf(st, k);
    assert MessagesOf(after, k) == MessagesOf(st, k) + stamped;
    assert (MessagesOf(st, k) + stamped)[|MessagesOf(st, k)|..] == stamped;
  }

  /** A completed turn of a session without a record is skipped. */
  lemma SkippedTurn(st: State, op: Op)
    requires op.AfterTurn? && Named(st, op) !in st.store
    ensures Step(st, op).store == st.store && Step(st, op).messages == st.messages && Step(st, op).booted == st.booted
  {
  }

  /** A completed turn of an existing session: the messages arrive with the number of the turn that ends, the count
      goes up by one, and over the threshold the record is compacted. */
  lemma CompletedTurn(st: State, op: Op)
    requires op.AfterTurn? && Named(st, op) in st.store
    ensures var k, after := Named(st, op), Step(st, op);
            var c, ms := st.store[k], MessagesOf(after, k);
            && k in after.store && after.store == st.store[k := after.store[k]] && after.booted == st.booted
            && MessagesOf(st, k) <= ms && StampedWith(ms[|MessagesOf(st, k)|..], op.batch, c.turnCount)
            && after.store[k] == if TooLarge(ms, c.profile.compaction)
                                 then c.(turnCount := c.turnCount + 1, compactCount := c.compactCount + 1,
                                         factTurns := map[], goalHistory := map[])
                                 else c.(turnCount := c.turnCount + 1)
  {
    var k, after := Named(st, op), Step(st, op);
    assert Target(st, op) == k;
    TurnEffect(st, op);
    OverfullExactly(MessagesOf(after, k), st.store[k].profile.compaction);
    StampedExactly(op.batch, st.store[k].turnCount);
    var stamped := Stamped(op.batch, st.store[k].turnCount);
    assert (MessagesOf(st, k) + stamped)[|MessagesOf(st, k)|..] == stamped;
  }

  /** A compaction resets the record when there is one with messages and the call is forced or over the threshold,
      counted or given; the messages stay. */
  lemma CompactEffect(st: State, op: Op)
    requires op.Compact?
    ensures var k, after := Named(st, op), Step(st, op);
            && after.messages == st.messages && after.booted == st.booted
            && after.store == if k in st.store && MessagesOf(st, k) != []
                                 && ShouldTrigger(if op.count.Some? then op.count.value else Tokens(MessagesOf(st, k)),
                                                  st.store[k].profile.compaction, op.force)
                              then st.store[k := st.store[k].(factTurns := map[], goalHistory := map[],
                                                              compactCount := st.store[k].compactCount + 1)]
                              else st.store
  {
  }

  lemma WindowEffect(st: State, op: Op)
    requires op.Window?
    ensures var k, after := (op.sk, op.sid), Step(st, op);
            && after.messages == st.messages && after.fallback == st.fallback && after.booted == st.booted
            && after.store == if k in st.store then st.store[k := st.store[k].(window := op.window)] else st.store
  {
  }

  lemma DisposeEffect(st: State, op: Op)
    requires op.Dispose?
    ensures var after := Step(st, op);
            && after.store == st.store && after.messages == st.messages && after.booted == st.booted
            && !Ids.Has(after.fallback, op.sk)
  {
    PoppedGone(Ids.Ensured(st.fallback, op.sid, op.sk, op.uuid).1, op.sk);
  }

  // ----- the end of a session -----

  /** An end with a real id removes exactly that record. Without an id it means the remembered session, then the
      cached fallback, and else one that never was. Either way the key is forgotten; messages stay. */
  lemma EndEffect(st: State, op: Op)
    requires op.End?
    ensures var after := Step(st, op);
            && (op.sid != "" ==> after.store == st.store - {(op.sk, op.sid)})
            && (op.sid == "" && Ids.Has(st.booted, op.sk) ==>
                  after.store == st.store - {(op.sk, Ids.Lookup(st.booted, op.sk))})
            && (op.sid == "" && !Ids.Has(st.booted, op.sk) && Ids.Has(st.fallback, op.sk) ==>
                  after.store == st.store - {(op.sk, Ids.Lookup(st.fallback, op.sk))})
            && (op.sid == "" && !Ids.Has(st.booted, op.sk) && !Ids.Has(st.fallback, op.sk) ==>
                  after.store == st.store - {(op.sk, op.uuid)})
            && after.messages == st.messages && !Ids.Has(after.booted, op.sk) && !Ids.Has(after.fallback, op.sk)
  {
    PoppedGone(st.booted, op.sk);
    PoppedGone(st.fallback, op.sk);
    PoppedGone(Ids.Ensured(st.fallback, op.sid, op.sk, op.uuid).1, op.sk);
  }

  /** The call bootstraps its key, itself or through the creation of a missing record. */
  predicate Boots(st: State, op: Op) {
    op.Bootstrap? || ((op.Assemble? || op.Ingest?) && Named(st, op) !in st.store)
  }

  predicate Leaves(st: State, op: Op, key: string) { op.sk == key ==> !Boots(st, op) && !op.End? }

  /** No call of the run bootstraps or ends the key, and its remembered entry is never evicted. */
  predicate StaysRemembered(st: State, ops: seq<Op>, key: string)
    decreases |ops|
  {
    ops == []
    || (Leaves(st, ops[0], key) && Ids.Has(Step(st, ops[0]).booted, key) && StaysRemembered(Step(st, ops[0]), ops[1..], key))
  }

  lemma BootedAfter(st: State, op: Op)
    ensures Step(st, op).booted == if op.End? then Ids.Popped(st.booted, op.sk) else if Boots(st, op)
                                   then Remember(st.booted, op.sk, BootedId(st, op)) else st.booted
  {
  }

  function BootedId(st: State, op: Op): string
    requires !op.Window?
  {
    if op.Bootstrap? then Named(st, op).1
    else Ids.Entered(Ids.Entered(st.fallback, op.sid, op.sk, op.uuid).1, Named(st, op).1, op.sk, op.uuid).0
  }

  lemma StepRemembers(st: State, op: Op, key: string)
    requires Ids.Valid(st.booted) && Leaves(st, op, key) && Ids.Has(st.booted, key)
    ensures Ids.Valid(Step(st, op).booted)
    ensures Ids.Has(Step(st, op).booted, key) ==> Ids.Lookup(Step(st, op).booted, key) == Ids.Lookup(st.booted, key)
    ensures Ids.Newer(st.booted, key) + (if Boots(st, op) then 1 else 0) < 128 ==>
              Ids.Has(Step(st, op).booted, key)
              && Ids.Newer(Step(st, op).booted, key) <= Ids.Newer(st.booted, key) + (if Boots(st, op) then 1 else 0)
  {
    BootedAfter(st, op);
    if op.End? {
      Ids.PoppedValid(st.booted, op.sk);
      Ids.PoppedOther(st.booted, op.sk, key);
    } else if Boots(st, op) {
      RememberValid(st.booted, op.sk, BootedId(st, op));
      RememberExactly(st.booted, op.sk, BootedId(st, op), key);
    }
  }

  /** How many calls of the run bootstrap something. */
  function BootCalls(st: State, ops: seq<Op>): nat
    decreases |ops|
  {
    if ops == [] then 0 else (if Boots(st, ops[0]) then 1 else 0) + BootCalls(Step(st, ops[0]), ops[1..])
  }

  predicate LeavesAll(st: State, ops: seq<Op>, key: string)
    decreases |ops|
  {
    ops == [] || (Leaves(st, ops[0], key) && LeavesAll(Step(st, ops[0]), ops[1..], key))
  }

  /** An entry is not evicted while the entries younger than it and the bootstraps since stay below 128. */
  lemma {:induction false} RememberedLongEnough(st: State, ops: seq<Op>, key: string)
    requires Ids.Valid(st.booted) && Ids.Has(st.booted, key) && LeavesAll(st, ops, key)
    requires Ids.Newer(st.booted, key) + BootCalls(st, ops) < 128
    ensures StaysRemembered(st, ops, key)
    decreases |ops|
  {
    if ops != [] {
      StepRemembers(st, ops[0], key);
      RememberedLongEnough(Step(st, ops[0]), ops[1..], key);
    }
  }

  lemma {:induction false} RunRemembers(st: State, ops: seq<Op>, key: string)
    requires Ids.Valid(st.booted) && Ids.Has(st.booted, key) && StaysRemembered(st, ops, key)
    ensures Ids.Has(Run(st, ops).booted, key) && Ids.Lookup(Run(st, ops).booted, key) == Ids.Lookup(st.booted, key)
    decreases |ops|
  {
    if ops != [] {
      StepRemembers(st, ops[0], key);
      RunRemembers(Step(st, ops[0]), ops[1..], key);
    }
  }

  /** The session that a bootstrap began is the one that an end without an id removes, whatever calls come in
      between, as long as none bootstraps or ends the key and its entry is not evicted. */
  lemma EndsWhatWasBooted(st: State, boot: Op, ops: seq<Op>, end: Op)
    requires boot.Bootstrap? && Ids.Valid(st.booted) && StaysRemembered(Step(st, boot), ops, boot.sk)
    requires end.End? && end.sk == boot.sk && end.sid == ""
    ensures var before := Run(Step(st, boot), ops);
            var after := Step(before, end);
            && after.store == before.store - {Named(st, boot)} && after.messages == before.messages
            && !Ids.Has(after.booted, boot.sk) && !Ids.Has(after.fallback, boot.sk)
  {
    BootstrapEffect(st, boot);
    RememberValid(st.booted, boot.sk, Named(st, boot).1);
    BootedAfter(st, boot);
    RunRemembers(Step(st, boot), ops, boot.sk);
    EndEffect(Run(Step(st, boot), ops), end);
  }

  /** In every run the remembered sessions are at most 128, one for each key. */
  lemma {:induction false} RunBootedValid(st: State, ops: seq<Op>)
    requires Ids.Valid(st.booted)
    ensures Ids.Valid(Run(st, ops).booted)
    decreases |ops|
  {
    if ops != [] {
      BootedAfter(st, ops[0]);
      if ops[0].End? {
        Ids.PoppedValid(st.booted, ops[0].sk);
      } else if Boots(st, ops[0]) {
        RememberValid(st.booted, ops[0].sk, BootedId(st, ops[0]));
      }
      RunBootedValid(Step(st, ops[0]), ops[1..]);
    }
  }
}
