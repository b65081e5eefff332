/** The lifecycle methods of `runtime/context/lifecycle.py`: each loads the record, changes its own copy
    and saves it, and some call each other with a load and a save of their own. */
module Lifecycle {
  import opened Basics
  import opened Messages
  import opened GoalForest
  import opened Compaction
  import opened SessionModel
  import Ids = SessionIds

  ghost predicate CacheOk(c: Ids.Cache) { forall i :: 0 <= i < |c| ==> c[i].1 != "" }

  lemma LookupOk(c: Ids.Cache, key: string)
    requires CacheOk(c) && Ids.Has(c, key)
    ensures Ids.Lookup(c, key) != ""
  {
  }

  lemma {:induction false} PoppedOk(c: Ids.Cache, key: string)
    requires CacheOk(c)
    ensures CacheOk(Ids.Popped(c, key))
  {
    var p := Ids.Popped(c, key);
    forall i | 0 <= i < |p| ensures p[i].1 != "" {
      KeepMember(c, (e: (string, string)) => e.0 != key, p[i]);
      assert p[i] in c;
    }
  }

  lemma EnteredOk(c: Ids.Cache, sid: string, key: string, uuid: string)
    requires CacheOk(c) && uuid != ""
    ensures Ids.Entered(c, sid, key, uuid).0 != "" && CacheOk(Ids.Entered(c, sid, key, uuid).1)
    ensures Ids.Ensured(c, sid, key, uuid).0 != "" && CacheOk(Ids.Ensured(c, sid, key, uuid).1)
  {
    PoppedOk(c, key);
    if Ids.Has(c, key) { LookupOk(c, key); }
  }

  lemma {:induction false} PoppedTwice(c: Ids.Cache, key: string)
    ensures Ids.Popped(Ids.Popped(c, key), key) == Ids.Popped(c, key)
  {
    if c != [] {
      Ids.PoppedCons(c, key);
      PoppedTwice(c[1..], key);
      if c[0].0 != key { Ids.PoppedCons(Ids.Popped(c, key), key); }
    }
  }

  /** What the nested ingest of a completed turn does: its own load and save leave the record alone. */
  lemma NestedIngest(st: State, sk: string, sid: string, uuid: string, profile: Profile, ms: seq<Message>)
    requires sid != "" && (sk, sid) in st.store
    ensures IngestSpec(st, sk, sid, uuid, profile, ms)
            == st.(fallback := Ids.Popped(st.fallback, sk),
                   messages := Pushed(st, (sk, sid), Stamped(ms, st.store[(sk, sid)].turnCount)))
  {
  }

  function AutoCompactSpec(st: State, sk: string, sid: string): State
    requires (sk, sid) in st.store
  {
    var k := (sk, sid);
    if Overfull(MessagesOf(st, k), st.store[k].profile.compaction)
    then st.(fallback := Ids.Popped(st.fallback, sk), store := st.store[k := Reset(st.store[k])])
    else st
  }

  /** The net effect of a turn, step by step. */
  lemma TurnComposed(st0: State, sk: string, sid0: string, uuid: string, ms: seq<Message>, st2: State)
    requires sid0 != "" || uuid != ""
    requires CacheOk(st0.fallback)
    requires var (sid, cache) := Ids.Entered(st0.fallback, sid0, sk, uuid);
             && (sk, sid) in st0.store
             && var c := st0.store[(sk, sid)];
             && st2.booted == st0.booted && st2.store == st0.store[(sk, sid) := Turned(c)]
             && st2.messages == Pushed(st0, (sk, sid), Stamped(ms, c.turnCount))
             && st2.fallback == if ms == [] then cache else Ids.Popped(cache, sk)
    ensures AutoCompactSpec(st2, sk, Ids.Entered(st0.fallback, sid0, sk, uuid).0) == AfterTurnSpec(st0, sk, sid0, uuid, ms)
  {
    var (sid, cache) := Ids.Entered(st0.fallback, sid0, sk, uuid);
    var k := (sk, sid);
    PoppedTwice(cache, sk);
    assert MessagesOf(st2, k) == MessagesOf(st0.(messages := st2.messages), k);
    assert st2.store[k := Reset(st2.store[k])] == st0.store[k := Reset(Turned(st0.store[k]))];
  }

  /** What the nested compaction does once the precheck has fired. */
  lemma NestedCompact(st: State, sk: string, sid: string, uuid: string, total: nat)
    requires sid != "" && (sk, sid) in st.store
    requires Overfull(MessagesOf(st, (sk, sid)), st.store[(sk, sid)].profile.compaction)
    requires total == Tokens(MessagesOf(st, (sk, sid)))
    ensures CompactSpec(st, sk, sid, uuid, false, Some(total))
            == st.(fallback := Ids.Popped(st.fallback, sk), store := st.store[(sk, sid) := Reset(st.store[(sk, sid)])])
  {
  }

  class ContextLifecycle {
    var store: map<Session, Context>
    var messages: map<Session, seq<Message>>
    var fallback: Ids.Cache
    var booted: Ids.Cache
    /** The batch evaluation of successful use: None when switched off. */
    const rt1BatchSize: Option<nat>

    function View(): State
      reads this
    {
      State(store, messages, fallback, booted)
    }

    ghost predicate Valid()
      reads this
    {
      CacheOk(fallback)
    }

    constructor (rt1BatchSize: Option<nat>)
      ensures Valid() && View() == State(map[], map[], [], []) && this.rt1BatchSize == rt1BatchSize
    {
      store, messages, fallback, booted := map[], map[], [], [];
      this.rt1BatchSize := rt1BatchSize;
    }

    /** Keys of the fallback dictionary are looked up, evicted and inserted in place. */
    method EnsureSessionId(sid: string, sessionKey: string, uuid: string) returns (id: string)
      requires Valid() && uuid != ""
      modifies this`fallback
      ensures Valid() && id != "" && (id, fallback) == Ids.Ensured(old(fallback), sid, sessionKey, uuid)
    {
      EnteredOk(fallback, sid, sessionKey, uuid);
      if sid != "" { return sid; }
      if Ids.Has(fallback, sessionKey) { return Ids.Lookup(fallback, sessionKey); }
      if |fallback| >= Ids.CAPACITY {
        fallback := fallback[1..];
      }
      fallback := fallback + [(sessionKey, uuid)];
      id := uuid;
    }

    /** The common start of bootstrap, ingest_batch, assemble, compact and after_turn. */
    method Enter(originalSid: string, sessionKey: string, uuid: string) returns (sid: string)
      requires Valid() && uuid != ""
      modifies this`fallback
      ensures Valid() && sid != "" && (sid, fallback) == Ids.Entered(old(fallback), originalSid, sessionKey, uuid)
    {
      EnteredOk(fallback, originalSid, sessionKey, uuid);
      sid := EnsureSessionId(originalSid, sessionKey, uuid);
      if originalSid != "" {
        fallback := Ids.Popped(fallback, sessionKey);
      }
    }

    method Bootstrap(sk: string, originalSid: string, uuid: string, profile: Profile)
      requires Valid() && uuid != ""
      modifies this
      ensures Valid() && View() == BootstrapSpec(old(View()), sk, originalSid, uuid, profile)
    {
      var sid := Enter(originalSid, sk, uuid);
      if |booted| >= Ids.CAPACITY {
        booted := booted[1..];
      }
      booted := if Ids.Has(booted, sk) then booted[Ids.Find(booted, sk) := (sk, sid)] else booted + [(sk, sid)];
      if (sk, sid) in store { return; }
      store := store[(sk, sid) := NewContext(profile)];
    }

    /** The record is there afterwards: a missing one is bootstrapped with the default profile. */
    method OpenSession(sk: string, sid: string, uuid: string, profile: Profile)
      requires Valid() && uuid != "" && sid != ""
      modifies this
      ensures Valid() && View() == Opened(old(View()), sk, sid, uuid, profile)
      ensures (sk, sid) in store
      ensures store[(sk, sid)] == if (sk, sid) in old(store) then old(store)[(sk, sid)] else NewContext(profile)
    {
      if (sk, sid) !in store {
        Bootstrap(sk, sid, uuid, profile);
      }
    }

    /** The goal filter, updating the loaded record's history goal by goal. */
    method FilterGoalsForInjection(goals: seq<GoalState>, context: Context)
      returns (filtered: seq<GoalState>, history: map<string, GoalMark>)
      ensures (filtered, history) == FilterGoals(goals, context)
    {
      history := context.goalHistory;
      if |goals| == 0 { return [], history; }
      if !context.profile.smartGoals { return goals, history; }
      filtered := [];
      for i := 0 to |goals|
        invariant (filtered, history)
                  == FilterSmart(goals[..i], context.goalHistory, context.turnCount, context.profile.reminderInterval)
      {
        var g := goals[i];
        assert goals[..i + 1][..i] == goals[..i];
        if ShouldInject(g, history, context.turnCount, context.profile.reminderInterval) {
          filtered := filtered + [g];
          history := history[g.id := GoalMark(context.turnCount, g.status)];
        }
      }
      assert goals[..|goals|] == goals;
    }

    /** Records the turn of each item that was not injected before. */
    method MarkInjected(items: seq<string>, turns0: map<string, nat>, turn: nat) returns (turns: map<string, nat>)
      ensures turns == MarkItems(items, turns0, turn)
    {
      turns := turns0;
      for i := 0 to |items|
        invariant turns == MarkItems(items[..i], turns0, turn)
      {
        assert items[..i + 1][..i] == items[..i];
        if items[i] !in turns { turns := turns[items[i] := turn]; }
      }
      assert items[..|items|] == items;
    }

    method Assemble(sk: string, originalSid: string, uuid: string, profile: Profile, request: Request)
      returns (injected: seq<GoalState>)
      requires Valid() && uuid != ""
      modifies this
      ensures Valid() && View() == AssembleSpec(old(View()), sk, originalSid, uuid, profile, request)
      ensures var k := (sk, Ids.Entered(old(fallback), originalSid, sk, uuid).0);
              k in store && injected == FilterGoals(request.goals, if k in old(store) then old(store)[k] else NewContext(profile)).0
    {
      var sid := Enter(originalSid, sk, uuid);
      var k := (sk, sid);
      OpenSession(sk, sid, uuid, profile);
      var context := store[k];
      var filtered, history := FilterGoalsForInjection(request.goals, context);
      context := context.(goalHistory := history);
      if request.snapshot.Some? {
        var turns := MarkInjected(request.snapshot.value.items, context.factTurns, context.turnCount);
        context := context.(factTurns := turns);
        context := context.(snapshotId := Some(request.snapshot.value.id));
      }
      store := store[k := context];
      injected := filtered;
    }

    method StampTurn(batch: seq<Message>, turn: nat) returns (stamped: seq<Message>)
      ensures stamped == Stamped(batch, turn)
    {
      stamped := [];
      for i := 0 to |batch|
        invariant stamped == Stamped(batch[..i], turn)
      {
        stamped := stamped + [batch[i].(turn := turn)];
      }
      assert batch[..|batch|] == batch;
    }

    /** Stamps and stores the messages; called from after_turn it leaves saving the record to its caller. */
    method IngestBatch(sk: string, originalSid: string, uuid: string, profile: Profile, batch: seq<Message>,
                       calledFromAfterTurn: bool) returns (stamped: seq<Message>)
      requires Valid() && uuid != ""
      modifies this
      ensures Valid() && View() == IngestSpec(old(View()), sk, originalSid, uuid, profile, batch)
      ensures var k := (sk, Ids.Entered(old(fallback), originalSid, sk, uuid).0);
              k in store && stamped == Stamped(batch, store[k].turnCount)
    {
      var sid := Enter(originalSid, sk, uuid);
      var k := (sk, sid);
      OpenSession(sk, sid, uuid, profile);
      var context := store[k];
      stamped := StampTurn(batch, context.turnCount);
      if |stamped| > 0 {
        messages := messages[k := (if k in messages then messages[k] else []) + stamped];
      }
      if !calledFromAfterTurn {
        store := store[k := context];
      }
    }

    /** Resets the injection bookkeeping when the engine has compacted. The engine's answer is its trigger. */
    method Compact(sk: string, originalSid: string, uuid: string, force: bool, currentTokenCount: Option<nat>,
                   cached: Option<seq<Message>>) returns (compacted: bool)
      requires Valid() && uuid != ""
      requires cached.Some? ==> cached.value == MessagesOf(View(), (sk, Ids.Entered(fallback, originalSid, sk, uuid).0))
      modifies this
      ensures Valid() && View() == CompactSpec(old(View()), sk, originalSid, uuid, force, currentTokenCount)
    {
      var sid := Enter(originalSid, sk, uuid);
      var k := (sk, sid);
      if k !in store { return false; }
      var context := store[k];
      var ms := if cached.Some? then cached.value else if k in messages then messages[k] else [];
      if |ms| == 0 { return false; }
      var tokens;
      if currentTokenCount.Some? { tokens := currentTokenCount.value; } else { tokens := CountTokens(ms); }
      compacted := ShouldTrigger(tokens, context.profile.compaction, force);
      if compacted {
        context := context.(factTurns := map[], goalHistory := map[]);
        context := context.(compactCount := context.compactCount + 1);
      }
      store := store[k := context];
    }

    /** Ends a turn: a nested ingest, the increment and its save, the batch counter on the saved copy, and
        possibly a nested compaction on the record as saved. `now` and `timeout` are in seconds. */
    method AfterTurn(sk: string, originalSid: string, uuid: string, batch: seq<Message>, hasSnapshot: bool,
                     now: int, timeout: int) returns (rt1Fired: bool)
      requires Valid() && uuid != ""
      modifies this
      ensures Valid() && View() == AfterTurnSpec(old(View()), sk, originalSid, uuid, batch)
      ensures var k := (sk, Ids.Entered(old(fallback), originalSid, sk, uuid).0);
              rt1Fired == (k in old(store) && hasSnapshot && rt1BatchSize.Some?
                           && (old(store)[k].rt1Counter + 1 >= rt1BatchSize.value
                               || (old(store)[k].rt1LastBatchAt.Some? && now - old(store)[k].rt1LastBatchAt.value >= timeout)))
    {
      rt1Fired := false;
      var sid := Enter(originalSid, sk, uuid);
      var k := (sk, sid);
      if k !in store { return; }
      var context := store[k];
      ghost var st1 := View();
      if |batch| > 0 {
        NestedIngest(st1, sk, sid, uuid, context.profile, batch);
        var _ := IngestBatch(sk, sid, uuid, context.profile, batch, true);
      }
      ghost var c := context;
      context := context.(turnCount := context.turnCount + 1);
      store := store[k := context];
      TurnComposed(old(View()), sk, originalSid, uuid, batch, View());
      if rt1BatchSize.Some? && hasSnapshot {
        rt1Fired := Rt1Fires(context, rt1BatchSize, now, timeout);
        context := context.(rt1Counter := context.rt1Counter + 1);
        if rt1Fired {
          context := context.(rt1Counter := 0, rt1LastBatchAt := Some(now));
        }
      }
      AutoCompact(sk, sid, uuid, context.profile.compaction);
    }

    /** The end of after_turn: all stored messages are counted, and over the threshold the record is
        compacted, by a call that loads it again. */
    method AutoCompact(sk: string, sid: string, uuid: string, policy: CompactionPolicy)
      requires Valid() && uuid != "" && sid != "" && (sk, sid) in store && policy == store[(sk, sid)].profile.compaction
      modifies this
      ensures Valid() && View() == AutoCompactSpec(old(View()), sk, sid)
    {
      var k := (sk, sid);
      var raw := if k in messages then messages[k] else [];
      if |raw| > 0 {
        var total := CountTokens(raw);
        PrecheckAgrees(total, policy);
        if Precheck(total, policy) {
          NestedCompact(View(), sk, sid, uuid, total);
          var _ := Compact(sk, sid, uuid, false, Some(total), Some(raw));
        }
      }
    }

    method SaveContextWindow(k: Session, window: Option<int>)
      requires Valid()
      modifies this
      ensures Valid() && View() == WindowSpec(old(View()), k, window)
    {
      if k in store {
        var context := store[k];
        context := context.(window := window);
        store := store[k := context];
      }
    }

    /** An empty id means the session remembered from its bootstrap, before any fallback. */
    method SessionEnd(sk: string, originalSid: string, uuid: string)
      requires Valid() && uuid != ""
      modifies this
      ensures Valid() && View() == EndSpec(old(View()), sk, originalSid, uuid)
      ensures originalSid != "" ==> store == old(store) - {(sk, originalSid)}
      ensures originalSid == "" && Ids.Has(old(booted), sk) ==> store == old(store) - {(sk, Ids.Lookup(old(booted), sk))}
      ensures originalSid == "" && !Ids.Has(old(booted), sk) && Ids.Has(old(fallback), sk) ==>
                store == old(store) - {(sk, Ids.Lookup(old(fallback), sk))}
      ensures messages == old(messages)
    {
      EnteredOk(fallback, originalSid, sk, uuid);
      PoppedOk(fallback, sk);
      PoppedOk(Ids.Ensured(fallback, originalSid, sk, uuid).1, sk);
      var sid;
      if originalSid == "" && Ids.Has(booted, sk) {
        sid := Ids.Lookup(booted, sk);
        booted := Ids.Popped(booted, sk);
      } else {
        sid := EnsureSessionId(originalSid, sk, uuid);
        booted := Ids.Popped(booted, sk);
      }
      fallback := Ids.Popped(fallback, sk);
      store := store - {(sk, sid)};
    }

    method Dispose(sk: string, originalSid: string, uuid: string)
      requires Valid() && uuid != ""
      modifies this
      ensures Valid() && View() == DisposeSpec(old(View()), sk, originalSid, uuid)
    {
      var _ := EnsureSessionId(originalSid, sk, uuid);
      PoppedOk(fallback, sk);
      fallback := Ids.Popped(fallback, sk);
    }
  }

  /** The batch trigger, evaluated on the loaded record: the incremented counter, or the time since the
      last batch. */
  predicate Rt1Fires(c: Context, batchSize: Option<nat>, now: int, timeout: int) {
    batchSize.Some?
    && (c.rt1Counter + 1 >= batchSize.value || (c.rt1LastBatchAt.Some? && now - c.rt1LastBatchAt.value >= timeout))
  }

  predicate HasUser(messages: seq<Message>) { exists i :: 0 <= i < |messages| && messages[i].role == "user" }

  /** The response side of a turn: everything after the last user message, or all messages without one. */
  method ExtractResponseDelta(messages: seq<Message>) returns (delta: seq<Message>)
    ensures |delta| <= |messages| && delta == messages[|messages| - |delta|..]
    ensures forall i :: 0 <= i < |delta| ==> delta[i].role != "user"
    ensures |delta| < |messages| <==> HasUser(messages)
    ensures |delta| < |messages| ==> messages[|messages| - |delta| - 1].role == "user"
  {
    var idx := |messages|;
    while idx > 0
      invariant 0 <= idx <= |messages|
      invariant forall i :: idx <= i < |messages| ==> messages[i].role != "user"
    {
      idx := idx - 1;
      if messages[idx].role == "user" {
        return messages[idx + 1..];
      }
    }
    delta := messages;
  }
}
