/** One stored record under concurrent calls: loads and saves are separate steps, and a save writes back
    whatever the call loaded, however much has happened since. */
module SessionInterleaving {
  import opened Basics
  import opened SessionModel

  /** What a call does to its copy between its load and its save. */
  datatype Change =
    | Assembly(request: Request)
    | Turn
    | Compaction(compacted: bool)
    | WindowReport(window: Option<int>)
    | NoChange

  function Changed(c: Context, change: Change): Context {
    match change
    case Assembly(request) => Assembled(c, request)
    case Turn => Turned(c)
    case Compaction(compacted) => if compacted then Reset(c) else c
    case WindowReport(window) => c.(window := window)
    case NoChange => c
  }

  /** A call's copy, and how many turns had been saved when it was loaded. */
  datatype Copy = Copy(context: Context, turnsThen: nat)

  /** `turnsSaved` counts the saves of completed turns; it is bookkeeping of the model. */
  datatype Shared = Shared(record: Option<Context>, turnsSaved: nat, inFlight: map<nat, Copy>)

  /** `Create` is the save of a bootstrap that found no record when it looked. */
  datatype Step = Load(p: nat) | Save(p: nat, change: Change) | Create(profile: Profile) | Delete

  function Do(s: Shared, step: Step): Shared {
    match step
    case Load(p) =>
      if s.record.Some? then s.(inFlight := s.inFlight[p := Copy(s.record.value, s.turnsSaved)])
      else s.(inFlight := s.inFlight - {p})
    case Save(p, change) =>
      if p !in s.inFlight then s
      else Shared(Some(Changed(s.inFlight[p].context, change)), s.turnsSaved + (if change.Turn? then 1 else 0),
                  s.inFlight - {p})
    case Create(profile) => s.(record := Some(NewContext(profile)))
    case Delete => s.(record := None)
  }

  function Run(s: Shared, steps: seq<Step>): Shared
    decreases |steps|
  {
    if steps == [] then s else Run(Do(s, steps[0]), steps[1..])
  }

  // ----- what every interleaving keeps -----

  ghost predicate AllConsistent(s: Shared) {
    && (s.record.Some? ==> Consistent(s.record.value))
    && (forall p :: p in s.inFlight ==> Consistent(s.inFlight[p].context))
  }

  lemma DoConsistent(s: Shared, step: Step)
    requires AllConsistent(s)
    ensures AllConsistent(Do(s, step))
  {
    match step
    case Load(_) =>
    case Save(p, change) => {
      if p in s.inFlight && change.Assembly? { AssembledConsistent(s.inFlight[p].context, change.request); }
    }
    case Create(_) =>
    case Delete =>
  }

  /** However loads and saves interleave, no stored or in-flight record ever holds an injection turn
      beyond its turn count. */
  lemma {:induction false} InterleavedConsistent(s: Shared, steps: seq<Step>)
    requires AllConsistent(s)
    ensures AllConsistent(Run(s, steps))
    decreases |steps|
  {
    if steps != [] {
      DoConsistent(s, steps[0]);
      InterleavedConsistent(Do(s, steps[0]), steps[1..]);
    }
  }

  // ----- when increments are lost -----

  /** A save of a copy older than the last saved turn. */
  predicate Late(s: Shared, step: Step) {
    step.Save? && step.p in s.inFlight && s.inFlight[step.p].turnsThen < s.turnsSaved
  }

  predicate AnyLate(s: Shared, steps: seq<Step>)
    decreases |steps|
  {
    steps != [] && (Late(s, steps[0]) || AnyLate(Do(s, steps[0]), steps[1..]))
  }

  predicate Established(steps: seq<Step>) { forall i :: 0 <= i < |steps| ==> steps[i].Load? || steps[i].Save? }

  predicate OnlyTurns(steps: seq<Step>) {
    forall i :: 0 <= i < |steps| ==> steps[i].Load? || (steps[i].Save? && steps[i].change.Turn?)
  }

  /** Record and copies show the turns saved since the count was `base`. */
  ghost predicate InSync(s: Shared, base: int) {
    && s.record.Some? && s.record.value.turnCount == base + s.turnsSaved
    && (forall p :: p in s.inFlight ==>
          s.inFlight[p].context.turnCount == base + s.inFlight[p].turnsThen && s.inFlight[p].turnsThen <= s.turnsSaved)
  }

  /** An increment is missing from the record and from every copy that is not itself late. */
  ghost predicate Behind(s: Shared, base: int) {
    && s.record.Some? && s.record.value.turnCount < base + s.turnsSaved
    && (forall p :: p in s.inFlight ==>
          && s.inFlight[p].context.turnCount <= base + s.inFlight[p].turnsThen && s.inFlight[p].turnsThen <= s.turnsSaved
          && (s.inFlight[p].context.turnCount < base + s.inFlight[p].turnsThen || s.inFlight[p].turnsThen < s.turnsSaved))
  }

  lemma StaysBehind(s: Shared, steps: seq<Step>, base: int)
    requires Behind(s, base) && OnlyTurns(steps)
    ensures Behind(Run(s, steps), base)
    decreases |steps|
  {
    if steps != [] {
      assert steps[0].Load? || (steps[0].Save? && steps[0].change.Turn?);
      assert OnlyTurns(steps[1..]) by {
        assert forall i :: 0 <= i < |steps| - 1 ==> steps[1..][i] == steps[i + 1];
      }
      StaysBehind(Do(s, steps[0]), steps[1..], base);
    }
  }

  lemma {:induction false} SyncKept(s: Shared, steps: seq<Step>, base: int)
    requires InSync(s, base) && Established(steps) && !AnyLate(s, steps)
    ensures InSync(Run(s, steps), base)
    decreases |steps|
  {
    if steps != [] {
      assert steps[0].Load? || steps[0].Save?;
      assert forall i :: 0 <= i < |steps| - 1 ==> steps[1..][i] == steps[i + 1];
      SyncKept(Do(s, steps[0]), steps[1..], base);
    }
  }

  lemma {:induction false} LateLoses(s: Shared, steps: seq<Step>, base: int)
    requires InSync(s, base) && OnlyTurns(steps) && AnyLate(s, steps)
    ensures Behind(Run(s, steps), base)
    decreases |steps|
  {
    assert steps[0].Load? || (steps[0].Save? && steps[0].change.Turn?);
    assert forall i :: 0 <= i < |steps| - 1 ==> steps[1..][i] == steps[i + 1];
    if Late(s, steps[0]) {
      assert Behind(Do(s, steps[0]), base);
      StaysBehind(Do(s, steps[0]), steps[1..], base);
    } else {
      LateLoses(Do(s, steps[0]), steps[1..], base);
    }
  }

  /** With any mix of calls, no late save means no lost turn. */
  lemma NothingLateNothingLost(c: Context, steps: seq<Step>)
    requires Established(steps) && !AnyLate(Shared(Some(c), 0, map[]), steps)
    ensures var end := Run(Shared(Some(c), 0, map[]), steps);
            end.record.Some? && end.record.value.turnCount == c.turnCount + end.turnsSaved
  {
    SyncKept(Shared(Some(c), 0, map[]), steps, c.turnCount);
  }

  /** For concurrent completed turns the condition is exact: every turn is counted if and only if none is
      saved after another was saved on top of the record it had loaded. */
  lemma TurnsLostExactlyWhenLate(c: Context, steps: seq<Step>)
    requires OnlyTurns(steps)
    ensures var start := Shared(Some(c), 0, map[]);
            var end := Run(start, steps);
            && end.record.Some?
            && (end.record.value.turnCount == c.turnCount + end.turnsSaved <==> !AnyLate(start, steps))
  {
    var start := Shared(Some(c), 0, map[]);
    if AnyLate(start, steps) {
      LateLoses(start, steps, c.turnCount);
    } else {
      assert Established(steps);
      SyncKept(start, steps, c.turnCount);
    }
  }

  /** Two turns that both load before either saves count as one; a window report in the place of the
      second undoes the first turn altogether. */
  lemma LostTurn(c: Context, window: Option<int>)
    ensures Run(Shared(Some(c), 0, map[]), [Load(0), Load(1), Save(0, Turn), Save(1, Turn)]).record == Some(Turned(c))
    ensures Run(Shared(Some(c), 0, map[]), [Load(0), Load(1), Save(0, Turn), Save(1, WindowReport(window))]).record
            == Some(c.(window := window))
  {
    var s := Shared(Some(c), 0, map[]);
    var s3 := Do(Do(Do(s, Load(0)), Load(1)), Save(0, Turn));
    RunFour(s, Load(0), Load(1), Save(0, Turn), Save(1, Turn));
    RunFour(s, Load(0), Load(1), Save(0, Turn), Save(1, WindowReport(window)));
    assert s3.inFlight[1].context == c;
  }

  lemma RunFour(s: Shared, a: Step, b: Step, c: Step, d: Step)
    ensures Run(s, [a, b, c, d]) == Do(Do(Do(Do(s, a), b), c), d)
  {
    assert [a, b, c, d][1..] == [b, c, d] && [b, c, d][1..] == [c, d] && [c, d][1..] == [d] && [d][1..] == [];
    assert Run(Do(Do(Do(s, a), b), c), [d]) == Do(Do(Do(Do(s, a), b), c), d);
    assert Run(Do(Do(s, a), b), [c, d]) == Run(Do(Do(Do(s, a), b), c), [d]);
    assert Run(Do(s, a), [b, c, d]) == Run(Do(Do(s, a), b), [c, d]);
  }
}
