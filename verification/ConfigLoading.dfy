/** Loading a configuration: overrides, then inheritance, then path normalising; why doing it twice
    changes nothing, and what inheritance never overwrites. */
module ConfigLoading {
  import opened Basics
  import opened ConfigOverrides

  // ----- the mutating form -----

  ghost predicate AllOk(steps: seq<Step>) { forall st :: st in steps ==> StepOk(st) }

  lemma PipelineOk()
    ensures AllOk(INHERITANCE) && AllOk(NORMALISING) && AllOk(INHERITANCE + NORMALISING)
  {
    assert LLM_KEY[0] != COGNEE_KEY[0] && COMPACTION_KEY[0] != LLM_KEY[0] && SUCCESSFUL_USE_KEY[0] != LLM_KEY[0];
    assert COMPACTION_ENDPOINT[0] != LLM_ENDPOINT[0];
  }

  lemma ThreeSteps(a: Step, b: Step, c: Step, rest: seq<Step>, x: Data, ops: PathOps)
    requires AllOk([a, b, c] + rest)
    ensures StepOk(a) && StepOk(b) && StepOk(c) && AllOk(rest)
    ensures Steps([a, b, c] + rest, x, ops) == Steps(rest, Do(c, Do(b, Do(a, x, ops), ops), ops), ops)
  {
    var all := [a, b, c] + rest;
    assert all[0] in all && all[1] in all && all[2] in all;
    assert forall st :: st in rest ==> st in all;
    assert all[1..] == [b, c] + rest && all[1..][1..] == [c] + rest && all[1..][1..][1..] == rest;
    var x1 := Do(a, x, ops);
    var x2 := Do(b, x1, ops);
    assert Steps(all, x, ops) == Steps(all[1..], x1, ops);
    assert Steps(all[1..], x1, ops) == Steps(all[1..][1..], x2, ops);
  }

  lemma SixSteps(a: Step, b: Step, c: Step, d: Step, e: Step, f: Step, x: Data, ops: PathOps)
    requires AllOk([a, b, c, d, e, f])
    ensures StepOk(a) && StepOk(b) && StepOk(c) && StepOk(d) && StepOk(e) && StepOk(f)
    ensures Steps([a, b, c, d, e, f], x, ops)
            == Do(f, Do(e, Do(d, Do(c, Do(b, Do(a, x, ops), ops), ops), ops), ops), ops)
  {
    assert [a, b, c, d, e, f] == [a, b, c] + [d, e, f] && [d, e, f] == [d, e, f] + [];
    ThreeSteps(a, b, c, [d, e, f], x, ops);
    ThreeSteps(d, e, f, [], Do(c, Do(b, Do(a, x, ops), ops), ops), ops);
  }

  lemma {:induction false} StepsSnoc(steps: seq<Step>, st: Step, d: Data, ops: PathOps)
    requires AllOk(steps) && StepOk(st)
    ensures AllOk(steps + [st]) && Steps(steps + [st], d, ops) == Do(st, Steps(steps, d, ops), ops)
    decreases |steps|
  {
    if steps == [] {
      assert [] + [st] == [st] && [st][1..] == [];
    } else {
      assert (steps + [st])[1..] == steps[1..] + [st];
      StepsSnoc(steps[1..], st, Do(steps[0], d, ops), ops);
    }
  }

  /** Binding `n` is the first that cannot be coerced. */
  ghost predicate FailsAt(bs: seq<Binding>, n: nat, env: map<string, string>, p: NumberParsing)
    requires n < |bs|
  {
    && Coercible(bs[..n], env, p) && !Coercible(bs[..n + 1], env, p)
    && forall s :: s in Settings(bs[..n], env, p) ==> s.path != []
  }

  class ConfigData {
    var data: Data

    constructor (data: Data)
      ensures this.data == data
    {
      this.data := data;
    }

    /** Applies every binding whose variable is set; false stands for a coercion error, which leaves the
        settings before the failing one applied. */
    method ApplyEnvOverrides(bindings: seq<Binding>, env: map<string, string>, p: NumberParsing) returns (ok: bool)
      requires forall i :: 0 <= i < |bindings| ==> bindings[i].path != []
      modifies this
      ensures ok == Coercible(bindings, env, p)
      ensures ok ==> (forall s :: s in Settings(bindings, env, p) ==> s.path != [])
      ensures ok ==> data == SetAll(old(data), Settings(bindings, env, p))
      ensures !ok ==> exists n :: 0 <= n < |bindings| && FailsAt(bindings, n, env, p)
                                  && data == SetAll(old(data), Settings(bindings[..n], env, p))
    {
      ok := true;
      for i := 0 to |bindings|
        invariant Coercible(bindings[..i], env, p)
        invariant forall s :: s in Settings(bindings[..i], env, p) ==> s.path != []
        invariant data == SetAll(old(data), Settings(bindings[..i], env, p))
      {
        var b := bindings[i];
        SettingsStep(bindings, i, env, p);
        if b.envVar in env {
          var value := Coerce(env[b.envVar], b.coercer, p);
          if value.None? {
            assert FailsAt(bindings, i, env, p);
            return false;
          }
          data := Set(data, b.path, value.value);
          SetAllSnoc(old(data), Settings(bindings[..i], env, p), Setting(b.path, value.value));
          assert Settings(bindings[..i + 1], env, p) == Settings(bindings[..i], env, p) + [Setting(b.path, value.value)];
        } else {
          assert Settings(bindings[..i + 1], env, p) == Settings(bindings[..i], env, p);
        }
      }
      assert bindings[..|bindings|] == bindings;
    }

    /** `_get_or_create_section`. */
    method OpenSection(section: string, ghost ops: PathOps)
      modifies this
      ensures data == Do(Open(section), old(data), ops)
    {
      if !(section in data && data[section].Dict?) {
        data := data[section := Dict(map[])];
      }
    }

    /** The three tiers, as the source writes them. */
    method ApplyInheritanceFallbacks(ghost ops: PathOps)
      modifies this
      ensures AllOk(INHERITANCE) && data == Steps(INHERITANCE, old(data), ops)
    {
      PipelineOk();
      SixSteps(Open("cognee"), Open("llm"), Fill(LLM_KEY, COGNEE_KEY), Fill(COMPACTION_KEY, LLM_KEY),
               Fill(SUCCESSFUL_USE_KEY, LLM_KEY), Fill(COMPACTION_ENDPOINT, LLM_ENDPOINT), data, ops);
      OpenSection("cognee", ops);
      OpenSection("llm", ops);
      if !Holds(Get(data, LLM_KEY)) && Holds(Get(data, COGNEE_KEY)) {
        data := Set(data, LLM_KEY, Get(data, COGNEE_KEY).value);
      }
      var llmKey := Get(data, LLM_KEY);
      if Holds(llmKey) {
        if !Holds(Get(data, COMPACTION_KEY)) {
          GetSetApart(data, COMPACTION_KEY, llmKey.value, LLM_KEY);
          data := Set(data, COMPACTION_KEY, llmKey.value);
        }
        if !Holds(Get(data, SUCCESSFUL_USE_KEY)) {
          data := Set(data, SUCCESSFUL_USE_KEY, llmKey.value);
        }
      }
      var llmEndpoint := Get(data, LLM_ENDPOINT);
      if Holds(llmEndpoint) && !Holds(Get(data, COMPACTION_ENDPOINT)) {
        data := Set(data, COMPACTION_ENDPOINT, llmEndpoint.value);
      }
    }

    /** Rewrites each non-empty database path of the audit section, in a loop over the fields. */
    method NormalizeSqliteDbPaths(ops: PathOps)
      modifies this
      ensures AllOk(NORMALISING) && data == Steps(NORMALISING, old(data), ops)
    {
      PipelineOk();
      OpenSection("audit", ops);
      assert NORMALISING[..1] == [] + [Open("audit")];
      StepsSnoc([], Open("audit"), old(data), ops);
      for i := 1 to |NORMALISING|
        invariant AllOk(NORMALISING[..i]) && data == Steps(NORMALISING[..i], old(data), ops)
      {
        NormalisingInAudit(NORMALISING[i]);
        assert NORMALISING[i].Normalise?;
        var field := NORMALISING[i].target;
        var rawPath := Get(data, field);
        if Holds(rawPath) {
          data := Set(data, field, Normal(rawPath.value, ops));
        }
        assert NORMALISING[..i + 1] == NORMALISING[..i] + [NORMALISING[i]];
        StepsSnoc(NORMALISING[..i], NORMALISING[i], old(data), ops);
      }
      assert NORMALISING[..|NORMALISING|] == NORMALISING;
    }
  }

  lemma SettingsStep(bs: seq<Binding>, i: nat, env: map<string, string>, p: NumberParsing)
    requires i < |bs| && Coercible(bs[..i], env, p)
    ensures var b := bs[i];
            && (Coercible(bs[..i + 1], env, p) <==> (b.envVar in env ==> Coerce(env[b.envVar], b.coercer, p).Some?))
            && (Coercible(bs[..i + 1], env, p) ==>
                  Settings(bs[..i + 1], env, p) == Settings(bs[..i], env, p)
                    + if b.envVar in env then [Setting(b.path, Coerce(env[b.envVar], b.coercer, p).value)] else [])
  {
    var bs' := bs[..i + 1];
    assert bs'[..i] == bs[..i] && bs'[i] == bs[i];
    assert forall j :: 0 <= j < i ==> bs'[j] == bs[..i][j];
  }

  lemma SetAllSnoc(d: Data, ss: seq<Setting>, s: Setting)
    requires (forall t :: t in ss ==> t.path != []) && s.path != []
    ensures (forall t :: t in ss + [s] ==> t.path != []) && SetAll(d, ss + [s]) == Set(SetAll(d, ss), s.path, s.value)
  {
    SetAllAppend(d, ss, [s]);
    assert [s][1..] == [];
    assert SetAll(SetAll(d, ss), [s]) == SetAll(Set(SetAll(d, ss), s.path, s.value), []);
  }

  // ----- what a step touches -----

  /** Step `later` writes neither what `st` wrote nor what `st` read. */
  predicate Spares(later: Step, st: Step) {
    match later
    case Open(_) => true
    case Fill(t, _) => SparesPath(t, st)
    case Normalise(t) => SparesPath(t, st)
  }

  predicate SparesPath(t: Path, st: Step) {
    match st
    case Open(_) => true
    case Fill(u, s) => Apart(t, u) && Apart(t, s)
    case Normalise(u) => Apart(t, u)
  }

  ghost predicate SpreadOut(steps: seq<Step>) {
    AllOk(steps) && forall i, j :: 0 <= i < j < |steps| ==> Spares(steps[j], steps[i])
  }

  predicate Targets(st: Step, p: Path) { !st.Open? && st.target == p }

  /** Opening a section shows only at the section's own one-segment path. */
  lemma OpenInvisible(s: string, d: Data, q: Path, ops: PathOps)
    requires q != [] && q != [s]
    ensures Get(Do(Open(s), d, ops), q) == Get(d, q)
  {
    if |q| == 1 { assert q == [q[0]]; }
    assert forall k :: Sub(Do(Open(s), d, ops), k) == Sub(d, k);
  }

  lemma DoFrame(st: Step, d: Data, q: Path, ops: PathOps)
    requires StepOk(st) && q != [] && (if st.Open? then q != [st.section] else Apart(st.target, q))
    ensures Get(Do(st, d, ops), q) == Get(d, q)
  {
    match st
    case Open(s) => OpenInvisible(s, d, q, ops);
    case Fill(t, s) => if Holds(Get(d, s)) { GetSetApart(d, t, Get(d, s).value, q); }
    case Normalise(t) => if Holds(Get(d, t)) { GetSetApart(d, t, Normal(Get(d, t).value, ops), q); }
  }

  lemma {:induction false} StepsFrame(steps: seq<Step>, d: Data, q: Path, ops: PathOps)
    requires AllOk(steps) && q != []
    requires forall st :: st in steps ==> if st.Open? then q != [st.section] else Apart(st.target, q)
    ensures Get(Steps(steps, d, ops), q) == Get(d, q)
    decreases |steps|
  {
    if steps != [] {
      assert steps[0] in steps;
      DoFrame(steps[0], d, q, ops);
      StepsFrame(steps[1..], Do(steps[0], d, ops), q, ops);
    }
  }

  // ----- settled steps -----

  /** The overrides meet a step only at whole paths. */
  ghost predicate Compatible(ss: seq<Setting>, st: Step) {
    forall x :: x in ss ==>
      match st
      case Open(s) => x.path != [s]
      case Fill(t, s) => (x.path == t || Apart(x.path, t)) && (x.path == s || Apart(x.path, s))
      case Normalise(t) => x.path == t || Apart(x.path, t)
  }

  /** The data looks as the step leaves it, also when the override of its target is applied again first. */
  ghost predicate Settled(st: Step, ss: seq<Setting>, d: Data, ops: PathOps)
    requires StepOk(st)
  {
    match st
    case Open(s) => s in d && d[s].Dict?
    case Fill(t, s) =>
      && (forall x :: x in ss && x.path == t ==>
            Get(d, t) == Some(if !Truthy(x.value) && Holds(Get(d, s)) then Get(d, s).value else x.value))
      && ((forall x :: x in ss ==> x.path != t) ==> Holds(Get(d, t)) || !Holds(Get(d, s)))
    case Normalise(t) =>
      && (forall x :: x in ss && x.path == t ==> Get(d, t) == Some(Normal(x.value, ops)))
      && ((forall x :: x in ss ==> x.path != t) ==> Holds(Get(d, t)) ==> Normal(Get(d, t).value, ops) == Get(d, t).value)
  }

  ghost predicate ReadBack(st: Step, ss: seq<Setting>, d: Data)
    requires StepOk(st)
  {
    forall x :: x in ss && Targets(st, x.path) ==> Get(d, x.path) == Some(x.value)
  }

  lemma NormalTwice(v: Value, ops: PathOps)
    requires PathLaws(ops)
    ensures Normal(Normal(v, ops), ops) == Normal(v, ops)
  {
    if Truthy(v) {
      var l := Located(ops.asText(v), ops);
      assert IsAbsolute(l);
      assert ops.asText(Str(l)) == l && ops.expand(l) == l;
    }
  }

  lemma DoSettles(st: Step, ss: seq<Setting>, d: Data, ops: PathOps)
    requires StepOk(st) && ReadBack(st, ss, d) && PathLaws(ops)
    ensures Settled(st, ss, Do(st, d, ops), ops)
  {
    match st
    case Open(_) =>
    case Fill(t, s) =>
      if !Holds(Get(d, t)) && Holds(Get(d, s)) {
        GetSet(d, t, Get(d, s).value);
        GetSetApart(d, t, Get(d, s).value, s);
      }
      assert forall x :: x in ss && x.path == t ==> Targets(st, x.path);
    case Normalise(t) =>
      assert forall x :: x in ss && x.path == t ==> Targets(st, x.path);
      if Holds(Get(d, t)) {
        GetSet(d, t, Normal(Get(d, t).value, ops));
        NormalTwice(Get(d, t).value, ops);
      }
  }

  lemma SetKeepsSections(d: Data, p: Path, v: Value, s: string)
    requires p != [] && p != [s] && s in d && d[s].Dict?
    ensures s in Set(d, p, v) && Set(d, p, v)[s].Dict?
  {
    if |p| == 1 { assert p == [p[0]]; }
  }

  lemma DoKeepsSettled(later: Step, st: Step, ss: seq<Setting>, d: Data, ops: PathOps)
    requires StepOk(later) && StepOk(st) && Spares(later, st) && Settled(st, ss, d, ops)
    ensures Settled(st, ss, Do(later, d, ops), ops)
  {
    match st
    case Open(s) =>
      if !later.Open? { assert later.target != [s]; }
      match later {
        case Open(_) =>
        case Fill(t, u) => if Holds(Get(d, u)) { SetKeepsSections(d, t, Get(d, u).value, s); }
        case Normalise(t) => if Holds(Get(d, t)) { SetKeepsSections(d, t, Normal(Get(d, t).value, ops), s); }
      }
    case Fill(t, s) =>
      DoFrame(later, d, t, ops);
      DoFrame(later, d, s, ops);
    case Normalise(t) =>
      DoFrame(later, d, t, ops);
  }

  lemma {:induction false} StepsKeepSettled(steps: seq<Step>, st: Step, ss: seq<Setting>, d: Data, ops: PathOps)
    requires AllOk(steps) && StepOk(st) && (forall l :: l in steps ==> Spares(l, st)) && Settled(st, ss, d, ops)
    ensures Settled(st, ss, Steps(steps, d, ops), ops)
    decreases |steps|
  {
    if steps != [] {
      DoKeepsSettled(steps[0], st, ss, d, ops);
      StepsKeepSettled(steps[1..], st, ss, Do(steps[0], d, ops), ops);
    }
  }

  lemma DoKeepsReadBack(st: Step, later: Step, ss: seq<Setting>, d: Data, ops: PathOps)
    requires StepOk(st) && StepOk(later) && Spares(later, st) && ReadBack(later, ss, d)
    ensures ReadBack(later, ss, Do(st, d, ops))
  {
    forall x | x in ss && Targets(later, x.path) ensures Get(Do(st, d, ops), x.path) == Some(x.value) {
      DoFrame(st, d, x.path, ops);
    }
  }

  lemma {:induction false} StepsSettle(steps: seq<Step>, ss: seq<Setting>, d: Data, ops: PathOps)
    requires SpreadOut(steps) && PathLaws(ops) && forall st :: st in steps ==> ReadBack(st, ss, d)
    ensures forall st :: st in steps ==> Settled(st, ss, Steps(steps, d, ops), ops)
    decreases |steps|
  {
    if steps != [] {
      var first, rest := steps[0], steps[1..];
      var next := Do(first, d, ops);
      assert first in steps;
      DoSettles(first, ss, d, ops);
      forall l | l in rest ensures Spares(l, first) && ReadBack(l, ss, next) {
        var j :| 0 <= j < |rest| && rest[j] == l;
        assert Spares(steps[j + 1], steps[0]) && l in steps;
        DoKeepsReadBack(first, l, ss, d, ops);
      }
      TailSpreadOut(steps);
      StepsSettle(rest, ss, next, ops);
      StepsKeepSettled(rest, first, ss, next, ops);
      assert steps == [first] + rest;
    }
  }

  lemma TailSpreadOut(steps: seq<Step>)
    requires SpreadOut(steps) && steps != []
    ensures SpreadOut(steps[1..])
  {
    var rest := steps[1..];
    forall i, j | 0 <= i < j < |rest| ensures Spares(rest[j], rest[i]) {
      assert Spares(steps[j + 1], steps[i + 1]);
    }
  }

  // ----- doing it again -----

  predicate AnyTargets(steps: seq<Step>, p: Path) { exists st :: st in steps && Targets(st, p) }

  /** The overrides that a list of steps will work on. */
  function Resets(ss: seq<Setting>, steps: seq<Step>): seq<Setting> {
    Keep(ss, (x: Setting) => AnyTargets(steps, x.path))
  }

  lemma {:induction false} KeepPrefixFree(ss: seq<Setting>, p: Setting -> bool)
    requires PrefixFree(ss)
    ensures PrefixFree(Keep(ss, p)) && forall x :: x in Keep(ss, p) <==> x in ss && p(x)
  {
    forall x ensures x in Keep(ss, p) <==> x in ss && p(x) { KeepMember(ss, p, x); }
    if ss != [] {
      TailPrefixFree(ss);
      KeepPrefixFree(ss[1..], p);
      forall x | x in Keep(ss[1..], p) ensures Apart(ss[0].path, x.path) { KeepMember(ss[1..], p, x); }
    }
  }

  /** Overrides that read back already may be left out. */
  lemma {:induction false} LeaveOut(d: Data, ss: seq<Setting>, p: Setting -> bool)
    requires PrefixFree(ss) && forall x :: x in ss && !p(x) ==> Get(d, x.path) == Some(x.value)
    ensures (forall x :: x in Keep(ss, p) ==> x.path != []) && SetAll(d, ss) == SetAll(d, Keep(ss, p))
    decreases |ss|
  {
    KeepPrefixFree(ss, p);
    if ss != [] {
      var first, rest := ss[0], ss[1..];
      TailPrefixFree(ss);
      KeepPrefixFree(rest, p);
      if p(first) {
        var d' := Set(d, first.path, first.value);
        forall x | x in rest && !p(x) ensures Get(d', x.path) == Some(x.value) {
          GetSetApart(d, first.path, first.value, x.path);
        }
        LeaveOut(d', rest, p);
        assert Keep(ss, p) == [first] + Keep(rest, p) && Keep(ss, p)[1..] == Keep(rest, p);
      } else {
        SetSame(d, first.path, first.value);
        LeaveOut(d, rest, p);
        assert Keep(ss, p) == [] + Keep(rest, p) == Keep(rest, p);
      }
    }
  }

  lemma {:induction false} KeepCount(ss: seq<Setting>, p: Setting -> bool, x: Setting)
    ensures multiset(Keep(ss, p))[x] == if p(x) then multiset(ss)[x] else 0
  {
    if ss != [] {
      KeepCount(ss[1..], p, x);
      assert ss == [ss[0]] + ss[1..];
    }
  }

  /** The step's own override can be taken out of the resets and applied last. */
  lemma ResetLast(e: Data, ss: seq<Setting>, st: Step, rest: seq<Step>, x: Setting)
    requires PrefixFree(ss) && x in ss && Targets(st, x.path) && !AnyTargets(rest, x.path)
    ensures PrefixFree(Resets(ss, rest)) && PrefixFree(Resets(ss, [st] + rest))
    ensures SetAll(e, Resets(ss, [st] + rest)) == Set(SetAll(e, Resets(ss, rest)), x.path, x.value)
  {
    var p1 := (y: Setting) => AnyTargets([st] + rest, y.path);
    var p2 := (y: Setting) => AnyTargets(rest, y.path);
    KeepPrefixFree(ss, p1);
    KeepPrefixFree(ss, p2);
    var a, b := Resets(ss, [st] + rest), Resets(ss, rest) + [x];
    forall y ensures multiset(a)[y] == multiset(b)[y] {
      KeepCount(ss, p1, y);
      KeepCount(ss, p2, y);
      AtMostOnce(ss, y);
      assert AnyTargets([st] + rest, y.path) <==> Targets(st, y.path) || AnyTargets(rest, y.path);
      if y in ss && Targets(st, y.path) && y != x { SamePathSame(ss, x, y); }
    }
    assert multiset(a) == multiset(b);
    OrderDoesNotMatter(e, a, b);
    SetAllSnoc(e, Resets(ss, rest), x);
  }

  lemma SamePathSame(ss: seq<Setting>, x: Setting, y: Setting)
    requires PrefixFree(ss) && x in ss && y in ss && x.path == y.path
    ensures x == y
  {
    var i :| 0 <= i < |ss| && ss[i] == x;
    var j :| 0 <= j < |ss| && ss[j] == y;
    assert !Apart(x.path, y.path) && !Apart(y.path, x.path);
  }

  /** After the resets of the remaining steps, what a step reads and writes is as in the settled data. */
  lemma ResetsFrame(e: Data, ss: seq<Setting>, rest: seq<Step>, q: Path)
    requires PrefixFree(ss) && q != [] && AllOk(rest)
    requires forall st :: st in rest && !st.Open? ==> Apart(st.target, q)
    ensures PrefixFree(Resets(ss, rest)) && Get(SetAll(e, Resets(ss, rest)), q) == Get(e, q)
  {
    var p := (y: Setting) => AnyTargets(rest, y.path);
    KeepPrefixFree(ss, p);
    ReadsBack(e, Resets(ss, rest), q);
  }

  lemma SameResets(ss: seq<Setting>, st: Step, rest: seq<Step>)
    requires forall x :: x in ss ==> !Targets(st, x.path)
    ensures Resets(ss, [st] + rest) == Resets(ss, rest)
  {
    KeepSame(ss, (y: Setting) => AnyTargets([st] + rest, y.path), (y: Setting) => AnyTargets(rest, y.path));
  }

  lemma {:induction false} SetAllKeepsSections(d: Data, ss: seq<Setting>, s: string)
    requires (forall x :: x in ss ==> x.path != [] && x.path != [s]) && s in d && d[s].Dict?
    ensures s in SetAll(d, ss) && SetAll(d, ss)[s].Dict?
    decreases |ss|
  {
    if ss != [] {
      SetKeepsSections(d, ss[0].path, ss[0].value, s);
      SetAllKeepsSections(Set(d, ss[0].path, ss[0].value), ss[1..], s);
    }
  }

  /** A settled step undoes the reset of its own target. */
  lemma RedoOne(e: Data, base: Data, st: Step, ss: seq<Setting>, x: Setting, ops: PathOps)
    requires !st.Open? && StepOk(st) && Settled(st, ss, e, ops) && x in ss && Targets(st, x.path) && PathLaws(ops)
    requires Get(base, st.target) == Get(e, st.target)
    requires st.Fill? ==> Get(base, st.source) == Get(e, st.source)
    ensures Do(st, Set(base, x.path, x.value), ops) == base
  {
    var t := st.target;
    var reset := Set(base, t, x.value);
    GetSet(base, t, x.value);
    if st.Fill? {
      GetSetApart(base, t, x.value, st.source);
      if !Truthy(x.value) && Holds(Get(e, st.source)) {
        SetTwice(base, t, x.value, Get(e, st.source).value);
      }
    } else {
      SetTwice(base, t, x.value, Normal(x.value, ops));
    }
    SetSame(base, t, Get(e, t).value);
  }

  lemma {:induction false} Redo(e: Data, steps: seq<Step>, ss: seq<Setting>, ops: PathOps)
    requires SpreadOut(steps) && PrefixFree(ss) && PathLaws(ops)
    requires forall st :: st in steps ==> Settled(st, ss, e, ops) && Compatible(ss, st)
    ensures PrefixFree(Resets(ss, steps)) && Steps(steps, SetAll(e, Resets(ss, steps)), ops) == e
    decreases |steps|
  {
    KeepPrefixFree(ss, (y: Setting) => AnyTargets(steps, y.path));
    if steps == [] {
      KeepNone(ss, (y: Setting) => AnyTargets(steps, y.path));
    } else {
      var first, rest := steps[0], steps[1..];
      assert steps == [first] + rest && first in steps;
      TailSpreadOut(steps);
      Redo(e, rest, ss, ops);
      var base := SetAll(e, Resets(ss, rest));
      forall l | l in rest ensures Spares(l, first) {
        var j :| 0 <= j < |rest| && rest[j] == l;
        assert Spares(steps[j + 1], steps[0]);
      }
      RedoFirst(e, first, rest, ss, ops);
    }
  }

  lemma RedoFirst(e: Data, first: Step, rest: seq<Step>, ss: seq<Setting>, ops: PathOps)
    requires StepOk(first) && AllOk(rest) && PrefixFree(ss) && PathLaws(ops)
    requires Settled(first, ss, e, ops) && Compatible(ss, first) && forall l :: l in rest ==> Spares(l, first)
    ensures PrefixFree(Resets(ss, rest)) && PrefixFree(Resets(ss, [first] + rest))
    ensures Do(first, SetAll(e, Resets(ss, [first] + rest)), ops) == SetAll(e, Resets(ss, rest))
  {
    KeepPrefixFree(ss, (y: Setting) => AnyTargets([first] + rest, y.path));
    KeepPrefixFree(ss, (y: Setting) => AnyTargets(rest, y.path));
    var base := SetAll(e, Resets(ss, rest));
    if first.Open? {
      SameResets(ss, first, rest);
      SetAllKeepsSections(e, Resets(ss, rest), first.section);
    } else {
      ResetsFrame(e, ss, rest, first.target);
      if first.Fill? { ResetsFrame(e, ss, rest, first.source); }
      if x :| x in ss && Targets(first, x.path) {
        ResetLast(e, ss, first, rest, x);
        RedoOne(e, base, first, ss, x, ops);
      } else {
        SameResets(ss, first, rest);
        if first.Normalise? && Holds(Get(base, first.target)) { SetSame(base, first.target, Get(base, first.target).value); }
      }
    }
  }

  /** Overrides, then the steps. */
  function Loaded(d: Data, ss: seq<Setting>, steps: seq<Step>, ops: PathOps): Data
    requires (forall s :: s in ss ==> s.path != []) && forall st :: st in steps ==> StepOk(st)
  {
    Steps(steps, SetAll(d, ss), ops)
  }

  /** Loading what was loaded changes nothing: for any data, any settings that are prefix-free and meet
      the steps at whole paths, and any steps that do not write behind each other's back. */
  lemma LoadingTwice(d: Data, ss: seq<Setting>, steps: seq<Step>, ops: PathOps)
    requires PrefixFree(ss) && SpreadOut(steps) && PathLaws(ops)
    requires forall st :: st in steps ==> Compatible(ss, st)
    ensures Loaded(Loaded(d, ss, steps, ops), ss, steps, ops) == Loaded(d, ss, steps, ops)
  {
    var o := SetAll(d, ss);
    var e := Steps(steps, o, ops);
    forall x | x in ss ensures Get(o, x.path) == Some(x.value) { ReadsBack(d, ss, x.path); }
    StepsSettle(steps, ss, o, ops);
    var p := (x: Setting) => AnyTargets(steps, x.path);
    forall x | x in ss && !p(x) ensures Get(e, x.path) == Some(x.value) {
      forall st | st in steps ensures if st.Open? then x.path != [st.section] else Apart(st.target, x.path) {
        assert Compatible(ss, st) && !Targets(st, x.path);
      }
      StepsFrame(steps, o, x.path, ops);
    }
    LeaveOut(e, ss, p);
    Redo(e, steps, ss, ops);
  }

  // ----- what inheritance gives and keeps -----

  /** The first of two values that is not empty, the own one when both are. */
  function Pick(own: Option<Value>, inherited: Option<Value>): Option<Value> {
    if !Holds(own) && Holds(inherited) then inherited else own
  }

  lemma FillPicks(t: Path, s: Path, d: Data, ops: PathOps)
    requires StepOk(Fill(t, s))
    ensures Get(Do(Fill(t, s), d, ops), t) == Pick(Get(d, t), Get(d, s))
  {
    if Holds(Get(d, s)) { GetSet(d, t, Get(d, s).value); }
  }

  lemma UnfoldInheritance(d: Data, ops: PathOps) returns (d2: Data, d3: Data, d4: Data, d5: Data)
    ensures AllOk(INHERITANCE)
    ensures StepOk(Fill(LLM_KEY, COGNEE_KEY)) && StepOk(Fill(COMPACTION_KEY, LLM_KEY))
    ensures StepOk(Fill(SUCCESSFUL_USE_KEY, LLM_KEY)) && StepOk(Fill(COMPACTION_ENDPOINT, LLM_ENDPOINT))
    ensures d2 == Do(Open("llm"), Do(Open("cognee"), d, ops), ops)
    ensures d3 == Do(Fill(LLM_KEY, COGNEE_KEY), d2, ops)
    ensures d4 == Do(Fill(COMPACTION_KEY, LLM_KEY), d3, ops)
    ensures d5 == Do(Fill(SUCCESSFUL_USE_KEY, LLM_KEY), d4, ops)
    ensures Steps(INHERITANCE, d, ops) == Do(Fill(COMPACTION_ENDPOINT, LLM_ENDPOINT), d5, ops)
  {
    PipelineOk();
    SixSteps(Open("cognee"), Open("llm"), Fill(LLM_KEY, COGNEE_KEY), Fill(COMPACTION_KEY, LLM_KEY),
             Fill(SUCCESSFUL_USE_KEY, LLM_KEY), Fill(COMPACTION_ENDPOINT, LLM_ENDPOINT), d, ops);
    d2 := Do(Open("llm"), Do(Open("cognee"), d, ops), ops);
    d3 := Do(Fill(LLM_KEY, COGNEE_KEY), d2, ops);
    d4 := Do(Fill(COMPACTION_KEY, LLM_KEY), d3, ops);
    d5 := Do(Fill(SUCCESSFUL_USE_KEY, LLM_KEY), d4, ops);
  }

  lemma KeysApart()
    ensures Apart(LLM_KEY, COGNEE_KEY) && Apart(COMPACTION_KEY, LLM_KEY) && Apart(SUCCESSFUL_USE_KEY, LLM_KEY)
    ensures Apart(COMPACTION_KEY, SUCCESSFUL_USE_KEY) && Apart(COMPACTION_KEY, COMPACTION_ENDPOINT)
    ensures Apart(SUCCESSFUL_USE_KEY, COMPACTION_ENDPOINT) && Apart(LLM_KEY, COMPACTION_ENDPOINT)
    ensures Apart(LLM_ENDPOINT, LLM_KEY) && Apart(LLM_ENDPOINT, COMPACTION_KEY) && Apart(LLM_ENDPOINT, SUCCESSFUL_USE_KEY)
  {
    assert LLM_KEY[0] != COGNEE_KEY[0] && COMPACTION_KEY[0] != LLM_KEY[0] && SUCCESSFUL_USE_KEY[0] != LLM_KEY[0];
    assert COMPACTION_KEY[0] != SUCCESSFUL_USE_KEY[0] && COMPACTION_KEY[1] != COMPACTION_ENDPOINT[1];
    assert LLM_ENDPOINT[1] != LLM_KEY[1];
  }

  /** The chain of keys: each consumer ends with its own key, else the LLM key, else the embedding key. */
  lemma InheritedKeys(d: Data, ops: PathOps)
    ensures AllOk(INHERITANCE)
    ensures var r := Steps(INHERITANCE, d, ops);
            var llm := Pick(Get(d, LLM_KEY), Get(d, COGNEE_KEY));
            && Get(r, LLM_KEY) == llm
            && Get(r, COMPACTION_KEY) == Pick(Get(d, COMPACTION_KEY), llm)
            && Get(r, SUCCESSFUL_USE_KEY) == Pick(Get(d, SUCCESSFUL_USE_KEY), llm)
            && Get(r, COMPACTION_ENDPOINT) == Pick(Get(d, COMPACTION_ENDPOINT), Get(d, LLM_ENDPOINT))
  {
    var d2, d3, d4, d5 := UnfoldInheritance(d, ops);
    KeysApart();
    OpensInvisible(d, LLM_KEY, ops);
    OpensInvisible(d, COGNEE_KEY, ops);
    OpensInvisible(d, COMPACTION_KEY, ops);
    OpensInvisible(d, SUCCESSFUL_USE_KEY, ops);
    OpensInvisible(d, COMPACTION_ENDPOINT, ops);
    OpensInvisible(d, LLM_ENDPOINT, ops);
    FillPicks(LLM_KEY, COGNEE_KEY, d2, ops);
    Frame4(Fill(LLM_KEY, COGNEE_KEY), d2, COMPACTION_KEY, SUCCESSFUL_USE_KEY, COMPACTION_ENDPOINT, LLM_ENDPOINT, ops);
    FillPicks(COMPACTION_KEY, LLM_KEY, d3, ops);
    Frame4(Fill(COMPACTION_KEY, LLM_KEY), d3, LLM_KEY, SUCCESSFUL_USE_KEY, COMPACTION_ENDPOINT, LLM_ENDPOINT, ops);
    FillPicks(SUCCESSFUL_USE_KEY, LLM_KEY, d4, ops);
    Frame4(Fill(SUCCESSFUL_USE_KEY, LLM_KEY), d4, LLM_KEY, COMPACTION_KEY, COMPACTION_ENDPOINT, LLM_ENDPOINT, ops);
    FillPicks(COMPACTION_ENDPOINT, LLM_ENDPOINT, d5, ops);
    Frame4(Fill(COMPACTION_ENDPOINT, LLM_ENDPOINT), d5, LLM_KEY, COMPACTION_KEY, SUCCESSFUL_USE_KEY, SUCCESSFUL_USE_KEY, ops);
  }

  lemma OpensInvisible(d: Data, q: Path, ops: PathOps)
    requires |q| == 2
    ensures Get(Do(Open("llm"), Do(Open("cognee"), d, ops), ops), q) == Get(d, q)
  {
    OpenInvisible("cognee", d, q, ops);
    OpenInvisible("llm", Do(Open("cognee"), d, ops), q, ops);
  }

  lemma Frame4(st: Step, d: Data, a: Path, b: Path, c: Path, e: Path, ops: PathOps)
    requires StepOk(st) && !st.Open? && a != [] && b != [] && c != [] && e != []
    requires Apart(st.target, a) && Apart(st.target, b) && Apart(st.target, c) && Apart(st.target, e)
    ensures Get(Do(st, d, ops), a) == Get(d, a) && Get(Do(st, d, ops), b) == Get(d, b)
    ensures Get(Do(st, d, ops), c) == Get(d, c) && Get(Do(st, d, ops), e) == Get(d, e)
  {
    DoFrame(st, d, a, ops);
    DoFrame(st, d, b, ops);
    DoFrame(st, d, c, ops);
    DoFrame(st, d, e, ops);
  }

  /** The step's sections are dictionaries where they exist, as in any dumped model. */
  ghost predicate SectionsOk(st: Step, d: Data) {
    match st
    case Open(s) => s in d ==> d[s].Dict?
    case Fill(t, _) => |t| == 2 && (t[0] in d ==> d[t[0]].Dict?)
    case Normalise(_) => false
  }

  /** A value found below a path means a non-empty dictionary at that path. */
  lemma {:induction false} BelowMeansDict(d: Data, t: Path, q: Path)
    requires t != [] && t < q && Get(d, q).Some?
    ensures Holds(Get(d, t))
    decreases |t|
  {
    if |t| == 1 {
      GetNeedsDict(d, q);
    } else {
      assert t[1..] < q[1..] && q[0] == t[0];
      BelowMeansDict(Sub(d, t[0]), t[1..], q[1..]);
    }
  }

  lemma GetNeedsDict(d: Data, q: Path)
    requires |q| > 1 && Get(d, q).Some?
    ensures q[0] in d && Truthy(d[q[0]])
  {
    if Sub(d, q[0]) == map[] { GetEmpty(q[1..]); }
  }

  lemma PrefixOfPair(q: Path, t: Path)
    requires q != [] && q <= t && |t| == 2
    ensures q == t || q == [t[0]]
  {
  }

  lemma DoKeepsValue(st: Step, d: Data, q: Path, v: Value, ops: PathOps)
    requires StepOk(st) && SectionsOk(st, d) && q != [] && Get(d, q) == Some(v) && Truthy(v) && !v.Dict?
    ensures Get(Do(st, d, ops), q) == Some(v)
  {
    assert |q| == 1 ==> q[0] in d && d[q[0]] == v;
    match st
    case Open(s) =>
      OpenInvisible(s, d, q, ops);
    case Fill(t, s) =>
      if t < q {
        BelowMeansDict(d, t, q);
      } else if !(q <= t) {
        DoFrame(st, d, q, ops);
      } else {
        PrefixOfPair(q, t);
      }
  }

  lemma DoKeepsSectionsOk(st: Step, next: Step, d: Data, ops: PathOps)
    requires StepOk(st) && StepOk(next) && SectionsOk(st, d) && SectionsOk(next, d)
    ensures SectionsOk(next, Do(st, d, ops))
  {
  }

  lemma {:induction false} StepsKeepValue(steps: seq<Step>, d: Data, q: Path, v: Value, ops: PathOps)
    requires AllOk(steps) && (forall st :: st in steps ==> SectionsOk(st, d))
    requires q != [] && Get(d, q) == Some(v) && Truthy(v) && !v.Dict?
    ensures Get(Steps(steps, d, ops), q) == Some(v)
    decreases |steps|
  {
    if steps != [] {
      assert steps[0] in steps;
      DoKeepsValue(steps[0], d, q, v, ops);
      forall st | st in steps[1..] ensures SectionsOk(st, Do(steps[0], d, ops)) {
        DoKeepsSectionsOk(steps[0], st, d, ops);
      }
      StepsKeepValue(steps[1..], Do(steps[0], d, ops), q, v, ops);
    }
  }

  /** Inheritance never replaces a non-empty value, wherever it stands. */
  lemma InheritanceKeepsValues(d: Data, q: Path, v: Value, ops: PathOps)
    requires forall s :: s in ["cognee", "llm", "compaction_llm", "successful_use"] ==> s in d ==> d[s].Dict?
    requires q != [] && Get(d, q) == Some(v) && Truthy(v) && !v.Dict?
    ensures AllOk(INHERITANCE) && Get(Steps(INHERITANCE, d, ops), q) == Some(v)
  {
    PipelineOk();
    var sections := ["cognee", "llm", "compaction_llm", "successful_use"];
    assert sections[0] in sections && sections[1] in sections && sections[2] in sections && sections[3] in sections;
    StepsKeepValue(INHERITANCE, d, q, v, ops);
  }

  // ----- the real steps -----

  const PIPELINE: seq<Step> := INHERITANCE + NORMALISING

  lemma InheritanceSpreadOut()
    ensures SpreadOut(INHERITANCE)
  {
    PipelineOk();
    KeysApart();
  }

  lemma NormalisingSpreadOut()
    ensures SpreadOut(NORMALISING)
  {
    PipelineOk();
    assert forall i :: 1 <= i < |NORMALISING| ==> NORMALISING[i].Normalise? && |NORMALISING[i].target| == 2;
    forall i, j | 1 <= i < j < |NORMALISING| ensures Apart(NORMALISING[j].target, NORMALISING[i].target) {
      assert NORMALISING[i].target[1] != NORMALISING[j].target[1];
    }
  }

  lemma PipelineSpreadOut()
    ensures SpreadOut(PIPELINE)
  {
    PipelineOk();
    InheritanceSpreadOut();
    NormalisingSpreadOut();
    var n := |INHERITANCE|;
    forall i, j | 0 <= i < j < |PIPELINE| ensures Spares(PIPELINE[j], PIPELINE[i]) {
      if j < n {
        assert Spares(INHERITANCE[j], INHERITANCE[i]);
      } else if i >= n {
        assert Spares(NORMALISING[j - n], NORMALISING[i - n]);
      } else {
        AuditApart(INHERITANCE[i], NORMALISING[j - n]);
      }
    }
  }

  lemma AuditApart(a: Step, b: Step)
    requires a in INHERITANCE && b in NORMALISING
    ensures Spares(b, a)
  {
    NormalisingInAudit(b);
    InheritanceOutsideAudit(a);
  }

  lemma NormalisingInAudit(b: Step)
    requires b in NORMALISING
    ensures b.Open? || (b.Normalise? && |b.target| == 2 && b.target[0] == "audit")
  {
  }

  lemma InheritanceOutsideAudit(a: Step)
    requires a in INHERITANCE
    ensures a.Open?
            || (a.Fill? && |a.target| == 2 && a.target[0] != "audit" && |a.source| == 2 && a.source[0] != "audit")
  {
  }

  // ----- what inheritance and normalising leave, path by path -----

  /** The first value of a chain that is set; with none set, what the consumer itself has. */
  predicate FirstSet(r: Option<Value>, own: Option<Value>, llm: Option<Value>, embedding: Option<Value>) {
    && (Holds(own) ==> r == own)
    && (!Holds(own) && Holds(llm) ==> r == llm)
    && (!Holds(own) && !Holds(llm) && Holds(embedding) ==> r == embedding)
    && (!Holds(own) && !Holds(llm) && !Holds(embedding) ==> r == own)
  }

  /** The LLM key is its own or the embedding key; the compaction and successful-use keys are their own, else the
      LLM key, else the embedding key; the compaction endpoint is its own or the LLM endpoint. */
  lemma InheritanceExactly(d: Data, ops: PathOps)
    ensures AllOk(INHERITANCE)
    ensures var r, embedding, llm := Steps(INHERITANCE, d, ops), Get(d, ["cognee", "embedding_api_key"]), Get(d, ["llm", "api_key"]);
            && FirstSet(Get(r, ["llm", "api_key"]), llm, None, embedding)
            && FirstSet(Get(r, ["compaction_llm", "api_key"]), Get(d, ["compaction_llm", "api_key"]), llm, embedding)
            && FirstSet(Get(r, ["successful_use", "api_key"]), Get(d, ["successful_use", "api_key"]), llm, embedding)
            && FirstSet(Get(r, ["compaction_llm", "endpoint"]), Get(d, ["compaction_llm", "endpoint"]), Get(d, ["llm", "endpoint"]), None)
  {
    InheritedKeys(d, ops);
  }

  /** All other paths below the top level stay. */
  lemma InheritanceFrame(d: Data, ops: PathOps, q: Path)
    requires |q| >= 2 && Apart(LLM_KEY, q) && Apart(COMPACTION_KEY, q) && Apart(SUCCESSFUL_USE_KEY, q) && Apart(COMPACTION_ENDPOINT, q)
    ensures AllOk(INHERITANCE) && Get(Steps(INHERITANCE, d, ops), q) == Get(d, q)
  {
    PipelineOk();
    StepsFrame(INHERITANCE, d, q, ops);
  }

  lemma {:induction false} NormalisedOnce(steps: seq<Step>, d: Data, t: Path, ops: PathOps)
    requires SpreadOut(steps) && Normalise(t) in steps && (forall st :: st in steps ==> !st.Fill?)
    requires |t| >= 2 && forall i :: 0 <= i < |steps| && steps[i].Normalise? && steps[i].target != t ==> Apart(steps[i].target, t)
    ensures Get(Steps(steps, d, ops), t) == if Holds(Get(d, t)) then Some(Normal(Get(d, t).value, ops)) else Get(d, t)
    decreases |steps|
  {
    TailSpreadOut(steps);
    assert steps == [steps[0]] + steps[1..];
    var next := Do(steps[0], d, ops);
    assert forall i :: 0 <= i < |steps| - 1 ==> steps[1..][i] == steps[i + 1];
    if steps[0] == Normalise(t) {
      if Holds(Get(d, t)) { GetSet(d, t, Normal(Get(d, t).value, ops)); }
      forall st | st in steps[1..] ensures if st.Open? then t != [st.section] else Apart(st.target, t) {
        var i :| 0 <= i < |steps| - 1 && steps[1..][i] == st;
        assert Spares(steps[i + 1], steps[0]);
      }
      StepsFrame(steps[1..], next, t, ops);
    } else {
      DoFrame(steps[0], d, t, ops);
      NormalisedOnce(steps[1..], next, t, ops);
    }
  }

  const DB_PATHS := ["procedure_audit_db_path", "session_goal_audit_db_path", "org_overrides_db_path",
                     "authority_rules_db_path", "consolidation_reports_db_path", "tuning_deltas_db_path",
                     "scoring_ledger_db_path"]

  /** Each of the seven database paths that is set becomes the text of its expanded path, below the state
      directory unless that is absolute; an empty one stays. */
  lemma NormalisingExactly(d: Data, ops: PathOps, i: nat)
    requires i < 7
    ensures AllOk(NORMALISING)
    ensures var own, r := Get(d, ["audit", DB_PATHS[i]]), Get(Steps(NORMALISING, d, ops), ["audit", DB_PATHS[i]]);
            && (Holds(own) ==>
                  var p := ops.expand(ops.asText(own.value));
                  r == Some(Str(if IsAbsolute(p) then p else ops.join(p))))
            && (!Holds(own) ==> r == own)
  {
    NormalisingSpreadOut();
    PathsListed();
    var t := ["audit", DB_PATHS[i]];
    assert NORMALISING[i + 1] in NORMALISING;
    forall k | 0 <= k < |NORMALISING| && NORMALISING[k].Normalise? && NORMALISING[k].target != t
      ensures Apart(NORMALISING[k].target, t)
    {
      TwoApart(DB_PATHS[k - 1], DB_PATHS[i]);
    }
    NormalisedOnce(NORMALISING, d, t, ops);
  }

  /** Every other path below the top level stays. */
  lemma NormalisingFrame(d: Data, ops: PathOps, q: Path)
    requires |q| >= 2 && forall k :: 0 <= k < 7 ==> Apart(["audit", DB_PATHS[k]], q)
    ensures AllOk(NORMALISING) && Get(Steps(NORMALISING, d, ops), q) == Get(d, q)
  {
    PipelineOk();
    PathsListed();
    forall st | st in NORMALISING ensures if st.Open? then q != [st.section] else Apart(st.target, q) {
      var k :| 0 <= k < |NORMALISING| && NORMALISING[k] == st;
      if k > 0 { assert st.target == ["audit", DB_PATHS[k - 1]]; }
    }
    StepsFrame(NORMALISING, d, q, ops);
  }

  lemma TwoApart(a: string, b: string)
    requires a != b
    ensures Apart(["audit", a], ["audit", b])
  {
    assert ["audit", a][1] != ["audit", b][1];
  }

  lemma PathsListed()
    ensures |NORMALISING| == 8 && NORMALISING[0] == Open("audit")
    ensures forall k :: 1 <= k < 8 ==> NORMALISING[k] == Normalise(["audit", DB_PATHS[k - 1]])
  {
  }
}
