/** The override engine of `schemas/config.py`: environment overrides along dotted paths, inheritance
    chains and path normalising over a nested dictionary. */
module ConfigOverrides {
  import opened Basics
  import opened Messages

  datatype Value = Null | Str(s: string) | Int(n: int) | Float(r: real) | Bool(b: bool) | Dict(fields: map<string, Value>)

  type Data = map<string, Value>
  type Path = seq<string>

  predicate Truthy(v: Value) {
    match v
    case Null => false
    case Str(s) => s != ""
    case Int(n) => n != 0
    case Float(r) => r != 0.0
    case Bool(b) => b
    case Dict(fields) => fields != map[]
  }

  predicate Holds(v: Option<Value>) { v.Some? && Truthy(v.value) }

  // ----- nested access -----

  /** The dictionary under a key; anything else there counts as an empty one. */
  function Sub(d: Data, key: string): Data {
    if key in d && d[key].Dict? then d[key].fields else map[]
  }

  /** `_set_nested`. */
  function Set(d: Data, path: Path, v: Value): Data
    requires path != []
    decreases |path|
  {
    if |path| == 1 then d[path[0] := v]
    else d[path[0] := Dict(Set(Sub(d, path[0]), path[1..], v))]
  }

  function Get(d: Data, path: Path): Option<Value>
    requires path != []
    decreases |path|
  {
    if |path| == 1 then (if path[0] in d then Some(d[path[0]]) else None)
    else Get(Sub(d, path[0]), path[1..])
  }

  /** Neither path runs through the other. */
  predicate Apart(p: Path, q: Path) { !(p <= q) && !(q <= p) }

  lemma {:induction false} GetSet(d: Data, p: Path, v: Value)
    requires p != []
    ensures Get(Set(d, p, v), p) == Some(v)
    decreases |p|
  {
    if |p| > 1 { GetSet(Sub(d, p[0]), p[1..], v); }
  }

  lemma ApartTails(p: Path, q: Path)
    requires p != [] && q != [] && p[0] == q[0]
    ensures Apart(p, q) <==> Apart(p[1..], q[1..])
  {
    assert p == [p[0]] + p[1..] && q == [q[0]] + q[1..];
  }

  lemma {:induction false} GetSetApart(d: Data, p: Path, v: Value, q: Path)
    requires p != [] && q != [] && Apart(p, q)
    ensures Get(Set(d, p, v), q) == Get(d, q)
    decreases |p|
  {
    if p[0] == q[0] {
      ApartTails(p, q);
      GetSetApart(Sub(d, p[0]), p[1..], v, q[1..]);
    }
  }

  lemma SetSub(d: Data, p: Path, v: Value, key: string)
    requires |p| > 1
    ensures Sub(Set(d, p, v), key) == if key == p[0] then Set(Sub(d, key), p[1..], v) else Sub(d, key)
  {
  }

  lemma SetElsewhere(d: Data, p: Path, v: Value, key: string, x: Value)
    requires p != [] && key != p[0]
    ensures Set(d[key := x], p, v) == Set(d, p, v)[key := x]
  {
    assert Sub(d[key := x], p[0]) == Sub(d, p[0]);
  }

  lemma {:induction false} SetCommutes(d: Data, p: Path, v: Value, q: Path, w: Value)
    requires p != [] && q != [] && Apart(p, q)
    ensures Set(Set(d, p, v), q, w) == Set(Set(d, q, w), p, v)
    decreases |p|
  {
    if p[0] == q[0] {
      ApartTails(p, q);
      assert |p| > 1 && |q| > 1;
      SetSub(d, p, v, q[0]);
      SetSub(d, q, w, p[0]);
      SetCommutes(Sub(d, p[0]), p[1..], v, q[1..], w);
      DeepTwice(d, p, v, q, w);
      DeepTwice(d, q, w, p, v);
    } else {
      SetHead(d, p, v);
      SetHead(Set(d, q, w), p, v);
      SetElsewhere(d, q, w, p[0], Set(d, p, v)[p[0]]);
      SetOther(d, q, w, p);
      SetSameHead(d, q, w, p, v);
    }
  }

  /** A nested update is an update of the first key. */
  lemma SetHead(d: Data, p: Path, v: Value)
    requires p != []
    ensures p[0] in Set(d, p, v) && Set(d, p, v) == d[p[0] := Set(d, p, v)[p[0]]]
  {
  }

  lemma SetOther(d: Data, q: Path, w: Value, p: Path)
    requires p != [] && q != [] && p[0] != q[0]
    ensures Sub(Set(d, q, w), p[0]) == Sub(d, p[0])
  {
  }

  lemma SetSameHead(d: Data, q: Path, w: Value, p: Path, v: Value)
    requires p != [] && q != [] && p[0] != q[0]
    ensures p[0] in Set(Set(d, q, w), p, v) && p[0] in Set(d, p, v)
    ensures Set(Set(d, q, w), p, v)[p[0]] == Set(d, p, v)[p[0]]
  {
    SetOther(d, q, w, p);
  }

  lemma DeepTwice(d: Data, p: Path, v: Value, q: Path, w: Value)
    requires |p| > 1 && |q| > 1 && p[0] == q[0]
    ensures Set(Set(d, p, v), q, w) == d[p[0] := Dict(Set(Set(Sub(d, p[0]), p[1..], v), q[1..], w))]
  {
    SetSub(d, p, v, q[0]);
  }

  lemma {:induction false} SetTwice(d: Data, p: Path, v: Value, w: Value)
    requires p != []
    ensures Set(Set(d, p, v), p, w) == Set(d, p, w)
    decreases |p|
  {
    if |p| > 1 { SetTwice(Sub(d, p[0]), p[1..], v, w); }
  }

  lemma {:induction false} SetSame(d: Data, p: Path, v: Value)
    requires p != [] && Get(d, p) == Some(v)
    ensures Set(d, p, v) == d
    decreases |p|
  {
    if |p| > 1 {
      SetSame(Sub(d, p[0]), p[1..], v);
      if !(p[0] in d && d[p[0]].Dict?) { GetEmpty(p[1..]); }
    }
  }

  lemma {:induction false} GetEmpty(p: Path)
    requires p != []
    ensures Get(map[], p) == None
  {
    if |p| > 1 { GetEmpty(p[1..]); }
  }

  // ----- overrides -----

  datatype Setting = Setting(path: Path, value: Value)

  function SetAll(d: Data, ss: seq<Setting>): Data
    requires forall s :: s in ss ==> s.path != []
    decreases |ss|
  {
    if ss == [] then d else SetAll(Set(d, ss[0].path, ss[0].value), ss[1..])
  }

  ghost predicate PrefixFree(ss: seq<Setting>) {
    && (forall s :: s in ss ==> s.path != [])
    && forall i, j :: 0 <= i < j < |ss| ==> Apart(ss[i].path, ss[j].path)
  }

  lemma TailPrefixFree(ss: seq<Setting>)
    requires PrefixFree(ss) && ss != []
    ensures PrefixFree(ss[1..]) && forall s :: s in ss[1..] ==> Apart(ss[0].path, s.path)
  {
  }

  /** A setting apart from all the others may be applied first or last. */
  lemma {:induction false} SetFirstOrLast(d: Data, s: Setting, ss: seq<Setting>)
    requires PrefixFree(ss) && s.path != [] && forall t :: t in ss ==> Apart(s.path, t.path)
    ensures SetAll(Set(d, s.path, s.value), ss) == Set(SetAll(d, ss), s.path, s.value)
    decreases |ss|
  {
    if ss != [] {
      TailPrefixFree(ss);
      SetCommutes(d, s.path, s.value, ss[0].path, ss[0].value);
      SetFirstOrLast(Set(d, ss[0].path, ss[0].value), s, ss[1..]);
    }
  }

  lemma {:induction false} SetAllAppend(d: Data, a: seq<Setting>, b: seq<Setting>)
    requires forall s :: s in a + b ==> s.path != []
    ensures forall s :: s in a ==> s in a + b
    ensures forall s :: s in b ==> s in a + b
    ensures SetAll(d, a + b) == SetAll(SetAll(d, a), b)
    decreases |a|
  {
    assert forall s :: s in a ==> s in a + b;
    assert forall s :: s in b ==> s in a + b;
    if a == [] {
      assert a + b == b;
    } else {
      assert (a + b)[1..] == a[1..] + b && (a + b)[0] == a[0];
      assert forall s :: s in a[1..] + b ==> s in a + b;
      SetAllAppend(Set(d, a[0].path, a[0].value), a[1..], b);
    }
  }

  lemma BringForward(d: Data, a: seq<Setting>, s: Setting, b: seq<Setting>)
    requires PrefixFree(a) && s.path != [] && (forall t :: t in a ==> Apart(s.path, t.path))
    requires forall t :: t in b ==> t.path != []
    ensures forall t :: t in a + [s] + b ==> t.path != []
    ensures forall t :: t in a + b ==> t.path != []
    ensures SetAll(d, a + [s] + b) == SetAll(Set(d, s.path, s.value), a + b)
  {
    SetFirstOrLast(d, s, a);
    SetAllAppend(Set(d, s.path, s.value), a, b);
    SetAllAppend(d, a + [s], b);
    SetAllAppend(d, a, [s]);
    assert SetAll(SetAll(d, a), [s]) == Set(SetAll(d, a), s.path, s.value);
  }

  /** Prefix-free settings may be applied in any order. */
  lemma {:induction false} OrderDoesNotMatter(d: Data, ss: seq<Setting>, ts: seq<Setting>)
    requires PrefixFree(ss) && multiset(ss) == multiset(ts)
    ensures (forall s :: s in ts ==> s.path != []) && SetAll(d, ss) == SetAll(d, ts)
    decreases |ss|
  {
    SameMembers(ss, ts);
    if ss != [] {
      var a, b := RemoveOne(ss, ts);
      TailPrefixFree(ss);
      SameMembers(ss[1..], a + b);
      OrderDoesNotMatter(Set(d, ss[0].path, ss[0].value), ss[1..], a + b);
      SubsetPrefixFree(ss[1..], a, b);
      assert forall t :: t in a ==> t in a + b;
      BringForward(d, a, ss[0], b);
    }
  }

  lemma SameMembers(ss: seq<Setting>, ts: seq<Setting>)
    requires multiset(ss) == multiset(ts)
    ensures |ss| == |ts| && forall s :: s in ss <==> s in ts
  {
    assert |ss| == |multiset(ss)| && |ts| == |multiset(ts)|;
    forall s ensures s in ss <==> s in ts {
      assert s in multiset(ss) <==> s in multiset(ts);
    }
  }

  /** Prefix-freedom depends on the multiset only. */
  lemma {:induction false} SubsetPrefixFree(ss: seq<Setting>, a: seq<Setting>, b: seq<Setting>)
    requires PrefixFree(ss) && multiset(ss) == multiset(a + b)
    ensures PrefixFree(a) && PrefixFree(b)
  {
    SameMembers(ss, a + b);
    var all := a + b;
    forall i, j | 0 <= i < j < |all| ensures Apart(all[i].path, all[j].path) {
      PairApart(ss, all, i, j);
    }
    assert forall i :: 0 <= i < |a| ==> all[i] == a[i];
    assert forall i :: 0 <= i < |b| ==> all[|a| + i] == b[i];
  }

  lemma PairApart(ss: seq<Setting>, ts: seq<Setting>, i: nat, j: nat)
    requires PrefixFree(ss) && multiset(ss) == multiset(ts) && i < j < |ts|
    ensures Apart(ts[i].path, ts[j].path)
  {
    SameMembers(ss, ts);
    if ts[i] == ts[j] {
      AtMostOnce(ss, ts[i]);
      Twice(ts, i, j);
    } else {
      assert ts[i] in ss && ts[j] in ss;
      var k :| 0 <= k < |ss| && ss[k] == ts[i];
      var l :| 0 <= l < |ss| && ss[l] == ts[j];
      if k < l { assert Apart(ss[k].path, ss[l].path); } else { assert Apart(ss[l].path, ss[k].path); }
    }
  }

  lemma Twice(ts: seq<Setting>, i: nat, j: nat)
    requires i < j < |ts| && ts[i] == ts[j]
    ensures multiset(ts)[ts[i]] >= 2
  {
    var a, b := ts[..j], ts[j..];
    assert ts == a + b && a[i] == ts[i] && b[0] == ts[j];
    assert ts[i] in multiset(a) && ts[i] in multiset(b);
    assert multiset(ts) == multiset(a) + multiset(b);
  }

  lemma {:induction false} AtMostOnce(ss: seq<Setting>, s: Setting)
    requires PrefixFree(ss)
    ensures multiset(ss)[s] <= 1
  {
    if ss != [] {
      TailPrefixFree(ss);
      AtMostOnce(ss[1..], s);
      assert ss == [ss[0]] + ss[1..];
      if s == ss[0] { assert s !in ss[1..]; }
    }
  }

  /** Every set path reads back its value, and every path apart from them keeps what it had. */
  lemma {:induction false} ReadsBack(d: Data, ss: seq<Setting>, q: Path)
    requires PrefixFree(ss) && q != []
    ensures forall s :: s in ss && s.path == q ==> Get(SetAll(d, ss), q) == Some(s.value)
    ensures (forall s :: s in ss ==> Apart(s.path, q)) ==> Get(SetAll(d, ss), q) == Get(d, q)
    decreases |ss|
  {
    if ss != [] {
      TailPrefixFree(ss);
      var d' := Set(d, ss[0].path, ss[0].value);
      ReadsBack(d', ss[1..], q);
      if ss[0].path == q {
        GetSet(d, q, ss[0].value);
      } else if Apart(ss[0].path, q) {
        GetSetApart(d, ss[0].path, ss[0].value, q);
      }
    }
  }

  // ----- coercion and the registry loop -----

  datatype Coercer = AsStr | AsStrOrNone | AsInt | AsFloat | AsBool

  datatype Binding = Binding(envVar: string, path: Path, coercer: Coercer)

  /** Number parsing is Python's own; None is its ValueError. */
  datatype NumberParsing = NumberParsing(int_: string -> Option<int>, float_: string -> Option<real>)

  function Lower(s: string): string {
    seq(|s|, i requires 0 <= i < |s| => if 'A' <= s[i] <= 'Z' then s[i] - 'A' + 'a' else s[i])
  }

  function Coerce(raw: string, c: Coercer, p: NumberParsing): Option<Value> {
    match c
    case AsStr => Some(Str(raw))
    case AsStrOrNone => Some(if raw != "" then Str(raw) else Null)
    case AsInt => (match p.int_(raw) case Some(n) => Some(Int(n)) case None => None)
    case AsFloat => (match p.float_(raw) case Some(r) => Some(Float(r)) case None => None)
    case AsBool => Some(Bool(Lower(Strip(raw)) in ["true", "1", "yes", "on"]))
  }

  /** The same word up to the case of its letters. */
  predicate SameLetters(s: string, word: string) {
    |s| == |word| && forall i :: 0 <= i < |s| ==> s[i] == word[i] || ('a' <= word[i] <= 'z' && s[i] as int + 32 == word[i] as int)
  }

  lemma LowerExactly(s: string, word: string)
    requires forall i :: 0 <= i < |word| ==> !('A' <= word[i] <= 'Z')
    ensures Lower(s) == word <==> SameLetters(s, word)
  {
    if SameLetters(s, word) {
      forall i | 0 <= i < |s| ensures Lower(s)[i] == word[i] { }
    }
    if Lower(s) == word {
      forall i | 0 <= i < |s| ensures s[i] == word[i] || ('a' <= word[i] <= 'z' && s[i] as int + 32 == word[i] as int) {
        assert Lower(s)[i] == word[i];
      }
    }
  }

  /** What a variable's text becomes. A boolean is true for four words in any case, between white space, and
      false for everything else; it never fails. */
  lemma CoerceExactly(raw: string, c: Coercer, p: NumberParsing)
    ensures c.AsStr? ==> Coerce(raw, c, p) == Some(Str(raw))
    ensures c.AsStrOrNone? ==> Coerce(raw, c, p) == Some(if raw == "" then Null else Str(raw))
    ensures c.AsInt? ==> Coerce(raw, c, p) == if p.int_(raw).Some? then Some(Int(p.int_(raw).value)) else None
    ensures c.AsFloat? ==> Coerce(raw, c, p) == if p.float_(raw).Some? then Some(Float(p.float_(raw).value)) else None
    ensures c.AsBool? ==>
              Coerce(raw, c, p) == Some(Bool(SameLetters(Strip(raw), "true") || SameLetters(Strip(raw), "1")
                                             || SameLetters(Strip(raw), "yes") || SameLetters(Strip(raw), "on")))
  {
    LowerExactly(Strip(raw), "true");
    LowerExactly(Strip(raw), "1");
    LowerExactly(Strip(raw), "yes");
    LowerExactly(Strip(raw), "on");
  }

  /** Python's truth of a value. */
  lemma TruthyExactly(v: Value)
    ensures !Truthy(v) <==> v == Null || v == Str("") || v == Int(0) || v == Float(0.0) || v == Bool(false) || v == Dict(map[])
  {
  }

  predicate Coercible(bs: seq<Binding>, env: map<string, string>, p: NumberParsing) {
    forall i :: 0 <= i < |bs| && bs[i].envVar in env ==> Coerce(env[bs[i].envVar], bs[i].coercer, p).Some?
  }

  /** The settings that the environment asks for, in registry order. */
  function Settings(bs: seq<Binding>, env: map<string, string>, p: NumberParsing): seq<Setting>
    requires Coercible(bs, env, p)
  {
    if bs == [] then []
    else
      var n := |bs| - 1;
      Settings(bs[..n], env, p)
      + if bs[n].envVar in env then [Setting(bs[n].path, Coerce(env[bs[n].envVar], bs[n].coercer, p).value)] else []
  }

  lemma {:induction false} SettingsOrigin(bs: seq<Binding>, env: map<string, string>, p: NumberParsing, s: Setting)
    requires Coercible(bs, env, p)
    ensures s in Settings(bs, env, p) ==> exists i :: 0 <= i < |bs| && s.path == bs[i].path
    ensures forall i :: 0 <= i < |bs| && bs[i].envVar in env ==>
              Setting(bs[i].path, Coerce(env[bs[i].envVar], bs[i].coercer, p).value) in Settings(bs, env, p)
  {
    if bs != [] {
      var n := |bs| - 1;
      SettingsOrigin(bs[..n], env, p, s);
    }
  }

  ghost predicate ApartBindings(bs: seq<Binding>) {
    && (forall i :: 0 <= i < |bs| ==> bs[i].path != [])
    && forall i, j :: 0 <= i < j < |bs| ==> Apart(bs[i].path, bs[j].path)
  }

  lemma {:induction false} SettingsPrefixFree(bs: seq<Binding>, env: map<string, string>, p: NumberParsing)
    requires Coercible(bs, env, p) && ApartBindings(bs)
    ensures PrefixFree(Settings(bs, env, p))
  {
    if bs != [] {
      var n := |bs| - 1;
      SettingsPrefixFree(bs[..n], env, p);
      var rest := Settings(bs[..n], env, p);
      forall s | s in rest ensures Apart(s.path, bs[n].path) {
        SettingsOrigin(bs[..n], env, p, s);
      }
    }
  }

  // ----- inheritance and normalising -----

  const STATE_DIR := "/var/lib/elephantbroker"

  /** The pathlib operations: text of a value, `str(Path(text).expanduser())`, and `str(_STATE_DIR / path)`. */
  datatype PathOps = PathOps(asText: Value -> string, expand: string -> string, join: string -> string)

  predicate IsAbsolute(p: string) { p != "" && p[0] == '/' }

  function Located(text: string, ops: PathOps): string {
    var p := ops.expand(text);
    if IsAbsolute(p) then p else ops.join(p)
  }

  /** What pathlib guarantees: text is its own text, a path below an absolute directory is absolute, and an
      absolute path in the form that either operation gives it is not changed by expanding it. */
  ghost predicate PathLaws(ops: PathOps) {
    && (forall s: string :: ops.asText(Str(s)) == s)
    && (forall s: string :: IsAbsolute(ops.expand(s)) ==> ops.expand(ops.expand(s)) == ops.expand(s))
    && (forall p: string :: !IsAbsolute(p) ==> IsAbsolute(ops.join(p)) && ops.expand(ops.join(p)) == ops.join(p))
  }

  /** Path operations that collapse a lone dot, as pathlib's do. */
  function DotPaths(home: string): PathOps {
    PathOps(
      (v: Value) => if v.Str? then v.s else "",
      (s: string) => if s == "" then "." else if s == "~" then home else if s == STATE_DIR + "/." then STATE_DIR else s,
      (p: string) => if p == "." then STATE_DIR else STATE_DIR + "/" + p)
  }

  /** The laws leave room for that: the empty path and the dot both mean the state directory. */
  lemma DotsAllowed(home: string)
    requires IsAbsolute(home) && home != STATE_DIR + "/."
    ensures PathLaws(DotPaths(home))
    ensures Located("", DotPaths(home)) == Located(".", DotPaths(home)) == Located(STATE_DIR + "/.", DotPaths(home)) == STATE_DIR
  {
    assert STATE_DIR[0] == '/';
    forall p: string | p != "." ensures STATE_DIR + "/" + p != STATE_DIR + "/." {
      assert (STATE_DIR + "/" + p)[|STATE_DIR| + 1..] == p;
      assert (STATE_DIR + "/.")[|STATE_DIR| + 1..] == ".";
    }
  }

  function Normal(v: Value, ops: PathOps): Value {
    if Truthy(v) then Str(Located(ops.asText(v), ops)) else v
  }

  /** The three kinds of step after the overrides: make sure that a section is a dictionary, copy a
      source into an empty target, normalise a path field. */
  datatype Step = Open(section: string) | Fill(target: Path, source: Path) | Normalise(target: Path)

  function Do(st: Step, d: Data, ops: PathOps): Data
    requires StepOk(st)
  {
    match st
    case Open(s) => if s in d && d[s].Dict? then d else d[s := Dict(map[])]
    case Fill(t, s) => if !Holds(Get(d, t)) && Holds(Get(d, s)) then Set(d, t, Get(d, s).value) else d
    case Normalise(t) => if Holds(Get(d, t)) then Set(d, t, Normal(Get(d, t).value, ops)) else d
  }

  predicate StepOk(st: Step) {
    match st
    case Open(_) => true
    case Fill(t, s) => |t| >= 2 && |s| >= 2 && Apart(t, s)
    case Normalise(t) => |t| >= 2
  }

  function Steps(steps: seq<Step>, d: Data, ops: PathOps): Data
    requires forall st :: st in steps ==> StepOk(st)
    decreases |steps|
  {
    if steps == [] then d else Steps(steps[1..], Do(steps[0], d, ops), ops)
  }

  const LLM_KEY: Path := ["llm", "api_key"]
  const LLM_ENDPOINT: Path := ["llm", "endpoint"]
  const COGNEE_KEY: Path := ["cognee", "embedding_api_key"]
  const COMPACTION_KEY: Path := ["compaction_llm", "api_key"]
  const COMPACTION_ENDPOINT: Path := ["compaction_llm", "endpoint"]
  const SUCCESSFUL_USE_KEY: Path := ["successful_use", "api_key"]

  const INHERITANCE: seq<Step> :=
    [Open("cognee"), Open("llm"), Fill(LLM_KEY, COGNEE_KEY), Fill(COMPACTION_KEY, LLM_KEY),
     Fill(SUCCESSFUL_USE_KEY, LLM_KEY), Fill(COMPACTION_ENDPOINT, LLM_ENDPOINT)]

  const NORMALISING: seq<Step> :=
    [Open("audit"), Normalise(["audit", "procedure_audit_db_path"]), Normalise(["audit", "session_goal_audit_db_path"]),
     Normalise(["audit", "org_overrides_db_path"]), Normalise(["audit", "authority_rules_db_path"]),
     Normalise(["audit", "consolidation_reports_db_path"]), Normalise(["audit", "tuning_deltas_db_path"]),
     Normalise(["audit", "scoring_ledger_db_path"])]
}
