/** The registry of environment variables (`ENV_OVERRIDE_BINDINGS`), and what follows from its shape. */
module EnvBindings {
  import opened Basics
  import opened ConfigOverrides
  import opened ConfigLoading

  datatype Row = Row(envVar: string, name: string, coercer: Coercer)

  /** Consecutive bindings under one section. */
  datatype Group = Group(section: Path, rows: seq<Row>)

  const GATEWAY := Group(["gateway"], [
    Row("EB_GATEWAY_ID", "gateway_id", AsStr),
    Row("EB_GATEWAY_SHORT_NAME", "gateway_short_name", AsStr),
    Row("EB_ORG_ID", "org_id", AsStrOrNone),
    Row("EB_TEAM_ID", "team_id", AsStrOrNone),
    Row("EB_AGENT_AUTHORITY_LEVEL", "agent_authority_level", AsInt),
    Row("EB_AUTH_TOKEN", "auth_token", AsStrOrNone)])

  const TOP_LEVEL_1 := Group([], [
    Row("EB_DEFAULT_PROFILE", "default_profile", AsStr),
    Row("EB_TIER", "tier", AsStr)])

  const COGNEE := Group(["cognee"], [
    Row("EB_NEO4J_URI", "neo4j_uri", AsStr),
    Row("EB_NEO4J_USER", "neo4j_user", AsStr),
    Row("EB_NEO4J_PASSWORD", "neo4j_password", AsStr),
    Row("EB_QDRANT_URL", "qdrant_url", AsStr),
    Row("EB_DEFAULT_DATASET", "default_dataset", AsStr),
    Row("EB_EMBEDDING_PROVIDER", "embedding_provider", AsStr),
    Row("EB_EMBEDDING_MODEL", "embedding_model", AsStr),
    Row("EB_EMBEDDING_ENDPOINT", "embedding_endpoint", AsStr),
    Row("EB_EMBEDDING_API_KEY", "embedding_api_key", AsStr),
    Row("EB_EMBEDDING_DIMENSIONS", "embedding_dimensions", AsInt)])

  const LLM := Group(["llm"], [
    Row("EB_LLM_MODEL", "model", AsStr),
    Row("EB_LLM_ENDPOINT", "endpoint", AsStr),
    Row("EB_LLM_API_KEY", "api_key", AsStr),
    Row("EB_LLM_MAX_TOKENS", "max_tokens", AsInt),
    Row("EB_LLM_TEMPERATURE", "temperature", AsFloat),
    Row("EB_LLM_EXTRACTION_MAX_INPUT_TOKENS", "extraction_max_input_tokens", AsInt),
    Row("EB_LLM_EXTRACTION_MAX_OUTPUT_TOKENS", "extraction_max_output_tokens", AsInt),
    Row("EB_LLM_EXTRACTION_MAX_FACTS", "extraction_max_facts_per_batch", AsInt),
    Row("EB_LLM_SUMMARIZATION_MAX_OUTPUT_TOKENS", "summarization_max_output_tokens", AsInt),
    Row("EB_LLM_SUMMARIZATION_MIN_CHARS", "summarization_min_artifact_chars", AsInt),
    Row("EB_INGEST_BATCH_SIZE", "ingest_batch_size", AsInt),
    Row("EB_INGEST_BATCH_TIMEOUT", "ingest_batch_timeout_seconds", AsFloat),
    Row("EB_INGEST_BUFFER_TTL", "ingest_buffer_ttl_seconds", AsInt),
    Row("EB_EXTRACTION_CONTEXT_FACTS", "extraction_context_facts", AsInt),
    Row("EB_EXTRACTION_CONTEXT_TTL", "extraction_context_ttl_seconds", AsInt)])

  const COMPACTION_LLM := Group(["compaction_llm"], [
    Row("EB_COMPACTION_LLM_MODEL", "model", AsStr),
    Row("EB_COMPACTION_LLM_ENDPOINT", "endpoint", AsStr),
    Row("EB_COMPACTION_LLM_API_KEY", "api_key", AsStr)])

  const RERANKER := Group(["reranker"], [
    Row("EB_RERANKER_ENDPOINT", "endpoint", AsStr),
    Row("EB_RERANKER_API_KEY", "api_key", AsStr),
    Row("EB_RERANKER_MODEL", "model", AsStr),
    Row("EB_RERANKER_ENABLED", "enabled", AsBool)])

  const INFRA := Group(["infra"], [
    Row("EB_REDIS_URL", "redis_url", AsStr),
    Row("EB_OTEL_ENDPOINT", "otel_endpoint", AsStrOrNone),
    Row("EB_LOG_LEVEL", "log_level", AsStr),
    Row("EB_METRICS_TTL_SECONDS", "metrics_ttl_seconds", AsInt)])

  const INFRA_TRACE := Group(["infra", "trace"], [
    Row("EB_TRACE_OTEL_LOGS_ENABLED", "otel_logs_enabled", AsBool),
    Row("EB_TRACE_MEMORY_MAX_EVENTS", "memory_max_events", AsInt)])

  const INFRA_CLICKHOUSE := Group(["infra", "clickhouse"], [
    Row("EB_CLICKHOUSE_ENABLED", "enabled", AsBool),
    Row("EB_CLICKHOUSE_HOST", "host", AsStr),
    Row("EB_CLICKHOUSE_PORT", "port", AsInt),
    Row("EB_CLICKHOUSE_DATABASE", "database", AsStr),
    Row("EB_CLICKHOUSE_USER", "user", AsStr),
    Row("EB_CLICKHOUSE_PASSWORD", "password", AsStr),
    Row("EB_CLICKHOUSE_LOGS_TABLE", "logs_table", AsStr)])

  const AUDIT := Group(["audit"], [
    Row("EB_PROCEDURE_AUDIT_DB_PATH", "procedure_audit_db_path", AsStr),
    Row("EB_SESSION_GOAL_AUDIT_DB_PATH", "session_goal_audit_db_path", AsStr),
    Row("EB_ORG_OVERRIDES_DB_PATH", "org_overrides_db_path", AsStr),
    Row("EB_AUTHORITY_RULES_DB_PATH", "authority_rules_db_path", AsStr),
    Row("EB_CONSOLIDATION_REPORTS_DB_PATH", "consolidation_reports_db_path", AsStr),
    Row("EB_TUNING_DELTAS_DB_PATH", "tuning_deltas_db_path", AsStr),
    Row("EB_SCORING_LEDGER_DB_PATH", "scoring_ledger_db_path", AsStr)])

  const EMBEDDING_CACHE := Group(["embedding_cache"], [
    Row("EB_EMBEDDING_CACHE_ENABLED", "enabled", AsBool),
    Row("EB_EMBEDDING_CACHE_TTL", "ttl_seconds", AsInt)])

  const SCORING := Group(["scoring"], [
    Row("EB_SCORING_SNAPSHOT_TTL", "snapshot_ttl_seconds", AsInt),
    Row("EB_SESSION_GOALS_TTL", "session_goals_ttl_seconds", AsInt)])

  const TOP_LEVEL_2 := Group([], [
    Row("EB_POSTGRES_DSN", "postgres_dsn", AsStr)])

  const HITL := Group(["hitl"], [
    Row("EB_HITL_ENABLED", "enabled", AsBool),
    Row("EB_HITL_CALLBACK_SECRET", "callback_hmac_secret", AsStr),
    Row("EB_HITL_RUNTIME_AUTH_TOKEN", "runtime_auth_token", AsStr)])

  const SUCCESSFUL_USE := Group(["successful_use"], [
    Row("EB_SUCCESSFUL_USE_ENABLED", "enabled", AsBool),
    Row("EB_SUCCESSFUL_USE_ENDPOINT", "endpoint", AsStr),
    Row("EB_SUCCESSFUL_USE_API_KEY", "api_key", AsStr),
    Row("EB_SUCCESSFUL_USE_MODEL", "model", AsStr),
    Row("EB_SUCCESSFUL_USE_BATCH_SIZE", "batch_size", AsInt)])

  const CONSOLIDATION := Group(["consolidation"], [
    Row("EB_DEV_CONSOLIDATION_AUTO_TRIGGER", "dev_auto_trigger_interval", AsStr),
    Row("EB_CONSOLIDATION_BATCH_SIZE", "batch_size", AsInt)])

  const TOP_LEVEL_3 := Group([], [
    Row("EB_ENABLE_TRACE_LEDGER", "enable_trace_ledger", AsBool)])

  const GUARDS := Group(["guards"], [
    Row("EB_GUARDS_ENABLED", "enabled", AsBool)])

  const TOP_LEVEL_4 := Group([], [
    Row("EB_MAX_CONCURRENT_SESSIONS", "max_concurrent_sessions", AsInt),
    Row("EB_CONSOLIDATION_MIN_RETENTION_SECONDS", "consolidation_min_retention_seconds", AsInt)])

  /** In registry order. */
  const REGISTRY: seq<Group> :=
    [GATEWAY, TOP_LEVEL_1, COGNEE, LLM, COMPACTION_LLM, RERANKER, INFRA, INFRA_TRACE,
     INFRA_CLICKHOUSE, AUDIT, EMBEDDING_CACHE, SCORING, TOP_LEVEL_2, HITL, SUCCESSFUL_USE,
     CONSOLIDATION, TOP_LEVEL_3, GUARDS, TOP_LEVEL_4]

  function GroupBindings(g: Group): seq<Binding> {
    seq(|g.rows|, i requires 0 <= i < |g.rows| => Binding(g.rows[i].envVar, g.section + [g.rows[i].name], g.rows[i].coercer))
  }

  function Flatten(groups: seq<Group>): seq<Binding> {
    if groups == [] then [] else Flatten(groups[..|groups| - 1]) + GroupBindings(groups[|groups| - 1])
  }

  /** All bindings, in registry order. */
  function Bindings(): seq<Binding> { Flatten(REGISTRY) }

  predicate DistinctNames(g: Group) {
    forall i, j :: 0 <= i < j < |g.rows| ==> g.rows[i].name != g.rows[j].name
  }

  predicate Names(g: Group, name: string) { exists i :: 0 <= i < |g.rows| && g.rows[i].name == name }

  /** No name of one group runs into the other group. */
  predicate Separate(g: Group, h: Group) {
    if g.section == h.section then forall i :: 0 <= i < |h.rows| ==> !Names(g, h.rows[i].name)
    else if g.section <= h.section then !Names(g, h.section[|g.section|])
    else if h.section <= g.section then !Names(h, g.section[|h.section|])
    else true
  }

  ghost predicate WellGrouped(groups: seq<Group>) {
    && (forall i :: 0 <= i < |groups| ==> DistinctNames(groups[i]))
    && forall i, j :: 0 <= i < j < |groups| ==> Separate(groups[i], groups[j])
  }

  lemma RegistryNamesFront()
    ensures forall i :: 0 <= i < 2 ==> DistinctNames(REGISTRY[i])
  {
  }

  lemma CogneeNames()
    ensures DistinctNames(COGNEE)
  {
  }

  lemma RegistryNamesCognee()
    ensures DistinctNames(REGISTRY[2])
  {
    CogneeNames();
    assert REGISTRY[2] == COGNEE;
  }

  lemma LlmNamesFront()
    ensures forall i, j :: 0 <= i < 6 && i < j < 15 ==> LLM.rows[i].name != LLM.rows[j].name
  {
  }

  lemma LlmNamesBack()
    ensures |LLM.rows| == 15 && forall i, j :: 6 <= i < 15 && i < j < 15 ==> LLM.rows[i].name != LLM.rows[j].name
  {
  }

  lemma LlmNames()
    ensures DistinctNames(LLM)
  {
    LlmNamesFront();
    LlmNamesBack();
  }

  lemma RegistryNamesLlm()
    ensures DistinctNames(REGISTRY[3])
  {
    LlmNames();
    assert REGISTRY[3] == LLM;
  }

  lemma RegistryNamesCompactionLlm()
    ensures forall i :: 4 <= i < 5 ==> DistinctNames(REGISTRY[i])
  {
  }

  lemma RegistryNamesInfrastructure()
    ensures forall i :: 5 <= i < 8 ==> DistinctNames(REGISTRY[i])
  {
  }

  lemma RegistryNamesAudit()
    ensures forall i :: 8 <= i < 10 ==> DistinctNames(REGISTRY[i])
  {
  }

  lemma RegistryNamesBack()
    ensures |REGISTRY| == 19 && forall i :: 10 <= i < |REGISTRY| ==> DistinctNames(REGISTRY[i])
  {
  }

  lemma RegistrySeparateGateway()
    ensures forall i, j :: 0 <= i < 2 && i < j < 19 ==> Separate(REGISTRY[i], REGISTRY[j])
  {
  }

  lemma RegistrySeparateCognee()
    ensures forall i, j :: 2 <= i < 3 && i < j < 19 ==> Separate(REGISTRY[i], REGISTRY[j])
  {
  }

  lemma RegistrySeparateLlm()
    ensures forall i, j :: 3 <= i < 4 && i < j < 19 ==> Separate(REGISTRY[i], REGISTRY[j])
  {
  }

  lemma RegistrySeparateServices()
    ensures forall i, j :: 4 <= i < 6 && i < j < 19 ==> Separate(REGISTRY[i], REGISTRY[j])
  {
  }

  lemma RegistrySeparateInfra()
    ensures forall i, j :: 6 <= i < 7 && i < j < 19 ==> Separate(REGISTRY[i], REGISTRY[j])
  {
  }

  lemma RegistrySeparateTrace()
    ensures forall i, j :: 7 <= i < 9 && i < j < 19 ==> Separate(REGISTRY[i], REGISTRY[j])
  {
  }

  lemma RegistrySeparateFeatures()
    ensures forall i, j :: 9 <= i < 13 && i < j < 19 ==> Separate(REGISTRY[i], REGISTRY[j])
  {
  }

  lemma RegistrySeparateBack()
    ensures forall i, j :: 13 <= i < 19 && i < j < 19 ==> Separate(REGISTRY[i], REGISTRY[j])
  {
  }

  /** No top-level name and no deeper section meets a section that the later steps work on. */
  predicate LeavesWhole(g: Group, section: string) {
    (g.section == [] ==> !Names(g, section)) && (|g.section| >= 2 ==> g.section[0] != section)
  }

  const WORKED_ON := ["cognee", "llm", "compaction_llm", "successful_use", "audit"]

  lemma RegistryLeavesWhole()
    ensures forall i, j :: 0 <= i < |REGISTRY| && 0 <= j < |WORKED_ON| ==> LeavesWhole(REGISTRY[i], WORKED_ON[j])
  {
  }

  lemma RegistryWellGrouped()
    ensures WellGrouped(REGISTRY)
  {
    RegistryNamesFront();
    RegistryNamesCognee();
    RegistryNamesLlm();
    RegistryNamesCompactionLlm();
    RegistryNamesInfrastructure();
    RegistryNamesAudit();
    RegistryNamesBack();
    RegistrySeparateGateway();
    RegistrySeparateCognee();
    RegistrySeparateLlm();
    RegistrySeparateServices();
    RegistrySeparateInfra();
    RegistrySeparateTrace();
    RegistrySeparateFeatures();
    RegistrySeparateBack();
  }

  lemma SeparatePaths(g: Group, h: Group, a: string, b: string)
    requires Separate(g, h) && Names(g, a) && Names(h, b)
    ensures Apart(g.section + [a], h.section + [b])
  {
    var p, q := g.section + [a], h.section + [b];
    assert p[..|g.section|] == g.section && p[|g.section|] == a;
    assert q[..|h.section|] == h.section && q[|h.section|] == b;
    assert p <= q && |p| < |q| ==> g.section <= h.section;
    assert q <= p && |q| < |p| ==> h.section <= g.section;
  }

  lemma {:induction false} FlattenOrigin(groups: seq<Group>, b: Binding) returns (i: nat, name: string)
    requires b in Flatten(groups)
    ensures i < |groups| && Names(groups[i], name) && b.path == groups[i].section + [name]
  {
    var n := |groups| - 1;
    if b in Flatten(groups[..n]) {
      i, name := FlattenOrigin(groups[..n], b);
    } else {
      i := n;
      var k :| 0 <= k < |GroupBindings(groups[n])| && GroupBindings(groups[n])[k] == b;
      name := groups[n].rows[k].name;
    }
  }

  lemma GroupApart(g: Group)
    requires DistinctNames(g)
    ensures ApartBindings(GroupBindings(g))
  {
    var bs := GroupBindings(g);
    forall i, j | 0 <= i < j < |bs| ensures Apart(bs[i].path, bs[j].path) {
      assert bs[i].path[|g.section|] != bs[j].path[|g.section|];
    }
  }

  lemma ApartJoin(a: seq<Binding>, b: seq<Binding>)
    requires ApartBindings(a) && ApartBindings(b)
    requires forall x, y :: x in a && y in b ==> Apart(x.path, y.path)
    ensures ApartBindings(a + b)
  {
    var all := a + b;
    forall i, j | 0 <= i < j < |all| ensures Apart(all[i].path, all[j].path) {
      if i < |a| <= j { assert all[i] in a && all[j] in b; }
    }
  }

  /** Groups with distinct names, none running into another, have pairwise apart paths. */
  lemma {:induction false} GroupsApart(groups: seq<Group>)
    requires WellGrouped(groups)
    ensures ApartBindings(Flatten(groups))
  {
    if groups != [] {
      var n := |groups| - 1;
      GroupsApart(groups[..n]);
      GroupApart(groups[n]);
      forall x, y | x in Flatten(groups[..n]) && y in GroupBindings(groups[n]) ensures Apart(x.path, y.path) {
        var i, a := FlattenOrigin(groups[..n], x);
        var k :| 0 <= k < |GroupBindings(groups[n])| && GroupBindings(groups[n])[k] == y;
        assert Separate(groups[i], groups[n]);
        SeparatePaths(groups[i], groups[n], a, groups[n].rows[k].name);
      }
      ApartJoin(Flatten(groups[..n]), GroupBindings(groups[n]));
    }
  }

  /** A binding meets a two-segment path of a worked-on section only as a whole. */
  lemma LeavesWholePath(g: Group, name: string, p: Path)
    requires |p| == 2 && Names(g, name) && LeavesWhole(g, p[0])
    ensures g.section + [name] == p || Apart(g.section + [name], p)
    ensures g.section + [name] != [p[0]]
  {
    var q := g.section + [name];
    if |g.section| == 0 {
      assert q[0] == name;
    } else {
      assert q[0] == g.section[0];
      if |g.section| == 1 { assert q == [q[0], name] && p == [p[0], p[1]]; }
    }
  }

  ghost predicate WorksInside(st: Step, sections: seq<string>) {
    match st
    case Open(s) => s in sections
    case Fill(t, s) => |t| == 2 && t[0] in sections && |s| == 2 && s[0] in sections
    case Normalise(t) => |t| == 2 && t[0] in sections
  }

  lemma GroupsCompatible(groups: seq<Group>, sections: seq<string>, ss: seq<Setting>, st: Step)
    requires forall i, j :: 0 <= i < |groups| && 0 <= j < |sections| ==> LeavesWhole(groups[i], sections[j])
    requires forall x :: x in ss ==> exists b :: b in Flatten(groups) && b.path == x.path
    requires WorksInside(st, sections)
    ensures Compatible(ss, st)
  {
    forall x | x in ss
      ensures match st
        case Open(s) => x.path != [s]
        case Fill(t, s) => (x.path == t || Apart(x.path, t)) && (x.path == s || Apart(x.path, s))
        case Normalise(t) => x.path == t || Apart(x.path, t)
    {
      var b :| b in Flatten(groups) && b.path == x.path;
      var i, name := FlattenOrigin(groups, b);
      match st
      case Open(s) => LeavesWholePath(groups[i], name, [s, ""]);
      case Fill(t, s) =>
        LeavesWholePath(groups[i], name, t);
        LeavesWholePath(groups[i], name, s);
      case Normalise(t) => LeavesWholePath(groups[i], name, t);
    }
  }

  lemma PipelineWorksInside()
    ensures forall i :: 0 <= i < |PIPELINE| ==> WorksInside(PIPELINE[i], WORKED_ON)
  {
    var w := WORKED_ON;
    assert w[0] in w && w[1] in w && w[2] in w && w[3] in w && w[4] in w;
    assert forall i :: 0 <= i < |INHERITANCE| ==> WorksInside(INHERITANCE[i], w);
    assert forall i :: 0 <= i < |NORMALISING| ==> WorksInside(NORMALISING[i], w);
  }

  /** The settings of any environment come from apart paths of the registry. */
  lemma RegistrySettings(env: map<string, string>, p: NumberParsing)
    requires Coercible(Bindings(), env, p)
    ensures ApartBindings(Bindings()) && PrefixFree(Settings(Bindings(), env, p))
    ensures forall x :: x in Settings(Bindings(), env, p) ==> exists b :: b in Bindings() && b.path == x.path
  {
    RegistryWellGrouped();
    GroupsApart(REGISTRY);
    var bs := Bindings();
    SettingsPrefixFree(bs, env, p);
    forall x | x in Settings(bs, env, p) ensures exists b :: b in bs && b.path == x.path {
      SettingsOrigin(bs, env, p, x);
      var i :| 0 <= i < |bs| && x.path == bs[i].path;
      assert bs[i] in bs;
    }
  }

  /** The registry's overrides are order-independent: every order gives the same data. Every bound path
      of a set variable reads back its value, and every path apart from those is untouched. */
  lemma OverridesAreOrderIndependent(d: Data, env: map<string, string>, p: NumberParsing, ts: seq<Setting>, q: Path)
    requires Coercible(Bindings(), env, p) && multiset(ts) == multiset(Settings(Bindings(), env, p)) && q != []
    ensures (forall s :: s in ts + Settings(Bindings(), env, p) ==> s.path != [])
    ensures var ss := Settings(Bindings(), env, p);
            && SetAll(d, ts) == SetAll(d, ss)
            && (forall s :: s in ss && s.path == q ==> Get(SetAll(d, ts), q) == Some(s.value))
            && ((forall s :: s in ss ==> Apart(s.path, q)) ==> Get(SetAll(d, ts), q) == Get(d, q))
  {
    RegistrySettings(env, p);
    var ss := Settings(Bindings(), env, p);
    OrderDoesNotMatter(d, ss, ts);
    ReadsBack(d, ss, q);
  }

  /** Overrides, inheritance and path normalising together: loading the loaded data again, in the same
      environment, changes nothing. */
  lemma LoadingIsIdempotent(d: Data, env: map<string, string>, p: NumberParsing, ops: PathOps)
    requires Coercible(Bindings(), env, p) && PathLaws(ops)
    ensures AllOk(PIPELINE) && forall s :: s in Settings(Bindings(), env, p) ==> s.path != []
    ensures var ss := Settings(Bindings(), env, p);
            Loaded(Loaded(d, ss, PIPELINE, ops), ss, PIPELINE, ops) == Loaded(d, ss, PIPELINE, ops)
  {
    RegistrySettings(env, p);
    RegistryLeavesWhole();
    PipelineSpreadOut();
    PipelineWorksInside();
    var ss := Settings(Bindings(), env, p);
    forall st | st in PIPELINE ensures Compatible(ss, st) {
      GroupsCompatible(REGISTRY, WORKED_ON, ss, st);
    }
    LoadingTwice(d, ss, PIPELINE, ops);
  }
}
