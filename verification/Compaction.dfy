/** The compaction engine: trigger, classification into three buckets, fallback summary, token count. */
module Compaction {
  import opened Basics
  import opened Whitespace
  import opened Messages
  import opened GoalForest

  datatype CompactionPolicy = CompactionPolicy(
    cadence: string, targetTokens: nat,
    preserveGoalState: bool, preserveOpenQuestions: bool, preserveEvidenceRefs: bool)

  /** The keyword tests, left open: regular expressions over a text, and its words of four letters or more. */
  datatype Lexicon = Lexicon(
    phatic: string -> bool, decision: string -> bool, evidence: string -> bool, words: string -> set<string>)

  datatype Bucket = Preserve | Compress | Drop

  // ----- trigger -----

  /** Twice the cadence multiplier (1.5, 2.0, 3.0); an unknown cadence counts as balanced. */
  function TwiceMultiplier(cadence: string): nat {
    if cadence == "aggressive" then 3 else if cadence == "minimal" then 6 else 4
  }

  predicate AboveThreshold(tokens: nat, policy: CompactionPolicy) {
    2 * tokens > policy.targetTokens * TwiceMultiplier(policy.cadence)
  }

  predicate ShouldTrigger(tokens: nat, policy: CompactionPolicy, force: bool) {
    force || AboveThreshold(tokens, policy)
  }

  // ----- classification -----

  predicate IsPhatic(m: Message, lex: Lexicon) {
    m.role == "user" && var content := Strip(m.text); |content| < 20 && '?' !in content && lex.phatic(content)
  }

  predicate IsAnswer(later: Message, question: Message) {
    later.role != question.role && |Strip(later.text)| > 5
  }

  predicate Answered(question: Message, later: seq<Message>) {
    exists k :: 0 <= k < |later| && IsAnswer(later[k], question)
  }

  /** `list.index`: the first position of an equal message. */
  function IndexOf(messages: seq<Message>, m: Message): (i: nat)
    requires m in messages
    ensures i < |messages| && messages[i] == m && forall k :: 0 <= k < i ==> messages[k] != m
  {
    if messages[0] == m then 0 else 1 + IndexOf(messages[1..], m)
  }

  predicate IsOpenQuestion(m: Message, all: seq<Message>) {
    '?' in m.text && (m !in all || !Answered(m, all[IndexOf(all, m) + 1..]))
  }

  function Rank(memoryClass: string): nat {
    if memoryClass == "policy" then 4 else if memoryClass == "procedural" then 3
    else if memoryClass == "semantic" then 2 else if memoryClass == "episodic" then 1 else 0
  }

  /** The memory classes of the facts a message is linked to. */
  function LinkedClasses(m: Message): seq<string> {
    if MetaGet(m, "eb_fact_ids") == "" then []
    else
      var ids, classes := Pieces(MetaGet(m, "eb_fact_ids")), Pieces(MetaGet(m, "eb_fact_classes"));
      seq(|ids|, i requires 0 <= i < |ids| => if i < |classes| then classes[i] else "working_memory")
  }

  /** The first class of the highest rank. */
  function Highest(classes: seq<string>): string {
    if classes == [] then "working_memory"
    else if |classes| == 1 then classes[0]
    else
      var n := |classes| - 1;
      var h := Highest(classes[..n]);
      if Rank(classes[n]) > Rank(h) then classes[n] else h
  }

  /** `_highest_class`, with its running best. */
  method HighestClass(classes: seq<string>) returns (best: string)
    ensures best == Highest(classes)
  {
    var bestRank: int := -1;
    best := "working_memory";
    for i := 0 to |classes|
      invariant best == Highest(classes[..i]) && bestRank == if i == 0 then -1 else Rank(best)
    {
      assert classes[..i + 1][..i] == classes[..i];
      if Rank(classes[i]) > bestRank {
        bestRank, best := Rank(classes[i]), classes[i];
      }
    }
    assert classes[..|classes|] == classes;
  }

  predicate Durable(memoryClass: string) { memoryClass == "policy" || memoryClass == "procedural" }

  predicate ReferencesGoal(m: Message, goals: seq<GoalState>, lex: Lexicon) {
    exists i :: 0 <= i < |goals| && lex.words(m.text) * lex.words(goals[i].title) != {}
  }

  predicate AlreadyCompacted(m: Message) { MetaGet(m, "eb_compacted") == "true" }

  function Classify(m: Message, all: seq<Message>, goals: seq<GoalState>, policy: CompactionPolicy, lex: Lexicon): Bucket {
    if AlreadyCompacted(m) then Drop
    else if IsPhatic(m, lex) then Drop
    else if LinkedClasses(m) != [] && Durable(Highest(LinkedClasses(m))) then Preserve
    else if policy.preserveGoalState && ReferencesGoal(m, goals, lex) then Preserve
    else if policy.preserveOpenQuestions && IsOpenQuestion(m, all) then Preserve
    else if lex.decision(m.text) then Preserve
    else if policy.preserveEvidenceRefs && lex.evidence(m.text) then Preserve
    else Compress
  }

  function Classifier(all: seq<Message>, goals: seq<GoalState>, policy: CompactionPolicy, lex: Lexicon): Message -> Bucket {
    m => Classify(m, all, goals, policy, lex)
  }

  /** The messages of one bucket, in order. */
  function Select(messages: seq<Message>, b: Bucket, f: Message -> Bucket): seq<Message> {
    Keep(messages, (m: Message) => f(m) == b)
  }

  function Part(b: Bucket, all: seq<Message>, goals: seq<GoalState>, policy: CompactionPolicy, lex: Lexicon): seq<Message> {
    Select(all, b, Classifier(all, goals, policy, lex))
  }

  method SplitInto(messages: seq<Message>, f: Message -> Bucket)
    returns (preserve: seq<Message>, compress: seq<Message>, drop: seq<Message>)
    ensures preserve == Select(messages, Preserve, f)
    ensures compress == Select(messages, Compress, f)
    ensures drop == Select(messages, Drop, f)
  {
    preserve, compress, drop := [], [], [];
    for i := 0 to |messages|
      invariant preserve == Select(messages[..i], Preserve, f)
      invariant compress == Select(messages[..i], Compress, f)
      invariant drop == Select(messages[..i], Drop, f)
    {
      match f(messages[i]) {
        case Preserve => preserve := preserve + [messages[i]];
        case Drop => drop := drop + [messages[i]];
        case Compress => compress := compress + [messages[i]];
      }
      SelectStep(messages, i, Preserve, f);
      SelectStep(messages, i, Compress, f);
      SelectStep(messages, i, Drop, f);
    }
    assert messages[..|messages|] == messages;
  }

  lemma SelectStep(messages: seq<Message>, i: nat, b: Bucket, f: Message -> Bucket)
    requires i < |messages|
    ensures Select(messages[..i + 1], b, f) == Select(messages[..i], b, f) + if f(messages[i]) == b then [messages[i]] else []
  {
    KeepStep(messages, i, (m: Message) => f(m) == b);
  }

  method ClassifyMessages(messages: seq<Message>, goals: seq<GoalState>, policy: CompactionPolicy, lex: Lexicon)
    returns (preserve: seq<Message>, compress: seq<Message>, drop: seq<Message>)
    ensures preserve == Part(Preserve, messages, goals, policy, lex)
    ensures compress == Part(Compress, messages, goals, policy, lex)
    ensures drop == Part(Drop, messages, goals, policy, lex)
  {
    preserve, compress, drop := SplitInto(messages, Classifier(messages, goals, policy, lex));
  }

  // ----- what the classification keeps -----

  lemma {:induction false} SplitMessages(ms: seq<Message>, f: Message -> Bucket)
    ensures multiset(Select(ms, Preserve, f)) + multiset(Select(ms, Compress, f)) + multiset(Select(ms, Drop, f)) == multiset(ms)
  {
    if ms != [] {
      SplitMessages(ms[1..], f);
      SelectCons(ms, Preserve, f);
      SelectCons(ms, Compress, f);
      SelectCons(ms, Drop, f);
      ConsMultiset(ms);
      assert f(ms[0]) == Preserve || f(ms[0]) == Compress || f(ms[0]) == Drop;
    }
  }

  lemma {:induction false} SplitTokens(ms: seq<Message>, f: Message -> Bucket)
    ensures Tokens(Select(ms, Preserve, f)) + Tokens(Select(ms, Compress, f)) + Tokens(Select(ms, Drop, f)) == Tokens(ms)
  {
    if ms != [] {
      SplitTokens(ms[1..], f);
      SelectCons(ms, Preserve, f);
      SelectCons(ms, Compress, f);
      SelectCons(ms, Drop, f);
    }
  }

  lemma ConsMultiset<T>(xs: seq<T>)
    requires xs != []
    ensures multiset(xs) == multiset{xs[0]} + multiset(xs[1..])
  {
    assert xs == [xs[0]] + xs[1..];
  }

  lemma SelectCons(ms: seq<Message>, b: Bucket, f: Message -> Bucket)
    requires ms != []
    ensures var rest := Select(ms[1..], b, f);
            && Select(ms, b, f) == (if f(ms[0]) == b then [ms[0]] else []) + rest
            && multiset(Select(ms, b, f)) == (if f(ms[0]) == b then multiset{ms[0]} else multiset{}) + multiset(rest)
            && Tokens(Select(ms, b, f)) == (if f(ms[0]) == b then EstimateTokens(ms[0].text) else 0) + Tokens(rest)
  {
    var rest := Select(ms[1..], b, f);
    assert ([ms[0]] + rest)[1..] == rest;
    assert [] + rest == rest;
  }

  lemma SelectMember(all: seq<Message>, b: Bucket, f: Message -> Bucket, m: Message)
    ensures m in Select(all, b, f) <==> m in all && f(m) == b
  {
    KeepMember(all, (x: Message) => f(x) == b, m);
  }

  /** The three buckets partition the messages, and their tokens. */
  lemma Partition(all: seq<Message>, goals: seq<GoalState>, policy: CompactionPolicy, lex: Lexicon)
    ensures multiset(Part(Preserve, all, goals, policy, lex)) + multiset(Part(Compress, all, goals, policy, lex))
              + multiset(Part(Drop, all, goals, policy, lex)) == multiset(all)
    ensures Tokens(Part(Preserve, all, goals, policy, lex)) + Tokens(Part(Compress, all, goals, policy, lex))
              + Tokens(Part(Drop, all, goals, policy, lex)) == Tokens(all)
  {
    SplitMessages(all, Classifier(all, goals, policy, lex));
    SplitTokens(all, Classifier(all, goals, policy, lex));
  }

  lemma {:induction false} HighestBounds(classes: seq<string>)
    requires classes != []
    ensures Highest(classes) in classes && forall c :: c in classes ==> Rank(c) <= Rank(Highest(classes))
  {
    if |classes| > 1 {
      var n := |classes| - 1;
      HighestBounds(classes[..n]);
      assert classes == classes[..n] + [classes[n]];
    }
  }

  /** A message linked to a policy or procedural fact is preserved exactly when neither drop rule takes
      it first; the drop rules come before the durable-fact rule. */
  lemma DurableKept(m: Message, all: seq<Message>, goals: seq<GoalState>, policy: CompactionPolicy, lex: Lexicon)
    requires exists c :: c in LinkedClasses(m) && Durable(c)
    ensures Classify(m, all, goals, policy, lex) == Preserve <==> !AlreadyCompacted(m) && !IsPhatic(m, lex)
  {
    HighestBounds(LinkedClasses(m));
  }

  /** A text with a question mark is never phatic: trimming keeps the question mark. */
  lemma QuestionsAreNotPhatic(m: Message, lex: Lexicon)
    requires '?' in m.text
    ensures !IsPhatic(m, lex)
  {
    TrimKeepsSolid(m.text, '?', PySpace);
  }

  /** With the policy on, an open question that was not compacted before is preserved. */
  lemma OpenQuestionsKept(m: Message, all: seq<Message>, goals: seq<GoalState>, policy: CompactionPolicy, lex: Lexicon)
    requires policy.preserveOpenQuestions && IsOpenQuestion(m, all) && !AlreadyCompacted(m)
    ensures m !in Part(Compress, all, goals, policy, lex) && m !in Part(Drop, all, goals, policy, lex)
    ensures m in all ==> m in Part(Preserve, all, goals, policy, lex)
  {
    QuestionsAreNotPhatic(m, lex);
    var f := Classifier(all, goals, policy, lex);
    SelectMember(all, Compress, f, m);
    SelectMember(all, Drop, f, m);
    SelectMember(all, Preserve, f, m);
  }

  lemma {:induction false} IndexOfAppend(all: seq<Message>, more: seq<Message>, m: Message)
    requires m in all
    ensures m in all + more && IndexOf(all + more, m) == IndexOf(all, m)
  {
    assert m in all + more;
    var i, j := IndexOf(all + more, m), IndexOf(all, m);
    assert (all + more)[j] == m;
    assert i < |all| ==> (all + more)[i] == all[i];
  }

  lemma AnsweredAppend(q: Message, a: seq<Message>, b: seq<Message>)
    ensures Answered(q, a + b) <==> Answered(q, a) || Answered(q, b)
  {
    if k :| 0 <= k < |a| && IsAnswer(a[k], q) { assert (a + b)[k] == a[k]; }
    if k :| 0 <= k < |b| && IsAnswer(b[k], q) { assert (a + b)[|a| + k] == b[k]; }
  }

  /** As a conversation grows, a question of it stays open exactly as long as nothing new answers it;
      once closed it never opens again. */
  lemma QuestionsCloseForGood(m: Message, all: seq<Message>, more: seq<Message>)
    requires m in all
    ensures IsOpenQuestion(m, all + more) <==> IsOpenQuestion(m, all) && !Answered(m, more)
  {
    IndexOfAppend(all, more, m);
    var i := IndexOf(all, m);
    assert (all + more)[i + 1..] == all[i + 1..] + more;
    AnsweredAppend(m, all[i + 1..], more);
  }

  /** The position is found by value, so a repeated question is judged from its first occurrence: it
      agrees with a judgement from its own position unless it was answered in between. */
  lemma RepeatedQuestion(all: seq<Message>, i: nat)
    requires i < |all| && '?' in all[i].text && !Answered(all[i], all[i + 1..])
    ensures IsOpenQuestion(all[i], all) <==> !Answered(all[i], all[IndexOf(all, all[i])..i])
  {
    var m := all[i];
    var first := IndexOf(all, m);
    if first < i { SinceFirst(all, first, i); }
    assert !Answered(m, []);
  }

  /** Between two occurrences of a message lies all that can tell their judgements apart. */
  lemma SinceFirst(all: seq<Message>, first: nat, i: nat)
    requires first < i < |all| && all[first] == all[i] && !Answered(all[i], all[i + 1..])
    ensures Answered(all[i], all[first + 1..]) <==> Answered(all[i], all[first..i])
  {
    var m, between, later := all[i], all[first + 1..i], all[i + 1..];
    assert !Answered(m, [m]);
    assert all[first + 1..] == between + ([m] + later);
    AnsweredAppend(m, between, [m] + later);
    AnsweredAppend(m, [m], later);
    assert all[first..i] == [m] + between;
    AnsweredAppend(m, [m], between);
  }

  // ----- summary and token count -----

  function Line(m: Message): string { "[" + m.role + "]: " + m.text }

  function Lines(messages: seq<Message>): seq<string> {
    seq(|messages|, i requires 0 <= i < |messages| => Line(messages[i]))
  }

  function Conversation(messages: seq<Message>): string { Join(Lines(messages), "\n") }

  /** Truncation to the summary cap, with the dots that cost nothing. */
  function FallbackSummary(text: string, maxTokens: nat): string {
    if |text| <= maxTokens * 4 then text else text[..maxTokens * 4] + "..."
  }

  /** `llm` is the model's answer, or None without a model or when it fails. */
  function Summary(compress: seq<Message>, llm: Option<string>, maxTokens: nat): string {
    if compress == [] then "" else
    match llm
    case Some(answer) => Strip(answer)
    case None => FallbackSummary(Conversation(compress), maxTokens)
  }

  function SummaryTokens(summary: string): nat {
    if summary == "" then 0 else EstimateTokens(summary)
  }

  lemma FallbackCost(text: string, maxTokens: nat)
    requires maxTokens >= 1
    ensures SummaryTokens(FallbackSummary(text, maxTokens)) <= maxTokens
  {
  }

  /** Without a model answer: tokens after are at most the preserved ones plus the cap, so the total
      falls whenever the other two buckets hold more than the cap. In general it falls exactly when
      they hold more than the summary costs. */
  lemma CompactionShrinks(all: seq<Message>, goals: seq<GoalState>, policy: CompactionPolicy, lex: Lexicon,
                          llm: Option<string>, maxTokens: nat)
    ensures var keep := Tokens(Part(Preserve, all, goals, policy, lex));
            var gone := Tokens(Part(Compress, all, goals, policy, lex)) + Tokens(Part(Drop, all, goals, policy, lex));
            var after := keep + SummaryTokens(Summary(Part(Compress, all, goals, policy, lex), llm, maxTokens));
            && (llm.None? && maxTokens >= 1 ==> after <= keep + maxTokens)
            && (llm.None? && maxTokens >= 1 && gone > maxTokens ==> after < Tokens(all))
            && (after < Tokens(all) <==>
                SummaryTokens(Summary(Part(Compress, all, goals, policy, lex), llm, maxTokens)) < gone)
  {
    Partition(all, goals, policy, lex);
    if maxTokens >= 1 { FallbackCost(Conversation(Part(Compress, all, goals, policy, lex)), maxTokens); }
  }

  lemma {:induction false} ConversationLength(messages: seq<Message>)
    requires messages != []
    ensures |Conversation(messages)| >= 4 * Tokens(messages)
  {
    var rest := messages[1..];
    assert |Line(messages[0])| >= |messages[0].text| + 4;
    assert Lines(messages)[1..] == Lines(rest);
    if rest != [] {
      ConversationLength(rest);
    } else {
      assert Tokens(rest) == 0;
    }
  }

  /** The role labels eat the gain: a fallback summary that fits under the cap costs at least as much as
      the messages it replaces, so then only dropped messages can make the total fall. */
  lemma UncutSummarySavesNothing(compress: seq<Message>, maxTokens: nat)
    requires compress != [] && |Conversation(compress)| <= 4 * maxTokens
    ensures SummaryTokens(Summary(compress, None, maxTokens)) >= Tokens(compress)
  {
    ConversationLength(compress);
  }

  // ----- the engine -----

  datatype CompactState = CompactState(
    goalSummary: string, decisions: seq<string>, openQuestions: seq<string>, evidence: seq<string>,
    digest: string, preservedIds: seq<string>, tokenCount: nat, messageCount: nat)

  datatype CompactResult = CompactResult(compacted: bool, tokensBefore: nat, tokensAfter: nat)

  function First<T>(xs: seq<T>, n: nat): seq<T> { if |xs| <= n then xs else xs[..n] }

  function MessageIds(messages: seq<Message>): seq<string> {
    Keep(seq(|messages|, i requires 0 <= i < |messages| => MetaGet(messages[i], "eb_message_id")), (s: string) => s != "")
  }

  /** The ids under which a message counts as compacted: its own and those of its facts. */
  function ItemIds(m: Message): set<string> {
    (if MetaGet(m, "eb_message_id") != "" then {MetaGet(m, "eb_message_id")} else {})
    + (set p | p in Pieces(MetaGet(m, "eb_fact_ids")))
  }

  ghost function AllItemIds(messages: seq<Message>): set<string> {
    set m, id | m in messages && id in ItemIds(m) :: id
  }

  function TextsOf(messages: seq<Message>): seq<string> {
    seq(|messages|, i requires 0 <= i < |messages| => messages[i].text)
  }

  function Titles(goals: seq<GoalState>): seq<string> {
    seq(|goals|, i requires 0 <= i < |goals| => goals[i].title)
  }

  function StateOf(preserve: seq<Message>, all: seq<Message>, goals: seq<GoalState>, lex: Lexicon, digest: string): CompactState {
    CompactState(
      Join(Titles(goals), "; "),
      First(TextsOf(Keep(preserve, (m: Message) => lex.decision(m.text))), 20),
      First(TextsOf(Keep(preserve, (m: Message) => IsOpenQuestion(m, all))), 10),
      First(TextsOf(Keep(preserve, (m: Message) => lex.evidence(m.text))), 10),
      digest, MessageIds(preserve), Tokens(preserve) + SummaryTokens(digest), |all|)
  }

  /** SADD of a batch of ids; an empty batch is not sent. */
  function WithIds(sets: map<(string, string), set<string>>, session: (string, string), ids: set<string>)
    : map<(string, string), set<string>>
  {
    if ids == {} then sets else sets[session := (if session in sets then sets[session] else {}) + ids]
  }

  /** The ids join those of earlier compactions. */
  lemma IdsJoin(sets: map<(string, string), set<string>>, session: (string, string), ids: set<string>, id: string)
    ensures var before := if session in sets then sets[session] else {};
            var after := if session in WithIds(sets, session, ids) then WithIds(sets, session, ids)[session] else {};
            id in after <==> id in before || id in ids
  {
  }

  class CompactionEngine {
    var states: map<(string, string), CompactState>
    var compactedIds: map<(string, string), set<string>>
    const summaryMaxTokens: nat

    constructor (summaryMaxTokens: nat)
      ensures this.summaryMaxTokens == summaryMaxTokens && states == map[] && compactedIds == map[]
    {
      this.summaryMaxTokens := summaryMaxTokens;
      states, compactedIds := map[], map[];
    }

    /** Below the threshold nothing happens. Otherwise the session's state is replaced and the ids of
        the compressed and dropped messages join its compacted set. */
    method CompactWithContext(session: (string, string), messages: seq<Message>, goals: seq<GoalState>,
                              policy: CompactionPolicy, lex: Lexicon, force: bool,
                              currentTokenCount: Option<nat>, llm: Option<string>) returns (r: CompactResult)
      modifies this
      ensures r.tokensBefore == if currentTokenCount.Some? then currentTokenCount.value else Tokens(messages)
      ensures r.compacted == ShouldTrigger(r.tokensBefore, policy, force)
      ensures !r.compacted ==> states == old(states) && compactedIds == old(compactedIds)
      ensures r.compacted ==>
                var preserve := Part(Preserve, messages, goals, policy, lex);
                var compress := Part(Compress, messages, goals, policy, lex);
                var digest := Summary(compress, llm, summaryMaxTokens);
                && r.tokensAfter == Tokens(preserve) + SummaryTokens(digest)
                && states == old(states)[session := StateOf(preserve, messages, goals, lex, digest)]
                && compactedIds == WithIds(old(compactedIds), session, AllItemIds(compress + Part(Drop, messages, goals, policy, lex)))
      ensures forall s :: s != session ==>
                (s in states <==> s in old(states)) && (s in states ==> states[s] == old(states)[s])
                && (s in compactedIds <==> s in old(compactedIds)) && (s in compactedIds ==> compactedIds[s] == old(compactedIds)[s])
    {
      var currentTokens;
      if currentTokenCount.Some? { currentTokens := currentTokenCount.value; } else { currentTokens := CountTokens(messages); }
      if !ShouldTrigger(currentTokens, policy, force) {
        return CompactResult(false, currentTokens, 0);
      }
      var preserve, compress, drop := ClassifyMessages(messages, goals, policy, lex);
      var digest := Summary(compress, llm, summaryMaxTokens);
      var tokensAfter := CountTokens(preserve);
      if digest != "" { tokensAfter := tokensAfter + EstimateTokens(digest); }
      var ids := CollectIds(compress + drop);
      states := states[session := StateOf(preserve, messages, goals, lex, digest)];
      compactedIds := WithIds(compactedIds, session, ids);
      r := CompactResult(true, currentTokens, tokensAfter);
    }
  }

  method CollectIds(gone: seq<Message>) returns (ids: set<string>)
    ensures ids == AllItemIds(gone)
  {
    ids := {};
    for i := 0 to |gone|
      invariant ids == AllItemIds(gone[..i])
    {
      ids := ids + ItemIds(gone[i]);
      assert gone[..i + 1] == gone[..i] + [gone[i]];
    }
    assert gone[..|gone|] == gone;
  }

  /** An id is marked compacted exactly when some message that was not preserved carries it, as its own
      or among those of its facts. */
  lemma CompactedIdsExact(all: seq<Message>, goals: seq<GoalState>, policy: CompactionPolicy, lex: Lexicon, id: string)
    ensures id in AllItemIds(Part(Compress, all, goals, policy, lex) + Part(Drop, all, goals, policy, lex))
            <==> exists m :: m in all && m !in Part(Preserve, all, goals, policy, lex) && Carries(m, id)
  {
    var f := Classifier(all, goals, policy, lex);
    forall m ensures m in Select(all, Compress, f) + Select(all, Drop, f) <==> m in all && m !in Select(all, Preserve, f) {
      SelectMember(all, Compress, f, m);
      SelectMember(all, Drop, f, m);
      SelectMember(all, Preserve, f, m);
    }
    assert forall m :: id in ItemIds(m) <==> Carries(m, id);
  }

  predicate Carries(m: Message, id: string) {
    (id != "" && MetaGet(m, "eb_message_id") == id) || id in Pieces(MetaGet(m, "eb_fact_ids"))
  }

  // ----- the rules in the source's own terms -----

  /** The threshold with its multipliers; anything but the two named cadences counts as balanced. */
  lemma TriggerExactly(tokens: nat, policy: CompactionPolicy, force: bool)
    ensures ShouldTrigger(tokens, policy, force) <==>
              force
              || (policy.cadence == "aggressive" && (tokens as real) > (policy.targetTokens as real) * 1.5)
              || (policy.cadence == "minimal" && (tokens as real) > (policy.targetTokens as real) * 3.0)
              || (policy.cadence != "aggressive" && policy.cadence != "minimal"
                  && (tokens as real) > (policy.targetTokens as real) * 2.0)
  {
    var t := policy.targetTokens as real;
    assert 2.0 * (t * 1.5) == t * 3.0 && 2.0 * (t * 2.0) == t * 4.0 && 2.0 * (t * 3.0) == t * 6.0;
    assert "aggressive" != "minimal";
  }

  /** Phatic, on the text between its surrounding white space: a user's, shorter than 20 characters, without
      a question mark, and one of the phrases. */
  lemma PhaticExactly(m: Message, lex: Lexicon) returns (a: nat, b: nat)
    ensures a <= b <= |m.text| && Blank(m.text[..a], PySpace) && Blank(m.text[b..], PySpace)
    ensures a < b ==> !PySpace(m.text[a]) && !PySpace(m.text[b - 1])
    ensures IsPhatic(m, lex) <==> m.role == "user" && b - a < 20 && '?' !in m.text && lex.phatic(m.text[a..b])
  {
    a, b := TrimExactly(m.text, PySpace);
    if '?' in m.text {
      QuestionsAreNotPhatic(m, lex);
    } else {
      assert forall i :: a <= i < b ==> m.text[a..b][i - a] == m.text[i];
    }
  }

  /** A linked fact of class policy or procedural: the classes are listed in the order of the facts. */
  predicate LinkedDurably(m: Message) {
    exists i :: 0 <= i < |Pieces(MetaGet(m, "eb_fact_ids"))| && i < |Pieces(MetaGet(m, "eb_fact_classes"))|
                && Pieces(MetaGet(m, "eb_fact_classes"))[i] in ["policy", "procedural"]
  }

  /** A word of the message is a word of the title of some goal. */
  predicate SharesWord(m: Message, goals: seq<GoalState>, lex: Lexicon) {
    exists i, w :: 0 <= i < |goals| && w in lex.words(m.text) && w in lex.words(goals[i].title)
  }

  /** Judged from its first occurrence, nothing of more than five characters by another role follows. */
  ghost predicate Unanswered(m: Message, all: seq<Message>) {
    exists i :: 0 <= i < |all| && all[i] == m && (forall k :: 0 <= k < i ==> all[k] != m)
                && forall j :: i < j < |all| ==> all[j].role == m.role || |Strip(all[j].text)| <= 5
  }

  lemma DurableExactly(m: Message)
    ensures LinkedClasses(m) != [] && Durable(Highest(LinkedClasses(m))) <==> LinkedDurably(m)
  {
    if MetaGet(m, "eb_fact_ids") == "" {
      NoPieces();
    } else {
      PairedExactly(Pieces(MetaGet(m, "eb_fact_ids")), Pieces(MetaGet(m, "eb_fact_classes")));
    }
  }

  lemma PairedExactly(ids: seq<string>, classes: seq<string>)
    ensures var paired := seq(|ids|, i requires 0 <= i < |ids| => if i < |classes| then classes[i] else "working_memory");
            paired != [] && Durable(Highest(paired))
            <==> exists i :: 0 <= i < |ids| && i < |classes| && classes[i] in ["policy", "procedural"]
  {
    var paired := seq(|ids|, i requires 0 <= i < |ids| => if i < |classes| then classes[i] else "working_memory");
    DurableAmong(paired);
    if i :| 0 <= i < |paired| && Durable(paired[i]) {
      assert paired[i] != "working_memory" && classes[i] == paired[i];
    }
    if i :| 0 <= i < |ids| && i < |classes| && classes[i] in ["policy", "procedural"] {
      assert Durable(paired[i]);
    }
  }

  /** The highest class is durable exactly when one of them is. */
  lemma DurableAmong(classes: seq<string>)
    ensures classes != [] && Durable(Highest(classes)) <==> exists i :: 0 <= i < |classes| && Durable(classes[i])
  {
    if classes != [] {
      HighestBounds(classes);
      var j :| 0 <= j < |classes| && classes[j] == Highest(classes);
      if i :| 0 <= i < |classes| && Durable(classes[i]) {
        assert classes[i] in classes && Rank(classes[i]) >= 3;
      }
    }
  }

  lemma NoPieces()
    ensures Pieces("") == []
  {
    assert SplitOn("", ',') == [""] && StripAll([""]) == [""];
    assert [""][1..] == [];
  }

  lemma OpenExactly(m: Message, all: seq<Message>)
    requires m in all
    ensures IsOpenQuestion(m, all) <==> '?' in m.text && Unanswered(m, all)
  {
    var i := IndexOf(all, m);
    var later := all[i + 1..];
    assert forall k :: 0 <= k < |later| ==> later[k] == all[i + 1 + k];
    if '?' in m.text && !Answered(m, all[i + 1..]) {
      forall j | i < j < |all| ensures all[j].role == m.role || |Strip(all[j].text)| <= 5 {
        assert later[j - i - 1] == all[j];
      }
    }
  }

  lemma WordsExactly(m: Message, goals: seq<GoalState>, lex: Lexicon)
    ensures ReferencesGoal(m, goals, lex) <==> SharesWord(m, goals, lex)
  {
    if i :| 0 <= i < |goals| && lex.words(m.text) * lex.words(goals[i].title) != {} {
      var w :| w in lex.words(m.text) * lex.words(goals[i].title);
    }
    if i, w :| 0 <= i < |goals| && w in lex.words(m.text) && w in lex.words(goals[i].title) {
      assert w in lex.words(m.text) * lex.words(goals[i].title);
    }
  }

  /** What each bucket holds. Dropped: what was compacted before, and what is phatic. Preserved: of the rest,
      what is linked to a durable fact, shares a word with a goal, is an open question, states a decision
      or refers to evidence, three of these if the policy says so. Compressed: everything else. */
  lemma BucketsExactly(m: Message, all: seq<Message>, goals: seq<GoalState>, policy: CompactionPolicy, lex: Lexicon)
    ensures var gone := MetaGet(m, "eb_compacted") == "true" || IsPhatic(m, lex);
            var kept := LinkedDurably(m)
                        || (policy.preserveGoalState && SharesWord(m, goals, lex))
                        || (policy.preserveOpenQuestions && '?' in m.text && Unanswered(m, all))
                        || lex.decision(m.text)
                        || (policy.preserveEvidenceRefs && lex.evidence(m.text));
            && (m in Part(Drop, all, goals, policy, lex) <==> m in all && gone)
            && (m in Part(Preserve, all, goals, policy, lex) <==> m in all && !gone && kept)
            && (m in Part(Compress, all, goals, policy, lex) <==> m in all && !gone && !kept)
  {
    var f := Classifier(all, goals, policy, lex);
    SelectMember(all, Drop, f, m);
    SelectMember(all, Preserve, f, m);
    SelectMember(all, Compress, f, m);
    DurableExactly(m);
    WordsExactly(m, goals, lex);
    if m in all { OpenExactly(m, all); }
  }

  /** Each bucket keeps the order of the messages. */
  lemma BucketsKeepOrder(b: Bucket, all: seq<Message>, goals: seq<GoalState>, policy: CompactionPolicy, lex: Lexicon)
    returns (at: seq<nat>)
    ensures var part := Part(b, all, goals, policy, lex);
            && |at| == |part| && (forall k :: 0 <= k < |at| ==> at[k] < |all| && part[k] == all[at[k]])
            && (forall k, l :: 0 <= k < l < |at| ==> at[k] < at[l])
  {
    var f := Classifier(all, goals, policy, lex);
    at := KeepPositions(all, (m: Message) => f(m) == b);
  }

  /** The highest class in the order of durability; without a known class it is the first one given. */
  lemma HighestExactly(classes: seq<string>)
    ensures Highest(classes) == if "policy" in classes then "policy" else if "procedural" in classes then "procedural"
                                else if "semantic" in classes then "semantic" else if "episodic" in classes then "episodic"
                                else if classes == [] then "working_memory" else classes[0]
  {
    if classes != [] {
      HighestBounds(classes);
      if Rank(Highest(classes)) == 0 { UnknownStays(classes); }
    }
  }

  lemma {:induction false} UnknownStays(classes: seq<string>)
    requires classes != [] && forall c :: c in classes ==> Rank(c) == 0
    ensures Highest(classes) == classes[0]
  {
    if |classes| > 1 {
      var n := |classes| - 1;
      assert forall c :: c in classes[..n] ==> c in classes;
      UnknownStays(classes[..n]);
      assert classes[n] in classes && classes[0] in classes;
    }
  }

  /** The digest: nothing for nothing; the model's trimmed answer; else the conversation, whole if it fits in
      four characters per token and otherwise its start of exactly that length with dots. */
  lemma SummaryExactly(compress: seq<Message>, llm: Option<string>, maxTokens: nat)
    ensures var s, talk := Summary(compress, llm, maxTokens), Conversation(compress);
            && (compress == [] ==> s == "")
            && (compress != [] && llm.Some? ==> s == Strip(llm.value))
            && (compress != [] && llm.None? && |talk| <= 4 * maxTokens ==> s == talk)
            && (compress != [] && llm.None? && |talk| > 4 * maxTokens ==>
                  |s| == 4 * maxTokens + 3 && s[..4 * maxTokens] <= talk && s[4 * maxTokens..] == "...")
  {
  }

  /** The conversation text: one line for each message, its role in brackets before its text. */
  lemma {:induction false} ConversationExactly(messages: seq<Message>, i: nat) returns (before: string, after: string)
    requires i < |messages|
    ensures Conversation(messages) == before + "[" + messages[i].role + "]: " + messages[i].text + after
    ensures (before == "" <==> i == 0) && (i > 0 ==> before[|before| - 1] == '\n')
    ensures (after == "" <==> i == |messages| - 1) && (i < |messages| - 1 ==> after[0] == '\n')
  {
    var lines := Lines(messages);
    before, after := JoinAround(lines, "\n", i);
    assert lines[i] == "[" + messages[i].role + "]: " + messages[i].text;
    assert before + lines[i] + after == before + "[" + messages[i].role + "]: " + messages[i].text + after;
  }

  /** The persisted state: goal titles, the first 20 decisions, the first 10 open questions and the first 10
      evidence references among the preserved messages, and the ids that preserved messages have. */
  lemma StateExactly(preserve: seq<Message>, all: seq<Message>, goals: seq<GoalState>, lex: Lexicon, digest: string)
    ensures var s := StateOf(preserve, all, goals, lex, digest);
            && |s.decisions| == Least(|Keep(preserve, (m: Message) => lex.decision(m.text))|, 20)
            && |s.openQuestions| == Least(|Keep(preserve, (m: Message) => IsOpenQuestion(m, all))|, 10)
            && |s.evidence| == Least(|Keep(preserve, (m: Message) => lex.evidence(m.text))|, 10)
            && (forall i :: 0 <= i < |s.decisions| ==> s.decisions[i] == Keep(preserve, (m: Message) => lex.decision(m.text))[i].text)
            && (forall i :: 0 <= i < |s.openQuestions| ==>
                  s.openQuestions[i] == Keep(preserve, (m: Message) => IsOpenQuestion(m, all))[i].text)
            && (forall i :: 0 <= i < |s.evidence| ==> s.evidence[i] == Keep(preserve, (m: Message) => lex.evidence(m.text))[i].text)
            && s.digest == digest && s.messageCount == |all|
            && s.tokenCount == Tokens(preserve) + (if digest == "" then 0 else EstimateTokens(digest))
  {
  }

  function Least(a: nat, b: nat): nat { if a <= b then a else b }

  lemma {:induction false} PreservedIdsExactly(preserve: seq<Message>, id: string)
    ensures id in MessageIds(preserve) <==> id != "" && exists m :: m in preserve && MetaGet(m, "eb_message_id") == id
  {
    var ids := seq(|preserve|, i requires 0 <= i < |preserve| => MetaGet(preserve[i], "eb_message_id"));
    KeepMember(ids, (s: string) => s != "", id);
    if id in ids {
      var i :| 0 <= i < |ids| && ids[i] == id;
      assert preserve[i] in preserve;
    }
    if m :| m in preserve && MetaGet(m, "eb_message_id") == id {
      var i :| 0 <= i < |preserve| && preserve[i] == m;
      assert ids[i] == id;
    }
  }
}
