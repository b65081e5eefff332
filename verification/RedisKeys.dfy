/** The gateway-scoped key grammar of `redis_keys.py`, its scan patterns and the TTL refresh. */
module RedisKeys {

  // ----- the grammar -----

  datatype Single =
    | IngestBuffer | RecentFacts | SessionGoals | SessionParent | FactAsyncUse | SessionChildren

  datatype Scoped =
    | WsSnapshot | CompactState | SessionContext | CompactStateObj | SessionArtifacts
    | ProcedureExec | SessionMessages | GuardHistory | FactDomains

  /** One constructor per shape of builder method, with that method's arguments. */
  datatype Key =
    | SingleKey(single: Single, id: string)
    | ScopedKey(scoped: Scoped, sessionKey: string, sessionId: string)
    | Approval(agentId: string, requestId: string)
    | ApprovalsBySession(agentId: string, sessionId: string)
    | ConsolidationLock
    | ConsolidationStatus

  function SingleTag(f: Single): string {
    match f
    case IngestBuffer => "ingest_buffer"
    case RecentFacts => "recent_facts"
    case SessionGoals => "session_goals"
    case SessionParent => "session_parent"
    case FactAsyncUse => "fact_async_use"
    case SessionChildren => "session_children"
  }

  function ScopedTag(f: Scoped): string {
    match f
    case WsSnapshot => "ws_snapshot"
    case CompactState => "compact_state"
    case SessionContext => "session_context"
    case CompactStateObj => "compact_state_obj"
    case SessionArtifacts => "session_artifacts"
    case ProcedureExec => "procedure_exec"
    case SessionMessages => "session_messages"
    case GuardHistory => "guard_history"
    case FactDomains => "fact_domains"
  }

  predicate IsLock(k: Key) { k.ConsolidationLock? || k.ConsolidationStatus? }

  /** The first component after the gateway id. */
  function Head(k: Key): string {
    match k
    case SingleKey(f, _) => SingleTag(f)
    case ScopedKey(f, _, _) => ScopedTag(f)
    case Approval(agent, _) => agent
    case ApprovalsBySession(agent, _) => agent
    case ConsolidationLock => "consolidation_lock"
    case ConsolidationStatus => "consolidation_status"
  }

  /** What follows the first component and its colon. */
  function Tail(k: Key): string {
    match k
    case SingleKey(_, id) => id
    case ScopedKey(_, sk, sid) => sk + ":" + sid
    case Approval(_, request) => "approval:" + request
    case ApprovalsBySession(_, sid) => "approvals_by_session:" + sid
    case ConsolidationLock => ""
    case ConsolidationStatus => ""
  }

  /** What follows `eb:{gateway_id}:`. */
  function Body(k: Key): string {
    if IsLock(k) then Head(k) else Head(k) + ":" + Tail(k)
  }

  function Render(gateway: string, k: Key): string {
    "eb:" + gateway + ":" + Body(k)
  }

  /** The one global family, not scoped by gateway. */
  function EmbeddingCache(textHash: string): string {
    "eb:emb_cache:" + textHash
  }

  predicate ColonFree(s: string) { ':' !in s }

  /** What follows the prefix and its colon in the keys of each family. */
  lemma SingleTexts(x: string)
    ensures Body(SingleKey(IngestBuffer, x)) == "ingest_buffer" + ":" + x
    ensures Body(SingleKey(RecentFacts, x)) == "recent_facts" + ":" + x
    ensures Body(SingleKey(SessionGoals, x)) == "session_goals" + ":" + x
    ensures Body(SingleKey(SessionParent, x)) == "session_parent" + ":" + x
    ensures Body(SingleKey(FactAsyncUse, x)) == "fact_async_use" + ":" + x
    ensures Body(SingleKey(SessionChildren, x)) == "session_children" + ":" + x
  {
  }

  lemma ScopedTexts(sk: string, sid: string)
    ensures Body(ScopedKey(WsSnapshot, sk, sid)) == "ws_snapshot" + ":" + (sk + ":" + sid)
    ensures Body(ScopedKey(CompactState, sk, sid)) == "compact_state" + ":" + (sk + ":" + sid)
    ensures Body(ScopedKey(SessionContext, sk, sid)) == "session_context" + ":" + (sk + ":" + sid)
    ensures Body(ScopedKey(CompactStateObj, sk, sid)) == "compact_state_obj" + ":" + (sk + ":" + sid)
    ensures Body(ScopedKey(SessionArtifacts, sk, sid)) == "session_artifacts" + ":" + (sk + ":" + sid)
    ensures Body(ScopedKey(ProcedureExec, sk, sid)) == "procedure_exec" + ":" + (sk + ":" + sid)
    ensures Body(ScopedKey(SessionMessages, sk, sid)) == "session_messages" + ":" + (sk + ":" + sid)
    ensures Body(ScopedKey(GuardHistory, sk, sid)) == "guard_history" + ":" + (sk + ":" + sid)
    ensures Body(ScopedKey(FactDomains, sk, sid)) == "fact_domains" + ":" + (sk + ":" + sid)
  {
  }

  lemma OtherTexts(agent: string, id: string)
    ensures Body(Approval(agent, id)) == agent + ":" + ("approval:" + id)
    ensures Body(ApprovalsBySession(agent, id)) == agent + ":" + ("approvals_by_session:" + id)
    ensures Body(ConsolidationLock) == "consolidation_lock" && Body(ConsolidationStatus) == "consolidation_status"
  {
  }

  // ----- unique decomposition around colons -----

  lemma FirstColon(a: string, x: string, b: string, y: string)
    requires ColonFree(a) && ColonFree(b)
    requires a + ":" + x == b + ":" + y
    ensures a == b && x == y
  {
    var s, t := a + ":" + x, b + ":" + y;
    assert s[|a|] == ':' && t[|b|] == ':';
    assert s[..|a|] == a && t[..|b|] == b;
    assert forall i :: 0 <= i < |a| ==> s[i] == a[i];
    assert forall i :: 0 <= i < |b| ==> t[i] == b[i];
    assert x == s[|a| + 1..] && y == t[|b| + 1..];
  }

  lemma LastColon(x: string, a: string, y: string, b: string)
    requires ColonFree(a) && ColonFree(b)
    requires x + ":" + a == y + ":" + b
    ensures x == y && a == b
  {
    var s, t := x + ":" + a, y + ":" + b;
    assert s[|x|] == ':' && t[|y|] == ':';
    assert s[|x| + 1..] == a && t[|y| + 1..] == b;
    assert forall i :: |x| < i < |s| ==> s[i] == a[i - |x| - 1];
    assert forall i :: |y| < i < |t| ==> t[i] == b[i - |y| - 1];
    assert x == s[..|x|] && y == t[..|y|];
  }

  /** Equal texts cut at two colons: the shorter left part, with its colon, starts the longer one. */
  lemma ColonsAlign(a: string, x: string, b: string, y: string)
    requires a + ":" + x == b + ":" + y && |a| < |b|
    ensures a + ":" <= b && b[|a| + 1..] + ":" + y == x
  {
    var s, t := a + ":" + x, b + ":" + y;
    assert s[..|a| + 1] == a + ":" && t[..|b|] == b;
    assert s[..|a| + 1] == t[..|b|][..|a| + 1];
    assert x == s[|a| + 1..] && b[|a| + 1..] + ":" + y == t[|a| + 1..];
  }

  /** Length and two letters already tell the tags apart. */
  lemma TagsDiffer()
    ensures forall f, g :: SingleTag(f) == SingleTag(g) ==> f == g
    ensures forall f, g :: ScopedTag(f) == ScopedTag(g) ==> f == g
    ensures forall f, g :: SingleTag(f) != ScopedTag(g)
    ensures forall f :: ColonFree(SingleTag(f)) && SingleTag(f) != ""
    ensures forall f :: ColonFree(ScopedTag(f)) && ScopedTag(f) != ""
  {
    SingleTagsDiffer();
    ScopedTagsDiffer();
    TagKindsDiffer();
  }

  lemma SingleTagsDiffer()
    ensures forall f, g :: SingleTag(f) == SingleTag(g) ==> f == g
    ensures forall f :: ColonFree(SingleTag(f)) && SingleTag(f) != ""
  {
    forall f, g ensures SingleTag(f) == SingleTag(g) ==> f == g {
      if f != g { assert |SingleTag(f)| == |SingleTag(g)| ==> SingleTag(f)[0] != SingleTag(g)[0]; }
    }
  }

  lemma ScopedTagsDiffer()
    ensures forall f, g :: ScopedTag(f) == ScopedTag(g) ==> f == g
    ensures forall f :: ColonFree(ScopedTag(f)) && ScopedTag(f) != ""
  {
    forall f, g ensures ScopedTag(f) == ScopedTag(g) ==> f == g {
      if f != g { assert |ScopedTag(f)| == |ScopedTag(g)| ==> ScopedTag(f)[0] != ScopedTag(g)[0]; }
    }
  }

  lemma TagKindsDiffer()
    ensures forall f, g :: SingleTag(f) != ScopedTag(g)
  {
    forall f, g ensures SingleTag(f) != ScopedTag(g) {
      if |SingleTag(f)| == |ScopedTag(g)| {
        assert SingleTag(f)[0] != ScopedTag(g)[0] || SingleTag(f)[8] != ScopedTag(g)[8];
      }
    }
  }

  // ----- two gateways -----

  predicate ColonExtends(longer: string, shorter: string) {
    shorter + ":" <= longer
  }

  ghost predicate NeverCollide(g1: string, g2: string) {
    forall k1: Key, k2: Key :: Render(g1, k1) != Render(g2, k2)
  }

  /** Two gateways share no key at all exactly when neither id is a colon-extension of the other. */
  lemma GatewaysIsolated(g1: string, g2: string)
    ensures NeverCollide(g1, g2) <==> g1 != g2 && !ColonExtends(g1, g2) && !ColonExtends(g2, g1)
  {
    if g1 == g2 {
      assert Render(g1, ConsolidationLock) == Render(g2, ConsolidationLock);
    } else if ColonExtends(g1, g2) {
      CollisionWitness(g2, g1);
    } else if ColonExtends(g2, g1) {
      CollisionWitness(g1, g2);
    } else {
      forall k1: Key, k2: Key ensures Render(g1, k1) != Render(g2, k2) {
        if Render(g1, k1) == Render(g2, k2) {
          SharedKeyMeansPrefix(g1, Body(k1), g2, Body(k2));
        }
      }
    }
  }

  lemma SharedKeyMeansPrefix(g1: string, body1: string, g2: string, body2: string)
    requires "eb:" + g1 + ":" + body1 == "eb:" + g2 + ":" + body2
    ensures g1 == g2 || ColonExtends(g1, g2) || ColonExtends(g2, g1)
    ensures g1 + ":" + body1 == g2 + ":" + body2
  {
    assert ("eb:" + g1 + ":" + body1)[3..] == g1 + ":" + body1;
    assert ("eb:" + g2 + ":" + body2)[3..] == g2 + ":" + body2;
    if |g1| < |g2| {
      ColonsAlign(g1, body1, g2, body2);
    } else if |g2| < |g1| {
      ColonsAlign(g2, body2, g1, body1);
    } else {
      assert g1 == (g1 + ":" + body1)[..|g1|] == (g2 + ":" + body2)[..|g1|] == g2;
    }
  }

  /** An agent id may smuggle the rest of a longer gateway id. */
  lemma CollisionWitness(g: string, longer: string)
    requires ColonExtends(longer, g)
    ensures !NeverCollide(g, longer) && !NeverCollide(longer, g)
  {
    var rest := longer[|g| + 1..];
    assert longer == g + ":" + rest;
    var tag, tail := SingleTag(IngestBuffer), "approval:" + "r";
    var k1 := Approval(rest + ":" + tag + ":" + "x", "r");
    var k2 := SingleKey(IngestBuffer, "x" + ":" + tail);
    Regroup("eb:", g, ":", rest, tag, "x", tail);
    assert Body(k1) == rest + ":" + tag + ":" + "x" + ":" + tail && Body(k2) == tag + ":" + ("x" + ":" + tail);
    assert Render(g, k1) == Render(longer, k2);
  }

  lemma Regroup(a: string, g: string, c: string, rest: string, tag: string, x: string, tail: string)
    ensures a + g + c + (rest + c + tag + c + x + c + tail) == a + (g + c + rest) + c + (tag + c + (x + c + tail))
  {
  }

  /** The promise as documented: ids without colons never meet. */
  lemma ColonFreeGatewaysIsolated(g1: string, g2: string)
    requires ColonFree(g1) && ColonFree(g2) && g1 != g2
    ensures NeverCollide(g1, g2)
  {
    GatewaysIsolated(g1, g2);
    assert (g2 + ":")[|g2|] == ':' && (g1 + ":")[|g1|] == ':';
    assert ':' in g2 + ":" && ':' in g1 + ":";
  }

  /** A colon-free gateway reaches into the global embedding cache only if it is called `emb_cache`. */
  lemma EmbeddingCacheSeparate(gateway: string, k: Key)
    requires ColonFree(gateway)
    ensures (exists h: string :: Render(gateway, k) == EmbeddingCache(h)) <==> gateway == "emb_cache"
  {
    if gateway == "emb_cache" {
      GatewayMeetsEmbedding(Body(k));
      assert Render(gateway, k) == EmbeddingCache(Body(k));
    }
    forall h: string | Render(gateway, k) == EmbeddingCache(h) ensures gateway == "emb_cache" {
      EmbeddingMeansGateway(gateway, Body(k), h);
    }
  }

  lemma GatewayMeetsEmbedding(body: string)
    ensures "eb:" + "emb_cache" + ":" + body == EmbeddingCache(body)
  {
  }

  lemma EmbeddingMeansGateway(gateway: string, body: string, h: string)
    requires ColonFree(gateway) && "eb:" + gateway + ":" + body == EmbeddingCache(h)
    ensures gateway == "emb_cache"
  {
    assert EmbeddingCache(h) == "eb:" + "emb_cache" + ":" + h;
    SharedKeyMeansPrefix(gateway, body, "emb_cache", h);
    FirstColon(gateway, body, "emb_cache", h);
  }

  // ----- one gateway -----

  ghost predicate IsTag(s: string) {
    (exists f :: s == SingleTag(f)) || (exists f :: s == ScopedTag(f))
  }

  /** Session ids (UUIDs) and agent ids carry no colon, and no agent is called like a family. */
  ghost predicate Plain(k: Key) {
    match k
    case SingleKey(_, _) => true
    case ScopedKey(_, _, sid) => ColonFree(sid)
    case Approval(agent, _) => ColonFree(agent) && !IsTag(agent)
    case ApprovalsBySession(agent, _) => ColonFree(agent) && !IsTag(agent)
    case ConsolidationLock => true
    case ConsolidationStatus => true
  }

  lemma HeadsColonFree(k: Key)
    requires Plain(k)
    ensures ColonFree(Head(k))
  {
    TagsDiffer();
  }

  /** The first component tells the family, the two approval families apart from each other excepted. */
  lemma HeadsTellFamilies(k1: Key, k2: Key)
    requires Plain(k1) && Plain(k2) && !IsLock(k1) && !IsLock(k2) && Head(k1) == Head(k2)
    ensures k1.SingleKey? ==> k2.SingleKey? && k1.single == k2.single
    ensures k1.ScopedKey? ==> k2.ScopedKey? && k1.scoped == k2.scoped
    ensures k1.Approval? || k1.ApprovalsBySession? ==> k2.Approval? || k2.ApprovalsBySession?
  {
    TagsDiffer();
  }

  /** The second component tells the two approval families apart. */
  lemma ApprovalTails(k1: Key, k2: Key)
    requires k1.Approval? || k1.ApprovalsBySession?
    requires k2.Approval? || k2.ApprovalsBySession?
    requires Head(k1) == Head(k2) && Tail(k1) == Tail(k2)
    ensures k1 == k2
  {
    var t1, t2 := Tail(k1), Tail(k2);
    assert t1[8] == if k1.Approval? then ':' else 's';
    assert t2[8] == if k2.Approval? then ':' else 's';
    assert k1.Approval? ==> k1.requestId == t1[9..];
    assert k2.Approval? ==> k2.requestId == t2[9..];
    assert k1.ApprovalsBySession? ==> k1.sessionId == t1[21..];
    assert k2.ApprovalsBySession? ==> k2.sessionId == t2[21..];
  }

  lemma LocksApart(k1: Key, k2: Key)
    requires IsLock(k1) && Body(k1) == Body(k2)
    ensures k1 == k2
  {
    assert ColonFree(Body(k1));
    assert (Head(k2) + ":" + Tail(k2))[|Head(k2)|] == ':';
    assert |Head(ConsolidationLock)| != |Head(ConsolidationStatus)|;
  }

  /** Within a gateway every key has one reading: family and arguments are recovered from the text,
      even when the session key itself contains colons. */
  lemma KeysInjective(gateway: string, k1: Key, k2: Key)
    requires Plain(k1) && Plain(k2)
    requires Render(gateway, k1) == Render(gateway, k2)
    ensures k1 == k2
  {
    var p := "eb:" + gateway + ":";
    assert Body(k1) == Render(gateway, k1)[|p|..] && Body(k2) == Render(gateway, k2)[|p|..];
    if IsLock(k1) {
      LocksApart(k1, k2);
    } else if IsLock(k2) {
      LocksApart(k2, k1);
    } else {
      HeadsColonFree(k1);
      HeadsColonFree(k2);
      FirstColon(Head(k1), Tail(k1), Head(k2), Tail(k2));
      HeadsTellFamilies(k1, k2);
      if k1.ScopedKey? {
        LastColon(k1.sessionKey, k1.sessionId, k2.sessionKey, k2.sessionId);
      } else if !k1.SingleKey? {
        ApprovalTails(k1, k2);
      }
    }
  }

  ghost predicate Confusable(f: Scoped, sid1: string, sid2: string) {
    exists sk1: string, sk2: string :: Body(ScopedKey(f, sk1, sid1)) == Body(ScopedKey(f, sk2, sid2))
  }

  /** Which colons break it: two session ids can be confused exactly when one ends in `:` + the other. */
  lemma SessionIdsConfusable(f: Scoped, sid1: string, sid2: string)
    requires sid1 != sid2
    ensures Confusable(f, sid1, sid2)
            <==> (exists t: string :: sid1 == t + ":" + sid2 || sid2 == t + ":" + sid1)
  {
    forall t: string | sid1 == t + ":" + sid2 || sid2 == t + ":" + sid1 ensures Confusable(f, sid1, sid2) {
      if sid1 == t + ":" + sid2 {
        Borrowed(f, t, sid2);
      } else {
        Borrowed(f, t, sid1);
      }
    }
    forall sk1: string, sk2: string | Body(ScopedKey(f, sk1, sid1)) == Body(ScopedKey(f, sk2, sid2))
      ensures exists t: string :: sid1 == t + ":" + sid2 || sid2 == t + ":" + sid1
    {
      var t := LongerBorrows(f, sk1, sid1, sk2, sid2);
    }
  }

  /** The start of a longer session id can as well be the end of a session key. */
  lemma Borrowed(f: Scoped, t: string, sid: string)
    ensures Body(ScopedKey(f, "k", t + ":" + sid)) == Body(ScopedKey(f, "k" + ":" + t, sid))
  {
    assert "k" + ":" + (t + ":" + sid) == ("k" + ":" + t) + ":" + sid;
  }

  lemma LongerBorrows(f: Scoped, sk1: string, sid1: string, sk2: string, sid2: string) returns (t: string)
    requires sid1 != sid2 && Body(ScopedKey(f, sk1, sid1)) == Body(ScopedKey(f, sk2, sid2))
    ensures sid1 == t + ":" + sid2 || sid2 == t + ":" + sid1
  {
    ScopedTagsDiffer();
    FirstColon(ScopedTag(f), sk1 + ":" + sid1, ScopedTag(f), sk2 + ":" + sid2);
    t := TailBorrows(sk1, sid1, sk2, sid2);
  }

  lemma TailBorrows(sk1: string, sid1: string, sk2: string, sid2: string) returns (t: string)
    requires sid1 != sid2 && sk1 + ":" + sid1 == sk2 + ":" + sid2
    ensures sid1 == t + ":" + sid2 || sid2 == t + ":" + sid1
  {
    assert (sk1 + ":" + sid1)[|sk1| + 1..] == sid1 && (sk2 + ":" + sid2)[|sk2| + 1..] == sid2;
    if |sk1| < |sk2| {
      ColonsAlign(sk1, sid1, sk2, sid2);
      t := sk2[|sk1| + 1..];
    } else {
      assert |sk2| < |sk1|;
      ColonsAlign(sk2, sid2, sk1, sid1);
      t := sk1[|sk2| + 1..];
    }
  }

  /** The approval families put the agent id first, so an agent called like a family lands in it. */
  lemma ApprovalMeetsSession(f: Scoped, agent: string, request: string)
    requires ColonFree(agent)
    ensures (exists sk: string, sid: string :: Body(ScopedKey(f, sk, sid)) == Body(Approval(agent, request)))
            <==> agent == ScopedTag(f)
  {
    if agent == ScopedTag(f) {
      assert "approval" + ":" == "approval:";
      assert Tail(ScopedKey(f, "approval", request)) == "approval:" + request;
      assert Body(ScopedKey(f, "approval", request)) == Body(Approval(agent, request));
    }
    forall sk: string, sid: string | Body(ScopedKey(f, sk, sid)) == Body(Approval(agent, request))
      ensures agent == ScopedTag(f)
    {
      TagsDiffer();
      assert Body(Approval(agent, request)) == agent + ":" + ("approval:" + request);
      FirstColon(ScopedTag(f), sk + ":" + sid, agent, "approval:" + request);
    }
  }

  // ----- scan patterns -----

  /** What a glob pattern is made of; a class holds ranges of characters. */
  datatype Item = Only(c: char) | AnyOne | Star | Class(negated: bool, ranges: seq<(char, char)>)

  /** The inside of a class up to its bracket, or to the end when there is none; and what follows it. */
  function ClassBody(p: string): (r: (seq<(char, char)>, string))
    ensures |r.1| <= |p| && (p != "" ==> |r.1| < |p|)
  {
    if p == "" then ([], "")
    else if |p| >= 2 && p[0] == '\\' then
      var (more, rest) := ClassBody(p[2..]); ([(p[1], p[1])] + more, rest)
    else if p[0] == ']' then ([], p[1..])
    else if |p| >= 3 && p[1] == '-' then
      var (more, rest) := ClassBody(p[3..]); ([if p[0] <= p[2] then (p[0], p[2]) else (p[2], p[0])] + more, rest)
    else
      var (more, rest) := ClassBody(p[1..]); ([(p[0], p[0])] + more, rest)
  }

  /** Redis glob syntax. A backslash escapes the next character; at the end it stands for itself. */
  function Items(p: string): seq<Item>
    decreases |p|
  {
    if p == "" then []
    else if p[0] == '*' then [Star] + Items(p[1..])
    else if p[0] == '?' then [AnyOne] + Items(p[1..])
    else if p[0] == '\\' && |p| >= 2 then [Only(p[1])] + Items(p[2..])
    else if p[0] == '[' then
      var negated := |p| >= 2 && p[1] == '^';
      var (ranges, rest) := ClassBody(if negated then p[2..] else p[1..]);
      [Class(negated, ranges)] + Items(rest)
    else [Only(p[0])] + Items(p[1..])
  }

  predicate Accepts(item: Item, c: char) {
    match item
    case Only(d) => c == d
    case AnyOne => true
    case Star => true
    case Class(negated, ranges) => negated != exists i :: 0 <= i < |ranges| && ranges[i].0 <= c <= ranges[i].1
  }

  predicate Matches(items: seq<Item>, s: string)
    decreases |items| + |s|
  {
    if items == [] then s == ""
    else if items[0].Star? then Matches(items[1..], s) || (s != "" && Matches(items, s[1..]))
    else s != "" && Accepts(items[0], s[0]) && Matches(items[1..], s[1..])
  }

  predicate Glob(pattern: string, s: string) { Matches(Items(pattern), s) }

  /** Characters that may stand in the middle of a pattern and mean themselves. */
  predicate Literal(s: string) { '*' !in s && '?' !in s && '[' !in s && '\\' !in s }

  /** A wildcard, a class, or a backslash with something to escape. */
  predicate Special(s: string) {
    '*' in s || '?' in s || '[' in s || (s != "" && '\\' in s[..|s| - 1])
  }

  function Chars(s: string): seq<Item> { seq(|s|, i requires 0 <= i < |s| => Only(s[i])) }

  lemma {:induction false} LiteralItems(lit: string, p: string)
    requires Literal(lit)
    ensures Items(lit + p) == Chars(lit) + Items(p)
  {
    if lit == "" {
      assert lit + p == p && Chars(lit) + Items(p) == Items(p);
    } else {
      assert (lit + p)[0] == lit[0] && (lit + p)[1..] == lit[1..] + p;
      LiteralItems(lit[1..], p);
      assert Chars(lit) == [Only(lit[0])] + Chars(lit[1..]);
      assert [Only(lit[0])] + (Chars(lit[1..]) + Items(p)) == Chars(lit) + Items(p);
    }
  }

  lemma {:induction false} PlainItems(s: string)
    requires !Special(s)
    ensures Items(s) == Chars(s)
  {
    if s != "" {
      var rest := s[1..];
      if rest != "" { assert rest[..|rest| - 1] == s[..|s| - 1][1..]; }
      assert s[0] in s && (|s| >= 2 ==> s[..|s| - 1][0] == s[0]);
      PlainItems(rest);
      assert Chars(s) == [Only(s[0])] + Chars(rest);
    }
  }

  lemma {:induction false} CharsMatch(lit: string, items: seq<Item>, s: string)
    ensures Matches(Chars(lit) + items, s) <==> lit <= s && Matches(items, s[|lit|..])
  {
    if lit == "" {
      assert Chars(lit) + items == items && s[0..] == s;
    } else {
      assert (Chars(lit) + items)[1..] == Chars(lit[1..]) + items;
      if s != "" {
        CharsMatch(lit[1..], items, s[1..]);
        assert lit <= s <==> lit[0] == s[0] && lit[1..] <= s[1..];
        assert lit[1..] <= s[1..] ==> s[1..][|lit| - 1..] == s[|lit|..];
      }
    }
  }

  lemma {:induction false} StarMatches(items: seq<Item>, s: string)
    ensures Matches([Star] + items, s) <==> exists k :: 0 <= k <= |s| && Matches(items, s[k..])
  {
    assert ([Star] + items)[1..] == items;
    assert s[0..] == s;
    if s != "" {
      StarMatches(items, s[1..]);
      assert forall k :: 0 <= k < |s| ==> s[1..][k..] == s[k + 1..];
      if k :| 0 <= k <= |s| && Matches(items, s[k..]) {
        if k > 0 { assert s[1..][k - 1..] == s[k..]; }
      }
      if k :| 0 <= k < |s| && Matches(items, s[1..][k..]) { assert Matches(items, s[k + 1..]); }
    }
  }

  // ----- a pattern that matches only itself has nothing special -----

  ghost predicate Loose(items: seq<Item>) { exists i :: 0 <= i < |items| && (items[i].Star? || items[i].AnyOne?) }

  /** With a wildcard another text matches as well. */
  lemma {:induction false} LooseMatchesMore(items: seq<Item>, s: string) returns (other: string)
    requires Loose(items) && Matches(items, s) && ColonFree(s)
    ensures other != s && Matches(items, other) && ColonFree(other)
  {
    if items[0].Star? {
      other := "x" + s;
      assert other[1..] == s;
    } else if items[0].AnyOne? {
      other := [Other(s[0])] + s[1..];
      assert other[1..] == s[1..] && other[0] != s[0];
    } else {
      var i :| 0 <= i < |items| && (items[i].Star? || items[i].AnyOne?);
      assert items[1..][i - 1] == items[i];
      var rest := LooseMatchesMore(items[1..], s[1..]);
      other := [s[0]] + rest;
      assert other[1..] == rest && s == [s[0]] + s[1..];
    }
  }

  /** Without one every item takes one character, and an empty class takes none. */
  lemma {:induction false} TightLength(items: seq<Item>, s: string)
    requires !Loose(items) && Matches(items, s)
    ensures |s| == |items| && Class(false, []) !in items
  {
    if items != [] {
      assert forall i :: 0 <= i < |items| - 1 ==> items[1..][i] == items[i + 1];
      TightLength(items[1..], s[1..]);
      assert items == [items[0]] + items[1..];
    }
  }

  /** Escapes and classes are longer than what they match, so such a pattern does not match its own text. */
  lemma {:induction false} ItemsShort(p: string)
    ensures |Items(p)| <= |p|
    ensures |Items(p)| == |p| && !Loose(Items(p)) && Class(false, []) !in Items(p) ==> !Special(p)
    decreases |p|
  {
    if p != "" {
      var all := Items(p);
      if p[0] == '\\' && |p| >= 2 {
        ItemsShort(p[2..]);
      } else if p[0] == '[' {
        var negated := |p| >= 2 && p[1] == '^';
        var rest := ClassBody(if negated then p[2..] else p[1..]).1;
        ItemsShort(rest);
        if |p| == 1 { assert all[0] == Class(false, []); }
      } else {
        ItemsShort(p[1..]);
        assert all[1..] == Items(p[1..]);
        assert forall i :: 0 <= i < |all| - 1 ==> all[1..][i] == all[i + 1];
        if p[0] != '*' && p[0] != '?' {
          SpecialTail(p);
        } else {
          assert all[0].Star? || all[0].AnyOne?;
        }
      }
    }
  }

  lemma SpecialTail(p: string)
    requires p != "" && p[0] != '*' && p[0] != '?' && p[0] != '[' && (p[0] == '\\' ==> |p| == 1)
    ensures Special(p) ==> Special(p[1..])
  {
    assert p == [p[0]] + p[1..];
    if |p| > 1 { assert p[..|p| - 1] == [p[0]] + p[1..][..|p| - 2]; }
  }

  /** A colon-free text used as a pattern means only itself exactly when nothing in it is special. */
  lemma OnlyItself(p: string)
    requires ColonFree(p)
    ensures (forall s: string :: ColonFree(s) ==> (Glob(p, s) <==> s == p)) <==> !Special(p)
  {
    if Special(p) {
      ItemsShort(p);
      if Glob(p, p) {
        if Loose(Items(p)) {
          var other := LooseMatchesMore(Items(p), p);
          assert Glob(p, other);
        } else {
          TightLength(Items(p), p);
          assert false;
        }
      }
    } else {
      PlainItems(p);
      forall s: string ensures Glob(p, s) <==> s == p {
        CharsMatch(p, [], s);
        assert Chars(p) + [] == Chars(p);
      }
    }
  }

  function Other(c: char): char { if c == 'x' then 'y' else 'x' }

  // ----- the two scans -----

  function SnapshotScanPattern(gateway: string, sid: string): string {
    "eb:" + gateway + ":" + (ScopedTag(WsSnapshot) + ":*:" + sid)
  }

  function GuardHistoryScanPattern(gateway: string): string {
    "eb:" + gateway + ":" + (ScopedTag(GuardHistory) + ":*")
  }

  predicate IsSnapshotOf(k: Key, sid: string) { k.ScopedKey? && k.scoped == WsSnapshot && k.sessionId == sid }

  predicate IsGuardHistory(k: Key) { k.ScopedKey? && k.scoped == GuardHistory }

  lemma ScanMatches(left: string, right: string, t: string)
    requires Literal(left)
    ensures Glob(left + "*" + right, left + t) <==> exists k :: 0 <= k <= |t| && Glob(right, t[k..])
  {
    assert left + "*" + right == left + ("*" + right);
    assert ("*" + right)[1..] == right;
    LiteralItems(left, "*" + right);
    CharsMatch(left, Items("*" + right), left + t);
    assert (left + t)[|left|..] == t;
    StarMatches(Items(right), t);
  }

  lemma ScanStart(left: string, right: string, s: string)
    requires Literal(left) && Glob(left + right, s)
    ensures left <= s && s == left + s[|left|..]
  {
    LiteralItems(left, right);
    CharsMatch(left, Items(right), s);
  }

  /** `:{sid}` at the end: a colon and what the id's own pattern matches. */
  lemma ColonThen(sid: string, t: string)
    ensures Glob(":" + sid, t) <==> t != "" && t[0] == ':' && Glob(sid, t[1..])
  {
    LiteralItems(":", sid);
    CharsMatch(":", Items(sid), t);
  }

  /** The pattern `left*:sid` finds the texts that go on with some key, a colon and a match of the id. */
  lemma ScanOfId(left: string, sid: string, t: string)
    requires Literal(left)
    ensures Glob(left + "*" + (":" + sid), left + t) <==> exists k :: 0 <= k < |t| && t[k] == ':' && Glob(sid, t[k + 1..])
  {
    ScanMatches(left, ":" + sid, t);
    forall k | 0 <= k <= |t|
      ensures Glob(":" + sid, t[k..]) <==> k < |t| && t[k] == ':' && Glob(sid, t[k + 1..])
    {
      ColonThen(sid, t[k..]);
      if k < |t| { assert t[k..][1..] == t[k + 1..]; }
    }
  }

  /** How the keys of a session-scoped family start. */
  function FamilyStart(gateway: string, f: Scoped): string { "eb:" + gateway + ":" + (ScopedTag(f) + ":") }

  lemma LiteralParts(a: string, b: string)
    ensures Literal(a + b) <==> Literal(a) && Literal(b)
  {
    assert forall i :: 0 <= i < |a + b| ==> (a + b)[i] == if i < |a| then a[i] else b[i - |a|];
    assert forall i :: 0 <= i < |a| ==> a[i] == (a + b)[i];
    assert forall i :: 0 <= i < |b| ==> b[i] == (a + b)[|a| + i];
  }

  lemma TagsLiteral()
    ensures Literal(ScopedTag(WsSnapshot)) && Literal(ScopedTag(GuardHistory)) && Literal(":") && Literal("eb:")
  {
  }

  lemma FamilyStartLiteral(gateway: string, f: Scoped)
    requires Literal(gateway) && (f == WsSnapshot || f == GuardHistory)
    ensures Literal(FamilyStart(gateway, f))
  {
    TagsLiteral();
    LiteralParts(ScopedTag(f), ":");
    LiteralParts("eb:", gateway);
    LiteralParts("eb:" + gateway, ":");
    LiteralParts("eb:" + gateway + ":", ScopedTag(f) + ":");
  }

  lemma SnapshotText(gateway: string, sk: string, sid: string)
    ensures Render(gateway, ScopedKey(WsSnapshot, sk, sid)) == FamilyStart(gateway, WsSnapshot) + (sk + ":" + sid)
    ensures SnapshotScanPattern(gateway, sid) == FamilyStart(gateway, WsSnapshot) + "*" + (":" + sid)
  {
    assert ":*:" == ":" + "*" + ":";
    Regrouped("eb:" + gateway + ":", ScopedTag(WsSnapshot), ":", "*", sk + ":" + sid, sid);
  }

  lemma Regrouped(p: string, tag: string, c: string, star: string, t: string, sid: string)
    ensures p + (tag + c + t) == p + (tag + c) + t
    ensures p + (tag + (c + star + c) + sid) == p + (tag + c) + star + (c + sid)
  {
    assert tag + (c + star + c) + sid == (tag + c) + star + (c + sid);
  }

  /** Among the snapshot keys with plain session keys the pattern of an id finds those whose session id its
      glob matches. */
  lemma SnapshotScanMeaning(gateway: string, sid: string, sk: string, sid': string)
    requires Literal(gateway) && ColonFree(sk) && ColonFree(sid')
    ensures Glob(SnapshotScanPattern(gateway, sid), Render(gateway, ScopedKey(WsSnapshot, sk, sid'))) <==> Glob(sid, sid')
  {
    var t := sk + ":" + sid';
    SnapshotText(gateway, sk, sid');
    SnapshotText(gateway, sk, sid);
    FamilyStartLiteral(gateway, WsSnapshot);
    ScanOfId(FamilyStart(gateway, WsSnapshot), sid, t);
    assert t[|sk|] == ':' && t[|sk| + 1..] == sid';
    assert forall k :: 0 <= k < |t| && t[k] == ':' ==> k == |sk|;
  }

  lemma {:induction false} PlainGlob(p: string, s: string)
    requires !Special(p)
    ensures Glob(p, s) <==> s == p
  {
    PlainItems(p);
    CharsMatch(p, [], s);
    assert Chars(p) + [] == Chars(p);
  }

  /** The snapshot scan of an id finds exactly the snapshot keys of that id if and only if the id has
      nothing special in it; otherwise it misses a key of its own or finds one of another id. */
  lemma SnapshotScan(gateway: string, sid: string)
    requires Literal(gateway) && ColonFree(sid)
    ensures (forall k: Key :: Plain(k) ==> (Glob(SnapshotScanPattern(gateway, sid), Render(gateway, k)) <==> IsSnapshotOf(k, sid)))
            <==> !Special(sid)
  {
    if !Special(sid) {
      forall k: Key | Plain(k)
        ensures Glob(SnapshotScanPattern(gateway, sid), Render(gateway, k)) <==> IsSnapshotOf(k, sid)
      {
        PlainSnapshotScan(gateway, sid, k);
      }
    } else {
      OnlyItself(sid);
      var s: string :| ColonFree(s) && (Glob(sid, s) <==> s != sid);
      SnapshotScanMeaning(gateway, sid, "s", s);
      var k := ScopedKey(WsSnapshot, "s", s);
      assert Plain(k) && (Glob(SnapshotScanPattern(gateway, sid), Render(gateway, k)) <==> !IsSnapshotOf(k, sid));
    }
  }

  lemma PlainSnapshotScan(gateway: string, sid: string, k: Key)
    requires Literal(gateway) && ColonFree(sid) && !Special(sid) && Plain(k)
    ensures Glob(SnapshotScanPattern(gateway, sid), Render(gateway, k)) <==> IsSnapshotOf(k, sid)
  {
    if Glob(SnapshotScanPattern(gateway, sid), Render(gateway, k)) {
      var sk := FoundBySnapshotScan(gateway, sid, Render(gateway, k));
      SnapshotText(gateway, sk, sid);
      KeysInjective(gateway, k, ScopedKey(WsSnapshot, sk, sid));
    }
    if IsSnapshotOf(k, sid) {
      SnapshotText(gateway, k.sessionKey, sid);
      FamilyStartLiteral(gateway, WsSnapshot);
      var t := k.sessionKey + ":" + sid;
      ScanOfId(FamilyStart(gateway, WsSnapshot), sid, t);
      PlainGlob(sid, sid);
      assert t[|k.sessionKey|] == ':' && t[|k.sessionKey| + 1..] == sid;
    }
  }

  lemma FoundBySnapshotScan(gateway: string, sid: string, s: string) returns (sk: string)
    requires Literal(gateway) && !Special(sid) && Glob(SnapshotScanPattern(gateway, sid), s)
    ensures s == FamilyStart(gateway, WsSnapshot) + (sk + ":" + sid)
  {
    SnapshotText(gateway, "", sid);
    FamilyStartLiteral(gateway, WsSnapshot);
    sk := FoundAfter(FamilyStart(gateway, WsSnapshot), sid, s);
  }

  lemma FoundAfter(left: string, sid: string, s: string) returns (sk: string)
    requires Literal(left) && !Special(sid) && Glob(left + "*" + (":" + sid), s)
    ensures s == left + (sk + ":" + sid)
  {
    assert left + "*" + (":" + sid) == left + ("*" + (":" + sid));
    ScanStart(left, "*" + (":" + sid), s);
    var t := s[|left|..];
    ScanOfId(left, sid, t);
    var k :| 0 <= k < |t| && t[k] == ':' && Glob(sid, t[k + 1..]);
    PlainGlob(sid, t[k + 1..]);
    CutAt(t, k);
    sk := t[..k];
  }

  lemma CutAt(t: string, k: nat)
    requires k < |t| && t[k] == ':'
    ensures t == t[..k] + ":" + t[k + 1..]
  {
  }

  /** The guard-history scan finds exactly the guard-history keys of its gateway. */
  lemma GuardHistoryScan(gateway: string, k: Key)
    requires Literal(gateway) && Plain(k)
    ensures Glob(GuardHistoryScanPattern(gateway), Render(gateway, k)) <==> IsGuardHistory(k)
  {
    GuardHistoryText(gateway);
    FamilyStartLiteral(gateway, GuardHistory);
    StarAtEnd(FamilyStart(gateway, GuardHistory), Render(gateway, k));
    SameStart("eb:" + gateway + ":", ScopedTag(GuardHistory) + ":", Body(k));
    GuardHistoryHead(k);
  }

  lemma GuardHistoryText(gateway: string)
    ensures GuardHistoryScanPattern(gateway) == FamilyStart(gateway, GuardHistory) + "*"
  {
    assert ":*" == ":" + "*";
    var p, tag := "eb:" + gateway + ":", ScopedTag(GuardHistory);
    assert p + (tag + (":" + "*")) == p + (tag + ":") + "*";
  }

  lemma SameStart(p: string, a: string, b: string)
    ensures p + a <= p + b <==> a <= b
  {
    assert (p + b)[|p|..] == b && (p + a)[|p|..] == a;
    if a <= b { assert p + b == p + a + b[|a|..]; }
    if p + a <= p + b { assert p + b == p + a + (p + b)[|p + a|..] == p + (a + (p + b)[|p + a|..]); }
  }

  lemma StarAtEnd(left: string, s: string)
    requires Literal(left)
    ensures Glob(left + "*", s) <==> left <= s
  {
    assert left + "*" == left + "*" + "";
    if Glob(left + "*", s) { ScanStart(left, "*", s); }
    if left <= s {
      var t := s[|left|..];
      assert s == left + t && t[|t|..] == "";
      ScanMatches(left, "", t);
    }
  }

  lemma GuardHistoryHead(k: Key)
    requires Plain(k)
    ensures ScopedTag(GuardHistory) + ":" <= Body(k) <==> IsGuardHistory(k)
  {
    var tag := ScopedTag(GuardHistory);
    if tag + ":" <= Body(k) {
      var rest := Body(k)[|tag| + 1..];
      assert Body(k) == tag + ":" + rest && Body(k)[|tag|] == ':';
      LocksColonFree(k);
      HeadsColonFree(k);
      HeadsColonFree(ScopedKey(GuardHistory, "", ""));
      FirstColon(Head(k), Tail(k), tag, rest);
      HeadsTellFamilies(k, ScopedKey(GuardHistory, "", ""));
    }
  }

  lemma LocksColonFree(k: Key)
    ensures IsLock(k) ==> ColonFree(Body(k))
  {
  }

  // ----- a gateway id in a pattern -----

  /** A text that a gateway id finds when it stands in a pattern: wildcards replaced, escapes resolved. */
  function Reached(g: string): string
    decreases |g|
  {
    if g == "" then ""
    else if g[0] == '*' || g[0] == '?' then [Other(g[0])] + Reached(g[1..])
    else if g[0] == '\\' then (if |g| >= 2 then [g[1]] + Reached(g[2..]) else "")
    else [g[0]] + Reached(g[1..])
  }

  lemma {:induction false} ReachedDiffers(g: string)
    requires ColonFree(g) && '[' !in g
    ensures ColonFree(Reached(g)) && |Reached(g)| <= |g|
    ensures Reached(g) == g <==> Literal(g)
    ensures |Reached(g)| == |g| ==> '\\' !in g
    decreases |g|
  {
    if g != "" {
      assert g == [g[0]] + g[1..];
      if g[0] == '\\' {
        if |g| >= 2 { ReachedDiffers(g[2..]); }
      } else {
        ReachedDiffers(g[1..]);
        assert Reached(g)[1..] == Reached(g[1..]);
      }
    }
  }

  lemma {:induction false} ReachedMatches(g: string, rest: string, t: string)
    requires '[' !in g && Glob(":" + rest, ":" + t)
    ensures Glob(g + (":" + rest), Reached(g) + (":" + t))
    decreases |g|
  {
    var p, s := g + (":" + rest), Reached(g) + (":" + t);
    if g == "" {
      assert p == ":" + rest && s == ":" + t;
    } else if g[0] == '\\' && |g| == 1 {
      assert p[1] == ':' && p[2..] == rest && s == ":" + t;
      ColonThen(rest, ":" + t);
      assert (":" + t)[1..] == t;
    } else if g[0] == '\\' {
      assert p[1] == g[1] && p[2..] == g[2..] + (":" + rest) && s[1..] == Reached(g[2..]) + (":" + t);
      ReachedMatches(g[2..], rest, t);
    } else {
      assert p[1..] == g[1..] + (":" + rest) && s[1..] == Reached(g[1..]) + (":" + t);
      ReachedMatches(g[1..], rest, t);
      assert Items(p)[1..] == Items(p[1..]);
      if g[0] == '*' { assert Matches(Items(p)[1..], s[1..]) && Matches(Items(p), s[1..]); }
    }
  }

  ghost predicate StaysInGateway(gateway: string, pattern: string) {
    forall g: string, k: Key :: ColonFree(g) && Glob(pattern, Render(g, k)) ==> g == gateway
  }

  /** The scans of a gateway find no key of another colon-free gateway if and only if its id holds neither
      wildcard nor backslash. The check at start-up rejects colons, wildcards and brackets; it lets a
      backslash through. */
  lemma ScanStaysInGateway(gateway: string, sid: string)
    requires ColonFree(gateway) && '[' !in gateway && !Special(sid)
    ensures StaysInGateway(gateway, SnapshotScanPattern(gateway, sid)) <==> Literal(gateway)
    ensures StaysInGateway(gateway, GuardHistoryScanPattern(gateway)) <==> Literal(gateway)
  {
    var snapshot, guard := ScopedTag(WsSnapshot) + ":*:" + sid, ScopedTag(GuardHistory) + ":*";
    assert SnapshotScanPattern(gateway, sid) == "eb:" + gateway + (":" + snapshot);
    assert GuardHistoryScanPattern(gateway) == "eb:" + gateway + (":" + guard);
    if Literal(gateway) {
      LiteralStays(gateway, snapshot);
      LiteralStays(gateway, guard);
    } else {
      SnapshotSelf(sid);
      NotLiteralReaches(gateway, snapshot, ScopedKey(WsSnapshot, "s", sid));
      GuardSelf();
      NotLiteralReaches(gateway, guard, ScopedKey(GuardHistory, "s", "i"));
    }
  }

  lemma LiteralStays(gateway: string, rest: string)
    requires ColonFree(gateway) && Literal(gateway)
    ensures StaysInGateway(gateway, "eb:" + gateway + (":" + rest))
  {
    var left := "eb:" + gateway + ":";
    assert Literal(left);
    assert "eb:" + gateway + (":" + rest) == left + rest;
    forall g: string, k: Key | ColonFree(g) && Glob(left + rest, Render(g, k)) ensures g == gateway {
      var s := Render(g, k);
      ScanStart(left, rest, s);
      SameGateway(gateway, s[|left|..], g, Body(k));
    }
  }

  lemma SameGateway(g1: string, body1: string, g2: string, body2: string)
    requires ColonFree(g1) && ColonFree(g2) && "eb:" + g1 + ":" + body1 == "eb:" + g2 + ":" + body2
    ensures g1 == g2
  {
    SharedKeyMeansPrefix(g1, body1, g2, body2);
    FirstColon(g1, body1, g2, body2);
  }

  lemma NotLiteralReaches(gateway: string, rest: string, k: Key)
    requires ColonFree(gateway) && '[' !in gateway && !Literal(gateway) && Glob(":" + rest, ":" + Body(k))
    ensures !StaysInGateway(gateway, "eb:" + gateway + (":" + rest))
  {
    var g := Reached(gateway);
    ReachedDiffers(gateway);
    ReachedMatches(gateway, rest, Body(k));
    var p, s := gateway + (":" + rest), g + (":" + Body(k));
    LiteralItems("eb:", p);
    CharsMatch("eb:", Items(p), "eb:" + s);
    assert ("eb:" + s)[3..] == s;
    assert "eb:" + gateway + (":" + rest) == "eb:" + p && Render(g, k) == "eb:" + s;
  }

  lemma SnapshotSelf(sid: string)
    requires !Special(sid)
    ensures Glob(":" + (ScopedTag(WsSnapshot) + ":*:" + sid), ":" + Body(ScopedKey(WsSnapshot, "s", sid)))
  {
    var left, t := ":" + (ScopedTag(WsSnapshot) + ":"), "s" + ":" + sid;
    TagsLiteral();
    LiteralParts(ScopedTag(WsSnapshot), ":");
    LiteralParts(":", ScopedTag(WsSnapshot) + ":");
    assert ":*:" == ":" + "*" + ":";
    Regrouped(":", ScopedTag(WsSnapshot), ":", "*", t, sid);
    ScanOfId(left, sid, t);
    PlainGlob(sid, sid);
    assert t[1] == ':' && t[1 + 1..] == sid;
  }

  lemma GuardSelf()
    ensures Glob(":" + (ScopedTag(GuardHistory) + ":*"), ":" + Body(ScopedKey(GuardHistory, "s", "i")))
  {
    var left, tag := ":" + (ScopedTag(GuardHistory) + ":"), ScopedTag(GuardHistory);
    TagsLiteral();
    LiteralParts(tag, ":");
    LiteralParts(":", tag + ":");
    assert ":*" == ":" + "*";
    assert ":" + (tag + ":*") == left + "*";
    assert ":" + (tag + ":" + ("s" + ":" + "i")) == left + ("s" + ":" + "i");
    StarAtEnd(left, left + ("s" + ":" + "i"));
  }

  // ----- refreshing the keys of one session -----

  function SessionKeys(sk: string, sid: string, includeParent: bool): seq<Key> {
    [ScopedKey(SessionContext, sk, sid), ScopedKey(SessionMessages, sk, sid), SingleKey(SessionGoals, sk),
     ScopedKey(SessionArtifacts, sk, sid), ScopedKey(WsSnapshot, sk, sid), ScopedKey(CompactState, sk, sid),
     ScopedKey(CompactStateObj, sk, sid), ScopedKey(ProcedureExec, sk, sid), ScopedKey(GuardHistory, sk, sid),
     ScopedKey(FactDomains, sk, sid)]
    + if includeParent then [SingleKey(SessionParent, sk)] else []
  }

  function RenderAll(gateway: string, ks: seq<Key>): (r: seq<string>)
    ensures |r| == |ks| && forall i :: 0 <= i < |ks| ==> r[i] == Render(gateway, ks[i])
  {
    seq(|ks|, i requires 0 <= i < |ks| => Render(gateway, ks[i]))
  }

  function SessionKeyList(gateway: string, sk: string, sid: string, includeParent: bool): seq<string> {
    RenderAll(gateway, SessionKeys(sk, sid, includeParent))
  }

  ghost predicate Distinct<T(!new)>(xs: seq<T>) {
    forall i, j :: 0 <= i < j < |xs| ==> xs[i] != xs[j]
  }

  ghost function Elements(xs: seq<string>): set<string> { set x | x in xs }

  ghost function Refreshed(ttl: map<string, nat>, keys: set<string>, seconds: nat): map<string, nat> {
    map k | k in ttl :: if k in keys then seconds else ttl[k]
  }

  lemma RefreshMore(ttl: map<string, nat>, keys: set<string>, key: string, seconds: nat)
    ensures var before := Refreshed(ttl, keys, seconds);
            Refreshed(ttl, keys + {key}, seconds) == if key in ttl then before[key := seconds] else before
  {
  }

  lemma CountMore(domain: set<string>, keys: set<string>, key: string)
    requires key !in keys
    ensures |(keys + {key}) * domain| == |keys * domain| + if key in domain then 1 else 0
  {
    if key in domain {
      assert (keys + {key}) * domain == keys * domain + {key};
    } else {
      assert (keys + {key}) * domain == keys * domain;
    }
  }

  lemma ElementsStep(keys: seq<string>, i: nat)
    requires Distinct(keys) && i < |keys|
    ensures Elements(keys[..i + 1]) == Elements(keys[..i]) + {keys[i]} && keys[i] !in Elements(keys[..i])
  {
    assert keys[..i + 1] == keys[..i] + [keys[i]];
  }

  /** The key under which a session's parent keeps its children, when the session has a parent. */
  function ParentsChildren(gateway: string, sk: string, strings: map<string, string>): (r: seq<string>)
    ensures |r| <= 1
    ensures forall x :: x in r ==> exists parent :: x == Render(gateway, SingleKey(SessionChildren, parent))
  {
    var parentKey := Render(gateway, SingleKey(SessionParent, sk));
    if parentKey in strings && strings[parentKey] != ""
    then [Render(gateway, SingleKey(SessionChildren, strings[parentKey]))] else []
  }

  ghost function TouchSet(gateway: string, sk: string, sid: string, includeParent: bool, strings: map<string, string>)
    : set<string>
  {
    Elements(SessionKeyList(gateway, sk, sid, includeParent))
    + Elements(if includeParent then ParentsChildren(gateway, sk, strings) else [])
  }

  /** The part of Redis that EXPIRE and GET see: existing keys with their time to live, and string values. */
  class Redis {
    var ttl: map<string, nat>
    var strings: map<string, string>

    /** EXPIRE: refreshes an existing key and answers whether there was one. */
    method Expire(key: string, seconds: nat) returns (existed: bool)
      modifies this`ttl
      ensures existed == (key in old(ttl))
      ensures ttl == if key in old(ttl) then old(ttl)[key := seconds] else old(ttl)
    {
      existed := key in ttl;
      if existed { ttl := ttl[key := seconds]; }
    }

    /** The pipeline: one EXPIRE per key, counting the keys that existed. */
    method ExpireAll(keys: seq<string>, seconds: nat) returns (touched: nat)
      requires Distinct(keys)
      modifies this`ttl
      ensures ttl == Refreshed(old(ttl), Elements(keys), seconds)
      ensures ttl.Keys == old(ttl).Keys && forall k :: k in ttl ==> ttl[k] == if k in keys then seconds else old(ttl)[k]
      ensures touched == |Elements(keys) * old(ttl).Keys|
    {
      touched := 0;
      for i := 0 to |keys|
        invariant ttl == Refreshed(old(ttl), Elements(keys[..i]), seconds)
        invariant touched == |Elements(keys[..i]) * old(ttl).Keys|
      {
        var existed := Expire(keys[i], seconds);
        if existed { touched := touched + 1; }
        ElementsStep(keys, i);
        RefreshMore(old(ttl), Elements(keys[..i]), keys[i], seconds);
        CountMore(old(ttl).Keys, Elements(keys[..i]), keys[i]);
      }
      assert keys[..|keys|] == keys;
    }

    /** Refreshes the keys of one session, then the children set of its parent.
        The answer is the number of session keys that existed, each counted once. */
    method TouchSessionKeys(gateway: string, sk: string, sid: string, seconds: nat, includeParent: bool)
      returns (touched: nat)
      modifies this`ttl
      ensures ttl == Refreshed(old(ttl), TouchSet(gateway, sk, sid, includeParent, strings), seconds)
      ensures touched == |Elements(SessionKeyList(gateway, sk, sid, includeParent)) * old(ttl).Keys|
    {
      var keys := SessionKeyList(gateway, sk, sid, includeParent);
      SessionKeyListDistinct(gateway, sk, sid, includeParent);
      touched := ExpireAll(keys, seconds);
      var children := if includeParent then ParentsChildren(gateway, sk, strings) else [];
      AtMostOne(old(ttl), Elements(keys), children, seconds);
      if |children| > 0 {
        var _ := Expire(children[0], seconds);
      }
    }
  }

  lemma AtMostOne(ttl: map<string, nat>, keys: set<string>, more: seq<string>, seconds: nat)
    requires |more| <= 1
    ensures var now := Refreshed(ttl, keys, seconds);
            Refreshed(ttl, keys + Elements(more), seconds)
            == if more != [] && more[0] in now then now[more[0] := seconds] else now
  {
    if more != [] {
      RefreshMore(ttl, keys, more[0], seconds);
      assert Elements(more) == {more[0]};
    } else {
      assert keys + Elements(more) == keys;
    }
  }

  lemma SessionKeysPlain(sk: string, sid: string, includeParent: bool)
    requires ColonFree(sid)
    ensures forall k :: k in SessionKeys(sk, sid, includeParent) ==> Plain(k)
    ensures forall k :: k in SessionKeys(sk, sid, includeParent) && k.ScopedKey? ==> k.sessionKey == sk && k.sessionId == sid
  {
  }

  /** The first components alone keep the refreshed keys apart, whatever the session id. */
  lemma SessionKeyListDistinct(gateway: string, sk: string, sid: string, includeParent: bool)
    ensures Distinct(SessionKeyList(gateway, sk, sid, includeParent))
  {
    var ks := SessionKeys(sk, sid, includeParent);
    SessionHeads(sk, sid, includeParent);
    forall i, j | 0 <= i < j < |ks| ensures Render(gateway, ks[i]) != Render(gateway, ks[j]) {
      HeadsApart(gateway, ks[i], ks[j]);
    }
  }

  lemma SessionHeads(sk: string, sid: string, includeParent: bool)
    ensures var ks := SessionKeys(sk, sid, includeParent);
            && (forall i :: 0 <= i < |ks| ==> !IsLock(ks[i]) && ColonFree(Head(ks[i])))
            && forall i, j :: 0 <= i < j < |ks| ==> Head(ks[i]) != Head(ks[j])
  {
    TagsDiffer();
    var ks := SessionKeys(sk, sid, includeParent);
    forall i, j | 0 <= i < j < |ks| ensures Head(ks[i]) != Head(ks[j]) {
      assert ks[i].SingleKey? && ks[j].SingleKey? ==> ks[i].single != ks[j].single;
      assert ks[i].ScopedKey? && ks[j].ScopedKey? ==> ks[i].scoped != ks[j].scoped;
    }
  }

  lemma HeadsApart(gateway: string, k1: Key, k2: Key)
    requires !IsLock(k1) && !IsLock(k2) && ColonFree(Head(k1)) && ColonFree(Head(k2)) && Head(k1) != Head(k2)
    ensures Render(gateway, k1) != Render(gateway, k2)
  {
    var p := "eb:" + gateway + ":";
    if Render(gateway, k1) == Render(gateway, k2) {
      assert Body(k1) == Render(gateway, k1)[|p|..] && Body(k2) == Render(gateway, k2)[|p|..];
      FirstColon(Head(k1), Tail(k1), Head(k2), Tail(k2));
    }
  }

  lemma RenderedOrigin(gateway: string, ks: seq<Key>, k: Key)
    requires Plain(k) && (forall x :: x in ks ==> Plain(x))
    requires Render(gateway, k) in RenderAll(gateway, ks)
    ensures k in ks
  {
    var i :| 0 <= i < |ks| && Render(gateway, k) == RenderAll(gateway, ks)[i];
    KeysInjective(gateway, k, ks[i]);
  }

  /** Refreshing one session leaves every record of another session alone: a scoped key is in the
      refreshed set only if both its session key and its session id are the given ones. */
  lemma TouchStaysInSession(gateway: string, sk: string, sid: string, includeParent: bool,
                            strings: map<string, string>, k: Key)
    requires ColonFree(sid) && k.ScopedKey? && Plain(k)
    requires Render(gateway, k) in TouchSet(gateway, sk, sid, includeParent, strings)
    ensures k.sessionKey == sk && k.sessionId == sid
  {
    var text := Render(gateway, k);
    SessionKeysPlain(sk, sid, includeParent);
    if text in SessionKeyList(gateway, sk, sid, includeParent) {
      RenderedOrigin(gateway, SessionKeys(sk, sid, includeParent), k);
    } else {
      assert text in ParentsChildren(gateway, sk, strings);
      var parent :| text == Render(gateway, SingleKey(SessionChildren, parent));
      KeysInjective(gateway, k, SingleKey(SessionChildren, parent));
    }
  }

  /** Which keys a touch refreshes: all nine session-scoped families and the goals of the session; for a
      subagent its parent entry too, and the parent's set of children when the entry names a parent. */
  lemma TouchExactly(gateway: string, sk: string, sid: string, includeParent: bool, strings: map<string, string>, k: Key)
    requires ColonFree(sid) && Plain(k)
    ensures var entry := Render(gateway, SingleKey(SessionParent, sk));
            Render(gateway, k) in TouchSet(gateway, sk, sid, includeParent, strings) <==>
              (k.ScopedKey? && k.sessionKey == sk && k.sessionId == sid)
              || k == SingleKey(SessionGoals, sk)
              || (includeParent && k == SingleKey(SessionParent, sk))
              || (includeParent && entry in strings && strings[entry] != "" && k == SingleKey(SessionChildren, strings[entry]))
  {
    ListedExactly(gateway, sk, sid, includeParent, k);
    var entry := Render(gateway, SingleKey(SessionParent, sk));
    if includeParent && entry in strings && strings[entry] != "" {
      var parent := SingleKey(SessionChildren, strings[entry]);
      assert ParentsChildren(gateway, sk, strings) == [Render(gateway, parent)];
      if Render(gateway, k) == Render(gateway, parent) { KeysInjective(gateway, k, parent); }
    }
  }

  lemma ListedExactly(gateway: string, sk: string, sid: string, includeParent: bool, k: Key)
    requires ColonFree(sid) && Plain(k)
    ensures Render(gateway, k) in SessionKeyList(gateway, sk, sid, includeParent) <==> OfSession(k, sk, sid, includeParent)
  {
    SessionKeysPlain(sk, sid, includeParent);
    var ks := SessionKeys(sk, sid, includeParent);
    if Render(gateway, k) in RenderAll(gateway, ks) { RenderedOrigin(gateway, ks, k); }
    KeysOfSession(sk, sid, includeParent, k);
    if k in ks {
      var i :| 0 <= i < |ks| && ks[i] == k;
      assert RenderAll(gateway, ks)[i] == Render(gateway, k);
    }
  }

  predicate OfSession(k: Key, sk: string, sid: string, includeParent: bool) {
    (k.ScopedKey? && k.sessionKey == sk && k.sessionId == sid)
    || k == SingleKey(SessionGoals, sk) || (includeParent && k == SingleKey(SessionParent, sk))
  }

  lemma ListedOfSession(sk: string, sid: string, includeParent: bool)
    ensures forall i :: 0 <= i < |SessionKeys(sk, sid, includeParent)| ==>
              OfSession(SessionKeys(sk, sid, includeParent)[i], sk, sid, includeParent)
  {
  }

  lemma AllOfSessionListed(sk: string, sid: string, includeParent: bool, k: Key)
    requires OfSession(k, sk, sid, includeParent)
    ensures exists i :: 0 <= i < |SessionKeys(sk, sid, includeParent)| && SessionKeys(sk, sid, includeParent)[i] == k
  {
    var ks := SessionKeys(sk, sid, includeParent);
    var i := if k.SingleKey? then (if k.single == SessionGoals then 2 else 10) else match k.scoped
      case SessionContext => 0 case SessionMessages => 1 case SessionArtifacts => 3 case WsSnapshot => 4
      case CompactState => 5 case CompactStateObj => 6 case ProcedureExec => 7 case GuardHistory => 8 case FactDomains => 9;
    assert ks[i] == k;
  }

  lemma KeysOfSession(sk: string, sid: string, includeParent: bool, k: Key)
    ensures k in SessionKeys(sk, sid, includeParent) <==> OfSession(k, sk, sid, includeParent)
  {
    ListedOfSession(sk, sid, includeParent);
    if OfSession(k, sk, sid, includeParent) { AllOfSessionListed(sk, sid, includeParent, k); }
  }
}
