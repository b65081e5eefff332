/** Session artifacts: capture of tool outputs by content hash, and their replacement by placeholders. */
module ToolArtifacts {
  import opened Basics
  import opened Messages

  type Session = (string, string)
  type Hash = string -> string

  datatype Artifact = Artifact(
    id: string, toolName: string, content: string, summary: string, contentHash: string,
    tokenEstimate: nat, injectedCount: nat, searchedCount: nat)

  /** One session's artifacts, by id. */
  type Shelf = map<string, Artifact>

  datatype CaptureConfig = CaptureConfig(enabled: bool, minChars: nat, maxChars: nat, skipTools: seq<string>)

  /** Hashes are true, and no two artifacts share one; artifacts made by hand carry no hash. */
  ghost predicate Sound(shelf: Shelf, hash: Hash) {
    && (forall id :: id in shelf ==> shelf[id].id == id)
    && (forall id :: id in shelf && shelf[id].contentHash != "" ==> shelf[id].contentHash == hash(shelf[id].content))
    && (forall a, b :: a in shelf && b in shelf && shelf[a].contentHash != "" && shelf[a].contentHash == shelf[b].contentHash
          ==> a == b)
  }

  /** What the collision-free digest provides. */
  ghost predicate Digest(hash: Hash) {
    (forall s: string :: hash(s) != "") && forall s: string, t: string :: hash(s) == hash(t) ==> s == t
  }

  predicate HasHash(shelf: Shelf, h: string) { exists id :: id in shelf && shelf[id].contentHash == h }

  function ShouldCapture(m: Message, config: Option<CaptureConfig>): bool {
    match config
    case Some(c) =>
      c.enabled && c.minChars <= |m.text| <= c.maxChars
      && !(m.name.Some? && m.name.value != "" && m.name.value in c.skipTools)
    case None => |m.text| >= 200
  }

  function NameOr(m: Message, default: string): string {
    if m.name.Some? && m.name.value != "" then m.name.value else default
  }

  function Prefix(text: string, n: nat): string { if |text| <= n then text else text[..n] }

  function Captured(m: Message, id: string, hash: Hash): Artifact {
    Artifact(id, NameOr(m, "unknown"), m.text, Prefix(m.text, 200), hash(m.text), |m.text| / 4, 0, 0)
  }

  /** One message of a batch; `id` is the id that a new artifact would get. */
  function CaptureOne(shelf: Shelf, m: Message, id: string, config: Option<CaptureConfig>, hash: Hash): Shelf {
    if m.role == "tool" && ShouldCapture(m, config) && !HasHash(shelf, hash(m.text))
    then shelf[id := Captured(m, id, hash)] else shelf
  }

  function CaptureAll(shelf: Shelf, ms: seq<Message>, ids: seq<string>, config: Option<CaptureConfig>, hash: Hash): Shelf
    requires |ms| == |ids|
  {
    if ms == [] then shelf
    else
      var n := |ms| - 1;
      CaptureOne(CaptureAll(shelf, ms[..n], ids[..n], config, hash), ms[n], ids[n], config, hash)
  }

  function Counted(shelf: Shelf, id: string, injected: nat, searched: nat): Shelf {
    if id in shelf
    then shelf[id := shelf[id].(injectedCount := shelf[id].injectedCount + injected,
                                searchedCount := shelf[id].searchedCount + searched)]
    else shelf
  }

  /** Ids of new artifacts are new and different from each other. */
  ghost predicate FreshIds(shelf: Shelf, ids: seq<string>) {
    (forall i :: 0 <= i < |ids| ==> ids[i] !in shelf) && forall i, j :: 0 <= i < j < |ids| ==> ids[i] != ids[j]
  }

  class SessionArtifactStore {
    var shelves: map<Session, Shelf>
    const hash: Hash
    const config: Option<CaptureConfig>

    function At(session: Session): Shelf
      reads this
    {
      if session in shelves then shelves[session] else map[]
    }

    constructor (hash: Hash, config: Option<CaptureConfig>)
      ensures this.hash == hash && this.config == config && shelves == map[]
    {
      this.hash, this.config := hash, config;
      shelves := map[];
    }

    /** HSET of one artifact under its id. */
    method Store(session: Session, artifact: Artifact)
      modifies this`shelves
      ensures shelves == old(shelves)[session := old(At(session))[artifact.id := artifact]]
    {
      shelves := shelves[session := At(session)[artifact.id := artifact]];
    }

    /** Scans the session's artifacts, in whatever order Redis returns them. */
    method GetByHash(session: Session, contentHash: string) returns (found: Option<Artifact>)
      ensures found.Some? ==> exists id :: id in At(session) && At(session)[id] == found.value && found.value.contentHash == contentHash
      ensures found.None? ==> !HasHash(At(session), contentHash)
    {
      var shelf := At(session);
      var left := shelf.Keys;
      while left != {}
        invariant left <= shelf.Keys
        invariant forall id :: id in shelf && shelf[id].contentHash == contentHash ==> id in left
        decreases |left|
      {
        var id :| id in left;
        if shelf[id].contentHash == contentHash {
          return Some(shelf[id]);
        }
        left := left - {id};
      }
      found := None;
    }

    method IncrementInjected(session: Session, id: string)
      modifies this`shelves
      ensures At(session) == Counted(old(At(session)), id, 1, 0)
      ensures At(session).Keys == old(At(session)).Keys
      ensures forall k :: k in At(session) && k != id ==> At(session)[k] == old(At(session))[k]
      ensures id in At(session) ==>
                At(session)[id] == old(At(session))[id].(injectedCount := old(At(session))[id].injectedCount + 1)
      ensures shelves - {session} == old(shelves) - {session}
    {
      if id in At(session) {
        var artifact := At(session)[id];
        artifact := artifact.(injectedCount := artifact.injectedCount + 1);
        shelves := shelves[session := At(session)[id := artifact]];
      }
    }

    method IncrementSearched(session: Session, id: string)
      modifies this`shelves
      ensures At(session) == Counted(old(At(session)), id, 0, 1)
      ensures At(session).Keys == old(At(session)).Keys
      ensures forall k :: k in At(session) && k != id ==> At(session)[k] == old(At(session))[k]
      ensures id in At(session) ==>
                At(session)[id] == old(At(session))[id].(searchedCount := old(At(session))[id].searchedCount + 1)
      ensures shelves - {session} == old(shelves) - {session}
    {
      if id in At(session) {
        var artifact := At(session)[id];
        artifact := artifact.(searchedCount := artifact.searchedCount + 1);
        shelves := shelves[session := At(session)[id := artifact]];
      }
    }

    /** The capture loop of `ingest_batch`; `freshIds` are the ids that new artifacts would get. */
    method CaptureToolOutputs(session: Session, messages: seq<Message>, freshIds: seq<string>)
      requires |freshIds| == |messages|
      modifies this`shelves
      ensures At(session) == CaptureAll(old(At(session)), messages, freshIds, config, hash)
      ensures shelves - {session} == old(shelves) - {session}
    {
      for i := 0 to |messages|
        invariant At(session) == CaptureAll(old(At(session)), messages[..i], freshIds[..i], config, hash)
        invariant shelves - {session} == old(shelves) - {session}
      {
        var m := messages[i];
        assert messages[..i + 1][..i] == messages[..i] && freshIds[..i + 1][..i] == freshIds[..i];
        if m.role == "tool" && ShouldCapture(m, config) {
          var existing := GetByHash(session, hash(m.text));
          if existing.None? {
            Store(session, Captured(m, freshIds[i], hash));
          }
        }
      }
      assert messages[..|messages|] == messages && freshIds[..|freshIds|] == freshIds;
    }

    /** `_replace_old_tool_outputs`. */
    method ReplaceOldToolOutputs(session: Session, messages: seq<Message>, policy: ReplacePolicy) returns (result: seq<Message>)
      requires Sound(At(session), hash) && Digest(hash)
      ensures result == Replaced(At(session), messages, policy, hash)
      ensures |result| == |messages|
      ensures forall i :: 0 <= i < |messages| ==>
                if CanReplace(At(session), messages, i, policy, hash) then Stands(At(session), messages[i], result[i], hash)
                else result[i] == messages[i]
    {
      forall i | 0 <= i < |messages|
        ensures i < |Replaced(At(session), messages, policy, hash)|
        ensures var r := Replaced(At(session), messages, policy, hash)[i];
                if CanReplace(At(session), messages, i, policy, hash) then Stands(At(session), messages[i], r, hash)
                else r == messages[i]
      {
        ReplacedExactly(At(session), messages, policy, hash, i);
      }
      if !policy.replace { return messages; }
      var toolIndices := FindToolIndices(messages);
      var keepCount := if policy.keepLast > 0 then policy.keepLast else |toolIndices|;
      var keep := if keepCount < |toolIndices| then LastN(toolIndices, keepCount) else toolIndices;
      assert KeepsRight(messages, keep, policy.keepLast) by {
        forall i | 0 <= i < |messages| && messages[i].role == "tool" ensures i in keep <==> Kept(messages, i, policy.keepLast) {
          KeptIndices(messages, policy.keepLast, i);
        }
      }
      result := ReplaceOutside(session, messages, keep, policy);
    }

    method ReplaceOutside(session: Session, messages: seq<Message>, keep: seq<nat>, policy: ReplacePolicy)
      returns (result: seq<Message>)
      requires Sound(At(session), hash) && Digest(hash) && policy.replace && KeepsRight(messages, keep, policy.keepLast)
      ensures result == Replaced(At(session), messages, policy, hash)
    {
      result := [];
      for i := 0 to |messages|
        invariant |result| == i && forall k :: 0 <= k < i ==> result[k] == ReplaceAt(At(session), messages, k, policy, hash)
      {
        var replacement := ReplaceOne(session, messages, i, messages[i], i in keep, policy);
        result := result + [replacement];
      }
    }

    method FindToolIndices(messages: seq<Message>) returns (toolIndices: seq<nat>)
      ensures toolIndices == ToolIndices(messages)
    {
      toolIndices := [];
      for i := 0 to |messages|
        invariant toolIndices == ToolIndices(messages[..i])
      {
        assert messages[..i + 1][..i] == messages[..i];
        if messages[i].role == "tool" { toolIndices := toolIndices + [i]; }
      }
      assert messages[..|messages|] == messages;
    }

    method ReplaceOne(session: Session, ghost messages: seq<Message>, ghost i: nat, m: Message, isKept: bool, policy: ReplacePolicy)
      returns (replacement: Message)
      requires Sound(At(session), hash) && Digest(hash) && i < |messages| && m == messages[i]
      requires m.role == "tool" ==> (isKept <==> Kept(messages, i, policy.keepLast))
      ensures replacement == ReplaceAt(At(session), messages, i, policy, hash)
    {
      replacement := m;
      if m.role == "tool" && !isKept && |m.text| / 4 > policy.minTokens {
        var artifact := GetByHash(session, hash(m.text));
        if artifact.Some? {
          replacement := Placeholder(m, artifact.value);
          OnlyOne(At(session), hash, artifact.value, hash(m.text));
        }
      }
    }
  }

  // ----- capture over any run -----

  lemma CaptureOneSound(shelf: Shelf, m: Message, id: string, config: Option<CaptureConfig>, hash: Hash)
    requires Sound(shelf, hash) && Digest(hash) && id !in shelf
    ensures Sound(CaptureOne(shelf, m, id, config, hash), hash)
    ensures forall k :: k in shelf ==> k in CaptureOne(shelf, m, id, config, hash) && CaptureOne(shelf, m, id, config, hash)[k] == shelf[k]
    ensures CaptureOne(shelf, m, id, config, hash).Keys <= shelf.Keys + {id}
    ensures m.role == "tool" && ShouldCapture(m, config) ==> HasHash(CaptureOne(shelf, m, id, config, hash), hash(m.text))
  {
    var after := CaptureOne(shelf, m, id, config, hash);
    if after != shelf { assert after[id].contentHash == hash(m.text); }
  }

  lemma {:induction false} CaptureAllSound(shelf: Shelf, ms: seq<Message>, ids: seq<string>, config: Option<CaptureConfig>, hash: Hash)
    requires |ms| == |ids| && Sound(shelf, hash) && Digest(hash) && FreshIds(shelf, ids)
    ensures Sound(CaptureAll(shelf, ms, ids, config, hash), hash)
    ensures forall k :: k in shelf ==> k in CaptureAll(shelf, ms, ids, config, hash) && CaptureAll(shelf, ms, ids, config, hash)[k] == shelf[k]
    ensures forall k :: k in CaptureAll(shelf, ms, ids, config, hash) ==> k in shelf || k in ids
    ensures forall i :: 0 <= i < |ms| && ms[i].role == "tool" && ShouldCapture(ms[i], config) ==>
              HasHash(CaptureAll(shelf, ms, ids, config, hash), hash(ms[i].text))
  {
    if ms != [] {
      var n := |ms| - 1;
      var before := CaptureAll(shelf, ms[..n], ids[..n], config, hash);
      CaptureAllSound(shelf, ms[..n], ids[..n], config, hash);
      assert ids[n] !in ids[..n];
      assert forall k :: k in ids[..n] ==> k in ids;
      assert ids[n] in ids;
      CaptureOneSound(before, ms[n], ids[n], config, hash);
      var after := CaptureOne(before, ms[n], ids[n], config, hash);
      forall i | 0 <= i < n && ms[i].role == "tool" && ShouldCapture(ms[i], config) ensures HasHash(after, hash(ms[i].text)) {
        assert ms[..n][i] == ms[i];
        var k :| k in before && before[k].contentHash == hash(ms[i].text);
        assert after[k].contentHash == hash(ms[i].text);
      }
    }
  }

  datatype Op =
    | Capture(messages: seq<Message>, freshIds: seq<string>)
    | Create(artifact: Artifact)
    | Injected(id: string)
    | Searched(id: string)

  /** The callers' side: one fresh id per message, and a hand-made artifact is new and unhashed. */
  ghost predicate Allowed(shelf: Shelf, op: Op) {
    match op
    case Capture(ms, ids) => |ms| == |ids| && FreshIds(shelf, ids)
    case Create(a) => a.contentHash == "" && a.id !in shelf
    case Injected(_) => true
    case Searched(_) => true
  }

  function Do(shelf: Shelf, op: Op, config: Option<CaptureConfig>, hash: Hash): Shelf {
    match op
    case Capture(ms, ids) => if |ms| == |ids| then CaptureAll(shelf, ms, ids, config, hash) else shelf
    case Create(a) => shelf[a.id := a]
    case Injected(id) => Counted(shelf, id, 1, 0)
    case Searched(id) => Counted(shelf, id, 0, 1)
  }

  function Run(ops: seq<Op>, config: Option<CaptureConfig>, hash: Hash): Shelf {
    if ops == [] then map[] else Do(Run(ops[..|ops| - 1], config, hash), ops[|ops| - 1], config, hash)
  }

  ghost predicate AllAllowed(ops: seq<Op>, config: Option<CaptureConfig>, hash: Hash) {
    forall i :: 0 <= i < |ops| ==> Allowed(Run(ops[..i], config, hash), ops[i])
  }

  /** Every artifact is still there with its content. */
  ghost predicate Grows(before: Shelf, after: Shelf) {
    forall k :: k in before ==> k in after && after[k].content == before[k].content
  }

  lemma DoSound(shelf: Shelf, op: Op, config: Option<CaptureConfig>, hash: Hash)
    requires Sound(shelf, hash) && Digest(hash) && Allowed(shelf, op)
    ensures Sound(Do(shelf, op, config, hash), hash) && Grows(shelf, Do(shelf, op, config, hash))
  {
    if op.Capture? { CaptureAllSound(shelf, op.messages, op.freshIds, config, hash); }
  }

  lemma AllowedPrefix(ops: seq<Op>, n: nat, config: Option<CaptureConfig>, hash: Hash)
    requires AllAllowed(ops, config, hash) && n <= |ops|
    ensures AllAllowed(ops[..n], config, hash)
  {
    forall i | 0 <= i < n ensures Allowed(Run(ops[..n][..i], config, hash), ops[..n][i]) {
      assert ops[..n][..i] == ops[..i] && ops[..n][i] == ops[i];
    }
  }

  /** In every run hashes stay true and unique. */
  lemma {:induction false} RunsStaySound(ops: seq<Op>, config: Option<CaptureConfig>, hash: Hash)
    requires Digest(hash) && AllAllowed(ops, config, hash)
    ensures Sound(Run(ops, config, hash), hash)
  {
    if ops != [] {
      var m := |ops| - 1;
      AllowedPrefix(ops, m, config, hash);
      RunsStaySound(ops[..m], config, hash);
      DoSound(Run(ops[..m], config, hash), ops[m], config, hash);
    }
  }

  /** No artifact ever loses or changes its content. */
  lemma {:induction false} RunsGrow(ops: seq<Op>, n: nat, config: Option<CaptureConfig>, hash: Hash)
    requires Digest(hash) && AllAllowed(ops, config, hash) && n <= |ops|
    ensures Grows(Run(ops[..n], config, hash), Run(ops, config, hash))
  {
    if n == |ops| {
      assert ops[..n] == ops;
    } else {
      var m := |ops| - 1;
      AllowedPrefix(ops, m, config, hash);
      LastGrows(ops, config, hash);
      RunsGrow(ops[..m], n, config, hash);
      assert ops[..m][..n] == ops[..n];
      GrowsOn(Run(ops[..n], config, hash), Run(ops[..m], config, hash), Run(ops, config, hash));
    }
  }

  lemma LastGrows(ops: seq<Op>, config: Option<CaptureConfig>, hash: Hash)
    requires Digest(hash) && AllAllowed(ops, config, hash) && ops != []
    ensures Grows(Run(ops[..|ops| - 1], config, hash), Run(ops, config, hash))
  {
    var m := |ops| - 1;
    AllowedPrefix(ops, m, config, hash);
    RunsStaySound(ops[..m], config, hash);
    DoSound(Run(ops[..m], config, hash), ops[m], config, hash);
  }

  lemma GrowsOn(a: Shelf, b: Shelf, c: Shelf)
    requires Grows(a, b) && Grows(b, c)
    ensures Grows(a, c)
  {
  }

  // ----- replacement -----

  datatype ReplacePolicy = ReplacePolicy(replace: bool, minTokens: nat, keepLast: nat)

  function ToolIndices(ms: seq<Message>): seq<nat> {
    if ms == [] then []
    else ToolIndices(ms[..|ms| - 1]) + if ms[|ms| - 1].role == "tool" then [|ms| - 1] else []
  }

  /** The number of tool messages from position `i` on. */
  function ToolsFrom(ms: seq<Message>, i: nat): nat
    decreases |ms| - i
  {
    if i >= |ms| then 0 else (if ms[i].role == "tool" then 1 else 0) + ToolsFrom(ms, i + 1)
  }

  /** The last `n` tool messages are kept; `n == 0` keeps them all. */
  predicate Kept(ms: seq<Message>, i: nat, n: nat) {
    n == 0 || ToolsFrom(ms, i + 1) < n
  }

  ghost predicate KeepsRight(ms: seq<Message>, keep: seq<nat>, n: nat) {
    forall i :: 0 <= i < |ms| && ms[i].role == "tool" ==> (i in keep <==> Kept(ms, i, n))
  }

  ghost function ByHash(shelf: Shelf, h: string): Option<Artifact> {
    if HasHash(shelf, h) then (var id :| id in shelf && shelf[id].contentHash == h; Some(shelf[id])) else None
  }

  function Placeholder(m: Message, a: Artifact): Message {
    Message("tool",
      "[Captured output: " + NameOr(m, "tool") + " — " + a.summary + "\n → artifact_search(\"" + a.id + "\") for full output]",
      m.name, m.meta["eb_replaced" := "true"]["eb_artifact_id" := a.id], m.turn)
  }

  ghost function ReplaceAt(shelf: Shelf, ms: seq<Message>, i: nat, policy: ReplacePolicy, hash: Hash): Message
    requires i < |ms|
  {
    var m := ms[i];
    var artifact := ByHash(shelf, hash(m.text));
    if m.role == "tool" && !Kept(ms, i, policy.keepLast) && |m.text| / 4 > policy.minTokens && artifact.Some?
    then Placeholder(m, artifact.value) else m
  }

  ghost function Replaced(shelf: Shelf, ms: seq<Message>, policy: ReplacePolicy, hash: Hash): seq<Message> {
    if !policy.replace then ms else seq(|ms|, i requires 0 <= i < |ms| => ReplaceAt(shelf, ms, i, policy, hash))
  }

  lemma OnlyOne(shelf: Shelf, hash: Hash, a: Artifact, h: string)
    requires Sound(shelf, hash) && h != "" && a.contentHash == h
    requires exists id :: id in shelf && shelf[id] == a
    ensures ByHash(shelf, h) == Some(a)
  {
    var id :| id in shelf && shelf[id] == a;
    assert HasHash(shelf, h);
  }

  lemma {:induction false} ToolIndexPosition(ms: seq<Message>, i: nat)
    requires i < |ms| && ms[i].role == "tool"
    ensures var t := ToolIndices(ms);
            ToolsFrom(ms, i + 1) < |t| && t[|t| - 1 - ToolsFrom(ms, i + 1)] == i
  {
    var n := |ms| - 1;
    ToolsFromShorter(ms, i + 1);
    if i < n {
      ToolIndexPosition(ms[..n], i);
    }
  }

  lemma {:induction false} ToolsFromShorter(ms: seq<Message>, i: nat)
    requires 0 < |ms| && i <= |ms|
    ensures ToolsFrom(ms, i) == ToolsFrom(ms[..|ms| - 1], i) + if i < |ms| && ms[|ms| - 1].role == "tool" then 1 else 0
    decreases |ms| - i
  {
    if i < |ms| - 1 { ToolsFromShorter(ms, i + 1); }
  }

  ghost predicate IndexList(ms: seq<Message>, t: seq<nat>) {
    && (forall k :: 0 <= k < |t| ==> t[k] < |ms|)
    && (forall k, l :: 0 <= k < l < |t| ==> t[k] < t[l])
  }

  lemma {:induction false} ToolIndicesIncrease(ms: seq<Message>)
    ensures IndexList(ms, ToolIndices(ms))
  {
    if ms != [] {
      var n := |ms| - 1;
      var before := ToolIndices(ms[..n]);
      ToolIndicesIncrease(ms[..n]);
      assert IndexList(ms[..n], before);
      if ms[n].role == "tool" {
        var t := before + [n];
        assert ToolIndices(ms) == t;
        assert forall k :: 0 <= k < |before| ==> t[k] == before[k];
      } else {
        assert ToolIndices(ms) == before + [] == before;
      }
    }
  }

  /** Slicing the index list keeps a tool message exactly when few enough tool messages follow it. */
  lemma KeptIndices(ms: seq<Message>, n: nat, i: nat)
    requires i < |ms|
    ensures var t := ToolIndices(ms);
            var count := if n > 0 then n else |t|;
            var keep := if count < |t| then LastN(t, count) else t;
            ms[i].role == "tool" ==> (i in keep <==> Kept(ms, i, n))
  {
    if ms[i].role == "tool" {
      var t := ToolIndices(ms);
      ToolIndexPosition(ms, i);
      ToolIndicesIncrease(ms);
      var p := |t| - 1 - ToolsFrom(ms, i + 1);
      assert i in t && t[p] == i;
      if 0 < n < |t| { InLastN(t, n, p); }
    }
  }

  lemma InLastN(t: seq<nat>, n: nat, p: nat)
    requires 0 < n < |t| && p < |t| && forall k, l :: 0 <= k < l < |t| ==> t[k] < t[l]
    ensures t[p] in LastN(t, n) <==> p >= |t| - n
  {
    var keep := LastN(t, n);
    if p >= |t| - n { assert keep[p - (|t| - n)] == t[p]; }
    if t[p] in keep {
      var k :| 0 <= k < |keep| && keep[k] == t[p];
      assert t[|t| - n + k] == t[p];
    }
  }

  /** A message's text again: from the artifact that its placeholder names. */
  function Restore(shelf: Shelf, m: Message): string {
    if MetaGet(m, "eb_replaced") == "true" && MetaGet(m, "eb_artifact_id") in shelf
    then shelf[MetaGet(m, "eb_artifact_id")].content else m.text
  }

  /** Replacement loses nothing: length, roles and names stay; only tool messages outside the kept last
      ones differ; and every original text can be read back through the artifact that its placeholder
      names. */
  lemma ReplacementIsLossless(shelf: Shelf, ms: seq<Message>, policy: ReplacePolicy, hash: Hash, i: nat)
    requires Sound(shelf, hash) && Digest(hash) && i < |ms| && MetaGet(ms[i], "eb_replaced") != "true"
    ensures var r := Replaced(shelf, ms, policy, hash);
            && |r| == |ms| && r[i].role == ms[i].role && r[i].name == ms[i].name
            && (r[i] != ms[i] ==> ms[i].role == "tool" && !Kept(ms, i, policy.keepLast) && policy.replace)
            && (r[i] != ms[i] ==>
                MetaGet(r[i], "eb_artifact_id") in shelf && shelf[MetaGet(r[i], "eb_artifact_id")].content == ms[i].text)
            && Restore(shelf, r[i]) == ms[i].text
  {
    if policy.replace {
      var a := ByHash(shelf, hash(ms[i].text));
      if a.Some? {
        assert a.value.id in shelf && shelf[a.value.id] == a.value;
        assert hash(a.value.content) == hash(ms[i].text);
      }
    }
  }

  // ----- which outputs are replaced, and by what -----

  function ToolsAfter(ms: seq<Message>, i: nat): set<nat> { set j | i < j < |ms| && ms[j].role == "tool" }

  /** A tool message that at least the positive number of kept ones follow, over the size limit at four
      characters a token, and with an artifact of the same content hash in the session. */
  ghost predicate CanReplace(shelf: Shelf, ms: seq<Message>, i: nat, policy: ReplacePolicy, hash: Hash)
    requires i < |ms|
  {
    && policy.replace && ms[i].role == "tool" && policy.keepLast > 0 && |ToolsAfter(ms, i)| >= policy.keepLast
    && |ms[i].text| >= 4 * policy.minTokens + 4
    && exists id :: id in shelf && shelf[id].contentHash == hash(ms[i].text)
  }

  /** The placeholder names an artifact of the content's hash, in its text and in its metadata, and shows the
      artifact's summary; role, name, turn and all other metadata are the message's. */
  ghost predicate Stands(shelf: Shelf, m: Message, r: Message, hash: Hash) {
    exists id :: id in shelf && shelf[id].contentHash == hash(m.text) && shelf[id].content == m.text && StandsFor(shelf[id], id, m, r)
  }

  predicate StandsFor(a: Artifact, id: string, m: Message, r: Message) {
    && r.role == m.role && r.name == m.name && r.turn == m.turn
    && r.meta == m.meta["eb_replaced" := "true"]["eb_artifact_id" := id]
    && r.text == "[Captured output: " + (if m.name == None || m.name == Some("") then "tool" else m.name.value) + " — " + a.summary
                 + "\n → artifact_search(\"" + id + "\") for full output]"
  }

  lemma {:induction false} ToolsCounted(ms: seq<Message>, i: nat)
    requires i < |ms|
    ensures |ToolsAfter(ms, i)| == ToolsFrom(ms, i + 1)
    decreases |ms| - i
  {
    if i + 1 < |ms| {
      ToolsCounted(ms, i + 1);
      var one := if ms[i + 1].role == "tool" then {i + 1} else {};
      assert ToolsAfter(ms, i) == one + ToolsAfter(ms, i + 1);
    } else {
      assert ToolsAfter(ms, i) == {};
    }
  }

  /** Exactly the messages that can be replaced are, each by a placeholder that stands for it. */
  lemma ReplacedExactly(shelf: Shelf, ms: seq<Message>, policy: ReplacePolicy, hash: Hash, i: nat)
    requires Sound(shelf, hash) && Digest(hash) && i < |ms|
    ensures var r := Replaced(shelf, ms, policy, hash);
            && |r| == |ms|
            && (CanReplace(shelf, ms, i, policy, hash) ==> Stands(shelf, ms[i], r[i], hash))
            && (!CanReplace(shelf, ms, i, policy, hash) ==> r[i] == ms[i])
  {
    ToolsCounted(ms, i);
    if CanReplace(shelf, ms, i, policy, hash) {
      var a := ByHash(shelf, hash(ms[i].text)).value;
      assert a.id in shelf && shelf[a.id] == a && hash(a.content) == hash(ms[i].text);
      assert StandsFor(a, a.id, ms[i], Placeholder(ms[i], a));
    }
  }

  /** A placeholder is never the message it stands for, unless that one was a placeholder before. */
  lemma StandsDiffers(shelf: Shelf, m: Message, r: Message, hash: Hash)
    requires Stands(shelf, m, r, hash) && MetaGet(m, "eb_replaced") != "true"
    ensures r != m && MetaGet(r, "eb_replaced") == "true" && MetaGet(r, "eb_artifact_id") in shelf
  {
  }

  // ----- which outputs are captured, and as what -----

  /** Long enough and, with a configuration, capturing on, not too long and not from a skipped tool. */
  predicate Qualifies(m: Message, config: Option<CaptureConfig>) {
    m.role == "tool"
    && (config.None? ==> |m.text| >= 200)
    && (config.Some? ==>
          config.value.enabled && |m.text| >= config.value.minChars && |m.text| <= config.value.maxChars
          && (m.name.None? || m.name.value == "" || m.name.value !in config.value.skipTools))
  }

  /** It qualifies, its hash is new to the session, and no earlier message of the batch has the same text. */
  ghost predicate FirstOfItsText(shelf: Shelf, ms: seq<Message>, config: Option<CaptureConfig>, hash: Hash, i: nat)
    requires i < |ms|
  {
    && Qualifies(ms[i], config) && !HasHash(shelf, hash(ms[i].text))
    && forall j :: 0 <= j < i && Qualifies(ms[j], config) ==> ms[j].text != ms[i].text
  }

  /** The batch adds an artifact for exactly these messages; it holds the text, its hash and its start. */
  lemma {:induction false} CaptureExactly(shelf: Shelf, ms: seq<Message>, ids: seq<string>, config: Option<CaptureConfig>,
                                          hash: Hash, i: nat)
    requires |ms| == |ids| && Sound(shelf, hash) && Digest(hash) && FreshIds(shelf, ids) && i < |ms|
    ensures var after := CaptureAll(shelf, ms, ids, config, hash);
            && (ids[i] in after <==> FirstOfItsText(shelf, ms, config, hash, i))
            && (ids[i] in after ==> CapturedAs(after[ids[i]], ids[i], ms[i], hash))
  {
    var n := |ms| - 1;
    assert FreshIds(shelf, ids[..n]);
    if i < n {
      CaptureExactly(shelf, ms[..n], ids[..n], config, hash, i);
      FirstInPrefix(shelf, ms, config, hash, i);
      CaptureOther(CaptureAll(shelf, ms[..n], ids[..n], config, hash), ms[n], ids[n], config, hash, ids[i]);
    } else {
      CaptureLast(shelf, ms, ids, config, hash);
    }
  }

  lemma FirstInPrefix(shelf: Shelf, ms: seq<Message>, config: Option<CaptureConfig>, hash: Hash, i: nat)
    requires i < |ms| - 1
    ensures FirstOfItsText(shelf, ms[..|ms| - 1], config, hash, i) <==> FirstOfItsText(shelf, ms, config, hash, i)
  {
    assert forall j :: 0 <= j <= i ==> ms[..|ms| - 1][j] == ms[j];
  }

  lemma CaptureOther(shelf: Shelf, m: Message, id: string, config: Option<CaptureConfig>, hash: Hash, other: string)
    requires other != id
    ensures var after := CaptureOne(shelf, m, id, config, hash);
            (other in after <==> other in shelf) && (other in after ==> after[other] == shelf[other])
  {
  }

  lemma CaptureLast(shelf: Shelf, ms: seq<Message>, ids: seq<string>, config: Option<CaptureConfig>, hash: Hash)
    requires |ms| == |ids| > 0 && Sound(shelf, hash) && Digest(hash) && FreshIds(shelf, ids)
    ensures var i, after := |ms| - 1, CaptureAll(shelf, ms, ids, config, hash);
            && (ids[i] in after <==> FirstOfItsText(shelf, ms, config, hash, i))
            && (ids[i] in after ==> CapturedAs(after[ids[i]], ids[i], ms[i], hash))
  {
    var n := |ms| - 1;
    assert FreshIds(shelf, ids[..n]);
    CaptureAllSound(shelf, ms[..n], ids[..n], config, hash);
    assert ids[n] !in CaptureAll(shelf, ms[..n], ids[..n], config, hash);
    HashesSoFar(shelf, ms[..n], ids[..n], config, hash, hash(ms[n].text));
    assert forall j :: 0 <= j < n ==> ms[..n][j] == ms[j];
    CapturedFits(ms[n], ids[n], hash);
  }

  lemma CapturedFits(m: Message, id: string, hash: Hash)
    ensures CapturedAs(Captured(m, id, hash), id, m, hash)
  {
  }

  predicate CapturedAs(a: Artifact, id: string, m: Message, hash: Hash) {
    && a.id == id && a.content == m.text && a.contentHash == hash(m.text)
    && a.toolName == (if m.name == None || m.name == Some("") then "unknown" else m.name.value)
    && a.summary == (if |m.text| <= 200 then m.text else m.text[..200])
    && 4 * a.tokenEstimate <= |m.text| < 4 * a.tokenEstimate + 4 && a.injectedCount == a.searchedCount == 0
  }

  /** The hashes of a session after a batch: those from before and those of the qualifying messages. */
  lemma {:induction false} HashesSoFar(shelf: Shelf, ms: seq<Message>, ids: seq<string>, config: Option<CaptureConfig>,
                                       hash: Hash, h: string)
    requires |ms| == |ids| && Sound(shelf, hash) && Digest(hash) && FreshIds(shelf, ids)
    ensures HasHash(CaptureAll(shelf, ms, ids, config, hash), h)
            <==> HasHash(shelf, h) || exists j :: 0 <= j < |ms| && Qualifies(ms[j], config) && hash(ms[j].text) == h
  {
    if ms != [] {
      var n := |ms| - 1;
      var before, after := CaptureAll(shelf, ms[..n], ids[..n], config, hash), CaptureAll(shelf, ms, ids, config, hash);
      assert FreshIds(shelf, ids[..n]);
      HashesSoFar(shelf, ms[..n], ids[..n], config, hash, h);
      CaptureAllSound(shelf, ms[..n], ids[..n], config, hash);
      assert ids[n] !in before;
      assert forall j :: 0 <= j < n ==> ms[..n][j] == ms[j];
      HashAfterOne(before, ms[n], ids[n], config, hash, h);
    }
  }

  lemma HashAfterOne(shelf: Shelf, m: Message, id: string, config: Option<CaptureConfig>, hash: Hash, h: string)
    requires id !in shelf
    ensures HasHash(CaptureOne(shelf, m, id, config, hash), h)
            <==> HasHash(shelf, h) || (Qualifies(m, config) && hash(m.text) == h)
  {
    var after := CaptureOne(shelf, m, id, config, hash);
    if after != shelf {
      assert after[id].contentHash == hash(m.text);
      if k :| k in shelf && shelf[k].contentHash == h { assert after[k].contentHash == h; }
      if k :| k in after && after[k].contentHash == h { assert k != id ==> k in shelf; }
    }
  }
}
