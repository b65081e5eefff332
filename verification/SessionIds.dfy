/** The lifecycle's cache of fallback session ids: an insertion-ordered dictionary of at most 128 keys. */
module SessionIds {
  import opened Basics

  /** Entries (session key, fallback id), oldest first. */
  type Cache = seq<(string, string)>

  const CAPACITY: nat := 128

  predicate Has(c: Cache, key: string) { exists i :: 0 <= i < |c| && c[i].0 == key }

  function Find(c: Cache, key: string): (i: nat)
    requires Has(c, key)
    ensures i < |c| && c[i].0 == key
  {
    if c[0].0 == key then 0 else 1 + Find(c[1..], key)
  }

  function Lookup(c: Cache, key: string): string
    requires Has(c, key)
  {
    c[Find(c, key)].1
  }

  /** `_ensure_session_id`; `uuid` is the identifier that a miss would generate. */
  function Ensured(c: Cache, sid: string, key: string, uuid: string): (string, Cache) {
    if sid != "" then (sid, c)
    else if Has(c, key) then (Lookup(c, key), c)
    else (uuid, (if |c| >= CAPACITY then c[1..] else c) + [(key, uuid)])
  }

  function Popped(c: Cache, key: string): Cache {
    Keep(c, (e: (string, string)) => e.0 != key)
  }

  /** How every entry point starts: an empty id is resolved, a real one clears the fallback. */
  function Entered(c: Cache, sid: string, key: string, uuid: string): (string, Cache) {
    if sid == "" then Ensured(c, sid, key, uuid) else (sid, Popped(c, key))
  }

  // ----- any run of calls and pops -----

  datatype Op = Ask(sid: string, key: string, uuid: string) | Pop(key: string)

  function Do(c: Cache, op: Op): Cache {
    match op
    case Ask(sid, key, uuid) => Ensured(c, sid, key, uuid).1
    case Pop(key) => Popped(c, key)
  }

  function Run(c: Cache, ops: seq<Op>): Cache
    decreases |ops|
  {
    if ops == [] then c else Run(Do(c, ops[0]), ops[1..])
  }

  predicate Inserts(c: Cache, op: Op) { op.Ask? && op.sid == "" && !Has(c, op.key) }

  /** The number of keys that a run inserts. */
  function NewKeys(c: Cache, ops: seq<Op>): nat
    decreases |ops|
  {
    if ops == [] then 0 else (if Inserts(c, ops[0]) then 1 else 0) + NewKeys(Do(c, ops[0]), ops[1..])
  }

  ghost predicate Valid(c: Cache) {
    |c| <= CAPACITY && forall i, j :: 0 <= i < j < |c| ==> c[i].0 != c[j].0
  }

  lemma PoppedCons(c: Cache, key: string)
    requires c != []
    ensures Popped(c, key) == (if c[0].0 != key then [c[0]] else []) + Popped(c[1..], key)
    ensures c[0].0 == key ==> Popped(c, key) == Popped(c[1..], key)
  {
    assert [] + Popped(c[1..], key) == Popped(c[1..], key);
  }

  lemma {:induction false} PoppedValid(c: Cache, key: string)
    requires Valid(c)
    ensures Valid(Popped(c, key)) && |Popped(c, key)| <= |c|
    ensures forall e :: e in Popped(c, key) ==> e in c && e.0 != key
  {
    if c != [] {
      PoppedCons(c, key);
      PoppedValid(c[1..], key);
      var p := Popped(c[1..], key);
      forall i | 0 <= i < |p| ensures p[i].0 != c[0].0 {
        assert p[i] in c[1..];
      }
    }
  }

  lemma {:induction false} PoppedOther(c: Cache, key: string, other: string)
    requires other != key
    ensures Has(Popped(c, key), other) <==> Has(c, other)
    ensures Has(c, other) ==>
              Lookup(Popped(c, key), other) == Lookup(c, other) && Newer(Popped(c, key), other) <= Newer(c, other)
  {
    if c != [] {
      var head, rest := c[0], c[1..];
      PoppedOther(rest, key, other);
      PoppedShrinks(rest, key);
      assert c == [head] + rest;
      HasCons(head, rest, other);
      PoppedCons(c, key);
      if head.0 != key { HasCons(head, Popped(rest, key), other); }
    }
  }

  lemma {:induction false} PoppedShrinks(c: Cache, key: string)
    ensures |Popped(c, key)| <= |c|
  {
    if c != [] { PoppedShrinks(c[1..], key); }
  }

  lemma HasCons(head: (string, string), rest: Cache, key: string)
    ensures Has([head] + rest, key) <==> head.0 == key || Has(rest, key)
    ensures head.0 == key ==> Find([head] + rest, key) == 0
    ensures head.0 != key && Has(rest, key) ==> Find([head] + rest, key) == 1 + Find(rest, key)
  {
    var c := [head] + rest;
    assert c[1..] == rest;
    if i :| 0 <= i < |rest| && rest[i].0 == key { assert c[i + 1].0 == key; }
    if head.0 == key { assert c[0].0 == key; }
    if i :| 0 <= i < |c| && c[i].0 == key { if i > 0 { assert rest[i - 1].0 == key; } }
  }

  /** How many entries are younger than a key's. */
  function Newer(c: Cache, key: string): nat
    requires Has(c, key)
  {
    |c| - 1 - Find(c, key)
  }

  lemma {:induction false} FindUnique(c: Cache, key: string, i: nat)
    requires Valid(c) && i < |c| && c[i].0 == key
    ensures Has(c, key) && Find(c, key) == i
  {
    assert Has(c, key);
    var f := Find(c, key);
    assert c[f].0 == c[i].0;
  }

  lemma DoValid(c: Cache, op: Op)
    requires Valid(c)
    ensures Valid(Do(c, op))
  {
    match op
    case Ask(_, _, _) =>
    case Pop(key) => PoppedValid(c, key);
  }

  /** In every run the cache holds at most 128 entries, one per key. */
  lemma {:induction false} RunValid(c: Cache, ops: seq<Op>)
    requires Valid(c)
    ensures Valid(Run(c, ops)) && |Run(c, ops)| <= CAPACITY
    decreases |ops|
  {
    if ops != [] {
      DoValid(c, ops[0]);
      RunValid(Do(c, ops[0]), ops[1..]);
    }
  }

  /** One insertion makes every other entry one older; it evicts exactly the entry with 127 younger ones. */
  lemma InsertEffect(c: Cache, op: Op, key: string)
    requires Valid(c) && Inserts(c, op) && Has(c, key)
    ensures Has(Do(c, op), key) <==> Newer(c, key) < CAPACITY - 1
    ensures Has(Do(c, op), key) ==> Lookup(Do(c, op), key) == Lookup(c, key) && Newer(Do(c, op), key) == Newer(c, key) + 1
  {
    var i := Find(c, key);
    var after := Do(c, op);
    assert op.key != key;
    DoValid(c, op);
    if |c| < CAPACITY {
      assert after[i] == c[i];
      FindUnique(after, key, i);
    } else if i > 0 {
      assert after[i - 1] == c[i];
      FindUnique(after, key, i - 1);
    } else {
      assert forall k :: 0 <= k < |after| - 1 ==> after[k] == c[k + 1];
    }
  }

  ghost predicate NeverPops(ops: seq<Op>, key: string) {
    forall i :: 0 <= i < |ops| ==> ops[i] != Pop(key)
  }

  /** A key that is not popped keeps its fallback id as long as the entries younger than it and the keys
      inserted during the run together stay below 128. */
  lemma {:induction false} FallbackShared(c: Cache, ops: seq<Op>, key: string)
    requires Valid(c) && Has(c, key) && NeverPops(ops, key)
    requires Newer(c, key) + NewKeys(c, ops) < CAPACITY
    ensures Has(Run(c, ops), key) && Lookup(Run(c, ops), key) == Lookup(c, key)
    decreases |ops|
  {
    if ops != [] {
      DoValid(c, ops[0]);
      if Inserts(c, ops[0]) {
        InsertEffect(c, ops[0], key);
      } else if ops[0].Pop? {
        assert ops[0] != Pop(key);
        PoppedOther(c, ops[0].key, key);
      }
      assert forall i :: 0 <= i < |ops| - 1 ==> ops[1..][i] == ops[i + 1];
      FallbackShared(Do(c, ops[0]), ops[1..], key);
    }
  }

  /** Two empty-id calls share their id if the first one generated it, the key was not popped and fewer
      than 128 keys were inserted in between. */
  lemma FreshFallbackShared(c: Cache, key: string, uuid: string, ops: seq<Op>, uuid2: string)
    requires Valid(c) && !Has(c, key) && NeverPops(ops, key)
    requires NewKeys(Do(c, Ask("", key, uuid)), ops) < CAPACITY
    ensures Ensured(Run(Do(c, Ask("", key, uuid)), ops), "", key, uuid2).0 == uuid
  {
    var c1 := Do(c, Ask("", key, uuid));
    DoValid(c, Ask("", key, uuid));
    assert c1[|c1| - 1] == (key, uuid);
    FindUnique(c1, key, |c1| - 1);
    FallbackShared(c1, ops, key);
  }

  /** Any calls, hits of the key among them, but no pop and no new insertion of the key itself. */
  predicate NeverReinserts(c: Cache, ops: seq<Op>, key: string)
    decreases |ops|
  {
    ops == []
    || (ops[0].Ask? && !(Inserts(c, ops[0]) && ops[0].key == key) && NeverReinserts(Do(c, ops[0]), ops[1..], key))
  }

  lemma InsertKeepsAbsent(c: Cache, op: Op, key: string)
    requires Inserts(c, op) && op.key != key && !Has(c, key)
    ensures !Has(Do(c, op), key)
  {
    var after := Do(c, op);
    forall i | 0 <= i < |after| ensures after[i].0 != key {
      if i < |after| - 1 { assert after[i] == c[if |c| >= CAPACITY then i + 1 else i]; }
    }
  }

  lemma {:induction false} StaysAbsent(c: Cache, ops: seq<Op>, key: string)
    requires Valid(c) && !Has(c, key) && NeverReinserts(c, ops, key)
    ensures !Has(Run(c, ops), key)
    decreases |ops|
  {
    if ops != [] {
      DoValid(c, ops[0]);
      if Inserts(c, ops[0]) { InsertKeepsAbsent(c, ops[0], key); }
      StaysAbsent(Do(c, ops[0]), ops[1..], key);
    }
  }

  /** Without pops the bound is exact, counted from the key's own insertion: hits in between, however many,
      do not renew it. */
  lemma {:induction false} EvictedExactly(c: Cache, ops: seq<Op>, key: string)
    requires Valid(c) && Has(c, key) && NeverReinserts(c, ops, key)
    ensures Has(Run(c, ops), key) <==> Newer(c, key) + NewKeys(c, ops) < CAPACITY
    decreases |ops|
  {
    if ops != [] {
      DoValid(c, ops[0]);
      if Inserts(c, ops[0]) {
        InsertEffect(c, ops[0], key);
        if !Has(Do(c, ops[0]), key) {
          StaysAbsent(Do(c, ops[0]), ops[1..], key);
        } else {
          EvictedExactly(Do(c, ops[0]), ops[1..], key);
        }
      } else {
        EvictedExactly(c, ops[1..], key);
      }
    }
  }

  /** So a hit followed by a single new key can lose the id: whenever the key is the oldest of 128. */
  lemma HitDoesNotRenew(c: Cache, key: string, uuid: string, other: string, uuid2: string)
    requires Valid(c) && |c| == CAPACITY && c[0].0 == key && !Has(c, other)
    ensures Do(c, Ask("", key, uuid)) == c
    ensures !Has(Run(c, [Ask("", key, uuid), Ask("", other, uuid2)]), key)
  {
    FindUnique(c, key, 0);
    InsertEffect(c, Ask("", other, uuid2), key);
    var ops := [Ask("", key, uuid), Ask("", other, uuid2)];
    assert ops[1..] == [Ask("", other, uuid2)] && ops[1..][1..] == [];
    assert Run(c, ops) == Run(c, ops[1..]) == Do(c, Ask("", other, uuid2));
  }
}
