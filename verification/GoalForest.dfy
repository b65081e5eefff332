/** The goal hierarchy of `schemas/goal.py` and its depth-first walk. */
module GoalForest {

  datatype GoalState = GoalState(id: string, title: string, description: string, status: string, blockers: seq<string>)

  datatype Entry = Entry(parent: string, goals: seq<GoalState>)

  /** Roots, and the `children` dictionary in insertion order. */
  datatype GoalHierarchy = GoalHierarchy(roots: seq<GoalState>, children: seq<Entry>)

  /** `children.get(id, [])`. */
  function Lookup(entries: seq<Entry>, id: string): seq<GoalState> {
    if entries == [] then [] else if entries[0].parent == id then entries[0].goals else Lookup(entries[1..], id)
  }

  function Flatten(entries: seq<Entry>): seq<GoalState> {
    if entries == [] then [] else entries[0].goals + Flatten(entries[1..])
  }

  function Listed(h: GoalHierarchy): seq<GoalState> {
    h.roots + Flatten(h.children)
  }

  lemma {:induction false} FlattenStep(entries: seq<Entry>, i: nat)
    requires i < |entries|
    ensures Flatten(entries[..i + 1]) == Flatten(entries[..i]) + entries[i].goals
  {
    if i == 0 {
      assert entries[..1] == [entries[0]] && entries[..0] == [];
    } else {
      FlattenStep(entries[1..], i - 1);
      assert entries[..i + 1][1..] == entries[1..][..i] && entries[..i][1..] == entries[1..][..i - 1];
    }
  }

  /** `all_goals`: the roots, extended by each child list in turn. */
  method AllGoals(h: GoalHierarchy) returns (result: seq<GoalState>)
    ensures result == Listed(h)
    ensures h.roots <= result
  {
    result := h.roots;
    for i := 0 to |h.children|
      invariant result == h.roots + Flatten(h.children[..i])
    {
      result := result + h.children[i].goals;
      FlattenStep(h.children, i);
    }
    assert h.children[..|h.children|] == h.children;
  }

  // ----- hierarchies -----

  ghost predicate UniqueIds(goals: seq<GoalState>) {
    forall i, j :: 0 <= i < j < |goals| ==> goals[i].id != goals[j].id
  }

  /** A dictionary has each key once. */
  ghost predicate IsDict(entries: seq<Entry>) {
    forall i, j :: 0 <= i < j < |entries| ==> entries[i].parent != entries[j].parent
  }

  ghost predicate UniqueGoals(h: GoalHierarchy) {
    IsDict(h.children) && UniqueIds(Listed(h))
  }

  // A walk is the list of ids from a root downwards; the empty walk stands above the roots.

  function Next(h: GoalHierarchy, walk: seq<string>): seq<GoalState> {
    if walk == [] then h.roots else Lookup(h.children, walk[|walk| - 1])
  }

  ghost predicate HasId(goals: seq<GoalState>, id: string) {
    exists g :: g in goals && g.id == id
  }

  ghost predicate Walk(h: GoalHierarchy, walk: seq<string>) {
    forall i :: 0 <= i < |walk| ==> HasId(Next(h, walk[..i]), walk[i])
  }

  ghost predicate NoRepeat(ids: seq<string>) {
    forall i, j :: 0 <= i < j < |ids| ==> ids[i] != ids[j]
  }

  /** No walk from a root meets an id twice: what the recursion needs in order to end. */
  ghost predicate Ends(h: GoalHierarchy) {
    forall walk :: Walk(h, walk) ==> NoRepeat(walk)
  }

  ghost function Ids(h: GoalHierarchy): set<string> { set g | g in Listed(h) :: g.id }

  lemma {:induction false} LookupListed(entries: seq<Entry>, id: string, g: GoalState)
    requires g in Lookup(entries, id)
    ensures g in Flatten(entries)
  {
    if entries[0].parent != id { LookupListed(entries[1..], id, g); }
  }

  lemma NextListed(h: GoalHierarchy, walk: seq<string>, g: GoalState)
    requires g in Next(h, walk)
    ensures g in Listed(h) && g.id in Ids(h)
  {
    if walk != [] { LookupListed(h.children, walk[|walk| - 1], g); }
  }

  lemma {:induction false} NoRepeatBounded(ids: seq<string>, all: set<string>)
    requires NoRepeat(ids) && forall i :: 0 <= i < |ids| ==> ids[i] in all
    ensures |ids| <= |all|
  {
    if ids != [] {
      var n := |ids| - 1;
      NoRepeatBounded(ids[..n], all - {ids[n]});
    }
  }

  lemma WalkBounded(h: GoalHierarchy, walk: seq<string>)
    requires Ends(h) && Walk(h, walk)
    ensures |walk| <= |Ids(h)|
  {
    forall i | 0 <= i < |walk| ensures walk[i] in Ids(h) {
      assert HasId(Next(h, walk[..i]), walk[i]);
      var g :| g in Next(h, walk[..i]) && g.id == walk[i];
      NextListed(h, walk[..i], g);
    }
    NoRepeatBounded(walk, Ids(h));
  }

  lemma WalkExtend(h: GoalHierarchy, walk: seq<string>, g: GoalState)
    requires Walk(h, walk) && g in Next(h, walk)
    ensures Walk(h, walk + [g.id])
  {
    var w := walk + [g.id];
    forall i | 0 <= i < |w| ensures HasId(Next(h, w[..i]), w[i]) {
      if i < |walk| { assert w[..i] == walk[..i]; } else { assert w[..i] == walk; }
    }
  }

  // ----- depth first -----

  /** `_visit`: the goal, then each child in turn. `walk` names the ids down to the goal. */
  function Visit(h: GoalHierarchy, g: GoalState, ghost walk: seq<string>): seq<GoalState>
    requires Ends(h) && Walk(h, walk) && walk != [] && walk[|walk| - 1] == g.id
    decreases |Ids(h)| - |walk|, 1, 0
  {
    [g] + VisitAll(h, Lookup(h.children, g.id), walk)
  }

  function VisitAll(h: GoalHierarchy, goals: seq<GoalState>, ghost walk: seq<string>): seq<GoalState>
    requires Ends(h) && Walk(h, walk) && forall g :: g in goals ==> g in Next(h, walk)
    decreases |Ids(h)| - |walk|, 0, |goals|
  {
    if goals == [] then []
    else
      WalkExtend(h, walk, goals[0]);
      WalkBounded(h, walk + [goals[0].id]);
      Visit(h, goals[0], walk + [goals[0].id]) + VisitAll(h, goals[1..], walk)
  }

  function DepthFirst(h: GoalHierarchy): seq<GoalState>
    requires Ends(h)
  {
    VisitAll(h, h.roots, [])
  }

  // ----- one walk per goal -----

  lemma SplitIds(a: seq<GoalState>, b: seq<GoalState>)
    requires UniqueIds(a + b)
    ensures UniqueIds(a) && UniqueIds(b)
    ensures forall x, y :: x in a && y in b ==> x.id != y.id
  {
    var all := a + b;
    assert forall i :: 0 <= i < |a| ==> all[i] == a[i];
    assert forall i :: 0 <= i < |b| ==> all[|a| + i] == b[i];
    forall x, y | x in a && y in b ensures x.id != y.id {
      var i :| 0 <= i < |a| && a[i] == x;
      var j :| 0 <= j < |b| && b[j] == y;
      assert all[i].id != all[|a| + j].id;
    }
  }

  lemma {:induction false} SameEntry(entries: seq<Entry>, id1: string, g1: GoalState, id2: string, g2: GoalState)
    requires IsDict(entries) && UniqueIds(Flatten(entries))
    requires g1 in Lookup(entries, id1) && g2 in Lookup(entries, id2) && g1.id == g2.id
    ensures id1 == id2 && g1 == g2
  {
    var head, rest := entries[0], entries[1..];
    SplitIds(head.goals, Flatten(rest));
    if head.parent == id1 && head.parent != id2 {
      LookupListed(rest, id2, g2);
    } else if head.parent != id1 && head.parent == id2 {
      LookupListed(rest, id1, g1);
    } else if head.parent != id1 {
      SameEntry(rest, id1, g1, id2, g2);
    }
  }

  /** The step into a goal is unique: from above the roots, or from its one parent. */
  lemma SameParent(h: GoalHierarchy, w1: seq<string>, g1: GoalState, w2: seq<string>, g2: GoalState)
    requires UniqueGoals(h) && g1 in Next(h, w1) && g2 in Next(h, w2) && g1.id == g2.id
    ensures g1 == g2
    ensures w1 == [] <==> w2 == []
    ensures w1 != [] ==> w1[|w1| - 1] == w2[|w2| - 1]
  {
    SplitIds(h.roots, Flatten(h.children));
    if w1 != [] { LookupListed(h.children, w1[|w1| - 1], g1); }
    if w2 != [] { LookupListed(h.children, w2[|w2| - 1], g2); }
    if w1 != [] && w2 != [] {
      SameEntry(h.children, w1[|w1| - 1], g1, w2[|w2| - 1], g2);
    }
  }

  lemma LastStep(h: GoalHierarchy, walk: seq<string>) returns (g: GoalState)
    requires Walk(h, walk) && walk != []
    ensures g in Next(h, walk[..|walk| - 1]) && g.id == walk[|walk| - 1]
    ensures Walk(h, walk[..|walk| - 1])
  {
    var n := |walk| - 1;
    assert HasId(Next(h, walk[..n]), walk[n]);
    g :| g in Next(h, walk[..n]) && g.id == walk[n];
    assert forall i :: 0 <= i < n ==> walk[..n][..i] == walk[..i];
  }

  lemma {:induction false} OneWalk(h: GoalHierarchy, w1: seq<string>, w2: seq<string>)
    requires UniqueGoals(h) && Walk(h, w1) && Walk(h, w2) && w1 != [] && w2 != []
    requires w1[|w1| - 1] == w2[|w2| - 1]
    ensures w1 == w2
  {
    var g1 := LastStep(h, w1);
    var g2 := LastStep(h, w2);
    var p1, p2 := w1[..|w1| - 1], w2[..|w2| - 1];
    SameParent(h, p1, g1, p2, g2);
    if p1 != [] { OneWalk(h, p1, p2); }
    assert w1 == p1 + [w1[|w1| - 1]] && w2 == p2 + [w2[|w2| - 1]];
  }

  /** With unique ids the recursion always ends: a cycle is never below a root. */
  lemma UniqueIdsEnd(h: GoalHierarchy)
    requires UniqueGoals(h)
    ensures Ends(h)
  {
    forall walk, i, j | Walk(h, walk) && 0 <= i < j < |walk| ensures walk[i] != walk[j] {
      NoReturn(h, walk, i, j);
    }
  }

  lemma WalkPrefix(h: GoalHierarchy, walk: seq<string>, n: nat)
    requires Walk(h, walk) && n <= |walk|
    ensures Walk(h, walk[..n])
  {
    assert forall k :: 0 <= k <= n ==> walk[..n][..k] == walk[..k];
  }

  lemma NoReturn(h: GoalHierarchy, walk: seq<string>, i: nat, j: nat)
    requires UniqueGoals(h) && Walk(h, walk) && i < j < |walk|
    ensures walk[i] != walk[j]
  {
    if walk[i] == walk[j] {
      WalkPrefix(h, walk, i + 1);
      WalkPrefix(h, walk, j + 1);
      var w1, w2 := walk[..i + 1], walk[..j + 1];
      assert w1[|w1| - 1] == walk[i] && w2[|w2| - 1] == walk[j] && |w1| != |w2|;
      OneWalk(h, w1, w2);
    }
  }

  // ----- what the walk yields -----

  /** A yielded goal has a walk through the part of the tree that was visited. */
  lemma {:induction false} YieldedHasWalk(h: GoalHierarchy, goals: seq<GoalState>, walk: seq<string>, x: GoalState)
    returns (w: seq<string>)
    requires Ends(h) && Walk(h, walk) && forall g :: g in goals ==> g in Next(h, walk)
    requires x in VisitAll(h, goals, walk)
    ensures Walk(h, w + [x.id]) && x in Next(h, w) && walk <= w
    ensures (w == walk && x in goals) || (|w| > |walk| && HasId(goals, w[|walk|]))
    decreases |Ids(h)| - |walk|, |goals|
  {
    WalkExtend(h, walk, goals[0]);
    var down := walk + [goals[0].id];
    WalkBounded(h, down);
    if x == goals[0] {
      w := walk;
    } else if x in VisitAll(h, goals[1..], walk) {
      w := YieldedHasWalk(h, goals[1..], walk, x);
      if |w| > |walk| {
        var g :| g in goals[1..] && g.id == w[|walk|];
        assert g in goals;
      }
    } else {
      w := YieldedHasWalk(h, Lookup(h.children, goals[0].id), down, x);
      assert w[|walk|] == down[|walk|] == goals[0].id;
    }
  }

  lemma WalkPast(h: GoalHierarchy, down: seq<string>, w: seq<string>)
    requires Walk(h, w) && 0 < |down| <= |w| && down[..|down| - 1] <= w && down[|down| - 1] == w[|down| - 1]
    ensures down <= w
    ensures w != down ==> HasId(Lookup(h.children, down[|down| - 1]), w[|down|])
  {
    assert down == w[..|down|];
    if w != down { assert HasId(Next(h, w[..|down|]), w[|down|]); }
  }

  /** Every goal reached by a walk below one of `goals` is yielded. */
  lemma {:induction false} WalkIsYielded(h: GoalHierarchy, goals: seq<GoalState>, walk: seq<string>, w: seq<string>, x: GoalState)
    requires Ends(h) && Walk(h, walk) && forall g :: g in goals ==> g in Next(h, walk)
    requires walk <= w && Walk(h, w) && x in Next(h, w)
    requires if w == walk then x in goals else HasId(goals, w[|walk|])
    ensures x in VisitAll(h, goals, walk)
    decreases |Ids(h)| - |walk|, |goals|
  {
    WalkExtend(h, walk, goals[0]);
    var down := walk + [goals[0].id];
    WalkBounded(h, down);
    if w != walk && w[|walk|] == goals[0].id {
      WalkPast(h, down, w);
      WalkIsYielded(h, Lookup(h.children, goals[0].id), down, w, x);
    } else if w != walk || x != goals[0] {
      OtherGoal(goals, if w == walk then x.id else w[|walk|]);
      assert goals == [goals[0]] + goals[1..];
      WalkIsYielded(h, goals[1..], walk, w, x);
    }
  }

  lemma OtherGoal(goals: seq<GoalState>, id: string)
    ensures HasId(goals, id) && goals[0].id != id ==> HasId(goals[1..], id)
  {
    if g :| g in goals && g.id == id && g != goals[0] { assert g in goals[1..]; }
  }

  ghost predicate NoDuplicates(goals: seq<GoalState>) {
    forall i, j :: 0 <= i < j < |goals| ==> goals[i] != goals[j]
  }

  /** The subtrees of two siblings, and a goal and its own subtree, share nothing. */
  lemma SubtreesApart(h: GoalHierarchy, goals: seq<GoalState>, walk: seq<string>, x: GoalState)
    requires UniqueGoals(h) && Ends(h) && Walk(h, walk) && (forall g :: g in goals ==> g in Next(h, walk))
    requires UniqueIds(goals) && goals != []
    requires Walk(h, walk + [goals[0].id])
    requires x in VisitAll(h, Lookup(h.children, goals[0].id), walk + [goals[0].id])
    ensures x != goals[0] && x !in VisitAll(h, goals[1..], walk)
  {
    var down := walk + [goals[0].id];
    var w := YieldedHasWalk(h, Lookup(h.children, goals[0].id), down, x);
    assert down <= w && w[|walk|] == goals[0].id;
    if x == goals[0] {
      OneWalk(h, w + [x.id], down);
    }
    if x in VisitAll(h, goals[1..], walk) {
      var v := YieldedHasWalk(h, goals[1..], walk, x);
      OneWalk(h, w + [x.id], v + [x.id]);
    }
  }

  lemma FirstNotAfter(h: GoalHierarchy, goals: seq<GoalState>, walk: seq<string>)
    requires UniqueGoals(h) && Ends(h) && Walk(h, walk) && (forall g :: g in goals ==> g in Next(h, walk))
    requires UniqueIds(goals) && goals != []
    ensures goals[0] !in VisitAll(h, goals[1..], walk)
  {
    if goals[0] in VisitAll(h, goals[1..], walk) {
      WalkExtend(h, walk, goals[0]);
      var v := YieldedHasWalk(h, goals[1..], walk, goals[0]);
      OneWalk(h, walk + [goals[0].id], v + [goals[0].id]);
    }
  }

  lemma NoDuplicatesJoin(a: seq<GoalState>, b: seq<GoalState>)
    requires NoDuplicates(a) && NoDuplicates(b) && forall x :: x in a ==> x !in b
    ensures NoDuplicates(a + b)
  {
    var all := a + b;
    forall i, j | 0 <= i < j < |all| ensures all[i] != all[j] {
      if i < |a| <= j {
        assert a[i] in a && b[j - |a|] in b;
      }
    }
  }

  lemma {:induction false} YieldedOnce(h: GoalHierarchy, goals: seq<GoalState>, walk: seq<string>)
    requires UniqueGoals(h) && Ends(h) && Walk(h, walk) && (forall g :: g in goals ==> g in Next(h, walk))
    requires UniqueIds(goals)
    ensures NoDuplicates(VisitAll(h, goals, walk))
    decreases |Ids(h)| - |walk|, |goals|
  {
    if goals != [] {
      WalkExtend(h, walk, goals[0]);
      var down := walk + [goals[0].id];
      WalkBounded(h, down);
      var kids := Lookup(h.children, goals[0].id);
      NextUnique(h, down);
      YieldedOnce(h, kids, down);
      YieldedOnce(h, goals[1..], walk);
      var below, after := VisitAll(h, kids, down), VisitAll(h, goals[1..], walk);
      forall x | x in below ensures x != goals[0] && x !in after { SubtreesApart(h, goals, walk, x); }
      FirstNotAfter(h, goals, walk);
      NoDuplicatesJoin([goals[0]], below);
      NoDuplicatesJoin([goals[0]] + below, after);
      assert VisitAll(h, goals, walk) == [goals[0]] + below + after;
    }
  }

  lemma {:induction false} LookupUnique(entries: seq<Entry>, id: string)
    requires UniqueIds(Flatten(entries))
    ensures UniqueIds(Lookup(entries, id))
  {
    if entries != [] {
      SplitIds(entries[0].goals, Flatten(entries[1..]));
      LookupUnique(entries[1..], id);
    }
  }

  lemma NextUnique(h: GoalHierarchy, walk: seq<string>)
    requires UniqueGoals(h)
    ensures UniqueIds(Next(h, walk))
  {
    SplitIds(h.roots, Flatten(h.children));
    if walk != [] { LookupUnique(h.children, walk[|walk| - 1]); }
  }

  // ----- the permutation theorem -----

  ghost predicate KeysName(h: GoalHierarchy) {
    forall e :: e in h.children && e.goals != [] ==> e.parent in Ids(h)
  }

  /** `p` runs along parent-to-child steps. */
  ghost predicate Chain(h: GoalHierarchy, p: seq<string>) {
    forall i :: 0 <= i < |p| - 1 ==> HasId(Lookup(h.children, p[i]), p[i + 1])
  }

  /** No goal is its own ancestor. */
  ghost predicate Acyclic(h: GoalHierarchy) {
    forall p :: Chain(h, p) && |p| >= 2 ==> p[0] != p[|p| - 1]
  }

  ghost predicate Reached(h: GoalHierarchy, x: GoalState) {
    exists w :: Walk(h, w) && x in Next(h, w)
  }

  lemma {:induction false} FlattenEntry(entries: seq<Entry>, x: GoalState) returns (e: Entry)
    requires x in Flatten(entries)
    ensures e in entries && x in e.goals
  {
    if x in entries[0].goals {
      e := entries[0];
    } else {
      e := FlattenEntry(entries[1..], x);
      assert entries == [entries[0]] + entries[1..];
    }
  }

  lemma {:induction false} LookupEntry(entries: seq<Entry>, e: Entry)
    requires IsDict(entries) && e in entries
    ensures Lookup(entries, e.parent) == e.goals
  {
    if entries[0] != e {
      assert e in entries[1..];
      var i :| 1 <= i < |entries| && entries[i] == e;
      assert entries[0].parent != entries[i].parent;
      LookupEntry(entries[1..], e);
    }
  }

  lemma ChainUp(h: GoalHierarchy, p: seq<string>, top: GoalState, parent: string)
    requires Chain(h, p) && p != [] && top in Lookup(h.children, parent) && top.id == p[0]
    ensures Chain(h, [parent] + p)
  {
    var q := [parent] + p;
    forall i | 0 <= i < |q| - 1 ensures HasId(Lookup(h.children, q[i]), q[i + 1]) {
      if i > 0 { assert HasId(Lookup(h.children, p[i - 1]), p[i]); }
    }
  }

  lemma ChainNoRepeat(h: GoalHierarchy, q: seq<string>)
    requires Acyclic(h) && Chain(h, q) && q != [] && NoRepeat(q[1..])
    ensures NoRepeat(q)
  {
    forall j | 0 < j < |q| ensures q[0] != q[j] {
      var loop := q[..j + 1];
      forall i | 0 <= i < |loop| - 1 ensures HasId(Lookup(h.children, loop[i]), loop[i + 1]) {
        assert HasId(Lookup(h.children, q[i]), q[i + 1]);
      }
      assert Chain(h, loop);
    }
    assert forall i :: 0 < i < |q| ==> q[i] == q[1..][i - 1];
  }

  lemma RootChainIsWalk(h: GoalHierarchy, p: seq<string>, top: GoalState)
    requires Chain(h, p) && p != [] && top in h.roots && top.id == p[0]
    ensures Walk(h, p)
  {
    forall i | 0 <= i < |p| ensures HasId(Next(h, p[..i]), p[i]) {
      if i > 0 { assert p[..i][|p[..i]| - 1] == p[i - 1] && HasId(Lookup(h.children, p[i - 1]), p[i]); }
    }
  }

  /** Climbing from a chain's top to its parent reaches a root, since an acyclic climb must stop. */
  lemma {:induction false} Climb(h: GoalHierarchy, p: seq<string>, top: GoalState) returns (w: seq<string>)
    requires UniqueGoals(h) && KeysName(h) && Acyclic(h)
    requires p != [] && Chain(h, p) && NoRepeat(p) && (forall i :: 0 <= i < |p| ==> p[i] in Ids(h))
    requires top in Listed(h) && top.id == p[0]
    ensures Walk(h, w) && w != [] && w[|w| - 1] == p[|p| - 1]
    decreases |Ids(h)| - |p|
  {
    if top in h.roots {
      RootChainIsWalk(h, p, top);
      w := p;
    } else {
      var e := FlattenEntry(h.children, top);
      LookupEntry(h.children, e);
      var q := [e.parent] + p;
      ChainUp(h, p, top, e.parent);
      assert q[1..] == p;
      ChainNoRepeat(h, q);
      assert e.parent in Ids(h);
      NoRepeatBounded(q, Ids(h));
      var parent :| parent in Listed(h) && parent.id == e.parent;
      w := Climb(h, q, parent);
    }
  }

  lemma EveryGoalReached(h: GoalHierarchy, x: GoalState)
    requires UniqueGoals(h) && KeysName(h) && Acyclic(h) && x in Listed(h)
    ensures Reached(h, x)
  {
    var w := Climb(h, [x.id], x);
    var g := LastStep(h, w);
    SameListing(h, g, x, w[..|w| - 1]);
  }

  lemma SameListing(h: GoalHierarchy, g: GoalState, x: GoalState, walk: seq<string>)
    requires UniqueGoals(h) && g in Next(h, walk) && x in Listed(h) && g.id == x.id
    ensures g == x
  {
    NextListed(h, walk, g);
    var i :| 0 <= i < |Listed(h)| && Listed(h)[i] == g;
    var j :| 0 <= j < |Listed(h)| && Listed(h)[j] == x;
  }

  lemma ReachedMeansNamed(h: GoalHierarchy)
    requires UniqueGoals(h) && forall x :: x in Listed(h) ==> Reached(h, x)
    ensures KeysName(h)
  {
    forall e | e in h.children && e.goals != [] ensures e.parent in Ids(h) {
      var x := e.goals[0];
      LookupEntry(h.children, e);
      LookupListed(h.children, e.parent, x);
      assert Reached(h, x);
      var w: seq<string> :| Walk(h, w) && x in Next(h, w);
      SameParent(h, w, x, [e.parent], x);
      var g := LastStep(h, w);
      NextListed(h, w[..|w| - 1], g);
    }
  }

  lemma ReachedMeansAcyclic(h: GoalHierarchy)
    requires UniqueGoals(h) && forall x :: x in Listed(h) ==> Reached(h, x)
    ensures Acyclic(h)
  {
    forall p | Chain(h, p) && |p| >= 2 ensures p[0] != p[|p| - 1] {
      if p[0] == p[|p| - 1] {
        var n := |p| - 1;
        assert HasId(Lookup(h.children, p[n - 1]), p[n]);
        var x :| x in Lookup(h.children, p[n - 1]) && x.id == p[n];
        LookupListed(h.children, p[n - 1], x);
        assert Reached(h, x);
        var w :| Walk(h, w) && x in Next(h, w);
        WalkExtend(h, w, x);
        WalkThenChain(h, w + [x.id], p);
        OneWalk(h, w + [x.id], w + [x.id] + p[1..]);
      }
    }
  }

  lemma WalkThenChain(h: GoalHierarchy, w1: seq<string>, p: seq<string>)
    requires Walk(h, w1) && w1 != [] && Chain(h, p) && p != [] && w1[|w1| - 1] == p[0]
    ensures Walk(h, w1 + p[1..])
  {
    var w2 := w1 + p[1..];
    forall i | 0 <= i < |w2| ensures HasId(Next(h, w2[..i]), w2[i]) {
      if i < |w1| {
        assert w2[..i] == w1[..i];
      } else {
        var k := i - |w1|;
        assert w2[..i][i - 1] == p[k] && HasId(Lookup(h.children, p[k]), p[k + 1]);
      }
    }
  }

  lemma YieldedIffReached(h: GoalHierarchy, x: GoalState)
    requires Ends(h)
    ensures x in DepthFirst(h) <==> Reached(h, x)
  {
    if x in DepthFirst(h) {
      var w := YieldedHasWalk(h, h.roots, [], x);
      assert forall i :: 0 <= i < |w| ==> (w + [x.id])[..i] == w[..i];
      assert forall i :: 0 <= i < |w| ==> HasId(Next(h, (w + [x.id])[..i]), (w + [x.id])[i]);
    }
    if w :| Walk(h, w) && x in Next(h, w) {
      if w != [] { assert HasId(Next(h, w[..0]), w[0]); }
      WalkIsYielded(h, h.roots, [], w, x);
    }
  }

  lemma {:induction false} CountOnce(goals: seq<GoalState>)
    requires NoDuplicates(goals)
    ensures forall x :: multiset(goals)[x] == if x in goals then 1 else 0
  {
    if goals != [] {
      CountOnce(goals[1..]);
      assert goals == [goals[0]] + goals[1..];
    }
  }

  /** For every hierarchy with unique ids the walk ends and yields each goal under a root once; it is a
      permutation of all listed goals exactly when every non-empty child list is keyed by a listed
      goal and no goal is its own ancestor. */
  lemma DepthFirstPermutes(h: GoalHierarchy)
    requires UniqueGoals(h)
    ensures Ends(h)
    ensures NoDuplicates(DepthFirst(h))
    ensures forall x :: x in DepthFirst(h) <==> Reached(h, x)
    ensures multiset(DepthFirst(h)) == multiset(Listed(h)) <==> KeysName(h) && Acyclic(h)
  {
    UniqueIdsEnd(h);
    NextUnique(h, []);
    YieldedOnce(h, h.roots, []);
    forall x ensures x in DepthFirst(h) <==> Reached(h, x) { YieldedIffReached(h, x); }
    if KeysName(h) && Acyclic(h) {
      AllYielded(h);
    }
    if multiset(DepthFirst(h)) == multiset(Listed(h)) {
      SameMembers(Listed(h), DepthFirst(h));
      ReachedMeansNamed(h);
      ReachedMeansAcyclic(h);
    }
  }

  lemma AllYielded(h: GoalHierarchy)
    requires UniqueGoals(h) && Ends(h) && NoDuplicates(DepthFirst(h)) && KeysName(h) && Acyclic(h)
    requires forall x :: x in DepthFirst(h) <==> Reached(h, x)
    ensures multiset(DepthFirst(h)) == multiset(Listed(h))
  {
    forall x | x in DepthFirst(h) ensures x in Listed(h) {
      var w :| Walk(h, w) && x in Next(h, w);
      NextListed(h, w, x);
    }
    forall x | x in Listed(h) ensures x in DepthFirst(h) { EveryGoalReached(h, x); }
    SameOnce(DepthFirst(h), Listed(h));
  }

  lemma SameOnce(xs: seq<GoalState>, ys: seq<GoalState>)
    requires NoDuplicates(xs) && NoDuplicates(ys) && forall x :: x in xs <==> x in ys
    ensures multiset(xs) == multiset(ys)
  {
    CountOnce(xs);
    CountOnce(ys);
  }

  lemma SameMembers<T>(xs: seq<T>, ys: seq<T>)
    requires multiset(xs) == multiset(ys)
    ensures forall x :: x in xs ==> x in ys
  {
    forall x | x in xs ensures x in ys { assert x in multiset(ys); }
  }

  ghost predicate AfterParent(h: GoalHierarchy, goals: seq<GoalState>, j: nat)
    requires j < |goals|
  {
    exists i :: 0 <= i < j && goals[j] in Lookup(h.children, goals[i].id)
  }

  lemma AfterParentShift(h: GoalHierarchy, a: seq<GoalState>, part: seq<GoalState>, b: seq<GoalState>, k: nat)
    requires k < |part| && AfterParent(h, part, k)
    ensures AfterParent(h, a + part + b, |a| + k)
  {
    var i :| 0 <= i < k && part[k] in Lookup(h.children, part[i].id);
    assert (a + part + b)[|a| + i] == part[i] && (a + part + b)[|a| + k] == part[k];
  }

  ghost predicate ParentsBefore(h: GoalHierarchy, tops: seq<GoalState>, all: seq<GoalState>) {
    forall j :: 0 <= j < |all| ==> all[j] in tops || AfterParent(h, all, j)
  }

  lemma ParentsBeforeJoin(h: GoalHierarchy, goals: seq<GoalState>, below: seq<GoalState>, after: seq<GoalState>)
    requires goals != []
    requires ParentsBefore(h, Lookup(h.children, goals[0].id), below) && ParentsBefore(h, goals[1..], after)
    ensures ParentsBefore(h, goals, [goals[0]] + below + after)
  {
    var all := [goals[0]] + below + after;
    forall j | 0 <= j < |all| ensures all[j] in goals || AfterParent(h, all, j) {
      if 1 <= j <= |below| {
        assert all[j] == below[j - 1];
        if below[j - 1] in Lookup(h.children, goals[0].id) {
          assert all[j] in Lookup(h.children, all[0].id);
        } else {
          AfterParentShift(h, [goals[0]], below, after, j - 1);
        }
      } else if j > |below| {
        var k := j - 1 - |below|;
        assert all[j] == after[k];
        if after[k] !in goals[1..] {
          assert all == ([goals[0]] + below) + after + [];
          AfterParentShift(h, [goals[0]] + below, after, [], k);
        }
      }
    }
  }

  lemma {:induction false} ParentsFirstBelow(h: GoalHierarchy, goals: seq<GoalState>, walk: seq<string>)
    requires Ends(h) && Walk(h, walk) && forall g :: g in goals ==> g in Next(h, walk)
    ensures ParentsBefore(h, goals, VisitAll(h, goals, walk))
    decreases |Ids(h)| - |walk|, |goals|
  {
    if goals != [] {
      WalkExtend(h, walk, goals[0]);
      var down := walk + [goals[0].id];
      WalkBounded(h, down);
      var kids := Lookup(h.children, goals[0].id);
      ParentsFirstBelow(h, kids, down);
      ParentsFirstBelow(h, goals[1..], walk);
      ParentsBeforeJoin(h, goals, VisitAll(h, kids, down), VisitAll(h, goals[1..], walk));
      assert VisitAll(h, goals, walk) == [goals[0]] + VisitAll(h, kids, down) + VisitAll(h, goals[1..], walk);
    }
  }

  /** Every yielded goal is a root or comes after a goal that lists it as a child. */
  lemma ParentsFirst(h: GoalHierarchy)
    requires Ends(h)
    ensures ParentsBefore(h, h.roots, DepthFirst(h))
  {
    ParentsFirstBelow(h, h.roots, []);
  }

  // ----- the order of the walk -----

  /** Depth first with an agenda: the first goal is yielded, and its children go to the front. */
  predicate AgendaWalk(h: GoalHierarchy, agenda: seq<GoalState>, out: seq<GoalState>)
    decreases |out|
  {
    if out == [] then agenda == []
    else agenda != [] && out[0] == agenda[0] && AgendaWalk(h, Lookup(h.children, agenda[0].id) + agenda[1..], out[1..])
  }

  lemma {:induction false} VisitFollowsAgenda(h: GoalHierarchy, goals: seq<GoalState>, walk: seq<string>,
                                              agenda: seq<GoalState>, out: seq<GoalState>)
    requires Ends(h) && Walk(h, walk) && forall g :: g in goals ==> g in Next(h, walk)
    requires AgendaWalk(h, agenda, out)
    ensures AgendaWalk(h, goals + agenda, VisitAll(h, goals, walk) + out)
    decreases |Ids(h)| - |walk|, |goals|
  {
    if goals == [] {
      assert goals + agenda == agenda && [] + out == out;
    } else {
      WalkExtend(h, walk, goals[0]);
      var down := walk + [goals[0].id];
      WalkBounded(h, down);
      var kids, rest := Lookup(h.children, goals[0].id), goals[1..];
      VisitFollowsAgenda(h, rest, walk, agenda, out);
      VisitFollowsAgenda(h, kids, down, rest + agenda, VisitAll(h, rest, walk) + out);
      OneVisit(h, goals, agenda, VisitAll(h, kids, down), VisitAll(h, rest, walk), out);
    }
  }

  lemma OneVisit(h: GoalHierarchy, goals: seq<GoalState>, agenda: seq<GoalState>, below: seq<GoalState>,
                 after: seq<GoalState>, out: seq<GoalState>)
    requires goals != []
    requires AgendaWalk(h, Lookup(h.children, goals[0].id) + (goals[1..] + agenda), below + (after + out))
    ensures AgendaWalk(h, goals + agenda, [goals[0]] + below + after + out)
  {
    assert (goals + agenda)[1..] == goals[1..] + agenda;
    assert ([goals[0]] + below + after + out)[1..] == below + (after + out);
  }

  lemma {:induction false} OneAgendaWalk(h: GoalHierarchy, agenda: seq<GoalState>, a: seq<GoalState>, b: seq<GoalState>)
    requires AgendaWalk(h, agenda, a) && AgendaWalk(h, agenda, b)
    ensures a == b
    decreases |a|
  {
    if a != [] && b != [] {
      OneAgendaWalk(h, Lookup(h.children, agenda[0].id) + agenda[1..], a[1..], b[1..]);
      assert a == [a[0]] + a[1..] && b == [b[0]] + b[1..];
    }
  }

  /** The recursive walk and the one with an agenda, starting from the roots, are the same: each goal is
      followed by its children in the order listed, each with everything below it. */
  lemma DepthFirstOrder(h: GoalHierarchy, out: seq<GoalState>)
    requires Ends(h)
    ensures AgendaWalk(h, h.roots, out) <==> out == DepthFirst(h)
  {
    VisitFollowsAgenda(h, h.roots, [], [], []);
    assert h.roots + [] == h.roots && DepthFirst(h) + [] == DepthFirst(h);
    if AgendaWalk(h, h.roots, out) { OneAgendaWalk(h, h.roots, out, DepthFirst(h)); }
  }

  /** A lookup answers the list under its key, and nothing for a key that is not there. */
  lemma {:induction false} LookupExactly(entries: seq<Entry>, id: string)
    requires IsDict(entries)
    ensures forall e :: e in entries && e.parent == id ==> Lookup(entries, id) == e.goals
    ensures (forall e :: e in entries ==> e.parent != id) ==> Lookup(entries, id) == []
  {
    if entries != [] {
      LookupExactly(entries[1..], id);
      assert entries == [entries[0]] + entries[1..];
    }
  }

  /** Where the list of the `i`-th parent stands among all goals: after the roots and the lists before it. */
  lemma ListedExactly(h: GoalHierarchy, i: nat)
    requires i < |h.children|
    ensures var at := |h.roots| + |Flatten(h.children[..i])|;
            && at + |h.children[i].goals| <= |Listed(h)|
            && Listed(h)[at..at + |h.children[i].goals|] == h.children[i].goals
            && (i == |h.children| - 1 ==> at + |h.children[i].goals| == |Listed(h)|)
            && (i == 0 ==> at == |h.roots|)
            && |Flatten(h.children[..i + 1])| == |Flatten(h.children[..i])| + |h.children[i].goals|
  {
    FlattenStep(h.children, i);
    FlattenPrefix(h.children, i + 1);
    assert h.children[..|h.children|] == h.children;
  }

  lemma {:induction false} FlattenPrefix(entries: seq<Entry>, i: nat)
    requires i <= |entries|
    ensures Flatten(entries[..i]) <= Flatten(entries)
    decreases |entries| - i
  {
    if i < |entries| {
      FlattenStep(entries, i);
      FlattenPrefix(entries, i + 1);
    } else {
      assert entries[..i] == entries;
    }
  }
}
