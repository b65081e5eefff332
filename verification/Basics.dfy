/** Small vocabulary shared by the models: optional values, filtering, sums and text joins. */
module Basics {

  datatype Option<+T> = None | Some(value: T)

  /** The elements of `xs` that satisfy `p`, in order. */
  function Keep<T>(xs: seq<T>, p: T -> bool): seq<T> {
    if xs == [] then [] else (if p(xs[0]) then [xs[0]] else []) + Keep(xs[1..], p)
  }

  lemma {:induction false} KeepAppend<T>(xs: seq<T>, ys: seq<T>, p: T -> bool)
    ensures Keep(xs + ys, p) == Keep(xs, p) + Keep(ys, p)
  {
    if xs == [] {
      assert xs + ys == ys;
    } else {
      var head := if p(xs[0]) then [xs[0]] else [];
      calc {
        Keep(xs + ys, p);
        { assert (xs + ys)[0] == xs[0] && (xs + ys)[1..] == xs[1..] + ys; }
        head + Keep(xs[1..] + ys, p);
        { KeepAppend(xs[1..], ys, p); }
        head + (Keep(xs[1..], p) + Keep(ys, p));
        (head + Keep(xs[1..], p)) + Keep(ys, p);
        Keep(xs, p) + Keep(ys, p);
      }
    }
  }

  lemma {:induction false} KeepMember<T>(xs: seq<T>, p: T -> bool, x: T)
    ensures x in Keep(xs, p) <==> x in xs && p(x)
  {
    if xs != [] {
      KeepMember(xs[1..], p, x);
      assert xs == [xs[0]] + xs[1..];
    }
  }

  lemma {:induction false} KeepNone<T>(xs: seq<T>, p: T -> bool)
    requires forall x :: x in xs ==> !p(x)
    ensures Keep(xs, p) == []
  {
    if xs != [] { KeepNone(xs[1..], p); }
  }

  lemma {:induction false} KeepAll<T>(xs: seq<T>, p: T -> bool)
    requires forall x :: x in xs ==> p(x)
    ensures Keep(xs, p) == xs
  {
    if xs != [] { KeepAll(xs[1..], p); }
  }

  /** One more element, the step of every filtering loop. */
  lemma KeepStep<T>(xs: seq<T>, i: nat, p: T -> bool)
    requires i < |xs|
    ensures Keep(xs[..i + 1], p) == Keep(xs[..i], p) + if p(xs[i]) then [xs[i]] else []
  {
    assert xs[..i + 1] == xs[..i] + [xs[i]];
    KeepAppend(xs[..i], [xs[i]], p);
  }

  /** The kept elements stand at increasing positions, and no element that satisfies `p` is left out. */
  lemma {:induction false} KeepPositions<T>(xs: seq<T>, p: T -> bool) returns (at: seq<nat>)
    ensures |at| == |Keep(xs, p)|
    ensures forall k :: 0 <= k < |at| ==> at[k] < |xs| && Keep(xs, p)[k] == xs[at[k]] && p(xs[at[k]])
    ensures forall k, l :: 0 <= k < l < |at| ==> at[k] < at[l]
    ensures forall i :: 0 <= i < |xs| && p(xs[i]) ==> i in at
  {
    at := [];
    if xs != [] {
      var n := |xs| - 1;
      at := KeepPositions(xs[..n], p);
      KeepStep(xs, n, p);
      assert xs[..n + 1] == xs;
      if p(xs[n]) { at := at + [n]; }
    }
  }

  /** Filtering twice is filtering once. */
  lemma {:induction false} KeepTwice<T>(xs: seq<T>, p: T -> bool, q: T -> bool, both: T -> bool)
    requires forall x :: x in xs ==> both(x) == (p(x) && q(x))
    ensures Keep(Keep(xs, p), q) == Keep(xs, both)
  {
    if xs != [] {
      KeepTwice(xs[1..], p, q, both);
      KeepAppend(if p(xs[0]) then [xs[0]] else [], Keep(xs[1..], p), q);
      if p(xs[0]) { KeepOne(xs[0], q); }
    }
  }

  lemma KeepOne<T>(x: T, q: T -> bool)
    ensures Keep([x], q) == if q(x) then [x] else []
  {
    assert [x][1..] == [] && Keep([x][1..], q) == [];
  }

  lemma {:induction false} KeepSame<T>(xs: seq<T>, p: T -> bool, q: T -> bool)
    requires forall x :: x in xs ==> p(x) == q(x)
    ensures Keep(xs, p) == Keep(xs, q)
  {
    if xs != [] { KeepSame(xs[1..], p, q); }
  }

  /** `xs[-n:]` of Python: the last `n` elements, except that `n == 0` keeps them all. */
  function LastN<T>(xs: seq<T>, n: nat): (r: seq<T>)
    ensures n > 0 ==> |r| == if |xs| < n then |xs| else n
    ensures |r| <= |xs| && r == xs[|xs| - |r|..]
  {
    if n == 0 || |xs| <= n then xs else xs[|xs| - n..]
  }

  /** Taking the end twice is taking it once. */
  lemma LastNTwice<T>(xs: seq<T>, ys: seq<T>, n: nat)
    ensures LastN(LastN(xs, n) + ys, n) == LastN(xs + ys, n)
  {
    if |xs| > n > 0 {
      var all, front := xs + ys, |xs| - n;
      assert LastN(xs, n) + ys == all[front..];
      assert all[front..][|ys|..] == all[front + |ys|..];
    }
  }

  function Sum(ns: seq<nat>): nat {
    if ns == [] then 0 else ns[0] + Sum(ns[1..])
  }

  lemma {:induction false} SumAppend(ms: seq<nat>, ns: seq<nat>)
    ensures Sum(ms + ns) == Sum(ms) + Sum(ns)
  {
    if ms == [] {
      assert ms + ns == ns;
    } else {
      assert (ms + ns)[1..] == ms[1..] + ns;
      SumAppend(ms[1..], ns);
    }
  }

  lemma SumStep(ns: seq<nat>, i: nat)
    requires i < |ns|
    ensures Sum(ns[..i + 1]) == Sum(ns[..i]) + ns[i]
  {
    assert ns[..i + 1] == ns[..i] + [ns[i]];
    SumAppend(ns[..i], [ns[i]]);
    assert Sum([ns[i]]) == ns[i] + Sum([]);
  }

  /** `sep.join(parts)`. */
  function Join(parts: seq<string>, sep: string): string {
    if parts == [] then "" else if |parts| == 1 then parts[0]
    else parts[0] + sep + Join(parts[1..], sep)
  }

  function Lengths(parts: seq<string>): seq<nat> {
    seq(|parts|, i requires 0 <= i < |parts| => |parts[i]|)
  }

  lemma {:induction false} JoinLength(parts: seq<string>, sep: string)
    requires parts != []
    ensures |Join(parts, sep)| == Sum(Lengths(parts)) + |sep| * (|parts| - 1)
  {
    assert Lengths(parts)[1..] == Lengths(parts[1..]);
    if |parts| > 1 {
      JoinLength(parts[1..], sep);
      assert |Join(parts, sep)| == |parts[0]| + |sep| + |Join(parts[1..], sep)|;
      assert |sep| * (|parts| - 1) == |sep| + |sep| * (|parts| - 2);
    } else {
      assert Sum(Lengths(parts)) == |parts[0]| + Sum(Lengths(parts[1..]));
    }
  }

  /** Where a part stands in the joined text. */
  lemma {:induction false} JoinAround(parts: seq<string>, sep: string, i: nat) returns (before: string, after: string)
    requires i < |parts| && sep != ""
    ensures Join(parts, sep) == before + parts[i] + after
    ensures if i == 0 then before == "" else |before| >= |sep| && before[|before| - |sep|..] == sep
    ensures if i == |parts| - 1 then after == "" else sep <= after
  {
    if |parts| == 1 {
      before, after := "", "";
    } else if i == 0 {
      before, after := "", sep + Join(parts[1..], sep);
    } else {
      before, after := JoinAround(parts[1..], sep, i - 1);
      var rest := before;
      before := parts[0] + sep + rest;
      assert parts[0] + sep + (rest + parts[i] + after) == before + parts[i] + after;
    }
  }

  lemma MultisetAround<T>(a: seq<T>, x: T, b: seq<T>)
    ensures multiset(a + [x] + b) == multiset{x} + multiset(a + b)
  {
    assert multiset(a + b) == multiset(a) + multiset(b);
    assert multiset(a + [x] + b) == multiset(a + [x]) + multiset(b);
  }

  lemma TakeOut<T>(rest: seq<T>, x: T, a: seq<T>, b: seq<T>)
    requires multiset([x] + rest) == multiset(a + [x] + b)
    ensures multiset(rest) == multiset(a + b)
  {
    MultisetAround(a, x, b);
    assert multiset([x] + rest) == multiset{x} + multiset(rest);
    assert multiset(rest) == multiset([x] + rest) - multiset{x};
    assert multiset(a + b) == multiset(a + [x] + b) - multiset{x};
  }

  /** Permutations agree after the first element of one is taken out of the other. */
  lemma RemoveOne<T>(xs: seq<T>, ys: seq<T>) returns (a: seq<T>, b: seq<T>)
    requires xs != [] && multiset(xs) == multiset(ys)
    ensures ys == a + [xs[0]] + b && multiset(xs[1..]) == multiset(a + b)
  {
    assert xs[0] in multiset(xs);
    var i :| 0 <= i < |ys| && ys[i] == xs[0];
    a, b := ys[..i], ys[i + 1..];
    assert ys == a + [xs[0]] + b;
    assert xs == [xs[0]] + xs[1..];
    TakeOut(xs[1..], xs[0], a, b);
  }
}
