/** Stable sorting, as `sorted(..., key=...)` does it, for any total preorder. */
module StableSort {
  import opened Basics

  ghost predicate TotalPreorder<T(!new)>(le: (T, T) -> bool) {
    && (forall x, y :: le(x, y) || le(y, x))
    && (forall x, y, z :: le(x, y) && le(y, z) ==> le(x, z))
  }

  ghost predicate Ordered<T>(xs: seq<T>, le: (T, T) -> bool) {
    forall i, j :: 0 <= i < j < |xs| ==> le(xs[i], xs[j])
  }

  /** Puts `x` in front of the first element that is not smaller. */
  function Insert<T>(x: T, xs: seq<T>, le: (T, T) -> bool): seq<T> {
    if xs == [] then [x] else if le(x, xs[0]) then [x] + xs else [xs[0]] + Insert(x, xs[1..], le)
  }

  function Sort<T>(xs: seq<T>, le: (T, T) -> bool): seq<T> {
    if xs == [] then [] else Insert(xs[0], Sort(xs[1..], le), le)
  }

  lemma {:induction false} InsertContents<T>(x: T, xs: seq<T>, le: (T, T) -> bool)
    ensures multiset(Insert(x, xs, le)) == multiset([x]) + multiset(xs)
  {
    if xs != [] {
      InsertContents(x, xs[1..], le);
      assert xs == [xs[0]] + xs[1..];
    }
  }

  lemma {:induction false} InsertOrdered<T(!new)>(x: T, xs: seq<T>, le: (T, T) -> bool)
    requires TotalPreorder(le) && Ordered(xs, le)
    ensures Ordered(Insert(x, xs, le), le)
  {
    if xs != [] && !le(x, xs[0]) {
      var rest := Insert(x, xs[1..], le);
      InsertOrdered(x, xs[1..], le);
      InsertContents(x, xs[1..], le);
      forall y | y in rest ensures le(xs[0], y) {
        assert y in multiset(rest);
        if y != x { assert y in xs[1..]; }
      }
    } else if xs != [] {
      assert le(x, xs[0]);
    }
  }

  /** The elements that tie with `e`. */
  function Ties<T>(xs: seq<T>, e: T, le: (T, T) -> bool): seq<T> {
    Keep(xs, y => le(y, e) && le(e, y))
  }

  lemma TiesCons<T>(x: T, xs: seq<T>, e: T, le: (T, T) -> bool)
    ensures Ties([x] + xs, e, le) == (if le(x, e) && le(e, x) then [x] else []) + Ties(xs, e, le)
  {
    assert ([x] + xs)[1..] == xs;
  }

  lemma {:induction false} TiesAre<T>(xs: seq<T>, e: T, le: (T, T) -> bool, tie: T -> bool)
    requires forall x :: x in xs ==> tie(x) == (le(x, e) && le(e, x))
    ensures Ties(xs, e, le) == Keep(xs, tie)
  {
    if xs != [] {
      TiesAre(xs[1..], e, le, tie);
      TiesCons(xs[0], xs[1..], e, le);
      assert xs == [xs[0]] + xs[1..];
    }
  }

  lemma {:induction false} InsertTies<T(!new)>(x: T, xs: seq<T>, e: T, le: (T, T) -> bool)
    requires TotalPreorder(le)
    ensures Ties(Insert(x, xs, le), e, le) == Ties([x] + xs, e, le)
  {
    if xs == [] {
      assert [x] + xs == [x];
    } else if !le(x, xs[0]) {
      var rest := xs[1..];
      InsertTies(x, rest, e, le);
      TiesCons(x, rest, e, le);
      TiesCons(xs[0], Insert(x, rest, le), e, le);
      TiesCons(xs[0], rest, e, le);
      TiesCons(x, xs, e, le);
      assert xs == [xs[0]] + rest;
      assert le(xs[0], e) && le(e, xs[0]) ==> !le(x, e);
    }
  }

  /** The result is ordered, has the same elements, and keeps the input order among ties. */
  lemma {:induction false} SortCorrect<T(!new)>(xs: seq<T>, le: (T, T) -> bool)
    requires TotalPreorder(le)
    ensures Ordered(Sort(xs, le), le)
    ensures multiset(Sort(xs, le)) == multiset(xs)
    ensures forall e :: Ties(Sort(xs, le), e, le) == Ties(xs, e, le)
  {
    if xs != [] {
      var rest := Sort(xs[1..], le);
      SortCorrect(xs[1..], le);
      InsertOrdered(xs[0], rest, le);
      InsertContents(xs[0], rest, le);
      assert xs == [xs[0]] + xs[1..];
      forall e ensures Ties(Sort(xs, le), e, le) == Ties(xs, e, le) {
        InsertTies(xs[0], rest, e, le);
        assert ([xs[0]] + rest)[1..] == rest;
        assert Ties(rest, e, le) == Ties(xs[1..], e, le);
      }
    }
  }
}
