/** Trimming, for any notion of white space. */
module Whitespace {

  function TrimStart(s: string, space: char -> bool): string {
    if s != "" && space(s[0]) then TrimStart(s[1..], space) else s
  }

  function TrimEnd(s: string, space: char -> bool): string {
    if s != "" && space(s[|s| - 1]) then TrimEnd(s[..|s| - 1], space) else s
  }

  function Trim(s: string, space: char -> bool): string {
    TrimEnd(TrimStart(s, space), space)
  }

  predicate Blank(s: string, space: char -> bool) {
    forall i :: 0 <= i < |s| ==> space(s[i])
  }

  lemma {:induction false} TrimStartBlank(x: string, y: string, space: char -> bool)
    requires Blank(x, space)
    ensures TrimStart(x + y, space) == TrimStart(y, space)
  {
    if x == "" {
      assert x + y == y;
    } else {
      assert (x + y)[1..] == x[1..] + y;
      TrimStartBlank(x[1..], y, space);
    }
  }

  lemma {:induction false} TrimStartSolid(x: string, y: string, space: char -> bool)
    requires !Blank(x, space)
    ensures TrimStart(x + y, space) == TrimStart(x, space) + y
    ensures TrimStart(x, space) != "" && !space(TrimStart(x, space)[0])
  {
    if space(x[0]) {
      assert (x + y)[1..] == x[1..] + y;
      TrimStartSolid(x[1..], y, space);
    }
  }

  /** Cutting the end of `u + y` keeps all of `u` unless `y` is blank, and never eats a solid start. */
  lemma {:induction false} TrimEndAppend(u: string, y: string, space: char -> bool)
    requires u != "" && !space(u[0])
    ensures |TrimEnd(u + y, space)| >= |TrimEnd(y, space)| + 1
    decreases |y| + |u|
  {
    var s := u + y;
    if y == "" {
      assert s == u;
      if space(u[|u| - 1]) {
        assert u[..|u| - 1] + "" == u[..|u| - 1];
        TrimEndAppend(u[..|u| - 1], "", space);
      }
    } else if space(y[|y| - 1]) {
      assert s[..|s| - 1] == u + y[..|y| - 1];
      TrimEndAppend(u, y[..|y| - 1], space);
    }
  }

  lemma {:induction false} TrimEndDrop(s: string, k: nat, space: char -> bool)
    requires k <= |s|
    ensures |TrimEnd(s[k..], space)| <= |TrimEnd(s, space)|
  {
    if s != "" && space(s[|s| - 1]) && k < |s| {
      var n := |s| - 1;
      assert s[k..][..n - k] == s[..n][k..];
      TrimEndDrop(s[..n], k, space);
    }
  }

  lemma {:induction false} TrimStartIsSuffix(s: string, space: char -> bool) returns (k: nat)
    ensures k <= |s| && TrimStart(s, space) == s[k..]
    ensures Blank(s[..k], space) && (k < |s| ==> !space(s[k]))
  {
    if s != "" && space(s[0]) {
      var j := TrimStartIsSuffix(s[1..], space);
      k := j + 1;
      assert s[..k] == [s[0]] + s[1..][..j];
    } else {
      k := 0;
    }
  }

  lemma {:induction false} TrimEndIsPrefix(s: string, space: char -> bool) returns (k: nat)
    ensures k <= |s| && TrimEnd(s, space) == s[..k]
    ensures Blank(s[k..], space) && (k > 0 ==> !space(s[k - 1]))
  {
    if s != "" && space(s[|s| - 1]) {
      var n := |s| - 1;
      k := TrimEndIsPrefix(s[..n], space);
      assert s[k..] == s[..n][k..] + [s[n]] && s[..n][..k] == s[..k];
    } else {
      k := |s|;
    }
  }

  /** Trimming cuts white space off both ends, all of it, and nothing else. */
  lemma TrimExactly(s: string, space: char -> bool) returns (a: nat, b: nat)
    ensures a <= b <= |s| && Trim(s, space) == s[a..b]
    ensures Blank(s[..a], space) && Blank(s[b..], space)
    ensures a < b ==> !space(s[a]) && !space(s[b - 1])
  {
    a := TrimStartIsSuffix(s, space);
    var t := s[a..];
    var k := TrimEndIsPrefix(t, space);
    b := a + k;
    assert t[k..] == s[b..] && t[..k] == s[a..b];
    if k > 0 {
      assert t[0] == s[a] && t[k - 1] == s[b - 1];
    }
  }

  /** A solid part in front makes the trimmed text strictly longer. */
  lemma TrimSolidPrefix(x: string, y: string, space: char -> bool)
    requires !Blank(x, space)
    ensures |Trim(x + y, space)| > |Trim(y, space)|
  {
    TrimStartSolid(x, y, space);
    TrimEndAppend(TrimStart(x, space), y, space);
    var k := TrimStartIsSuffix(y, space);
    TrimEndDrop(y, k, space);
  }

  lemma {:induction false} TrimKeepsSolid(s: string, c: char, space: char -> bool)
    requires c in s && !space(c)
    ensures c in Trim(s, space)
  {
    StartKeeps(s, c, space);
    EndKeeps(TrimStart(s, space), c, space);
  }

  lemma {:induction false} StartKeeps(s: string, c: char, space: char -> bool)
    requires c in s && !space(c)
    ensures c in TrimStart(s, space)
  {
    if space(s[0]) { StartKeeps(s[1..], c, space); }
  }

  lemma {:induction false} EndKeeps(s: string, c: char, space: char -> bool)
    requires c in s && !space(c)
    ensures c in TrimEnd(s, space)
  {
    if space(s[|s| - 1]) { EndKeeps(s[..|s| - 1], c, space); }
  }
}
