/**
 * Scans of a word by a character test, shared by the VNI engine's tone placement
 * (the positions of the vowels, the last group of consecutive vowels) and its hat keys
 * (the backward search that gives up at a stop character). The tests are parameters,
 * so what is proved here holds for any choice of them.
 */
module Scan {
  /** The indices i of s at which p(s[i]) holds, in increasing order. */
  function Positions(s: string, p: char -> bool): (ps: seq<nat>)
    ensures forall i | 0 <= i < |ps| :: ps[i] < |s|
  {
    if |s| == 0 then []
    else Positions(s[..|s| - 1], p) + (if p(s[|s| - 1]) then [|s| - 1] else [])
  }

  /** Positions lists exactly the indices where p holds, each once and in increasing order. */
  lemma {:induction false} PositionsSpec(s: string, p: char -> bool)
    ensures forall i | 0 <= i < |Positions(s, p)| :: p(s[Positions(s, p)[i]])
    ensures forall i, j | 0 <= i < j < |Positions(s, p)| :: Positions(s, p)[i] < Positions(s, p)[j]
    ensures forall x | 0 <= x < |s| && p(s[x]) :: x in Positions(s, p)
  {
    if |s| > 0 {
      var front := s[..|s| - 1];
      PositionsSpec(front, p);
      assert forall x | 0 <= x < |front| :: front[x] == s[x];
    }
  }

  /** Where p holds, the index is listed: the place m at which Positions lists it. */
  lemma {:induction false} PositionIndex(s: string, p: char -> bool, x: nat) returns (m: nat)
    requires x < |s| && p(s[x])
    ensures m < |Positions(s, p)| && Positions(s, p)[m] == x
    decreases |s|
  {
    var front := s[..|s| - 1];
    if x == |s| - 1 {
      m := |Positions(front, p)|;
    } else {
      assert front[x] == s[x];
      m := PositionIndex(front, p, x);
    }
  }

  /** Positions only looks at where p holds: two strings that agree on it have the same positions. */
  lemma {:induction false} PositionsCongruent(s: string, u: string, p: char -> bool)
    requires |s| == |u|
    requires forall i | 0 <= i < |s| :: p(s[i]) == p(u[i])
    ensures Positions(s, p) == Positions(u, p)
  {
    if |s| > 0 {
      var n := |s| - 1;
      assert forall i | 0 <= i < n :: s[..n][i] == s[i] && u[..n][i] == u[i];
      PositionsCongruent(s[..n], u[..n], p);
    }
  }

  /** The last index below i at which p holds, or -1. */
  function LastBelow(s: string, i: nat, p: char -> bool): (e: int)
    requires i <= |s|
    ensures -1 <= e < i
    ensures e >= 0 ==> p(s[e])
    ensures forall x | e < x < i :: !p(s[x])
    decreases i
  {
    if i == 0 then -1
    else if p(s[i - 1]) then i - 1
    else LastBelow(s, i - 1, p)
  }

  /** LastBelow is the only index with its two properties. */
  lemma {:induction false} LastBelowUnique(s: string, i: nat, p: char -> bool, e: int)
    requires i <= |s| && -1 <= e < i
    requires e >= 0 ==> p(s[e])
    requires forall x | e < x < i :: !p(s[x])
    ensures LastBelow(s, i, p) == e
    decreases i
  {
    if i > 0 && e < i - 1 {
      LastBelowUnique(s, i - 1, p, e);
    }
  }

  /** The first index of the run of characters satisfying p that ends at e. */
  function RunStart(s: string, e: nat, p: char -> bool): (st: nat)
    requires e < |s| && p(s[e])
    ensures st <= e && forall x | st <= x <= e :: p(s[x])
    ensures st == 0 || !p(s[st - 1])
    decreases e
  {
    if e == 0 || !p(s[e - 1]) then e else RunStart(s, e - 1, p)
  }

  /** RunStart is the only start of a run ending at e. */
  lemma {:induction false} RunStartUnique(s: string, e: nat, p: char -> bool, t: nat)
    requires e < |s| && t <= e
    requires forall x | t <= x <= e :: p(s[x])
    requires t == 0 || !p(s[t - 1])
    ensures RunStart(s, e, p) == t
    decreases e
  {
    if t < e {
      RunStartUnique(s, e - 1, p, t);
    }
  }

  /**
   * The loop that collects the last group of consecutive positions scans ps down from
   * index j while ps[j] is one below the first collected position; what it has collected
   * is always ps[j + 1..]. The result is where the group starts.
   */
  function GroupStart(ps: seq<nat>, j: int): (lo: nat)
    requires -1 <= j < |ps|
    ensures lo <= j + 1
    ensures j + 1 < |ps| ==> lo < |ps|
    decreases j + 1
  {
    if j < 0 then 0
    else if j + 1 == |ps| || ps[j] + 1 == ps[j + 1] then GroupStart(ps, j - 1)
    else j + 1
  }

  /** The last group of consecutive positions of ps. */
  function LastGroup(ps: seq<nat>): (g: seq<nat>)
    ensures |ps| > 0 ==> |g| > 0
  {
    ps[GroupStart(ps, |ps| - 1)..]
  }

  /** Every position of the group is one more than the one before, and the group cannot grow downwards. */
  lemma {:induction false} GroupStartSpec(ps: seq<nat>, j: int)
    requires -1 <= j < |ps|
    requires forall m | j < m < |ps| - 1 :: ps[m] + 1 == ps[m + 1]
    ensures forall m | GroupStart(ps, j) <= m < |ps| - 1 :: ps[m] + 1 == ps[m + 1]
    ensures GroupStart(ps, j) > 0 ==> ps[GroupStart(ps, j) - 1] + 1 != ps[GroupStart(ps, j)]
    decreases j + 1
  {
    if j >= 0 && (j + 1 == |ps| || ps[j] + 1 == ps[j + 1]) {
      GroupStartSpec(ps, j - 1);
    }
  }

  /** Positions that go up by one from lo keep their distance to ps[lo]. */
  lemma {:induction false} Consecutive(ps: seq<nat>, lo: nat, i: nat)
    requires lo + i < |ps|
    requires forall m | lo <= m < |ps| - 1 :: ps[m] + 1 == ps[m + 1]
    ensures ps[lo + i] == ps[lo] + i
  {
    if i > 0 {
      Consecutive(ps, lo, i - 1);
    }
  }

  /** In an increasing list every element is between the first and the last, and none falls between two neighbours. */
  lemma Between(ps: seq<nat>, i: nat)
    requires forall a, b | 0 <= a < b < |ps| :: ps[a] < ps[b]
    requires 0 < i < |ps|
    ensures forall x | x in ps :: ps[0] <= x <= ps[|ps| - 1]
    ensures forall x | x in ps :: x <= ps[i - 1] || ps[i] <= x
  {
    forall x | x in ps
      ensures ps[0] <= x <= ps[|ps| - 1] && (x <= ps[i - 1] || ps[i] <= x)
    {
      var m :| 0 <= m < |ps| && ps[m] == x;
      assert m == 0 || ps[0] < ps[m];
      assert m == |ps| - 1 || ps[m] < ps[|ps| - 1];
      assert m < i ==> m == i - 1 || ps[m] < ps[i - 1];
      assert m >= i ==> m == i || ps[i] < ps[m];
    }
  }

  /** No position is listed exactly when p holds nowhere. */
  lemma NoPosition(s: string, p: char -> bool)
    ensures |Positions(s, p)| == 0 <==> LastBelow(s, |s|, p) < 0
  {
    PositionsSpec(s, p);
    if |Positions(s, p)| == 0 {
      LastBelowUnique(s, |s|, p, -1);
    }
  }

  /** The last position where p holds is the end of the list of positions. */
  lemma LastPosition(s: string, p: char -> bool)
    requires |Positions(s, p)| > 0
    ensures LastBelow(s, |s|, p) == Positions(s, p)[|Positions(s, p)| - 1]
  {
    var ps := Positions(s, p);
    PositionsSpec(s, p);
    var n := |ps|;
    if n == 1 {
      LastBelowUnique(s, |s|, p, ps[0]);
    } else {
      Between(ps, 1);
      LastBelowUnique(s, |s|, p, ps[n - 1]);
    }
  }

  /** The character before the last group does not satisfy p. */
  lemma GroupBoundary(s: string, p: char -> bool)
    requires |Positions(s, p)| > 0
    ensures var ps := Positions(s, p);
      var st := ps[GroupStart(ps, |ps| - 1)];
      st == 0 || !p(s[st - 1])
  {
    var ps := Positions(s, p);
    var n := |ps|;
    var lo := GroupStart(ps, n - 1);
    var st := ps[lo];
    if st > 0 && p(s[st - 1]) {
      var m := PositionIndex(s, p, st - 1);
      PositionsSpec(s, p);
      JustBelow(ps, m, lo);
      assert lo > 0 && ps[lo - 1] + 1 == ps[lo];
      GroupStartSpec(ps, n - 1);
    }
  }

  /** In an increasing list, the element one below another is its left neighbour. */
  lemma JustBelow(ps: seq<nat>, m: nat, k: nat)
    requires forall a, b | 0 <= a < b < |ps| :: ps[a] < ps[b]
    requires m < |ps| && k < |ps| && ps[m] + 1 == ps[k]
    ensures m + 1 == k
  {
    if k <= m {
      assert false;
    }
    Gap(ps, m, k);
  }

  /** In an increasing list of naturals, elements b - a apart differ by at least b - a. */
  lemma {:induction false} Gap(ps: seq<nat>, a: nat, b: nat)
    requires forall i, j | 0 <= i < j < |ps| :: ps[i] < ps[j]
    requires a < b < |ps|
    ensures ps[a] + (b - a) <= ps[b]
    decreases b - a
  {
    if a + 1 < b {
      Gap(ps, a + 1, b);
    }
  }

  /** The last group of ps counts up by one from its first element to the last element of ps. */
  lemma GroupValues(ps: seq<nat>)
    requires |ps| > 0
    ensures var g := LastGroup(ps);
      g[|g| - 1] == ps[|ps| - 1] && forall i | 0 <= i < |g| :: g[i] == g[0] + i
  {
    var lo := GroupStart(ps, |ps| - 1);
    GroupStartSpec(ps, |ps| - 1);
    var g := LastGroup(ps);
    forall i | 0 <= i < |g|
      ensures g[i] == g[0] + i
    {
      Consecutive(ps, lo, i);
    }
  }

  /** The last group starts where the last run of s starts. */
  lemma GroupStartIsRunStart(s: string, p: char -> bool)
    requires |Positions(s, p)| > 0
    ensures var ps := Positions(s, p);
      var e := ps[|ps| - 1];
      p(s[e]) && RunStart(s, e, p) == LastGroup(ps)[0]
  {
    var ps := Positions(s, p);
    PositionsSpec(s, p);
    GroupValues(ps);
    var g := LastGroup(ps);
    var lo := GroupStart(ps, |ps| - 1);
    var e := ps[|ps| - 1];
    forall x | g[0] <= x <= e
      ensures p(s[x])
    {
      assert g[x - g[0]] == x;
      assert ps[lo + (x - g[0])] == x;
    }
    GroupBoundary(s, p);
    RunStartUnique(s, e, p, g[0]);
  }

  /**
   * The last group of the positions where p holds is the last run of s: it ends at the
   * last index where p holds, starts where that run starts, and holds every index between.
   */
  lemma LastGroupIsLastRun(s: string, p: char -> bool)
    ensures |Positions(s, p)| == 0 <==> LastBelow(s, |s|, p) < 0
    ensures |Positions(s, p)| > 0 ==>
      var e := LastBelow(s, |s|, p);
      var g := LastGroup(Positions(s, p));
      e >= 0 && |g| == e - RunStart(s, e, p) + 1 &&
      forall i | 0 <= i < |g| :: g[i] == RunStart(s, e, p) + i
  {
    NoPosition(s, p);
    if |Positions(s, p)| > 0 {
      LastPosition(s, p);
      GroupValues(Positions(s, p));
      GroupStartIsRunStart(s, p);
    }
  }

  /**
   * The backward search from index i - 1 down: the first index whose character is
   * found, giving up (-1) at a character that stops the search.
   */
  function ScanBack(s: string, i: nat, found: char -> bool, stops: char -> bool): (r: int)
    requires i <= |s|
    ensures -1 <= r < i
    ensures r >= 0 ==> found(s[r])
    decreases i
  {
    if i == 0 then -1
    else if found(s[i - 1]) then i - 1
    else if stops(s[i - 1]) then -1
    else ScanBack(s, i - 1, found, stops)
  }

  /** A found index is the nearest one below i, and nothing between stops the search. */
  lemma {:induction false} ScanBackNearest(s: string, i: nat, found: char -> bool, stops: char -> bool)
    requires i <= |s|
    ensures var r := ScanBack(s, i, found, stops);
      r >= 0 ==> forall j | r < j < i :: !found(s[j]) && !stops(s[j])
    decreases i
  {
    if i > 0 && !found(s[i - 1]) && !stops(s[i - 1]) {
      ScanBackNearest(s, i - 1, found, stops);
    }
  }

  /**
   * When nothing that is found also stops the search, the search fails exactly when
   * nothing above the last stop below i is found.
   */
  lemma {:induction false} ScanBackNone(s: string, i: nat, found: char -> bool, stops: char -> bool)
    requires i <= |s|
    requires forall c :: found(c) ==> !stops(c)
    ensures ScanBack(s, i, found, stops) < 0 <==> forall j | LastBelow(s, i, stops) < j < i :: !found(s[j])
    decreases i
  {
    if i > 0 && !stops(s[i - 1]) {
      if !found(s[i - 1]) {
        ScanBackNone(s, i - 1, found, stops);
      }
    }
  }
}
