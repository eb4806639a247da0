/**
  The in-place shuffle: for i from the last position down to 1, swap it with a drawn j <= i.
  The draws are in bijection with the rearrangements.
*/
module Shuffle {
  function Swapped<T>(s: seq<T>, i: nat, j: nat): seq<T>
    requires i < |s| && j < |s|
  {
    s[i := s[j]][j := s[i]]
  }

  /** The draws of a shuffle of n elements: the t-th is for position n - 1 - t, and at most that. */
  predicate Draws(n: nat, js: seq<nat>) {
    && |js| == (if n == 0 then 0 else n - 1)
    && forall t :: 0 <= t < |js| ==> js[t] <= n - 1 - t
  }

  function Shuffled<T>(s: seq<T>, js: seq<nat>): (r: seq<T>)
    requires Draws(|s|, js)
    ensures |r| == |s|
    decreases |s|
  {
    if |s| <= 1 then s
    else
      var n := |s| - 1;
      var b := Swapped(s, n, js[0]);
      Shuffled(b[..n], js[1..]) + [b[n]]
  }

  /** The final order, when positions up to i are still to be shuffled. */
  function Pending<T>(s: seq<T>, i: nat, js: seq<nat>): seq<T>
    requires i < |s| && Draws(|s|, js)
  {
    Shuffled(s[..i + 1], js[|s| - 1 - i..]) + s[i + 1..]
  }

  lemma SwapKeepsPending<T>(s: seq<T>, i: nat, js: seq<nat>)
    requires 0 < i < |s| && Draws(|s|, js)
    ensures Pending(Swapped(s, i, js[|s| - 1 - i]), i - 1, js) == Pending(s, i, js)
  {
    var front, rest := s[..i + 1], js[|s| - 1 - i..];
    var after := Swapped(s, i, rest[0]);
    var b := Swapped(front, i, rest[0]);
    assert rest[1..] == js[|s| - 1 - (i - 1)..];
    assert after[..i] == b[..i] && after[i..] == [b[i]] + s[i + 1..];
    assert Shuffled(front, rest) == Shuffled(b[..i], rest[1..]) + [b[i]];
  }

  lemma PendingEnds<T>(s: seq<T>, js: seq<nat>)
    requires s != [] && Draws(|s|, js)
    ensures Pending(s, |s| - 1, js) == Shuffled(s, js) && Pending(s, 0, js) == s
  {
    assert s[..|s|] == s && s[|s|..] == [] && js[0..] == js;
    assert s[..1] + s[1..] == s;
  }

  /** The draws made so far. */
  predicate DrawsSoFar(n: nat, js: seq<nat>) {
    && (js != [] ==> |js| < n)
    && forall t :: 0 <= t < |js| ==> js[t] <= n - 1 - t
  }

  /** The order after the first t swaps. */
  function After<T>(s: seq<T>, js: seq<nat>, t: nat): (r: seq<T>)
    requires DrawsSoFar(|s|, js) && t <= |js|
    ensures |r| == |s|
  {
    if t == 0 then s else Swapped(After(s, js, t - 1), |s| - t, js[t - 1])
  }

  lemma {:induction false} AfterAppend<T>(s: seq<T>, js: seq<nat>, j: nat, t: nat)
    requires DrawsSoFar(|s|, js) && DrawsSoFar(|s|, js + [j]) && t <= |js|
    ensures After(s, js + [j], t) == After(s, js, t)
  {
    if t > 0 {
      AfterAppend(s, js, j, t - 1);
    }
  }

  /** One more draw swaps the next position with the drawn one. */
  lemma AfterDrawn<T>(s: seq<T>, js: seq<nat>, j: nat)
    requires DrawsSoFar(|s|, js) && |js| + 1 < |s| && j <= |s| - 1 - |js|
    ensures DrawsSoFar(|s|, js + [j])
    ensures After(s, js + [j], |js| + 1) == Swapped(After(s, js, |js|), |s| - 1 - |js|, j)
  {
    AfterAppend(s, js, j, |js|);
  }

  /** A swap exchanges two positions and moves nothing else. */
  lemma SwappedIs<T>(s: seq<T>, i: nat, j: nat, x: nat)
    requires i < |s| && j < |s| && x < |s|
    ensures Swapped(s, i, j)[x] == if x == i then s[j] else if x == j then s[i] else s[x]
  {
  }

  lemma AfterNext<T>(s: seq<T>, js: seq<nat>, t: nat)
    requires s != [] && Draws(|s|, js) && t < |js|
    ensures Pending(After(s, js, t + 1), |s| - 2 - t, js) == Pending(After(s, js, t), |s| - 1 - t, js)
  {
    hide Pending, Shuffled, Swapped;
    SwapKeepsPending(After(s, js, t), |s| - 1 - t, js);
  }

  lemma {:induction false} AfterPending<T>(s: seq<T>, js: seq<nat>, t: nat)
    requires s != [] && Draws(|s|, js) && t <= |js|
    ensures Pending(After(s, js, t), |s| - 1 - t, js) == Shuffled(s, js)
  {
    hide Pending, Shuffled;
    if t == 0 {
      PendingEnds(s, js);
    } else {
      AfterPending(s, js, t - 1);
      AfterNext(s, js, t - 1);
    }
  }

  /** All the swaps, one after the other, are the shuffle. */
  lemma AfterAll<T>(s: seq<T>, js: seq<nat>)
    requires Draws(|s|, js)
    ensures After(s, js, |js|) == Shuffled(s, js)
  {
    if s != [] {
      AfterPending(s, js, |js|);
      PendingEnds(After(s, js, |js|), js);
    }
  }

  lemma SwappedMultiset<T>(s: seq<T>, i: nat, j: nat)
    requires i < |s| && j < |s|
    ensures multiset(Swapped(s, i, j)) == multiset(s)
  {
  }

  lemma SplitLast<T>(s: seq<T>)
    requires s != []
    ensures multiset(s) == multiset(s[..|s| - 1]) + multiset{s[|s| - 1]}
  {
    assert s == s[..|s| - 1] + [s[|s| - 1]];
  }

  /** A shuffle rearranges: it keeps every element as often as it was. */
  lemma {:induction false} ShuffledRearranges<T>(s: seq<T>, js: seq<nat>)
    requires Draws(|s|, js)
    ensures multiset(Shuffled(s, js)) == multiset(s)
    decreases |s|
  {
    if |s| > 1 {
      var n := |s| - 1;
      var b := Swapped(s, n, js[0]);
      ShuffledRearranges(b[..n], js[1..]);
      SwappedMultiset(s, n, js[0]);
      SplitLast(b);
    }
  }

  lemma SameMultisetHas<T>(s: seq<T>, p: seq<T>, x: T) returns (j: nat)
    requires multiset(s) == multiset(p) && x in p
    ensures j < |s| && s[j] == x
  {
    assert x in multiset(p);
    assert x in s;
    j :| j < |s| && s[j] == x;
  }

  lemma SameFront<T>(b: seq<T>, p: seq<T>)
    requires b != [] && p != [] && multiset(b) == multiset(p) && b[|b| - 1] == p[|p| - 1]
    ensures multiset(b[..|b| - 1]) == multiset(p[..|p| - 1])
  {
    var last := multiset{p[|p| - 1]};
    SplitLast(b);
    SplitLast(p);
    assert multiset(b[..|b| - 1]) == multiset(b[..|b| - 1]) + last - last == multiset(p[..|p| - 1]) + last - last;
  }

  /** The first draw that puts the wanted element last, and what is then left to rearrange. */
  lemma DrawLast<T>(s: seq<T>, p: seq<T>) returns (j: nat)
    requires multiset(s) == multiset(p) && s != [] && |p| == |s|
    ensures j < |s| && s[j] == p[|s| - 1]
    ensures multiset(Swapped(s, |s| - 1, j)[..|s| - 1]) == multiset(p[..|s| - 1])
  {
    var n := |s| - 1;
    j := SameMultisetHas(s, p, p[n]);
    SwappedMultiset(s, n, j);
    SameFront(Swapped(s, n, j), p);
  }

  lemma ShuffledCons<T>(s: seq<T>, p: seq<T>, j: nat, rest: seq<nat>)
    requires |s| > 1 && |p| == |s| && j < |s| && s[j] == p[|s| - 1]
    requires Draws(|s| - 1, rest) && Shuffled(Swapped(s, |s| - 1, j)[..|s| - 1], rest) == p[..|s| - 1]
    ensures Draws(|s|, [j] + rest) && Shuffled(s, [j] + rest) == p
  {
    var js := [j] + rest;
    assert js[1..] == rest;
    assert p == p[..|s| - 1] + [p[|s| - 1]];
  }

  /** Every rearrangement is reached by some draws. */
  lemma {:induction false} EveryRearrangementDrawn<T>(s: seq<T>, p: seq<T>) returns (js: seq<nat>)
    requires multiset(s) == multiset(p)
    ensures Draws(|s|, js) && Shuffled(s, js) == p
    decreases |s|
  {
    assert |s| == |multiset(s)| == |multiset(p)| == |p|;
    if |s| <= 1 {
      js := [];
      assert s != [] ==> s[0] in multiset(p);
    } else {
      var j := DrawLast(s, p);
      var rest := EveryRearrangementDrawn(Swapped(s, |s| - 1, j)[..|s| - 1], p[..|s| - 1]);
      js := [j] + rest;
      ShuffledCons(s, p, j, rest);
    }
  }

  ghost predicate Distinct<T>(s: seq<T>) {
    forall i, j :: 0 <= i < j < |s| ==> s[i] != s[j]
  }

  /** Over distinct elements, different draws give different orders. */
  lemma {:induction false} DrawsUnique<T>(s: seq<T>, js: seq<nat>, ks: seq<nat>)
    requires Distinct(s) && Draws(|s|, js) && Draws(|s|, ks)
    requires Shuffled(s, js) == Shuffled(s, ks)
    ensures js == ks
    decreases |s|
  {
    if |s| > 1 {
      var n := |s| - 1;
      var b, c := Swapped(s, n, js[0]), Swapped(s, n, ks[0]);
      assert Shuffled(s, js)[n] == s[js[0]] && Shuffled(s, ks)[n] == s[ks[0]];
      assert js[0] == ks[0];
      assert Shuffled(s, js)[..n] == Shuffled(b[..n], js[1..]) && Shuffled(s, ks)[..n] == Shuffled(c[..n], ks[1..]);
      SwappedDistinct(s, n, js[0]);
      DrawsUnique(b[..n], js[1..], ks[1..]);
      assert js == [js[0]] + js[1..] && ks == [ks[0]] + ks[1..];
    }
  }

  lemma SwappedDistinct<T>(s: seq<T>, i: nat, j: nat)
    requires i < |s| && j < |s| && Distinct(s)
    ensures Distinct(Swapped(s, i, j))
  {
  }

  function Positions(n: nat): (p: seq<int>)
    ensures |p| == n && forall i :: 0 <= i < n ==> p[i] == i
  {
    seq(n, i => i)
  }

  /** A permutation of n positions. */
  ghost predicate Permutation(p: seq<int>, n: nat) {
    multiset(p) == multiset(Positions(n))
  }

  /** The draws make this order of n positions. */
  ghost predicate Makes(js: seq<nat>, p: seq<int>, n: nat) {
    Draws(n, js) && Shuffled(Positions(n), js) == p
  }

  /** For every n, each permutation of n positions is made by exactly one draw sequence, and nothing else is. */
  lemma DrawsArePermutations(n: nat, p: seq<int>)
    ensures Permutation(p, n) <==> exists js :: Makes(js, p, n)
    ensures forall js, ks :: Makes(js, p, n) && Makes(ks, p, n) ==> js == ks
  {
    if Permutation(p, n) {
      var js := EveryRearrangementDrawn(Positions(n), p);
      assert Makes(js, p, n);
    }
    if js :| Makes(js, p, n) {
      ShuffledRearranges(Positions(n), js);
    }
    forall js, ks | Makes(js, p, n) && Makes(ks, p, n)
      ensures js == ks
    {
      DrawsUnique(Positions(n), js, ks);
    }
  }

  predicate Within(at: seq<int>, n: nat) {
    forall i :: 0 <= i < |at| ==> 0 <= at[i] < n
  }

  /** The elements found at the given positions. */
  function Picked<T>(s: seq<T>, at: seq<int>): (r: seq<T>)
    requires Within(at, |s|)
    ensures |r| == |at| && forall i :: 0 <= i < |at| ==> r[i] == s[at[i]]
  {
    seq(|at|, i requires 0 <= i < |at| => s[at[i]])
  }

  lemma PickedSwapped<T>(s: seq<T>, at: seq<int>, i: nat, j: nat)
    requires Within(at, |s|) && i < |at| && j < |at|
    ensures Within(Swapped(at, i, j), |s|)
    ensures Swapped(Picked(s, at), i, j) == Picked(s, Swapped(at, i, j))
  {
  }

  lemma PickedSplit<T>(s: seq<T>, at: seq<int>, n: nat)
    requires Within(at, |s|) && |at| == n + 1
    ensures Within(at[..n], |s|) && Picked(s, at) == Picked(s, at[..n]) + [s[at[n]]]
  {
  }

  lemma {:induction false} ShuffledPicked<T>(s: seq<T>, at: seq<int>, js: seq<nat>)
    requires Within(at, |s|) && Draws(|at|, js)
    ensures Within(Shuffled(at, js), |s|) && Shuffled(Picked(s, at), js) == Picked(s, Shuffled(at, js))
    decreases |at|
  {
    if |at| > 1 {
      var n := |at| - 1;
      var b := Swapped(at, n, js[0]);
      PickedSwapped(s, at, n, js[0]);
      PickedSplit(s, b, n);
      ShuffledPicked(s, b[..n], js[1..]);
      var all := Shuffled(at, js);
      assert all[..n] == Shuffled(b[..n], js[1..]) && all[n] == b[n];
      PickedSplit(s, all, n);
      assert Picked(s, b)[..n] == Picked(s, b[..n]);
    }
  }

  /** What a shuffle does to any elements is what it does to their positions. */
  lemma ShuffleIsPositional<T>(s: seq<T>, js: seq<nat>)
    requires Draws(|s|, js)
    ensures var p := Shuffled(Positions(|s|), js);
            Permutation(p, |s|) && Within(p, |s|) && Shuffled(s, js) == Picked(s, p)
  {
    var all := Positions(|s|);
    ShuffledRearranges(all, js);
    ShuffledPicked(s, all, js);
    assert Picked(s, all) == s;
  }
}
