/**
  The random password: one character of each class, the rest from all classes together, then
  a shuffle. `Generable` says which passwords the draws can make.
*/
module Password {
  import opened Common
  import opened Shuffle

  datatype PasswordError = TooShort | RandomFailed

  const LOWER := "abcdefghijklmnopqrstuvwxyz"
  const UPPER := "ABCDEFGHIJKLMNOPQRSTUVWXYZ"
  const DIGITS := "0123456789"
  const SPECIAL := "!@#$%^&*~?_-"

  function Charset(): seq<string> {
    [LOWER, UPPER, DIGITS, SPECIAL]
  }

  function Joined(classes: seq<string>): string {
    if classes == [] then "" else classes[0] + Joined(classes[1..])
  }

  predicate NoneEmpty(classes: seq<string>) {
    forall c :: 0 <= c < |classes| ==> classes[c] != ""
  }

  /** The characters that position i is filled from. */
  function Source(classes: seq<string>, i: nat): string {
    if i < |classes| then classes[i] else Joined(classes)
  }

  /** Draws for the fill: one index into its source for each position. */
  predicate Picks(classes: seq<string>, picks: seq<nat>) {
    forall i :: 0 <= i < |picks| ==> picks[i] < |Source(classes, i)|
  }

  /** The buffer before the shuffle. */
  function Filled(classes: seq<string>, picks: seq<nat>): (s: string)
    requires Picks(classes, picks)
    ensures |s| == |picks|
  {
    seq(|picks|, i requires 0 <= i < |picks| => Source(classes, i)[picks[i]])
  }

  /** The fill and shuffle draws make this password. */
  predicate Makes(classes: seq<string>, picks: seq<nat>, swaps: seq<nat>, p: string) {
    Picks(classes, picks) && Draws(|picks|, swaps) && p == Shuffled(Filled(classes, picks), swaps)
  }

  /** The t-th raw draw, which fails if there is none. */
  function RawAt(raw: seq<Option<nat>>, t: nat): Option<nat> {
    if t < |raw| then raw[t] else None
  }

  /** None of the raw draws in this range fails. */
  predicate Drawn(raw: seq<Option<nat>>, from: nat, to: nat) {
    forall t :: from <= t < to ==> RawAt(raw, t).Some?
  }

  /**
    The random source: a sequence of raw draws, any of which may fail, and how many are used.
    A draw below `max` is the next raw one modulo `max`; past the last raw draw it fails.
  */
  class RandomSource {
    const raw: seq<Option<nat>>
    var used: nat

    constructor (raw: seq<Option<nat>>)
      ensures this.raw == raw && used == 0
    {
      this.raw, used := raw, 0;
    }

    method Int(max: nat) returns (r: Option<nat>)
      requires max > 0
      modifies this`used
      ensures used == old(used) + 1
      ensures r.Some? <==> RawAt(raw, old(used)).Some?
      ensures r.Some? ==> r.value == RawAt(raw, old(used)).value % max
    {
      var next := RawAt(raw, used);
      r := if next.Some? then Some(next.value % max) else None;
      used := used + 1;
    }
  }

  lemma {:induction false} JoinedNonEmpty(classes: seq<string>)
    requires NoneEmpty(classes) && classes != []
    ensures Joined(classes) != ""
  {
  }

  lemma FilledAppend(classes: seq<string>, picks: seq<nat>, pick: nat)
    requires Picks(classes, picks) && pick < |Source(classes, |picks|)|
    ensures Picks(classes, picks + [pick])
    ensures Filled(classes, picks + [pick]) == Filled(classes, picks) + [Source(classes, |picks|)[pick]]
  {
  }

  /** The fill's picks are the raw draws from here on, each modulo the size of its position's source. */
  predicate PicksFrom(classes: seq<string>, raw: seq<Option<nat>>, from: nat, picks: seq<nat>) {
    && Drawn(raw, from, from + |picks|)
    && forall i :: 0 <= i < |picks| ==> Source(classes, i) != "" && picks[i] == RawAt(raw, from + i).value % |Source(classes, i)|
  }

  /** The shuffle's draws are the raw draws from here on; the t-th is below n - t, for n positions. */
  predicate SwapsFrom(n: nat, raw: seq<Option<nat>>, from: nat, swaps: seq<nat>) {
    && Drawn(raw, from, from + |swaps|)
    && (swaps != [] ==> |swaps| < n)
    && forall t :: 0 <= t < |swaps| ==> swaps[t] == RawAt(raw, from + t).value % (n - t)
  }

  /** Draws the character of position i from its source. */
  method FillAt(
    bytes: array<char>, i: nat, source: string, random: RandomSource,
    ghost classes: seq<string>, ghost from: nat, ghost picks: seq<nat>)
    returns (ok: bool, ghost newPicks: seq<nat>)
    requires i == |picks| < bytes.Length && source == Source(classes, i) != ""
    requires Picks(classes, picks) && bytes[..i] == Filled(classes, picks)
    requires PicksFrom(classes, random.raw, from, picks) && random.used == from + i
    modifies bytes, random
    ensures random.used == from + i + 1 && (ok <==> RawAt(random.raw, from + i).Some?)
    ensures ok ==> |newPicks| == i + 1 && Picks(classes, newPicks) && bytes[..i + 1] == Filled(classes, newPicks)
    ensures ok ==> PicksFrom(classes, random.raw, from, newPicks)
  {
    var charIndex := random.Int(|source|);
    if charIndex.None? {
      return false, picks;
    }
    bytes[i] := source[charIndex.value];
    FilledAppend(classes, picks, charIndex.value);
    return true, picks + [charIndex.value];
  }

  /** Draws a partner for position i and swaps; the t-th swap is for the position t before the last. */
  method SwapDrawn(
    bytes: array<char>, i: nat, random: RandomSource, ghost from: nat, ghost start: string, ghost swaps: seq<nat>)
    returns (ok: bool, ghost newSwaps: seq<nat>)
    requires 0 < i == bytes.Length - 1 - |swaps| && |start| == bytes.Length
    requires DrawsSoFar(bytes.Length, swaps) && bytes[..] == After(start, swaps, |swaps|)
    requires SwapsFrom(bytes.Length, random.raw, from, swaps) && random.used == from + |swaps|
    modifies bytes, random
    ensures random.used == from + |swaps| + 1 && (ok <==> RawAt(random.raw, from + |swaps|).Some?)
    ensures ok ==> |newSwaps| == |swaps| + 1 && SwapsFrom(bytes.Length, random.raw, from, newSwaps)
    ensures ok ==> DrawsSoFar(bytes.Length, newSwaps) && bytes[..] == After(start, newSwaps, |newSwaps|)
  {
    var j := random.Int(i + 1);
    if j.None? {
      return false, swaps;
    }
    hide After;
    ghost var before := bytes[..];
    bytes[i], bytes[j.value] := bytes[j.value], bytes[i];
    assert bytes[..] == Swapped(before, i, j.value);
    newSwaps := swaps + [j.value];
    AfterDrawn(start, swaps, j.value);
    ok := true;
  }

  /** The password that the raw draws from here on make. */
  ghost predicate MadeFrom(classes: seq<string>, length: nat, raw: seq<Option<nat>>, from: nat, p: string) {
    exists picks, swaps ::
      |picks| == length && PicksFrom(classes, raw, from, picks) && SwapsFrom(length, raw, from + length, swaps) &&
      Makes(classes, picks, swaps, p)
  }

  /** One character of each class, then the rest from all classes together. */
  method FillBytes(bytes: array<char>, classes: seq<string>, random: RandomSource) returns (ok: bool, ghost picks: seq<nat>)
    requires classes != [] && NoneEmpty(classes) && |classes| <= bytes.Length
    modifies bytes, random
    ensures ok <==> Drawn(random.raw, old(random.used), old(random.used) + bytes.Length)
    ensures ok ==> random.used == old(random.used) + bytes.Length
    ensures ok ==> |picks| == bytes.Length && Picks(classes, picks) && bytes[..] == Filled(classes, picks)
    ensures ok ==> PicksFrom(classes, random.raw, old(random.used), picks)
  {
    ghost var from := random.used;
    picks := [];
    for i := 0 to |classes|
      invariant |picks| == i && Picks(classes, picks) && bytes[..i] == Filled(classes, picks)
      invariant PicksFrom(classes, random.raw, from, picks) && random.used == from + i
    {
      ok, picks := FillAt(bytes, i, classes[i], random, classes, from, picks);
      if !ok {
        return;
      }
    }
    var fullCharset := Joined(classes);
    JoinedNonEmpty(classes);
    for i := |classes| to bytes.Length
      invariant |picks| == i && Picks(classes, picks) && bytes[..i] == Filled(classes, picks)
      invariant PicksFrom(classes, random.raw, from, picks) && random.used == from + i
    {
      ok, picks := FillAt(bytes, i, fullCharset, random, classes, from, picks);
      if !ok {
        return;
      }
    }
    assert bytes[..] == bytes[..bytes.Length];
    ok := true;
  }

  /** Swaps each position, from the last down to the second, with a drawn one at or before it. */
  method ShuffleBytes(bytes: array<char>, random: RandomSource) returns (ok: bool, ghost swaps: seq<nat>)
    requires bytes.Length > 0
    modifies bytes, random
    ensures ok <==> Drawn(random.raw, old(random.used), old(random.used) + (bytes.Length - 1))
    ensures ok ==> Draws(bytes.Length, swaps) && bytes[..] == Shuffled(old(bytes[..]), swaps)
    ensures ok ==> SwapsFrom(bytes.Length, random.raw, old(random.used), swaps)
  {
    ghost var from, start := random.used, bytes[..];
    swaps := [];
    var i := bytes.Length - 1;
    while i > 0
      invariant 0 <= i == bytes.Length - 1 - |swaps|
      invariant DrawsSoFar(bytes.Length, swaps) && bytes[..] == After(start, swaps, |swaps|)
      invariant SwapsFrom(bytes.Length, random.raw, from, swaps) && random.used == from + |swaps|
    {
      ok, swaps := SwapDrawn(bytes, i, random, from, start, swaps);
      if !ok {
        return;
      }
      i := i - 1;
    }
    AfterAll(start, swaps);
    ok := true;
  }

  /**
    Fails for a length below the number of classes, or when a draw fails; otherwise returns
    the password that the raw draws make.
  */
  method GenerateRandomPassword(classes: seq<string>, length: int, random: RandomSource)
    returns (r: Result<string, PasswordError>)
    requires classes != [] && NoneEmpty(classes)
    modifies random
    ensures length < |classes| <==> r == Failure(TooShort)
    ensures length >= |classes| ==>
              (r.Success? <==> Drawn(random.raw, old(random.used), old(random.used) + length + (length - 1)))
    ensures r.Success? ==> MadeFrom(classes, length, random.raw, old(random.used), r.value)
  {
    if length < |classes| {
      return Failure(TooShort);
    }
    var bytes := new char[length];
    var filled, picks := FillBytes(bytes, classes, random);
    if !filled {
      return Failure(RandomFailed);
    }
    var shuffled, swaps := ShuffleBytes(bytes, random);
    if !shuffled {
      return Failure(RandomFailed);
    }
    assert Makes(classes, picks, swaps, bytes[..]);
    return Success(bytes[..]);
  }

  // ----- Which passwords can come out -----

  /** Different positions hold a character of each class. */
  ghost predicate CoversAt(classes: seq<string>, p: string, at: seq<int>) {
    && |at| == |classes| && Within(at, |p|) && Distinct(at)
    && forall c :: 0 <= c < |classes| ==> p[at[c]] in classes[c]
  }

  predicate OverCharset(classes: seq<string>, p: string) {
    forall i :: 0 <= i < |p| ==> p[i] in Joined(classes)
  }

  lemma {:induction false} ClassInJoined(classes: seq<string>, c: nat, x: char)
    requires c < |classes| && x in classes[c]
    ensures x in Joined(classes)
  {
    if c > 0 {
      ClassInJoined(classes[1..], c - 1, x);
    }
  }

  /** The filled buffer covers the classes at the first positions and stays in the charset. */
  lemma FilledCovers(classes: seq<string>, picks: seq<nat>)
    requires Picks(classes, picks) && |classes| <= |picks|
    ensures CoversAt(classes, Filled(classes, picks), Positions(|classes|))
    ensures OverCharset(classes, Filled(classes, picks))
  {
    var s := Filled(classes, picks);
    forall i | 0 <= i < |s|
      ensures s[i] in Joined(classes)
    {
      if i < |classes| {
        ClassInJoined(classes, i, s[i]);
      }
    }
  }

  /** Where a permutation sends each position. */
  lemma PermutationHits(p: seq<int>, n: nat, c: nat) returns (i: nat)
    requires Permutation(p, n) && c < n
    ensures |p| == n && i < n && p[i] == c
  {
    assert |p| == |multiset(p)| == |multiset(Positions(n))| == n;
    assert Positions(n)[c] == c;
    i := SameMultisetHas(p, Positions(n), c);
  }

  /** The preimages of the first m positions under a permutation, all different. */
  lemma {:induction false} Preimages(p: seq<int>, n: nat, m: nat) returns (at: seq<int>)
    requires Permutation(p, n) && m <= n
    ensures |p| == n && |at| == m && Within(at, n) && Distinct(at)
    ensures forall c :: 0 <= c < m ==> p[at[c]] == c
  {
    if m == 0 {
      assert |p| == |multiset(p)| == |multiset(Positions(n))| == n;
      at := [];
    } else {
      var front := Preimages(p, n, m - 1);
      var i := PermutationHits(p, n, m - 1);
      at := front + [i];
    }
  }

  /** What comes out covers every class, stays in the charset, and has the length asked for. */
  lemma MadeIsCovered(classes: seq<string>, picks: seq<nat>, swaps: seq<nat>, p: string) returns (at: seq<int>)
    requires |classes| <= |picks| && Makes(classes, picks, swaps, p)
    ensures |p| == |picks| && OverCharset(classes, p) && CoversAt(classes, p, at)
    ensures multiset(p) == multiset(Filled(classes, picks))
  {
    var s := Filled(classes, picks);
    FilledCovers(classes, picks);
    ShuffledRearranges(s, swaps);
    ShuffleIsPositional(s, swaps);
    var perm := Shuffled(Positions(|s|), swaps);
    at := Preimages(perm, |s|, |classes|);
    assert forall c :: 0 <= c < |classes| ==> p[at[c]] == s[c];
  }

  /** Different positions, none before c. */
  ghost predicate Chosen(at: seq<int>, c: nat, n: nat) {
    Distinct(at) && forall d :: 0 <= d < |at| ==> c <= at[d] < n
  }

  /** Where the later choices are after the first has been swapped to position c. */
  function Moved(at: seq<int>, c: nat): (r: seq<int>)
    requires at != []
    ensures |r| == |at| - 1 && forall d :: 0 <= d < |r| ==> r[d] == if at[d + 1] == c then at[0] else at[d + 1]
  {
    seq(|at| - 1, d requires 0 <= d < |at| - 1 => if at[d + 1] == c then at[0] else at[d + 1])
  }

  lemma MovedChosen(p: string, at: seq<int>, c: nat)
    requires at != [] && Chosen(at, c, |p|)
    ensures Chosen(Moved(at, c), c + 1, |p|)
    ensures forall d :: 0 <= d < |at| - 1 ==> Swapped(p, c, at[0])[Moved(at, c)[d]] == p[at[d + 1]]
  {
  }

  /** The chosen characters stand from c on, and those before are untouched. */
  ghost predicate Gathered(g: string, p: string, at: seq<int>, c: nat) {
    && multiset(g) == multiset(p) && |g| == |p|
    && (at != [] ==> c + |at| <= |p|)
    && (forall d :: 0 <= d < c && d < |p| ==> g[d] == p[d])
    && forall d :: c <= d < c + |at| && d < |p| && 0 <= at[d - c] < |p| ==> g[d] == p[at[d - c]]
  }

  lemma GatherStep(g: string, p: string, at: seq<int>, c: nat)
    requires at != [] && Chosen(at, c, |p|) && Gathered(g, Swapped(p, c, at[0]), Moved(at, c), c + 1)
    ensures Gathered(g, p, at, c)
  {
    SwappedMultiset(p, c, at[0]);
    MovedChosen(p, at, c);
    forall d | c < d < c + |at| && d < |p|
      ensures g[d] == p[at[d - c]]
    {
      assert g[d] == Swapped(p, c, at[0])[Moved(at, c)[d - (c + 1)]];
    }
  }

  /** Brings the chosen characters to the positions from c on, by swaps. */
  lemma {:induction false} Gather(p: string, at: seq<int>, c: nat) returns (g: string)
    requires Chosen(at, c, |p|)
    ensures Gathered(g, p, at, c)
    decreases |at|
  {
    if at == [] {
      g := p;
    } else {
      MovedChosen(p, at, c);
      g := Gather(Swapped(p, c, at[0]), Moved(at, c), c + 1);
      GatherStep(g, p, at, c);
    }
  }

  lemma IndexOf(s: string, x: char) returns (i: nat)
    requires x in s
    ensures i < |s| && s[i] == x
  {
    i :| i < |s| && s[i] == x;
  }

  /** A buffer that has each position's character from its source is filled by some picks. */
  lemma {:induction false} FillDrawn(classes: seq<string>, g: string, n: nat) returns (picks: seq<nat>)
    requires n <= |g| && forall i :: 0 <= i < |g| ==> g[i] in Source(classes, i)
    ensures |picks| == n && Picks(classes, picks) && Filled(classes, picks) == g[..n]
  {
    if n == 0 {
      picks := [];
    } else {
      var front := FillDrawn(classes, g, n - 1);
      var pick := IndexOf(Source(classes, n - 1), g[n - 1]);
      FilledAppend(classes, front, pick);
      picks := front + [pick];
      assert g[..n] == g[..n - 1] + [g[n - 1]];
    }
  }

  /** Every covered text over the charset comes out for some draws. */
  lemma CoveredIsMade(classes: seq<string>, p: string, at: seq<int>) returns (picks: seq<nat>, swaps: seq<nat>)
    requires OverCharset(classes, p) && CoversAt(classes, p, at)
    ensures |picks| == |p| && Makes(classes, picks, swaps, p)
  {
    var g := Gather(p, at, 0);
    forall i | 0 <= i < |g|
      ensures g[i] in Source(classes, i)
    {
      if i < |classes| {
        assert g[i] == p[at[i]];
      } else {
        assert g[i] in multiset(p);
        assert g[i] in p;
      }
    }
    picks := FillDrawn(classes, g, |g|);
    assert g[..|g|] == g;
    swaps := EveryRearrangementDrawn(g, p);
  }

  /**
    For every set of classes and every length, the passwords that some draws make are exactly
    the texts of that length over the joined charset that cover every class at different
    positions.
  */
  lemma PasswordIff(classes: seq<string>, n: nat, p: string)
    requires |classes| <= n
    ensures (exists picks, swaps :: |picks| == n && Makes(classes, picks, swaps, p)) <==>
            |p| == n && OverCharset(classes, p) && exists at :: CoversAt(classes, p, at)
  {
    if picks, swaps :| |picks| == n && Makes(classes, picks, swaps, p) {
      var at := MadeIsCovered(classes, picks, swaps, p);
    }
    if at :| |p| == n && OverCharset(classes, p) && CoversAt(classes, p, at) {
      var picks, swaps := CoveredIsMade(classes, p, at);
    }
  }

  predicate Disjoint(classes: seq<string>) {
    forall c, d, x :: 0 <= c < d < |classes| && x in classes[c] ==> x !in classes[d]
  }

  predicate HasEach(classes: seq<string>, p: string) {
    forall c :: 0 <= c < |classes| ==> exists i :: 0 <= i < |p| && p[i] in classes[c]
  }

  /** Disjoint classes are covered as soon as each occurs. */
  lemma {:induction false} DisjointCovers(classes: seq<string>, p: string, m: nat) returns (at: seq<int>)
    requires Disjoint(classes) && HasEach(classes, p) && m <= |classes|
    ensures |at| == m && Within(at, |p|) && Distinct(at)
    ensures forall c :: 0 <= c < m ==> p[at[c]] in classes[c]
  {
    if m == 0 {
      at := [];
    } else {
      var front := DisjointCovers(classes, p, m - 1);
      var i :| 0 <= i < |p| && p[i] in classes[m - 1];
      at := front + [i];
      forall c | 0 <= c < m - 1
        ensures at[c] != i
      {
        assert p[front[c]] in classes[c];
      }
    }
  }

  lemma LowerAt(i: nat)
    requires i < 26
    ensures |LOWER| == 26 && LOWER[i] as int == 'a' as int + i
  {
  }

  lemma UpperAt(i: nat)
    requires i < 26
    ensures |UPPER| == 26 && UPPER[i] as int == 'A' as int + i
  {
  }

  lemma DigitAt(i: nat)
    requires i < 10
    ensures |DIGITS| == 10 && DIGITS[i] as int == '0' as int + i
  {
  }

  lemma LowerIs(x: char)
    ensures x in LOWER <==> 'a' <= x <= 'z'
  {
    if 'a' <= x <= 'z' {
      LowerAt(x as int - 'a' as int);
    }
    if i :| 0 <= i < |LOWER| && LOWER[i] == x {
      LowerAt(i);
    }
  }

  lemma UpperIs(x: char)
    ensures x in UPPER <==> 'A' <= x <= 'Z'
  {
    if 'A' <= x <= 'Z' {
      UpperAt(x as int - 'A' as int);
    }
    if i :| 0 <= i < |UPPER| && UPPER[i] == x {
      UpperAt(i);
    }
  }

  lemma DigitIs(x: char)
    ensures x in DIGITS <==> '0' <= x <= '9'
  {
    if '0' <= x <= '9' {
      DigitAt(x as int - '0' as int);
    }
    if i :| 0 <= i < |DIGITS| && DIGITS[i] == x {
      DigitAt(i);
    }
  }

  lemma SpecialApart(x: char)
    ensures x in SPECIAL ==> !('a' <= x <= 'z') && !('A' <= x <= 'Z') && !('0' <= x <= '9')
  {
  }

  lemma CharsetClasses(x: char)
    ensures x in LOWER <==> 'a' <= x <= 'z'
    ensures x in UPPER <==> 'A' <= x <= 'Z'
    ensures x in DIGITS <==> '0' <= x <= '9'
    ensures x in SPECIAL ==> !('a' <= x <= 'z') && !('A' <= x <= 'Z') && !('0' <= x <= '9')
  {
    LowerIs(x);
    UpperIs(x);
    DigitIs(x);
    SpecialApart(x);
  }

  // ----- Which passwords the raw draws give -----

  /** Some raw draws, none of which fails, give the password. */
  ghost predicate Returned(classes: seq<string>, length: nat, p: string) {
    exists raw :: DrawnFor(length, raw) && MadeFrom(classes, length, raw, 0, p)
  }

  predicate DrawnFor(length: nat, raw: seq<Option<nat>>) {
    length > 0 && Drawn(raw, 0, length + (length - 1))
  }

  lemma SmallMod(a: nat, b: nat)
    requires a < b
    ensures a % b == a
  {
  }

  /** Raw draws that are these, one after the other. */
  function RawOf(picks: seq<nat>, swaps: seq<nat>): seq<Option<nat>> {
    seq(|picks| + |swaps|, i requires 0 <= i < |picks| + |swaps| => Some(if i < |picks| then picks[i] else swaps[i - |picks|]))
  }

  lemma PicksAreDrawn(classes: seq<string>, picks: seq<nat>, swaps: seq<nat>)
    requires Picks(classes, picks)
    ensures PicksFrom(classes, RawOf(picks, swaps), 0, picks)
  {
    forall i | 0 <= i < |picks|
      ensures picks[i] == picks[i] % |Source(classes, i)|
    {
      SmallMod(picks[i], |Source(classes, i)|);
    }
  }

  lemma SwapsAreDrawn(n: nat, picks: seq<nat>, swaps: seq<nat>)
    requires Draws(n, swaps) && n > 0
    ensures SwapsFrom(n, RawOf(picks, swaps), |picks|, swaps)
  {
    forall t | 0 <= t < |swaps|
      ensures swaps[t] == swaps[t] % (n - t)
    {
      SmallMod(swaps[t], n - t);
    }
  }

  /** Draws within their bounds are the raw draws that they are drawn from. */
  lemma MadeIsReturned(classes: seq<string>, picks: seq<nat>, swaps: seq<nat>, p: string)
    requires picks != [] && Makes(classes, picks, swaps, p)
    ensures Returned(classes, |picks|, p)
  {
    var n, raw := |picks|, RawOf(picks, swaps);
    PicksAreDrawn(classes, picks, swaps);
    SwapsAreDrawn(n, picks, swaps);
    hide PicksFrom, SwapsFrom, Makes;
    assert MadeFrom(classes, n, raw, 0, p);
    assert DrawnFor(n, raw);
  }

  /** The raw draws give exactly the covered texts over the charset, whatever the classes and the length. */
  lemma ReturnedIff(classes: seq<string>, n: nat, p: string)
    requires 0 < |classes| <= n
    ensures Returned(classes, n, p) <==> |p| == n && OverCharset(classes, p) && exists at :: CoversAt(classes, p, at)
  {
    PasswordIff(classes, n, p);
    if Returned(classes, n, p) {
      var raw :| DrawnFor(n, raw) && MadeFrom(classes, n, raw, 0, p);
      var picks, swaps :| |picks| == n && PicksFrom(classes, raw, 0, picks) && SwapsFrom(n, raw, n, swaps) &&
                          Makes(classes, picks, swaps, p);
    }
    if picks, swaps :| |picks| == n && Makes(classes, picks, swaps, p) {
      MadeIsReturned(classes, picks, swaps, p);
    }
  }

  predicate IsSpecial(c: char) {
    c in "!@#$%^&*~?_-"
  }

  /**
    The password command's own classes: of a length of at least 4, exactly the texts of
    letters, digits and special characters come out that have a lower-case letter, an
    upper-case letter, a digit and a special character.
  */
  lemma DefaultPasswordIff(n: nat, p: string)
    requires 4 <= n
    ensures Returned(Charset(), n, p) <==>
            && |p| == n
            && (forall i :: 0 <= i < n ==>
                  'a' <= p[i] <= 'z' || 'A' <= p[i] <= 'Z' || '0' <= p[i] <= '9' || IsSpecial(p[i]))
            && (exists i :: 0 <= i < n && 'a' <= p[i] <= 'z')
            && (exists i :: 0 <= i < n && 'A' <= p[i] <= 'Z')
            && (exists i :: 0 <= i < n && '0' <= p[i] <= '9')
            && (exists i :: 0 <= i < n && IsSpecial(p[i]))
  {
    ReturnedIff(Charset(), n, p);
    DefaultCovered(p);
    if |p| == n {
      DefaultClasses(p);
    }
  }

  /** The default classes are disjoint, so they are covered as soon as each occurs. */
  lemma DefaultCovered(p: string)
    ensures (exists at :: CoversAt(Charset(), p, at)) <==> HasEach(Charset(), p)
  {
    var classes := Charset();
    forall c, d, x | 0 <= c < d < |classes| && x in classes[c]
      ensures x !in classes[d]
    {
      CharsetClasses(x);
    }
    if at :| CoversAt(classes, p, at) {
      assert forall c :: 0 <= c < |classes| ==> 0 <= at[c] < |p| && p[at[c]] in classes[c];
    }
    if HasEach(classes, p) {
      var at := DisjointCovers(classes, p, |classes|);
      assert CoversAt(classes, p, at);
    }
  }

  lemma JoinedDefault(x: char)
    ensures x in Joined(Charset()) <==> x in LOWER || x in UPPER || x in DIGITS || x in SPECIAL
  {
    var classes := Charset();
    assert classes[1..] == [UPPER, DIGITS, SPECIAL] && classes[1..][1..] == [DIGITS, SPECIAL];
    assert classes[1..][1..][1..] == [SPECIAL] && classes[1..][1..][1..][1..] == [];
    assert Joined([SPECIAL]) == SPECIAL + Joined([SPECIAL][1..]);
    assert Joined([DIGITS, SPECIAL]) == DIGITS + Joined([DIGITS, SPECIAL][1..]);
    assert Joined([UPPER, DIGITS, SPECIAL]) == UPPER + Joined([UPPER, DIGITS, SPECIAL][1..]);
    assert Joined(classes) == LOWER + Joined(classes[1..]);
  }

  predicate HasOf(s: string, p: string) {
    exists i :: 0 <= i < |p| && p[i] in s
  }

  /** The default classes are the letters, digits and special characters. */
  lemma DefaultClass(x: char)
    ensures x in LOWER <==> 'a' <= x <= 'z'
    ensures x in UPPER <==> 'A' <= x <= 'Z'
    ensures x in DIGITS <==> '0' <= x <= '9'
    ensures x in SPECIAL <==> IsSpecial(x)
    ensures x in Joined(Charset()) <==> 'a' <= x <= 'z' || 'A' <= x <= 'Z' || '0' <= x <= '9' || IsSpecial(x)
  {
    CharsetClasses(x);
    JoinedDefault(x);
  }

  lemma HasEachDefault(p: string)
    ensures HasEach(Charset(), p) <==> HasOf(LOWER, p) && HasOf(UPPER, p) && HasOf(DIGITS, p) && HasOf(SPECIAL, p)
  {
    hide LOWER, UPPER, DIGITS, SPECIAL;
    var classes := Charset();
    assert classes[0] == LOWER && classes[1] == UPPER && classes[2] == DIGITS && classes[3] == SPECIAL;
  }

  lemma DefaultClasses(p: string)
    ensures OverCharset(Charset(), p) <==>
            forall i :: 0 <= i < |p| ==>
              'a' <= p[i] <= 'z' || 'A' <= p[i] <= 'Z' || '0' <= p[i] <= '9' || IsSpecial(p[i])
    ensures HasEach(Charset(), p) <==>
            && (exists i :: 0 <= i < |p| && 'a' <= p[i] <= 'z')
            && (exists i :: 0 <= i < |p| && 'A' <= p[i] <= 'Z')
            && (exists i :: 0 <= i < |p| && '0' <= p[i] <= '9')
            && (exists i :: 0 <= i < |p| && IsSpecial(p[i]))
  {
    hide LOWER, UPPER, DIGITS, SPECIAL, Joined, Charset, IsSpecial, HasEach;
    forall i | 0 <= i < |p|
      ensures p[i] in LOWER <==> 'a' <= p[i] <= 'z'
      ensures p[i] in UPPER <==> 'A' <= p[i] <= 'Z'
      ensures p[i] in DIGITS <==> '0' <= p[i] <= '9'
      ensures p[i] in SPECIAL <==> IsSpecial(p[i])
      ensures p[i] in Joined(Charset()) <==>
              'a' <= p[i] <= 'z' || 'A' <= p[i] <= 'Z' || '0' <= p[i] <= '9' || IsSpecial(p[i])
    {
      DefaultClass(p[i]);
    }
    HasEachDefault(p);
  }
}
