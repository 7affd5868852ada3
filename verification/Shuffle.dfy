/** Descending Fisher-Yates: the specification over sequences, its one-to-one
    correspondence between draws and permutations, and the in-place sample order. */
module Shuffle {
  import opened Words
  import opened Random

  predicate Distinct<T(==)>(s: seq<T>) {
    forall i, j :: 0 <= i < j < |s| ==> s[i] != s[j]
  }

  function Swap<T>(s: seq<T>, i: nat, j: nat): (t: seq<T>)
    requires i < |s| && j < |s|
    ensures |t| == |s|
  {
    s[i := s[j]][j := s[i]]
  }

  lemma SwapKeepsElements<T>(s: seq<T>, i: nat, j: nat)
    requires i < |s| && j < |s|
    ensures multiset(Swap(s, i, j)) == multiset(s)
  {
  }

  /** Draw k comes from the bound n - k, as the descending loop consumes them. */
  predicate ValidDraws(n: nat, draws: seq<nat>) {
    if n <= 1 then
      draws == []
    else
      draws != [] && draws[0] < n && ValidDraws(n - 1, draws[1..])
  }

  function FisherYates<T>(s: seq<T>, draws: seq<nat>): (t: seq<T>)
    requires ValidDraws(|s|, draws)
    ensures |t| == |s|
    decreases |s|
  {
    if |s| <= 1 then
      s
    else
      var t := Swap(s, |s| - 1, draws[0]);
      FisherYates(t[..|s| - 1], draws[1..]) + [t[|s| - 1]]
  }

  lemma {:induction false} FisherYatesPermutes<T>(s: seq<T>, draws: seq<nat>)
    requires ValidDraws(|s|, draws)
    ensures multiset(FisherYates(s, draws)) == multiset(s)
    decreases |s|
  {
    if |s| > 1 {
      var t := Swap(s, |s| - 1, draws[0]);
      SwapKeepsElements(s, |s| - 1, draws[0]);
      FisherYatesPermutes(t[..|s| - 1], draws[1..]);
      assert t == t[..|s| - 1] + [t[|s| - 1]];
    }
  }

  function IndexOf<T(==)>(s: seq<T>, x: T): (i: nat)
    requires x in s
    ensures i < |s| && s[i] == x
  {
    if s[0] == x then 0 else 1 + IndexOf(s[1..], x)
  }

  lemma DistinctPrefix<T>(s: seq<T>, i: nat, j: nat)
    requires Distinct(s) && i < |s| && j < |s|
    ensures Distinct(Swap(s, i, j))
    ensures Distinct(Swap(s, i, j)[..|s| - 1])
  {
  }

  /** Reads back the draws that turn s into the permutation p. */
  function DrawsOf<T(==)>(s: seq<T>, p: seq<T>): seq<nat>
    requires multiset(s) == multiset(p)
    decreases |s|
  {
    SameSize(s, p);
    if |s| <= 1 then
      []
    else
      assert p[|s| - 1] in multiset(p);
      var d := IndexOf(s, p[|s| - 1]);
      var t := Swap(s, |s| - 1, d);
      SamePrefix(s, p, d);
      [d] + DrawsOf(t[..|s| - 1], p[..|s| - 1])
  }

  lemma SameSize<T>(s: seq<T>, p: seq<T>)
    requires multiset(s) == multiset(p)
    ensures |s| == |p|
  {
    assert |s| == |multiset(s)| == |multiset(p)| == |p|;
  }

  lemma SamePrefix<T>(s: seq<T>, p: seq<T>, d: nat)
    requires multiset(s) == multiset(p) && |s| == |p| && d < |s|
    requires s[d] == p[|p| - 1]
    ensures multiset(Swap(s, |s| - 1, d)[..|s| - 1]) == multiset(p[..|p| - 1])
  {
    var t := Swap(s, |s| - 1, d);
    SwapKeepsElements(s, |s| - 1, d);
    DropLast(t);
    DropLast(p);
  }

  lemma DropLast<T>(s: seq<T>)
    requires s != []
    ensures multiset(s[..|s| - 1]) == multiset(s) - multiset{s[|s| - 1]}
  {
    assert s == s[..|s| - 1] + [s[|s| - 1]];
  }

  /** Different draws give different permutations: the draws can be read back. */
  lemma {:induction false} DrawsAreDetermined<T>(s: seq<T>, draws: seq<nat>)
    requires Distinct(s) && ValidDraws(|s|, draws)
    ensures multiset(s) == multiset(FisherYates(s, draws))
    ensures DrawsOf(s, FisherYates(s, draws)) == draws
    decreases |s|
  {
    FisherYatesPermutes(s, draws);
    if |s| > 1 {
      var p := FisherYates(s, draws);
      var t := Swap(s, |s| - 1, draws[0]);
      assert p[|s| - 1] == t[|s| - 1] == s[draws[0]];
      assert p[|s| - 1] in multiset(p);
      assert IndexOf(s, p[|s| - 1]) == draws[0];
      DistinctPrefix(s, |s| - 1, draws[0]);
      DrawsAreDetermined(t[..|s| - 1], draws[1..]);
      assert p[..|s| - 1] == FisherYates(t[..|s| - 1], draws[1..]);
    }
  }

  /** Every permutation is reached by some draws. */
  lemma {:induction false} EveryPermutationIsReached<T>(s: seq<T>, p: seq<T>)
    requires multiset(s) == multiset(p)
    ensures ValidDraws(|s|, DrawsOf(s, p))
    ensures FisherYates(s, DrawsOf(s, p)) == p
    decreases |s|
  {
    SameSize(s, p);
    if |s| > 1 {
      assert p[|s| - 1] in multiset(p);
      var d := IndexOf(s, p[|s| - 1]);
      var rest := Swap(s, |s| - 1, d)[..|s| - 1];
      SamePrefix(s, p, d);
      EveryPermutationIsReached(rest, p[..|s| - 1]);
      ReachedStep(s, p, d, DrawsOf(rest, p[..|s| - 1]));
    } else if |s| == 1 {
      assert s[0] in multiset(s);
      assert s[0] in multiset(p);
    }
  }

  lemma ReachedStep<T>(s: seq<T>, p: seq<T>, d: nat, draws: seq<nat>)
    requires 1 < |s| == |p| && d < |s| && s[d] == p[|p| - 1]
    requires ValidDraws(|s| - 1, draws)
    requires FisherYates(Swap(s, |s| - 1, d)[..|s| - 1], draws) == p[..|p| - 1]
    ensures ValidDraws(|s|, [d] + draws)
    ensures FisherYates(s, [d] + draws) == p
  {
    assert ([d] + draws)[1..] == draws;
    assert p == p[..|p| - 1] + [p[|p| - 1]];
  }

  /** The loop maps valid draws one-to-one onto the permutations. */
  lemma FisherYatesIsOneToOneOnto<T>(s: seq<T>, p: seq<T>) returns (draws: seq<nat>)
    requires Distinct(s) && multiset(s) == multiset(p)
    ensures ValidDraws(|s|, draws) && FisherYates(s, draws) == p
    ensures forall other | ValidDraws(|s|, other) && FisherYates(s, other) == p :: other == draws
  {
    draws := DrawsOf(s, p);
    EveryPermutationIsReached(s, p);
    forall other | ValidDraws(|s|, other) && FisherYates(s, other) == p
      ensures other == draws
    {
      DrawsAreDetermined(s, other);
    }
  }

  // ---------- the sample order of an epoch ----------

  function Identity(n: nat): (s: seq<nat>)
    ensures |s| == n && forall i :: 0 <= i < n ==> s[i] == i
  {
    seq(n, i => i)
  }

  lemma IdentityIsDistinct(n: nat)
    ensures Distinct(Identity(n))
  {
  }

  /** The bounded draws for n, n - 1, ..., 2, and nothing else. */
  function EpochDraws(state: Word, n: Word): (draws: seq<nat>)
    ensures ValidDraws(n, draws)
    decreases n
  {
    if n <= 1 then
      []
    else
      var (value, next) := Draw(state, n);
      [value as nat] + EpochDraws(next, n - 1)
  }

  /** The order of an epoch: a function of seed, epoch and flag alone. */
  function EpochOrder(n: Word, seed: Word, epoch: Word, shuffle: bool): (order: seq<nat>)
    ensures |order| == n
  {
    if shuffle then
      FisherYates(Identity(n), EpochDraws(EpochSeed(seed, epoch), n))
    else
      Identity(n)
  }

  /** Every sample is visited exactly once per epoch, and every lookup inside
      the dataset names a sample of the dataset. */
  lemma EpochOrderIsPermutation(n: Word, seed: Word, epoch: Word, shuffle: bool)
    ensures multiset(EpochOrder(n, seed, epoch, shuffle)) == multiset(Identity(n))
    ensures forall i :: 0 <= i < n ==> 0 <= EpochOrder(n, seed, epoch, shuffle)[i] < n
    ensures Distinct(EpochOrder(n, seed, epoch, shuffle))
  {
    var order := EpochOrder(n, seed, epoch, shuffle);
    if shuffle {
      FisherYatesPermutes(Identity(n), EpochDraws(EpochSeed(seed, epoch), n));
    }
    forall i | 0 <= i < n
      ensures 0 <= order[i] < n
    {
      assert order[i] in multiset(order);
      assert order[i] in Identity(n);
    }
    IdentityIsDistinct(n);
    PermutationKeepsDistinct(Identity(n), order);
  }

  // ---------- the order, step by step ----------

  /** One swap, place by place. */
  ghost predicate Swapped<T(!new)>(before: seq<T>, after: seq<T>, i: nat, j: nat)
    requires i < |before| && j < |before|
  {
    && |after| == |before| && after[i] == before[j] && after[j] == before[i]
    && forall k :: 0 <= k < |before| && k != i && k != j ==> after[k] == before[k]
  }

  /** The arrays between the swaps: step k exchanges the last place not yet final
      with the drawn one. */
  ghost predicate SwapTrace<T(!new)>(s: seq<T>, draws: seq<nat>, trace: seq<seq<T>>) {
    && |trace| == |draws| + 1 && trace[0] == s && |draws| <= |s|
    && forall k :: 0 <= k < |draws| ==>
         |trace[k]| == |s| && draws[k] < |s| - k && Swapped(trace[k], trace[k + 1], |s| - 1 - k, draws[k])
  }

  lemma {:induction false} FisherYatesTrace<T(!new)>(s: seq<T>, draws: seq<nat>) returns (trace: seq<seq<T>>)
    requires ValidDraws(|s|, draws)
    ensures SwapTrace(s, draws, trace) && trace[|draws|] == FisherYates(s, draws)
    decreases |s|
  {
    if |s| <= 1 {
      trace := [s];
    } else {
      var shorter, last := FirstSwap(s, draws);
      hide FisherYates, ValidDraws, Swapped, SwapTrace, Swap;
      var rest := FisherYatesTrace(shorter, draws[1..]);
      trace := [s] + WithLast(rest, last);
      TraceSize(shorter, draws[1..], rest);
      TraceGrows(s, shorter, last, draws[0], draws[1..], rest);
      assert draws == [draws[0]] + draws[1..];
    }
  }

  lemma TraceSize<T(!new)>(s: seq<T>, draws: seq<nat>, trace: seq<seq<T>>)
    requires SwapTrace(s, draws, trace)
    ensures |trace| == |draws| + 1
  {
  }

  lemma FirstSwap<T(!new)>(s: seq<T>, draws: seq<nat>) returns (shorter: seq<T>, last: T)
    requires |s| > 1 && ValidDraws(|s|, draws)
    ensures draws != [] && draws[0] < |s| && |shorter| == |s| - 1 && ValidDraws(|shorter|, draws[1..])
    ensures Swapped(s, shorter + [last], |s| - 1, draws[0])
    ensures FisherYates(s, draws) == FisherYates(shorter, draws[1..]) + [last]
  {
    var t := Swap(s, |s| - 1, draws[0]);
    shorter, last := t[..|s| - 1], t[|s| - 1];
    assert t == shorter + [last];
  }

  ghost function WithLast<T>(rest: seq<seq<T>>, last: T): (longer: seq<seq<T>>)
    ensures |longer| == |rest| && forall k :: 0 <= k < |rest| ==> longer[k] == rest[k] + [last]
  {
    seq(|rest|, k requires 0 <= k < |rest| => rest[k] + [last])
  }

  lemma TraceGrows<T(!new)>(s: seq<T>, shorter: seq<T>, last: T, draw: nat, draws: seq<nat>, rest: seq<seq<T>>)
    requires |s| == |shorter| + 1 && draw < |s| && Swapped(s, shorter + [last], |s| - 1, draw)
    requires SwapTrace(shorter, draws, rest)
    ensures SwapTrace(s, [draw] + draws, [s] + WithLast(rest, last))
  {
    hide Swapped;
    var trace, longer := [s] + WithLast(rest, last), [draw] + draws;
    forall k | 0 <= k < |longer|
      ensures |trace[k]| == |s| && longer[k] < |s| - k && Swapped(trace[k], trace[k + 1], |s| - 1 - k, longer[k])
    {
      if k > 0 {
        LaterSwap(s, shorter, last, draws, rest, k - 1);
        assert trace[k] == rest[k - 1] + [last] && trace[k + 1] == rest[k] + [last] && longer[k] == draws[k - 1];
      } else {
        assert trace[1] == rest[0] + [last] == shorter + [last];
      }
    }
    hide WithLast;
  }

  lemma LaterSwap<T(!new)>(s: seq<T>, shorter: seq<T>, last: T, draws: seq<nat>, rest: seq<seq<T>>, k: nat)
    requires |s| == |shorter| + 1 && SwapTrace(shorter, draws, rest) && k < |draws|
    ensures |rest[k]| + 1 == |s| && draws[k] < |s| - k - 1
    ensures Swapped(rest[k] + [last], rest[k + 1] + [last], |s| - 2 - k, draws[k])
  {
    hide Swapped;
    SwappedUnder(rest[k], rest[k + 1], last, |shorter| - 1 - k, draws[k]);
  }

  lemma SwappedUnder<T(!new)>(before: seq<T>, after: seq<T>, last: T, i: nat, j: nat)
    requires i < |before| && j < |before| && Swapped(before, after, i, j)
    ensures |after| == |before| && Swapped(before + [last], after + [last], i, j)
  {
  }

  /** The draws of a generator: each is the residue of the first accepted word for
      its bound, and the next starts from the state that it leaves. */
  ghost predicate DrawTrace(state: Word, n: Word, draws: seq<nat>, states: seq<Word>) {
    && |draws| == (if n == 0 then 0 else n - 1) && |states| == |draws| + 1 && states[0] == state
    && forall k :: 0 <= k < |draws| ==> DrawnFrom(states[k], n - k, draws[k], states[k + 1])
  }

  ghost predicate DrawnFrom(state: Word, bound: Word, value: nat, next: Word)
    requires bound > 0
  {
    exists m :: IsFirstAccepted(state, bound, m) && next == Advance(state, m) && value == Mix(next) % bound
  }

  lemma {:induction false} EpochDrawsAre(state: Word, n: Word) returns (states: seq<Word>)
    ensures DrawTrace(state, n, EpochDraws(state, n), states)
    decreases n
  {
    if n <= 1 {
      states := [state];
    } else {
      hide DrawnFrom, EpochDraws, Draw, DrawTrace;
      var value, next := FirstDraw(state, n);
      var rest := EpochDrawsAre(next, n - 1);
      states := [state] + rest;
      DrawTraceGrows(state, n, value, next, EpochDraws(next, n - 1), rest);
    }
  }

  lemma DrawTraceGrows(state: Word, n: Word, value: nat, next: Word, draws: seq<nat>, rest: seq<Word>)
    requires n > 1 && DrawnFrom(state, n, value, next) && DrawTrace(next, n - 1, draws, rest)
    ensures DrawTrace(state, n, [value] + draws, [state] + rest)
  {
    hide DrawnFrom;
    var all, states := [value] + draws, [state] + rest;
    forall k | 0 <= k < |all|
      ensures DrawnFrom(states[k], n - k, all[k], states[k + 1])
    {
      if k > 0 {
        assert all[k] == draws[k - 1] && states[k] == rest[k - 1] && states[k + 1] == rest[k];
        assert DrawnFrom(rest[k - 1], n - 1 - (k - 1), draws[k - 1], rest[k]);
      }
    }
  }

  lemma FirstDraw(state: Word, n: Word) returns (value: nat, next: Word)
    requires n > 1
    ensures DrawnFrom(state, n, value, next)
    ensures EpochDraws(state, n) == [value] + EpochDraws(next, n - 1)
  {
    var m := DrawIsFirstAccepted(state, n);
    value, next := Draw(state, n).0, Draw(state, n).1;
    hide Draw, Mix, Advance, IsFirstAccepted;
  }

  /** The order of an epoch without its recursion: the identity, or what the traced
      swaps by the traced draws from the seed of the epoch make of it. */
  ghost predicate OrderedAs(n: Word, seed: Word, epoch: Word, shuffle: bool, order: seq<nat>) {
    if !shuffle then
      |order| == n && forall i :: 0 <= i < n ==> order[i] == i
    else
      var state := Mix(Advance(XorWord(seed, 0x6e657572616c2d73), epoch + 1));
      exists draws, states ::
        && DrawTrace(state, n, draws, states)
        && exists trace :: SwapTrace(Identity(n), draws, trace) && order == trace[|draws|]
  }

  lemma EpochOrderIs(n: Word, seed: Word, epoch: Word, shuffle: bool)
    ensures OrderedAs(n, seed, epoch, shuffle, EpochOrder(n, seed, epoch, shuffle))
  {
    if shuffle {
      var state := EpochSeed(seed, epoch);
      EpochSeedIsOutput(seed, epoch);
      var states := EpochDrawsAre(state, n);
      var trace := FisherYatesTrace(Identity(n), EpochDraws(state, n));
    }
  }

  lemma PermutationKeepsDistinct<T>(s: seq<T>, p: seq<T>)
    requires Distinct(s) && multiset(s) == multiset(p)
    ensures Distinct(p)
  {
    forall i, j | 0 <= i < j < |p|
      ensures p[i] != p[j]
    {
      if p[i] == p[j] {
        RepeatedCount(p, i, j);
        DistinctCount(s, p[i]);
      }
    }
  }

  lemma RepeatedCount<T>(p: seq<T>, i: nat, j: nat)
    requires i < j < |p| && p[i] == p[j]
    ensures multiset(p)[p[i]] >= 2
  {
    assert p == p[..j] + [p[j]] + p[j + 1..];
    assert p[i] in p[..j];
  }

  lemma {:induction false} DistinctCount<T>(s: seq<T>, x: T)
    requires Distinct(s)
    ensures multiset(s)[x] <= 1
  {
    if s != [] {
      var init := s[..|s| - 1];
      assert s == init + [s[|s| - 1]];
      DistinctCount(init, x);
      if x == s[|s| - 1] {
        assert x !in init;
      }
    }
  }

  class SampleOrder {
    const sampleCount: Word
    const indices: array<nat>

    ghost predicate Valid()
      reads this
    {
      sampleCount > 0 && indices.Length == sampleCount
    }

    constructor (count: Word)
      requires count > 0
      ensures Valid() && sampleCount == count && fresh(indices)
    {
      sampleCount := count;
      indices := new nat[count];
    }

    /** Returns false, and changes nothing, for a flag that is neither 0 nor 1. */
    method Prepare(seed: Word, epoch: Word, shuffle: int) returns (ok: bool)
      requires Valid()
      modifies indices
      ensures ok == (shuffle == 0 || shuffle == 1)
      ensures ok ==> indices[..] == EpochOrder(sampleCount, seed, epoch, shuffle == 1)
      ensures shuffle == 0 ==> forall i :: 0 <= i < indices.Length ==> indices[i] == i
      ensures shuffle == 1 ==> OrderedAs(sampleCount, seed, epoch, true, indices[..])
      ensures !ok ==> indices[..] == old(indices[..])
    {
      if shuffle != 0 && shuffle != 1 {
        return false;
      }
      for i := 0 to indices.Length
        invariant forall k :: 0 <= k < i ==> indices[k] == k
      {
        indices[i] := i;
      }
      assert indices[..] == Identity(sampleCount);
      if shuffle == 1 {
        var random := new NeuralRandom(EpochSeed(seed, epoch));
        ShuffleInPlace(indices, random);
      }
      EpochOrderIs(sampleCount, seed, epoch, shuffle == 1);
      return true;
    }
  }

  /** The descending loop of the sample order. */
  method ShuffleInPlace(indices: array<nat>, random: NeuralRandom)
    requires 0 < indices.Length <= SIZE_MAX
    modifies indices, random
    ensures indices[..] == FisherYates(old(indices[..]), EpochDraws(old(random.state), indices.Length))
  {
    ghost var goal := FisherYates(indices[..], EpochDraws(random.state, indices.Length));
    var remaining: Word := indices.Length;
    WholeIsPrefix(indices[..]);
    while remaining > 1
      invariant 1 <= remaining <= indices.Length
      invariant Progress(indices[..], remaining, EpochDraws(random.state, remaining), goal)
    {
      ghost var before, draws := indices[..], EpochDraws(random.state, remaining);
      var selected := random.Bounded(remaining);
      indices[remaining - 1], indices[selected] := indices[selected], indices[remaining - 1];
      assert indices[..] == Swap(before, remaining - 1, selected);
      assert draws == [selected as nat] + EpochDraws(random.state, remaining - 1);
      ShuffleStep(before, remaining, selected, EpochDraws(random.state, remaining - 1), goal);
      remaining := remaining - 1;
    }
    ProgressEnds(indices[..], EpochDraws(random.state, remaining), goal);
  }

  /** The first n places are still to be shuffled; the rest is final. */
  ghost predicate Progress(all: seq<nat>, n: nat, draws: seq<nat>, goal: seq<nat>) {
    && n <= |all|
    && ValidDraws(n, draws)
    && FisherYates(all[..n], draws) + all[n..] == goal
  }

  lemma WholeIsPrefix(all: seq<nat>)
    ensures forall draws :: ValidDraws(|all|, draws) ==>
              Progress(all, |all|, draws, FisherYates(all, draws))
  {
    assert all[..|all|] == all;
  }

  lemma ProgressEnds(all: seq<nat>, draws: seq<nat>, goal: seq<nat>)
    requires |all| >= 1 && Progress(all, 1, draws, goal)
    ensures all == goal
  {
    assert all[..1] + all[1..] == all;
  }

  /** One turn of the loop moves one element from the unshuffled prefix to the
      finished tail. */
  lemma ShuffleStep(all: seq<nat>, n: nat, selected: nat, rest: seq<nat>, goal: seq<nat>)
    requires n > 1 && selected < n && Progress(all, n, [selected] + rest, goal)
    ensures Progress(Swap(all, n - 1, selected), n - 1, rest, goal)
  {
    var before, tail := all[..n], all[n..];
    assert ([selected] + rest)[1..] == rest;
    SwapSplits(all, n, selected);
    FisherYatesStep(before, selected, rest);
    var t := Swap(before, n - 1, selected);
    Regroup(FisherYates(t[..n - 1], rest), [t[n - 1]], tail);
  }

  lemma SwapSplits(all: seq<nat>, n: nat, d: nat)
    requires 1 <= n <= |all| && d < n
    ensures var t := Swap(all[..n], n - 1, d);
            var after := Swap(all, n - 1, d);
            && after[..n - 1] == t[..n - 1]
            && after[n - 1..] == [t[n - 1]] + all[n..]
  {
  }

  lemma FisherYatesStep(s: seq<nat>, d: nat, rest: seq<nat>)
    requires |s| > 1 && d < |s| && ValidDraws(|s| - 1, rest)
    ensures ValidDraws(|s|, [d] + rest)
    ensures var t := Swap(s, |s| - 1, d);
            FisherYates(s, [d] + rest) == FisherYates(t[..|s| - 1], rest) + [t[|s| - 1]]
  {
    assert ([d] + rest)[1..] == rest;
  }

  lemma Regroup<T>(a: seq<T>, b: seq<T>, c: seq<T>)
    ensures a + (b + c) == (a + b) + c
  {
  }
}
