/** The SplitMix64 generator and the rejection sampler built on it. */
module Random {
  import opened Words

  const INCREMENT: Word := 0x9e3779b97f4a7c15
  const MIX1: Word := 0xbf58476d1ce4e5b9
  const MIX2: Word := 0x94d049bb133111eb
  const DOMAIN: Word := 0x6e657572616c2d73

  // Inverses of the three odd constants modulo 2^64.
  const INCREMENT_INVERSE: Word := 0xf1de83e19937733d
  const MIX1_INVERSE: Word := 0x96de1b173f119089
  const MIX2_INVERSE: Word := 0x319642b2d24d8ec3

  /** (value ^ (value >> shift)) * factor */
  function Stage(value: Word, shift: nat, factor: Word): Word {
    Wrap(XorShift(value, shift) * factor)
  }

  function Unstage(value: Word, shift: nat, inverse: Word): Word {
    UnXorShift(Wrap(value * inverse), shift)
  }

  lemma StageInverse(value: Word, shift: nat, factor: Word, inverse: Word)
    requires 3 * shift >= 64
    requires (factor * inverse) % MODULUS == 1
    ensures Unstage(Stage(value, shift, factor), shift, inverse) == value
    ensures Stage(Unstage(value, shift, inverse), shift, factor) == value
  {
    MulInverse(XorShift(value, shift), factor, inverse);
    XorShiftInverse(value, shift);
    XorShiftInverse(Wrap(value * inverse), shift);
    assert (inverse * factor) % MODULUS == 1 by {
      assert inverse * factor == factor * inverse;
    }
    MulInverse(value, inverse, factor);
  }

  function Mix(value: Word): Word {
    XorShift(Stage(Stage(value, 30, MIX1), 27, MIX2), 31)
  }

  /** The inverse of Mix; the program never computes it. */
  function Unmix(value: Word): Word {
    Unstage(Unstage(UnXorShift(value, 31), 27, MIX2_INVERSE), 30, MIX1_INVERSE)
  }

  lemma InverseConstants()
    ensures (MIX1 * MIX1_INVERSE) % MODULUS == 1
    ensures (MIX2 * MIX2_INVERSE) % MODULUS == 1
    ensures (INCREMENT * INCREMENT_INVERSE) % MODULUS == 1
  {
  }

  lemma MixIsBijective(value: Word)
    ensures Unmix(Mix(value)) == value
    ensures Mix(Unmix(value)) == value
  {
    InverseConstants();
    var first := Stage(value, 30, MIX1);
    var second := Stage(first, 27, MIX2);
    XorShiftInverse(second, 31);
    StageInverse(first, 27, MIX2, MIX2_INVERSE);
    StageInverse(value, 30, MIX1, MIX1_INVERSE);
    var last := UnXorShift(value, 31);
    var middle := Unstage(last, 27, MIX2_INVERSE);
    StageInverse(middle, 30, MIX1, MIX1_INVERSE);
    StageInverse(last, 27, MIX2, MIX2_INVERSE);
    XorShiftInverse(value, 31);
  }

  /** The generator state after n calls. */
  function Advance(state: Word, n: nat): Word {
    Wrap(state + INCREMENT * n)
  }

  lemma AdvanceAdd(state: Word, m: nat, n: nat)
    ensures Advance(Advance(state, m), n) == Advance(state, m + n)
  {
    WrapAdd(state + INCREMENT * m, INCREMENT * n);
    assert state + INCREMENT * m + INCREMENT * n == state + INCREMENT * (m + n);
  }

  /** How many calls (1 .. 2^64) lead from one state to another. */
  function Distance(from: Word, to: Word): (n: nat)
    ensures 1 <= n <= MODULUS
  {
    Wrap((to - from) * INCREMENT_INVERSE - 1) + 1
  }

  /** The odd increment visits every state: the orbit is all 2^64 words. */
  lemma DistanceReaches(from: Word, to: Word)
    ensures Advance(from, Distance(from, to)) == to
  {
    var gap := to - from;
    var k := WrapSplit(gap * INCREMENT_INVERSE - 1);
    var n := Distance(from, to);
    assert n == gap * INCREMENT_INVERSE - MODULUS * k;
    var t := (INCREMENT * INCREMENT_INVERSE) / MODULUS;
    assert INCREMENT * INCREMENT_INVERSE == 1 + MODULUS * t;
    calc {
      INCREMENT * n;
      INCREMENT * (gap * INCREMENT_INVERSE - MODULUS * k);
      gap * (INCREMENT * INCREMENT_INVERSE) - MODULUS * (INCREMENT * k);
      gap * (1 + MODULUS * t) - MODULUS * (INCREMENT * k);
      gap + MODULUS * (gap * t - INCREMENT * k);
    }
    WrapUnique(from + INCREMENT * n, to, gap * t - INCREMENT * k);
  }

  /** Distances within one period are unique, so the period is exactly 2^64. */
  lemma AdvanceInjective(state: Word, m: nat, n: nat)
    requires m < MODULUS && n < MODULUS
    ensures Advance(state, m) == Advance(state, n) <==> m == n
  {
    if Advance(state, m) == Advance(state, n) {
      var j := WrapSplit(state + INCREMENT * m);
      var k := WrapSplit(state + INCREMENT * n);
      assert INCREMENT * (m - n) == MODULUS * (j - k);
      MultipleVanishes(m - n, j - k);
    }
  }

  lemma MultipleVanishes(gap: int, k: int)
    requires -MODULUS < gap < MODULUS
    requires INCREMENT * gap == MODULUS * k
    ensures gap == 0
  {
    var t := (INCREMENT * INCREMENT_INVERSE) / MODULUS;
    assert INCREMENT * INCREMENT_INVERSE == 1 + MODULUS * t;
    calc {
      gap + MODULUS * (gap * t);
      gap * (1 + MODULUS * t);
      gap * (INCREMENT * INCREMENT_INVERSE);
      (INCREMENT * gap) * INCREMENT_INVERSE;
      (MODULUS * k) * INCREMENT_INVERSE;
      MODULUS * (k * INCREMENT_INVERSE);
    }
    var q := k * INCREMENT_INVERSE - gap * t;
    assert gap == MODULUS * q;
  }

  lemma FullPeriod(state: Word)
    ensures Advance(state, MODULUS) == state
  {
    WrapUnique(state + INCREMENT * MODULUS, state, INCREMENT);
  }

  lemma DistanceUnique(from: Word, to: Word, n: nat)
    requires 1 <= n <= MODULUS && Advance(from, n) == to
    ensures n == Distance(from, to)
  {
    DistanceReaches(from, to);
    FullPeriod(from);
    var m := Distance(from, to);
    var n0, m0 := if n == MODULUS then 0 else n, if m == MODULUS then 0 else m;
    assert Advance(from, 0) == from;
    AdvanceInjective(from, n0, m0);
  }

  /** One call moves one step closer to any state it has not yet reached. */
  lemma DistanceFalls(from: Word, to: Word)
    requires Advance(from, 1) != to
    ensures Distance(Advance(from, 1), to) == Distance(from, to) - 1
  {
    var next := Advance(from, 1);
    var m := Distance(next, to);
    DistanceReaches(next, to);
    FullPeriod(next);
    AdvanceAdd(from, 1, m);
    DistanceUnique(from, to, m + 1);
  }

  // ---------- rejection sampling ----------

  /** (0 - bound) % bound in unsigned arithmetic. */
  function Threshold(bound: Word): (t: Word)
    requires bound > 0
    ensures t < bound
  {
    (MODULUS - bound) % bound
  }

  /** A state whose output every threshold accepts. */
  function AlwaysAccepted(): Word {
    Unmix(SIZE_MAX)
  }

  /** The first accepted draw, and the generator state it leaves behind. The
      recursion ends because the orbit passes through AlwaysAccepted. */
  function Draw(state: Word, bound: Word): (r: (Word, Word))
    requires bound > 0
    ensures r.0 < bound
    decreases Distance(state, AlwaysAccepted())
  {
    var next := Advance(state, 1);
    var value := Mix(next);
    if value < Threshold(bound) then
      RejectedMoves(state, bound);
      Draw(next, bound)
    else
      (value % bound, next)
  }

  lemma RejectedMoves(state: Word, bound: Word)
    requires bound > 0 && Mix(Advance(state, 1)) < Threshold(bound)
    ensures Distance(Advance(state, 1), AlwaysAccepted()) < Distance(state, AlwaysAccepted())
  {
    MixIsBijective(SIZE_MAX);
    assert Mix(AlwaysAccepted()) == SIZE_MAX;
    DistanceFalls(state, AlwaysAccepted());
  }

  ghost predicate IsFirstAccepted(state: Word, bound: Word, n: nat)
    requires bound > 0
  {
    && 1 <= n <= MODULUS
    && Mix(Advance(state, n)) >= Threshold(bound)
    && forall i :: 1 <= i < n ==> Mix(Advance(state, i)) < Threshold(bound)
  }

  /** What a draw is, without the loop: the residue of the first word at or
      above the threshold, found within one period. */
  lemma {:induction false} DrawIsFirstAccepted(state: Word, bound: Word) returns (n: nat)
    requires bound > 0
    ensures IsFirstAccepted(state, bound, n) && n <= Distance(state, AlwaysAccepted())
    ensures Draw(state, bound) == (Mix(Advance(state, n)) % bound, Advance(state, n))
    decreases Distance(state, AlwaysAccepted())
  {
    var next := Advance(state, 1);
    if Mix(next) < Threshold(bound) {
      RejectedMoves(state, bound);
      var m := DrawIsFirstAccepted(next, bound);
      MixIsBijective(SIZE_MAX);
      DistanceFalls(state, AlwaysAccepted());
      n := m + 1;
      forall i | 1 <= i < n
        ensures Mix(Advance(state, i)) < Threshold(bound)
      {
        if i > 1 {
          AdvanceAdd(state, 1, i - 1);
          assert Mix(Advance(next, i - 1)) < Threshold(bound);
        }
      }
      AdvanceAdd(state, 1, m);
    } else {
      n := 1;
    }
  }

  class NeuralRandom {
    var state: Word

    constructor (seed: Word)
      ensures state == seed
    {
      state := seed;
    }

    method NextUint64() returns (value: Word)
      modifies this
      ensures state == Advance(old(state), 1)
      ensures value == Mix(state)
    {
      state := Wrap(state + INCREMENT);
      value := Mix(state);
    }

    method Bounded(bound: Word) returns (value: Word)
      requires bound > 0
      modifies this
      ensures value < bound
      ensures (value, state) == Draw(old(state), bound)
    {
      var threshold := (MODULUS - bound) % bound;
      ghost var before := state;
      value := NextUint64();
      while value < threshold
        invariant state == Advance(before, 1) && value == Mix(state)
        invariant Draw(before, bound) == Draw(old(state), bound)
        decreases Distance(before, AlwaysAccepted())
      {
        RejectedMoves(before, bound);
        before := state;
        value := NextUint64();
      }
      value := value % bound;
    }
  }

  // ---------- the sampler is unbiased ----------

  ghost function Residues(lo: int, hi: int, bound: int, r: int): set<int>
    requires bound > 0
  {
    set v | lo <= v < hi && v % bound == r
  }

  /** A block of bound consecutive words holds each residue once. */
  lemma BlockHasOne(lo: int, bound: int, r: int)
    requires 0 <= r < bound
    ensures |Residues(lo, lo + bound, bound, r)| == 1
  {
    var v := lo + (r - lo) % bound;
    var k := (r - lo) / bound;
    assert v == r - bound * k;
    ResidueOf(v, bound, r, -k);
    forall w: int | lo <= w < lo + bound && w % bound == r
      ensures w == v
    {
      SameResidue(w, v, bound);
    }
    assert Residues(lo, lo + bound, bound, r) == {v};
  }

  lemma SameResidue(w: int, v: int, bound: int)
    requires bound > 0 && w % bound == v % bound && -bound < w - v < bound
    ensures w == v
  {
    var p, q := w / bound, v / bound;
    assert w - v == bound * (p - q);
    SmallMultiple(bound, p - q, w - v);
  }

  lemma ResidueOf(v: int, bound: int, r: int, k: int)
    requires 0 <= r < bound && v == r + bound * k
    ensures v % bound == r
  {
    var p, m := v / bound, v % bound;
    assert bound * (p - k) == r - m;
    SmallMultiple(bound, p - k, r - m);
  }

  lemma SmallMultiple(bound: int, k: int, product: int)
    requires bound > 0 && product == bound * k && -bound < product < bound
    ensures product == 0
  {
    if k != 0 {
      MultipleIsLarge(bound, k);
    }
  }

  lemma MultipleIsLarge(bound: int, k: int)
    requires bound > 0 && k != 0
    ensures bound * k >= bound || bound * k <= -bound
  {
  }

  lemma {:induction false} BlocksHaveMany(lo: int, bound: int, r: int, q: nat)
    requires 0 <= r < bound
    ensures |Residues(lo, lo + bound * q, bound, r)| == q
  {
    if q == 0 {
      assert Residues(lo, lo, bound, r) == {};
    } else {
      var mid := lo + bound * (q - 1);
      assert lo + bound * q == mid + bound;
      assert bound * (q - 1) >= 0;
      BlocksHaveMany(lo, bound, r, q - 1);
      BlockHasOne(mid, bound, r);
      var old', last := Residues(lo, mid, bound, r), Residues(mid, mid + bound, bound, r);
      assert Residues(lo, mid + bound, bound, r) == old' + last;
      assert old' !! last;
    }
  }

  lemma ThresholdLeavesBlocks(bound: Word)
    requires bound > 0
    ensures MODULUS - Threshold(bound) == bound * (MODULUS / bound)
  {
    var q := (MODULUS - bound) / bound;
    assert MODULUS - bound == bound * q + Threshold(bound);
    var p, m := MODULUS / bound, MODULUS % bound;
    assert bound * (q + 1 - p) == m - Threshold(bound);
    SmallMultiple(bound, q + 1 - p, m - Threshold(bound));
  }

  /** Every residue below the bound is hit by exactly floor(2^64 / bound)
      accepted words. */
  lemma RejectionIsUnbiased(bound: Word, r: nat)
    requires 0 <= r < bound
    ensures |Residues(Threshold(bound), MODULUS, bound, r)| == MODULUS / bound
  {
    ThresholdLeavesBlocks(bound);
    BlocksHaveMany(Threshold(bound), bound, r, MODULUS / bound);
  }

  /** The plain remainder, as the data importer draws it, gives the low residues
      one word more. */
  lemma PlainRemainderCount(bound: Word, r: nat)
    requires 0 <= r < bound
    ensures |Residues(0, MODULUS, bound, r)| ==
            MODULUS / bound + (if r < MODULUS % bound then 1 else 0)
  {
    var q, rest := MODULUS / bound, MODULUS % bound;
    var mid := bound * q;
    assert mid >= 0 && mid + rest == MODULUS;
    BlocksHaveMany(0, bound, r, q);
    PartialBlock(mid, rest, bound, r, q);
    var low, high := Residues(0, mid, bound, r), Residues(mid, MODULUS, bound, r);
    assert Residues(0, MODULUS, bound, r) == low + high;
    assert low !! high;
  }

  lemma PartialBlock(mid: int, rest: int, bound: int, r: int, q: int)
    requires 0 <= r < bound && 0 <= rest < bound && mid == bound * q
    ensures |Residues(mid, mid + rest, bound, r)| == if r < rest then 1 else 0
  {
    ResidueOf(mid + r, bound, r, q);
    forall v: int | mid <= v < mid + rest && v % bound == r
      ensures v == mid + r
    {
      SameResidue(v, mid + r, bound);
    }
    assert Residues(mid, mid + rest, bound, r) == if r < rest then {mid + r} else {};
  }

  /** The plain remainder is unbiased exactly for the divisors of 2^64. */
  lemma PlainRemainderUnbiasedIff(bound: Word)
    requires bound > 0
    ensures (forall r, s :: 0 <= r < bound && 0 <= s < bound ==>
               |Residues(0, MODULUS, bound, r)| == |Residues(0, MODULUS, bound, s)|)
       <==> MODULUS % bound == 0
  {
    forall r | 0 <= r < bound
      ensures |Residues(0, MODULUS, bound, r)| ==
              MODULUS / bound + (if r < MODULUS % bound then 1 else 0)
    {
      PlainRemainderCount(bound, r);
    }
    assert |Residues(0, MODULUS, bound, 0)| == |Residues(0, MODULUS, bound, bound - 1)| ==>
      MODULUS % bound == 0;
  }

  // ---------- the seed of an epoch ----------

  function EpochSeed(trainingSeed: Word, epochIndex: Word): Word {
    Mix(Advance(XorWord(trainingSeed, DOMAIN), Wrap(epochIndex + 1)))
  }

  lemma MixInjective(a: Word, b: Word)
    requires Mix(a) == Mix(b)
    ensures a == b
  {
    MixIsBijective(a);
    MixIsBijective(b);
  }

  /** For a fixed training seed, distinct epochs start from distinct states. */
  lemma EpochSeedsDistinct(seed: Word, e1: Word, e2: Word)
    ensures EpochSeed(seed, e1) == EpochSeed(seed, e2) <==> e1 == e2
  {
    if EpochSeed(seed, e1) == EpochSeed(seed, e2) {
      var base := XorWord(seed, DOMAIN);
      var n1, n2 := Wrap(e1 + 1), Wrap(e2 + 1);
      MixInjective(Advance(base, n1), Advance(base, n2));
      AdvanceInjective(base, n1, n2);
      SameAfterShift(e1, e2, 1);
    }
  }

  /** For a fixed epoch, distinct training seeds start from distinct states. */
  lemma TrainingSeedsDistinct(s1: Word, s2: Word, epoch: Word)
    ensures EpochSeed(s1, epoch) == EpochSeed(s2, epoch) <==> s1 == s2
  {
    if EpochSeed(s1, epoch) == EpochSeed(s2, epoch) {
      var b1, b2 := XorWord(s1, DOMAIN), XorWord(s2, DOMAIN);
      var shift := INCREMENT * Wrap(epoch + 1);
      MixInjective(Advance(b1, Wrap(epoch + 1)), Advance(b2, Wrap(epoch + 1)));
      SameAfterShift(b1, b2, shift);
      XorCancel(s1);
      XorCancel(s2);
    }
  }

  lemma SameAfterShift(b1: Word, b2: Word, shift: int)
    requires Wrap(b1 + shift) == Wrap(b2 + shift)
    ensures b1 == b2
  {
    SameResidue(b1 + shift, b2 + shift, MODULUS);
  }

  lemma XorCancel(s: Word)
    ensures Xor(XorWord(s, DOMAIN), DOMAIN) == s
  {
    XorAssoc(s, DOMAIN, DOMAIN);
    XorSelf(DOMAIN);
    XorZero(s);
  }

  /** The seed of epoch e is output number e + 1 of the generator started at the
      training seed with the domain constant flipped into it. */
  lemma EpochSeedIsOutput(seed: Word, epoch: Word)
    ensures EpochSeed(seed, epoch) == Mix(Advance(XorWord(seed, 0x6e657572616c2d73), epoch + 1))
  {
    hide Mix;
    var base := XorWord(seed, DOMAIN);
    hide XorWord;
    if epoch == SIZE_MAX {
      FullPeriod(base);
      StartsHere(base);
      hide Advance;
      assert Wrap(epoch + 1) == 0;
    } else {
      hide Advance;
      assert Wrap(epoch + 1) == epoch + 1;
    }
  }

  lemma StartsHere(state: Word)
    ensures Advance(state, 0) == state
  {
  }
}
