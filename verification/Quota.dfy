/** Largest-remainder allocation: the overflow-free quota and the round-robin
    distribution of what the quotas leave over. */
module Quota {
  import opened Words

  // ---------- multiply, then divide, inside one word ----------

  lemma DivModUnique(x: int, d: int, q: int, r: int)
    requires d > 0 && 0 <= r < d && x == q * d + r
    ensures x / d == q && x % d == r
  {
    var p, m := x / d, x % d;
    assert (p - q) * d == r - m;
    if p != q {
      LargeMultiple(p - q, d);
    }
  }

  lemma LargeMultiple(k: int, d: int)
    requires d > 0 && k != 0
    ensures k * d >= d || k * d <= -d
  {
  }

  /** With multiplicand <= divisor, a partial quotient never exceeds the part of
      the multiplier read so far, so no step leaves the word. */
  lemma QuotientFits(multiplicand: int, read: int, divisor: int, result: int, residual: int)
    requires 0 <= multiplicand <= divisor && divisor > 0 && 0 <= read && 0 <= residual
    requires multiplicand * read == result * divisor + residual
    ensures result <= read
  {
    if result > read {
      Times(read + 1, result, divisor);
      Times(multiplicand, divisor, read);
    }
  }

  lemma Times(a: int, b: int, c: int)
    requires a <= b && 0 <= c
    ensures a * c <= b * c
  {
  }

  /** The bit that the mask selects. */
  lemma BitTest(multiplier: nat, read: nat, low: nat, bit: nat)
    requires bit > 0 && multiplier == read * (2 * bit) + low && low < 2 * bit
    ensures (multiplier / bit) % 2 == if low >= bit then 1 else 0
  {
    var top := if low >= bit then 1 else 0;
    assert multiplier == (2 * read + top) * bit + (low - top * bit);
    DivModUnique(multiplier, bit, 2 * read + top, low - top * bit);
  }

  lemma Doubled(m: int, read: nat, d: int, result: int, residual: int)
    requires 0 <= m <= d && 0 <= residual < d && m * read == result * d + residual
    ensures var carry := if 2 * residual >= d then 1 else 0;
            && m * (2 * read) == (2 * result + carry) * d + (2 * residual - carry * d)
            && 2 * result + carry <= 2 * read
  {
    var carry := if 2 * residual >= d then 1 else 0;
    assert m * (2 * read) == 2 * (m * read);
    assert (2 * result + carry) * d == 2 * (result * d) + carry * d;
    QuotientFits(m, 2 * read, d, 2 * result + carry, 2 * residual - carry * d);
  }

  lemma Increased(m: int, read: nat, d: int, result: int, residual: int)
    requires 0 <= m <= d && 0 <= residual < d && m * read == result * d + residual
    ensures var carry := if residual + m >= d then 1 else 0;
            && m * (read + 1) == (result + carry) * d + (residual + m - carry * d)
            && result + carry <= read + 1
  {
    var carry := if residual + m >= d then 1 else 0;
    assert m * (read + 1) == m * read + m;
    assert (result + carry) * d == result * d + carry * d;
    QuotientFits(m, read + 1, d, result + carry, residual + m - carry * d);
  }

  /** Reading one more bit of the multiplier. */
  lemma ReadBit(multiplier: nat, read: nat, low: nat, bit: nat) returns (top: nat)
    requires bit > 0 && multiplier == read * (2 * bit) + low && low < 2 * bit
    ensures top <= 1 && top == (multiplier / bit) % 2
    ensures top * bit <= low < top * bit + bit
    ensures multiplier == (2 * read + top) * bit + (low - top * bit)
    ensures 2 * read <= 2 * read + top <= multiplier
  {
    BitTest(multiplier, read, low, bit);
    top := if low >= bit then 1 else 0;
    assert read * (2 * bit) == (2 * read) * bit;
    assert (2 * read + top) * bit == (2 * read) * bit + top * bit;
    Times(1, bit, 2 * read + top);
    assert (2 * read + top) * 1 <= (2 * read + top) * bit;
  }

  method MultiplyDivide(multiplicand: Word, multiplier: Word, divisor: Word)
    returns (quotient: Word, remainder: Word)
    requires 0 < divisor && multiplicand <= divisor
    ensures multiplicand * multiplier == quotient * divisor + remainder
    ensures remainder < divisor
    ensures quotient <= multiplier
  {
    if multiplicand == divisor {
      return multiplier, 0;
    }
    var result: Word, residual: Word := 0, 0;
    var bit: Word := 0x8000_0000_0000_0000;
    ghost var read: nat, low: nat := 0, multiplier;
    ghost var steps: nat := 64;
    ModulusIsPow2();
    while bit != 0
      invariant bit != 0 ==> steps > 0 && bit == Pow2(steps - 1) && low < 2 * bit
                             && multiplier == read * (2 * bit) + low
      invariant bit == 0 ==> read == multiplier
      invariant residual < divisor && read <= multiplier
      invariant multiplicand * read == result * divisor + residual
      decreases bit
    {
      ghost var top := ReadBit(multiplier, read, low, bit);
      Doubled(multiplicand, read, divisor, result, residual);
      var gap: Word := divisor - residual;
      result := result * 2;
      if residual >= gap {
        residual := residual - gap;
        result := result + 1;
      } else {
        residual := residual * 2;
      }
      if (multiplier / bit) % 2 != 0 {
        Increased(multiplicand, 2 * read, divisor, result, residual);
        var space: Word := divisor - multiplicand;
        if residual >= space {
          residual := residual - space;
          result := result + 1;
        } else {
          residual := residual + multiplicand;
        }
      }
      read, low := 2 * read + top, low - top * bit;
      bit := bit / 2;
      steps := steps - 1;
    }
    QuotientFits(multiplicand, multiplier, divisor, result, residual);
    return result, residual;
  }

  // ---------- allocation ----------

  ghost function Sum(s: seq<int>): int {
    if s == [] then 0 else Sum(s[..|s| - 1]) + s[|s| - 1]
  }

  lemma {:induction false} SumUpdate(s: seq<int>, i: nat, x: int)
    requires i < |s|
    ensures Sum(s[i := x]) == Sum(s) - s[i] + x
  {
    var n := |s| - 1;
    if i == n {
      assert s[i := x][..n] == s[..n];
    } else {
      assert s[i := x][..n] == s[..n][i := x];
      SumUpdate(s[..n], i, x);
    }
  }

  lemma {:induction false} SumMonotone(s: seq<int>, t: seq<int>)
    requires |s| == |t| && forall i :: 0 <= i < |s| ==> s[i] <= t[i]
    ensures Sum(s) <= Sum(t)
  {
    if s != [] {
      SumMonotone(s[..|s| - 1], t[..|t| - 1]);
    }
  }

  lemma {:induction false} SumPrefix(s: seq<int>, n: nat)
    requires n <= |s| && forall i :: 0 <= i < |s| ==> s[i] >= 0
    ensures 0 <= Sum(s[..n]) <= Sum(s)
    decreases |s|
  {
    if n < |s| {
      assert s[..|s| - 1][..n] == s[..n];
      SumPrefix(s[..|s| - 1], n);
    } else {
      assert s[..n] == s;
      if n > 0 {
        SumPrefix(s[..n - 1], n - 1);
      }
    }
  }

  function Share(size: nat, target: nat, total: nat): nat
    requires total > 0
  {
    ProductIsNat(size, target);
    (size * target) / total
  }

  function Rest(size: nat, target: nat, total: nat): nat
    requires total > 0
  {
    (size * target) % total
  }

  lemma ProductIsNat(a: nat, b: nat)
    ensures a * b >= 0
  {
  }

  lemma ShareScales(size: nat, target: nat, total: nat)
    requires total > 0
    ensures Share(size, target, total) * total <= size * target
  {
  }

  /** A request: group sizes, rows already reserved in each group, and how many
      of the total rows to take. One row per group always stays behind. */
  datatype Request = Request(sizes: seq<nat>, reserved: seq<nat>, total: Word, target: Word) {
    ghost predicate Valid() {
      && |sizes| == |reserved|
      && (forall g :: 0 <= g < |sizes| ==> reserved[g] < sizes[g] <= total)
      && Sum(sizes) == total
      && 0 < total
    }

    function Capacity(g: nat): nat
      requires g < |sizes| == |reserved| && reserved[g] < sizes[g]
    {
      sizes[g] - 1 - reserved[g]
    }

    ghost function Capacities(): (c: seq<int>)
      requires Valid()
      ensures |c| == |sizes| && forall g :: 0 <= g < |c| ==> c[g] == Capacity(g)
    {
      seq(|sizes|, g requires 0 <= g < |sizes| => Capacity(g))
    }

    /** The proportional share, rounded down and capped. */
    ghost function Quota(g: nat): nat
      requires Valid() && g < |sizes|
    {
      var share := Share(sizes[g], target, total);
      if share > Capacity(g) then Capacity(g) else share
    }

    ghost function Remainder(g: nat): nat
      requires Valid() && g < |sizes|
    {
      Rest(sizes[g], target, total)
    }
  }

  /** Group a is served before group b: larger remainder, then fewer rows so far,
      then smaller index. */
  ghost predicate Before(q: Request, counts: seq<int>, a: nat, b: nat)
    requires q.Valid() && |counts| == |q.sizes| && a < |counts| && b < |counts|
  {
    || q.Remainder(a) > q.Remainder(b)
    || (q.Remainder(a) == q.Remainder(b)
        && (q.reserved[a] + counts[a] < q.reserved[b] + counts[b]
            || (q.reserved[a] + counts[a] == q.reserved[b] + counts[b] && a < b)))
  }

  ghost function Extra(q: Request, counts: seq<int>, g: nat): int
    requires q.Valid() && |counts| == |q.sizes| && g < |counts|
  {
    counts[g] - q.Quota(g)
  }

  /** Round-robin: nobody is more than one extra ahead of a group that could
      still take one, and whoever is ahead deserved its last extra first. */
  ghost predicate Fair(q: Request, counts: seq<int>)
    requires q.Valid() && |counts| == |q.sizes|
  {
    forall g, h :: 0 <= g < |counts| && 0 <= h < |counts| && counts[h] < q.Capacity(h) ==>
      && Extra(q, counts, g) <= Extra(q, counts, h) + 1
      && (Extra(q, counts, g) == Extra(q, counts, h) + 1 ==> Before(q, counts[g := counts[g] - 1], g, h))
  }

  ghost predicate Within(q: Request, counts: seq<int>)
    requires q.Valid()
  {
    && |counts| == |q.sizes|
    && forall g :: 0 <= g < |counts| ==> q.Quota(g) <= counts[g] <= q.Capacity(g)
  }

  /** The share of one group, rounded down, unless its room is smaller: one row
      always stays behind. */
  ghost function Floored(sizes: seq<nat>, reserved: seq<nat>, total: nat, target: nat, g: nat): int
    requires g < |sizes| == |reserved| && total > 0
  {
    var room: int := sizes[g] as int - 1 - reserved[g] as int;
    if (sizes[g] * target) / total <= room then (sizes[g] * target) / total else room
  }

  ghost predicate Room(sizes: seq<nat>, reserved: seq<nat>, counts: seq<int>, g: nat)
    requires g < |sizes| == |reserved| == |counts|
  {
    reserved[g] + counts[g] + 1 < sizes[g]
  }

  /** Group g got one more extra than group h, which could still take one: it had
      the larger remainder, or an equal one and fewer rows before, or came first. */
  ghost predicate Deserved(sizes: seq<nat>, reserved: seq<nat>, total: nat, target: nat, counts: seq<int>, g: nat,
                           h: nat)
    requires g < |sizes| == |reserved| == |counts| && h < |sizes| && total > 0
  {
    var a, b := (sizes[g] * target) % total, (sizes[h] * target) % total;
    var taken, other := reserved[g] + counts[g] - 1, reserved[h] + counts[h];
    a > b || (a == b && (taken < other || (taken == other && g < h)))
  }

  /** Largest remainders in rounds, spelled out in the numbers of the request. */
  ghost predicate LargestRemainder(sizes: seq<nat>, reserved: seq<nat>, total: nat, target: nat, counts: seq<int>) {
    && |sizes| == |reserved| == |counts| && total > 0
    && (forall g :: 0 <= g < |counts| ==>
          Floored(sizes, reserved, total, target, g) <= counts[g] && reserved[g] + counts[g] < sizes[g])
    && forall g, h :: 0 <= g < |counts| && 0 <= h < |counts| && Room(sizes, reserved, counts, h) ==>
         var ahead := counts[g] - Floored(sizes, reserved, total, target, g);
         var behind := counts[h] - Floored(sizes, reserved, total, target, h);
         && ahead <= behind + 1
         && (ahead == behind + 1 ==> Deserved(sizes, reserved, total, target, counts, g, h))
  }

  lemma FairIsLargestRemainder(q: Request, counts: seq<int>)
    requires q.Valid() && Within(q, counts) && Fair(q, counts)
    ensures LargestRemainder(q.sizes, q.reserved, q.total, q.target, counts)
  {
    forall g | 0 <= g < |counts|
      ensures Floored(q.sizes, q.reserved, q.total, q.target, g) == q.Quota(g)
    {
    }
    forall g, h | 0 <= g < |counts| && 0 <= h < |counts| && Room(q.sizes, q.reserved, counts, h)
      ensures Extra(q, counts, g) <= Extra(q, counts, h) + 1
      ensures Extra(q, counts, g) == Extra(q, counts, h) + 1 ==>
                Deserved(q.sizes, q.reserved, q.total, q.target, counts, g, h)
    {
      assert counts[h] < q.Capacity(h);
      if Extra(q, counts, g) == Extra(q, counts, h) + 1 {
        assert g != h;
        assert Before(q, counts[g := counts[g] - 1], g, h);
      }
    }
  }

  datatype Outcome = Allocated | QuotaOverflow | NoCapacity

  // ---------- the rounds of the loop ----------

  /** In the current round every used group is one extra ahead, every unused
      group with room is on the round's level, and the used ones came first. */
  ghost predicate Round(q: Request, counts: seq<int>, used: seq<bool>, round: nat)
    requires q.Valid()
  {
    && Within(q, counts)
    && |used| == |counts|
    && (forall g :: 0 <= g < |counts| ==>
          && (used[g] ==> Extra(q, counts, g) == round + 1)
          && (!used[g] ==> Extra(q, counts, g) <= round)
          && (!used[g] && counts[g] < q.Capacity(g) ==> Extra(q, counts, g) == round))
    && (forall g, h :: 0 <= g < |counts| && 0 <= h < |counts|
                       && used[g] && !used[h] && counts[h] < q.Capacity(h) ==>
          Before(q, counts[g := counts[g] - 1], g, h))
  }

  lemma RoundIsFair(q: Request, counts: seq<int>, used: seq<bool>, round: nat)
    requires q.Valid() && Round(q, counts, used, round)
    ensures Within(q, counts) && Fair(q, counts)
  {
  }

  ghost predicate Open(q: Request, counts: seq<int>, used: seq<bool>, g: nat)
    requires q.Valid() && |counts| == |q.sizes| == |used| && g < |counts|
  {
    !used[g] && counts[g] < q.Capacity(g)
  }

  lemma ServeKeepsRound(q: Request, counts: seq<int>, used: seq<bool>, round: nat, s: nat)
    requires q.Valid() && Round(q, counts, used, round) && s < |counts| && Open(q, counts, used, s)
    requires forall h :: 0 <= h < |counts| && h != s && Open(q, counts, used, h) ==> Before(q, counts, s, h)
    ensures Round(q, counts[s := counts[s] + 1], used[s := true], round)
  {
    var after, flags := counts[s := counts[s] + 1], used[s := true];
    forall g, h | 0 <= g < |counts| && 0 <= h < |counts|
                  && flags[g] && !flags[h] && after[h] < q.Capacity(h)
      ensures Before(q, after[g := after[g] - 1], g, h)
    {
      assert h != s;
      if g == s {
        assert Open(q, counts, used, h);
      } else {
        assert Before(q, counts[g := counts[g] - 1], g, h);
      }
    }
  }

  lemma ClearKeepsRound(q: Request, counts: seq<int>, used: seq<bool>, round: nat)
    requires q.Valid() && Round(q, counts, used, round)
    requires forall h :: 0 <= h < |counts| ==> !Open(q, counts, used, h)
    ensures Round(q, counts, seq(|used|, g => false), round + 1)
  {
    forall g | 0 <= g < |counts|
      ensures Extra(q, counts, g) <= round + 1
      ensures counts[g] < q.Capacity(g) ==> Extra(q, counts, g) == round + 1
    {
      assert !Open(q, counts, used, g);
    }
  }

  ghost predicate RemaindersOf(q: Request, remainders: seq<int>)
    requires q.Valid()
  {
    |remainders| == |q.sizes| && forall g :: 0 <= g < |remainders| ==> remainders[g] == q.Remainder(g)
  }

  method SelectGroup(q: Request, counts: array<Word>, used: array<bool>, remainders: array<Word>)
    returns (selected: int)
    requires q.Valid() && |q.sizes| == counts.Length == used.Length == remainders.Length
    requires RemaindersOf(q, remainders[..])
    ensures -1 <= selected < counts.Length
    ensures selected == -1 ==> forall g :: 0 <= g < counts.Length ==> !Open(q, counts[..], used[..], g)
    ensures selected >= 0 ==>
              && Open(q, counts[..], used[..], selected)
              && forall g :: 0 <= g < counts.Length && g != selected && Open(q, counts[..], used[..], g) ==>
                   Before(q, counts[..], selected, g)
  {
    selected := -1;
    for group := 0 to counts.Length
      invariant -1 <= selected < group
      invariant selected == -1 ==> forall g :: 0 <= g < group ==> !Open(q, counts[..], used[..], g)
      invariant selected >= 0 ==>
                  && Open(q, counts[..], used[..], selected)
                  && forall g :: 0 <= g < group && g != selected && Open(q, counts[..], used[..], g) ==>
                       Before(q, counts[..], selected, g)
    {
      var capacity := q.sizes[group] - 1 - q.reserved[group];
      if used[group] || counts[group] >= capacity {
        continue;
      }
      if selected == -1
         || remainders[group] > remainders[selected]
         || (remainders[group] == remainders[selected]
             && q.reserved[group] + counts[group] < q.reserved[selected] + counts[selected]) {
        selected := group;
      }
    }
  }

  /** The proportional shares, and the proof that they never exceed the target. */
  method ComputeQuotas(q: Request, counts: array<Word>, remainders: array<Word>) returns (overflow: bool, taken: Word)
    requires q.Valid() && |q.sizes| == counts.Length == remainders.Length && counts != remainders
    modifies counts, remainders
    ensures !overflow
    ensures forall g :: 0 <= g < counts.Length ==> counts[g] == q.Quota(g)
    ensures RemaindersOf(q, remainders[..])
    ensures taken == Sum(counts[..]) <= q.target
  {
    hide PrefixFits;
    taken := 0;
    NothingFits(q);
    for group := 0 to counts.Length
      invariant forall g :: 0 <= g < group ==> counts[g] == q.Quota(g) && remainders[g] == q.Remainder(g)
      invariant taken == Sum(counts[..group]) <= q.target
      invariant PrefixFits(q, group, taken)
    {
      var capacity := q.sizes[group] - 1 - q.reserved[group];
      var share, rest := ShareAndRest(q.sizes[group], q.target, q.total);
      counts[group], remainders[group] := share, rest;
      if counts[group] > capacity {
        counts[group] := capacity;
      }
      QuotasFit(q, group, taken, counts[group]);
      if taken > q.target - counts[group] {
        return true, taken;
      }
      assert counts[..group + 1][..group] == counts[..group];
      taken := taken + counts[group];
    }
    assert counts[..counts.Length] == counts[..];
    return false, taken;
  }

  method ShareAndRest(size: Word, target: Word, total: Word) returns (share: Word, rest: Word)
    requires 0 < total && size <= total
    ensures share == Share(size, target, total) && rest == Rest(size, target, total)
  {
    share, rest := MultiplyDivide(size, target, total);
    DivModUnique(size * target, total, share, rest);
  }

  /** The shares handed out so far, scaled up, stay below the target's part. */
  ghost predicate PrefixFits(q: Request, group: nat, taken: nat) {
    group <= |q.sizes| && taken * q.total <= Sum(q.sizes[..group]) * q.target
  }

  lemma NothingFits(q: Request)
    ensures PrefixFits(q, 0, 0)
  {
  }

  lemma QuotasFit(q: Request, group: nat, taken: nat, count: nat)
    requires q.Valid() && group < |q.sizes| && PrefixFits(q, group, taken) && count <= q.Quota(group)
    ensures PrefixFits(q, group + 1, taken + count)
    ensures taken + count <= q.target
  {
    assert q.sizes[..group + 1][..group] == q.sizes[..group];
    var before, size := Sum(q.sizes[..group]), q.sizes[group];
    assert Sum(q.sizes[..group + 1]) == before + size;
    SumPrefix(q.sizes, group);
    SumPrefix(q.sizes, group + 1);
    ShareScales(size, q.target, q.total);
    SharesFit(before, size, q.target, q.total, taken, count, Share(size, q.target, q.total));
  }

  lemma SharesFit(before: nat, size: nat, target: nat, total: nat, taken: nat, count: nat, share: nat)
    requires total > 0 && before + size <= total
    requires taken * total <= before * target && count <= share && share * total <= size * target
    ensures (taken + count) * total <= (before + size) * target
    ensures taken + count <= target
  {
    Times(count, share, total);
    assert (taken + count) * total == taken * total + count * total;
    assert (before + size) * target == before * target + size * target;
    Times(before + size, total, target);
    assert total * target == target * total;
    if taken + count > target {
      Times(target + 1, taken + count, total);
    }
  }

  method ClearFlags(used: array<bool>)
    modifies used
    ensures forall g :: 0 <= g < used.Length ==> !used[g]
  {
    for g := 0 to used.Length
      invariant forall k :: 0 <= k < g ==> !used[k]
    {
      used[g] := false;
    }
  }

  method HasCapacity(q: Request, counts: array<Word>) returns (found: bool)
    requires q.Valid() && |q.sizes| == counts.Length
    ensures found <==> exists k :: 0 <= k < counts.Length && counts[k] < q.Capacity(k)
  {
    for g := 0 to counts.Length
      invariant forall k :: 0 <= k < g ==> counts[k] >= q.Capacity(k)
    {
      if counts[g] < q.sizes[g] - 1 - q.reserved[g] {
        return true;
      }
    }
    return false;
  }

  method Serve(q: Request, counts: array<Word>, used: array<bool>, selected: nat, ghost round: nat)
    requires q.Valid() && |q.sizes| == counts.Length == used.Length && selected < counts.Length
    requires Round(q, counts[..], used[..], round) && Open(q, counts[..], used[..], selected)
    requires forall h :: 0 <= h < counts.Length && h != selected && Open(q, counts[..], used[..], h) ==>
               Before(q, counts[..], selected, h)
    modifies counts, used
    ensures Round(q, counts[..], used[..], round)
    ensures Sum(counts[..]) == old(Sum(counts[..])) + 1
  {
    ServeKeepsRound(q, counts[..], used[..], round, selected);
    SumUpdate(counts[..], selected, counts[selected] + 1);
    ghost var before, flags := counts[..], used[..];
    counts[selected] := counts[selected] + 1;
    used[selected] := true;
    assert counts[..] == before[selected := before[selected] + 1];
    assert used[..] == flags[selected := true];
  }

  method NextRound(q: Request, counts: array<Word>, used: array<bool>, ghost round: nat)
    requires q.Valid() && |q.sizes| == counts.Length == used.Length
    requires Round(q, counts[..], used[..], round)
    requires forall g :: 0 <= g < counts.Length ==> !Open(q, counts[..], used[..], g)
    modifies used
    ensures Round(q, counts[..], used[..], round + 1)
    ensures !AnyUsed(used[..])
  {
    ClearKeepsRound(q, counts[..], used[..], round);
    ghost var flags := used[..];
    ClearFlags(used);
    assert used[..] == seq(|flags|, g => false);
  }

  method AllocateStratified(q: Request, counts: array<Word>) returns (outcome: Outcome)
    requires q.Valid() && |q.sizes| == counts.Length
    modifies counts
    ensures outcome != QuotaOverflow
    ensures outcome == NoCapacity <==> Sum(q.Capacities()) < q.target
    ensures outcome == Allocated ==>
              Sum(counts[..]) == q.target && Within(q, counts[..]) && Fair(q, counts[..])
              && LargestRemainder(q.sizes, q.reserved, q.total, q.target, counts[..])
  {
    hide LargestRemainder;
    hide Before, Round, Fair, RemaindersOf, Open, AnyUsed;
    var remainders := new Word[counts.Length];
    var used := new bool[counts.Length](g => false);
    var overflow, taken := ComputeQuotas(q, counts, remainders);
    if overflow {
      return QuotaOverflow;
    }
    ghost var round: nat := 0;
    QuotasOpenTheFirstRound(q, counts[..], used[..]);
    while taken < q.target
      invariant taken <= q.target && taken == Sum(counts[..])
      invariant Round(q, counts[..], used[..], round)
      invariant RemaindersOf(q, remainders[..])
      decreases q.target - taken, if AnyUsed(used[..]) then 1 else 0
    {
      var selected := SelectGroup(q, counts, used, remainders);
      if selected == -1 {
        var hasCapacity := HasCapacity(q, counts);
        if hasCapacity {
          RoomMeansUsed(q, counts[..], used[..]);
        }
        NextRound(q, counts, used, round);
        round := round + 1;
        if !hasCapacity {
          RoundIsFair(q, counts[..], used[..], round);
          EverythingTaken(q, counts[..]);
          return NoCapacity;
        }
      } else {
        Serve(q, counts, used, selected, round);
        taken := taken + 1;
      }
    }
    RoundIsFair(q, counts[..], used[..], round);
    FairIsLargestRemainder(q, counts[..]);
    SumMonotone(counts[..], q.Capacities());
    return Allocated;
  }

  ghost predicate AnyUsed(used: seq<bool>) {
    exists g :: 0 <= g < |used| && used[g]
  }

  /** When nothing is open although some group has room, a flag is set: clearing
      the flags is progress. */
  lemma RoomMeansUsed(q: Request, counts: seq<int>, used: seq<bool>)
    requires q.Valid() && |counts| == |q.sizes| == |used|
    requires forall g :: 0 <= g < |counts| ==> !Open(q, counts, used, g)
    requires exists k :: 0 <= k < |counts| && counts[k] < q.Capacity(k)
    ensures AnyUsed(used)
  {
    var k :| 0 <= k < |counts| && counts[k] < q.Capacity(k);
    assert !Open(q, counts, used, k);
  }

  lemma QuotasOpenTheFirstRound(q: Request, counts: seq<int>, used: seq<bool>)
    requires q.Valid() && |counts| == |q.sizes| == |used|
    requires forall g :: 0 <= g < |counts| ==> counts[g] == q.Quota(g) && !used[g]
    ensures Round(q, counts, used, 0)
  {
  }

  lemma EverythingTaken(q: Request, counts: seq<int>)
    requires q.Valid() && Within(q, counts)
    requires forall g :: 0 <= g < |counts| ==> counts[g] >= q.Capacity(g)
    ensures counts == q.Capacities()
  {
  }
}
