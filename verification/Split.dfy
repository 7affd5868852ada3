/** The stratified split of imported rows into training, validation and test. */
module Split {
  import opened Words
  import opened Random
  import opened Shuffle
  import opened Quota

  datatype Label = Train | Test | Validation

  datatype SplitResult =
    | Ok(labels: seq<Label>, training: nat, validation: nat, test: nat)
    | Unrepresentable
    | CannotPreserve
    | EmptyClass(class_: nat)
    | AllocationFailed
    | Inconsistent

  // ---------- the importer's own shuffle ----------

  function PlainDraws(state: Word, n: Word): (draws: seq<nat>)
    ensures ValidDraws(n, draws)
    decreases n
  {
    if n <= 1 then
      []
    else
      var next := Advance(state, 1);
      [(Mix(next) % n) as nat] + PlainDraws(next, n - 1)
  }

  /** Draw k is the plain remainder of the k-th output. */
  lemma {:induction false} PlainDrawsAre(state: Word, n: Word, k: nat)
    requires k + 1 < n
    ensures |PlainDraws(state, n)| == n - 1
    ensures PlainDraws(state, n)[k] == Mix(Advance(state, k + 1)) % (n - k)
    decreases n
  {
    hide Mix, Advance;
    if n > 2 {
      var next := Advance(state, 1);
      PlainDrawsAre(next, n - 1, if k == 0 then 0 else k - 1);
      AdvanceAdd(state, 1, k);
    }
  }

  method ShuffleIndices(indices: array<nat>, random: NeuralRandom)
    requires 0 < indices.Length <= SIZE_MAX
    modifies indices, random
    ensures indices[..] == FisherYates(old(indices[..]), PlainDraws(old(random.state), indices.Length))
    ensures random.state == Advance(old(random.state), indices.Length - 1)
  {
    ghost var goal := FisherYates(indices[..], PlainDraws(random.state, indices.Length));
    var count: Word := indices.Length;
    WholeIsPrefix(indices[..]);
    StartsHere(random.state);
    while count > 1
      invariant 1 <= count <= indices.Length
      invariant Progress(indices[..], count, PlainDraws(random.state, count), goal)
      invariant random.state == Advance(old(random.state), indices.Length - count)
    {
      AdvanceAdd(old(random.state), indices.Length - count, 1);
      ghost var before := indices[..];
      ghost var draws := PlainDraws(random.state, count);
      var value := random.NextUint64();
      var selected := value % count;
      indices[count - 1], indices[selected] := indices[selected], indices[count - 1];
      assert indices[..] == Swap(before, count - 1, selected);
      assert draws == [selected as nat] + PlainDraws(random.state, count - 1);
      ShuffleStep(before, count, selected, PlainDraws(random.state, count - 1), goal);
      count := count - 1;
    }
    ProgressEnds(indices[..], PlainDraws(random.state, count), goal);
  }

  // ---------- rows and classes ----------

  function EffectiveClasses(classes: seq<nat>, categorical: bool): (cls: seq<nat>)
    ensures |cls| == |classes|
  {
    if categorical then classes else seq(|classes|, i => 0)
  }

  /** The rows of one class among the first n, in ascending order. */
  ghost function Members(cls: seq<nat>, g: nat, n: nat): (rows: seq<nat>)
    requires n <= |cls|
    ensures |rows| <= n
  {
    if n == 0 then []
    else Members(cls, g, n - 1) + if cls[n - 1] == g then [n - 1] else []
  }

  lemma {:induction false} MembersAre(cls: seq<nat>, g: nat, n: nat)
    requires n <= |cls|
    ensures forall i :: i in Members(cls, g, n) <==> 0 <= i < n && cls[i] == g
    ensures Distinct(Members(cls, g, n))
  {
    if n > 0 {
      MembersAre(cls, g, n - 1);
    }
  }

  lemma {:induction false} MembersAscend(cls: seq<nat>, g: nat, n: nat, i: nat, j: nat)
    requires n <= |cls| && i < j < |Members(cls, g, n)|
    ensures Members(cls, g, n)[i] < Members(cls, g, n)[j]
  {
    MembersAre(cls, g, n - 1);
    if j < |Members(cls, g, n - 1)| {
      MembersAscend(cls, g, n - 1, i, j);
    } else {
      assert Members(cls, g, n - 1)[i] in Members(cls, g, n - 1);
    }
  }

  ghost function ClassSizes(cls: seq<nat>, groups: nat, n: nat): (sizes: seq<nat>)
    requires n <= |cls|
    ensures |sizes| == groups
    ensures forall g :: 0 <= g < groups ==> sizes[g] == |Members(cls, g, n)|
  {
    seq(groups, g requires 0 <= g < groups => |Members(cls, g, n)|)
  }

  lemma {:induction false} ClassesCoverRows(cls: seq<nat>, groups: nat, n: nat)
    requires n <= |cls| && forall i :: 0 <= i < n ==> cls[i] < groups
    ensures Sum(ClassSizes(cls, groups, n)) == n
  {
    hide Sum;
    if n == 0 {
      AllZero(ClassSizes(cls, groups, 0));
    } else {
      ClassesCoverRows(cls, groups, n - 1);
      OneMoreRow(cls, groups, n);
      hide ClassSizes, Members;
      SumUpdate(ClassSizes(cls, groups, n - 1), cls[n - 1], |Members(cls, cls[n - 1], n - 1)| + 1);
    }
  }

  lemma OneMoreRow(cls: seq<nat>, groups: nat, n: nat)
    requires 0 < n <= |cls| && cls[n - 1] < groups
    ensures var c := cls[n - 1];
            ClassSizes(cls, groups, n) == ClassSizes(cls, groups, n - 1)[c := |Members(cls, c, n - 1)| + 1]
  {
  }

  lemma {:induction false} AllZero(s: seq<int>)
    requires forall i :: 0 <= i < |s| ==> s[i] == 0
    ensures Sum(s) == 0
  {
    if s != [] {
      AllZero(s[..|s| - 1]);
    }
  }

  lemma {:induction false} SumOfDifferences(a: seq<int>, b: seq<int>, d: seq<int>)
    requires |a| == |b| == |d| && forall i :: 0 <= i < |a| ==> d[i] == a[i] - 1 - b[i]
    ensures Sum(d) == Sum(a) - |a| - Sum(b)
  {
    if a != [] {
      var n := |a| - 1;
      SumOfDifferences(a[..n], b[..n], d[..n]);
    }
  }

  ghost function RowSet(cls: seq<nat>, labels: seq<Label>, g: nat, l: Label): set<nat>
    requires |labels| == |cls|
  {
    set i: nat | i < |cls| && cls[i] == g && labels[i] == l
  }

  ghost function LabelSet(labels: seq<Label>, n: nat, l: Label): set<nat>
    requires n <= |labels|
  {
    set i: nat | i < n && labels[i] == l
  }

  ghost function LabelCounts(cls: seq<nat>, labels: seq<Label>, groups: nat, l: Label): (counts: seq<int>)
    requires |labels| == |cls|
    ensures |counts| == groups
    ensures forall g :: 0 <= g < groups ==> counts[g] == |RowSet(cls, labels, g, l)|
  {
    seq(groups, g requires 0 <= g < groups => |RowSet(cls, labels, g, l)|)
  }

  ghost function RowsBelow(cls: seq<nat>, labels: seq<Label>, groups: nat, l: Label): set<nat>
    requires |labels| == |cls|
  {
    set i: nat | i < |cls| && cls[i] < groups && labels[i] == l
  }

  lemma {:induction false} LabelsByClass(cls: seq<nat>, labels: seq<Label>, groups: nat, l: Label)
    requires |labels| == |cls|
    ensures |RowsBelow(cls, labels, groups, l)| == Sum(LabelCounts(cls, labels, groups, l))
  {
    if groups == 0 {
      assert RowsBelow(cls, labels, 0, l) == {};
    } else {
      LabelsByClass(cls, labels, groups - 1, l);
      OneMoreClass(cls, labels, groups - 1, l);
      assert LabelCounts(cls, labels, groups, l)[..groups - 1] == LabelCounts(cls, labels, groups - 1, l);
    }
  }

  lemma OneMoreClass(cls: seq<nat>, labels: seq<Label>, g: nat, l: Label)
    requires |labels| == |cls|
    ensures |RowsBelow(cls, labels, g + 1, l)| == |RowsBelow(cls, labels, g, l)| + |RowSet(cls, labels, g, l)|
  {
    var init, row := RowsBelow(cls, labels, g, l), RowSet(cls, labels, g, l);
    assert RowsBelow(cls, labels, g + 1, l) == init + row;
    assert init !! row;
  }

  ghost function Elements(s: seq<nat>): set<nat> {
    set x | x in s
  }

  lemma {:induction false} DistinctSetSize(s: seq<nat>)
    requires Distinct(s)
    ensures |Elements(s)| == |s|
  {
    if s == [] {
      assert Elements(s) == {};
    } else {
      var n := |s| - 1;
      DistinctSetSize(s[..n]);
      assert s == s[..n] + [s[n]];
      assert Elements(s) == Elements(s[..n]) + {s[n]};
      assert s[n] !in Elements(s[..n]);
    }
  }

  // ---------- one class ----------

  /** The rows of a class that carry a label are counted by any list of them. */
  lemma ListedRows(cls: seq<nat>, labels: seq<Label>, g: nat, l: Label, rows: seq<nat>)
    requires |labels| == |cls| && Distinct(rows)
    requires forall i: nat :: i in rows <==> i < |cls| && cls[i] == g && labels[i] == l
    ensures |RowSet(cls, labels, g, l)| == |rows|
  {
    assert RowSet(cls, labels, g, l) == Elements(rows);
    DistinctSetSize(rows);
  }

  lemma ThreeParts(p: seq<nat>, t: nat, u: nat)
    requires Distinct(p) && t <= u <= |p|
    ensures Distinct(p[..t]) && Distinct(p[t..u]) && Distinct(p[u..])
    ensures forall i :: i in p <==> i in p[..t] || i in p[t..u] || i in p[u..]
    ensures forall i :: i in p[..t] ==> i !in p[t..u] && i !in p[u..]
    ensures forall i :: i in p[t..u] ==> i !in p[u..]
  {
    assert p == p[..t] + p[t..u] + p[u..];
  }

  /** The first t shuffled rows are test, the next v validation, the rest stay. */
  lemma ShuffledLabels(cls: seq<nat>, labels: seq<Label>, g: nat, p: seq<nat>, t: nat, v: nat)
    requires |labels| == |cls| && t + v <= |p|
    requires Distinct(p) && forall i: nat :: i in p <==> i < |cls| && cls[i] == g
    requires forall i: nat :: i < |cls| && cls[i] == g ==>
               labels[i] == if i in p[..t] then Test else if i in p[t..t + v] then Validation else Train
    ensures |RowSet(cls, labels, g, Test)| == t
    ensures |RowSet(cls, labels, g, Validation)| == v
    ensures |RowSet(cls, labels, g, Train)| == |p| - t - v
  {
    hide Distinct;
    ThreeParts(p, t, t + v);
    ListedRows(cls, labels, g, Test, p[..t]);
    ListedRows(cls, labels, g, Validation, p[t..t + v]);
    ListedRows(cls, labels, g, Train, p[t + v..]);
  }

  method CollectMembers(classes: seq<nat>, categorical: bool, g: nat, indices: array<nat>)
    requires categorical || g == 0
    requires indices.Length == |Members(EffectiveClasses(classes, categorical), g, |classes|)|
    modifies indices
    ensures indices[..] == Members(EffectiveClasses(classes, categorical), g, |classes|)
  {
    ghost var cls := EffectiveClasses(classes, categorical);
    var count := 0;
    for index := 0 to |classes|
      invariant count <= indices.Length && indices[..count] == Members(cls, g, index)
    {
      MembersGrow(cls, g, index + 1, |classes|);
      if !categorical || classes[index] == g {
        indices[count] := index;
        count := count + 1;
      }
    }
    assert indices[..count] == indices[..];
  }

  lemma {:induction false} MembersGrow(cls: seq<nat>, g: nat, m: nat, n: nat)
    requires m <= n <= |cls|
    ensures |Members(cls, g, m)| <= |Members(cls, g, n)|
    decreases n
  {
    if m < n {
      MembersGrow(cls, g, m, n - 1);
    }
  }

  /** The shuffled rows of one class, and the generator in front of it: the earlier
      classes took one output less than they have rows. */
  ghost function GroupOrder(cls: seq<nat>, g: nat, state: Word): (order: seq<nat>)
    requires |cls| <= SIZE_MAX
    ensures |order| == |Members(cls, g, |cls|)|
  {
    FisherYates(Members(cls, g, |cls|), PlainDraws(state, |Members(cls, g, |cls|)|))
  }

  ghost function Taken(cls: seq<nat>, g: nat): nat {
    if g == 0 then
      0
    else
      var size := |Members(cls, g - 1, |cls|)|;
      Taken(cls, g - 1) + if size == 0 then 0 else size - 1
  }

  /** The first t of the shuffled rows are for testing, the next v for validation. */
  ghost predicate Cut(cls: seq<nat>, labels: seq<Label>, g: nat, order: seq<nat>, t: nat, v: nat) {
    && |labels| == |cls| && t + v <= |order|
    && (forall k :: 0 <= k < |order| ==> order[k] < |labels|)
    && (forall k :: 0 <= k < t ==> labels[order[k]] == Test)
    && (forall k :: t <= k < t + v ==> labels[order[k]] == Validation)
    && (forall k :: t + v <= k < |order| ==> labels[order[k]] == Train)
  }

  /** The swaps that shuffle the rows of a class, by plain remainders of successive
      outputs. */
  ghost predicate ShuffledBy(rows: seq<nat>, state: Word, order: seq<nat>) {
    exists draws, trace ::
      && SwapTrace(rows, draws, trace) && order == trace[|draws|]
      && |draws| == (if rows == [] then 0 else |rows| - 1)
      && forall k :: 0 <= k < |draws| ==> draws[k] == Mix(Advance(state, k + 1)) % (|rows| - k)
  }

  lemma GroupOrderIs(cls: seq<nat>, g: nat, state: Word)
    requires |cls| <= SIZE_MAX
    ensures ShuffledBy(Members(cls, g, |cls|), state, GroupOrder(cls, g, state))
  {
    var rows := Members(cls, g, |cls|);
    var draws := PlainDraws(state, |rows|);
    var trace := FisherYatesTrace(rows, draws);
    assert rows == [] ==> draws == [];
    if |rows| > 1 {
      PlainDrawsAre(state, |rows|, 0);
    }
    forall k | 0 <= k < |draws|
      ensures draws[k] == Mix(Advance(state, k + 1)) % (|rows| - k)
    {
      PlainDrawsAre(state, |rows|, k);
    }
    hide Mix, Advance, PlainDraws, SwapTrace, FisherYates;
    assert |draws| == if rows == [] then 0 else |rows| - 1;
  }

  method ShuffledGroup(classes: seq<nat>, categorical: bool, g: nat, size: Word, random: NeuralRandom)
    returns (indices: array<nat>)
    requires categorical || g == 0
    requires |classes| <= SIZE_MAX
    requires 0 < size == |Members(EffectiveClasses(classes, categorical), g, |classes|)|
    modifies random
    ensures fresh(indices) && indices.Length == size && Distinct(indices[..])
    ensures forall i: nat :: i in indices[..] <==>
              i < |classes| && EffectiveClasses(classes, categorical)[i] == g
    ensures indices[..] == GroupOrder(EffectiveClasses(classes, categorical), g, old(random.state))
    ensures random.state == Advance(old(random.state), size - 1)
  {
    ghost var cls := EffectiveClasses(classes, categorical);
    indices := new nat[size];
    CollectMembers(classes, categorical, g, indices);
    ghost var members := indices[..];
    MembersAre(cls, g, |classes|);
    FisherYatesPermutes(members, PlainDraws(random.state, size));
    ShuffleIndices(indices, random);
    PermutationKeepsDistinct(members, indices[..]);
    SameMembers(members, indices[..]);
  }

  method AssignGroup(classes: seq<nat>, categorical: bool, g: nat, size: Word, t: Word, v: Word,
                     labels: array<Label>, random: NeuralRandom)
    requires categorical || g == 0
    requires labels.Length == |classes| <= SIZE_MAX
    requires 0 < size == |Members(EffectiveClasses(classes, categorical), g, |classes|)|
    requires t + v < size
    requires forall i :: 0 <= i < labels.Length && EffectiveClasses(classes, categorical)[i] == g ==> labels[i] == Train
    modifies labels, random
    ensures var cls := EffectiveClasses(classes, categorical);
            && (forall i :: 0 <= i < labels.Length && cls[i] != g ==> labels[i] == old(labels[i]))
            && |RowSet(cls, labels[..], g, Test)| == t
            && |RowSet(cls, labels[..], g, Validation)| == v
            && |RowSet(cls, labels[..], g, Train)| == size - t - v
            && Cut(cls, labels[..], g, GroupOrder(cls, g, old(random.state)), t, v)
    ensures random.state == Advance(old(random.state), size - 1)
  {
    hide Distinct, Members, RowSet, Cut, GroupOrder, Advance;
    ghost var cls := EffectiveClasses(classes, categorical);
    var indices := ShuffledGroup(classes, categorical, g, size, random);
    ghost var p := indices[..];
    assert forall k :: 0 <= k < |p| ==> p[k] in p;
    MarkRows(indices, 0, t, Test, labels);
    MarkRows(indices, t, t + v, Validation, labels);
    assert indices[..] == p;
    assert indices[0..t] == p[..t] && indices[t..t + v] == p[t..t + v];
    GroupLabelled(cls, labels[..], g, p, t, v);
  }

  lemma GroupLabelled(cls: seq<nat>, labels: seq<Label>, g: nat, p: seq<nat>, t: nat, v: nat)
    requires |labels| == |cls| && t + v <= |p| && Distinct(p)
    requires forall i: nat :: i in p <==> i < |cls| && cls[i] == g
    requires forall i: nat :: i < |cls| && cls[i] == g ==>
               labels[i] == if i in p[t..t + v] then Validation else if i in p[..t] then Test else Train
    ensures |RowSet(cls, labels, g, Test)| == t && |RowSet(cls, labels, g, Validation)| == v
    ensures |RowSet(cls, labels, g, Train)| == |p| - t - v
    ensures Cut(cls, labels, g, p, t, v)
  {
    ThreeParts(p, t, t + v);
    ShuffledLabels(cls, labels, g, p, t, v);
    PartsAreCut(cls, labels, g, p, t, v);
    hide Cut, RowSet, Distinct;
  }

  lemma PartsAreCut(cls: seq<nat>, labels: seq<Label>, g: nat, p: seq<nat>, t: nat, v: nat)
    requires |labels| == |cls| && t + v <= |p| && Distinct(p)
    requires forall i: nat :: i in p <==> i < |cls| && cls[i] == g
    requires forall i: nat :: i < |cls| && cls[i] == g ==>
               labels[i] == if i in p[..t] then Test else if i in p[t..t + v] then Validation else Train
    ensures Cut(cls, labels, g, p, t, v)
  {
    ThreeParts(p, t, t + v);
    forall k | 0 <= k < |p|
      ensures p[k] < |labels|
      ensures labels[p[k]] == if k < t then Test else if k < t + v then Validation else Train
    {
      assert p[k] in p;
      if k < t {
        assert p[k] == p[..t][k];
      } else if k < t + v {
        assert p[k] == p[t..t + v][k - t];
      } else {
        assert p[k] == p[t + v..][k - t - v];
      }
    }
    hide Distinct;
  }

  method MarkRows(rows: array<nat>, from: nat, to: nat, label_: Label, labels: array<Label>)
    requires from <= to <= rows.Length
    requires forall k :: 0 <= k < rows.Length ==> rows[k] < labels.Length
    modifies labels
    ensures forall i :: 0 <= i < labels.Length ==>
              labels[i] == if i in rows[from..to] then label_ else old(labels[i])
  {
    for k := from to to
      invariant forall i :: 0 <= i < labels.Length ==>
                  labels[i] == if i in rows[from..k] then label_ else old(labels[i])
    {
      assert rows[from..k + 1] == rows[from..k] + [rows[k]];
      labels[rows[k]] := label_;
    }
  }

  lemma SameMembers(a: seq<nat>, b: seq<nat>)
    requires multiset(a) == multiset(b)
    ensures forall i :: i in a <==> i in b
  {
    forall i
      ensures i in a <==> i in b
    {
      assert i in a <==> i in multiset(a);
      assert i in b <==> i in multiset(b);
    }
  }

  // ---------- the split ----------

  /** floor(count * ratio) */
  function RatioCount(count: nat, ratio: real): (target: int)
    requires ratio >= 0.0
    ensures 0 <= target && target as real <= count as real * ratio < target as real + 1.0
  {
    ProductNonNegative(count, ratio);
    (count as real * ratio).Floor
  }

  lemma ProductNonNegative(count: nat, ratio: real)
    requires ratio >= 0.0
    ensures count as real * ratio >= 0.0
  {
  }

  datatype SplitConfig = SplitConfig(testRatio: real, validationRatio: real, seed: Word) {
    predicate Valid() {
      testRatio >= 0.0 && validationRatio >= 0.0 && testRatio + validationRatio < 1.0
    }
  }

  ghost predicate RoundsDown(x: real, n: int) {
    n as real <= x < n as real + 1.0
  }

  /** A ratio that asks for rows but rounds down to none. */
  ghost predicate Vanishes(n: nat, ratio: real)
    requires ratio >= 0.0
  {
    ratio > 0.0 && RatioCount(n, ratio) == 0
  }

  ghost predicate Feasible(n: nat, groups: nat, config: SplitConfig)
    requires config.Valid()
  {
    groups + RatioCount(n, config.testRatio) + RatioCount(n, config.validationRatio) <= n
  }

  ghost predicate Stratified(cls: seq<nat>, labels: seq<Label>, groups: nat, test: seq<int>, validation: seq<int>)
    requires |labels| == |cls| && |test| == |validation| == groups
  {
    forall g :: 0 <= g < groups ==>
      && |RowSet(cls, labels, g, Test)| == test[g]
      && |RowSet(cls, labels, g, Validation)| == validation[g]
      && |RowSet(cls, labels, g, Train)| == |Members(cls, g, |cls|)| - test[g] - validation[g]
      && |RowSet(cls, labels, g, Train)| >= 1
  }

  method CountClasses(classes: seq<nat>, categorical: bool, groups: nat) returns (sizes: array<Word>)
    requires |classes| <= SIZE_MAX
    requires forall i :: 0 <= i < |classes| ==> EffectiveClasses(classes, categorical)[i] < groups
    ensures fresh(sizes) && sizes.Length == groups
    ensures sizes[..] == ClassSizes(EffectiveClasses(classes, categorical), groups, |classes|)
  {
    ghost var cls := EffectiveClasses(classes, categorical);
    sizes := new Word[groups](g => 0);
    for row := 0 to |classes|
      invariant forall g :: 0 <= g < groups ==> sizes[g] == |Members(cls, g, row)|
    {
      var c := if categorical then classes[row] else 0;
      assert c == cls[row];
      sizes[c] := sizes[c] + 1;
    }
  }

  method CountLabels(labels: array<Label>) returns (training: nat, validation: nat, test: nat)
    ensures test == |LabelSet(labels[..], labels.Length, Test)|
    ensures validation == |LabelSet(labels[..], labels.Length, Validation)|
    ensures training + validation + test == labels.Length
  {
    training, validation, test := 0, 0, 0;
    for row := 0 to labels.Length
      invariant test == |LabelSet(labels[..], row, Test)|
      invariant validation == |LabelSet(labels[..], row, Validation)|
      invariant training + validation + test == row
    {
      OneMoreLabel(labels[..], row, Test);
      OneMoreLabel(labels[..], row, Validation);
      if labels[row] == Test {
        test := test + 1;
      } else if labels[row] == Validation {
        validation := validation + 1;
      } else {
        training := training + 1;
      }
    }
  }

  lemma OneMoreLabel(labels: seq<Label>, n: nat, l: Label)
    requires n < |labels|
    ensures |LabelSet(labels, n + 1, l)| == |LabelSet(labels, n, l)| + if labels[n] == l then 1 else 0
    ensures |LabelSet(labels, 0, l)| == 0
  {
    var next := if labels[n] == l then {n} else {};
    assert LabelSet(labels, n + 1, l) == LabelSet(labels, n, l) + next;
    assert LabelSet(labels, 0, l) == {};
  }

  /** A count per class that the fair allocation produces. */
  ghost predicate FairShare(sizes: seq<nat>, reserved: seq<nat>, n: Word, target: Word, counts: seq<int>) {
    var q := Request(sizes, reserved, n, target);
    q.Valid() && Within(q, counts) && Fair(q, counts) && LargestRemainder(sizes, reserved, n, target, counts)
  }

  ghost predicate FairShares(cls: seq<nat>, groups: nat, testTarget: Word, validationTarget: Word,
                             test: seq<nat>, validation: seq<nat>) {
    && |cls| <= SIZE_MAX
    && FairShare(ClassSizes(cls, groups, |cls|), seq(groups, g => 0), |cls|, testTarget, test)
    && FairShare(ClassSizes(cls, groups, |cls|), test, |cls|, validationTarget, validation)
  }

  /** Both allocations succeed once the split is feasible and no class is empty. */
  method AllocateBoth(sizes: array<Word>, n: Word, testTarget: Word, validationTarget: Word,
                      testCounts: array<Word>, validationCounts: array<Word>) returns (ok: bool)
    requires sizes.Length == testCounts.Length == validationCounts.Length
    requires sizes != testCounts && sizes != validationCounts && testCounts != validationCounts
    requires 0 < n && Sum(sizes[..]) == n && forall g :: 0 <= g < sizes.Length ==> 0 < sizes[g] <= n
    requires sizes.Length + testTarget + validationTarget <= n
    modifies testCounts, validationCounts
    ensures ok
    ensures Sum(testCounts[..]) == testTarget && Sum(validationCounts[..]) == validationTarget
    ensures forall g :: 0 <= g < sizes.Length ==> testCounts[g] as int + validationCounts[g] as int < sizes[g] as int
    ensures FairShare(sizes[..], seq(sizes.Length, g => 0), n, testTarget, testCounts[..])
    ensures FairShare(sizes[..], testCounts[..], n, validationTarget, validationCounts[..])
  {
    var none: seq<nat> := seq(sizes.Length, g => 0);
    var first := Request(sizes[..], none, n, testTarget);
    AllZero(none);
    SumOfDifferences(sizes[..], none, first.Capacities());
    var outcome := AllocateStratified(first, testCounts);
    if outcome != Allocated {
      return false;
    }
    assert forall g :: 0 <= g < sizes.Length ==> testCounts[..][g] <= first.Capacity(g);
    var second := Request(sizes[..], testCounts[..], n, validationTarget);
    assert second.Valid();
    SumOfDifferences(sizes[..], testCounts[..], second.Capacities());
    outcome := AllocateStratified(second, validationCounts);
    if outcome != Allocated {
      return false;
    }
    assert forall g :: 0 <= g < sizes.Length ==> validationCounts[..][g] <= second.Capacity(g);
    return true;
  }

  /** Which rows are chosen: those in front of each class's own shuffle, from one
      generator that starts at the seed. */
  ghost predicate Chosen(cls: seq<nat>, labels: seq<Label>, groups: nat, test: seq<int>, validation: seq<int>,
                         seed: Word)
    requires |cls| <= SIZE_MAX
  {
    && |test| >= groups && |validation| >= groups
    && forall g :: 0 <= g < groups ==>
         && test[g] >= 0 && validation[g] >= 0
         && Cut(cls, labels, g, GroupOrder(cls, g, Advance(seed, Taken(cls, g))), test[g], validation[g])
  }

  /** The same, with the shuffle spelled out. */
  ghost predicate ChosenBySeed(cls: seq<nat>, labels: seq<Label>, groups: nat, test: seq<int>, validation: seq<int>,
                               seed: Word)
  {
    && |test| == |validation| == groups
    && forall g :: 0 <= g < groups ==>
         && test[g] >= 0 && validation[g] >= 0
         && ChosenGroup(cls, labels, g, Advance(seed, Taken(cls, g)), test[g], validation[g])
  }

  ghost predicate ChosenGroup(cls: seq<nat>, labels: seq<Label>, g: nat, state: Word, t: nat, v: nat) {
    exists order :: ShuffledBy(Members(cls, g, |cls|), state, order) && Cut(cls, labels, g, order, t, v)
  }

  lemma CutIsChosen(cls: seq<nat>, labels: seq<Label>, g: nat, state: Word, t: nat, v: nat)
    requires |cls| <= SIZE_MAX && Cut(cls, labels, g, GroupOrder(cls, g, state), t, v)
    ensures ChosenGroup(cls, labels, g, state, t, v)
  {
    GroupOrderIs(cls, g, state);
    hide ShuffledBy, Cut, GroupOrder, Members;
  }

  lemma ChosenIsBySeed(cls: seq<nat>, labels: seq<Label>, groups: nat, test: seq<int>, validation: seq<int>, seed: Word)
    requires |cls| <= SIZE_MAX && |test| == |validation| == groups
    requires Chosen(cls, labels, groups, test, validation, seed)
    ensures ChosenBySeed(cls, labels, groups, test, validation, seed)
  {
    hide Cut, ChosenGroup, GroupOrder, Advance, Taken;
    forall g | 0 <= g < groups
      ensures test[g] >= 0 && validation[g] >= 0
      ensures ChosenGroup(cls, labels, g, Advance(seed, Taken(cls, g)), test[g], validation[g])
    {
      CutIsChosen(cls, labels, g, Advance(seed, Taken(cls, g)), test[g], validation[g]);
    }
  }

  lemma ChosenGrows(cls: seq<nat>, before: seq<Label>, after: seq<Label>, group: nat, test: seq<int>,
                    validation: seq<int>, seed: Word)
    requires |cls| <= SIZE_MAX && |before| == |after| == |cls|
    requires Chosen(cls, before, group, test, validation, seed) && group < |test| && group < |validation|
    requires test[group] >= 0 && validation[group] >= 0
    requires forall i :: 0 <= i < |cls| && cls[i] != group ==> after[i] == before[i]
    requires Cut(cls, after, group, GroupOrder(cls, group, Advance(seed, Taken(cls, group))), test[group],
                 validation[group])
    ensures Chosen(cls, after, group + 1, test, validation, seed)
  {
    hide Cut, GroupOrder, Advance, Taken;
    forall g | 0 <= g < group
      ensures Cut(cls, after, g, GroupOrder(cls, g, Advance(seed, Taken(cls, g))), test[g], validation[g])
    {
      RowsOfOrder(cls, g, Advance(seed, Taken(cls, g)));
      CutKept(cls, before, after, g, group, GroupOrder(cls, g, Advance(seed, Taken(cls, g))), test[g], validation[g]);
    }
  }

  lemma NothingChosen(cls: seq<nat>, labels: seq<Label>, test: seq<int>, validation: seq<int>, seed: Word)
    requires |cls| <= SIZE_MAX && |labels| == |cls| && |test| == |validation|
    ensures Chosen(cls, labels, 0, test, validation, seed)
    ensures Stratified(cls, labels, 0, test[..0], validation[..0])
  {
  }

  lemma CutKept(cls: seq<nat>, before: seq<Label>, after: seq<Label>, g: nat, group: nat, order: seq<nat>, t: nat,
                v: nat)
    requires |before| == |after| == |cls| && g != group && Cut(cls, before, g, order, t, v)
    requires forall k :: 0 <= k < |order| ==> order[k] < |cls| && cls[order[k]] == g
    requires forall i :: 0 <= i < |cls| && cls[i] != group ==> after[i] == before[i]
    ensures Cut(cls, after, g, order, t, v)
  {
  }

  lemma RowsOfOrder(cls: seq<nat>, g: nat, state: Word)
    requires |cls| <= SIZE_MAX
    ensures forall k :: 0 <= k < |GroupOrder(cls, g, state)| ==>
              GroupOrder(cls, g, state)[k] < |cls| && cls[GroupOrder(cls, g, state)[k]] == g
  {
    var rows := Members(cls, g, |cls|);
    MembersAre(cls, g, |cls|);
    FisherYatesPermutes(rows, PlainDraws(state, |rows|));
    var order := GroupOrder(cls, g, state);
    SameMembers(rows, order);
    assert forall k :: 0 <= k < |order| ==> order[k] in order;
    hide FisherYates, Members;
  }

  method MarkGroups(classes: seq<nat>, categorical: bool, sizes: array<Word>, testCounts: array<Word>,
                    validationCounts: array<Word>, labels: array<Label>, random: NeuralRandom)
    requires sizes.Length == testCounts.Length == validationCounts.Length
    requires categorical || sizes.Length == 1
    requires labels.Length == |classes| <= SIZE_MAX
    requires sizes[..] == ClassSizes(EffectiveClasses(classes, categorical), sizes.Length, |classes|)
    requires forall g :: 0 <= g < sizes.Length ==>
               testCounts[g] as int + validationCounts[g] as int < sizes[g] as int
    requires forall i :: 0 <= i < labels.Length ==> labels[i] == Train
    modifies labels, random
    ensures Stratified(EffectiveClasses(classes, categorical), labels[..], sizes.Length,
                       testCounts[..], validationCounts[..])
    ensures Chosen(EffectiveClasses(classes, categorical), labels[..], sizes.Length, testCounts[..],
                   validationCounts[..], old(random.state))
  {
    hide Cut, GroupOrder, Advance, Chosen, Stratified, RowSet, Members;
    ghost var cls := EffectiveClasses(classes, categorical);
    StartsHere(random.state);
    NothingChosen(cls, labels[..], testCounts[..], validationCounts[..], random.state);
    for group := 0 to sizes.Length
      invariant random.state == Advance(old(random.state), Taken(cls, group))
      invariant Chosen(cls, labels[..], group, testCounts[..], validationCounts[..], old(random.state))
      invariant forall i :: 0 <= i < labels.Length && cls[i] >= group ==> labels[i] == Train
      invariant Stratified(cls, labels[..], group, testCounts[..group], validationCounts[..group])
    {
      ghost var before := labels[..];
      assert sizes[..][group] == |Members(cls, group, |classes|)|;
      AssignGroup(classes, categorical, group, sizes[group], testCounts[group], validationCounts[group],
                  labels, random);
      StratifiedGrows(cls, before, labels[..], group, testCounts[..], validationCounts[..]);
      ChosenGrows(cls, before, labels[..], group, testCounts[..], validationCounts[..], old(random.state));
      AdvanceAdd(old(random.state), Taken(cls, group), sizes[group] - 1);
    }
    assert testCounts[..sizes.Length] == testCounts[..];
    assert validationCounts[..sizes.Length] == validationCounts[..];
  }

  lemma StratifiedGrows(cls: seq<nat>, before: seq<Label>, after: seq<Label>, group: nat,
                        test: seq<int>, validation: seq<int>)
    requires |before| == |after| == |cls| && group < |test| == |validation|
    requires Stratified(cls, before, group, test[..group], validation[..group])
    requires forall i :: 0 <= i < |cls| && cls[i] != group ==> after[i] == before[i]
    requires |RowSet(cls, after, group, Test)| == test[group]
    requires |RowSet(cls, after, group, Validation)| == validation[group]
    requires |RowSet(cls, after, group, Train)| == |Members(cls, group, |cls|)| - test[group] - validation[group]
    requires |RowSet(cls, after, group, Train)| >= 1
    ensures Stratified(cls, after, group + 1, test[..group + 1], validation[..group + 1])
  {
    forall g, l | 0 <= g < group
      ensures RowSet(cls, after, g, l) == RowSet(cls, before, g, l)
    {
    }
  }

  lemma Totals(cls: seq<nat>, labels: seq<Label>, groups: nat, l: Label, counts: seq<int>)
    requires |labels| == |cls| && |counts| == groups && forall i :: 0 <= i < |cls| ==> cls[i] < groups
    requires forall g :: 0 <= g < groups ==> |RowSet(cls, labels, g, l)| == counts[g]
    ensures |LabelSet(labels, |labels|, l)| == Sum(counts)
  {
    LabelsByClass(cls, labels, groups, l);
    assert LabelCounts(cls, labels, groups, l) == counts;
    assert LabelSet(labels, |labels|, l) == RowsBelow(cls, labels, groups, l);
  }

  lemma TotalsMet(cls: seq<nat>, labels: seq<Label>, groups: nat, test: seq<int>, validation: seq<int>)
    requires |labels| == |cls| && |test| == |validation| == groups && forall i :: 0 <= i < |cls| ==> cls[i] < groups
    requires Stratified(cls, labels, groups, test, validation)
    ensures |LabelSet(labels, |cls|, Test)| == Sum(test) && |LabelSet(labels, |cls|, Validation)| == Sum(validation)
  {
    Totals(cls, labels, groups, Test, test);
    Totals(cls, labels, groups, Validation, validation);
  }

  /** Totals hit their targets, every class holds its allocated share of each
      subset, and keeps at least one training row. */
  ghost predicate Exact(cls: seq<nat>, r: SplitResult, groups: nat, testTarget: int, validationTarget: int,
                        test: seq<int>, validation: seq<int>)
    requires r.Ok?
  {
    && |r.labels| == |cls| && |test| == |validation| == groups
    && r.test == testTarget == |LabelSet(r.labels, |cls|, Test)|
    && r.validation == validationTarget == |LabelSet(r.labels, |cls|, Validation)|
    && r.training + r.validation + r.test == |cls|
    && Sum(test) == testTarget && Sum(validation) == validationTarget
    && Stratified(cls, r.labels, groups, test, validation)
  }

  /** After the guards nothing can go wrong: the quota arithmetic and the final
      consistency check never refuse. */
  method SplitRows(classes: seq<nat>, categorical: bool, sizes: array<Word>,
                   testTarget: Word, validationTarget: Word, seed: Word)
    returns (r: SplitResult, testCounts: array<Word>, validationCounts: array<Word>)
    requires 0 < |classes| <= SIZE_MAX
    requires categorical || sizes.Length == 1
    requires forall i :: 0 <= i < |classes| ==> EffectiveClasses(classes, categorical)[i] < sizes.Length
    requires sizes[..] == ClassSizes(EffectiveClasses(classes, categorical), sizes.Length, |classes|)
    requires forall g :: 0 <= g < sizes.Length ==> sizes[g] > 0
    requires 0 < sizes.Length && sizes.Length + testTarget + validationTarget <= |classes|
    ensures r.Ok? && Exact(EffectiveClasses(classes, categorical), r, sizes.Length,
                           testTarget, validationTarget, testCounts[..], validationCounts[..])
    ensures FairShares(EffectiveClasses(classes, categorical), sizes.Length, testTarget, validationTarget,
                       testCounts[..], validationCounts[..])
    ensures ChosenBySeed(EffectiveClasses(classes, categorical), r.labels, sizes.Length, testCounts[..],
                         validationCounts[..], seed)
  {
    hide Chosen, ChosenBySeed, FairShare, LabelSet;
    var n := |classes|;
    ghost var cls := EffectiveClasses(classes, categorical);
    ClassesCoverRows(cls, sizes.Length, n);
    testCounts := new Word[sizes.Length](g => 0);
    validationCounts := new Word[sizes.Length](g => 0);
    assert forall g :: 0 <= g < sizes.Length ==> sizes[g] == sizes[..][g] == |Members(cls, g, n)|;
    var ok := AllocateBoth(sizes, n, testTarget, validationTarget, testCounts, validationCounts);
    if !ok {
      return AllocationFailed, testCounts, validationCounts;
    }
    ghost var test0, validation0 := testCounts[..], validationCounts[..];
    assert FairShares(cls, sizes.Length, testTarget, validationTarget, test0, validation0);
    hide FairShares, Stratified;
    var labels := new Label[n](i => Train);
    var random := new NeuralRandom(seed);
    MarkGroups(classes, categorical, sizes, testCounts, validationCounts, labels, random);
    assert testCounts[..] == test0 && validationCounts[..] == validation0;
    ghost var marked := labels[..];
    ChosenIsBySeed(cls, marked, sizes.Length, test0, validation0, seed);
    var training, validation, test := CountLabels(labels);
    TotalsMet(cls, marked, sizes.Length, test0, validation0);
    if training == 0 || test != testTarget || validation != validationTarget {
      return Inconsistent, testCounts, validationCounts;
    }
    r := Ok(labels[..], training, validation, test);
  }

  ghost predicate Refused(n: nat, config: SplitConfig)
    requires config.Valid()
  {
    Vanishes(n, config.testRatio) || Vanishes(n, config.validationRatio)
  }

  lemma VanishesIff(n: nat, ratio: real)
    requires n > 0 && ratio >= 0.0
    ensures Vanishes(n, ratio) <==> 0.0 < Part(n, ratio) < 1.0
    ensures RoundsDown(Part(n, ratio), RatioCount(n, ratio))
  {
    if ratio > 0.0 {
      PositiveProduct(n as real, ratio);
    }
  }

  ghost function Part(n: nat, ratio: real): real {
    n as real * ratio
  }

  /** What the ratios alone decide. */
  ghost predicate ByRatios(n: nat, groups: nat, config: SplitConfig, r: SplitResult) {
    var test, validation := Part(n, config.testRatio), Part(n, config.validationRatio);
    && (r.Unrepresentable? <==> 0.0 < test < 1.0 || 0.0 < validation < 1.0)
    && (r.CannotPreserve? ==>
          exists t, v :: RoundsDown(test, t) && RoundsDown(validation, v) && groups + t + v > n)
    && (r.EmptyClass? ==>
          exists t, v :: RoundsDown(test, t) && RoundsDown(validation, v) && groups + t + v <= n)
    && (r.Ok? ==>
          RoundsDown(test, r.test) && RoundsDown(validation, r.validation) && groups + r.test + r.validation <= n)
  }

  lemma RefusedByRatios(n: nat, groups: nat, config: SplitConfig, r: SplitResult)
    requires n > 0 && config.Valid() && !r.Ok?
    requires r.Unrepresentable? <==> Refused(n, config)
    requires r.CannotPreserve? ==> !Feasible(n, groups, config)
    requires r.EmptyClass? ==> Feasible(n, groups, config)
    ensures ByRatios(n, groups, config, r)
  {
    hide RatioCount, RoundsDown, Part;
    VanishesIff(n, config.testRatio);
    VanishesIff(n, config.validationRatio);
    var t, v := RatioCount(n, config.testRatio), RatioCount(n, config.validationRatio);
    assert RoundsDown(Part(n, config.testRatio), t) && RoundsDown(Part(n, config.validationRatio), v);
  }

  lemma AcceptedByRatios(cls: seq<nat>, groups: nat, config: SplitConfig, r: SplitResult, test: seq<int>,
                         validation: seq<int>)
    requires |cls| > 0 && config.Valid() && r.Ok?
    requires !Refused(|cls|, config) && Feasible(|cls|, groups, config)
    requires Exact(cls, r, groups, RatioCount(|cls|, config.testRatio), RatioCount(|cls|, config.validationRatio),
                   test, validation)
    ensures ByRatios(|cls|, groups, config, r)
  {
    hide RatioCount, RoundsDown, Part, Stratified;
    VanishesIff(|cls|, config.testRatio);
    VanishesIff(|cls|, config.validationRatio);
  }

  lemma PositiveProduct(a: real, b: real)
    requires a > 0.0 && b > 0.0
    ensures a * b > 0.0
  {
  }

  /** Every accepted split is exact; a refused one was refused because a ratio
      rounds to nothing, because the targets leave no training row per class, or
      because a class has no row, and for no other reason. */
  method CreateSplit(classes: seq<nat>, categorical: bool, classCount: Word, config: SplitConfig)
    returns (r: SplitResult, testCounts: array<Word>, validationCounts: array<Word>)
    requires config.Valid()
    requires 0 < |classes| <= SIZE_MAX
    requires categorical ==> classCount > 0 && forall i :: 0 <= i < |classes| ==> classes[i] < classCount
    ensures var cls := EffectiveClasses(classes, categorical);
            var groups: nat := if categorical then classCount else 1;
            var n := |classes|;
            && (r.Unrepresentable? <==> Refused(n, config))
            && (r.CannotPreserve? <==> !Refused(n, config) && !Feasible(n, groups, config))
            && (r.EmptyClass? <==> !Refused(n, config) && Feasible(n, groups, config)
                                   && exists g :: 0 <= g < groups && Members(cls, g, n) == [])
            && !r.AllocationFailed? && !r.Inconsistent?
            && (r.Ok? ==>
                  var testTarget, validationTarget := RatioCount(n, config.testRatio),
                      RatioCount(n, config.validationRatio);
                  && Exact(cls, r, groups, testTarget, validationTarget, testCounts[..], validationCounts[..])
                  && FairShares(cls, groups, testTarget, validationTarget, testCounts[..], validationCounts[..])
                  && ChosenBySeed(cls, r.labels, groups, testCounts[..], validationCounts[..], config.seed))
    ensures ByRatios(|classes|, if categorical then classCount else 1, config, r)
  {
    hide Exact, FairShares, RatioCount, ChosenBySeed, ByRatios;
    var n := |classes|;
    ghost var cls := EffectiveClasses(classes, categorical);
    var groups: nat := if categorical then classCount else 1;
    testCounts := new Word[0];
    validationCounts := testCounts;
    var testTarget := RatioCount(n, config.testRatio);
    var validationTarget := RatioCount(n, config.validationRatio);
    if (config.testRatio > 0.0 && testTarget == 0) || (config.validationRatio > 0.0 && validationTarget == 0) {
      RefusedByRatios(n, groups, config, Unrepresentable);
      return Unrepresentable, testCounts, validationCounts;
    }
    if groups > n || testTarget > n - groups || validationTarget > n - groups - testTarget {
      RefusedByRatios(n, groups, config, CannotPreserve);
      return CannotPreserve, testCounts, validationCounts;
    }
    var sizes := CountClasses(classes, categorical, groups);
    for group := 0 to groups
      invariant forall g :: 0 <= g < group ==> sizes[g] > 0
    {
      assert sizes[..][group] == |Members(cls, group, n)|;
      if sizes[group] == 0 {
        RefusedByRatios(n, groups, config, EmptyClass(group));
        return EmptyClass(group), testCounts, validationCounts;
      }
    }
    forall g | 0 <= g < groups
      ensures Members(cls, g, n) != []
    {
      assert sizes[..][g] == |Members(cls, g, n)|;
    }
    r, testCounts, validationCounts :=
      SplitRows(classes, categorical, sizes, testTarget, validationTarget, config.seed);
    AcceptedByRatios(cls, groups, config, r, testCounts[..], validationCounts[..]);
  }
}
