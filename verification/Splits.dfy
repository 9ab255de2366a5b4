/** Holdout and pilot selection, and the SFT and RL splits built on them. Positions are
    exact quotients; `is_bad_task` is a parameter. */
module Splits {
  import opened Arithmetic
  import opened Plans
  import opened Sorting
  import opened Text

  function SortedTasks(tasks: seq<string>): seq<string> {
    Sorted(LessText, tasks)
  }

  // ---- the holdout positions --------------------------------------------------------------

  /** The midpoint of the i-th of `h` equal buckets: floor((i + 1/2) * n / h). */
  function Midpoint(i: nat, n: nat, h: nat): int
    requires h > 0
  {
    ((2 * i + 1) * n) / (2 * h)
  }

  /** Neighbouring midpoints are floor(n/h) or ceil(n/h) apart. */
  lemma MidpointGap(i: nat, n: nat, h: nat)
    requires 0 < h
    ensures var gap := Midpoint(i + 1, n, h) - Midpoint(i, n, h); gap == n / h || (n % h > 0 && gap == n / h + 1)
  {
    NextOddMultiple(i, n);
    ScaledOrder(n, 0, 2 * i + 1);
    BucketShift((2 * i + 1) * n, n, h, n / h, n % h);
  }

  lemma NextOddMultiple(i: nat, n: nat)
    ensures (2 * (i + 1) + 1) * n == (2 * i + 1) * n + 2 * n
  {
  }

  lemma BucketShift(a: nat, n: nat, h: nat, q: nat, r: nat)
    requires h > 0 && r < h && n == h * q + r
    ensures var gap := (a + 2 * n) / (2 * h) - a / (2 * h); gap == q || (r > 0 && gap == q + 1)
  {
    Doubled(h, q);
    QuotientShift(a, 2 * h, q, 2 * r);
  }

  lemma Doubled(h: nat, q: nat)
    ensures (2 * h) * q == 2 * (h * q)
  {
  }

  /** Every midpoint is a position of the list. */
  lemma MidpointInRange(i: nat, n: nat, h: nat)
    requires i < h && n > 0
    ensures 0 <= Midpoint(i, n, h) < n
  {
    ScaledOrder(n, 0, 2 * i + 1);
    ScaledOrder(n, 2 * i + 1, 2 * h);
    QuotientBelow((2 * i + 1) * n, 2 * h, n);
  }

  /** With no more buckets than tasks the midpoints increase strictly. */
  lemma {:induction false} MidpointsIncrease(i: nat, j: nat, n: nat, h: nat)
    requires 0 < h <= n && i < j
    ensures Midpoint(i, n, h) < Midpoint(j, n, h)
    decreases j - i
  {
    MidpointGap(j - 1, n, h);
    ScaledOrder(h, n / h, 0);
    if i < j - 1 {
      MidpointsIncrease(i, j - 1, n, h);
    }
  }

  // ---- the holdout ------------------------------------------------------------------------

  lemma SortedFacts(tasks: seq<string>)
    ensures |SortedTasks(tasks)| == |tasks| && multiset(SortedTasks(tasks)) == multiset(tasks)
    ensures forall t :: t in SortedTasks(tasks) <==> t in tasks
    ensures NoDuplicates(tasks) ==> NoDuplicates(SortedTasks(tasks))
  {
    TextOrderIsTotal();
    SortedIsOrdered(LessText, tasks);
    forall t ensures t in SortedTasks(tasks) <==> t in tasks {
      assert t in SortedTasks(tasks) <==> t in multiset(SortedTasks(tasks));
      assert t in tasks <==> t in multiset(tasks);
    }
    if NoDuplicates(tasks) {
      PermutedDistinct(tasks, SortedTasks(tasks));
    }
  }

  /** The entries of `sorted` at the first `k` midpoints. */
  function AtMidpoints(sorted: seq<string>, h: nat, k: nat): (picked: seq<string>)
    requires k <= h && sorted != []
    ensures |picked| == k
  {
    if k == 0 then []
    else
      MidpointInRange(k - 1, |sorted|, h);
      AtMidpoints(sorted, h, k - 1) + [sorted[Midpoint(k - 1, |sorted|, h)]]
  }

  /** First occurrences only. */
  function Deduped(s: seq<string>): seq<string> {
    if s == [] then []
    else
      var before, last := Deduped(s[..|s| - 1]), s[|s| - 1];
      if last in before then before else before + [last]
  }

  /** What stable_even_holdout returns. */
  function Holdout(tasks: seq<string>, h: int): seq<string> {
    if h <= 0 then []
    else if h >= |tasks| then SortedTasks(tasks)
    else
      SortedFacts(tasks);
      Deduped(AtMidpoints(SortedTasks(tasks), h, h))
  }

  lemma {:induction false} MidpointEntries(sorted: seq<string>, h: nat, k: nat, i: nat)
    requires i < k <= h && sorted != []
    ensures 0 <= Midpoint(i, |sorted|, h) < |sorted|
    ensures AtMidpoints(sorted, h, k)[i] == sorted[Midpoint(i, |sorted|, h)]
  {
    MidpointInRange(i, |sorted|, h);
    if i < k - 1 {
      MidpointEntries(sorted, h, k - 1, i);
    }
  }

  lemma {:induction false} DedupedFacts(s: seq<string>)
    ensures NoDuplicates(Deduped(s)) && (forall t :: t in Deduped(s) <==> t in s)
    ensures NoDuplicates(s) ==> Deduped(s) == s
  {
    if s != [] {
      var init, last := s[..|s| - 1], s[|s| - 1];
      DedupedFacts(init);
      assert s == init + [last];
      if NoDuplicates(s) {
        assert forall i :: 0 <= i < |init| ==> s[i] == init[i] && s[i] != s[|init|];
      }
    }
  }

  lemma MidpointsDistinct(sorted: seq<string>, h: nat)
    requires NoDuplicates(sorted) && 0 < h <= |sorted|
    ensures NoDuplicates(AtMidpoints(sorted, h, h))
  {
    var picked := AtMidpoints(sorted, h, h);
    forall i, j | 0 <= i < j < |picked| ensures picked[i] != picked[j] {
      MidpointEntries(sorted, h, h, i);
      MidpointEntries(sorted, h, h, j);
      MidpointsIncrease(i, j, |sorted|, h);
    }
  }

  predicate SitsAt(picked: seq<string>, i: int, list: seq<string>, at: int) {
    0 <= i < |picked| && 0 <= at < |list| && picked[i] == list[at]
  }

  /** Of distinct tasks exactly `h` are held out, evenly spread over the sorted list. */
  lemma HoldoutIsEven(tasks: seq<string>, h: int)
    requires NoDuplicates(tasks) && 0 < h < |tasks|
    ensures |Holdout(tasks, h)| == h && NoDuplicates(Holdout(tasks, h))
    ensures forall i :: 0 <= i < h ==> SitsAt(Holdout(tasks, h), i, SortedTasks(tasks), Midpoint(i, |tasks|, h))
  {
    SortedFacts(tasks);
    var sorted := SortedTasks(tasks);
    MidpointsDistinct(sorted, h);
    DedupedFacts(AtMidpoints(sorted, h, h));
    forall i | 0 <= i < h ensures SitsAt(Holdout(tasks, h), i, sorted, Midpoint(i, |tasks|, h)) {
      MidpointEntries(sorted, h, h, i);
    }
  }

  /** The holdout does not depend on the order the tasks come in. */
  lemma HoldoutForgetsOrder(a: seq<string>, b: seq<string>, h: int)
    requires multiset(a) == multiset(b)
    ensures Holdout(a, h) == Holdout(b, h)
  {
    TextOrderIsTotal();
    SortedForgetsOrder(LessText, a, b);
    assert |multiset(a)| == |a| && |multiset(b)| == |b|;
  }

  lemma HoldoutMembers(tasks: seq<string>, h: int)
    ensures forall t :: t in Holdout(tasks, h) ==> t in tasks
    ensures NoDuplicates(tasks) ==> NoDuplicates(Holdout(tasks, h))
  {
    SortedFacts(tasks);
    if 0 < h < |tasks| {
      var sorted := SortedTasks(tasks);
      var picked := AtMidpoints(sorted, h, h);
      DedupedFacts(picked);
      forall t | t in picked ensures t in sorted {
        var i :| 0 <= i < |picked| && picked[i] == t;
        MidpointEntries(sorted, h, h, i);
      }
    }
  }

  // ---- train and test ---------------------------------------------------------------------

  function InSeq(s: seq<string>): string -> bool {
    (t: string) => t in s
  }

  /** `[t for t in s if t not in gone]` */
  function Without(s: seq<string>, gone: seq<string>): seq<string> {
    Pick(s, InSeq(gone), false)
  }

  /** split_even: the train list; the test list is the holdout. */
  function EvenTrain(tasks: seq<string>, h: int): seq<string> {
    Without(SortedTasks(tasks), Holdout(tasks, h))
  }

  lemma {:induction false} PickBothSides(s: seq<string>, p: string -> bool)
    ensures |Pick(s, p, true)| + |Pick(s, p, false)| == |s|
  {
    if s != [] {
      PickBothSides(s[1..], p);
      if p(s[0]) {
        assert p(s[0]) == true;
      } else {
        assert p(s[0]) == false;
      }
    }
  }

  lemma SameMembersSameLength(a: seq<string>, b: seq<string>)
    requires NoDuplicates(a) && NoDuplicates(b) && forall t :: t in a <==> t in b
    ensures |a| == |b|
  {
    forall t ensures multiset(a)[t] == multiset(b)[t] {
      DistinctCountsOnce(a, t);
      DistinctCountsOnce(b, t);
    }
    assert multiset(a) == multiset(b);
    assert |multiset(a)| == |a| && |multiset(b)| == |b|;
  }

  /** Every task is in exactly one of train and test; for distinct tasks the sizes add up. */
  lemma EvenSplitPartitions(tasks: seq<string>, h: int)
    ensures forall t :: t in tasks <==> t in EvenTrain(tasks, h) || t in Holdout(tasks, h)
    ensures forall t :: !(t in EvenTrain(tasks, h) && t in Holdout(tasks, h))
    ensures NoDuplicates(tasks) ==>
      NoDuplicates(EvenTrain(tasks, h)) && |EvenTrain(tasks, h)| + |Holdout(tasks, h)| == |tasks|
  {
    var sorted, out := SortedTasks(tasks), Holdout(tasks, h);
    SortedFacts(tasks);
    HoldoutMembers(tasks, h);
    PickMembers(sorted, InSeq(out), false);
    if NoDuplicates(tasks) {
      PickBothSides(sorted, InSeq(out));
      PickKeepsDistinct(sorted, InSeq(out), true);
      PickKeepsDistinct(sorted, InSeq(out), false);
      PickMembers(sorted, InSeq(out), true);
      SameMembersSameLength(Pick(sorted, InSeq(out), true), out);
    }
  }

  /** A bench of build_splits: tasks to split, or a train source and an external test set. */
  datatype Source = Internal(tasks: seq<string>, holdoutCount: int) | External(train: seq<string>, test: seq<string>)

  function SftTest(source: Source): seq<string> {
    match source
    case Internal(tasks, h) => Holdout(tasks, h)
    case External(_, test) => test
  }

  function SftTrain(source: Source): seq<string> {
    match source
    case Internal(tasks, h) => EvenTrain(tasks, h)
    case External(train, test) => Without(SortedTasks(train), test)
  }

  /** The closing assertion of build_splits never fires: the test set wins every tie, and
      nothing else leaves the train source. */
  lemma TrainAndTestAreDisjoint(source: Source)
    ensures forall t :: !(t in SftTrain(source) && t in SftTest(source))
    ensures source.External? ==> forall t :: t in SftTrain(source) <==> t in source.train && t !in source.test
    ensures source.Internal? ==> forall t :: t in source.tasks <==> t in SftTrain(source) || t in SftTest(source)
  {
    match source
    case Internal(tasks, h) => EvenSplitPartitions(tasks, h);
    case External(train, test) =>
      SortedFacts(train);
      PickMembers(SortedTasks(train), InSeq(test), false);
  }

  // ---- the RL split -----------------------------------------------------------------------

  /** round(): to the nearest integer, halves to the even one. */
  function Rounded(a: nat, b: nat): int
    requires b > 0
  {
    var q, r := a / b, a % b;
    if 2 * r < b || (2 * r == b && q % 2 == 0) then q else q + 1
  }

  lemma RoundedBounds(a: nat, b: nat)
    requires b > 0
    ensures 2 * a - b <= 2 * (b * Rounded(a, b)) <= 2 * a + b
    ensures a % b == 0 ==> Rounded(a, b) == a / b
  {
    Distribute(b, a / b, 1);
  }

  /** More than one whole step apart, rounding keeps values apart. */
  lemma RoundedIncreases(a: nat, c: nat, b: nat)
    requires b > 0 && c > a + b
    ensures Rounded(a, b) < Rounded(c, b)
  {
    RoundedBounds(a, b);
    RoundedBounds(c, b);
    ScaledOrder(b, Rounded(c, b), Rounded(a, b));
  }

  /** Held-out tasks for an evaluation share of num/den: at least one, never all. */
  function EvalCount(n: nat, num: nat, den: nat): int
    requires den > 0
  {
    ScaledOrder(n, 0, num);
    var share := Rounded(n * num, den);
    var atLeastOne := if share > 1 then share else 1;
    if atLeastOne < n - 1 then atLeastOne else n - 1
  }

  datatype RlSplit = RlSplit(train: seq<string>, eval: seq<string>, excluded: seq<string>)

  /** _split_one: `isBad` marks the tasks to drop. */
  function SplitOne(tasks: seq<string>, num: nat, den: nat, isBad: string -> bool): RlSplit
    requires den > 0
  {
    var h := EvalCount(|tasks|, num, den);
    var train, eval := EvenTrain(tasks, h), Holdout(tasks, h);
    RlSplit(Pick(train, isBad, false), Pick(eval, isBad, false), Pick(train + eval, isBad, true))
  }

  /** Every train task ends in exactly one of the three lists, the excluded ones being the
      bad ones; and of two or more distinct tasks some are held out, but not all. */
  lemma SplitOneAccounts(tasks: seq<string>, num: nat, den: nat, isBad: string -> bool)
    requires den > 0
    ensures var s := SplitOne(tasks, num, den, isBad);
      && (forall t :: t in s.excluded <==> t in tasks && isBad(t))
      && (forall t :: t in s.train || t in s.eval <==> t in tasks && !isBad(t))
      && (forall t :: !(t in s.train && t in s.eval))
      && (NoDuplicates(tasks) ==> |s.train| + |s.eval| + |s.excluded| == |tasks|)
  {
    var h := EvalCount(|tasks|, num, den);
    var train, eval := EvenTrain(tasks, h), Holdout(tasks, h);
    EvenSplitPartitions(tasks, h);
    PickMembers(train, isBad, false);
    PickMembers(eval, isBad, false);
    PickMembers(train + eval, isBad, true);
    PickBothSides(train, isBad);
    PickBothSides(eval, isBad);
    PickConcat(train, eval, isBad, true);
  }

  lemma EvalShare(tasks: seq<string>, num: nat, den: nat)
    requires den > 0 && NoDuplicates(tasks) && |tasks| >= 2
    ensures var h := EvalCount(|tasks|, num, den);
      1 <= h <= |tasks| - 1 && |Holdout(tasks, h)| == h && |EvenTrain(tasks, h)| == |tasks| - h
  {
    HoldoutIsEven(tasks, EvalCount(|tasks|, num, den));
    EvenSplitPartitions(tasks, EvalCount(|tasks|, num, den));
  }

  /** No task reaches RL training or evaluation that SFT holds out for test. */
  lemma RlNeverSeesTest(source: Source, num: nat, den: nat, isBad: string -> bool)
    requires den > 0
    ensures var s := SplitOne(SftTrain(source), num, den, isBad);
      forall t :: t in SftTest(source) ==> t !in s.train && t !in s.eval && t !in s.excluded
  {
    TrainAndTestAreDisjoint(source);
    SplitOneAccounts(SftTrain(source), num, den, isBad);
  }

  // ---- pilots -----------------------------------------------------------------------------

  /** The i-th of `limit` positions spread from the first task to the last. */
  function PilotPosition(i: nat, n: nat, limit: nat): int
    requires n > 0 && limit > 1
  {
    ScaledOrder(n - 1, 0, i);
    Rounded(i * (n - 1), limit - 1)
  }

  lemma PilotPositionsIncrease(i: nat, n: nat, limit: nat)
    requires 1 < limit < n
    ensures PilotPosition(i, n, limit) < PilotPosition(i + 1, n, limit)
  {
    ScaledOrder(n - 1, 0, i);
    Distribute(n - 1, i, 1);
    RoundedIncreases(i * (n - 1), (i + 1) * (n - 1), limit - 1);
  }

  /** The positions start at the first task, end at the last, and increase strictly. */
  lemma PilotEnds(n: nat, limit: nat)
    requires 1 < limit < n
    ensures PilotPosition(0, n, limit) == 0 && PilotPosition(limit - 1, n, limit) == n - 1
  {
    ScaledOrder(n - 1, 0, limit - 1);
    QuotientIs((limit - 1) * (n - 1), limit - 1, n - 1);
    RoundedBounds(0, limit - 1);
    ExactQuotient(limit - 1, n - 1);
  }

  lemma ExactQuotient(d: nat, q: nat)
    requires d > 0
    ensures d * q >= 0 && Rounded(d * q, d) == q
  {
    ScaledOrder(d, 0, q);
    QuotientIs(d * q, d, q);
    RoundedBounds(d * q, d);
  }

  lemma {:induction false} PilotOrder(i: nat, j: nat, n: nat, limit: nat)
    requires 1 < limit < n && i < j
    ensures PilotPosition(i, n, limit) < PilotPosition(j, n, limit)
    decreases j
  {
    PilotPositionsIncrease(j - 1, n, limit);
    if i < j - 1 {
      PilotOrder(i, j - 1, n, limit);
    }
  }

  lemma PilotInRange(i: nat, n: nat, limit: nat)
    requires 1 < limit < n && i < limit
    ensures 0 <= PilotPosition(i, n, limit) < n
  {
    PilotEnds(n, limit);
    if i > 0 {
      PilotOrder(0, i, n, limit);
    }
    if i < limit - 1 {
      PilotOrder(i, limit - 1, n, limit);
    }
  }

  /** The first `k` of `limit` pilots. */
  function Spread(tasks: seq<string>, limit: nat, k: nat): (picked: seq<string>)
    requires 1 < limit < |tasks| && k <= limit
    ensures |picked| == k
  {
    if k == 0 then []
    else
      PilotInRange(k - 1, |tasks|, limit);
      Spread(tasks, limit, k - 1) + [tasks[PilotPosition(k - 1, |tasks|, limit)]]
  }

  lemma {:induction false} SpreadEntries(tasks: seq<string>, limit: nat, k: nat, i: nat)
    requires 1 < limit < |tasks| && i < k <= limit
    ensures SitsAt(Spread(tasks, limit, k), i, tasks, PilotPosition(i, |tasks|, limit))
  {
    PilotInRange(i, |tasks|, limit);
    if i < k - 1 {
      SpreadEntries(tasks, limit, k - 1, i);
    }
  }

  /** select_tasks keeps the caller's order, takes each task once, and both ends. */
  lemma PilotsAreSpread(tasks: seq<string>, limit: nat)
    requires 1 < limit < |tasks|
    ensures var picked := Spread(tasks, limit, limit);
      && picked[0] == tasks[0] && picked[limit - 1] == tasks[|tasks| - 1]
      && (NoDuplicates(tasks) ==> NoDuplicates(picked))
  {
    var picked, n := Spread(tasks, limit, limit), |tasks|;
    PilotEnds(n, limit);
    SpreadEntries(tasks, limit, limit, 0);
    SpreadEntries(tasks, limit, limit, limit - 1);
    if NoDuplicates(tasks) {
      forall i, j | 0 <= i < j < limit ensures picked[i] != picked[j] {
        SpreadEntries(tasks, limit, limit, i);
        SpreadEntries(tasks, limit, limit, j);
        PilotOrder(i, j, n, limit);
      }
    }
  }

  // ---- as loops ---------------------------------------------------------------------------

  method StableEvenHoldout(tasks: seq<string>, holdoutCount: int) returns (deduped: seq<string>)
    ensures deduped == Holdout(tasks, holdoutCount)
  {
    if holdoutCount <= 0 {
      return [];
    }
    if holdoutCount >= |tasks| {
      return SortedTasks(tasks);
    }
    SortedFacts(tasks);
    var sorted := SortedTasks(tasks);
    var selected: seq<string> := [];
    var i := 0;
    while i < holdoutCount
      invariant 0 <= i <= holdoutCount && selected == AtMidpoints(sorted, holdoutCount, i)
    {
      var position := ((2 * i + 1) * |sorted|) / (2 * holdoutCount);
      MidpointInRange(i, |sorted|, holdoutCount);
      position := if position < 0 then 0 else position;
      position := if position > |sorted| - 1 then |sorted| - 1 else position;
      selected := selected + [sorted[position]];
      i := i + 1;
    }
    var seen: set<string> := {};
    deduped := [];
    i := 0;
    while i < |selected|
      invariant 0 <= i <= |selected| && deduped == Deduped(selected[..i])
      invariant forall t :: t in seen <==> t in deduped
    {
      var task := selected[i];
      assert selected[..i + 1][..i] == selected[..i];
      if task !in seen {
        seen := seen + {task};
        deduped := deduped + [task];
      }
      i := i + 1;
    }
    assert selected[..i] == selected;
  }

  method SelectTasks(tasks: seq<string>, limit: int) returns (selected: seq<string>)
    ensures selected == if limit <= 0 || limit >= |tasks| then tasks
                        else if limit == 1 then [tasks[0]]
                        else Spread(tasks, limit, limit)
  {
    if limit <= 0 || limit >= |tasks| {
      return tasks;
    }
    if limit == 1 {
      return [tasks[0]];
    }
    selected := [];
    var index := 0;
    while index < limit
      invariant 0 <= index <= limit && selected == Spread(tasks, limit, index)
    {
      PilotInRange(index, |tasks|, limit);
      selected := selected + [tasks[PilotPosition(index, |tasks|, limit)]];
      index := index + 1;
    }
  }
}
