/** Which tasks the holdout, the RL split and the pilot selection take, said by positions in
    the sorted list and in the caller's list. */
module SplitMeanings {
  import opened Arithmetic
  import opened Plans
  import opened Sorting
  import opened PlanOrders
  import opened Splits

  /** The same texts in dictionary order. */
  ghost predicate IsSorted(s: seq<string>, sorted: seq<string>) {
    multiset(sorted) == multiset(s) && |sorted| == |s|
    && forall i, j :: 0 <= i < j < |sorted| ==> !Precedes(sorted[j], sorted[i])
  }

  /** Position `p` of `n` holds the centre of the i-th of `h` equal parts. */
  predicate HoldsCentre(p: nat, i: nat, n: nat, h: nat) {
    2 * (h * p) <= (2 * i + 1) * n < 2 * (h * p) + 2 * h
  }

  lemma MidpointHoldsCentre(i: nat, n: nat, h: nat)
    requires h > 0
    ensures Midpoint(i, n, h) >= 0 && HoldsCentre(Midpoint(i, n, h), i, n, h)
  {
    ScaledOrder(n, 0, 2 * i + 1);
    var a, m := (2 * i + 1) * n, Midpoint(i, n, h);
    assert a == (2 * h) * m + a % (2 * h);
    QuotientNonNegative(a, 2 * h);
    Doubled(h, m);
  }

  lemma QuotientNonNegative(a: nat, d: nat)
    requires d > 0
    ensures a / d >= 0
  {
  }

  /** First occurrences, in order. */
  predicate AreFirsts(s: seq<string>, firsts: seq<string>, at: seq<nat>) {
    && |at| == |firsts| && Increasing(at)
    && (forall k :: 0 <= k < |at| ==> at[k] < |s| && s[at[k]] == firsts[k] && s[at[k]] !in s[..at[k]])
    && (forall t :: t in s ==> t in firsts)
  }

  lemma {:induction false} DedupedAre(s: seq<string>) returns (at: seq<nat>)
    ensures AreFirsts(s, Deduped(s), at)
  {
    if s == [] {
      at := [];
    } else {
      var n := |s| - 1;
      at := DedupedAre(s[..n]);
      DedupedFacts(s[..n]);
      if s[n] in Deduped(s[..n]) {
        FirstsStill(s, Deduped(s[..n]), at);
      } else {
        FirstsAlso(s, Deduped(s[..n]), at);
        at := at + [n];
      }
    }
  }

  lemma FirstsStill(s: seq<string>, firsts: seq<string>, at: seq<nat>)
    requires s != [] && AreFirsts(s[..|s| - 1], firsts, at) && s[|s| - 1] in firsts
    ensures AreFirsts(s, firsts, at)
  {
    var n := |s| - 1;
    assert s == s[..n] + [s[n]];
    forall k | 0 <= k < |at| ensures s[at[k]] !in s[..at[k]] {
      assert s[..n][..at[k]] == s[..at[k]];
    }
  }

  lemma FirstsAlso(s: seq<string>, firsts: seq<string>, at: seq<nat>)
    requires s != [] && AreFirsts(s[..|s| - 1], firsts, at) && s[|s| - 1] !in firsts
    ensures AreFirsts(s, firsts + [s[|s| - 1]], at + [|s| - 1])
  {
    var n := |s| - 1;
    assert s == s[..n] + [s[n]];
    forall k | 0 <= k < |at| ensures s[at[k]] !in s[..at[k]] {
      assert s[..n][..at[k]] == s[..at[k]];
    }
  }

  predicate AtCentres(sorted: seq<string>, h: nat, picks: seq<string>, ps: seq<nat>) {
    |ps| == |picks| == h
    && forall i :: 0 <= i < h ==> ps[i] < |sorted| && HoldsCentre(ps[i], i, |sorted|, h) && picks[i] == sorted[ps[i]]
  }

  /** The holdout: none for a count of zero or less, the whole sorted list for a count it does not
      exceed, and otherwise the entries of the sorted list at the centres of as many equal
      parts, each once. */
  lemma HoldoutMeans(tasks: seq<string>, h: int)
    returns (sorted: seq<string>, picks: seq<string>, ps: seq<nat>, at: seq<nat>)
    ensures IsSorted(tasks, sorted)
    ensures h <= 0 ==> Holdout(tasks, h) == []
    ensures 0 < h && |tasks| <= h ==> Holdout(tasks, h) == sorted
    ensures 0 < h < |tasks| ==> AtCentres(sorted, h, picks, ps) && AreFirsts(picks, Holdout(tasks, h), at)
  {
    sorted, picks, ps, at := SortedTasks(tasks), [], [], [];
    SortedTextsAre(tasks);
    if 0 < h < |tasks| {
      picks := AtMidpoints(sorted, h, h);
      ps := Centres(sorted, h, h);
      at := DedupedAre(picks);
    }
  }

  lemma {:induction false} Centres(sorted: seq<string>, h: nat, k: nat) returns (ps: seq<nat>)
    requires k <= h && sorted != []
    ensures |ps| == k
    ensures forall i :: 0 <= i < k ==>
      ps[i] < |sorted| && HoldsCentre(ps[i], i, |sorted|, h) && AtMidpoints(sorted, h, k)[i] == sorted[ps[i]]
  {
    if k == 0 {
      ps := [];
    } else {
      var before := Centres(sorted, h, k - 1);
      MidpointInRange(k - 1, |sorted|, h);
      MidpointHoldsCentre(k - 1, |sorted|, h);
      ps := before + [Midpoint(k - 1, |sorted|, h)];
    }
  }

  // ---- the RL split -----------------------------------------------------------------------

  /** `q` is the whole number nearest to a / b; half-way between two it is the even one. */
  predicate IsNearest(q: int, a: nat, b: nat) {
    && 2 * a <= 2 * (b * q) + b && 2 * (b * q) <= 2 * a + b
    && (2 * a == 2 * (b * q) + b || 2 * (b * q) == 2 * a + b ==> q % 2 == 0)
  }

  lemma RoundedIsNearest(a: nat, b: nat)
    requires b > 0
    ensures IsNearest(Rounded(a, b), a, b)
  {
    var q, r := a / b, a % b;
    Distribute(b, q, 1);
    assert a == b * q + r;
  }

  /** How many of `n` tasks are held out for a share of num/den: the nearest whole number, but at
      least one, and always one less than there are at most. */
  lemma EvalCountMeans(n: nat, num: nat, den: nat) returns (q: int)
    requires den > 0
    ensures n * num >= 0 && IsNearest(q, n * num, den)
    ensures n < 2 ==> EvalCount(n, num, den) == n - 1
    ensures n >= 2 ==> EvalCount(n, num, den) == if q < 1 then 1 else if q > n - 1 then n - 1 else q
  {
    ScaledOrder(n, 0, num);
    q := Rounded(n * num, den);
    RoundedIsNearest(n * num, den);
  }

  /** The elements of `s` with this property, in order. */
  ghost predicate AreThose(part: seq<string>, s: seq<string>, p: string -> bool, value: bool) {
    exists at: seq<nat> :: FoundAt(part, s, at) && AreAllOf(s, p, value, at)
  }

  lemma PickedAreThose(s: seq<string>, p: string -> bool, value: bool)
    ensures AreThose(Pick(s, p, value), s, p, value)
  {
    var at := PickedAt(s, p, value);
  }

  /** The RL split of a bench: evaluation gets the holdout of that many tasks and training the rest
      of the sorted list, both in order and without the bad tasks. */
  lemma SplitOneMeans(tasks: seq<string>, num: nat, den: nat, isBad: string -> bool)
    returns (sorted: seq<string>, held: seq<string>, rest: seq<string>)
    requires den > 0
    ensures var s := SplitOne(tasks, num, den, isBad);
      && IsSorted(tasks, sorted)
      && held == Holdout(tasks, EvalCount(|tasks|, num, den))
      && AreThose(rest, sorted, (t: string) => t in held, false)
      && AreThose(s.train, rest, isBad, false)
      && AreThose(s.eval, held, isBad, false)
      && AreThose(s.excluded, rest + held, isBad, true)
  {
    var h := EvalCount(|tasks|, num, den);
    sorted, held, rest := SortedTasks(tasks), Holdout(tasks, h), EvenTrain(tasks, h);
    SortedTextsAre(tasks);
    PickedAreThose(sorted, InSeq(held), false);
    InSeqIs(rest, sorted, held);
    PickedAreThose(rest, isBad, false);
    PickedAreThose(held, isBad, false);
    PickedAreThose(rest + held, isBad, true);
  }

  lemma InSeqIs(part: seq<string>, s: seq<string>, gone: seq<string>)
    requires AreThose(part, s, InSeq(gone), false)
    ensures AreThose(part, s, (t: string) => t in gone, false)
  {
    var at: seq<nat> :| FoundAt(part, s, at) && AreAllOf(s, InSeq(gone), false, at);
    assert AreAllOf(s, (t: string) => t in gone, false, at);
  }

  /** SFT: the test set of a bench is its holdout or the external one, and training gets the rest of
      the sorted list, in order. */
  lemma SftTrainMeans(source: Source) returns (sorted: seq<string>, test: seq<string>)
    ensures SftTest(source) == test
    ensures source.Internal? ==> test == Holdout(source.tasks, source.holdoutCount) && IsSorted(source.tasks, sorted)
    ensures source.External? ==> test == source.test && IsSorted(source.train, sorted)
    ensures AreThose(SftTrain(source), sorted, (t: string) => t in test, false)
  {
    var from := if source.Internal? then source.tasks else source.train;
    test := if source.Internal? then Holdout(source.tasks, source.holdoutCount) else source.test;
    sorted := SortedTasks(from);
    SortedTextsAre(from);
    PickedAreThose(sorted, InSeq(test), false);
    InSeqIs(SftTrain(source), sorted, test);
  }

  // ---- pilots -----------------------------------------------------------------------------

  /** Pilot `i` of `limit` is task `p`, nearest to i/(limit - 1) of the way from the first task to
      the last. */
  predicate PilotIs(tasks: seq<string>, limit: nat, pilots: seq<string>, i: nat, p: nat)
    requires tasks != [] && limit > 1
  {
    i < |pilots| && p < |tasks| && pilots[i] == tasks[p] && IsNearShare(p, i, |tasks|, limit)
  }

  /** `p` is the whole number nearest to i * (n - 1) / (limit - 1). */
  predicate IsNearShare(p: int, i: nat, n: nat, limit: nat)
    requires n > 0 && limit > 1
  {
    i * (n - 1) >= 0 && IsNearest(p, i * (n - 1), limit - 1)
  }

  lemma PilotIsNear(i: nat, n: nat, limit: nat)
    requires n > 0 && limit > 1
    ensures IsNearShare(PilotPosition(i, n, limit), i, n, limit)
  {
    ScaledOrder(n - 1, 0, i);
    RoundedIsNearest(i * (n - 1), limit - 1);
  }

  /** The pilots: tasks so spread, in the caller's order. */
  lemma PilotsMean(tasks: seq<string>, limit: nat) returns (ps: seq<nat>)
    requires 1 < limit < |tasks|
    ensures |ps| == limit == |Spread(tasks, limit, limit)| && Increasing(ps)
    ensures forall i :: 0 <= i < limit ==> PilotIs(tasks, limit, Spread(tasks, limit, limit), i, ps[i])
  {
    ps := PilotPositions(tasks, limit, limit);
    forall i | 0 <= i < limit ensures PilotIs(tasks, limit, Spread(tasks, limit, limit), i, ps[i]) {
      OnePilot(tasks, limit, i);
    }
    forall i, j | 0 <= i < j < limit ensures ps[i] < ps[j] {
      PilotOrder(i, j, |tasks|, limit);
    }
  }

  lemma OnePilot(tasks: seq<string>, limit: nat, i: nat)
    requires 1 < limit < |tasks| && i < limit
    ensures PilotPosition(i, |tasks|, limit) >= 0
    ensures PilotIs(tasks, limit, Spread(tasks, limit, limit), i, PilotPosition(i, |tasks|, limit))
  {
    PilotInRange(i, |tasks|, limit);
    SpreadEntries(tasks, limit, limit, i);
    PilotIsNear(i, |tasks|, limit);
  }

  lemma {:induction false} PilotPositions(tasks: seq<string>, limit: nat, k: nat) returns (ps: seq<nat>)
    requires 1 < limit < |tasks| && k <= limit
    ensures |ps| == k && forall i :: 0 <= i < k ==> ps[i] == PilotPosition(i, |tasks|, limit)
  {
    if k == 0 {
      ps := [];
    } else {
      var before := PilotPositions(tasks, limit, k - 1);
      PilotInRange(k - 1, |tasks|, limit);
      ps := before + [PilotPosition(k - 1, |tasks|, limit)];
    }
  }
}
