/** The orders made from a plan, said by the records' benches, tasks and positions: where each
    task, trial and chunk goes. */
module PlanOrders {
  import opened Plans
  import opened RoundRobin
  import opened Grouping

  // ---- selections -------------------------------------------------------------------------

  predicate Increasing(at: seq<nat>) {
    forall i, j :: 0 <= i < j < |at| ==> at[i] < at[j]
  }

  /** `part` consists of the elements of `s` at the positions `at`, in order. */
  predicate FoundAt<V(==)>(part: seq<V>, s: seq<V>, at: seq<nat>) {
    |at| == |part| && Increasing(at) && forall i :: 0 <= i < |at| ==> at[i] < |s| && s[at[i]] == part[i]
  }

  /** The positions are those of the elements of this colour. */
  ghost predicate AreAllOf<V, K>(s: seq<V>, colour: V -> K, k: K, at: seq<nat>) {
    forall p: nat :: p in at <==> p < |s| && colour(s[p]) == k
  }

  lemma {:induction false} PickedAt<V, K>(s: seq<V>, colour: V -> K, k: K) returns (at: seq<nat>)
    ensures FoundAt(Pick(s, colour, k), s, at)
    ensures AreAllOf(s, colour, k, at)
  {
    if s == [] {
      at := [];
    } else {
      var n := |s| - 1;
      var before := PickedAt(s[..n], colour, k);
      assert s == s[..n] + [s[n]];
      PickSnoc(s[..n], s[n], colour, k);
      FoundNext(Pick(s[..n], colour, k), s, before);
      if colour(s[n]) == k {
        at := before + [n];
        OneMore(s, colour, k, before);
      } else {
        at := before;
        NoMore(s, colour, k, before);
        assert Pick(s[..n], colour, k) + [] == Pick(s[..n], colour, k);
      }
    }
  }

  lemma FoundNext<V>(part: seq<V>, s: seq<V>, at: seq<nat>)
    requires s != [] && FoundAt(part, s[..|s| - 1], at)
    ensures FoundAt(part, s, at) && FoundAt(part + [s[|s| - 1]], s, at + [|s| - 1])
  {
  }

  lemma OneMore<V, K>(s: seq<V>, colour: V -> K, k: K, at: seq<nat>)
    requires s != [] && AreAllOf(s[..|s| - 1], colour, k, at) && colour(s[|s| - 1]) == k
    ensures AreAllOf(s, colour, k, at + [|s| - 1])
  {
  }

  lemma NoMore<V, K>(s: seq<V>, colour: V -> K, k: K, at: seq<nat>)
    requires s != [] && AreAllOf(s[..|s| - 1], colour, k, at) && colour(s[|s| - 1]) != k
    ensures AreAllOf(s, colour, k, at)
  {
  }

  /** The trials of a task are the records of its bench and task, in plan order. */
  lemma TaskTrialsAre(rs: seq<Trial>, k: TaskKey) returns (at: seq<nat>)
    ensures FoundAt(OfTask(rs, k), rs, at)
    ensures forall p: nat :: p in at <==> p < |rs| && rs[p].bench == k.bench && rs[p].task == k.task
  {
    at := PickedAt(rs, ByTask, k);
  }

  // ---- order of first appearance ----------------------------------------------------------

  /** Position `n` has the first record of the bench, and of the task. */
  predicate FirstOfBench(rs: seq<Trial>, b: string, n: nat) {
    n < |rs| && rs[n].bench == b && forall m :: 0 <= m < n ==> rs[m].bench != b
  }

  predicate FirstOfTask(rs: seq<Trial>, k: TaskKey, n: nat) {
    n < |rs| && rs[n].bench == k.bench && rs[n].task == k.task
    && forall m :: 0 <= m < n ==> !(rs[m].bench == k.bench && rs[m].task == k.task)
  }

  /** All benches of the plan, each with the position of its first record, in that order. */
  predicate BenchesSeen(rs: seq<Trial>, order: seq<string>, at: seq<nat>) {
    && |at| == |order| && Increasing(at)
    && (forall i :: 0 <= i < |at| ==> FirstOfBench(rs, order[i], at[i]))
    && (forall p :: 0 <= p < |rs| ==> rs[p].bench in order)
  }

  lemma BenchesSeenStill(rs: seq<Trial>, order: seq<string>, at: seq<nat>)
    requires rs != [] && BenchesSeen(rs[..|rs| - 1], order, at) && rs[|rs| - 1].bench in order
    ensures BenchesSeen(rs, order, at)
  {
    forall i | 0 <= i < |at| ensures FirstOfBench(rs, order[i], at[i]) {
      assert FirstOfBench(rs[..|rs| - 1], order[i], at[i]);
    }
    forall p | 0 <= p < |rs| ensures rs[p].bench in order {
      if p < |rs| - 1 {
        assert rs[..|rs| - 1][p].bench in order;
      }
    }
  }

  lemma BenchesSeenAlso(rs: seq<Trial>, order: seq<string>, at: seq<nat>)
    requires rs != [] && BenchesSeen(rs[..|rs| - 1], order, at) && rs[|rs| - 1].bench !in order
    ensures BenchesSeen(rs, order + [rs[|rs| - 1].bench], at + [|rs| - 1])
  {
    var n := |rs| - 1;
    forall i | 0 <= i < |at| ensures FirstOfBench(rs, order[i], at[i]) {
      assert FirstOfBench(rs[..n], order[i], at[i]);
    }
    forall m | 0 <= m < n ensures rs[m].bench != rs[n].bench && rs[m].bench in order {
      assert rs[..n][m].bench in order;
    }
  }

  lemma {:induction false} BenchesAsSeen(rs: seq<Trial>) returns (at: seq<nat>)
    ensures BenchesSeen(rs, BenchOrder(rs), at)
  {
    if rs == [] {
      at := [];
    } else {
      var n := |rs| - 1;
      at := BenchesAsSeen(rs[..n]);
      if rs[n].bench in BenchOrder(rs[..n]) {
        BenchesSeenStill(rs, BenchOrder(rs[..n]), at);
      } else {
        BenchesSeenAlso(rs, BenchOrder(rs[..n]), at);
        at := at + [n];
      }
    }
  }

  /** All tasks of the plan, each with the position of its first record, in that order. */
  predicate TasksSeen(rs: seq<Trial>, order: seq<TaskKey>, at: seq<nat>) {
    && |at| == |order| && Increasing(at)
    && (forall i :: 0 <= i < |at| ==> FirstOfTask(rs, order[i], at[i]))
    && (forall p :: 0 <= p < |rs| ==> TaskKey(rs[p].bench, rs[p].task) in order)
  }

  lemma TasksSeenStill(rs: seq<Trial>, order: seq<TaskKey>, at: seq<nat>)
    requires rs != [] && TasksSeen(rs[..|rs| - 1], order, at) && TaskKey(rs[|rs| - 1].bench, rs[|rs| - 1].task) in order
    ensures TasksSeen(rs, order, at)
  {
    forall i | 0 <= i < |at| ensures FirstOfTask(rs, order[i], at[i]) {
      assert FirstOfTask(rs[..|rs| - 1], order[i], at[i]);
    }
    forall p | 0 <= p < |rs| ensures TaskKey(rs[p].bench, rs[p].task) in order {
      if p < |rs| - 1 {
        assert TaskKey(rs[..|rs| - 1][p].bench, rs[..|rs| - 1][p].task) in order;
      }
    }
  }

  lemma TasksSeenAlso(rs: seq<Trial>, order: seq<TaskKey>, at: seq<nat>)
    requires rs != [] && TasksSeen(rs[..|rs| - 1], order, at) && TaskKey(rs[|rs| - 1].bench, rs[|rs| - 1].task) !in order
    ensures TasksSeen(rs, order + [TaskKey(rs[|rs| - 1].bench, rs[|rs| - 1].task)], at + [|rs| - 1])
  {
    var n := |rs| - 1;
    forall i | 0 <= i < |at| ensures FirstOfTask(rs, order[i], at[i]) {
      assert FirstOfTask(rs[..n], order[i], at[i]);
    }
    forall m | 0 <= m < n
      ensures TaskKey(rs[m].bench, rs[m].task) != TaskKey(rs[n].bench, rs[n].task)
      ensures TaskKey(rs[m].bench, rs[m].task) in order
    {
      assert TaskKey(rs[..n][m].bench, rs[..n][m].task) in order;
    }
  }

  lemma {:induction false} TasksAsSeen(rs: seq<Trial>) returns (at: seq<nat>)
    ensures TasksSeen(rs, Keys(rs), at)
  {
    if rs == [] {
      at := [];
    } else {
      var n := |rs| - 1;
      at := TasksAsSeen(rs[..n]);
      if TaskKey(rs[n].bench, rs[n].task) in Keys(rs[..n]) {
        TasksSeenStill(rs, Keys(rs[..n]), at);
      } else {
        TasksSeenAlso(rs, Keys(rs[..n]), at);
        at := at + [n];
      }
    }
  }

  // ---- the task order ---------------------------------------------------------------------

  /** The tasks of one bench, in order of first appearance. */
  ghost predicate BenchRow(rs: seq<Trial>, row: seq<TaskKey>, b: string) {
    && (forall k :: k in row <==> k.bench == b && exists n: nat :: FirstOfTask(rs, k, n))
    && (forall i, j, m: nat, n: nat :: 0 <= i < j < |row| && FirstOfTask(rs, row[i], m) && FirstOfTask(rs, row[j], n) ==> m < n)
  }

  lemma SameFirst(rs: seq<Trial>, k: TaskKey, m: nat, n: nat)
    requires FirstOfTask(rs, k, m) && FirstOfTask(rs, k, n)
    ensures m == n
  {
  }

  lemma RowOfBench(rs: seq<Trial>, b: string)
    ensures BenchRow(rs, Pick(Keys(rs), ByBench, b), b)
  {
    var row := Pick(Keys(rs), ByBench, b);
    var seen := TasksAsSeen(rs);
    var at := PickedAt(Keys(rs), ByBench, b);
    PickMembers(Keys(rs), ByBench, b);
    forall k ensures k in row <==> k.bench == b && exists n: nat :: FirstOfTask(rs, k, n) {
      SeenIffFirst(rs, seen, k);
    }
    forall i, j, m: nat, n: nat | 0 <= i < j < |row| && FirstOfTask(rs, row[i], m) && FirstOfTask(rs, row[j], n) ensures m < n {
      assert Keys(rs)[at[i]] == row[i] && Keys(rs)[at[j]] == row[j];
      SameFirst(rs, row[i], m, seen[at[i]]);
      SameFirst(rs, row[j], n, seen[at[j]]);
    }
  }

  lemma SeenIffFirst(rs: seq<Trial>, seen: seq<nat>, k: TaskKey)
    requires TasksSeen(rs, Keys(rs), seen)
    ensures k in Keys(rs) <==> exists n: nat :: FirstOfTask(rs, k, n)
  {
    if k in Keys(rs) {
      var i :| 0 <= i < |Keys(rs)| && Keys(rs)[i] == k;
      assert FirstOfTask(rs, k, seen[i]);
    }
    if n: nat :| FirstOfTask(rs, k, n) {
      assert TaskKey(rs[n].bench, rs[n].task) == k;
    }
  }

  /** The task order: benches as they first appear, each with its tasks as they first appear;
      the tasks are taken one of each bench in turn, so task `t` of bench `i` comes after the
      tasks that have an earlier turn, or the same turn and an earlier bench. */
  lemma TaskOrderMeans(rs: seq<Trial>) returns (benches: seq<string>, rows: seq<seq<TaskKey>>, first: seq<nat>)
    ensures BenchesSeen(rs, benches, first)
    ensures |rows| == |benches| && forall i :: 0 <= i < |benches| ==> BenchRow(rs, rows[i], benches[i])
    ensures |TaskOrder(rs)| == Total(rows)
    ensures forall i: nat, t: nat :: i < |rows| && t < |rows[i]| ==>
      TakenBefore(rows, i, t) < |TaskOrder(rs)| && TaskOrder(rs)[TakenBefore(rows, i, t)] == rows[i][t]
  {
    benches, rows := BenchOrder(rs), TaskRows(rs);
    first := BenchesAsSeen(rs);
    TotalIsLength(rows);
    forall i | 0 <= i < |benches| ensures BenchRow(rs, rows[i], benches[i]) {
      RowOfBench(rs, benches[i]);
    }
    forall i: nat, t: nat | i < |rows| && t < |rows[i]|
      ensures TakenBefore(rows, i, t) < |TaskOrder(rs)| && TaskOrder(rs)[TakenBefore(rows, i, t)] == rows[i][t]
    {
      StandsInTurn(rows, i, t);
    }
  }

  // ---- the interleaving and the chunks ----------------------------------------------------

  /** The trials of one task, as they stand in the plan. */
  ghost predicate TaskRow(rs: seq<Trial>, row: seq<Trial>, k: TaskKey) {
    exists at: seq<nat> :: FoundAt(row, rs, at)
      && forall p: nat :: p in at <==> p < |rs| && rs[p].bench == k.bench && rs[p].task == k.task
  }

  lemma RowOfTask(rs: seq<Trial>, k: TaskKey)
    ensures TaskRow(rs, OfTask(rs, k), k)
  {
    var at := TaskTrialsAre(rs, k);
    assert FoundAt(OfTask(rs, k), rs, at);
  }

  /** The interleaving takes the trials of the tasks in turn, in the task order. */
  lemma InterleavedMeans(rs: seq<Trial>) returns (rows: seq<seq<Trial>>)
    ensures |rows| == |TaskOrder(rs)|
    ensures forall i :: 0 <= i < |rows| ==> TaskRow(rs, rows[i], TaskOrder(rs)[i])
    ensures |Interleaved(rs)| == Total(rows)
    ensures forall i: nat, t: nat :: i < |rows| && t < |rows[i]| ==>
      TakenBefore(rows, i, t) < |Interleaved(rs)| && Interleaved(rs)[TakenBefore(rows, i, t)] == rows[i][t]
  {
    rows := TrialRows(rs);
    TotalIsLength(rows);
    forall i | 0 <= i < |rows| ensures TaskRow(rs, rows[i], TaskOrder(rs)[i]) {
      RowOfTask(rs, TaskOrder(rs)[i]);
    }
    forall i: nat, t: nat | i < |rows| && t < |rows[i]|
      ensures TakenBefore(rows, i, t) < |Interleaved(rs)| && Interleaved(rs)[TakenBefore(rows, i, t)] == rows[i][t]
    {
      StandsInTurn(rows, i, t);
    }
  }

  lemma {:induction false} BlockIs<K>(keys: seq<K>, n: nat, c: nat)
    requires 0 < n && c < |Blocks(keys, n)|
    ensures c * n < |keys| && Blocks(keys, n)[c] == keys[c * n .. Min((c + 1) * n, |keys|)]
    ensures c + 1 == |Blocks(keys, n)| <==> |keys| <= (c + 1) * n
    decreases c
  {
    var m := Min(n, |keys|);
    if c > 0 {
      BlockIs(keys[m..], n, c - 1);
      assert m == n;
      assert (c - 1) * n + n == c * n && c * n + n == (c + 1) * n;
      assert keys[m..][(c - 1) * n .. Min(c * n, |keys| - n)] == keys[c * n .. Min((c + 1) * n, |keys|)];
    } else {
      NoBlocksOfNothing(keys[m..], n);
    }
  }

  lemma NoBlocksOfNothing<K>(keys: seq<K>, n: nat)
    requires 0 < n
    ensures |Blocks(keys, n)| == 0 <==> |keys| == 0
  {
  }

  lemma {:induction false} GatherIsRows(rs: seq<Trial>, keys: seq<TaskKey>, rows: seq<seq<Trial>>)
    requires |rows| == |keys| && forall i :: 0 <= i < |keys| ==> rows[i] == OfTask(rs, keys[i])
    ensures Gather(rs, keys) == Flatten(rows)
  {
    if keys != [] {
      GatherIsRows(rs, keys[1..], rows[1..]);
    }
  }

  /** Chunk `c` has the rows from `c * n` on, `n` of them or what is left, one after the other;
      the last chunk reaches the last row. */
  predicate ChunkIs(rows: seq<seq<Trial>>, n: nat, chunks: seq<seq<Trial>>, c: nat)
    requires c < |chunks|
  {
    var start, end := c * n, if (c + 1) * n <= |rows| then (c + 1) * n else |rows|;
    && start < end
    && chunks[c] == Flatten(rows[start..end])
    && (c + 1 == |chunks| <==> end == |rows|)
  }

  lemma OneChunk(rs: seq<Trial>, n: nat, c: nat)
    requires 0 < n && c < |Blocks(TaskOrder(rs), n)|
    ensures ChunkIs(TrialRows(rs), n, Chunks(rs, Blocks(TaskOrder(rs), n)), c)
  {
    var keys, rows := TaskOrder(rs), TrialRows(rs);
    BlockIs(keys, n, c);
    var start, end := c * n, Min((c + 1) * n, |keys|);
    assert (c + 1) * n == start + n;
    GatherIsRows(rs, keys[start..end], rows[start..end]);
  }

  /** The chunks are the rows of trials of the tasks, in the task order, cut that way; there
      is none exactly if there is no task. */
  lemma ChunksMean(rs: seq<Trial>, n: nat) returns (rows: seq<seq<Trial>>)
    requires 0 < n
    ensures |rows| == |TaskOrder(rs)|
    ensures forall i :: 0 <= i < |rows| ==> TaskRow(rs, rows[i], TaskOrder(rs)[i])
    ensures |Chunks(rs, Blocks(TaskOrder(rs), n))| == 0 <==> |rows| == 0
    ensures forall c: nat :: c < |Blocks(TaskOrder(rs), n)| ==> ChunkIs(rows, n, Chunks(rs, Blocks(TaskOrder(rs), n)), c)
  {
    rows := TrialRows(rs);
    NoBlocksOfNothing(TaskOrder(rs), n);
    forall i | 0 <= i < |rows| ensures TaskRow(rs, rows[i], TaskOrder(rs)[i]) {
      RowOfTask(rs, TaskOrder(rs)[i]);
    }
    forall c: nat | c < |Blocks(TaskOrder(rs), n)| ensures ChunkIs(rows, n, Chunks(rs, Blocks(TaskOrder(rs), n)), c) {
      OneChunk(rs, n, c);
    }
  }
}
