/** The orderings built from a plan: the task order shared by the launcher's
    rolling window and the chunk splitter, the launcher's interleaving, and
    the chunks themselves. */
module Grouping {
  import opened Plans
  import opened RoundRobin

  const ByTask: Trial -> TaskKey := (t: Trial) => KeyOf(t)
  const ByBench: TaskKey -> string := (k: TaskKey) => k.bench

  /** The trials of one task, in plan order. */
  function OfTask(rs: seq<Trial>, k: TaskKey): seq<Trial> {
    Pick(rs, ByTask, k)
  }

  /** Benches in order of first appearance. */
  function BenchOrder(rs: seq<Trial>): seq<string> {
    if rs == [] then []
    else
      var before, b := BenchOrder(rs[..|rs| - 1]), rs[|rs| - 1].bench;
      if b in before then before else before + [b]
  }

  /** Tasks in order of first appearance. */
  function Keys(rs: seq<Trial>): seq<TaskKey> {
    if rs == [] then []
    else
      var before, k := Keys(rs[..|rs| - 1]), KeyOf(rs[|rs| - 1]);
      if k in before then before else before + [k]
  }

  /** One queue of tasks per bench. */
  function TaskRows(rs: seq<Trial>): (qs: seq<seq<TaskKey>>)
    ensures |qs| == |BenchOrder(rs)|
  {
    var benches := BenchOrder(rs);
    seq(|benches|, i requires 0 <= i < |benches| => Pick(Keys(rs), ByBench, benches[i]))
  }

  /** Tasks, round-robin by bench. */
  function TaskOrder(rs: seq<Trial>): seq<TaskKey> {
    RoundRobin.RoundRobin(TaskRows(rs))
  }

  /** One queue of trials per task. */
  function TrialRows(rs: seq<Trial>): (qs: seq<seq<Trial>>)
    ensures |qs| == |TaskOrder(rs)|
  {
    var order := TaskOrder(rs);
    seq(|order|, i requires 0 <= i < |order| => OfTask(rs, order[i]))
  }

  function Interleaved(rs: seq<Trial>): seq<Trial> {
    RoundRobin.RoundRobin(TrialRows(rs))
  }

  lemma {:induction false} KeysAreTheTasks(rs: seq<Trial>)
    ensures NoDuplicates(Keys(rs)) && NoDuplicates(BenchOrder(rs))
    ensures forall k :: k in Keys(rs) <==> OfTask(rs, k) != []
    ensures forall k :: k in Keys(rs) ==> k.bench in BenchOrder(rs)
  {
    if rs != [] {
      var init, last := rs[..|rs| - 1], rs[|rs| - 1];
      KeysAreTheTasks(init);
      assert rs == init + [last];
      forall k ensures k in Keys(rs) <==> OfTask(rs, k) != [] {
        PickSnoc(init, last, ByTask, k);
      }
    }
  }

  lemma TaskRowsColoured(rs: seq<Trial>)
    ensures Coloured(TaskRows(rs), BenchOrder(rs), ByBench)
  {
    KeysAreTheTasks(rs);
    forall i, v | 0 <= i < |BenchOrder(rs)| && v in TaskRows(rs)[i] ensures ByBench(v) == BenchOrder(rs)[i] {
      PickMembers(Keys(rs), ByBench, BenchOrder(rs)[i]);
    }
  }

  /** The task order lists exactly the plan's tasks, each once. */
  lemma TaskOrderIsTheTasks(rs: seq<Trial>)
    ensures NoDuplicates(TaskOrder(rs))
    ensures multiset(TaskOrder(rs)) == multiset(Keys(rs))
    ensures forall k :: k in TaskOrder(rs) <==> OfTask(rs, k) != []
    ensures forall b :: Pick(TaskOrder(rs), ByBench, b) == Pick(Keys(rs), ByBench, b)
  {
    KeysAreTheTasks(rs);
    TaskRowsColoured(rs);
    var benches := BenchOrder(rs);
    forall b ensures Pick(TaskOrder(rs), ByBench, b) == Pick(Keys(rs), ByBench, b) {
      KeepsEachQueue(TaskRows(rs), benches, ByBench, b);
      if b in benches {
        var i :| 0 <= i < |benches| && benches[i] == b;
      } else {
        PickNone(Keys(rs), ByBench, b);
      }
    }
    SamePicksPermute(TaskOrder(rs), Keys(rs), ByBench);
    forall b ensures NoDuplicates(Pick(TaskOrder(rs), ByBench, b)) {
      PickKeepsDistinct(Keys(rs), ByBench, b);
    }
    NoDuplicatesByColour(TaskOrder(rs), ByBench);
    forall k ensures k in TaskOrder(rs) <==> OfTask(rs, k) != [] {
      assert k in TaskOrder(rs) <==> k in multiset(TaskOrder(rs));
      assert k in Keys(rs) <==> k in multiset(Keys(rs));
    }
  }

  lemma TrialRowsColoured(rs: seq<Trial>)
    ensures Coloured(TrialRows(rs), TaskOrder(rs), ByTask)
  {
    TaskOrderIsTheTasks(rs);
    forall i, t | 0 <= i < |TaskOrder(rs)| && t in TrialRows(rs)[i] ensures ByTask(t) == TaskOrder(rs)[i] {
      PickMembers(rs, ByTask, TaskOrder(rs)[i]);
    }
  }

  /** Interleaving is a permutation of the plan that keeps every task's order. */
  lemma InterleavingKeepsTasks(rs: seq<Trial>)
    ensures multiset(Interleaved(rs)) == multiset(rs)
    ensures forall k :: OfTask(Interleaved(rs), k) == OfTask(rs, k)
  {
    TaskOrderIsTheTasks(rs);
    TrialRowsColoured(rs);
    forall k ensures OfTask(Interleaved(rs), k) == OfTask(rs, k) {
      KeepsEachQueue(TrialRows(rs), TaskOrder(rs), ByTask, k);
      if k in TaskOrder(rs) {
        var i :| 0 <= i < |TaskOrder(rs)| && TaskOrder(rs)[i] == k;
      }
    }
    assert forall k :: Pick(Interleaved(rs), ByTask, k) == OfTask(Interleaved(rs), k) == Pick(rs, ByTask, k);
    SamePicksPermute(Interleaved(rs), rs, ByTask);
  }

  /** In any prefix of the interleaving, a task is more than one trial behind
      another only when all its trials are already in the prefix. */
  lemma InterleavingIsFair(rs: seq<Trial>, n: nat, ahead: TaskKey, behind: TaskKey)
    requires n <= |Interleaved(rs)|
    requires OfTask(rs, behind) != []
    requires |OfTask(Interleaved(rs)[..n], ahead)| > |OfTask(Interleaved(rs)[..n], behind)| + 1
    ensures OfTask(Interleaved(rs)[..n], behind) == OfTask(rs, behind)
  {
    var order, out := TaskOrder(rs), Interleaved(rs);
    TaskOrderIsTheTasks(rs);
    TrialRowsColoured(rs);
    KeepsEachQueue(TrialRows(rs), order, ByTask, ahead);
    PickPrefixNoLonger(out, n, ByTask, ahead);
    assert ahead in order;
    var i :| 0 <= i < |order| && order[i] == ahead;
    var j :| 0 <= j < |order| && order[j] == behind;
    Fair(TrialRows(rs), order, ByTask, n, i, j);
  }

  // ---- the loops of the two scripts -------------------------------------------------------

  /** The three collections the grouping loop fills. */
  datatype Groups = Groups(trials: map<TaskKey, seq<Trial>>, benches: seq<string>, tasks: map<string, seq<TaskKey>>)

  function AddTrial(g: Groups, t: Trial): Groups {
    var k := KeyOf(t);
    var tasks := if t.bench in g.tasks then g.tasks[t.bench] else [];
    Groups(g.trials[k := (if k in g.trials then g.trials[k] else []) + [t]],
           if t.bench in g.benches then g.benches else g.benches + [t.bench],
           if k in g.trials then g.tasks else g.tasks[t.bench := tasks + [k]])
  }

  /** `g` groups the records `rs`, whose tasks are `keys`. */
  ghost predicate Grouped(rs: seq<Trial>, keys: seq<TaskKey>, g: Groups) {
    && (forall k :: k in g.trials <==> k in keys)
    && (forall k :: k in keys ==> k.bench in g.benches)
    && (forall k :: k !in g.trials ==> OfTask(rs, k) == [])
    && (forall k :: k in g.trials ==> g.trials[k] == OfTask(rs, k))
    && (forall b :: b in g.benches <==> b in g.tasks)
    && (forall b :: b in g.tasks ==> g.tasks[b] == Pick(keys, ByBench, b))
  }

  lemma GroupNext(rs: seq<Trial>, t: Trial, k: TaskKey)
    ensures OfTask(rs + [t], k) == if k == KeyOf(t) then OfTask(rs, k) + [t] else OfTask(rs, k)
  {
    PickSnoc(rs, t, ByTask, k);
  }

  lemma BenchTasksNext(keys: seq<TaskKey>, k: TaskKey, b: string)
    ensures Pick(keys + [k], ByBench, b) == if b == k.bench then Pick(keys, ByBench, b) + [k] else Pick(keys, ByBench, b)
  {
    PickSnoc(keys, k, ByBench, b);
  }

  lemma GroupsNext(rs: seq<Trial>, t: Trial, groups: map<TaskKey, seq<Trial>>)
    requires forall k :: k in groups ==> groups[k] == OfTask(rs, k)
    requires forall k :: k !in groups ==> OfTask(rs, k) == []
    ensures var groups' := groups[KeyOf(t) := (if KeyOf(t) in groups then groups[KeyOf(t)] else []) + [t]];
            && (forall k :: k in groups' ==> groups'[k] == OfTask(rs + [t], k))
            && (forall k :: k !in groups' ==> OfTask(rs + [t], k) == [])
  {
    forall k ensures OfTask(rs + [t], k) == if k == KeyOf(t) then OfTask(rs, k) + [t] else OfTask(rs, k) {
      GroupNext(rs, t, k);
    }
  }

  lemma QueuesNext(keys: seq<TaskKey>, k: TaskKey, benches: seq<string>, byBench: map<string, seq<TaskKey>>)
    requires forall q :: q in keys ==> q.bench in benches
    requires forall b :: b in byBench ==> b in benches
    requires forall b :: b in benches ==> b in byBench
    requires forall b :: b in byBench ==> byBench[b] == Pick(keys, ByBench, b)
    ensures var byBench' := byBench[k.bench := (if k.bench in byBench then byBench[k.bench] else []) + [k]];
            forall b :: b in byBench' ==> byBench'[b] == Pick(keys + [k], ByBench, b)
  {
    if k.bench !in byBench {
      PickNone(keys, ByBench, k.bench);
    }
    forall b ensures Pick(keys + [k], ByBench, b) == if b == k.bench then Pick(keys, ByBench, b) + [k] else Pick(keys, ByBench, b) {
      BenchTasksNext(keys, k, b);
    }
  }

  lemma GroupedKnown(rs: seq<Trial>, t: Trial, keys: seq<TaskKey>, g: Groups)
    requires Grouped(rs, keys, g) && KeyOf(t) in keys
    ensures Grouped(rs + [t], keys, AddTrial(g, t))
  {
    GroupsNext(rs, t, g.trials);
  }

  lemma GroupedNew(rs: seq<Trial>, t: Trial, keys: seq<TaskKey>, g: Groups)
    requires Grouped(rs, keys, g) && KeyOf(t) !in keys
    ensures Grouped(rs + [t], keys + [KeyOf(t)], AddTrial(g, t))
  {
    GroupsNext(rs, t, g.trials);
    QueuesNext(keys, KeyOf(t), g.benches, g.tasks);
  }

  lemma GroupedNext(rs: seq<Trial>, t: Trial, keys: seq<TaskKey>, g: Groups)
    requires Grouped(rs, keys, g)
    ensures Grouped(rs + [t], if KeyOf(t) in keys then keys else keys + [KeyOf(t)], AddTrial(g, t))
  {
    if KeyOf(t) in keys {
      GroupedKnown(rs, t, keys, g);
    } else {
      GroupedNew(rs, t, keys, g);
    }
  }

  lemma FirstSeenNext(rs: seq<Trial>, t: Trial)
    ensures Keys(rs + [t]) == if KeyOf(t) in Keys(rs) then Keys(rs) else Keys(rs) + [KeyOf(t)]
    ensures BenchOrder(rs + [t]) == if t.bench in BenchOrder(rs) then BenchOrder(rs) else BenchOrder(rs) + [t.bench]
  {
    assert (rs + [t])[..|rs|] == rs;
  }

  lemma GroupedTurn(rs: seq<Trial>, n: nat, g: Groups)
    requires n < |rs| && Grouped(rs[..n], Keys(rs[..n]), g) && g.benches == BenchOrder(rs[..n])
    ensures Grouped(rs[..n + 1], Keys(rs[..n + 1]), AddTrial(g, rs[n]))
    ensures AddTrial(g, rs[n]).benches == BenchOrder(rs[..n + 1])
  {
    GroupedNext(rs[..n], rs[n], Keys(rs[..n]), g);
    FirstSeenNext(rs[..n], rs[n]);
    TakeSnoc(rs, n);
  }

  /** One turn of the grouping loop. */
  method GroupRecord(g: Groups, record: Trial) returns (g': Groups)
    ensures g' == AddTrial(g, record)
  {
    var groups, benchOrder, tasksByBench := g.trials, g.benches, g.tasks;
    var bench, key := record.bench, KeyOf(record);
    if bench !in benchOrder {
      benchOrder := benchOrder + [bench];
    }
    if key !in groups {
      tasksByBench := tasksByBench[bench := (if bench in tasksByBench then tasksByBench[bench] else []) + [key]];
      groups := groups[key := []];
    }
    groups := groups[key := groups[key] + [record]];
    g' := Groups(groups, benchOrder, tasksByBench);
  }

  /** The grouping loop that launch_trials.py and split_plan_chunks.py share. */
  method GroupByTask(rs: seq<Trial>) returns (g: Groups)
    ensures Grouped(rs, Keys(rs), g)
    ensures g.benches == BenchOrder(rs)
  {
    g := Groups(map[], [], map[]);
    for n := 0 to |rs|
      invariant Grouped(rs[..n], Keys(rs[..n]), g)
      invariant g.benches == BenchOrder(rs[..n])
    {
      GroupedTurn(rs, n, g);
      g := GroupRecord(g, rs[n]);
    }
    assert rs[..|rs|] == rs;
  }

  lemma GroupedRows(rs: seq<Trial>, g: Groups)
    requires Grouped(rs, Keys(rs), g) && g.benches == BenchOrder(rs)
    ensures NoDuplicates(g.benches) && forall b :: b in g.benches ==> b in g.tasks
    ensures Rows(g.benches, g.tasks) == TaskRows(rs)
  {
    KeysAreTheTasks(rs);
    var rows := Rows(g.benches, g.tasks);
    forall i | 0 <= i < |rows| ensures rows[i] == TaskRows(rs)[i] {
      assert g.benches[i] in g.tasks;
    }
  }

  lemma OrderIsKeys(rs: seq<Trial>)
    ensures forall k :: k in TaskOrder(rs) <==> k in Keys(rs)
  {
    KeysAreTheTasks(rs);
    TaskOrderIsTheTasks(rs);
  }

  /** task_window_groups: the task order and each task's queue of trials. */
  method TaskWindowGroups(rs: seq<Trial>) returns (order: seq<TaskKey>, groups: map<TaskKey, seq<Trial>>)
    ensures order == TaskOrder(rs)
    ensures forall k :: k in groups <==> k in order
    ensures forall k :: k in groups ==> groups[k] == OfTask(rs, k)
  {
    var g := GroupByTask(rs);
    GroupedRows(rs, g);
    order := DrainWhileAny(g.benches, g.tasks);
    groups := g.trials;
    OrderIsKeys(rs);
  }

  /** interleave_records_by_task. */
  method InterleaveByTask(rs: seq<Trial>) returns (out: seq<Trial>)
    ensures out == Interleaved(rs)
  {
    var order, groups := TaskWindowGroups(rs);
    TaskOrderIsTheTasks(rs);
    assert Rows(order, groups) == TrialRows(rs);
    out := DrainWhileRemaining(order, groups);
  }

  // ---- chunks -----------------------------------------------------------------------------

  /** All trials of the listed tasks, task after task. */
  function Gather(rs: seq<Trial>, keys: seq<TaskKey>): seq<Trial> {
    if keys == [] then [] else OfTask(rs, keys[0]) + Gather(rs, keys[1..])
  }

  lemma GatherConcat(rs: seq<Trial>, a: seq<TaskKey>, b: seq<TaskKey>)
    ensures Gather(rs, a + b) == Gather(rs, a) + Gather(rs, b)
  {
    if a == [] {
      assert a + b == b;
    } else {
      assert (a + b)[1..] == a[1..] + b;
      GatherConcat(rs, a[1..], b);
    }
  }

  /** What gathering distinct tasks holds of one task: all of it or none of it. */
  lemma {:induction false} GatherIsWholeTasks(rs: seq<Trial>, keys: seq<TaskKey>, k: TaskKey)
    requires NoDuplicates(keys)
    ensures OfTask(Gather(rs, keys), k) == if k in keys then OfTask(rs, k) else []
  {
    if keys != [] {
      var own := OfTask(rs, keys[0]);
      assert NoDuplicates(keys[1..]);
      GatherIsWholeTasks(rs, keys[1..], k);
      PickConcat(own, Gather(rs, keys[1..]), ByTask, k);
      PickOfPick(rs, keys[0], k);
      assert k in keys <==> k == keys[0] || k in keys[1..];
    }
  }

  lemma PickOfPick(rs: seq<Trial>, own: TaskKey, k: TaskKey)
    ensures OfTask(OfTask(rs, own), k) == if k == own then OfTask(rs, own) else []
  {
    if rs != [] {
      PickOfPick(rs[1..], own, k);
      var first: seq<Trial> := if KeyOf(rs[0]) == own then [rs[0]] else [];
      PickConcat(first, OfTask(rs[1..], own), ByTask, k);
    }
  }

  /** The rows of one chunk, task by task. */
  method ChunkRows(rs: seq<Trial>, keys: seq<TaskKey>, groups: map<TaskKey, seq<Trial>>) returns (rows: seq<Trial>)
    requires forall k :: k in keys ==> k in groups && groups[k] == OfTask(rs, k)
    ensures rows == Gather(rs, keys)
  {
    rows := [];
    for i := 0 to |keys|
      invariant rows == Gather(rs, keys[..i])
    {
      TakeSnoc(keys, i);
      GatherConcat(rs, keys[..i], [keys[i]]);
      rows := rows + groups[keys[i]];
    }
    assert keys[..|keys|] == keys;
  }

  function Min(a: int, b: int): int { if a <= b then a else b }

  /** Consecutive blocks of `n`; the last one takes what is left. */
  function Blocks<K>(keys: seq<K>, n: nat): seq<seq<K>>
    requires 0 < n
  {
    if keys == [] then []
    else [keys[..Min(n, |keys|)]] + Blocks(keys[Min(n, |keys|)..], n)
  }

  /** The chunk made of each block of tasks. */
  function Chunks(rs: seq<Trial>, blocks: seq<seq<TaskKey>>): (r: seq<seq<Trial>>)
    ensures |r| == |blocks|
  {
    seq(|blocks|, c requires 0 <= c < |blocks| => Gather(rs, blocks[c]))
  }

  lemma {:induction false} BlocksCover<K>(keys: seq<K>, n: nat)
    requires 0 < n
    ensures Flatten(Blocks(keys, n)) == keys
    ensures forall c :: 0 <= c < |Blocks(keys, n)| - 1 ==> |Blocks(keys, n)[c]| == n
    ensures forall c :: 0 <= c < |Blocks(keys, n)| ==> 1 <= |Blocks(keys, n)[c]| <= n
  {
    if keys != [] {
      var m := Min(n, |keys|);
      BlocksCover(keys[m..], n);
      assert keys[..m] + keys[m..] == keys;
    }
  }

  lemma NextChunk(rs: seq<Trial>, keys: seq<TaskKey>, n: nat, start: nat)
    requires 0 < n && start < |keys|
    ensures var next := Min(start + n, |keys|);
            Chunks(rs, Blocks(keys[start..], n))
            == [Gather(rs, keys[start..next])] + Chunks(rs, Blocks(keys[next..], n))
  {
    var next := Min(start + n, |keys|);
    assert keys[start..][..next - start] == keys[start..next];
    assert keys[start..][next - start..] == keys[next..];
  }

  /** The slicing loop of split_chunks. */
  method ChunkTasks(rs: seq<Trial>, keys: seq<TaskKey>, groups: map<TaskKey, seq<Trial>>, n: nat)
    returns (chunks: seq<seq<Trial>>)
    requires 0 < n
    requires forall k :: k in keys ==> k in groups && groups[k] == OfTask(rs, k)
    ensures chunks == Chunks(rs, Blocks(keys, n))
  {
    chunks := [];
    var start := 0;
    while start < |keys|
      invariant 0 <= start <= |keys|
      invariant Chunks(rs, Blocks(keys, n)) == chunks + Chunks(rs, Blocks(keys[start..], n))
    {
      var next := Min(start + n, |keys|);
      var rows := ChunkRows(rs, keys[start..next], groups);
      NextChunk(rs, keys, n, start);
      AssocSeq(chunks, [rows], Chunks(rs, Blocks(keys[next..], n)));
      chunks := chunks + [rows];
      start := next;
    }
  }

  /** split_chunks: consecutive blocks of the task order, each task whole. */
  method SplitChunks(rs: seq<Trial>, tasksPerChunk: int)
    returns (chunks: Result<seq<seq<Trial>>, string>)
    ensures chunks.Err? <==> tasksPerChunk <= 0
    ensures chunks.Ok? ==> chunks.value == Chunks(rs, Blocks(TaskOrder(rs), tasksPerChunk))
  {
    if tasksPerChunk <= 0 {
      return Err("tasks_per_chunk must be > 0");
    }
    var keys, groups := TaskWindowGroups(rs);
    var out := ChunkTasks(rs, keys, groups, tasksPerChunk);
    chunks := Ok(out);
  }

  lemma {:induction false} GatherBlocks(rs: seq<Trial>, blocks: seq<seq<TaskKey>>)
    ensures Flatten(Chunks(rs, blocks)) == Gather(rs, Flatten(blocks))
  {
    if blocks != [] {
      GatherBlocks(rs, blocks[1..]);
      assert Chunks(rs, blocks)[1..] == Chunks(rs, blocks[1..]);
      GatherConcat(rs, blocks[0], Flatten(blocks[1..]));
    }
  }

  /** All chunks together are a permutation of the plan. */
  lemma ChunksArePlan(rs: seq<Trial>, n: nat)
    requires 0 < n
    ensures multiset(Flatten(Chunks(rs, Blocks(TaskOrder(rs), n)))) == multiset(rs)
  {
    var keys := TaskOrder(rs);
    BlocksCover(keys, n);
    GatherBlocks(rs, Blocks(keys, n));
    TaskOrderIsTheTasks(rs);
    forall k ensures Pick(Gather(rs, keys), ByTask, k) == Pick(rs, ByTask, k) {
      GatherIsWholeTasks(rs, keys, k);
      assert OfTask(rs, k) == Pick(rs, ByTask, k);
    }
    SamePicksPermute(Gather(rs, keys), rs, ByTask);
  }

  /** Where element `i` of block `c` stands in the flattened list. */
  lemma {:induction false} BlockPosition<K>(blocks: seq<seq<K>>, c: nat, i: nat) returns (p: nat)
    requires c < |blocks| && i < |blocks[c]|
    ensures p < |Flatten(blocks)| && Flatten(blocks)[p] == blocks[c][i]
    ensures p < |Flatten(blocks[..c + 1])| && |Flatten(blocks[..c])| <= p
  {
    if c == 0 {
      p := i;
      assert blocks[..1] == [blocks[0]];
      assert Flatten(blocks[..1]) == blocks[0] + Flatten([]);
    } else {
      var q := BlockPosition(blocks[1..], c - 1, i);
      p := |blocks[0]| + q;
      assert blocks[..c + 1][1..] == blocks[1..][..c] && blocks[..c][1..] == blocks[1..][..c - 1];
    }
  }

  lemma {:induction false} FlattenPrefixGrows<K>(blocks: seq<seq<K>>, c: nat, d: nat)
    requires c <= d <= |blocks|
    ensures |Flatten(blocks[..c])| <= |Flatten(blocks[..d])|
  {
    if c > 0 {
      assert blocks[..c][1..] == blocks[1..][..c - 1] && blocks[..d][1..] == blocks[1..][..d - 1];
      FlattenPrefixGrows(blocks[1..], c - 1, d - 1);
    }
  }

  lemma BlocksDisjoint<K>(blocks: seq<seq<K>>, c: nat, d: nat, i: nat, j: nat)
    requires NoDuplicates(Flatten(blocks))
    requires c < d < |blocks| && i < |blocks[c]| && j < |blocks[d]|
    ensures blocks[c][i] != blocks[d][j]
  {
    var p := BlockPosition(blocks, c, i);
    var q := BlockPosition(blocks, d, j);
    FlattenPrefixGrows(blocks, c + 1, d);
  }

  lemma {:induction false} FlattenNoDuplicates<K>(blocks: seq<seq<K>>, c: nat)
    requires NoDuplicates(Flatten(blocks)) && c < |blocks|
    ensures NoDuplicates(blocks[c])
    ensures forall x :: x in blocks[c] ==> x in Flatten(blocks)
  {
    if c == 0 {
      assert Flatten(blocks)[..|blocks[0]|] == blocks[0];
    } else {
      assert Flatten(blocks)[|blocks[0]|..] == Flatten(blocks[1..]);
      FlattenNoDuplicates(blocks[1..], c - 1);
    }
  }

  lemma BlocksKeepTasksWhole(rs: seq<Trial>, blocks: seq<seq<TaskKey>>, c: nat, d: nat, k: TaskKey)
    requires NoDuplicates(Flatten(blocks)) && c < |blocks| && d < |blocks|
    ensures OfTask(Gather(rs, blocks[c]), k) == if k in blocks[c] then OfTask(rs, k) else []
    ensures c != d ==> OfTask(Gather(rs, blocks[c]), k) == [] || OfTask(Gather(rs, blocks[d]), k) == []
  {
    FlattenNoDuplicates(blocks, c);
    FlattenNoDuplicates(blocks, d);
    GatherIsWholeTasks(rs, blocks[c], k);
    GatherIsWholeTasks(rs, blocks[d], k);
    if c != d && k in blocks[c] && k in blocks[d] {
      var i :| 0 <= i < |blocks[c]| && blocks[c][i] == k;
      var j :| 0 <= j < |blocks[d]| && blocks[d][j] == k;
      if c < d {
        BlocksDisjoint(blocks, c, d, i, j);
      } else {
        BlocksDisjoint(blocks, d, c, j, i);
      }
    }
  }

  /** Chunks never split a task, no task is in two chunks, and every chunk but
      the last holds exactly `n` tasks. */
  lemma ChunksKeepTasksWhole(rs: seq<Trial>, n: nat, c: nat, d: nat, k: TaskKey)
    requires 0 < n && c < |Blocks(TaskOrder(rs), n)| && d < |Blocks(TaskOrder(rs), n)|
    ensures var blocks := Blocks(TaskOrder(rs), n);
            var chunks := Chunks(rs, blocks);
            && OfTask(chunks[c], k) == (if k in blocks[c] then OfTask(rs, k) else [])
            && (k in blocks[c] <==> OfTask(chunks[c], k) != [])
            && (c != d ==> OfTask(chunks[c], k) == [] || OfTask(chunks[d], k) == [])
            && (c + 1 < |chunks| ==> |blocks[c]| == n)
  {
    var blocks := Blocks(TaskOrder(rs), n);
    TaskOrderIsTheTasks(rs);
    BlocksCover(TaskOrder(rs), n);
    BlocksKeepTasksWhole(rs, blocks, c, d, k);
    FlattenNoDuplicates(blocks, c);
    assert k in blocks[c] ==> k in TaskOrder(rs);
  }
}
