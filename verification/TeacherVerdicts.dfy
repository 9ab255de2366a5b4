/** The whole output of the teacher plan generator, for any settings: the tasks in order, the
    verdict on each, and what the verdicts add up to. */
module TeacherVerdicts {
  import opened Plans
  import opened Text
  import opened Sorting
  import opened Grouping
  import opened TeacherPlans
  import opened TeacherMeanings

  // ---- the order of the tasks -------------------------------------------------------------

  /** By bench, and within a bench by task, in dictionary order. */
  ghost predicate ComesFirst(a: TaskKey, b: TaskKey) {
    Precedes(a.bench, b.bench) || (a.bench == b.bench && Precedes(a.task, b.task))
  }

  /** Every task that was attempted, once, in that order. */
  ghost predicate AttemptedInOrder(plan: seq<Record>, order: seq<TaskKey>) {
    && NoDuplicates(order)
    && (forall k :: k in order <==> AttemptsOf(plan, k.bench, k.task) != [])
    && (forall i, j :: 0 <= i < j < |order| ==> !ComesFirst(order[j], order[i]))
  }

  lemma KeyOrderIs(a: TaskKey, b: TaskKey)
    ensures LessKey(a, b) <==> ComesFirst(a, b)
  {
    LessTextIff(a.bench, b.bench);
    LessTextIff(a.task, b.task);
  }

  lemma KeysCompare(a: TaskKey, b: TaskKey)
    ensures LessKey(a, b) || LessKey(b, a) || a == b
  {
    LessTextTotal(a.bench, b.bench);
    LessTextTotal(a.task, b.task);
  }

  lemma KeysChain(a: TaskKey, b: TaskKey, c: TaskKey)
    requires LessKey(a, b) && LessKey(b, c)
    ensures LessKey(a, c)
  {
    LessTextTransitive(a.bench, b.bench, c.bench);
    LessTextTransitive(a.task, b.task, c.task);
  }

  lemma KeyOrderIsTotal()
    ensures Sorting.Total(LessKey)
  {
    KeyOrderIsStrict();
    forall a, b ensures LessKey(a, b) || LessKey(b, a) || a == b {
      KeysCompare(a, b);
    }
    forall a, b, c ensures LessKey(a, b) && LessKey(b, c) ==> LessKey(a, c) {
      if LessKey(a, b) && LessKey(b, c) {
        KeysChain(a, b, c);
      }
    }
  }

  lemma TasksAreInOrder(plan: seq<Record>)
    ensures AttemptedInOrder(plan, Tasks(Phase1Only(plan)))
  {
    var rs := Phase1Only(plan);
    var order := Tasks(rs);
    TasksHaveRecords(rs);
    forall k ensures k in order <==> AttemptsOf(plan, k.bench, k.task) != [] {
      AttemptsArePicked(plan, k.bench, k.task);
    }
    KeyOrderIsTotal();
    SortedIsOrdered(LessKey, Keys(Trials(rs)));
    forall i, j | 0 <= i < j < |order| ensures !ComesFirst(order[j], order[i]) {
      NeverBefore(LessKey, order, i, j);
      KeyOrderIs(order[j], order[i]);
    }
  }

  // ---- the verdict on a task --------------------------------------------------------------

  /** Some attempt of the task has no result yet. */
  ghost predicate Unfinished(plan: seq<Record>, disk: Disk, k: TaskKey) {
    exists r :: r in plan && IsAttempt(r, k.bench, k.task) && r.trial.id !in disk.results
  }

  ghost predicate Begun(plan: seq<Record>, disk: Disk, k: TaskKey) {
    exists r :: r in plan && IsAttempt(r, k.bench, k.task) && r.trial.id in disk.results
  }

  ghost predicate Solved(plan: seq<Record>, disk: Disk, k: TaskKey) {
    exists r :: r in plan && IsAttempt(r, k.bench, k.task) && r.trial.id in disk.results && disk.results[r.trial.id].resolved
  }

  /** Whether the task is capped away, when `before` tasks have got records already. */
  predicate Capped(settings: Settings, before: nat) {
    settings.limitTasks > 0 && before >= settings.limitTasks
  }

  /** `n` attempts of the task have no result. */
  predicate LackResults(plan: seq<Record>, disk: Disk, k: TaskKey, n: nat) {
    var rs := AttemptsOf(plan, k.bench, k.task);
    |rs| == |FinishedAttempts(rs, disk)| + n
  }

  /** The first that holds: some attempt has no result and all must have one; none has one; one of
      the results resolves the task; enough tasks have got records. Otherwise the task gets its. */
  ghost predicate IsVerdict(settings: Settings, plan: seq<Record>, disk: Disk, k: TaskKey, before: nat, d: Decision) {
    if settings.requireComplete && Unfinished(plan, disk, k) then
      d.Incomplete? && LackResults(plan, disk, k, d.missing)
    else if !Begun(plan, disk, k) then d == NotRun
    else if Solved(plan, disk, k) then d == AlreadySucceeded
    else if Capped(settings, before) then d == LimitReached
    else d.Fallback? && AreTeacherRecords(settings, plan, disk, k.bench, k.task, d.records)
  }

  lemma {:induction false} SomeOutcome(rs: seq<Record>, disk: Disk)
    ensures |OutcomesOf(rs, disk)| < |rs| <==> exists i :: 0 <= i < |rs| && rs[i].trial.id !in disk.results
    ensures OutcomesOf(rs, disk) != [] <==> exists i :: 0 <= i < |rs| && rs[i].trial.id in disk.results
    ensures AnyResolved(OutcomesOf(rs, disk)) <==>
      exists i :: 0 <= i < |rs| && rs[i].trial.id in disk.results && disk.results[rs[i].trial.id].resolved
  {
    OutcomesTell(rs, disk);
    if rs != [] {
      var init := rs[..|rs| - 1];
      SomeOutcome(init, disk);
      assert forall i :: 0 <= i < |init| ==> rs[i] == init[i];
    }
  }

  lemma AttemptAt(plan: seq<Record>, k: TaskKey, rs: seq<Record>, p: Record -> bool)
    requires rs == AttemptsOf(plan, k.bench, k.task)
    ensures (exists i :: 0 <= i < |rs| && p(rs[i])) <==> exists r :: r in plan && IsAttempt(r, k.bench, k.task) && p(r)
  {
    if i :| 0 <= i < |rs| && p(rs[i]) {
      AttemptsMembers(plan, k.bench, k.task, rs[i]);
    }
    if r :| r in plan && IsAttempt(r, k.bench, k.task) && p(r) {
      AttemptsMembers(plan, k.bench, k.task, r);
      var i :| 0 <= i < |rs| && rs[i] == r;
    }
  }

  lemma AttemptsTell(plan: seq<Record>, disk: Disk, k: TaskKey, rs: seq<Record>)
    requires rs == AttemptsOf(plan, k.bench, k.task)
    ensures |OutcomesOf(rs, disk)| < |rs| <==> Unfinished(plan, disk, k)
    ensures OutcomesOf(rs, disk) != [] <==> Begun(plan, disk, k)
    ensures AnyResolved(OutcomesOf(rs, disk)) <==> Solved(plan, disk, k)
  {
    var open := (r: Record) => r.trial.id !in disk.results;
    var done := (r: Record) => r.trial.id in disk.results;
    var good := (r: Record) => r.trial.id in disk.results && disk.results[r.trial.id].resolved;
    SomeOutcome(rs, disk);
    AttemptAt(plan, k, rs, open);
    AttemptAt(plan, k, rs, done);
    AttemptAt(plan, k, rs, good);
    assert (exists i :: 0 <= i < |rs| && rs[i].trial.id !in disk.results) <==> exists i :: 0 <= i < |rs| && open(rs[i]);
    assert (exists i :: 0 <= i < |rs| && rs[i].trial.id in disk.results) <==> exists i :: 0 <= i < |rs| && done(rs[i]);
    assert (exists i :: 0 <= i < |rs| && rs[i].trial.id in disk.results && disk.results[rs[i].trial.id].resolved)
      <==> exists i :: 0 <= i < |rs| && good(rs[i]);
  }

  lemma RecordsAreTheirs(settings: Settings, plan: seq<Record>, disk: Disk, k: TaskKey, rs: seq<Record>)
    requires rs == AttemptsOf(plan, k.bench, k.task) && rs != []
    ensures AreTeacherRecords(settings, plan, disk, k.bench, k.task, TeacherRecords(settings, k, rs[0].run, OutcomesOf(rs, disk)))
  {
    AttemptsMembers(plan, k.bench, k.task, rs[0]);
    FinishedAreOutcomes(rs, disk);
  }

  lemma DecideMeans(settings: Settings, plan: seq<Record>, disk: Disk, k: TaskKey, before: nat, rs: seq<Record>)
    requires rs == AttemptsOf(plan, k.bench, k.task) && rs != []
    ensures IsVerdict(settings, plan, disk, k, before, Decide(settings, before, k, rs, disk))
  {
    AttemptsTell(plan, disk, k, rs);
    FinishedAreOutcomes(rs, disk);
    RecordsAreTheirs(settings, plan, disk, k, rs);
  }

  // ---- what the verdicts add up to --------------------------------------------------------

  function Fallbacks(ds: seq<Decision>): nat {
    if ds == [] then 0 else Fallbacks(ds[..|ds| - 1]) + if ds[|ds| - 1].Fallback? then 1 else 0
  }

  function Incompletes(ds: seq<Decision>): nat {
    if ds == [] then 0 else Incompletes(ds[..|ds| - 1]) + if ds[|ds| - 1].Incomplete? then 1 else 0
  }

  /** All records, task after task. */
  function AllRecords(ds: seq<Decision>): seq<TeacherRecord> {
    if ds == [] then []
    else AllRecords(ds[..|ds| - 1]) + if ds[|ds| - 1].Fallback? then ds[|ds| - 1].records else []
  }

  /** The tasks without records, each with its verdict. */
  ghost predicate SkipsAre(order: seq<TaskKey>, ds: seq<Decision>, skips: map<TaskKey, Decision>)
    requires |ds| == |order|
  {
    && (forall k :: k in skips <==> exists i :: 0 <= i < |order| && order[i] == k && !ds[i].Fallback?)
    && (forall i :: 0 <= i < |order| && !ds[i].Fallback? ==> order[i] in skips && skips[order[i]] == ds[i])
  }

  ghost predicate AddsUpTo(order: seq<TaskKey>, ds: seq<Decision>, b: Build)
    requires |ds| == |order|
  {
    && b.records == AllRecords(ds) && SkipsAre(order, ds, b.skips)
    && b.generated == Fallbacks(ds) && b.incomplete == Incompletes(ds)
  }

  /** Each verdict, given how many tasks before it got records. */
  ghost predicate AreVerdicts(settings: Settings, plan: seq<Record>, disk: Disk, order: seq<TaskKey>, ds: seq<Decision>) {
    |ds| == |order| && forall i :: 0 <= i < |ds| ==> IsVerdict(settings, plan, disk, order[i], Fallbacks(ds[..i]), ds[i])
  }

  lemma OneMoreVerdict(settings: Settings, plan: seq<Record>, disk: Disk, order: seq<TaskKey>, ds: seq<Decision>,
                       k: TaskKey, d: Decision)
    requires AreVerdicts(settings, plan, disk, order, ds) && IsVerdict(settings, plan, disk, k, Fallbacks(ds), d)
    ensures AreVerdicts(settings, plan, disk, order + [k], ds + [d])
  {
    var all := ds + [d];
    forall i | 0 <= i < |all| ensures IsVerdict(settings, plan, disk, (order + [k])[i], Fallbacks(all[..i]), all[i]) {
      if i < |ds| {
        assert all[..i] == ds[..i];
      } else {
        assert all[..i] == ds;
      }
    }
  }

  lemma OneMoreSkip(order: seq<TaskKey>, ds: seq<Decision>, skips: map<TaskKey, Decision>, k: TaskKey, d: Decision)
    requires |ds| == |order| && SkipsAre(order, ds, skips) && k !in order
    ensures SkipsAre(order + [k], ds + [d], if d.Fallback? then skips else skips[k := d])
  {
    var all, after := order + [k], if d.Fallback? then skips else skips[k := d];
    forall q ensures q in after <==> exists i :: 0 <= i < |all| && all[i] == q && !(ds + [d])[i].Fallback? {
      if q == k {
        assert all[|order|] == q;
      } else if q in skips {
        var i :| 0 <= i < |order| && order[i] == q && !ds[i].Fallback?;
        assert all[i] == q;
      }
    }
  }

  lemma OneMoreAdds(order: seq<TaskKey>, ds: seq<Decision>, b: Build, k: TaskKey, d: Decision)
    requires |ds| == |order| && AddsUpTo(order, ds, b) && k !in order
    ensures AddsUpTo(order + [k], ds + [d], AddTask(b, k, d))
  {
    OneMoreSkip(order, ds, b.skips, k, d);
    assert (ds + [d])[..|ds|] == ds;
  }

  lemma {:induction false} BuiltMeans(settings: Settings, plan: seq<Record>, disk: Disk, keys: seq<TaskKey>)
    returns (ds: seq<Decision>)
    requires NoDuplicates(keys) && AllHaveRecords(Phase1Only(plan), keys)
    ensures AreVerdicts(settings, plan, disk, keys, ds)
    ensures AddsUpTo(keys, ds, Built(settings, Phase1Only(plan), keys, disk))
  {
    if keys == [] {
      ds := [];
    } else {
      var rs := Phase1Only(plan);
      var init, k := keys[..|keys| - 1], keys[|keys| - 1];
      assert keys == init + [k];
      BuiltUnfolds(settings, rs, init, k, disk);
      LastIsNew(init, k, k);
      ds := BuiltMeans(settings, plan, disk, init);
      var b := Built(settings, rs, init, disk);
      var d := Decide(settings, b.generated, k, RecordsOf(rs, k), disk);
      AttemptsArePicked(plan, k.bench, k.task);
      DecideMeans(settings, plan, disk, k, b.generated, RecordsOf(rs, k));
      OneMoreVerdict(settings, plan, disk, init, ds, k, d);
      OneMoreAdds(init, ds, b, k, d);
      ds := ds + [d];
    }
  }

  /** The generator's output, for any plan it accepts and any settings: the attempted tasks in
      order, a verdict on each, the records of those that get some, the verdicts on the others,
      and the two counts. */
  lemma PlanMeans(settings: Settings, plan: seq<Record>, disk: Disk) returns (order: seq<TaskKey>, ds: seq<Decision>)
    requires Plan(settings, plan, disk).Ok?
    ensures AttemptedInOrder(plan, order) && AreVerdicts(settings, plan, disk, order, ds)
    ensures AddsUpTo(order, ds, Plan(settings, plan, disk).value)
  {
    var rs := Phase1Only(plan);
    order := Tasks(rs);
    TasksAreInOrder(plan);
    TasksHaveRecords(rs);
    if rs == [] {
      assert forall k :: k !in order;
      assert order == [];
      ds := [];
    } else {
      ds := BuiltMeans(settings, plan, disk, order);
    }
  }
}
