/** make_teacher_fallback_plan.py: which tasks get teacher records, from the
    attempts found on disk. */
module TeacherPlans {
  import opened Plans
  import opened Grouping
  import opened Sorting
  import opened Text

  datatype Record = Record(trial: Trial, run: string, role: string, mode: string)

  /** What one finished attempt shows: its verdict and the evidence quoted to the teacher. */
  datatype Outcome = Outcome(resolved: bool, evidence: string)

  /** The launcher's artifacts: trials with a status row, and trials whose
      trajectory exists, with what it says. */
  datatype Disk = Disk(status: set<string>, results: map<string, Outcome>)

  /** `context` is the text built from a task's attempts for the teacher's prompt. */
  datatype Settings = Settings(teacherTrials: int, requireComplete: bool, limitTasks: int,
                               context: (TaskKey, seq<(Record, Outcome)>) -> string)

  datatype TeacherRecord = TeacherRecord(key: TaskKey, run: string, trialIndex: int, context: string)

  datatype Decision =
    | Incomplete(missing: nat)
    | NotRun
    | AlreadySucceeded
    | LimitReached
    | Fallback(records: seq<TeacherRecord>)

  datatype Build = Build(records: seq<TeacherRecord>, skips: map<TaskKey, Decision>, incomplete: nat, generated: nat)

  const ByKey: Record -> TaskKey := (r: Record) => KeyOf(r.trial)

  /** The records the batch generator considers. */
  const Phase1: Record -> bool := (r: Record) =>
    && (r.mode == "student_use_skill" || r.mode == "student_no_skill")
    && r.role == "student" && !Contains(r.mode, "_reflection")

  /** The records the watcher considers: any student mode but the reflections. */
  const Watched: Record -> bool := (r: Record) =>
    r.role == "student" && "student_" <= r.mode && !Contains(r.mode, "_reflection")

  lemma Phase1IsWatched(r: Record)
    ensures Phase1(r) ==> Watched(r)
  {
    assert "student_use_skill" == "student_" + "use_skill";
    assert "student_no_skill" == "student_" + "no_skill";
  }

  function Trials(rs: seq<Record>): (ts: seq<Trial>)
    ensures |ts| == |rs|
  {
    seq(|rs|, i requires 0 <= i < |rs| => rs[i].trial)
  }

  function RecordsOf(rs: seq<Record>, k: TaskKey): seq<Record> {
    Pick(rs, ByKey, k)
  }

  function Phase1Only(rs: seq<Record>): seq<Record> {
    Pick(rs, Phase1, true)
  }

  predicate OneRun(rs: seq<Record>) {
    forall i, j :: 0 <= i < j < |rs| ==> rs[i].run == rs[j].run
  }

  // ---- the tasks, sorted ------------------------------------------------------------------

  predicate LessKey(a: TaskKey, b: TaskKey) {
    LessText(a.bench, b.bench) || (a.bench == b.bench && LessText(a.task, b.task))
  }

  lemma KeyOrderIsStrict()
    ensures Strict(LessKey)
  {
    forall a, b ensures LessKey(a, b) ==> !LessKey(b, a) {
      LessTextAsymmetric(a.bench, b.bench);
      LessTextAsymmetric(a.task, b.task);
    }
  }

  /** Every task of `rs` once, sorted by bench and task. */
  function Tasks(rs: seq<Record>): seq<TaskKey> {
    Sorted(LessKey, Keys(Trials(rs)))
  }

  // ---- one task ---------------------------------------------------------------------------

  predicate Terminal(r: Record, disk: Disk) {
    r.trial.id in disk.results
  }

  function OutcomesOf(rs: seq<Record>, disk: Disk): (out: seq<(Record, Outcome)>)
    ensures |out| <= |rs|
  {
    if rs == [] then []
    else
      var last := rs[|rs| - 1];
      OutcomesOf(rs[..|rs| - 1], disk) + if Terminal(last, disk) then [(last, disk.results[last.trial.id])] else []
  }

  predicate AnyResolved(out: seq<(Record, Outcome)>) {
    exists i :: 0 <= i < |out| && out[i].1.resolved
  }

  function TeacherRecords(settings: Settings, key: TaskKey, run: string, out: seq<(Record, Outcome)>): seq<TeacherRecord> {
    var n := if settings.teacherTrials > 0 then settings.teacherTrials else 0;
    var context := settings.context(key, out);
    seq(n, i => TeacherRecord(key, run, 90 + i, context))
  }

  /** The verdict on a task whose phase 1 records are `rs`, `generated` tasks so far. */
  function Decide(settings: Settings, generated: nat, key: TaskKey, rs: seq<Record>, disk: Disk): Decision
    requires rs != []
  {
    var out := OutcomesOf(rs, disk);
    if settings.requireComplete && |out| < |rs| then Incomplete(|rs| - |out|)
    else if out == [] then NotRun
    else if AnyResolved(out) then AlreadySucceeded
    else if settings.limitTasks > 0 && generated >= settings.limitTasks then LimitReached
    else Fallback(TeacherRecords(settings, key, rs[0].run, out))
  }

  // ---- the whole plan ---------------------------------------------------------------------

  function AddTask(b: Build, key: TaskKey, d: Decision): Build {
    match d
    case Fallback(records) => b.(records := b.records + records, generated := b.generated + 1)
    case Incomplete(_) => b.(skips := b.skips[key := d], incomplete := b.incomplete + 1)
    case _ => b.(skips := b.skips[key := d])
  }

  predicate AllHaveRecords(rs: seq<Record>, keys: seq<TaskKey>) {
    forall i :: 0 <= i < |keys| ==> RecordsOf(rs, keys[i]) != []
  }

  function Built(settings: Settings, rs: seq<Record>, keys: seq<TaskKey>, disk: Disk): Build
    requires AllHaveRecords(rs, keys)
  {
    if keys == [] then Build([], map[], 0, 0)
    else
      var before, key := Built(settings, rs, keys[..|keys| - 1], disk), keys[|keys| - 1];
      AddTask(before, key, Decide(settings, before.generated, key, RecordsOf(rs, key), disk))
  }

  lemma {:induction false} KeyHasRecords(rs: seq<Record>, k: TaskKey)
    ensures RecordsOf(rs, k) != [] <==> OfTask(Trials(rs), k) != []
  {
    if rs != [] {
      assert Trials(rs)[1..] == Trials(rs[1..]);
      KeyHasRecords(rs[1..], k);
    }
  }

  lemma TasksHaveRecords(rs: seq<Record>)
    ensures AllHaveRecords(rs, Tasks(rs)) && NoDuplicates(Tasks(rs))
    ensures forall k :: k in Tasks(rs) <==> RecordsOf(rs, k) != []
  {
    var keys := Keys(Trials(rs));
    KeysAreTheTasks(Trials(rs));
    KeyOrderIsStrict();
    SortedIsOrdered(LessKey, keys);
    forall k ensures k in Tasks(rs) <==> RecordsOf(rs, k) != [] {
      KeyHasRecords(rs, k);
      assert k in Tasks(rs) <==> k in multiset(Tasks(rs));
      assert k in keys <==> k in multiset(keys);
    }
    PermutedDistinct(keys, Tasks(rs));
  }

  function Plan(settings: Settings, plan: seq<Record>, disk: Disk): Result<Build, seq<string>> {
    var rs := Phase1Only(plan);
    if rs == [] then Ok(Build([], map[], 0, 0))
    else if !OneRun(rs) then Err(Runs(rs))
    else
      TasksHaveRecords(rs);
      Ok(Built(settings, rs, Tasks(rs), disk))
  }

  function Runs(rs: seq<Record>): seq<string> {
    seq(|rs|, i requires 0 <= i < |rs| => rs[i].run)
  }

  // ---- as loops ---------------------------------------------------------------------------

  method BuildOutcomes(rs: seq<Record>, disk: Disk)
    returns (outcomes: seq<(Record, Outcome)>, missing: seq<string>)
    ensures outcomes == OutcomesOf(rs, disk) && |missing| == |rs| - |outcomes|
    ensures forall id :: id in missing <==> exists i :: 0 <= i < |rs| && !Terminal(rs[i], disk) && rs[i].trial.id == id
  {
    outcomes, missing := [], [];
    var n := 0;
    while n < |rs|
      invariant n <= |rs| && outcomes == OutcomesOf(rs[..n], disk) && |missing| == n - |outcomes|
      invariant forall id :: id in missing <==> exists i :: 0 <= i < n && !Terminal(rs[i], disk) && rs[i].trial.id == id
    {
      var r := rs[n];
      assert rs[..n + 1][..n] == rs[..n];
      if r.trial.id in disk.results {
        outcomes := outcomes + [(r, disk.results[r.trial.id])];
      } else {
        missing := missing + [r.trial.id];
      }
      n := n + 1;
    }
    assert rs[..n] == rs;
  }

  method DecideTask(settings: Settings, generated: nat, key: TaskKey, rs: seq<Record>, disk: Disk)
    returns (d: Decision)
    requires rs != []
    ensures d == Decide(settings, generated, key, rs, disk)
  {
    var outcomes, missing := BuildOutcomes(rs, disk);
    if missing != [] && settings.requireComplete {
      return Incomplete(|missing|);
    }
    if outcomes == [] {
      return NotRun;
    }
    if exists i :: 0 <= i < |outcomes| && outcomes[i].1.resolved {
      return AlreadySucceeded;
    }
    if settings.limitTasks > 0 && generated >= settings.limitTasks {
      return LimitReached;
    }
    var records := [];
    var context := settings.context(key, outcomes);
    var trialIndex := 0;
    while trialIndex < settings.teacherTrials
      invariant 0 <= trialIndex && (trialIndex <= settings.teacherTrials || trialIndex == 0)
      invariant records == seq(trialIndex, i => TeacherRecord(key, rs[0].run, 90 + i, context))
    {
      records := records + [TeacherRecord(key, rs[0].run, 90 + trialIndex, context)];
      trialIndex := trialIndex + 1;
    }
    return Fallback(records);
  }

  method BuildTeacherRecords(settings: Settings, plan: seq<Record>, disk: Disk)
    returns (result: Result<Build, seq<string>>)
    ensures result == Plan(settings, plan, disk)
  {
    var rs := Phase1Only(plan);
    if rs == [] {
      return Ok(Build([], map[], 0, 0));
    }
    if !OneRun(rs) {
      return Err(Runs(rs));
    }
    TasksHaveRecords(rs);
    var keys := Tasks(rs);
    var build := Build([], map[], 0, 0);
    var n := 0;
    while n < |keys|
      invariant n <= |keys| && build == Built(settings, rs, keys[..n], disk)
    {
      assert keys[..n + 1][..n] == keys[..n];
      var d := DecideTask(settings, build.generated, keys[n], RecordsOf(rs, keys[n]), disk);
      build := AddTask(build, keys[n], d);
      n := n + 1;
    }
    assert keys[..n] == keys;
    return Ok(build);
  }

  // ---- who gets teacher records -----------------------------------------------------------

  const ByTeacherKey: TeacherRecord -> TaskKey := (t: TeacherRecord) => t.key

  predicate AllTerminal(rs: seq<Record>, disk: Disk) {
    forall i :: 0 <= i < |rs| ==> Terminal(rs[i], disk)
  }

  predicate NoneResolved(rs: seq<Record>, disk: Disk) {
    forall i :: 0 <= i < |rs| && Terminal(rs[i], disk) ==> !disk.results[rs[i].trial.id].resolved
  }

  lemma {:induction false} OutcomesTell(rs: seq<Record>, disk: Disk)
    ensures |OutcomesOf(rs, disk)| == |rs| <==> AllTerminal(rs, disk)
    ensures AnyResolved(OutcomesOf(rs, disk)) <==> !NoneResolved(rs, disk)
  {
    if rs != [] {
      var init, last := rs[..|rs| - 1], rs[|rs| - 1];
      OutcomesTell(init, disk);
      var out, before := OutcomesOf(rs, disk), OutcomesOf(init, disk);
      if Terminal(last, disk) {
        assert out == before + [(last, disk.results[last.trial.id])];
      }
      assert forall i :: 0 <= i < |before| ==> out[i] == before[i];
      if !NoneResolved(rs, disk) && Terminal(last, disk) && disk.results[last.trial.id].resolved {
        assert out[|before|].1.resolved;
      }
      if AnyResolved(before) {
        var i :| 0 <= i < |before| && before[i].1.resolved;
        assert out[i].1.resolved;
      }
      assert forall i :: 0 <= i < |init| ==> rs[i] == init[i];
    }
  }

  /** The teacher records a task is owed when nothing caps the number of tasks. */
  function Emitted(settings: Settings, key: TaskKey, rs: seq<Record>, disk: Disk): seq<TeacherRecord> {
    if rs != [] && AllTerminal(rs, disk) && NoneResolved(rs, disk)
    then TeacherRecords(settings, key, rs[0].run, OutcomesOf(rs, disk))
    else []
  }

  predicate Uncapped(settings: Settings) {
    settings.requireComplete && settings.limitTasks <= 0
  }

  lemma DecideEmits(settings: Settings, generated: nat, key: TaskKey, rs: seq<Record>, disk: Disk)
    requires rs != [] && Uncapped(settings)
    ensures var d := Decide(settings, generated, key, rs, disk);
      && (d.Incomplete? <==> !AllTerminal(rs, disk))
      && (if d.Fallback? then d.records == Emitted(settings, key, rs, disk) else Emitted(settings, key, rs, disk) == [])
  {
    OutcomesTell(rs, disk);
  }

  lemma EmittedKeys(settings: Settings, key: TaskKey, rs: seq<Record>, disk: Disk, k: TaskKey)
    ensures Pick(Emitted(settings, key, rs, disk), ByTeacherKey, k) ==
      if k == key then Emitted(settings, key, rs, disk) else []
  {
    var out := Emitted(settings, key, rs, disk);
    if k == key {
      PickAll(out, ByTeacherKey, k);
    } else {
      PickNone(out, ByTeacherKey, k);
    }
  }

  lemma {:induction false} PickAll<V, K>(s: seq<V>, colour: V -> K, k: K)
    requires forall v :: v in s ==> colour(v) == k
    ensures Pick(s, colour, k) == s
  {
    if s != [] {
      PickAll(s[1..], colour, k);
    }
  }

  /** Every task of the plan gets exactly what it is owed: teacher records when all
      its attempts are terminal and none resolved it, and nothing otherwise. */
  lemma {:induction false} BuiltPerTask(settings: Settings, rs: seq<Record>, keys: seq<TaskKey>, disk: Disk, k: TaskKey)
    requires Uncapped(settings) && NoDuplicates(keys) && AllHaveRecords(rs, keys)
    ensures Pick(Built(settings, rs, keys, disk).records, ByTeacherKey, k) ==
      if k in keys then Emitted(settings, k, RecordsOf(rs, k), disk) else []
  {
    if keys != [] {
      var init, key := keys[..|keys| - 1], keys[|keys| - 1];
      assert keys == init + [key];
      BuiltStep(settings, rs, init, key, disk, k);
      BuiltPerTask(settings, rs, init, disk, k);
      LastIsNew(init, key, k);
      AppendOnce(Emitted(settings, k, RecordsOf(rs, k), disk), k in init, k == key);
    }
  }

  lemma LastIsNew(init: seq<TaskKey>, key: TaskKey, k: TaskKey)
    requires NoDuplicates(init + [key])
    ensures NoDuplicates(init) && (k in init + [key] <==> k in init || k == key) && !(k in init && k == key)
  {
    var keys := init + [key];
    assert forall i :: 0 <= i < |init| ==> keys[i] == init[i];
    assert keys[|init|] == key;
  }

  lemma AppendOnce<T>(e: seq<T>, before: bool, now: bool)
    requires !(before && now)
    ensures (if before then e else []) + (if now then e else []) == if before || now then e else []
  {
  }

  predicate TasksTerminal(rs: seq<Record>, keys: seq<TaskKey>, disk: Disk) {
    forall i :: 0 <= i < |keys| ==> AllTerminal(RecordsOf(rs, keys[i]), disk)
  }

  lemma {:induction false} BuiltIncomplete(settings: Settings, rs: seq<Record>, keys: seq<TaskKey>, disk: Disk)
    requires Uncapped(settings) && AllHaveRecords(rs, keys)
    ensures Built(settings, rs, keys, disk).incomplete > 0 <==> !TasksTerminal(rs, keys, disk)
  {
    if keys != [] {
      var init, key := keys[..|keys| - 1], keys[|keys| - 1];
      assert keys == init + [key];
      BuiltStep(settings, rs, init, key, disk, key);
      BuiltIncomplete(settings, rs, init, disk);
      TerminalSnoc(rs, init, key, disk);
    }
  }

  lemma TerminalSnoc(rs: seq<Record>, init: seq<TaskKey>, key: TaskKey, disk: Disk)
    ensures TasksTerminal(rs, init + [key], disk) <==>
      TasksTerminal(rs, init, disk) && AllTerminal(RecordsOf(rs, key), disk)
  {
    var keys := init + [key];
    assert keys[|init|] == key;
    assert forall i :: 0 <= i < |init| ==> keys[i] == init[i];
  }

  lemma BuiltUnfolds(settings: Settings, rs: seq<Record>, init: seq<TaskKey>, key: TaskKey, disk: Disk)
    requires AllHaveRecords(rs, init + [key])
    ensures AllHaveRecords(rs, init) && RecordsOf(rs, key) != []
    ensures var before := Built(settings, rs, init, disk);
      Built(settings, rs, init + [key], disk)
        == AddTask(before, key, Decide(settings, before.generated, key, RecordsOf(rs, key), disk))
  {
    var keys := init + [key];
    assert keys[..|init|] == init && keys[|init|] == key;
    assert forall i :: 0 <= i < |init| ==> keys[i] == init[i];
  }

  lemma AddTaskRecords(b: Build, key: TaskKey, d: Decision, k: TaskKey)
    ensures Pick(AddTask(b, key, d).records, ByTeacherKey, k) ==
      Pick(b.records, ByTeacherKey, k) + (if d.Fallback? then Pick(d.records, ByTeacherKey, k) else [])
    ensures AddTask(b, key, d).incomplete == b.incomplete + if d.Incomplete? then 1 else 0
  {
    if d.Fallback? {
      PickConcat(b.records, d.records, ByTeacherKey, k);
    }
  }

  lemma BuiltStep(settings: Settings, rs: seq<Record>, init: seq<TaskKey>, key: TaskKey, disk: Disk, k: TaskKey)
    requires Uncapped(settings) && AllHaveRecords(rs, init + [key])
    ensures AllHaveRecords(rs, init)
    ensures var before, after := Built(settings, rs, init, disk), Built(settings, rs, init + [key], disk);
      && Pick(after.records, ByTeacherKey, k) ==
           Pick(before.records, ByTeacherKey, k) +
             (if k == key then Emitted(settings, k, RecordsOf(rs, k), disk) else [])
      && (after.incomplete > 0 <==> before.incomplete > 0 || !AllTerminal(RecordsOf(rs, key), disk))
  {
    BuiltUnfolds(settings, rs, init, key, disk);
    var before := Built(settings, rs, init, disk);
    DecideEmits(settings, before.generated, key, RecordsOf(rs, key), disk);
    EmittedKeys(settings, key, RecordsOf(rs, key), disk, k);
    AddTaskRecords(before, key, Decide(settings, before.generated, key, RecordsOf(rs, key), disk), k);
  }

  lemma TerminalTaskByTask(rs: seq<Record>, keys: seq<TaskKey>, disk: Disk)
    requires forall k :: k in keys <==> RecordsOf(rs, k) != []
    ensures AllTerminal(rs, disk) <==> TasksTerminal(rs, keys, disk)
  {
    if AllTerminal(rs, disk) {
      forall i | 0 <= i < |keys| ensures AllTerminal(RecordsOf(rs, keys[i]), disk) {
        var mine := RecordsOf(rs, keys[i]);
        PickMembers(rs, ByKey, keys[i]);
        forall m | 0 <= m < |mine| ensures Terminal(mine[m], disk) {
          assert mine[m] in mine;
        }
      }
    } else {
      var j :| 0 <= j < |rs| && !Terminal(rs[j], disk);
      var k := ByKey(rs[j]);
      PickMembers(rs, ByKey, k);
      var mine := RecordsOf(rs, k);
      assert rs[j] in mine;
      var m :| 0 <= m < |mine| && mine[m] == rs[j];
      assert !AllTerminal(mine, disk);
      assert k in keys;
    }
  }

  lemma PlanPerTask(settings: Settings, plan: seq<Record>, disk: Disk, k: TaskKey)
    requires Uncapped(settings) && Plan(settings, plan, disk).Ok?
    ensures var b := Plan(settings, plan, disk).value;
      && Pick(b.records, ByTeacherKey, k) == Emitted(settings, k, RecordsOf(Phase1Only(plan), k), disk)
      && (b.incomplete > 0 <==> !AllTerminal(Phase1Only(plan), disk))
  {
    var rs := Phase1Only(plan);
    if rs != [] {
      TasksHaveRecords(rs);
      BuiltPerTask(settings, rs, Tasks(rs), disk, k);
      BuiltIncomplete(settings, rs, Tasks(rs), disk);
      TerminalTaskByTask(rs, Tasks(rs), disk);
    }
  }

  /** `some` is `all`, cut after `limit` tasks. */
  predicate CutAfter(limit: int, some: Build, all: Build) {
    && some.records <= all.records && some.incomplete == all.incomplete
    && some.generated == (if all.generated < limit then all.generated else limit)
    && (all.generated <= limit ==> some.records == all.records)
  }

  lemma CutStep(limit: int, some: Build, all: Build, key: TaskKey, d: Decision, e: Decision)
    requires CutAfter(limit, some, all)
    requires if e.Fallback? && some.generated >= limit then d.LimitReached? else d == e && !d.LimitReached?
    ensures CutAfter(limit, AddTask(some, key, d), AddTask(all, key, e))
  {
    if e.Fallback? {
      PrefixExtends(some.records, all.records, e.records);
    }
  }

  lemma PrefixExtends<T>(a: seq<T>, b: seq<T>, c: seq<T>)
    ensures a <= b ==> a <= b + c
  {
  }

  /** A cap on the number of tasks only cuts the output short, at a task boundary. */
  lemma {:induction false} LimitKeepsPrefix(settings: Settings, rs: seq<Record>, keys: seq<TaskKey>, disk: Disk)
    requires AllHaveRecords(rs, keys) && settings.limitTasks > 0
    ensures CutAfter(settings.limitTasks, Built(settings, rs, keys, disk),
                     Built(settings.(limitTasks := 0), rs, keys, disk))
  {
    if keys != [] {
      var init, key, free := keys[..|keys| - 1], keys[|keys| - 1], settings.(limitTasks := 0);
      assert keys == init + [key];
      LimitKeepsPrefix(settings, rs, init, disk);
      BuiltUnfolds(settings, rs, init, key, disk);
      BuiltUnfolds(free, rs, init, key, disk);
      var some, all := Built(settings, rs, init, disk), Built(free, rs, init, disk);
      CutStep(settings.limitTasks, some, all, key, Decide(settings, some.generated, key, RecordsOf(rs, key), disk),
              Decide(free, all.generated, key, RecordsOf(rs, key), disk));
    }
  }
}
