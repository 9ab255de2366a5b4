/** Who gets teacher records, in terms of the plan's records, their roles and modes, and the
    results on disk: for the batch generator and for what the watcher delivers. */
module TeacherMeanings {
  import opened Plans
  import opened Text
  import opened Grouping
  import opened TeacherPlans
  import opened TeacherQueue
  import opened TaskWatcher
  import opened TeacherLosses

  // ---- student attempts -------------------------------------------------------------------

  /** A phase 1 attempt of a task: a student record, with the skill or without. */
  predicate IsAttempt(r: Record, bench: string, task: string) {
    r.trial.bench == bench && r.trial.task == task && r.role == "student"
    && (r.mode == "student_use_skill" || r.mode == "student_no_skill")
  }

  /** The attempts of a task, in plan order. */
  function AttemptsOf(plan: seq<Record>, bench: string, task: string): seq<Record> {
    if plan == [] then []
    else (if IsAttempt(plan[0], bench, task) then [plan[0]] else []) + AttemptsOf(plan[1..], bench, task)
  }

  /** The attempts that have a result, with it. */
  function FinishedAttempts(rs: seq<Record>, disk: Disk): seq<(Record, Outcome)> {
    if rs == [] then []
    else (if rs[0].trial.id in disk.results then [(rs[0], disk.results[rs[0].trial.id])] else [])
         + FinishedAttempts(rs[1..], disk)
  }

  /** The task was attempted, every attempt has a result, and none resolved it. */
  ghost predicate NeedsTeacher(plan: seq<Record>, disk: Disk, bench: string, task: string) {
    && (exists r :: r in plan && IsAttempt(r, bench, task))
    && (forall r :: r in plan && IsAttempt(r, bench, task) ==>
          r.trial.id in disk.results && !disk.results[r.trial.id].resolved)
  }

  /** What such a task gets: the records numbered from 90 on, in the attempts' run, with the
      context made of all the attempts. */
  ghost predicate AreTeacherRecords(settings: Settings, plan: seq<Record>, disk: Disk, bench: string, task: string,
                                    out: seq<TeacherRecord>)
  {
    && |out| == (if settings.teacherTrials > 0 then settings.teacherTrials else 0)
    && (forall i :: 0 <= i < |out| ==>
          && out[i].key.bench == bench && out[i].key.task == task
          && out[i].trialIndex == 90 + i
          && (exists r :: r in plan && IsAttempt(r, bench, task) && r.run == out[i].run)
          && out[i].context == settings.context(TaskKey(bench, task), FinishedAttempts(AttemptsOf(plan, bench, task), disk)))
  }

  // ---- against the generator's own terms --------------------------------------------------

  lemma {:induction false} AttemptsMembers(plan: seq<Record>, bench: string, task: string, r: Record)
    ensures r in AttemptsOf(plan, bench, task) <==> r in plan && IsAttempt(r, bench, task)
  {
    if plan != [] {
      AttemptsMembers(plan[1..], bench, task, r);
      assert plan == [plan[0]] + plan[1..];
    }
  }

  lemma UseSkillChars(i: nat)
    requires i + 1 < |"student_use_skill"| && "student_use_skill"[i] == '_'
    ensures "student_use_skill"[i + 1] != 'r'
  {
  }

  lemma NoSkillChars(i: nat)
    requires i + 1 < |"student_no_skill"| && "student_no_skill"[i] == '_'
    ensures "student_no_skill"[i + 1] != 'r'
  {
  }

  lemma ReflectionAt(mode: string, i: nat)
    requires i <= |mode| && "_reflection" <= mode[i..]
    ensures i + 1 < |mode| && mode[i] == '_' && mode[i + 1] == 'r'
  {
    assert mode[i..][0] == "_reflection"[0] && mode[i..][1] == "_reflection"[1];
  }

  /** The two phase 1 modes do not contain the reflection mark. */
  lemma NoReflection(mode: string)
    ensures mode == "student_use_skill" || mode == "student_no_skill" ==> !Contains(mode, "_reflection")
  {
    if (mode == "student_use_skill" || mode == "student_no_skill") && Contains(mode, "_reflection") {
      var i :| 0 <= i <= |mode| && "_reflection" <= mode[i..];
      ReflectionAt(mode, i);
      if mode == "student_use_skill" {
        UseSkillChars(i);
      } else {
        NoSkillChars(i);
      }
    }
  }

  lemma AttemptIsPhase1(r: Record, bench: string, task: string)
    ensures IsAttempt(r, bench, task) <==> Phase1(r) && ByKey(r) == TaskKey(bench, task)
  {
    NoReflection(r.mode);
  }

  lemma {:induction false} AttemptsArePicked(plan: seq<Record>, bench: string, task: string)
    ensures AttemptsOf(plan, bench, task) == RecordsOf(Phase1Only(plan), TaskKey(bench, task))
  {
    if plan != [] {
      var r, k := plan[0], TaskKey(bench, task);
      var first := if Phase1(r) == true then [r] else [];
      AttemptsArePicked(plan[1..], bench, task);
      AttemptIsPhase1(r, bench, task);
      PickConcat(first, Phase1Only(plan[1..]), ByKey, k);
      OnePick(r, k, first);
    }
  }

  lemma OnePick(r: Record, k: TaskKey, first: seq<Record>)
    requires first == [r] || first == []
    ensures RecordsOf(first, k) == if first == [r] && ByKey(r) == k then [r] else []
  {
    if first == [r] {
      assert first[1..] == [];
    }
  }

  lemma {:induction false} FinishedSnoc(rs: seq<Record>, last: Record, disk: Disk)
    ensures FinishedAttempts(rs + [last], disk) ==
      FinishedAttempts(rs, disk) + if last.trial.id in disk.results then [(last, disk.results[last.trial.id])] else []
  {
    if rs != [] {
      assert (rs + [last])[1..] == rs[1..] + [last];
      FinishedSnoc(rs[1..], last, disk);
    }
  }

  lemma {:induction false} FinishedAreOutcomes(rs: seq<Record>, disk: Disk)
    ensures FinishedAttempts(rs, disk) == OutcomesOf(rs, disk)
  {
    if rs != [] {
      var init, last := rs[..|rs| - 1], rs[|rs| - 1];
      assert rs == init + [last];
      FinishedAreOutcomes(init, disk);
      FinishedSnoc(init, last, disk);
    }
  }

  /** In the generator's terms: the attempts exist, all are terminal, none is resolved. */
  lemma NeedsTeacherIs(plan: seq<Record>, disk: Disk, bench: string, task: string)
    ensures var rs := RecordsOf(Phase1Only(plan), TaskKey(bench, task));
      NeedsTeacher(plan, disk, bench, task) <==> rs != [] && AllTerminal(rs, disk) && NoneResolved(rs, disk)
  {
    var rs := AttemptsOf(plan, bench, task);
    AttemptsArePicked(plan, bench, task);
    forall r ensures r in rs <==> r in plan && IsAttempt(r, bench, task) {
      AttemptsMembers(plan, bench, task, r);
    }
    if rs != [] {
      assert rs[0] in rs;
    }
    if NeedsTeacher(plan, disk, bench, task) {
      forall i | 0 <= i < |rs| ensures Terminal(rs[i], disk) && !disk.results[rs[i].trial.id].resolved {
        assert rs[i] in rs;
      }
    }
  }

  lemma EmittedMeans(settings: Settings, plan: seq<Record>, disk: Disk, bench: string, task: string)
    ensures var k := TaskKey(bench, task);
      var out := Emitted(settings, k, RecordsOf(Phase1Only(plan), k), disk);
      if NeedsTeacher(plan, disk, bench, task) then AreTeacherRecords(settings, plan, disk, bench, task, out) else out == []
  {
    var k := TaskKey(bench, task);
    var rs := RecordsOf(Phase1Only(plan), k);
    NeedsTeacherIs(plan, disk, bench, task);
    if NeedsTeacher(plan, disk, bench, task) {
      AttemptsArePicked(plan, bench, task);
      AttemptsMembers(plan, bench, task, rs[0]);
      FinishedAreOutcomes(rs, disk);
    }
  }

  // ---- the batch generator ----------------------------------------------------------------

  /** With nothing capped, a task gets teacher records if and only if it was attempted, every
      attempt has a result and none resolved it; and it gets those it should. */
  lemma BuildMeans(settings: Settings, plan: seq<Record>, disk: Disk, bench: string, task: string)
    requires settings.requireComplete && settings.limitTasks <= 0 && Plan(settings, plan, disk).Ok?
    ensures var mine := Pick(Plan(settings, plan, disk).value.records, ByTeacherKey, TaskKey(bench, task));
      if NeedsTeacher(plan, disk, bench, task) then AreTeacherRecords(settings, plan, disk, bench, task, mine) else mine == []
  {
    PlanPerTask(settings, plan, disk, TaskKey(bench, task));
    EmittedMeans(settings, plan, disk, bench, task);
  }

  /** The same for single records, when at least one teacher trial is asked for. */
  lemma GetsRecordsIff(settings: Settings, plan: seq<Record>, disk: Disk, bench: string, task: string)
    requires settings.requireComplete && settings.limitTasks <= 0 && Plan(settings, plan, disk).Ok?
    requires settings.teacherTrials >= 1
    ensures (exists t :: t in Plan(settings, plan, disk).value.records && t.key.bench == bench && t.key.task == task)
            <==> NeedsTeacher(plan, disk, bench, task)
  {
    var records, k := Plan(settings, plan, disk).value.records, TaskKey(bench, task);
    var mine := Pick(records, ByTeacherKey, k);
    BuildMeans(settings, plan, disk, bench, task);
    PickMembers(records, ByTeacherKey, k);
    if NeedsTeacher(plan, disk, bench, task) {
      assert mine[0] in mine;
    }
    if exists t :: t in records && t.key.bench == bench && t.key.task == task {
      var t :| t in records && t.key.bench == bench && t.key.task == task;
      assert t in mine;
    }
  }

  /** A student attempt of whatever task. */
  predicate IsAnyAttempt(r: Record) {
    IsAttempt(r, r.trial.bench, r.trial.task)
  }

  lemma Phase1AreAttempts(plan: seq<Record>, r: Record)
    ensures r in Phase1Only(plan) <==> r in plan && IsAnyAttempt(r)
  {
    PickMembers(plan, Phase1, true);
    AttemptIsPhase1(r, r.trial.bench, r.trial.task);
  }

  lemma SeveralRuns(rs: seq<Record>)
    ensures !OneRun(rs) <==> exists r, s :: r in rs && s in rs && r.run != s.run
  {
    if !OneRun(rs) {
      var i, j :| 0 <= i < j < |rs| && rs[i].run != rs[j].run;
      assert rs[i] in rs && rs[j] in rs;
    }
    if r, s :| r in rs && s in rs && r.run != s.run {
      var i :| 0 <= i < |rs| && rs[i] == r;
      var j :| 0 <= j < |rs| && rs[j] == s;
      assert i < j || j < i;
    }
  }

  /** The generator refuses exactly the plans whose attempts are of several runs. */
  lemma RefusesIff(settings: Settings, plan: seq<Record>, disk: Disk)
    ensures Plan(settings, plan, disk).Err? <==>
      exists r, s :: r in plan && s in plan && IsAnyAttempt(r) && IsAnyAttempt(s) && r.run != s.run
  {
    var rs := Phase1Only(plan);
    SeveralRuns(rs);
    forall r ensures r in rs <==> r in plan && IsAnyAttempt(r) {
      Phase1AreAttempts(plan, r);
    }
  }

  // ---- the watcher ------------------------------------------------------------------------

  lemma DueMeans(su: Setup, i: nat, disk: Disk)
    requires i < |Order(su)|
    ensures var k := Order(su)[i];
      if NeedsTeacher(su.plan, disk, k.bench, k.task)
      then AreTeacherRecords(su.settings, su.plan, disk, k.bench, k.task, Due(su, i, disk))
      else Due(su, i, disk) == []
  {
    var k := Order(su)[i];
    SameTaskRecords(su, i);
    EmittedMeans(su.settings, su.plan, disk, k.bench, k.task);
  }

  /** Over every run, with restarts anywhere: whatever is enqueued is for a task that needs a
      teacher, by the artifacts it was built from, and is what such a task gets. */
  lemma DeliveriesMean(su: Setup, w: World, es: seq<Event>)
    requires Starts(su) && Uncapped(su.settings) && JustStarted(su, w)
    ensures var log := Run(su, w, es).log;
      forall n :: 0 <= n < |log| ==>
        && log[n].index < |Order(su)| && log[n].out != []
        && var k := Order(su)[log[n].index];
           && NeedsTeacher(su.plan, log[n].seen, k.bench, k.task)
           && AreTeacherRecords(su.settings, su.plan, log[n].seen, k.bench, k.task, log[n].out)
  {
    RunKeeps(su, w, es);
    var v := Run(su, w, es);
    forall n | 0 <= n < |v.log|
      ensures v.log[n].index < |Order(su)| && v.log[n].out != []
      ensures var k := Order(su)[v.log[n].index];
        && NeedsTeacher(su.plan, v.log[n].seen, k.bench, k.task)
        && AreTeacherRecords(su.settings, su.plan, v.log[n].seen, k.bench, k.task, v.log[n].out)
    {
      assert Owed(su, v.log[n]);
      DueMeans(su, v.log[n].index, v.log[n].seen);
    }
  }

  predicate StandsIn(text: string, part: string, i: int) {
    0 <= i && i + |part| <= |text| && text[i..i + |part|] == part
  }

  /** A record the watcher waits for: a student record of any mode but a reflection. */
  ghost predicate IsWatched(r: Record) {
    r.role == "student" && StandsIn(r.mode, "student_", 0) && forall i :: !StandsIn(r.mode, "_reflection", i)
  }

  lemma ContainsMeans(text: string, part: string)
    ensures Contains(text, part) <==> exists i :: StandsIn(text, part, i)
  {
    if Contains(text, part) {
      var i :| 0 <= i <= |text| && part <= text[i..];
      assert text[i..][..|part|] == text[i..i + |part|];
      assert StandsIn(text, part, i);
    }
    if i :| StandsIn(text, part, i) {
      assert text[i..][..|part|] == text[i..i + |part|];
    }
  }

  lemma WatchedMeans(r: Record)
    ensures Watched(r) <==> IsWatched(r)
  {
    ContainsMeans(r.mode, "_reflection");
    if |"student_"| <= |r.mode| {
      assert r.mode[0..|"student_"|] == r.mode[..|"student_"|];
    }
  }

  /** The tasks the watcher goes through are those with a watched record. */
  lemma OrderMeans(su: Setup, k: TaskKey)
    ensures k in Order(su) <==>
      exists r :: r in su.plan && IsWatched(r) && r.trial.bench == k.bench && r.trial.task == k.task
  {
    var rs := WatchedOnly(su);
    KeysAreTheTasks(Trials(rs));
    KeyHasRecords(rs, k);
    PickMembers(su.plan, Watched, true);
    PickMembers(rs, ByKey, k);
    forall r ensures Watched(r) <==> IsWatched(r) {
      WatchedMeans(r);
    }
    if RecordsOf(rs, k) != [] {
      assert RecordsOf(rs, k)[0] in RecordsOf(rs, k);
    }
  }

  /** All of a task's watched records have a status row. */
  ghost predicate HasAllRows(plan: seq<Record>, status: set<string>, bench: string, task: string) {
    forall r :: r in plan && IsWatched(r) && r.trial.bench == bench && r.trial.task == task ==> r.trial.id in status
  }

  /** All attempts of the task have a result. */
  ghost predicate HasAllResults(plan: seq<Record>, disk: Disk, bench: string, task: string) {
    forall r :: r in plan && IsAttempt(r, bench, task) ==> r.trial.id in disk.results
  }

  lemma ReadyMeans(su: Setup, i: nat, status: set<string>, disk: Disk)
    requires i < |Order(su)|
    ensures var k := Order(su)[i];
      Ready(su, i, status, disk) <==>
        HasAllRows(su.plan, status, k.bench, k.task) && HasAllResults(su.plan, disk, k.bench, k.task)
  {
    var k := Order(su)[i];
    RowsMean(su, i, status);
    SameTaskRecords(su, i);
    AttemptsArePicked(su.plan, k.bench, k.task);
    ResultsMean(su.plan, disk, k.bench, k.task);
  }

  lemma RowsMean(su: Setup, i: nat, status: set<string>)
    requires i < |Order(su)|
    ensures HasStatus(TaskRecords(su, i), status) <==> HasAllRows(su.plan, status, Order(su)[i].bench, Order(su)[i].task)
  {
    var rs := TaskRecords(su, i);
    PickMembers(su.plan, Watched, true);
    PickMembers(WatchedOnly(su), ByKey, Order(su)[i]);
    forall r ensures Watched(r) <==> IsWatched(r) {
      WatchedMeans(r);
    }
    if HasAllRows(su.plan, status, Order(su)[i].bench, Order(su)[i].task) {
      forall n | 0 <= n < |rs| ensures rs[n].trial.id in status {
        assert rs[n] in rs;
      }
    }
  }

  lemma ResultsMean(plan: seq<Record>, disk: Disk, bench: string, task: string)
    ensures AllTerminal(AttemptsOf(plan, bench, task), disk) <==> HasAllResults(plan, disk, bench, task)
  {
    var rs := AttemptsOf(plan, bench, task);
    forall r ensures r in rs <==> r in plan && IsAttempt(r, bench, task) {
      AttemptsMembers(plan, bench, task, r);
    }
    if HasAllResults(plan, disk, bench, task) {
      forall n | 0 <= n < |rs| ensures Terminal(rs[n], disk) {
        assert rs[n] in rs;
      }
    }
  }

  /** A poll delivers exactly the unprocessed tasks whose rows and results are all there and
      none of whose attempts resolved them, when at least one teacher trial is asked for. */
  lemma PollMeans(su: Setup, w: World, disks: seq<Disk>, i: nat)
    requires Starts(su) && Uncapped(su.settings) && |disks| == |Order(su)| && i < |Order(su)|
    requires w.process.Alive? && w.process.doing.Sleeping? && su.settings.teacherTrials >= 1
    requires forall j :: j in w.process.processed ==> j < |Order(su)|
    ensures var k := Order(su)[i];
      Delivered(Poll(su, w, disks), i) <==>
        Delivered(w, i)
        || (i !in w.process.processed && HasAllRows(su.plan, w.disk.status, k.bench, k.task)
            && NeedsTeacher(su.plan, disks[i], k.bench, k.task))
  {
    PollDelivers(su, w, disks, i);
    ReadyMeans(su, i, w.disk.status, disks[i]);
    DueMeans(su, i, disks[i]);
  }

  /** After a restart a task that needs a teacher is delivered by the first poll that finds
      all its rows and results if and only if it has left no file in any of the five
      directories and no skip marker. */
  lemma RestartMeans(su: Setup, w: World, disks: seq<Disk>, i: nat)
    requires Starts(su) && Uncapped(su.settings) && |disks| == |Order(su)| && i < |Order(su)|
    requires su.settings.teacherTrials >= 1 && !Delivered(w, i)
    requires var k := Order(su)[i];
      HasAllRows(su.plan, w.disk.status, k.bench, k.task) && NeedsTeacher(su.plan, disks[i], k.bench, k.task)
    ensures Delivered(Poll(su, Restart(su, w), disks), i) <==>
      && i !in w.queue && i !in w.running && i !in w.done && i !in w.failed
      && i !in w.reflection && i !in w.skipMarks
  {
    ReadyMeans(su, i, w.disk.status, disks[i]);
    DueMeans(su, i, disks[i]);
    RestartDelivers(su, w, disks, i);
  }
}
