/** When the teacher queue loses a task: exactly when a crash falls between the task's
    skip marker and its queue file. */
module TeacherLosses {
  import opened Plans
  import opened Grouping
  import opened TeacherPlans
  import opened TeacherQueue
  import opened TaskWatcher

  // ---- what a poll delivers ---------------------------------------------------------------

  lemma DeliveredSame(w: World, v: World, i: nat)
    requires v.log == w.log
    ensures Delivered(v, i) <==> Delivered(w, i)
  {
  }

  lemma VisitDelivers(su: Setup, w: World, disk: Disk, i: nat)
    requires Starts(su) && Uncapped(su.settings)
    requires w.process.Alive? && w.process.doing.Looking? && w.process.at < |Order(su)|
    ensures var p := w.process;
      Delivered(Visit(su, w, disk), i) <==>
        Delivered(w, i)
        || (i == p.at && i !in p.processed && Ready(su, i, p.status, disk) && Due(su, i, disk) != [])
  {
    var p, here := w.process, w.(disk := disk);
    VisitReadsNewDisk(su, w, disk);
    VisitUnfolds(su, here, disk);
    TaskBuildIsOwed(su, p.at, disk);
    DeliveredSame(w, here, i);
    var v := Visit(su, w, disk);
    if v.log == w.log {
      DeliveredSame(w, v, i);
    } else {
      DeliveredBySnoc(w, v, Delivery(p.at, Due(su, p.at, disk), disk), i);
    }
  }

  /** Handling the first `|disks|` tasks delivers those not yet processed that are found
      ready and are owed records, and no other. */
  lemma {:induction false} VisitsDeliver(su: Setup, w: World, disks: seq<Disk>, i: nat)
    requires Starts(su) && Uncapped(su.settings) && |disks| <= |Order(su)|
    requires w.process.Alive? && w.process.doing.Looking? && w.process.at == 0
    requires forall j :: j in w.process.processed ==> j < |Order(su)|
    ensures Delivered(Visits(su, w, disks), i) <==>
      Delivered(w, i)
      || (i < |disks| && i !in w.process.processed && Ready(su, i, w.process.status, disks[i]) && Due(su, i, disks[i]) != [])
  {
    if disks != [] {
      var init, disk := disks[..|disks| - 1], disks[|disks| - 1];
      VisitsDeliver(su, w, init, i);
      VisitsAchieve(su, w, init);
      NextVisitDelivers(su, w, Visits(su, w, init), init, disk, i);
    }
  }

  lemma NextVisitDelivers(su: Setup, w: World, v: World, init: seq<Disk>, disk: Disk, i: nat)
    requires Starts(su) && Uncapped(su.settings) && |init| < |Order(su)|
    requires w.process.Alive? && Visited(su, w, v, init)
    ensures Delivered(Visit(su, v, disk), i) <==>
      Delivered(v, i)
      || (i == |init| && i !in w.process.processed && Ready(su, i, w.process.status, disk) && Due(su, i, disk) != [])
  {
    VisitDelivers(su, v, disk, i);
  }

  /** A poll delivers exactly the unprocessed tasks that it finds ready and that are owed
      records; after a restart, unprocessed means missing from the restart scan. */
  lemma PollDelivers(su: Setup, w: World, disks: seq<Disk>, i: nat)
    requires Starts(su) && Uncapped(su.settings) && |disks| == |Order(su)| && i < |Order(su)|
    requires w.process.Alive? && w.process.doing.Sleeping?
    requires forall j :: j in w.process.processed ==> j < |Order(su)|
    ensures Delivered(Poll(su, w, disks), i) <==>
      Delivered(w, i)
      || (i !in w.process.processed && Ready(su, i, w.disk.status, disks[i]) && Due(su, i, disks[i]) != [])
  {
    var begun := Act(su, w);
    VisitsDeliver(su, begun, disks, i);
    DeliveredSame(w, begun, i);
    VisitsAchieve(su, begun, disks);
    DeliveredSame(Visits(su, begun, disks), Poll(su, w, disks), i);
  }

  /** After a restart an undelivered task is delivered by the first poll that finds it
      ready and owed if and only if the scan did not find a trace of it. */
  lemma RestartDelivers(su: Setup, w: World, disks: seq<Disk>, i: nat)
    requires Starts(su) && Uncapped(su.settings) && |disks| == |Order(su)| && i < |Order(su)|
    requires !Delivered(w, i) && Ready(su, i, w.disk.status, disks[i]) && Due(su, i, disks[i]) != []
    ensures Delivered(Poll(su, Restart(su, w), disks), i) <==> i !in Scan(su, w)
  {
    DeliveredSame(w, Restart(su, w), i);
    PollDelivers(su, Restart(su, w), disks, i);
  }

  // ---- orderly runs -----------------------------------------------------------------------

  /** Task indices with a file in the queue or further on. */
  function Filed(w: World): set<nat> {
    w.queue + w.running + w.done + w.failed
  }

  /** Artifacts only grow, and consumers move queue files without making or losing any. */
  predicate OrderlyEvent(w: World, e: Event) {
    match e
    case Land(disk) => Extends(w.disk, disk)
    case Consume(queue, running, done, failed) => queue + running + done + failed == Filed(w)
    case _ => true
  }

  ghost predicate Orderly(su: Setup, w: World, es: seq<Event>)
    requires Starts(su)
  {
    forall n :: 0 <= n < |es| ==> OrderlyEvent(Run(su, w, es[..n]), es[n])
  }

  ghost predicate CrashedInHand(su: Setup, w: World, es: seq<Event>, i: nat)
    requires Starts(su)
  {
    exists n :: 0 <= n < |es| && es[n].Crash? && InHand(Run(su, w, es[..n]), i)
  }

  predicate NothingDue(su: Setup, w: World, i: nat)
    requires i < |Order(su)|
  {
    AllTerminal(TaskPhase1(su, i), w.disk) && Due(su, i, w.disk) == []
  }

  /** Every trace of a task comes with its marker, and a marked task has been delivered,
      is in hand, or was owed nothing. */
  ghost predicate Tracked(su: Setup, w: World, i: nat)
    requires i < |Order(su)|
  {
    && (i in Filed(w) + w.reflection ==> i in w.skipMarks)
    && (i in w.skipMarks ==> Delivered(w, i) || InHand(w, i) || NothingDue(su, w, i))
    && (InHand(w, i) ==> AllTerminal(TaskPhase1(su, i), w.disk) && w.process.doing.out == Due(su, i, w.disk))
  }

  lemma LookTracked(su: Setup, w: World, i: nat)
    requires Starts(su) && Uncapped(su.settings) && i < |Order(su)| && Tracked(su, w, i)
    requires w.process.Alive? && w.process.doing.Looking? && w.process.at < |Order(su)|
    ensures Tracked(su, Look(su, w, w.process), i)
  {
    TaskBuildIsOwed(su, w.process.at, w.disk);
    DeliveredSame(w, Look(su, w, w.process), i);
  }

  lemma SaveTracked(su: Setup, w: World, i: nat)
    requires Starts(su) && i < |Order(su)| && Kept(su, w) && Tracked(su, w, i)
    requires w.process.Alive? && w.process.doing.Marked?
    ensures Tracked(su, Act(su, w), i)
  {
    DeliveredSame(w, Act(su, w), i);
  }

  lemma EnqueueTracked(su: Setup, w: World, i: nat)
    requires Starts(su) && i < |Order(su)| && Kept(su, w) && Tracked(su, w, i)
    requires w.process.Alive? && w.process.doing.Saved?
    ensures Tracked(su, Act(su, w), i)
  {
    var p := w.process;
    DeliveredBySnoc(w, Act(su, w), Delivery(p.at, p.doing.out, p.doing.seen), i);
  }

  lemma StepTracked(su: Setup, w: World, i: nat)
    requires Starts(su) && Uncapped(su.settings) && i < |Order(su)| && Kept(su, w) && Tracked(su, w, i)
    ensures Tracked(su, Act(su, w), i)
  {
    if w.process.Alive? {
      if w.process.doing.Marked? {
        SaveTracked(su, w, i);
      } else if w.process.doing.Saved? {
        EnqueueTracked(su, w, i);
      } else if w.process.doing.Looking? && w.process.at < |Order(su)| {
        LookTracked(su, w, i);
      } else {
        DeliveredSame(w, Act(su, w), i);
      }
    }
  }

  lemma AfterTracked(su: Setup, w: World, e: Event, i: nat)
    requires Starts(su) && Uncapped(su.settings) && i < |Order(su)| && Kept(su, w) && Tracked(su, w, i)
    requires OrderlyEvent(w, e) && !(e.Crash? && InHand(w, i))
    ensures Tracked(su, After(su, w, e), i)
  {
    if e.Step? {
      StepTracked(su, w, i);
    } else {
      DeliveredSame(w, After(su, w, e), i);
      if e.Land? && AllTerminal(TaskPhase1(su, i), w.disk) {
        OutcomesStable(TaskPhase1(su, i), w.disk, e.disk);
      }
    }
  }

  lemma {:induction false} RunTracked(su: Setup, w: World, es: seq<Event>, i: nat)
    requires Starts(su) && Uncapped(su.settings) && i < |Order(su)| && Kept(su, w) && Tracked(su, w, i)
    requires Orderly(su, w, es) && !CrashedInHand(su, w, es, i)
    ensures Tracked(su, Run(su, w, es), i)
  {
    if es != [] {
      var init := es[..|es| - 1];
      assert forall n :: 0 <= n < |init| ==> es[..n] == init[..n] && es[n] == init[n];
      RunTracked(su, w, init, i);
      RunKeeps(su, w, init);
      AfterTracked(su, Run(su, w, init), es[|es| - 1], i);
    }
  }

  // ---- lost, exactly when a crash fell in between -----------------------------------------

  /** The task can no longer reach the queue, whatever happens from here on. */
  ghost predicate LostForGood(su: Setup, w: World, i: nat)
    requires Starts(su)
  {
    forall more: seq<Event> :: !Delivered(Run(su, w, more), i)
  }

  lemma HandDelivers(su: Setup, w: World, i: nat) returns (more: seq<Event>)
    requires Starts(su) && Uncapped(su.settings) && Kept(su, w) && InHand(w, i) && w.process.doing.out != []
    ensures Delivered(Run(su, w, more), i)
  {
    CrashInHandLosesTask(su, w, [], i);
    RunOne(su, w, Step);
    RunTwo(su, w, Step, Step);
    more := if Delivered(Act(su, w), i) then [Step] else [Step, Step];
  }

  function AllStatus(su: Setup, disk: Disk): Disk {
    Disk(disk.status + set r | r in WatchedOnly(su) :: r.trial.id, disk.results)
  }

  lemma AllStatusIsReady(su: Setup, disk: Disk, i: nat)
    requires i < |Order(su)| && AllTerminal(TaskPhase1(su, i), disk)
    ensures var full := AllStatus(su, disk); Ready(su, i, full.status, full) && Due(su, i, full) == Due(su, i, disk)
  {
    var full, rs := AllStatus(su, disk), TaskRecords(su, i);
    PickMembers(WatchedOnly(su), ByKey, Order(su)[i]);
    forall n | 0 <= n < |rs| ensures rs[n].trial.id in full.status {
      assert rs[n] in WatchedOnly(su);
    }
    OutcomesStable(TaskPhase1(su, i), disk, full);
  }

  /** A task with no trace on disk is delivered by a restart once its results are complete. */
  lemma UntracedDelivers(su: Setup, w: World, i: nat) returns (more: seq<Event>)
    requires Starts(su) && Uncapped(su.settings) && i < |Order(su)| && i !in Scan(su, w)
    requires Due(su, i, w.disk) != []
    ensures Delivered(Run(su, w, more), i)
  {
    var full := AllStatus(su, w.disk);
    var start := Restart(su, w).(disk := full);
    var disks := seq(|Order(su)|, n => full);
    AllStatusIsReady(su, w.disk, i);
    RunTwo(su, w, Crash, Land(full));
    PollDelivers(su, start, disks, i);
    PollIsRun(su, start, disks);
    RunConcat(su, w, [Crash, Land(full)], PollEvents(su, start, disks));
    more := [Crash, Land(full)] + PollEvents(su, start, disks);
  }

  lemma StillDeliverable(su: Setup, w: World, i: nat) returns (more: seq<Event>)
    requires Starts(su) && Uncapped(su.settings) && i < |Order(su)| && Kept(su, w) && Tracked(su, w, i)
    requires Due(su, i, w.disk) != []
    ensures Delivered(Run(su, w, more), i)
  {
    if Delivered(w, i) {
      more := [];
    } else if InHand(w, i) {
      more := HandDelivers(su, w, i);
    } else {
      more := UntracedDelivers(su, w, i);
    }
  }

  lemma CrashLoses(su: Setup, w: World, es: seq<Event>, more: seq<Event>, n: nat, i: nat)
    requires Starts(su) && Uncapped(su.settings) && Kept(su, w) && n < |es|
    requires es[n].Crash? && InHand(Run(su, w, es[..n]), i)
    ensures !Delivered(Run(su, Run(su, w, es), more), i)
  {
    RunKeeps(su, w, es[..n]);
    CrashInHandLosesTask(su, Run(su, w, es[..n]), es[n + 1..] + more, i);
    RunPast(su, w, es, more, n);
  }

  lemma RunPast(su: Setup, w: World, es: seq<Event>, more: seq<Event>, n: nat)
    requires Starts(su) && n < |es|
    ensures Run(su, Run(su, w, es), more) == Run(su, After(su, Run(su, w, es[..n]), es[n]), es[n + 1..] + more)
  {
    RunSnoc(su, w, es[..n], es[n]);
    TakeSnoc(es, n);
    assert es == es[..n + 1] + es[n + 1..];
    RunConcat(su, w, es[..n + 1], es[n + 1..]);
    RunConcat(su, Run(su, w, es[..n + 1]), es[n + 1..], more);
  }

  /** From clean directories, with artifacts that only grow and consumers that only move
      files, a task that is owed records is lost if and only if some crash fell between its
      skip marker and its queue file. */
  lemma LostIffCrashedInHand(su: Setup, w: World, es: seq<Event>, i: nat)
    requires Starts(su) && Uncapped(su.settings) && i < |Order(su)|
    requires JustStarted(su, w) && Scan(su, w) == {} && Orderly(su, w, es)
    requires Due(su, i, Run(su, w, es).disk) != []
    ensures LostForGood(su, Run(su, w, es), i) <==> CrashedInHand(su, w, es, i)
  {
    var v := Run(su, w, es);
    if CrashedInHand(su, w, es, i) {
      var n :| 0 <= n < |es| && es[n].Crash? && InHand(Run(su, w, es[..n]), i);
      forall more: seq<Event> ensures !Delivered(Run(su, v, more), i) {
        CrashLoses(su, w, es, more, n, i);
      }
    } else {
      CleanIsTracked(su, w, i);
      RunTracked(su, w, es, i);
      RunKeeps(su, w, es);
      var more := StillDeliverable(su, v, i);
    }
  }

  lemma CleanIsTracked(su: Setup, w: World, i: nat)
    requires Starts(su) && i < |Order(su)| && JustStarted(su, w) && Scan(su, w) == {}
    ensures Kept(su, w) && Tracked(su, w, i)
  {
    assert i !in Scan(su, w);
  }

  // ---- it does happen ---------------------------------------------------------------------

  function CleanWorld(su: Setup, disk: Disk): World {
    World(disk, false, {}, {}, {}, {}, {}, {}, [], Alive({}, {}, 0, false, Sleeping))
  }

  /** From clean directories two steps take the first task in hand, if it is ready and owed. */
  lemma FirstTaskTaken(su: Setup, disk: Disk)
    requires Starts(su) && Uncapped(su.settings) && |Order(su)| > 0
    requires Ready(su, 0, disk.status, disk) && Due(su, 0, disk) != []
    ensures var w := CleanWorld(su, disk);
      && JustStarted(su, w) && Scan(su, w) == {}
      && var v := Run(su, w, [Step, Step]); InHand(v, 0) && v.process.doing.out == Due(su, 0, disk)
  {
    var w := CleanWorld(su, disk);
    RunTwo(su, w, Step, Step);
    TaskBuildIsOwed(su, 0, disk);
    assert Scan(su, w) == {};
  }

  lemma CrashAfterMarkLoses(su: Setup, disk: Disk)
    requires Starts(su) && Uncapped(su.settings) && |Order(su)| > 0
    requires Ready(su, 0, disk.status, disk) && Due(su, 0, disk) != []
    ensures var w := CleanWorld(su, disk);
      LostForGood(su, Run(su, w, [Step, Step, Crash]), 0) && exists more :: Delivered(Run(su, w, more), 0)
  {
    var w := CleanWorld(su, disk);
    FirstTaskTaken(su, disk);
    var es := [Step, Step, Crash];
    CleanIsTracked(su, w, 0);
    assert es[..2] == [Step, Step];
    forall more: seq<Event> ensures !Delivered(Run(su, Run(su, w, es), more), 0) {
      CrashLoses(su, w, es, more, 2, 0);
    }
    var more := StillDeliverable(su, w, 0);
  }

  const ONE_RECORD := Record(Trial("tb2", "hello", "trial", None), "run", "student", "student_use_skill")

  function OneSetup(): Setup {
    Setup([ONE_RECORD], Settings(1, true, 0, (k: TaskKey, out: seq<(Record, Outcome)>) => ""))
  }

  const ONE_DISK := Disk({"trial"}, map["trial" := Outcome(false, "")])

  lemma OneIsWatched()
    ensures Watched(ONE_RECORD) && Phase1(ONE_RECORD)
  {
    var mode := "student_use_skill";
    assert mode == "student_" + "use_skill";
    forall i | 0 <= i <= |mode| ensures !("_reflection" <= mode[i..]) {
      assert i <= 6 ==> mode[i] != '_';
      NotThere(mode, i);
    }
  }

  lemma NotThere(mode: string, i: nat)
    requires i <= |mode|
    ensures |mode| - i < 11 || mode[i] != '_' ==> !("_reflection" <= mode[i..])
  {
  }

  lemma OneTaskIsOwed()
    ensures var su := OneSetup();
      && Starts(su) && Uncapped(su.settings) && |Order(su)| > 0
      && Ready(su, 0, ONE_DISK.status, ONE_DISK) && Due(su, 0, ONE_DISK) != []
  {
    var su, rs := OneSetup(), [ONE_RECORD];
    OneIsWatched();
    PickAll(rs, Watched, true);
    assert Trials(rs) == [ONE_RECORD.trial] && Trials(rs)[..0] == [];
    assert Keys(Trials(rs)) == [KeyOf(ONE_RECORD.trial)];
    PickAll(rs, ByKey, KeyOf(ONE_RECORD.trial));
    PickAll(rs, Phase1, true);
    var due := Due(su, 0, ONE_DISK);
    assert |due| == 1;
  }

  /** A plan with one failed trial: a crash after two steps loses its teacher records. */
  lemma LossHappens()
    ensures var su := OneSetup(); var w := CleanWorld(su, ONE_DISK);
      && Starts(su) && JustStarted(su, w) && Scan(su, w) == {}
      && LostForGood(su, Run(su, w, [Step, Step, Crash]), 0)
      && exists more :: Delivered(Run(su, w, more), 0)
  {
    OneTaskIsOwed();
    FirstTaskTaken(OneSetup(), ONE_DISK);
    CrashAfterMarkLoses(OneSetup(), ONE_DISK);
  }
}
