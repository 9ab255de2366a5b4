/** The watcher's polling loop as the source writes it, against the file-operation
    steps of TeacherQueue, and what one whole poll achieves. */
module TaskWatcher {
  import opened Plans
  import opened TeacherPlans
  import opened TeacherQueue

  // ---- one poll as a sequence of steps ----------------------------------------------------

  /** The steps after the skip marker: the teacher file and the queue file, if any. */
  function Finish(su: Setup, w: World): World
    requires Starts(su)
  {
    var saved := Act(su, w);
    if saved.process.Alive? && saved.process.doing.Saved? then Act(su, saved) else saved
  }

  function FinishEvents(su: Setup, w: World): seq<Event>
    requires Starts(su)
  {
    var saved := Act(su, w);
    if saved.process.Alive? && saved.process.doing.Saved? then [Step, Step] else [Step]
  }

  lemma FinishSettles(su: Setup, w: World)
    requires Starts(su) && w.process.Alive? && w.process.doing.Marked?
    ensures var p := w.process;
      var handed := if p.doing.out == [] then w
                    else w.(reflection := w.reflection + {p.at}, queue := w.queue + {p.at},
                            log := w.log + [Delivery(p.at, p.doing.out, p.doing.seen)]);
      Finish(su, w) == Settle(handed, p)
  {
  }

  /** The steps that handle one task, the artifacts being `disk` when it is built. */
  function Visit(su: Setup, w: World, disk: Disk): World
    requires Starts(su)
  {
    var looked := Act(su, w.(disk := disk));
    if looked.process.Alive? && looked.process.doing.Marked? then Finish(su, looked) else looked
  }

  function Visits(su: Setup, w: World, disks: seq<Disk>): World
    requires Starts(su)
  {
    if disks == [] then w else Visit(su, Visits(su, w, disks[..|disks| - 1]), disks[|disks| - 1])
  }

  /** One turn of the polling loop: read the status rows, handle every task, decide
      whether to go on. */
  function Poll(su: Setup, w: World, disks: seq<Disk>): World
    requires Starts(su)
  {
    Act(su, Visits(su, Act(su, w), disks))
  }

  function VisitEvents(su: Setup, w: World, disk: Disk): seq<Event>
    requires Starts(su)
  {
    var looked := Act(su, w.(disk := disk));
    [Land(disk), Step] +
      if looked.process.Alive? && looked.process.doing.Marked? then FinishEvents(su, looked) else []
  }

  function VisitsEvents(su: Setup, w: World, disks: seq<Disk>): seq<Event>
    requires Starts(su)
  {
    if disks == [] then []
    else
      var init := disks[..|disks| - 1];
      VisitsEvents(su, w, init) + VisitEvents(su, Visits(su, w, init), disks[|disks| - 1])
  }

  function PollEvents(su: Setup, w: World, disks: seq<Disk>): seq<Event>
    requires Starts(su)
  {
    [Step] + VisitsEvents(su, Act(su, w), disks) + [Step]
  }

  predicate NoCrash(es: seq<Event>) {
    forall n :: 0 <= n < |es| ==> !es[n].Crash?
  }

  lemma RunSnoc(su: Setup, w: World, es: seq<Event>, e: Event)
    requires Starts(su)
    ensures Run(su, w, es + [e]) == After(su, Run(su, w, es), e)
  {
    assert (es + [e])[..|es|] == es;
  }

  lemma {:induction false} RunConcat(su: Setup, w: World, a: seq<Event>, b: seq<Event>)
    requires Starts(su)
    ensures Run(su, w, a + b) == Run(su, Run(su, w, a), b)
  {
    if b == [] {
      assert a + b == a;
    } else {
      var init, e := b[..|b| - 1], b[|b| - 1];
      assert b == init + [e];
      AssocSeq(a, init, [e]);
      RunConcat(su, w, a, init);
      RunSnoc(su, w, a + init, e);
      RunSnoc(su, Run(su, w, a), init, e);
    }
  }

  lemma RunOne(su: Setup, w: World, e: Event)
    requires Starts(su)
    ensures Run(su, w, [e]) == After(su, w, e)
  {
    RunSnoc(su, w, [], e);
    assert [] + [e] == [e];
  }

  lemma RunTwo(su: Setup, w: World, d: Event, e: Event)
    requires Starts(su)
    ensures Run(su, w, [d, e]) == After(su, After(su, w, d), e)
  {
    RunOne(su, w, d);
    RunSnoc(su, w, [d], e);
    assert [d] + [e] == [d, e];
  }

  lemma FinishIsRun(su: Setup, w: World)
    requires Starts(su)
    ensures Run(su, w, FinishEvents(su, w)) == Finish(su, w) && NoCrash(FinishEvents(su, w))
  {
    RunOne(su, w, Step);
    RunTwo(su, w, Step, Step);
  }

  lemma VisitIsRun(su: Setup, w: World, disk: Disk)
    requires Starts(su)
    ensures Run(su, w, VisitEvents(su, w, disk)) == Visit(su, w, disk)
    ensures NoCrash(VisitEvents(su, w, disk))
  {
    var looked := Act(su, w.(disk := disk));
    RunTwo(su, w, Land(disk), Step);
    if looked.process.Alive? && looked.process.doing.Marked? {
      FinishIsRun(su, looked);
      RunConcat(su, w, [Land(disk), Step], FinishEvents(su, looked));
    } else {
      assert [Land(disk), Step] + [] == [Land(disk), Step];
    }
  }

  lemma {:induction false} VisitsAreRun(su: Setup, w: World, disks: seq<Disk>)
    requires Starts(su)
    ensures Run(su, w, VisitsEvents(su, w, disks)) == Visits(su, w, disks)
    ensures NoCrash(VisitsEvents(su, w, disks))
  {
    if disks != [] {
      var init, disk := disks[..|disks| - 1], disks[|disks| - 1];
      VisitsAreRun(su, w, init);
      VisitIsRun(su, Visits(su, w, init), disk);
      RunConcat(su, w, VisitsEvents(su, w, init), VisitEvents(su, Visits(su, w, init), disk));
    }
  }

  /** A poll is a crash-free run, so every safety result about runs covers it. */
  lemma PollIsRun(su: Setup, w: World, disks: seq<Disk>)
    requires Starts(su)
    ensures Run(su, w, PollEvents(su, w, disks)) == Poll(su, w, disks)
    ensures NoCrash(PollEvents(su, w, disks))
  {
    var es := VisitsEvents(su, Act(su, w), disks);
    VisitsAreRun(su, Act(su, w), disks);
    RunSnoc(su, w, [], Step);
    assert [] + [Step] == [Step];
    RunConcat(su, w, [Step], es);
    RunSnoc(su, w, [Step] + es, Step);
  }

  // ---- what one poll achieves -------------------------------------------------------------

  /** All of a task's trials have status rows and, as the task is reached, trajectories. */
  predicate Ready(su: Setup, i: nat, status: set<string>, disk: Disk)
    requires i < |Order(su)|
  {
    HasStatus(TaskRecords(su, i), status) && AllTerminal(TaskPhase1(su, i), disk)
  }

  ghost predicate Visited(su: Setup, w: World, v: World, disks: seq<Disk>)
    requires |disks| <= |Order(su)| && w.process.Alive?
  {
    && v.process.Alive? && v.process.doing.Looking? && v.process.at == |disks|
    && v.process.status == w.process.status && v.stop == w.stop
    && (forall i: nat :: i in v.process.processed <==>
          i in w.process.processed || (i < |disks| && Ready(su, i, w.process.status, disks[i])))
    && (v.process.progress <==> w.process.progress || v.process.processed != w.process.processed)
    && (forall i :: i in v.process.processed ==> i < |Order(su)|)
  }

  lemma ReadyIsSettled(su: Setup, w: World, disk: Disk)
    requires Starts(su) && Uncapped(su.settings)
    requires w.process.Alive? && w.process.doing.Looking? && w.process.at < |Order(su)|
    requires w.process.at !in w.process.processed && Ready(su, w.process.at, w.process.status, disk)
    ensures Visit(su, w, disk).stop == w.stop
    ensures var p := w.process;
      Visit(su, w, disk).process == Alive(p.processed + {p.at}, p.status, p.at + 1, true, Looking)
  {
    TaskBuildIsOwed(su, w.process.at, disk);
    FinishSettles(su, Act(su, w.(disk := disk)));
  }

  lemma OtherIsPassed(su: Setup, w: World, disk: Disk)
    requires Starts(su) && Uncapped(su.settings)
    requires w.process.Alive? && w.process.doing.Looking? && w.process.at < |Order(su)|
    requires w.process.at in w.process.processed || !Ready(su, w.process.at, w.process.status, disk)
    ensures Visit(su, w, disk).stop == w.stop
    ensures Visit(su, w, disk).process == w.process.(at := w.process.at + 1)
  {
    var p := w.process;
    TaskBuildIsOwed(su, p.at, disk);
    assert Act(su, w.(disk := disk)) == Move(w.(disk := disk), p, p.at + 1);
  }

  /** Handling a task settles it if it is ready, and otherwise only moves on. */
  lemma VisitEffect(su: Setup, w: World, disk: Disk)
    requires Starts(su) && Uncapped(su.settings)
    requires w.process.Alive? && w.process.doing.Looking? && w.process.at < |Order(su)|
    ensures VisitedOne(su, w, Visit(su, w, disk), disk)
  {
    if w.process.at !in w.process.processed && Ready(su, w.process.at, w.process.status, disk) {
      ReadyIsSettled(su, w, disk);
    } else {
      OtherIsPassed(su, w, disk);
    }
  }

  predicate VisitedOne(su: Setup, w: World, v: World, disk: Disk)
    requires w.process.Alive? && w.process.at < |Order(su)|
  {
    var p := w.process;
    var settles := p.at !in p.processed && Ready(su, p.at, p.status, disk);
    && v.stop == w.stop
    && v.process == Alive(if settles then p.processed + {p.at} else p.processed, p.status, p.at + 1,
                          p.progress || settles, Looking)
  }

  lemma OneMoreVisited(su: Setup, w: World, v: World, u: World, disks: seq<Disk>, disk: Disk)
    requires w.process.Alive? && |disks| < |Order(su)| && Visited(su, w, v, disks) && VisitedOne(su, v, u, disk)
    ensures Visited(su, w, u, disks + [disk])
  {
    var all := disks + [disk];
    assert all[|disks|] == disk && forall i :: 0 <= i < |disks| ==> all[i] == disks[i];
  }

  lemma VisitAchieves(su: Setup, w: World, v: World, disks: seq<Disk>, disk: Disk)
    requires Starts(su) && Uncapped(su.settings) && w.process.Alive? && |disks| < |Order(su)|
    requires Visited(su, w, v, disks)
    ensures Visited(su, w, Visit(su, v, disk), disks + [disk])
  {
    VisitEffect(su, v, disk);
    OneMoreVisited(su, w, v, Visit(su, v, disk), disks, disk);
  }

  lemma {:induction false} VisitsAchieve(su: Setup, w: World, disks: seq<Disk>)
    requires Starts(su) && Uncapped(su.settings) && |disks| <= |Order(su)|
    requires w.process.Alive? && w.process.doing.Looking? && w.process.at == 0
    requires forall i :: i in w.process.processed ==> i < |Order(su)|
    ensures Visited(su, w, Visits(su, w, disks), disks)
  {
    if disks != [] {
      var init, disk := disks[..|disks| - 1], disks[|disks| - 1];
      assert disks == init + [disk];
      VisitsAchieve(su, w, init);
      VisitAchieves(su, w, Visits(su, w, init), init, disk);
    }
  }

  /** A poll settles exactly the tasks found ready; it ends the watch with success when
      all are settled, with failure when phase 1 has stopped and nothing was ready. */
  lemma PollAchieves(su: Setup, w: World, disks: seq<Disk>)
    requires Starts(su) && Uncapped(su.settings) && |disks| == |Order(su)|
    requires w.process.Alive? && w.process.doing.Sleeping?
    requires forall i :: i in w.process.processed ==> i < |Order(su)|
    ensures var v := Poll(su, w, disks);
      && (forall i: nat :: i in v.process.processed <==>
            i in w.process.processed || (i < |Order(su)| && Ready(su, i, w.disk.status, disks[i])))
      && (v.process.Exited? && v.process.code == 0 <==> v.process.processed == Below(|Order(su)|))
      && (v.process.Exited? && v.process.code == 2 <==>
            v.process.processed != Below(|Order(su)|) && w.stop && v.process.processed == w.process.processed)
  {
    var begun := Act(su, w);
    VisitsAchieve(su, begun, disks);
    var v := Visits(su, begun, disks);
    FullIsBelow(v.process.processed, |Order(su)|);
  }

  lemma FullIsBelow(p: set<nat>, n: nat)
    requires forall i :: i in p ==> i < n
    ensures |p| >= n <==> p == Below(n)
  {
    BelowHoldsAll(n);
    if |p| >= n {
      AllProcessed(p, n);
    }
  }

  // ---- the loop ---------------------------------------------------------------------------

  /** A ready task's files written, and the task settled. */
  function HandedOver(w: World, p: Process, out: seq<TeacherRecord>): World
    requires p.Alive?
  {
    var marked := w.(skipMarks := w.skipMarks + {p.at});
    Settle(if out == [] then marked
           else marked.(reflection := w.reflection + {p.at}, queue := w.queue + {p.at},
                        log := w.log + [Delivery(p.at, out, w.disk)]), p)
  }

  /** Handling a task, in the terms the loop body is written in. */
  lemma VisitUnfolds(su: Setup, w: World, disk: Disk)
    requires Starts(su) && w.disk == disk
    requires w.process.Alive? && w.process.doing.Looking? && w.process.at < |Order(su)|
    ensures var p, at := w.process, w.process.at;
      Visit(su, w, disk) ==
        if at in p.processed || !HasStatus(TaskRecords(su, at), p.status) then Move(w, p, at + 1)
        else
          var b := TaskBuild(su, at, disk);
          if b.incomplete > 0 then Move(w, p, at + 1)
          else HandedOver(w, p, b.records)
  {
    assert w.(disk := disk) == w;
    var looked := Look(su, w, w.process);
    if looked.process.doing.Marked? {
      MarkedIsHandedOver(su, w, TaskBuild(su, w.process.at, disk).records);
    }
  }

  /** The skip marker written and the records held. */
  function InHandOf(w: World, p: Process, out: seq<TeacherRecord>): World
    requires p.Alive?
  {
    w.(skipMarks := w.skipMarks + {p.at}, process := p.(doing := Marked(out, w.disk)))
  }

  lemma MarkedIsHandedOver(su: Setup, w: World, out: seq<TeacherRecord>)
    requires Starts(su) && w.process.Alive? && w.process.at < |Order(su)|
    ensures Finish(su, InHandOf(w, w.process, out)) == HandedOver(w, w.process, out)
  {
    FinishSettles(su, InHandOf(w, w.process, out));
  }

  class PollingWatcher {
    const setup: Setup
    var disk: Disk
    var stop: bool
    var skipMarks: set<nat>
    var reflection: set<nat>
    var queue: set<nat>
    var running: set<nat>
    var done: set<nat>
    var failed: set<nat>
    var log: seq<Delivery>
    var processed: set<nat>

    ghost function Model(process: Process): World
      reads this
    {
      World(disk, stop, skipMarks, reflection, queue, running, done, failed, log, process)
    }

    /** Starting, or restarting: what is on disk counts as processed. */
    constructor (su: Setup, w: World)
      ensures setup == su
      ensures Model(Alive(processed, {}, 0, false, Sleeping)) == Restart(su, w)
    {
      setup, disk, stop, log := su, w.disk, w.stop, w.log;
      skipMarks, reflection, queue := w.skipMarks, w.reflection, w.queue;
      running, done, failed := w.running, w.done, w.failed;
      processed := {};
      new;
      var index := 0;
      while index < |Order(su)|
        invariant index <= |Order(su)|
        invariant forall i :: i in processed <==> i in Scan(su, w) && i < index
        invariant Model(Exited({}, 0)) == w.(process := Exited({}, 0)) && setup == su
      {
        if index in queue || index in running || index in done || index in failed || index in reflection
           || index in skipMarks {
          processed := processed + {index};
        }
        index := index + 1;
      }
      assert processed == Scan(su, w);
    }

    /** The records to hand over, unless the task is settled, unattempted or unfinished. */
    method Examine(index: nat, status: set<string>) returns (found: Option<seq<TeacherRecord>>)
      requires Starts(setup) && index < |Order(setup)|
      ensures found.None? <==> index in processed || !HasStatus(TaskRecords(setup, index), status)
                               || TaskBuild(setup, index, disk).incomplete > 0
      ensures found.Some? ==> found.value == TaskBuild(setup, index, disk).records
    {
      if index in processed {
        return None;
      }
      if exists n :: 0 <= n < |TaskRecords(setup, index)| && TaskRecords(setup, index)[n].trial.id !in status {
        return None;
      }
      OneTaskRuns(setup, index);
      var result := BuildTeacherRecords(setup.settings, TaskRecords(setup, index), disk);
      return if result.value.incomplete > 0 then None else Some(result.value.records);
    }

    method HandOver(index: nat, out: seq<TeacherRecord>, ghost status: set<string>, ghost progress: bool)
      modifies `skipMarks, `reflection, `queue, `log, `processed
      ensures var p := Alive(old(processed), status, index, progress, Looking);
        Model(Alive(processed, status, index + 1, true, Looking)) == HandedOver(old(Model(p)), p, out)
    {
      skipMarks := skipMarks + {index};
      if out != [] {
        reflection := reflection + {index};
        queue, log := queue + {index}, log + [Delivery(index, out, disk)];
      }
      processed := processed + {index};
    }

    /** The body of the loop over tasks; `progress'` is the loop's made_progress. */
    method HandleTask(index: nat, status: set<string>, progress: bool) returns (progress': bool)
      requires Starts(setup) && index < |Order(setup)|
      modifies `skipMarks, `reflection, `queue, `log, `processed
      ensures Model(Alive(processed, status, index + 1, progress', Looking))
        == Visit(setup, old(Model(Alive(processed, status, index, progress, Looking))), disk)
    {
      VisitUnfolds(setup, Model(Alive(processed, status, index, progress, Looking)), disk);
      progress' := progress;
      var found := Examine(index, status);
      if found.Some? {
        HandOver(index, found.value, status, progress);
        progress' := true;
      }
    }

    /** The loop over tasks; the artifacts move on to `disks[i]` before task `i`. */
    method HandleTasks(disks: seq<Disk>, status: set<string>) returns (progress: bool)
      requires Starts(setup) && |disks| == |Order(setup)|
      modifies `disk, `skipMarks, `reflection, `queue, `log, `processed
      ensures Model(Alive(processed, status, |disks|, progress, Looking))
        == Visits(setup, old(Model(Alive(processed, status, 0, false, Looking))), disks)
    {
      progress := false;
      ghost var begun := Model(Alive(processed, status, 0, false, Looking));
      var index := 0;
      while index < |disks|
        invariant index <= |disks|
        invariant Model(Alive(processed, status, index, progress, Looking)) == Visits(setup, begun, disks[..index])
      {
        assert disks[..index + 1][..index] == disks[..index];
        VisitReadsNewDisk(setup, Model(Alive(processed, status, index, progress, Looking)), disks[index]);
        disk := disks[index];
        progress := HandleTask(index, status, progress);
        index := index + 1;
      }
      assert disks[..index] == disks;
    }

    /** One turn of `while True`. */
    method PollOnce(disks: seq<Disk>) returns (exit: Option<nat>)
      requires Starts(setup) && |disks| == |Order(setup)|
      modifies `disk, `skipMarks, `reflection, `queue, `log, `processed
      ensures var v := Poll(setup, old(Model(Alive(processed, {}, 0, false, Sleeping))), disks);
        if exit.Some? then v == Model(Exited(processed, exit.value))
        else v.process.Alive? && v == Model(Alive(processed, v.process.status, |disks|, v.process.progress, Sleeping))
    {
      var status := disk.status;
      var progress := HandleTasks(disks, status);
      if |processed| >= |Order(setup)| {
        return Some(0);
      }
      if stop && !progress {
        return Some(2);
      }
      return None;
    }
  }

  lemma VisitReadsNewDisk(su: Setup, w: World, disk: Disk)
    requires Starts(su)
    ensures Visit(su, w.(disk := disk), disk) == Visit(su, w, disk)
  {
  }
}
