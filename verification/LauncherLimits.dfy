/** The limits of a launcher pass, read off the configuration's fields and the active
    futures themselves. */
module LauncherLimits {
  import opened Plans
  import opened Grouping
  import opened Scheduling
  import opened SchedulingRuns

  /** Active trials of a bench, and of a task. */
  ghost function RunningOn(active: map<nat, Trial>, bench: string): set<nat> {
    set f | f in active && active[f].bench == bench
  }

  ghost predicate TaskRuns(active: map<nat, Trial>, bench: string, task: string) {
    exists f :: f in active && active[f].bench == bench && active[f].task == task
  }

  /** The pool's size: at least one worker. */
  ghost predicate HasFreeWorker(cfg: Config, active: map<nat, Trial>) {
    |active| == 0 || |active| < cfg.passWorkers
  }

  lemma RunningOnIsLoad(active: map<nat, Trial>, bench: string)
    ensures |RunningOn(active, bench)| == BenchLoad(active, bench)
    ensures |RunningOn(active, bench)| <= |active|
  {
    assert RunningOn(active, bench) == OnBench(active, bench);
    assert RunningOn(active, bench) <= active.Keys;
    SubsetSize(RunningOn(active, bench), active.Keys);
  }

  lemma TaskRunsIsLoad(active: map<nat, Trial>, k: TaskKey)
    ensures TaskRuns(active, k.bench, k.task) <==> TaskLoad(active, k) > 0
  {
    if TaskRuns(active, k.bench, k.task) {
      var f :| f in active && active[f].bench == k.bench && active[f].task == k.task;
      assert f in OnTask(active, k);
    } else {
      assert OnTask(active, k) == {};
    }
  }

  lemma TwoOfOneTask(active: map<nat, Trial>, f: nat, g: nat)
    requires f != g && f in active && g in active
    requires active[f].bench == active[g].bench && active[f].task == active[g].task
    ensures TaskLoad(active, TaskKey(active[f].bench, active[f].task)) >= 2
  {
    var k := TaskKey(active[f].bench, active[f].task);
    assert {f, g} <= OnTask(active, k);
    SubsetSize({f, g}, OnTask(active, k));
  }

  /** In every reachable state, for every order of completions and also after a stop: at
      most `passWorkers` futures are active, or one if that is below one; a capped bench
      has at most as many of them as its cap; and two futures of one task are active only
      if concurrent trials are on and the bench is not Claw. */
  lemma LimitsHold(cfg: Config, records: seq<Trial>, stop0: bool, events: seq<Event>)
    requires (forall b :: b in cfg.caps ==> cfg.caps[b] >= 1) && Possible(cfg, records, stop0, events)
    ensures var active := After(cfg, records, stop0, events).active;
      && |active| <= (if cfg.passWorkers < 1 then 1 else cfg.passWorkers)
      && (forall b :: b in cfg.caps ==> |RunningOn(active, b)| <= cfg.caps[b])
      && (forall f, g :: f in active && g in active && f != g
                         && active[f].bench == active[g].bench && active[f].task == active[g].task ==>
            cfg.concurrentTrials && active[f].bench != "claw")
      && (forall f :: f in active ==> active[f] in records)
  {
    var s := After(cfg, records, stop0, events);
    ActiveTrialsAreSafe(cfg, records, stop0, events);
    forall b | b in cfg.caps ensures |RunningOn(s.active, b)| <= cfg.caps[b] {
      RunningOnIsLoad(s.active, b);
    }
    forall f, g | f in s.active && g in s.active && f != g
                  && s.active[f].bench == s.active[g].bench && s.active[f].task == s.active[g].task
      ensures cfg.concurrentTrials && s.active[f].bench != "claw"
    {
      TwoOfOneTask(s.active, f, g);
    }
    NothingSubmittedTwice(cfg, records, stop0, events);
    forall f | f in s.active ensures s.active[f] in records {
      assert s.log[f] in multiset(s.log);
    }
  }

  /** Why a record must wait although a worker is free. */
  ghost predicate MustWait(cfg: Config, active: map<nat, Trial>, t: Trial) {
    || (t.bench in cfg.caps && |RunningOn(active, t.bench)| >= cfg.caps[t.bench])
    || (TaskRuns(active, t.bench, t.task) && !(cfg.concurrentTrials && t.bench != "claw"))
  }

  lemma BlockedMustWait(cfg: Config, active: map<nat, Trial>, t: Trial)
    requires HasFreeWorker(cfg, active)
    ensures !Eligible(cfg, active, t) <==> MustWait(cfg, active, t)
  {
    RunningOnIsLoad(active, t.bench);
    TaskRunsIsLoad(active, TaskKey(t.bench, t.task));
  }

  lemma FreeWorker(cfg: Config, active: map<nat, Trial>)
    ensures HasFreeWorker(cfg, active) <==> |active| < cfg.MaxWorkers()
  {
  }

  lemma StillPending(log: seq<Trial>, pending: seq<Trial>, records: seq<Trial>, t: Trial)
    requires multiset(log) + multiset(pending) == multiset(records) && multiset(log)[t] < multiset(records)[t]
    ensures t in pending
  {
    assert t in multiset(pending);
  }

  /** No worker idles without a reason. Without a window every record that has not been
      submitted must wait; with one, the window is full or no task waits to be opened, and
      the next record of every open task must wait, or all its records have been submitted
      and one of them is active. */
  lemma IdleWorkersHaveReason(cfg: Config, records: seq<Trial>, stop0: bool, events: seq<Event>)
    requires (forall b :: b in cfg.caps ==> cfg.caps[b] >= 1) && Possible(cfg, records, stop0, events)
    requires !stop0 && forall i :: 0 <= i < |events| ==> !events[i].stop
    requires HasFreeWorker(cfg, After(cfg, records, stop0, events).active)
    ensures var s := After(cfg, records, stop0, events);
      cfg.taskWindow <= 0 ==> forall t :: multiset(s.log)[t] < multiset(records)[t] ==> MustWait(cfg, s.active, t)
    ensures var s := After(cfg, records, stop0, events);
      cfg.taskWindow > 0 ==>
        && s.backlog.Windowed? && (s.backlog.waiting == [] || |s.backlog.open| >= cfg.taskWindow)
        && (forall k :: k in s.backlog.open ==> OpenTaskWaits(cfg, records, s, k))
  {
    RunKept(cfg, records, stop0, events);
    ModeIsFixed(cfg, records, stop0, events);
    var s := After(cfg, records, stop0, events);
    FreeWorker(cfg, s.active);
    match s.backlog {
      case Flat(pending) =>
        forall t | multiset(s.log)[t] < multiset(records)[t] ensures MustWait(cfg, s.active, t) {
          StillPending(s.log, pending, records, t);
          assert !Eligible(cfg, s.active, t);
          BlockedMustWait(cfg, s.active, t);
        }
      case Windowed(waiting, open, queues) =>
        forall k | k in open ensures OpenTaskWaits(cfg, records, s, k) {
          OpenTaskHasReason(cfg, records, s, k);
        }
    }
  }

  /** The records of a task, and the submitted ones among them, which come first. */
  ghost predicate OpenTaskWaits(cfg: Config, records: seq<Trial>, s: State, k: TaskKey) {
    var all, sent := OfTask(records, k), OfTask(s.log, k);
    && sent <= all
    && if |sent| == |all| then TaskRuns(s.active, k.bench, k.task) else MustWait(cfg, s.active, all[|sent|])
  }

  lemma OpenTaskHasReason(cfg: Config, records: seq<Trial>, s: State, k: TaskKey)
    requires WellFormed(s) && s.backlog.Windowed? && k in s.backlog.open
    requires QueuesAccounted(records, s) && NoneMoving(cfg, s) && HasFreeWorker(cfg, s.active)
    ensures OpenTaskWaits(cfg, records, s, k)
  {
    var queue := s.backlog.queues[k];
    assert !Moving(cfg, s.active, s.backlog.queues, k);
    TaskRunsIsLoad(s.active, k);
    assert OfTask(records, k) == OfTask(s.log, k) + queue;
    if queue != [] {
      QueueHead(records, s, k);
      BlockedMustWait(cfg, s.active, queue[0]);
    }
  }
}
