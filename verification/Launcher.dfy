/** execute_pass of launch_trials.py in its own shape: counters, deques and the
    active set are fields, scanning rotates the deque, and futures complete in an
    arbitrary order. Every method is tied to the transition system of Scheduling. */
module Launcher {
  import opened Plans
  import opened Grouping
  import opened Scheduling
  import opened SchedulingRuns

  /** A Counter: missing keys count zero. */
  function Count<K>(counter: map<K, int>, k: K): int {
    if k in counter then counter[k] else 0
  }

  ghost predicate CountersAgree(active: map<nat, Trial>, byBench: map<string, int>, byTask: map<TaskKey, int>) {
    && (forall b :: Count(byBench, b) == BenchLoad(active, b))
    && (forall k :: Count(byTask, k) == TaskLoad(active, k))
  }

  lemma CountersAfterLaunch(active: map<nat, Trial>, byBench: map<string, int>, byTask: map<TaskKey, int>, n: nat, t: Trial)
    requires CountersAgree(active, byBench, byTask) && n !in active
    ensures CountersAgree(active[n := t], byBench[t.bench := Count(byBench, t.bench) + 1],
                          byTask[KeyOf(t) := Count(byTask, KeyOf(t)) + 1])
  {
    LoadsAfterLaunch(active, n, t);
    var byBench' := byBench[t.bench := Count(byBench, t.bench) + 1];
    var byTask' := byTask[KeyOf(t) := Count(byTask, KeyOf(t)) + 1];
    forall b ensures Count(byBench', b) == BenchLoad(active[n := t], b) {
      assert Count(byBench, b) == BenchLoad(active, b);
    }
    forall k ensures Count(byTask', k) == TaskLoad(active[n := t], k) {
      assert Count(byTask, k) == TaskLoad(active, k);
    }
  }

  lemma CountersAfterRetire(active: map<nat, Trial>, byBench: map<string, int>, byTask: map<TaskKey, int>, n: nat)
    requires CountersAgree(active, byBench, byTask) && n in active
    ensures var t := active[n];
            CountersAgree(active - {n}, byBench[t.bench := Count(byBench, t.bench) - 1],
                          byTask[KeyOf(t) := Count(byTask, KeyOf(t)) - 1])
  {
    assert active == (active - {n})[n := active[n]];
    LoadsAfterLaunch(active - {n}, n, active[n]);
  }

  class SchedulingPass {
    const cfg: Config
    var log: seq<Trial>
    var active: map<nat, Trial>
    var activeByBench: map<string, int>
    var activeByTask: map<TaskKey, int>
    var pending: seq<Trial>
    var pendingTasks: seq<TaskKey>
    var openTasks: seq<TaskKey>
    var taskQueues: map<TaskKey, seq<Trial>>

    ghost function Model(): State
      reads this
    {
      State(log, active,
            if cfg.taskWindow > 0 then Windowed(pendingTasks, openTasks, taskQueues) else Flat(pending))
    }

    /** Each counter equals the count over the active set. */
    ghost predicate Valid()
      reads this
    {
      WellFormed(Model()) && CountersAgree(active, activeByBench, activeByTask)
    }

    constructor (cfg: Config, records: seq<Trial>)
      ensures Valid() && this.cfg == cfg
      ensures Model() == Init(cfg, records)
    {
      this.cfg := cfg;
      log, active, activeByBench, activeByTask := [], map[], map[], map[];
      pending, pendingTasks, openTasks, taskQueues := [], [], [], map[];
      new;
      if cfg.taskWindow > 0 {
        pendingTasks, taskQueues := TaskWindowGroups(records);
        QueuesAre(records, pendingTasks, taskQueues);
      } else {
        pending := records;
      }
      IdleLoads(active);
    }

    /** submit_record. */
    method SubmitRecord(record: Trial)
      requires Valid()
      modifies `log, `active, `activeByBench, `activeByTask
      ensures Valid()
      ensures log == old(log) + [record] && active == old(active)[|old(log)| := record]
    {
      CountersAfterLaunch(active, activeByBench, activeByTask, |log|, record);
      active := active[|log| := record];
      log := log + [record];
      activeByBench := activeByBench[record.bench := Count(activeByBench, record.bench) + 1];
      activeByTask := activeByTask[KeyOf(record) := Count(activeByTask, KeyOf(record)) + 1];
    }

    // ---- flat deque -----------------------------------------------------------------------

    /** One step of the scan: submit the record at the front, or rotate past it. */
    method TryFrontRecord() returns (submitted: bool)
      requires Valid() && cfg.taskWindow <= 0 && pending != []
      modifies `log, `active, `activeByBench, `activeByTask, `pending
      ensures Valid()
      ensures submitted <==> Eligible(cfg, old(active), old(pending)[0])
      ensures submitted ==> Model() == TakeFront(old(Model()))
      ensures !submitted ==> Model() == old(Model()).(backlog := Flat(old(pending)[1..] + [old(pending)[0]]))
    {
      var record := pending[0];
      if Count(activeByBench, record.bench) >= cfg.Cap(record.bench) {
        pending := pending[1..] + [record];
        return false;
      }
      if Count(activeByTask, KeyOf(record)) > 0 && !(cfg.concurrentTrials && record.bench != CLAW) {
        pending := pending[1..] + [record];
        return false;
      }
      pending := pending[1..];
      SubmitRecord(record);
      return true;
    }

    /** The `for _ in range(len(pending))` scan: submit the first eligible record,
        or rotate all the way round and leave the deque as it was. */
    method ScanFlat() returns (submitted: bool)
      requires Valid() && cfg.taskWindow <= 0
      modifies this
      ensures Valid()
      ensures var i := FirstReady(cfg, old(active), old(pending));
              && (submitted <==> i < |old(pending)|)
              && (submitted ==> Model() == TakeFront(old(Model()).(backlog := Flat(Rotated(old(pending), i)))))
              && (!submitted ==> Model() == old(Model()))
    {
      ghost var p, first := pending, FirstReady(cfg, active, pending);
      FullTurn(p);
      for i := 0 to |pending|
        invariant Valid() && log == old(log) && active == old(active)
        invariant pending == Rotated(p, i)
        invariant i <= first
      {
        RotateOnce(p, i);
        FirstReadyHere(cfg, active, p, i);
        submitted := TryFrontRecord();
        if submitted {
          return;
        }
      }
      return false;
    }

    method SubmitReadyFlat(stop: bool)
      requires Valid() && cfg.taskWindow <= 0
      modifies this
      ensures Valid() && Model() == Scheduling.SubmitReady(cfg, old(Model()), stop)
    {
      if stop {
        pending := [];
        return;
      }
      while pending != [] && |active| < cfg.MaxWorkers()
        invariant Valid()
        invariant SubmitFlat(cfg, Model()) == SubmitFlat(cfg, old(Model()))
        decreases cfg.MaxWorkers() - |active|
      {
        var submitted := ScanFlat();
        if !submitted {
          break;
        }
      }
    }

    // ---- rolling window -------------------------------------------------------------------

    /** fill_task_window. */
    method FillTaskWindow()
      requires Valid() && cfg.taskWindow > 0
      modifies `pendingTasks, `openTasks
      ensures Valid() && Model() == Fill(cfg, old(Model()))
    {
      ghost var waiting, open := pendingTasks, openTasks;
      ghost var m := 0;
      while pendingTasks != [] && |openTasks| < cfg.taskWindow
        invariant Valid() && m <= |waiting|
        invariant pendingTasks == waiting[m..] && openTasks == open + waiting[..m]
        invariant m > 0 ==> |openTasks| <= cfg.taskWindow
        decreases |pendingTasks|
      {
        TakeSnoc(waiting, m);
        openTasks := openTasks + [pendingTasks[0]];
        pendingTasks := pendingTasks[1..];
        m := m + 1;
      }
      assert m == Room(cfg, waiting, open);
    }

    /** One step of the scan: retire or run the task at the front, or rotate
        past it. */
    method TryFrontTask() returns (moved: bool)
      requires Valid() && cfg.taskWindow > 0 && openTasks != []
      modifies `log, `active, `activeByBench, `activeByTask, `pendingTasks, `openTasks, `taskQueues
      ensures Valid()
      ensures moved <==> Moving(cfg, old(active), old(taskQueues), old(openTasks)[0])
      ensures moved ==> Model() == ActOnFront(cfg, old(Model()))
      ensures !moved ==> Model() == old(Model()).(backlog :=
                           Windowed(old(pendingTasks), old(openTasks)[1..] + [old(openTasks)[0]], old(taskQueues)))
    {
      var key := openTasks[0];
      var queue := taskQueues[key];
      if queue == [] && Count(activeByTask, key) <= 0 {
        openTasks := openTasks[1..];
        FillTaskWindow();
        return true;
      }
      if queue == [] || (Count(activeByTask, key) > 0 && !(cfg.concurrentTrials && key.bench != CLAW)) {
        openTasks := openTasks[1..] + [key];
        return false;
      }
      if Count(activeByBench, queue[0].bench) >= cfg.Cap(queue[0].bench) {
        openTasks := openTasks[1..] + [key];
        return false;
      }
      taskQueues := taskQueues[key := queue[1..]];
      SubmitRecord(queue[0]);
      return true;
    }

    /** The `for _ in range(len(open_tasks))` scan: retire or run the first open
        task that can move, or rotate all the way round. */
    method ScanWindow() returns (submitted: bool)
      requires Valid() && cfg.taskWindow > 0
      modifies this
      ensures Valid()
      ensures var i := FirstMoving(cfg, old(active), old(taskQueues), old(openTasks));
              && (submitted <==> i < |old(openTasks)|)
              && (submitted ==> Model() == ActOnFront(cfg, RotateOpen(old(Model()), i)))
              && (!submitted ==> Model() == old(Model()))
    {
      ghost var o, first := openTasks, FirstMoving(cfg, active, taskQueues, openTasks);
      FullTurn(o);
      for i := 0 to |openTasks|
        invariant Valid() && log == old(log) && active == old(active)
        invariant pendingTasks == old(pendingTasks) && taskQueues == old(taskQueues)
        invariant openTasks == Rotated(o, i)
        invariant i <= first
      {
        RotateOnce(o, i);
        FirstMovingHere(cfg, active, taskQueues, o, i);
        submitted := TryFrontTask();
        if submitted {
          return;
        }
      }
      return false;
    }

    method SubmitReadyWindow(stop: bool)
      requires Valid() && cfg.taskWindow > 0
      modifies this
      ensures Valid() && Model() == Scheduling.SubmitReady(cfg, old(Model()), stop)
    {
      if stop {
        pendingTasks, openTasks := [], [];
        return;
      }
      FillTaskWindow();
      while |active| < cfg.MaxWorkers()
        invariant Valid()
        invariant SubmitWindow(cfg, Model()) == SubmitWindow(cfg, Fill(cfg, old(Model())))
        decreases cfg.MaxWorkers() - |active|, |pendingTasks| + |openTasks|
      {
        if openTasks == [] {
          break;
        }
        var submitted := ScanWindow();
        if !submitted {
          break;
        }
      }
    }

    method SubmitReady(stop: bool)
      requires Valid()
      modifies this
      ensures Valid() && Model() == Scheduling.SubmitReady(cfg, old(Model()), stop)
    {
      if cfg.taskWindow > 0 {
        SubmitReadyWindow(stop);
      } else {
        SubmitReadyFlat(stop);
      }
    }

    // ---- completion -----------------------------------------------------------------------

    /** A finished future leaves the active set and its counters go down. */
    method Retire(future: nat)
      requires Valid() && future in active
      modifies `active, `activeByBench, `activeByTask
      ensures Valid() && active == old(active) - {future}
    {
      var record := active[future];
      CountersAfterRetire(active, activeByBench, activeByTask, future);
      active := active - {future};
      activeByBench := activeByBench[record.bench := Count(activeByBench, record.bench) - 1];
      activeByTask := activeByTask[KeyOf(record) := Count(activeByTask, KeyOf(record)) - 1];
    }
  }

  lemma QueuesAre(records: seq<Trial>, order: seq<TaskKey>, queues: map<TaskKey, seq<Trial>>)
    requires order == TaskOrder(records)
    requires forall k :: k in queues <==> k in order
    requires forall k :: k in queues ==> queues[k] == OfTask(records, k)
    ensures queues == Queues(records)
  {
    TaskOrderIsTheTasks(records);
    KeysAreTheTasks(records);
  }

  lemma FirstReadyHere(cfg: Config, active: map<nat, Trial>, pending: seq<Trial>, i: nat)
    requires i < |pending| && i <= FirstReady(cfg, active, pending)
    ensures Eligible(cfg, active, pending[i]) <==> i == FirstReady(cfg, active, pending)
  {
  }

  lemma FirstMovingHere(cfg: Config, active: map<nat, Trial>, queues: map<TaskKey, seq<Trial>>, open: seq<TaskKey>, i: nat)
    requires forall k :: k in open ==> k in queues
    requires i < |open| && i <= FirstMoving(cfg, active, queues, open)
    ensures Moving(cfg, active, queues, open[i]) <==> i == FirstMoving(cfg, active, queues, open)
  {
  }

  lemma RotateOnce<T>(q: seq<T>, i: nat)
    requires i < |q|
    ensures Rotated(q, i) != [] && Rotated(q, i)[0] == q[i]
    ensures Rotated(q, i)[1..] + [q[i]] == Rotated(q, i + 1)
  {
  }

  lemma FullTurn<T>(q: seq<T>)
    ensures Rotated(q, 0) == q && Rotated(q, |q|) == q
  {
  }
}
