/** assign_claw_worker_slots of launch_trials.py: every distinct Claw task gets a
    port slot of its own, and with per-task exclusivity no two running Claw trials
    ever share ports. */
module ClawSlots {
  import opened Plans
  import opened Scheduling
  import opened SchedulingRuns
  import opened PlanOrders

  const PORTS_PER_SLOT := 100
  const SLOT_LIMIT := 512

  /** UNIFIED_CLAW_PORT_SLOTS clamped to 1..512. */
  function MaxSlots(configured: int): nat {
    if configured < 1 then 1 else if configured > SLOT_LIMIT then SLOT_LIMIT else configured
  }

  /** Distinct Claw tasks in order of first appearance. */
  function ClawTasks(records: seq<Trial>): seq<string> {
    if records == [] then []
    else
      var before, last := ClawTasks(records[..|records| - 1]), records[|records| - 1];
      if last.bench != CLAW || last.task in before then before else before + [last.task]
  }

  function SlotOf(tasks: seq<string>, task: string): (slot: nat)
    requires task in tasks
    ensures 1 <= slot <= |tasks| && tasks[slot - 1] == task
  {
    if tasks[0] == task then 1 else 1 + SlotOf(tasks[1..], task)
  }

  /** The record after assignment; a slot that is already set is kept. */
  function WithSlot(tasks: seq<string>, t: Trial): Trial
    requires t.bench == CLAW ==> t.task in tasks
  {
    if t.bench == CLAW && t.slot.None? then t.(slot := Some(SlotOf(tasks, t.task))) else t
  }

  lemma {:induction false} ClawTasksAreTheTasks(records: seq<Trial>)
    ensures NoDuplicates(ClawTasks(records))
    ensures forall t :: t in records && t.bench == CLAW ==> t.task in ClawTasks(records)
  {
    if records != [] {
      var init, last := records[..|records| - 1], records[|records| - 1];
      assert records == init + [last];
      ClawTasksAreTheTasks(init);
    }
  }

  /** Position `n` has the first Claw record of the task. */
  predicate FirstClaw(records: seq<Trial>, task: string, n: nat) {
    n < |records| && records[n].bench == "claw" && records[n].task == task
    && forall m :: 0 <= m < n ==> !(records[m].bench == "claw" && records[m].task == task)
  }

  /** The tasks, each with the position of its first Claw record, in that order; and all of them. */
  predicate ClawSeen(records: seq<Trial>, tasks: seq<string>, at: seq<nat>) {
    && |at| == |tasks| && Increasing(at)
    && (forall i :: 0 <= i < |at| ==> FirstClaw(records, tasks[i], at[i]))
    && (forall p :: 0 <= p < |records| && records[p].bench == "claw" ==> records[p].task in tasks)
  }

  lemma ClawSeenStill(records: seq<Trial>, tasks: seq<string>, at: seq<nat>)
    requires records != [] && ClawSeen(records[..|records| - 1], tasks, at)
    requires records[|records| - 1].bench == "claw" ==> records[|records| - 1].task in tasks
    ensures ClawSeen(records, tasks, at)
  {
    forall i | 0 <= i < |at| ensures FirstClaw(records, tasks[i], at[i]) {
      assert FirstClaw(records[..|records| - 1], tasks[i], at[i]);
    }
    forall p | 0 <= p < |records| && records[p].bench == "claw" ensures records[p].task in tasks {
      if p < |records| - 1 {
        assert records[..|records| - 1][p].task in tasks;
      }
    }
  }

  lemma ClawSeenAlso(records: seq<Trial>, tasks: seq<string>, at: seq<nat>)
    requires records != [] && ClawSeen(records[..|records| - 1], tasks, at)
    requires records[|records| - 1].bench == "claw" && records[|records| - 1].task !in tasks
    ensures ClawSeen(records, tasks + [records[|records| - 1].task], at + [|records| - 1])
  {
    var n := |records| - 1;
    forall i | 0 <= i < |at| ensures FirstClaw(records, tasks[i], at[i]) {
      assert FirstClaw(records[..n], tasks[i], at[i]);
    }
    forall m | 0 <= m < n && records[m].bench == "claw" ensures records[m].task != records[n].task && records[m].task in tasks {
      assert records[..n][m].task in tasks;
    }
  }

  /** Slots are numbered by first appearance. */
  lemma {:induction false} ClawTasksAsSeen(records: seq<Trial>) returns (at: seq<nat>)
    ensures ClawSeen(records, ClawTasks(records), at)
  {
    if records == [] {
      at := [];
    } else {
      var n := |records| - 1;
      at := ClawTasksAsSeen(records[..n]);
      if records[n].bench == "claw" && records[n].task !in ClawTasks(records[..n]) {
        ClawSeenAlso(records, ClawTasks(records[..n]), at);
        at := at + [n];
      } else {
        ClawSeenStill(records, ClawTasks(records[..n]), at);
      }
    }
  }

  /** A record after assignment: a Claw record without a slot gets the place its task has among the
      Claw tasks, counted from one; nothing else of it changes, and nothing of any other record. */
  lemma WithSlotMeans(tasks: seq<string>, t: Trial)
    requires t.bench == "claw" ==> t.task in tasks
    ensures var r := WithSlot(tasks, t);
      if t.bench == "claw" && t.slot == None
      then r.slot.Some? && 1 <= r.slot.value <= |tasks| && tasks[r.slot.value - 1] == t.task
           && r.bench == t.bench && r.task == t.task && r.id == t.id
      else r == t
  {
    if t.bench == "claw" {
      var _ := SlotOf(tasks, t.task);
    }
  }

  method AssignClawWorkerSlots(records: seq<Trial>, configured: int) returns (r: Result<seq<Trial>, string>)
    ensures r.Err? <==> |ClawTasks(records)| > (if configured < 1 then 1 else if configured > 512 then 512 else configured)
    ensures r.Ok? ==> |r.value| == |records|
    ensures r.Ok? ==> forall i :: 0 <= i < |records| ==>
                        && (records[i].bench == CLAW ==> records[i].task in ClawTasks(records))
                        && r.value[i] == WithSlot(ClawTasks(records), records[i])
  {
    var taskOrder: seq<string> := [];
    for n := 0 to |records|
      invariant taskOrder == ClawTasks(records[..n])
    {
      assert records[..n + 1][..n] == records[..n];
      if records[n].bench == CLAW && records[n].task !in taskOrder {
        taskOrder := taskOrder + [records[n].task];
      }
    }
    assert records[..|records|] == records;
    if |taskOrder| > MaxSlots(configured) {
      return Err("more distinct Claw tasks than port slots");
    }
    ClawTasksAreTheTasks(records);
    var out: seq<Trial> := [];
    for n := 0 to |records|
      invariant |out| == n
      invariant forall i :: 0 <= i < n ==> out[i] == WithSlot(taskOrder, records[i])
    {
      var record := records[n];
      assert record in records;
      if record.bench == CLAW && record.slot.None? {
        record := record.(slot := Some(SlotOf(taskOrder, record.task)));
      }
      out := out + [record];
    }
    r := Ok(out);
  }

  /** The plan has had its Claw slots assigned, none of which was preset. */
  ghost predicate Slotted(records: seq<Trial>, plan: seq<Trial>) {
    forall t :: t in plan && t.bench == CLAW ==>
                  && t.task in ClawTasks(records)
                  && t.slot == Some(SlotOf(ClawTasks(records), t.task))
  }

  lemma AssignmentIsSlotted(records: seq<Trial>, out: seq<Trial>)
    requires forall t :: t in records ==> t.slot.None?
    requires |out| == |records|
    requires forall i :: 0 <= i < |records| ==>
                           && (records[i].bench == CLAW ==> records[i].task in ClawTasks(records))
                           && out[i] == WithSlot(ClawTasks(records), records[i])
    ensures Slotted(records, out)
  {
    forall t | t in out && t.bench == CLAW
      ensures t.task in ClawTasks(records) && t.slot == Some(SlotOf(ClawTasks(records), t.task))
    {
      var i :| 0 <= i < |out| && out[i] == t;
      assert records[i] in records;
    }
  }

  predicate PortsDisjoint(a: nat, b: nat) {
    a * PORTS_PER_SLOT + PORTS_PER_SLOT <= b * PORTS_PER_SLOT || b * PORTS_PER_SLOT + PORTS_PER_SLOT <= a * PORTS_PER_SLOT
  }

  /** In every reachable state of any pass over slotted records (the main pass or a
      retry round), two running Claw trials have different slots, within the limit,
      and their 100-port ranges do not overlap. */
  lemma RunningClawTrialsAreIsolated(cfg: Config, records: seq<Trial>, plan: seq<Trial>, configured: int,
                                     stop0: bool, events: seq<Event>, f: nat, g: nat)
    requires cfg.Valid() && Possible(cfg, plan, stop0, events)
    requires Slotted(records, plan) && |ClawTasks(records)| <= MaxSlots(configured)
    requires var active := After(cfg, plan, stop0, events).active;
             f != g && f in active && g in active && active[f].bench == CLAW && active[g].bench == CLAW
    ensures var active := After(cfg, plan, stop0, events).active;
            && active[f].slot.Some? && active[g].slot.Some?
            && 1 <= active[f].slot.value <= MaxSlots(configured) <= 512
            && active[f].slot.value != active[g].slot.value
            && PortsDisjoint(active[f].slot.value, active[g].slot.value)
  {
    var s := After(cfg, plan, stop0, events);
    var a, b := s.active[f], s.active[g];
    NothingSubmittedTwice(cfg, plan, stop0, events);
    ActiveTrialsAreSafe(cfg, plan, stop0, events);
    LaunchedFromPlan(s.log, plan, a);
    LaunchedFromPlan(s.log, plan, b);
    assert TaskLoad(s.active, KeyOf(a)) <= 1;
    if a.task == b.task {
      BothOnTask(s.active, f, g);
    }
    ClawTasksAreTheTasks(records);
  }

  lemma LaunchedFromPlan(log: seq<Trial>, plan: seq<Trial>, t: Trial)
    requires multiset(log) <= multiset(plan) && t in log
    ensures t in plan
  {
    assert t in multiset(log);
  }

  lemma BothOnTask(active: map<nat, Trial>, f: nat, g: nat)
    requires f != g && f in active && g in active && KeyOf(active[f]) == KeyOf(active[g])
    ensures TaskLoad(active, KeyOf(active[f])) >= 2
  {
    SubsetSize({f, g}, OnTask(active, KeyOf(active[f])));
  }
}
