/** watch_phase1_teacher_queue.py: the restartable watcher that turns finished
    tasks into queue files, one atomic file operation at a time. */
module TeacherQueue {
  import opened Plans
  import opened Grouping
  import opened TeacherPlans

  datatype Setup = Setup(plan: seq<Record>, settings: Settings)

  function WatchedOnly(su: Setup): seq<Record> {
    Pick(su.plan, Watched, true)
  }

  /** Tasks in order of first appearance; file names carry the index. */
  function Order(su: Setup): seq<TaskKey> {
    Keys(Trials(WatchedOnly(su)))
  }

  function TaskRecords(su: Setup, i: nat): seq<Record>
    requires i < |Order(su)|
  {
    RecordsOf(WatchedOnly(su), Order(su)[i])
  }

  /** The watcher refuses to start on an empty plan or on several runs. */
  predicate Starts(su: Setup) {
    WatchedOnly(su) != [] && OneRun(WatchedOnly(su))
  }

  /** Position within the handling of task `at`: between two file operations. */
  datatype Doing =
    | Sleeping
    | Looking
    | Marked(out: seq<TeacherRecord>, seen: Disk)
    | Saved(out: seq<TeacherRecord>, seen: Disk)

  /** The process: what dies with it, or how it ended. */
  datatype Process =
    | Alive(processed: set<nat>, status: set<string>, at: nat, progress: bool, doing: Doing)
    | Exited(processed: set<nat>, code: nat)

  datatype Delivery = Delivery(index: nat, out: seq<TeacherRecord>, seen: Disk)

  /** The directories hold task indices; `log` lists the queue files ever created. */
  datatype World = World(disk: Disk, stop: bool, skipMarks: set<nat>, reflection: set<nat>, queue: set<nat>,
                         running: set<nat>, done: set<nat>, failed: set<nat>,
                         log: seq<Delivery>, process: Process)

  function Scan(su: Setup, w: World): set<nat> {
    set i: nat | i < |Order(su)| &&
      (i in w.queue || i in w.running || i in w.done || i in w.failed || i in w.reflection || i in w.skipMarks)
  }

  function Restart(su: Setup, w: World): World {
    w.(process := Alive(Scan(su, w), {}, 0, false, Sleeping))
  }

  predicate HasStatus(rs: seq<Record>, status: set<string>) {
    forall i :: 0 <= i < |rs| ==> rs[i].trial.id in status
  }

  /** What the generator says about one task. */
  function TaskBuild(su: Setup, i: nat, disk: Disk): Build
    requires Starts(su) && i < |Order(su)|
  {
    OneTaskRuns(su, i);
    Plan(su.settings, TaskRecords(su, i), disk).value
  }

  lemma OneTaskRuns(su: Setup, i: nat)
    requires Starts(su) && i < |Order(su)|
    ensures OneRun(Phase1Only(TaskRecords(su, i)))
  {
    var rs := Phase1Only(TaskRecords(su, i));
    PickMembers(TaskRecords(su, i), Phase1, true);
    PickMembers(WatchedOnly(su), ByKey, Order(su)[i]);
    forall a, b | 0 <= a < b < |rs| ensures rs[a].run == rs[b].run {
      assert rs[a] in WatchedOnly(su) && rs[b] in WatchedOnly(su);
    }
  }

  function Move(w: World, p: Process, at: nat): World
    requires p.Alive?
  {
    w.(process := p.(at := at, doing := Looking))
  }

  function Settle(w: World, p: Process): World
    requires p.Alive?
  {
    Move(w, p.(processed := p.processed + {p.at}, progress := true), p.at + 1)
  }

  function EndPoll(su: Setup, w: World, p: Process): World
    requires p.Alive?
  {
    if |p.processed| >= |Order(su)| then w.(process := Exited(p.processed, 0))
    else if w.stop && !p.progress then w.(process := Exited(p.processed, 2))
    else w.(process := p.(doing := Sleeping))
  }

  function Look(su: Setup, w: World, p: Process): World
    requires Starts(su) && p.Alive? && p.at < |Order(su)|
  {
    if p.at in p.processed || !HasStatus(TaskRecords(su, p.at), p.status) then Move(w, p, p.at + 1)
    else
      var b := TaskBuild(su, p.at, w.disk);
      if b.incomplete > 0 then Move(w, p, p.at + 1)
      else w.(skipMarks := w.skipMarks + {p.at}, process := p.(doing := Marked(b.records, w.disk)))
  }

  /** The watcher's next file operation. */
  function Act(su: Setup, w: World): World
    requires Starts(su)
  {
    match w.process
    case Exited(_, _) => w
    case Alive(processed, status, at, progress, doing) =>
      match doing
      case Sleeping => w.(process := Alive(processed, w.disk.status, 0, false, Looking))
      case Looking => if at >= |Order(su)| then EndPoll(su, w, w.process) else Look(su, w, w.process)
      case Marked(out, seen) =>
        if out == [] then Settle(w, w.process)
        else w.(reflection := w.reflection + {at}, process := w.process.(doing := Saved(out, seen)))
      case Saved(out, seen) =>
        Settle(w.(queue := w.queue + {at}, log := w.log + [Delivery(at, out, seen)]), w.process)
  }

  /** `Consume`: the phase 2 workers move queue files about, in any way at all. */
  datatype Event =
    | Step
    | Crash
    | Land(disk: Disk)
    | StopRequested
    | Consume(queue: set<nat>, running: set<nat>, done: set<nat>, failed: set<nat>)

  function After(su: Setup, w: World, e: Event): World
    requires Starts(su)
  {
    match e
    case Step => Act(su, w)
    case Crash => Restart(su, w)
    case Land(disk) => w.(disk := disk)
    case StopRequested => w.(stop := true)
    case Consume(queue, running, done, failed) => w.(queue := queue, running := running, done := done, failed := failed)
  }

  function Run(su: Setup, w: World, es: seq<Event>): World
    requires Starts(su)
  {
    if es == [] then w else After(su, Run(su, w, es[..|es| - 1]), es[|es| - 1])
  }

  // ---- safety over every run, with restarts anywhere --------------------------------------

  /** A task is between its skip marker and its queue file. */
  predicate InHand(w: World, i: nat) {
    w.process.Alive? && w.process.at == i && (w.process.doing.Marked? || w.process.doing.Saved?)
  }

  predicate Delivered(w: World, i: nat) {
    exists n :: 0 <= n < |w.log| && w.log[n].index == i
  }

  /** The delivery was owed: all the task's attempts were terminal and none had resolved it. */
  ghost predicate Owed(su: Setup, d: Delivery)
    requires Starts(su)
  {
    && d.index < |Order(su)|
    && IsOwed(su, d.index, d.out, d.seen)
    && d.out != []
  }

  predicate IsOwed(su: Setup, i: nat, out: seq<TeacherRecord>, seen: Disk)
    requires i < |Order(su)|
  {
    var rs := Phase1Only(TaskRecords(su, i));
    AllTerminal(rs, seen) && out == Emitted(su.settings, Order(su)[i], rs, seen)
  }

  ghost predicate Kept(su: Setup, w: World)
    requires Starts(su)
  {
    && (forall n :: 0 <= n < |w.log| ==> Owed(su, w.log[n]) && w.log[n].index in w.skipMarks && !InHand(w, w.log[n].index))
    && (forall m, n :: 0 <= m < n < |w.log| ==> w.log[m].index != w.log[n].index)
    && (w.process.Alive? ==> MemoryKept(su, w, w.process))
  }

  ghost predicate MemoryKept(su: Setup, w: World, p: Process)
    requires Starts(su) && p.Alive?
  {
    && (forall i :: i in w.skipMarks && i < |Order(su)| ==> i in p.processed || InHand(w, i))
    && (p.doing.Marked? ==> p.at < |Order(su)| && p.at in w.skipMarks && IsOwed(su, p.at, p.doing.out, p.doing.seen))
    && (p.doing.Saved? ==> p.at < |Order(su)| && p.at in w.skipMarks && IsOwed(su, p.at, p.doing.out, p.doing.seen)
                           && p.doing.out != [])
  }

  /** The generator, asked about one task, answers for that task alone. */
  lemma TaskBuildIsOwed(su: Setup, i: nat, disk: Disk)
    requires Starts(su) && i < |Order(su)| && Uncapped(su.settings)
    ensures var b := TaskBuild(su, i, disk);
      && (b.incomplete == 0 <==> AllTerminal(Phase1Only(TaskRecords(su, i)), disk))
      && b.records == Emitted(su.settings, Order(su)[i], Phase1Only(TaskRecords(su, i)), disk)
  {
    var plan, k := TaskRecords(su, i), Order(su)[i];
    var rs, b := Phase1Only(plan), TaskBuild(su, i, disk);
    OneTaskRuns(su, i);
    PlanPerTask(su.settings, plan, disk, k);
    PickMembers(plan, Phase1, true);
    PickMembers(WatchedOnly(su), ByKey, k);
    PickAll(rs, ByKey, k);
    forall t | t in b.records ensures ByTeacherKey(t) == k {
      OnlyThisTask(su, i, disk, t);
    }
    PickAll(b.records, ByTeacherKey, k);
  }

  lemma OnlyThisTask(su: Setup, i: nat, disk: Disk, t: TeacherRecord)
    requires Starts(su) && i < |Order(su)| && Uncapped(su.settings)
    requires t in TaskBuild(su, i, disk).records
    ensures t.key == Order(su)[i]
  {
    var plan, k := TaskRecords(su, i), Order(su)[i];
    var rs, b := Phase1Only(plan), TaskBuild(su, i, disk);
    OneTaskRuns(su, i);
    PlanPerTask(su.settings, plan, disk, t.key);
    PickMembers(b.records, ByTeacherKey, t.key);
    PickMembers(rs, ByKey, t.key);
    PickMembers(plan, Phase1, true);
    PickMembers(WatchedOnly(su), ByKey, k);
    assert RecordsOf(rs, t.key) != [];
    assert RecordsOf(rs, t.key)[0] in RecordsOf(rs, t.key);
  }

  lemma LookKeeps(su: Setup, w: World)
    requires Starts(su) && Uncapped(su.settings) && Kept(su, w)
    requires w.process.Alive? && w.process.doing.Looking? && w.process.at < |Order(su)|
    ensures Kept(su, Look(su, w, w.process))
  {
    var p := w.process;
    TaskBuildIsOwed(su, p.at, w.disk);
  }

  lemma SettleKeeps(su: Setup, w: World)
    requires Starts(su) && Kept(su, w) && w.process.Alive? && InHand(w, w.process.at)
    ensures Kept(su, Settle(w, w.process))
  {
  }

  lemma DeliverKeeps(su: Setup, w: World)
    requires Starts(su) && Kept(su, w) && w.process.Alive? && w.process.doing.Saved?
    ensures Kept(su, Act(su, w))
  {
    var p := w.process;
    var d := Delivery(p.at, p.doing.out, p.doing.seen);
    var v := Act(su, w);
    assert Owed(su, d);
    assert MemoryKept(su, v, v.process);
    forall n | 0 <= n < |v.log|
      ensures Owed(su, v.log[n]) && v.log[n].index in v.skipMarks && !InHand(v, v.log[n].index)
    {
      if n < |w.log| {
        assert v.log[n] == w.log[n];
      }
    }
  }

  lemma SaveKeeps(su: Setup, w: World)
    requires Starts(su) && Kept(su, w) && w.process.Alive? && w.process.doing.Marked?
    ensures Kept(su, Act(su, w))
  {
    if w.process.doing.out == [] {
      SettleKeeps(su, w);
    }
  }

  lemma ActKeeps(su: Setup, w: World)
    requires Starts(su) && Uncapped(su.settings) && Kept(su, w)
    ensures Kept(su, Act(su, w))
  {
    if w.process.Alive? {
      if w.process.doing.Marked? {
        SaveKeeps(su, w);
      } else if w.process.doing.Saved? {
        DeliverKeeps(su, w);
      } else if w.process.doing.Looking? && w.process.at < |Order(su)| {
        LookKeeps(su, w);
      }
    }
  }

  lemma AfterKeeps(su: Setup, w: World, e: Event)
    requires Starts(su) && Uncapped(su.settings) && Kept(su, w)
    ensures Kept(su, After(su, w, e))
  {
    if e.Step? {
      ActKeeps(su, w);
    }
  }

  lemma {:induction false} RunKeeps(su: Setup, w: World, es: seq<Event>)
    requires Starts(su) && Uncapped(su.settings) && Kept(su, w)
    ensures Kept(su, Run(su, w, es))
  {
    if es != [] {
      RunKeeps(su, w, es[..|es| - 1]);
      AfterKeeps(su, Run(su, w, es[..|es| - 1]), es[|es| - 1]);
    }
  }

  /** A watcher just started, over directories in any state, that has enqueued nothing yet. */
  ghost predicate JustStarted(su: Setup, w: World) {
    w.log == [] && w == Restart(su, w)
  }

  /** Whatever restarts, consumers and launcher do, a task is enqueued at most once, and
      only with every phase 1 attempt terminal and none of them resolved. */
  lemma EnqueuedOnceAndOnlyWhenOwed(su: Setup, w: World, es: seq<Event>)
    requires Starts(su) && Uncapped(su.settings) && JustStarted(su, w)
    ensures var log := Run(su, w, es).log;
      && (forall m, n :: 0 <= m < n < |log| ==> log[m].index != log[n].index)
      && (forall n :: 0 <= n < |log| ==>
            && log[n].index < |Order(su)|
            && var rs := Phase1Only(TaskRecords(su, log[n].index));
               rs != [] && AllTerminal(rs, log[n].seen) && NoneResolved(rs, log[n].seen)
               && log[n].out == TeacherRecords(su.settings, Order(su)[log[n].index], rs[0].run, OutcomesOf(rs, log[n].seen)))
  {
    RunKeeps(su, w, es);
    var v := Run(su, w, es);
    forall n | 0 <= n < |v.log|
      ensures v.log[n].index < |Order(su)|
      ensures var rs := Phase1Only(TaskRecords(su, v.log[n].index));
        rs != [] && AllTerminal(rs, v.log[n].seen) && NoneResolved(rs, v.log[n].seen)
        && v.log[n].out == TeacherRecords(su.settings, Order(su)[v.log[n].index], rs[0].run, OutcomesOf(rs, v.log[n].seen))
    {
      assert Owed(su, v.log[n]);
    }
  }

  // ---- what a crash can lose --------------------------------------------------------------

  /** The marker is there, the queue file never was, and nobody is about to write it. */
  ghost predicate Lost(su: Setup, w: World, i: nat)
    requires Starts(su)
  {
    i < |Order(su)| && Kept(su, w) && i in w.skipMarks && !Delivered(w, i) && !InHand(w, i)
  }

  lemma OneDeliveryAtATime(su: Setup, w: World, e: Event)
    requires Starts(su)
    ensures var v := After(su, w, e);
      v.log == w.log || exists d: Delivery :: v.log == w.log + [d] && InHand(w, d.index)
  {
    var v := After(su, w, e);
    if e.Step? && w.process.Alive? && w.process.doing.Saved? {
      var d := Delivery(w.process.at, w.process.doing.out, w.process.doing.seen);
      assert v.log == w.log + [d] && InHand(w, d.index);
    }
  }

  lemma DeliveredBySnoc(w: World, v: World, d: Delivery, i: nat)
    requires v.log == w.log + [d]
    ensures Delivered(v, i) <==> Delivered(w, i) || d.index == i
  {
    assert v.log[|w.log|] == d;
    assert forall n :: 0 <= n < |w.log| ==> v.log[n] == w.log[n];
  }

  lemma LostIsNotRetaken(su: Setup, w: World, e: Event, i: nat)
    requires Starts(su) && Lost(su, w, i)
    ensures !InHand(After(su, w, e), i) && i in After(su, w, e).skipMarks
  {
  }

  lemma LostStays(su: Setup, w: World, e: Event, i: nat)
    requires Starts(su) && Uncapped(su.settings) && Lost(su, w, i)
    ensures Lost(su, After(su, w, e), i)
  {
    AfterKeeps(su, w, e);
    LostIsNotRetaken(su, w, e, i);
    var v := After(su, w, e);
    OneDeliveryAtATime(su, w, e);
    if v.log != w.log {
      var d: Delivery :| v.log == w.log + [d] && InHand(w, d.index);
      DeliveredBySnoc(w, v, d, i);
    }
  }

  lemma {:induction false} LostForever(su: Setup, w: World, es: seq<Event>, i: nat)
    requires Starts(su) && Uncapped(su.settings) && Lost(su, w, i)
    ensures Lost(su, Run(su, w, es), i)
  {
    if es != [] {
      LostForever(su, w, es[..|es| - 1], i);
      LostStays(su, Run(su, w, es[..|es| - 1]), es[|es| - 1], i);
    }
  }

  lemma InHandIsDelivered(su: Setup, w: World, i: nat)
    requires Starts(su) && InHand(w, i) && w.process.doing.out != []
    ensures Delivered(Act(su, Act(su, w)), i) || Delivered(Act(su, w), i)
  {
    var v := if w.process.doing.Marked? then Act(su, Act(su, w)) else Act(su, w);
    assert v.log[|w.log|].index == i;
  }

  /** Between the skip marker and the queue file two steps deliver the task, unless there
      is nothing to deliver; but a crash there loses it, whatever happens afterwards. */
  lemma CrashInHandLosesTask(su: Setup, w: World, es: seq<Event>, i: nat)
    requires Starts(su) && Uncapped(su.settings) && Kept(su, w) && InHand(w, i)
    ensures w.process.doing.out != [] ==> Delivered(Act(su, Act(su, w)), i) || Delivered(Act(su, w), i)
    ensures !Delivered(Run(su, Restart(su, w), es), i)
  {
    if w.process.doing.out != [] {
      InHandIsDelivered(su, w, i);
    }
    AfterKeeps(su, w, Crash);
    assert Lost(su, Restart(su, w), i);
    LostForever(su, Restart(su, w), es, i);
  }

  // ---- without a crash: the watcher against the batch generator ---------------------------

  /** Later artifacts only add to earlier ones, and a finished attempt never changes. */
  predicate Extends(a: Disk, b: Disk) {
    a.status <= b.status && forall id :: id in a.results ==> id in b.results && b.results[id] == a.results[id]
  }

  ghost predicate CrashFree(su: Setup, w: World, es: seq<Event>)
    requires Starts(su)
  {
    forall n :: 0 <= n < |es| ==> !es[n].Crash? && (es[n].Land? ==> Extends(Run(su, w, es[..n]).disk, es[n].disk))
  }

  function AllOut(log: seq<Delivery>): seq<TeacherRecord> {
    if log == [] then [] else AllOut(log[..|log| - 1]) + log[|log| - 1].out
  }

  function TaskPhase1(su: Setup, i: nat): seq<Record>
    requires i < |Order(su)|
  {
    Phase1Only(TaskRecords(su, i))
  }

  function Due(su: Setup, i: nat, disk: Disk): seq<TeacherRecord>
    requires i < |Order(su)|
  {
    Emitted(su.settings, Order(su)[i], TaskPhase1(su, i), disk)
  }

  lemma {:induction false} OutcomesStable(rs: seq<Record>, a: Disk, b: Disk)
    requires AllTerminal(rs, a) && Extends(a, b)
    ensures OutcomesOf(rs, b) == OutcomesOf(rs, a) && AllTerminal(rs, b)
    ensures NoneResolved(rs, b) <==> NoneResolved(rs, a)
  {
    if rs != [] {
      OutcomesStable(rs[..|rs| - 1], a, b);
    }
  }

  /** What has been handed over so far is what the processed tasks are due. */
  ghost predicate Faithful(su: Setup, w: World)
    requires Starts(su)
  {
    && (forall i :: i in w.process.processed ==> i < |Order(su)| && AllTerminal(TaskPhase1(su, i), w.disk))
    && (forall k :: Pick(AllOut(w.log), ByTeacherKey, k) == DueSoFar(su, w, k))
    && (w.process.Alive? ==> HandFaithful(su, w, w.process))
    && (w.process.Exited? && w.process.code == 0 ==> |w.process.processed| >= |Order(su)|)
  }

  ghost predicate HandFaithful(su: Setup, w: World, p: Process)
    requires Starts(su) && p.Alive?
  {
    p.doing.Marked? || p.doing.Saved? ==>
      p.at < |Order(su)| && p.at !in p.processed && AllTerminal(TaskPhase1(su, p.at), w.disk)
      && p.doing.out == Due(su, p.at, w.disk)
  }

  function DueSoFar(su: Setup, w: World, k: TaskKey): seq<TeacherRecord> {
    var i := IndexOf(Order(su), k);
    if i < |Order(su)| && i in w.process.processed then Due(su, i, w.disk) else []
  }

  lemma AllOutSnoc(log: seq<Delivery>, d: Delivery, k: TaskKey)
    ensures Pick(AllOut(log + [d]), ByTeacherKey, k)
      == Pick(AllOut(log), ByTeacherKey, k) + Pick(d.out, ByTeacherKey, k)
  {
    assert (log + [d])[..|log|] == log;
    PickConcat(AllOut(log), d.out, ByTeacherKey, k);
  }

  /** Handing over the task at hand, or finding nothing to hand over, settles it. */
  lemma SettleFaithful(su: Setup, w: World, v: World)
    requires Starts(su) && Faithful(su, w) && w.process.Alive? && InHand(w, w.process.at)
    requires v.disk == w.disk && v.process.Alive? && v.process.doing.Looking?
    requires v.process.processed == w.process.processed + {w.process.at}
    requires forall k ::
      Pick(AllOut(v.log), ByTeacherKey, k) == Pick(AllOut(w.log), ByTeacherKey, k) + Pick(w.process.doing.out, ByTeacherKey, k)
    ensures Faithful(su, v)
  {
    var at := w.process.at;
    forall k ensures Pick(AllOut(v.log), ByTeacherKey, k) == DueSoFar(su, v, k) {
      SettledDue(su, w, v, k);
    }
  }

  lemma SettledDue(su: Setup, w: World, v: World, k: TaskKey)
    requires w.process.Alive? && w.process.at < |Order(su)| && w.process.at !in w.process.processed
    requires v.disk == w.disk && v.process.processed == w.process.processed + {w.process.at}
    ensures DueSoFar(su, v, k) == DueSoFar(su, w, k) + Pick(Due(su, w.process.at, w.disk), ByTeacherKey, k)
  {
    var at := w.process.at;
    KeysAreTheTasks(Trials(WatchedOnly(su)));
    IndexOfDistinct(Order(su), at);
    EmittedKeys(su.settings, Order(su)[at], TaskPhase1(su, at), w.disk, k);
  }

  lemma LookFaithful(su: Setup, w: World)
    requires Starts(su) && Uncapped(su.settings) && Faithful(su, w)
    requires w.process.Alive? && w.process.doing.Looking? && w.process.at < |Order(su)|
    ensures Faithful(su, Look(su, w, w.process))
  {
    TaskBuildIsOwed(su, w.process.at, w.disk);
    SameDue(su, w, Look(su, w, w.process));
  }

  lemma SameDue(su: Setup, w: World, v: World)
    requires v.disk == w.disk && v.process.processed == w.process.processed
    ensures forall k :: DueSoFar(su, v, k) == DueSoFar(su, w, k)
  {
  }

  lemma DeliverFaithful(su: Setup, w: World)
    requires Starts(su) && Faithful(su, w) && w.process.Alive? && w.process.doing.Saved?
    ensures Faithful(su, Act(su, w))
  {
    var p, v := w.process, Act(su, w);
    var d := Delivery(p.at, p.doing.out, p.doing.seen);
    forall k
      ensures Pick(AllOut(v.log), ByTeacherKey, k) == Pick(AllOut(w.log), ByTeacherKey, k) + Pick(p.doing.out, ByTeacherKey, k)
    {
      AllOutSnoc(w.log, d, k);
    }
    SettleFaithful(su, w, v);
  }

  lemma SaveFaithful(su: Setup, w: World)
    requires Starts(su) && Faithful(su, w) && w.process.Alive? && w.process.doing.Marked?
    ensures Faithful(su, Act(su, w))
  {
    var v := Act(su, w);
    if w.process.doing.out == [] {
      forall k
        ensures Pick(AllOut(v.log), ByTeacherKey, k)
          == Pick(AllOut(w.log), ByTeacherKey, k) + Pick(w.process.doing.out, ByTeacherKey, k)
      {
      }
      SettleFaithful(su, w, v);
    } else {
      SameDue(su, w, v);
    }
  }

  lemma ActFaithful(su: Setup, w: World)
    requires Starts(su) && Uncapped(su.settings) && Faithful(su, w)
    ensures Faithful(su, Act(su, w))
  {
    if w.process.Alive? {
      var p := w.process;
      if p.doing.Saved? {
        DeliverFaithful(su, w);
      } else if p.doing.Marked? {
        SaveFaithful(su, w);
      } else if p.doing.Looking? && p.at < |Order(su)| {
        LookFaithful(su, w);
      } else {
        SameDue(su, w, Act(su, w));
      }
    }
  }

  lemma LandFaithful(su: Setup, w: World, disk: Disk)
    requires Starts(su) && Faithful(su, w) && Extends(w.disk, disk)
    ensures Faithful(su, w.(disk := disk))
  {
    var v := w.(disk := disk);
    forall i: nat | i < |Order(su)| && AllTerminal(TaskPhase1(su, i), w.disk)
      ensures AllTerminal(TaskPhase1(su, i), disk) && Due(su, i, disk) == Due(su, i, w.disk)
    {
      OutcomesStable(TaskPhase1(su, i), w.disk, disk);
    }
    assert forall k :: DueSoFar(su, v, k) == DueSoFar(su, w, k);
  }

  lemma {:induction false} RunFaithful(su: Setup, w: World, es: seq<Event>)
    requires Starts(su) && Uncapped(su.settings) && Faithful(su, w) && CrashFree(su, w, es)
    ensures Faithful(su, Run(su, w, es))
  {
    if es != [] {
      var init, e := es[..|es| - 1], es[|es| - 1];
      assert CrashFree(su, w, init) by {
        assert forall n :: 0 <= n < |init| ==> es[..n] == init[..n];
      }
      RunFaithful(su, w, init);
      var v := Run(su, w, init);
      if e.Step? {
        ActFaithful(su, v);
      } else if e.Land? {
        LandFaithful(su, v, e.disk);
      } else {
        SameDue(su, v, After(su, v, e));
      }
    }
  }

  /** The records the batch generator sees for a task are those the watcher passes on. */
  lemma SameTaskRecords(su: Setup, i: nat)
    requires i < |Order(su)|
    ensures TaskPhase1(su, i) == RecordsOf(Phase1Only(su.plan), Order(su)[i])
  {
    PickSwap(WatchedOnly(su), ByKey, Order(su)[i], Phase1, true);
    forall r | r in su.plan ensures Phase1(r) ==> Watched(r) {
      Phase1IsWatched(r);
    }
    PickImplied(su.plan, Watched, Phase1);
  }

  lemma UnwatchedTask(su: Setup, k: TaskKey)
    requires k !in Order(su)
    ensures RecordsOf(Phase1Only(su.plan), k) == []
  {
    KeysAreTheTasks(Trials(WatchedOnly(su)));
    KeyHasRecords(WatchedOnly(su), k);
    PickSwap(WatchedOnly(su), ByKey, k, Phase1, true);
    forall r | r in su.plan ensures Phase1(r) ==> Watched(r) {
      Phase1IsWatched(r);
    }
    PickImplied(su.plan, Watched, Phase1);
  }

  lemma BatchRuns(su: Setup, disk: Disk)
    requires Starts(su)
    ensures Plan(su.settings, su.plan, disk).Ok?
  {
    var rs := Phase1Only(su.plan);
    PickMembers(su.plan, Phase1, true);
    PickMembers(su.plan, Watched, true);
    forall a, b | 0 <= a < b < |rs| ensures rs[a].run == rs[b].run {
      Phase1IsWatched(rs[a]);
      Phase1IsWatched(rs[b]);
      assert rs[a] in rs && rs[b] in rs;
      assert rs[a] in WatchedOnly(su) && rs[b] in WatchedOnly(su);
    }
  }

  function Below(n: nat): set<nat> {
    if n == 0 then {} else Below(n - 1) + {n - 1}
  }

  lemma {:induction false} BelowHoldsAll(n: nat)
    ensures |Below(n)| == n && forall i: nat :: i in Below(n) <==> i < n
  {
    if n > 0 {
      BelowHoldsAll(n - 1);
    }
  }

  lemma AllProcessed(p: set<nat>, n: nat)
    requires (forall i :: i in p ==> i < n) && |p| >= n
    ensures p == Below(n)
  {
    BelowHoldsAll(n);
    if p != Below(n) {
      var i :| i in Below(n) && i !in p;
      SubsetSize(p, Below(n) - {i});
    }
  }

  lemma SameForTask(su: Setup, v: World, b: Build, k: TaskKey)
    requires Starts(su) && Uncapped(su.settings) && Faithful(su, v)
    requires forall i: nat :: i in v.process.processed <==> i < |Order(su)|
    requires Plan(su.settings, su.plan, v.disk) == Ok(b)
    ensures Pick(AllOut(v.log), ByTeacherKey, k) == Pick(b.records, ByTeacherKey, k)
  {
    PlanPerTask(su.settings, su.plan, v.disk, k);
    var i := IndexOf(Order(su), k);
    if i < |Order(su)| {
      SameTaskRecords(su, i);
    } else {
      UnwatchedTask(su, k);
    }
  }

  /** A watcher that starts on clean directories and is never restarted ends, when it
      reports all tasks processed, with exactly the queue the batch generator would
      have written from the artifacts of that moment. */
  lemma WatcherMatchesBatch(su: Setup, w: World, es: seq<Event>)
    requires Starts(su) && Uncapped(su.settings)
    requires JustStarted(su, w) && Scan(su, w) == {} && CrashFree(su, w, es)
    ensures var v := Run(su, w, es);
      v.process.Exited? && v.process.code == 0 ==>
        && Plan(su.settings, su.plan, v.disk).Ok?
        && var b := Plan(su.settings, su.plan, v.disk).value;
           multiset(AllOut(v.log)) == multiset(b.records) && b.incomplete == 0
           && forall k :: Pick(AllOut(v.log), ByTeacherKey, k) == Pick(b.records, ByTeacherKey, k)
  {
    assert Faithful(su, w);
    RunFaithful(su, w, es);
    var v := Run(su, w, es);
    if v.process.Exited? && v.process.code == 0 {
      BatchRuns(su, v.disk);
      var b := Plan(su.settings, su.plan, v.disk).value;
      AllProcessed(v.process.processed, |Order(su)|);
      BelowHoldsAll(|Order(su)|);
      forall k ensures Pick(AllOut(v.log), ByTeacherKey, k) == Pick(b.records, ByTeacherKey, k) {
        SameForTask(su, v, b, k);
      }
      SamePicksPermute(AllOut(v.log), b.records, ByTeacherKey);
      NothingIncomplete(su, v, b);
    }
  }

  lemma NothingIncomplete(su: Setup, v: World, b: Build)
    requires Starts(su) && Uncapped(su.settings) && Faithful(su, v)
    requires v.process.processed == Below(|Order(su)|)
    requires Plan(su.settings, su.plan, v.disk) == Ok(b)
    ensures b.incomplete == 0
  {
    var rs := Phase1Only(su.plan);
    forall n | 0 <= n < |rs| ensures Terminal(rs[n], v.disk) {
      assert rs[n] in rs;
      RecordIsTerminal(su, v, rs[n]);
    }
    PlanPerTask(su.settings, su.plan, v.disk, TaskKey("", ""));
  }

  lemma RecordIsTerminal(su: Setup, v: World, r: Record)
    requires Starts(su) && Faithful(su, v) && v.process.processed == Below(|Order(su)|)
    requires r in Phase1Only(su.plan)
    ensures Terminal(r, v.disk)
  {
    var rs, k := Phase1Only(su.plan), ByKey(r);
    var i := IndexOf(Order(su), k);
    BelowHoldsAll(|Order(su)|);
    PickMembers(rs, ByKey, k);
    if i < |Order(su)| {
      SameTaskRecords(su, i);
      var mine := TaskPhase1(su, i);
      var m :| 0 <= m < |mine| && mine[m] == r;
    } else {
      UnwatchedTask(su, k);
    }
  }
}
