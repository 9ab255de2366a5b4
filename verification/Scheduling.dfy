/** The scheduling pass of launch_trials.py as a transition system: what one
    `submit_ready` call and one batch of completions do to the launcher's state,
    for both queue disciplines. Futures are numbered in launch order, so `log[f]`
    is the record submitted as future `f`. */
module Scheduling {
  import opened Plans
  import opened Grouping

  datatype Config = Config(passWorkers: int, caps: map<string, int>, taskWindow: int, concurrentTrials: bool) {
    function MaxWorkers(): nat { if passWorkers < 1 then 1 else passWorkers }

    function Cap(bench: string): int { if bench in caps then caps[bench] else MaxWorkers() }

    /** What parse_bench_caps lets through. */
    predicate Valid() { forall b :: b in caps ==> caps[b] >= 1 }
  }

  /** Flat: the deque of records. Windowed: tasks not yet opened, open tasks, and
      each task's remaining records. */
  datatype Backlog =
    | Flat(pending: seq<Trial>)
    | Windowed(waiting: seq<TaskKey>, open: seq<TaskKey>, queues: map<TaskKey, seq<Trial>>)

  datatype State = State(log: seq<Trial>, active: map<nat, Trial>, backlog: Backlog)

  // ---- load and eligibility ---------------------------------------------------------------

  function OnBench(active: map<nat, Trial>, bench: string): set<nat> {
    set f | f in active && active[f].bench == bench
  }

  function OnTask(active: map<nat, Trial>, k: TaskKey): set<nat> {
    set f | f in active && KeyOf(active[f]) == k
  }

  function BenchLoad(active: map<nat, Trial>, bench: string): nat {
    |OnBench(active, bench)|
  }

  function TaskLoad(active: map<nat, Trial>, k: TaskKey): nat {
    |OnTask(active, k)|
  }

  /** Several trials of one task may run together only outside Claw and on request. */
  predicate MayOverlap(cfg: Config, k: TaskKey) {
    cfg.concurrentTrials && k.bench != CLAW
  }

  predicate TaskFree(cfg: Config, active: map<nat, Trial>, k: TaskKey) {
    TaskLoad(active, k) == 0 || MayOverlap(cfg, k)
  }

  predicate Eligible(cfg: Config, active: map<nat, Trial>, t: Trial) {
    BenchLoad(active, t.bench) < cfg.Cap(t.bench) && TaskFree(cfg, active, KeyOf(t))
  }

  /** The limits the launcher promises on what runs at the same time. */
  ghost predicate Safe(cfg: Config, active: map<nat, Trial>) {
    && |active| <= cfg.MaxWorkers()
    && (forall b :: BenchLoad(active, b) <= cfg.Cap(b))
    && (forall k :: !MayOverlap(cfg, k) ==> TaskLoad(active, k) <= 1)
  }

  predicate WellFormed(s: State) {
    && (forall f :: f in s.active ==> f < |s.log| && s.active[f] == s.log[f])
    && (s.backlog.Windowed? ==>
          && (forall k :: k in s.backlog.open ==> k in s.backlog.queues)
          && (forall k :: k in s.backlog.waiting ==> k in s.backlog.queues))
  }

  function Launch(s: State, t: Trial): State {
    s.(log := s.log + [t], active := s.active[|s.log| := t])
  }

  // ---- flat discipline --------------------------------------------------------------------

  /** Position of the first record the scan may submit, or the length if none. */
  function FirstReady(cfg: Config, active: map<nat, Trial>, pending: seq<Trial>): (i: nat)
    ensures i <= |pending|
    ensures forall j :: 0 <= j < i ==> !Eligible(cfg, active, pending[j])
    ensures i < |pending| ==> Eligible(cfg, active, pending[i])
  {
    if pending == [] || Eligible(cfg, active, pending[0]) then 0
    else 1 + FirstReady(cfg, active, pending[1..])
  }

  /** The deque after the scan has rotated past its first `i` records. */
  function Rotated<T>(q: seq<T>, i: nat): seq<T>
    requires i <= |q|
  {
    q[i..] + q[..i]
  }

  /** The record at the front is popped and submitted. */
  function TakeFront(s: State): (s': State)
    requires WellFormed(s) && s.backlog.Flat? && s.backlog.pending != []
    ensures WellFormed(s') && s'.backlog.Flat? && |s'.active| == |s.active| + 1
  {
    Launch(s, s.backlog.pending[0]).(backlog := Flat(s.backlog.pending[1..]))
  }

  /** `submit_ready` on the flat deque: each round takes the first eligible record;
      the blocked ones before it have been rotated to the back. */
  function SubmitFlat(cfg: Config, s: State): (s': State)
    requires WellFormed(s) && s.backlog.Flat?
    ensures WellFormed(s') && s'.backlog.Flat?
    decreases cfg.MaxWorkers() - |s.active|
  {
    var pending := s.backlog.pending;
    if pending == [] || |s.active| >= cfg.MaxWorkers() then s
    else
      var i := FirstReady(cfg, s.active, pending);
      if i == |pending| then s
      else SubmitFlat(cfg, TakeFront(s.(backlog := Flat(Rotated(pending, i)))))
  }

  // ---- windowed discipline ----------------------------------------------------------------

  function Room(cfg: Config, waiting: seq<TaskKey>, open: seq<TaskKey>): nat {
    var free := cfg.taskWindow - |open|;
    if free <= 0 then 0 else if free < |waiting| then free else |waiting|
  }

  /** fill_task_window. */
  function Fill(cfg: Config, s: State): (s': State)
    requires s.backlog.Windowed?
    ensures s'.backlog.Windowed? && (WellFormed(s) ==> WellFormed(s'))
  {
    var Windowed(waiting, open, queues) := s.backlog;
    var m := Room(cfg, waiting, open);
    s.(backlog := Windowed(waiting[m..], open + waiting[..m], queues))
  }

  predicate Retirable(active: map<nat, Trial>, queues: map<TaskKey, seq<Trial>>, k: TaskKey)
    requires k in queues
  {
    queues[k] == [] && TaskLoad(active, k) == 0
  }

  predicate Runnable(cfg: Config, active: map<nat, Trial>, queues: map<TaskKey, seq<Trial>>, k: TaskKey)
    requires k in queues
  {
    && queues[k] != []
    && TaskFree(cfg, active, k)
    && BenchLoad(active, queues[k][0].bench) < cfg.Cap(queues[k][0].bench)
  }

  predicate Moving(cfg: Config, active: map<nat, Trial>, queues: map<TaskKey, seq<Trial>>, k: TaskKey)
    requires k in queues
  {
    Retirable(active, queues, k) || Runnable(cfg, active, queues, k)
  }

  /** Position of the first open task that can retire or run, or the length. */
  function FirstMoving(cfg: Config, active: map<nat, Trial>, queues: map<TaskKey, seq<Trial>>, open: seq<TaskKey>): (i: nat)
    requires forall k :: k in open ==> k in queues
    ensures i <= |open|
    ensures forall j :: 0 <= j < i ==> !Moving(cfg, active, queues, open[j])
    ensures i < |open| ==> Moving(cfg, active, queues, open[i])
  {
    if open == [] || Moving(cfg, active, queues, open[0]) then 0
    else 1 + FirstMoving(cfg, active, queues, open[1..])
  }

  /** The task at the front retires and the window refills, or it submits the
      head of its queue and stays at the front. */
  function ActOnFront(cfg: Config, s: State): (s': State)
    requires WellFormed(s) && s.backlog.Windowed? && s.backlog.open != []
    requires Moving(cfg, s.active, s.backlog.queues, s.backlog.open[0])
    ensures WellFormed(s') && s'.backlog.Windowed?
    ensures || |s'.active| == |s.active| + 1
            || (s'.active == s.active && |s'.backlog.waiting| + |s'.backlog.open| < |s.backlog.waiting| + |s.backlog.open|)
  {
    var Windowed(waiting, open, queues) := s.backlog;
    var k := open[0];
    if Retirable(s.active, queues, k) then
      Fill(cfg, s.(backlog := Windowed(waiting, open[1..], queues)))
    else
      Launch(s, queues[k][0]).(backlog := Windowed(waiting, open, queues[k := queues[k][1..]]))
  }

  function RotateOpen(s: State, i: nat): (s': State)
    requires s.backlog.Windowed? && i <= |s.backlog.open|
    ensures WellFormed(s) ==> WellFormed(s')
  {
    s.(backlog := Windowed(s.backlog.waiting, Rotated(s.backlog.open, i), s.backlog.queues))
  }

  /** `submit_ready` on the window: each round acts on the first open task that
      can move; the ones before it have been rotated to the back. */
  function SubmitWindow(cfg: Config, s: State): (s': State)
    requires WellFormed(s) && s.backlog.Windowed?
    ensures WellFormed(s') && s'.backlog.Windowed?
    decreases cfg.MaxWorkers() - |s.active|, |s.backlog.waiting| + |s.backlog.open|
  {
    if |s.active| >= cfg.MaxWorkers() then s
    else
      var i := FirstMoving(cfg, s.active, s.backlog.queues, s.backlog.open);
      if i == |s.backlog.open| then s else SubmitWindow(cfg, ActOnFront(cfg, RotateOpen(s, i)))
  }

  // ---- the pass ---------------------------------------------------------------------------

  function SubmitReady(cfg: Config, s: State, stop: bool): (s': State)
    requires WellFormed(s)
    ensures WellFormed(s')
  {
    match s.backlog
    case Flat(_) => if stop then s.(backlog := Flat([])) else SubmitFlat(cfg, s)
    case Windowed(_, _, queues) =>
      if stop then s.(backlog := Windowed([], [], queues)) else SubmitWindow(cfg, Fill(cfg, s))
  }

  function Complete(s: State, done: set<nat>): (s': State)
    ensures WellFormed(s) ==> WellFormed(s')
  {
    s.(active := s.active - done)
  }

  function Queues(records: seq<Trial>): map<TaskKey, seq<Trial>> {
    map k | k in Keys(records) :: OfTask(records, k)
  }

  function Init(cfg: Config, records: seq<Trial>): (s: State)
    ensures WellFormed(s)
  {
    TaskOrderIsTheTasks(records);
    KeysAreTheTasks(records);
    State([], map[],
          if cfg.taskWindow > 0 then Windowed(TaskOrder(records), [], Queues(records)) else Flat(records))
  }

  /** One turn of the completion loop: some active futures finish, then
      `submit_ready` runs and sees the stop flag set or not. */
  datatype Event = Event(done: set<nat>, stop: bool)

  predicate CanHappen(s: State, e: Event) {
    e.done != {} && forall f :: f in e.done ==> f in s.active
  }

  /** The state after the turns `events` of a pass over `records` whose first
      `submit_ready` saw the flag `stop0`. */
  function After(cfg: Config, records: seq<Trial>, stop0: bool, events: seq<Event>): (s: State)
    ensures WellFormed(s)
  {
    if events == [] then SubmitReady(cfg, Init(cfg, records), stop0)
    else
      var e := events[|events| - 1];
      SubmitReady(cfg, Complete(After(cfg, records, stop0, events[..|events| - 1]), e.done), e.stop)
  }

  /** The completions are possible ones: each turn finishes at least one future,
      and only futures that are active at that point. */
  predicate Possible(cfg: Config, records: seq<Trial>, stop0: bool, events: seq<Event>) {
    events == [] ||
    (var earlier := events[..|events| - 1];
     && Possible(cfg, records, stop0, earlier)
     && CanHappen(After(cfg, records, stop0, earlier), events[|events| - 1]))
  }

  predicate NeverStopped(stop0: bool, events: seq<Event>) {
    !stop0 && forall i :: 0 <= i < |events| ==> !events[i].stop
  }
}
