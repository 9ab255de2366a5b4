/** What one call of submit_ready does, turn by turn: which record is submitted, and what
    becomes of the deque of records or the open tasks. */
module LauncherTurns {
  import opened Plans
  import opened Grouping
  import opened Scheduling
  import opened LauncherLimits

  // ---- the flat deque ---------------------------------------------------------------------

  predicate Submitted(s: State, t: Trial, s': State) {
    s'.log == s.log + [t] && s'.active == s.active[|s.log| := t]
  }

  /** A worker is free; the first `i` records must wait and record `i` need not: it is submitted
      and leaves the deque, and the ones before it go behind the others. */
  ghost predicate FlatTurn(cfg: Config, s: State, i: nat, s': State) {
    && s.backlog.Flat? && s'.backlog.Flat?
    && var pending := s.backlog.pending;
       && i < |pending| && HasFreeWorker(cfg, s.active)
       && (forall j :: 0 <= j < i ==> MustWait(cfg, s.active, pending[j]))
       && !MustWait(cfg, s.active, pending[i])
       && Submitted(s, pending[i], s')
       && s'.backlog.pending == pending[i + 1..] + pending[..i]
  }

  /** No worker is free, or every record must wait. */
  ghost predicate FlatRests(cfg: Config, s: State) {
    s.backlog.Flat? && (!HasFreeWorker(cfg, s.active) || forall t :: t in s.backlog.pending ==> MustWait(cfg, s.active, t))
  }

  ghost predicate FlatRun(cfg: Config, ss: seq<State>, at: seq<nat>) {
    |ss| == |at| + 1 && (forall n :: 0 <= n < |at| ==> FlatTurn(cfg, ss[n], at[n], ss[n + 1])) && FlatRests(cfg, ss[|at|])
  }

  lemma FlatRestsWhen(cfg: Config, s: State)
    requires s.backlog.Flat?
    requires |s.active| >= cfg.MaxWorkers() || FirstReady(cfg, s.active, s.backlog.pending) == |s.backlog.pending|
    ensures FlatRests(cfg, s)
  {
    var pending := s.backlog.pending;
    FreeWorker(cfg, s.active);
    if HasFreeWorker(cfg, s.active) {
      forall t | t in pending ensures MustWait(cfg, s.active, t) {
        var j :| 0 <= j < |pending| && pending[j] == t;
        assert !Eligible(cfg, s.active, pending[j]);
        BlockedMustWait(cfg, s.active, t);
      }
    }
  }

  lemma RotatedAway<T>(q: seq<T>, i: nat)
    requires i < |q|
    ensures Rotated(q, i)[0] == q[i] && Rotated(q, i)[1..] == q[i + 1..] + q[..i]
  {
  }

  lemma FlatTurnWhen(cfg: Config, s: State, i: nat)
    requires WellFormed(s) && s.backlog.Flat? && |s.active| < cfg.MaxWorkers()
    requires i == FirstReady(cfg, s.active, s.backlog.pending) < |s.backlog.pending|
    ensures FlatTurn(cfg, s, i, TakeFront(s.(backlog := Flat(Rotated(s.backlog.pending, i)))))
  {
    var pending := s.backlog.pending;
    FreeWorker(cfg, s.active);
    RotatedAway(pending, i);
    BlockedMustWait(cfg, s.active, pending[i]);
    forall j | 0 <= j < i ensures MustWait(cfg, s.active, pending[j]) {
      BlockedMustWait(cfg, s.active, pending[j]);
    }
  }

  /** Such a run from one state to another. */
  ghost predicate FlatRunTo(cfg: Config, s: State, ss: seq<State>, at: seq<nat>, s': State) {
    FlatRun(cfg, ss, at) && ss[0] == s && ss[|at|] == s'
  }

  lemma FlatRunCons(cfg: Config, s: State, i: nat, next: State, more: seq<State>, later: seq<nat>, s': State)
    requires FlatTurn(cfg, s, i, next) && FlatRunTo(cfg, next, more, later, s')
    ensures FlatRunTo(cfg, s, [s] + more, [i] + later, s')
  {
    var ss, at := [s] + more, [i] + later;
    forall n | 0 <= n < |at| ensures FlatTurn(cfg, ss[n], at[n], ss[n + 1]) {
      if n > 0 {
        assert FlatTurn(cfg, more[n - 1], later[n - 1], more[n]);
      }
    }
  }

  lemma FlatStops(cfg: Config, s: State)
    requires WellFormed(s) && s.backlog.Flat?
    requires |s.active| >= cfg.MaxWorkers() || FirstReady(cfg, s.active, s.backlog.pending) == |s.backlog.pending|
    ensures FlatRunTo(cfg, s, [s], [], SubmitFlat(cfg, s))
  {
    FlatRestsWhen(cfg, s);
  }

  lemma FlatGoes(cfg: Config, s: State) returns (i: nat, next: State)
    requires WellFormed(s) && s.backlog.Flat?
    requires |s.active| < cfg.MaxWorkers() && FirstReady(cfg, s.active, s.backlog.pending) < |s.backlog.pending|
    ensures i == FirstReady(cfg, s.active, s.backlog.pending)
    ensures next == TakeFront(s.(backlog := Flat(Rotated(s.backlog.pending, i))))
    ensures FlatTurn(cfg, s, i, next) && SubmitFlat(cfg, s) == SubmitFlat(cfg, next)
  {
    i := FirstReady(cfg, s.active, s.backlog.pending);
    next := TakeFront(s.(backlog := Flat(Rotated(s.backlog.pending, i))));
    FlatTurnWhen(cfg, s, i);
  }

  /** submit_ready on the deque is a run of such turns to a point of rest. */
  lemma {:induction false} FlatTurns(cfg: Config, s: State) returns (ss: seq<State>, at: seq<nat>)
    requires WellFormed(s) && s.backlog.Flat?
    ensures FlatRunTo(cfg, s, ss, at, SubmitFlat(cfg, s))
    decreases cfg.MaxWorkers() - |s.active|
  {
    if |s.active| >= cfg.MaxWorkers() || FirstReady(cfg, s.active, s.backlog.pending) == |s.backlog.pending| {
      FlatStops(cfg, s);
      ss, at := [s], [];
    } else {
      var i, next := FlatGoes(cfg, s);
      var more, later := FlatTurns(cfg, next);
      FlatRunCons(cfg, s, i, next, more, later, SubmitFlat(cfg, next));
      ss, at := [s] + more, [i] + later;
    }
  }

  // ---- the task window --------------------------------------------------------------------

  /** Every record in a task's queue is one of that task. */
  predicate OwnQueues(s: State) {
    s.backlog.Windowed? ==>
      forall k :: k in s.backlog.queues ==> forall t :: t in s.backlog.queues[k] ==> t.bench == k.bench && t.task == k.task
  }

  /** The window takes waiting tasks, in order, until it is full or none waits. */
  ghost predicate Filled(cfg: Config, waiting: seq<TaskKey>, open: seq<TaskKey>, waiting': seq<TaskKey>, open': seq<TaskKey>) {
    exists m: nat :: m <= |waiting| && waiting' == waiting[m..] && open' == open + waiting[..m]
      && (m > 0 ==> |open'| <= cfg.taskWindow) && (m < |waiting| ==> |open'| >= cfg.taskWindow)
  }

  lemma FillMeans(cfg: Config, s: State)
    requires s.backlog.Windowed?
    ensures var b, b' := s.backlog, Fill(cfg, s).backlog;
      Filled(cfg, b.waiting, b.open, b'.waiting, b'.open) && b'.queues == b.queues
    ensures Fill(cfg, s).log == s.log && Fill(cfg, s).active == s.active
  {
    var m := Room(cfg, s.backlog.waiting, s.backlog.open);
    assert m <= |s.backlog.waiting|;
  }

  /** The task can do nothing now: its next record must wait, or it has none and one of its
      records is active. */
  ghost predicate TaskStuck(cfg: Config, s: State, k: TaskKey)
    requires s.backlog.Windowed? && k in s.backlog.queues
  {
    var queue := s.backlog.queues[k];
    if queue == [] then TaskRuns(s.active, k.bench, k.task) else MustWait(cfg, s.active, queue[0])
  }

  /** A worker is free; the first `i` open tasks can do nothing and task `i` can. If it has records,
      the next is submitted and the task stays in front; if it has none, it leaves the window,
      which is filled again. The tasks before it go behind the others. */
  ghost predicate WindowTurn(cfg: Config, s: State, i: nat, s': State) {
    && s.backlog.Windowed? && s'.backlog.Windowed?
    && var (open, queues) := (s.backlog.open, s.backlog.queues);
       && (forall k :: k in open ==> k in queues)
       && i < |open| && HasFreeWorker(cfg, s.active)
       && (forall j :: 0 <= j < i ==> TaskStuck(cfg, s, open[j]))
       && !TaskStuck(cfg, s, open[i])
       && if queues[open[i]] == [] then
            && s'.log == s.log && s'.active == s.active && s'.backlog.queues == queues
            && Filled(cfg, s.backlog.waiting, open[i + 1..] + open[..i], s'.backlog.waiting, s'.backlog.open)
          else
            && Submitted(s, queues[open[i]][0], s')
            && s'.backlog.waiting == s.backlog.waiting
            && s'.backlog.open == open[i..] + open[..i]
            && s'.backlog.queues == queues[open[i] := queues[open[i]][1..]]
  }

  /** No worker is free, or every open task can do nothing. */
  ghost predicate WindowRests(cfg: Config, s: State) {
    && s.backlog.Windowed?
    && (forall k :: k in s.backlog.open ==> k in s.backlog.queues)
    && (!HasFreeWorker(cfg, s.active) || forall k :: k in s.backlog.open ==> TaskStuck(cfg, s, k))
  }

  ghost predicate WindowRun(cfg: Config, ss: seq<State>, at: seq<nat>) {
    |ss| == |at| + 1 && (forall n :: 0 <= n < |at| ==> WindowTurn(cfg, ss[n], at[n], ss[n + 1])) && WindowRests(cfg, ss[|at|])
  }

  lemma StuckIff(cfg: Config, s: State, k: TaskKey)
    requires WellFormed(s) && s.backlog.Windowed? && OwnQueues(s) && k in s.backlog.queues
    requires HasFreeWorker(cfg, s.active)
    ensures TaskStuck(cfg, s, k) <==> !Moving(cfg, s.active, s.backlog.queues, k)
  {
    var queue := s.backlog.queues[k];
    TaskRunsIsLoad(s.active, k);
    if queue != [] {
      assert queue[0] in queue;
      assert KeyOf(queue[0]) == k;
      BlockedMustWait(cfg, s.active, queue[0]);
    }
  }

  lemma WindowRestsWhen(cfg: Config, s: State)
    requires WellFormed(s) && s.backlog.Windowed? && OwnQueues(s)
    requires |s.active| >= cfg.MaxWorkers() || FirstMoving(cfg, s.active, s.backlog.queues, s.backlog.open) == |s.backlog.open|
    ensures WindowRests(cfg, s)
  {
    var open := s.backlog.open;
    FreeWorker(cfg, s.active);
    if HasFreeWorker(cfg, s.active) {
      forall k | k in open ensures TaskStuck(cfg, s, k) {
        var j :| 0 <= j < |open| && open[j] == k;
        assert !Moving(cfg, s.active, s.backlog.queues, open[j]);
        StuckIff(cfg, s, k);
      }
    }
  }

  lemma WindowTurnWhen(cfg: Config, s: State, i: nat)
    requires WellFormed(s) && s.backlog.Windowed? && OwnQueues(s) && |s.active| < cfg.MaxWorkers()
    requires i == FirstMoving(cfg, s.active, s.backlog.queues, s.backlog.open) < |s.backlog.open|
    ensures WindowTurn(cfg, s, i, ActOnFront(cfg, RotateOpen(s, i)))
    ensures OwnQueues(ActOnFront(cfg, RotateOpen(s, i)))
  {
    var open, queues := s.backlog.open, s.backlog.queues;
    FreeWorker(cfg, s.active);
    RotatedAway(open, i);
    StuckIff(cfg, s, open[i]);
    forall j | 0 <= j < i ensures TaskStuck(cfg, s, open[j]) {
      StuckIff(cfg, s, open[j]);
    }
    TaskRunsIsLoad(s.active, open[i]);
    if queues[open[i]] == [] {
      FillMeans(cfg, s.(backlog := Windowed(s.backlog.waiting, open[i + 1..] + open[..i], queues)));
    }
  }

  /** Such a run from one state to another. */
  ghost predicate WindowRunTo(cfg: Config, s: State, ss: seq<State>, at: seq<nat>, s': State) {
    WindowRun(cfg, ss, at) && ss[0] == s && ss[|at|] == s'
  }

  lemma WindowRunCons(cfg: Config, s: State, i: nat, next: State, more: seq<State>, later: seq<nat>, s': State)
    requires WindowTurn(cfg, s, i, next) && WindowRunTo(cfg, next, more, later, s')
    ensures WindowRunTo(cfg, s, [s] + more, [i] + later, s')
  {
    var ss, at := [s] + more, [i] + later;
    forall n | 0 <= n < |at| ensures WindowTurn(cfg, ss[n], at[n], ss[n + 1]) {
      if n > 0 {
        assert WindowTurn(cfg, more[n - 1], later[n - 1], more[n]);
      }
    }
  }

  lemma WindowStops(cfg: Config, s: State)
    requires WellFormed(s) && s.backlog.Windowed? && OwnQueues(s)
    requires |s.active| >= cfg.MaxWorkers() || FirstMoving(cfg, s.active, s.backlog.queues, s.backlog.open) == |s.backlog.open|
    ensures WindowRunTo(cfg, s, [s], [], SubmitWindow(cfg, s))
  {
    WindowRestsWhen(cfg, s);
  }

  lemma WindowGoes(cfg: Config, s: State) returns (i: nat, next: State)
    requires WellFormed(s) && s.backlog.Windowed? && OwnQueues(s)
    requires |s.active| < cfg.MaxWorkers() && FirstMoving(cfg, s.active, s.backlog.queues, s.backlog.open) < |s.backlog.open|
    ensures i == FirstMoving(cfg, s.active, s.backlog.queues, s.backlog.open) && next == ActOnFront(cfg, RotateOpen(s, i))
    ensures WindowTurn(cfg, s, i, next) && SubmitWindow(cfg, s) == SubmitWindow(cfg, next) && OwnQueues(next)
  {
    i := FirstMoving(cfg, s.active, s.backlog.queues, s.backlog.open);
    next := ActOnFront(cfg, RotateOpen(s, i));
    WindowTurnWhen(cfg, s, i);
  }

  /** submit_ready on the window, once it is filled, is a run of such turns to a point of rest. */
  lemma {:induction false} WindowTurns(cfg: Config, s: State) returns (ss: seq<State>, at: seq<nat>)
    requires WellFormed(s) && s.backlog.Windowed? && OwnQueues(s)
    ensures WindowRunTo(cfg, s, ss, at, SubmitWindow(cfg, s)) && OwnQueues(SubmitWindow(cfg, s))
    decreases cfg.MaxWorkers() - |s.active|, |s.backlog.waiting| + |s.backlog.open|
  {
    if |s.active| >= cfg.MaxWorkers() || FirstMoving(cfg, s.active, s.backlog.queues, s.backlog.open) == |s.backlog.open| {
      WindowStops(cfg, s);
      ss, at := [s], [];
    } else {
      var i, next := WindowGoes(cfg, s);
      var more, later := WindowTurns(cfg, next);
      WindowRunCons(cfg, s, i, next, more, later, SubmitWindow(cfg, next));
      ss, at := [s] + more, [i] + later;
    }
  }

  // ---- the whole pass ---------------------------------------------------------------------

  lemma {:induction false} QueuesStayOwn(cfg: Config, records: seq<Trial>, stop0: bool, events: seq<Event>)
    ensures OwnQueues(After(cfg, records, stop0, events))
  {
    if events == [] {
      InitOwn(cfg, records);
      SubmitOwn(cfg, Init(cfg, records), stop0);
    } else {
      var e := events[|events| - 1];
      var earlier := After(cfg, records, stop0, events[..|events| - 1]);
      QueuesStayOwn(cfg, records, stop0, events[..|events| - 1]);
      SubmitOwn(cfg, Complete(earlier, e.done), e.stop);
    }
  }

  lemma InitOwn(cfg: Config, records: seq<Trial>)
    ensures OwnQueues(Init(cfg, records))
  {
    forall k | k in Queues(records)
      ensures forall t :: t in Queues(records)[k] ==> t.bench == k.bench && t.task == k.task
    {
      PickMembers(records, ByTask, k);
    }
  }

  lemma SubmitOwn(cfg: Config, s: State, stop: bool)
    requires WellFormed(s) && OwnQueues(s)
    ensures OwnQueues(SubmitReady(cfg, s, stop))
  {
    if s.backlog.Windowed? && !stop {
      var _, _ := WindowTurns(cfg, Fill(cfg, s));
    }
  }

  /** The state submit_ready finds: at the start of the pass nothing is submitted and the deque
      is the plan, or all tasks wait with their records; later some futures are done. */
  ghost predicate Found(cfg: Config, records: seq<Trial>, stop0: bool, events: seq<Event>, s: State) {
    if events == [] then
      && s.log == [] && s.active == map[]
      && if cfg.taskWindow > 0 then
           && s.backlog.Windowed? && s.backlog.waiting == TaskOrder(records) && s.backlog.open == []
           && (forall k :: k in s.backlog.queues <==> k in TaskOrder(records))
           && (forall k :: k in s.backlog.queues ==> s.backlog.queues[k] == OfTask(records, k))
         else s.backlog == Flat(records)
    else
      var earlier, done := After(cfg, records, stop0, events[..|events| - 1]), events[|events| - 1].done;
      && s.log == earlier.log && s.backlog == earlier.backlog
      && (forall f :: f in s.active <==> f in earlier.active && f !in done)
      && (forall f :: f in s.active ==> s.active[f] == earlier.active[f])
  }

  function StopSeen(stop0: bool, events: seq<Event>): bool {
    if events == [] then stop0 else events[|events| - 1].stop
  }

  lemma StateFound(cfg: Config, records: seq<Trial>, stop0: bool, events: seq<Event>) returns (s: State)
    ensures Found(cfg, records, stop0, events, s) && WellFormed(s) && OwnQueues(s)
    ensures After(cfg, records, stop0, events) == SubmitReady(cfg, s, StopSeen(stop0, events))
  {
    if events == [] {
      s := Init(cfg, records);
      InitOwn(cfg, records);
      OrderIsKeys(records);
    } else {
      s := Complete(After(cfg, records, stop0, events[..|events| - 1]), events[|events| - 1].done);
      QueuesStayOwn(cfg, records, stop0, events[..|events| - 1]);
    }
  }

  /** What has not been submitted is dropped. */
  predicate Dropped(s: State, s': State) {
    && s'.log == s.log && s'.active == s.active
    && s'.backlog == if s.backlog.Flat? then Flat([]) else Windowed([], [], s.backlog.queues)
  }

  /** Turns from `s`, in the windowed mode once the window is filled, up to a point of rest. */
  ghost predicate TurnsTo(cfg: Config, s: State, ss: seq<State>, at: seq<nat>, s': State) {
    if s.backlog.Flat? then FlatRunTo(cfg, s, ss, at, s')
    else
      && WindowRun(cfg, ss, at) && ss[|at|] == s'
      && ss[0].log == s.log && ss[0].active == s.active && ss[0].backlog.Windowed?
      && ss[0].backlog.queues == s.backlog.queues
      && Filled(cfg, s.backlog.waiting, s.backlog.open, ss[0].backlog.waiting, ss[0].backlog.open)
  }

  lemma CallTurns(cfg: Config, s: State) returns (ss: seq<State>, at: seq<nat>)
    requires WellFormed(s) && OwnQueues(s)
    ensures TurnsTo(cfg, s, ss, at, SubmitReady(cfg, s, false))
  {
    if s.backlog.Flat? {
      ss, at := FlatTurns(cfg, s);
    } else {
      FillMeans(cfg, s);
      ss, at := WindowTurns(cfg, Fill(cfg, s));
    }
  }

  /** Every state of a pass is reached so: by turns up to a point of rest, or, when a stop is
      seen, by dropping whatever has not been submitted. */
  lemma PassTurns(cfg: Config, records: seq<Trial>, stop0: bool, events: seq<Event>)
    returns (s: State, ss: seq<State>, at: seq<nat>)
    ensures Found(cfg, records, stop0, events, s)
    ensures StopSeen(stop0, events) ==> Dropped(s, After(cfg, records, stop0, events))
    ensures !StopSeen(stop0, events) ==> TurnsTo(cfg, s, ss, at, After(cfg, records, stop0, events))
  {
    s := StateFound(cfg, records, stop0, events);
    ss, at := [], [];
    if !StopSeen(stop0, events) {
      ss, at := CallTurns(cfg, s);
    }
  }
}
