/** What every run of the scheduling pass keeps, whatever order the trials
    finish in and whenever the stop flag is raised. */
module SchedulingRuns {
  import opened Plans
  import opened Grouping
  import opened Scheduling

  // ---- loads ------------------------------------------------------------------------------

  lemma BenchLoadAfterLaunch(active: map<nat, Trial>, n: nat, t: Trial, b: string)
    requires n !in active
    ensures BenchLoad(active[n := t], b) == BenchLoad(active, b) + if t.bench == b then 1 else 0
  {
    assert OnBench(active[n := t], b) == OnBench(active, b) + if t.bench == b then {n} else {};
  }

  lemma TaskLoadAfterLaunch(active: map<nat, Trial>, n: nat, t: Trial, k: TaskKey)
    requires n !in active
    ensures TaskLoad(active[n := t], k) == TaskLoad(active, k) + if KeyOf(t) == k then 1 else 0
  {
    assert OnTask(active[n := t], k) == OnTask(active, k) + if KeyOf(t) == k then {n} else {};
  }

  lemma LoadsAfterLaunch(active: map<nat, Trial>, n: nat, t: Trial)
    requires n !in active
    ensures |active[n := t]| == |active| + 1
    ensures forall b :: BenchLoad(active[n := t], b) == BenchLoad(active, b) + if t.bench == b then 1 else 0
    ensures forall k :: TaskLoad(active[n := t], k) == TaskLoad(active, k) + if KeyOf(t) == k then 1 else 0
  {
    forall b ensures BenchLoad(active[n := t], b) == BenchLoad(active, b) + if t.bench == b then 1 else 0 {
      BenchLoadAfterLaunch(active, n, t, b);
    }
    forall k ensures TaskLoad(active[n := t], k) == TaskLoad(active, k) + if KeyOf(t) == k then 1 else 0 {
      TaskLoadAfterLaunch(active, n, t, k);
    }
  }

  lemma LoadsAfterCompletion(active: map<nat, Trial>, done: set<nat>)
    ensures |active - done| <= |active|
    ensures forall b :: BenchLoad(active - done, b) <= BenchLoad(active, b)
    ensures forall k :: TaskLoad(active - done, k) <= TaskLoad(active, k)
  {
    var after := active - done;
    SubsetSize(after.Keys, active.Keys);
    forall b ensures BenchLoad(after, b) <= BenchLoad(active, b) {
      SubsetSize(OnBench(after, b), OnBench(active, b));
    }
    forall k ensures TaskLoad(after, k) <= TaskLoad(active, k) {
      SubsetSize(OnTask(after, k), OnTask(active, k));
    }
  }

  lemma IdleLoads(active: map<nat, Trial>)
    requires active == map[]
    ensures forall b :: BenchLoad(active, b) == 0
    ensures forall k :: TaskLoad(active, k) == 0
  {
    forall b ensures BenchLoad(active, b) == 0 {
      assert OnBench(active, b) == {};
    }
    forall k ensures TaskLoad(active, k) == 0 {
      assert OnTask(active, k) == {};
    }
  }

  // ---- safety -----------------------------------------------------------------------------

  lemma LaunchIsSafe(cfg: Config, s: State, t: Trial)
    requires WellFormed(s) && Safe(cfg, s.active)
    requires |s.active| < cfg.MaxWorkers() && Eligible(cfg, s.active, t)
    ensures Safe(cfg, Launch(s, t).active)
    ensures |Launch(s, t).active| == |s.active| + 1
  {
    LoadsAfterLaunch(s.active, |s.log|, t);
  }

  lemma CompleteIsSafe(cfg: Config, s: State, done: set<nat>)
    requires Safe(cfg, s.active)
    ensures Safe(cfg, Complete(s, done).active)
  {
    LoadsAfterCompletion(s.active, done);
  }

  // ---- the flat deque ---------------------------------------------------------------------

  lemma RotationKeeps<T>(q: seq<T>, i: nat)
    requires i <= |q|
    ensures multiset(Rotated(q, i)) == multiset(q)
    ensures forall x :: x in Rotated(q, i) <==> x in q
  {
    assert q == q[..i] + q[i..];
    forall x ensures x in Rotated(q, i) <==> x in q {
      assert x in q <==> x in multiset(q);
    }
  }

  /** No record of the deque could be submitted now. */
  ghost predicate AllBlocked(cfg: Config, active: map<nat, Trial>, pending: seq<Trial>) {
    forall t :: t in pending ==> !Eligible(cfg, active, t)
  }

  /** A chain of submissions, in either discipline, extends the log and makes
      exactly the new futures active. */
  ghost predicate Grew(s: State, s': State) {
    && s.log <= s'.log
    && |s'.active| - |s.active| == |s'.log| - |s.log|
    && (forall f :: f in s'.active <==> f in s.active || |s.log| <= f < |s'.log|)
  }

  lemma GrewTransitive(a: State, b: State, c: State)
    requires Grew(a, b) && Grew(b, c)
    ensures Grew(a, c)
  {
  }

  lemma TakeFrontKeeps(cfg: Config, s: State)
    requires WellFormed(s) && s.backlog.Flat? && Safe(cfg, s.active) && |s.active| < cfg.MaxWorkers()
    requires s.backlog.pending != [] && Eligible(cfg, s.active, s.backlog.pending[0])
    ensures var s' := TakeFront(s);
            && Safe(cfg, s'.active) && Grew(s, s')
            && multiset(s'.log) + multiset(s'.backlog.pending) == multiset(s.log) + multiset(s.backlog.pending)
  {
    var pending := s.backlog.pending;
    LaunchIsSafe(cfg, s, pending[0]);
    assert pending == [pending[0]] + pending[1..];
  }

  lemma {:induction false} SubmitFlatKeeps(cfg: Config, s: State)
    requires WellFormed(s) && s.backlog.Flat? && Safe(cfg, s.active)
    ensures var s' := SubmitFlat(cfg, s);
            && Safe(cfg, s'.active) && Grew(s, s')
            && multiset(s'.log) + multiset(s'.backlog.pending) == multiset(s.log) + multiset(s.backlog.pending)
            && (|s'.active| >= cfg.MaxWorkers() || AllBlocked(cfg, s'.active, s'.backlog.pending))
    decreases cfg.MaxWorkers() - |s.active|
  {
    var pending := s.backlog.pending;
    if pending != [] && |s.active| < cfg.MaxWorkers() {
      var i := FirstReady(cfg, s.active, pending);
      if i < |pending| {
        var turned := s.(backlog := Flat(Rotated(pending, i)));
        var next := TakeFront(turned);
        assert SubmitFlat(cfg, s) == SubmitFlat(cfg, next);
        RotationKeeps(pending, i);
        TakeFrontKeeps(cfg, turned);
        SubmitFlatKeeps(cfg, next);
        GrewTransitive(s, next, SubmitFlat(cfg, next));
      }
    }
  }

  // ---- the rolling window -----------------------------------------------------------------

  /** Every task's submitted trials followed by its queued ones are its trials in
      plan order. */
  ghost predicate QueuesAccounted(records: seq<Trial>, s: State)
    requires s.backlog.Windowed?
  {
    var queues := s.backlog.queues;
    && (forall k :: k in queues ==> OfTask(s.log, k) + queues[k] == OfTask(records, k))
    && (forall k :: k !in queues ==> OfTask(s.log, k) == [] && OfTask(records, k) == [])
  }

  /** The tasks opened so far, when `waiting` are not. */
  function Opened(order: seq<TaskKey>, waiting: seq<TaskKey>): seq<TaskKey> {
    if |waiting| <= |order| then order[..|order| - |waiting|] else []
  }

  /** The opened tasks are a prefix of the task order, at most `window` of them
      are unfinished, and a task left behind has nothing queued or running. */
  ghost predicate WindowDiscipline(cfg: Config, order: seq<TaskKey>, s: State)
    requires s.backlog.Windowed?
  {
    var Windowed(waiting, open, queues) := s.backlog;
    && |waiting| <= |order|
    && order == Opened(order, waiting) + waiting
    && |open| <= cfg.taskWindow
    && NoDuplicates(open)
    && (forall k :: k in open ==> k in Opened(order, waiting))
    && (forall k :: k in order <==> k in queues)
    && (forall k :: k in Opened(order, waiting) && k !in open ==> queues[k] == [] && TaskLoad(s.active, k) == 0)
    && (forall k :: k in waiting ==> OfTask(s.log, k) == [])
  }

  ghost predicate WindowFull(cfg: Config, s: State)
    requires s.backlog.Windowed?
  {
    s.backlog.waiting == [] || |s.backlog.open| >= cfg.taskWindow
  }

  /** The head of a task's queue belongs to that task. */
  lemma QueueHead(records: seq<Trial>, s: State, k: TaskKey)
    requires s.backlog.Windowed? && QueuesAccounted(records, s)
    requires k in s.backlog.queues && s.backlog.queues[k] != []
    ensures KeyOf(s.backlog.queues[k][0]) == k
  {
    var sent := OfTask(s.log, k);
    assert OfTask(records, k)[|sent|] == s.backlog.queues[k][0];
    assert s.backlog.queues[k][0] in OfTask(records, k);
    PickMembers(records, ByTask, k);
  }

  lemma LaunchAccounted(records: seq<Trial>, s: State, k: TaskKey, open: seq<TaskKey>)
    requires WellFormed(s) && s.backlog.Windowed? && QueuesAccounted(records, s)
    requires k in s.backlog.queues && s.backlog.queues[k] != []
    ensures var queues := s.backlog.queues;
            QueuesAccounted(records, Launch(s, queues[k][0])
                            .(backlog := Windowed(s.backlog.waiting, open, queues[k := queues[k][1..]])))
  {
    var queues := s.backlog.queues;
    QueueHead(records, s, k);
    forall j ensures OfTask(s.log + [queues[k][0]], j) == if j == k then OfTask(s.log, k) + [queues[k][0]] else OfTask(s.log, j) {
      PickSnoc(s.log, queues[k][0], ByTask, j);
    }
    HeadMoves(OfTask(s.log, k), queues[k]);
  }

  lemma HeadMoves<T>(a: seq<T>, b: seq<T>)
    requires b != []
    ensures (a + [b[0]]) + b[1..] == a + b
  {
  }

  lemma FillKeepsWindow(cfg: Config, order: seq<TaskKey>, s: State)
    requires s.backlog.Windowed? && WindowDiscipline(cfg, order, s) && NoDuplicates(order)
    ensures WindowDiscipline(cfg, order, Fill(cfg, s))
    ensures WindowFull(cfg, Fill(cfg, s))
    ensures Fill(cfg, s).log == s.log && Fill(cfg, s).active == s.active
    ensures Fill(cfg, s).backlog.queues == s.backlog.queues
  {
    var Windowed(waiting, open, queues) := s.backlog;
    var m := Room(cfg, waiting, open);
    OpeningMore(order, |order| - |waiting|, m);
    OpenStaysDistinct(order, |order| - |waiting|, open, m);
  }

  lemma OpenStaysDistinct<T>(order: seq<T>, n: nat, open: seq<T>, m: nat)
    requires n + m <= |order| && NoDuplicates(order) && NoDuplicates(open)
    requires forall k :: k in open ==> k in order[..n]
    ensures NoDuplicates(open + order[n..][..m])
  {
    var r := open + order[n..][..m];
    forall i, j | 0 <= i < j < |r| ensures r[i] != r[j] {
      if i < |open| <= j {
        assert open[i] in order[..n];
        var p :| 0 <= p < n && order[p] == open[i];
        assert order[n + (j - |open|)] == r[j];
      } else if |open| <= i {
        assert order[n + (i - |open|)] == r[i];
        assert order[n + (j - |open|)] == r[j];
      }
    }
  }

  lemma OpeningMore<T>(order: seq<T>, n: nat, m: nat)
    requires n + m <= |order|
    ensures order[..n + m] == order[..n] + order[n..][..m]
    ensures order == order[..n + m] + order[n..][m..]
  {
  }

  lemma RotatedDistinct<T>(q: seq<T>, i: nat)
    requires i <= |q| && NoDuplicates(q)
    ensures NoDuplicates(Rotated(q, i))
  {
  }

  lemma RotateKeepsWindow(cfg: Config, records: seq<Trial>, order: seq<TaskKey>, s: State, i: nat)
    requires WellFormed(s) && s.backlog.Windowed? && i <= |s.backlog.open|
    requires QueuesAccounted(records, s) && WindowDiscipline(cfg, order, s) && WindowFull(cfg, s)
    ensures var s' := RotateOpen(s, i);
            QueuesAccounted(records, s') && WindowDiscipline(cfg, order, s') && WindowFull(cfg, s') && Grew(s, s')
  {
    RotationKeeps(s.backlog.open, i);
    RotatedDistinct(s.backlog.open, i);
  }

  lemma RetireKeepsWindow(cfg: Config, order: seq<TaskKey>, s: State)
    requires WellFormed(s) && s.backlog.Windowed? && WindowDiscipline(cfg, order, s)
    requires s.backlog.open != [] && Retirable(s.active, s.backlog.queues, s.backlog.open[0])
    ensures var Windowed(waiting, open, queues) := s.backlog;
            WindowDiscipline(cfg, order, s.(backlog := Windowed(waiting, open[1..], queues)))
  {
    var open := s.backlog.open;
    assert open == [open[0]] + open[1..];
  }

  lemma LaunchKeepsWindow(cfg: Config, order: seq<TaskKey>, s: State, t: Trial)
    requires WellFormed(s) && s.backlog.Windowed? && WindowDiscipline(cfg, order, s) && NoDuplicates(order)
    requires s.backlog.open != [] && KeyOf(t) == s.backlog.open[0]
    requires s.backlog.queues[s.backlog.open[0]] != []
    ensures var Windowed(waiting, open, queues) := s.backlog;
            WindowDiscipline(cfg, order, Launch(s, t).(backlog :=
              Windowed(waiting, open, queues[open[0] := queues[open[0]][1..]])))
  {
    var Windowed(waiting, open, queues) := s.backlog;
    var k := open[0];
    forall j | j in Opened(order, waiting) && j !in open ensures TaskLoad(s.active[|s.log| := t], j) == 0 {
      TaskLoadAfterLaunch(s.active, |s.log|, t, j);
    }
    forall j | j in waiting ensures OfTask(s.log + [t], j) == [] {
      PickSnoc(s.log, t, ByTask, j);
      InOnePart(order, |order| - |waiting|, k, j);
    }
  }

  lemma InOnePart<T>(order: seq<T>, n: nat, a: T, b: T)
    requires n <= |order| && NoDuplicates(order) && a in order[..n] && b in order[n..]
    ensures a != b
  {
    var i :| 0 <= i < n && order[i] == a;
    var j :| 0 <= j < |order| - n && order[n..][j] == b;
    assert order[n + j] == b;
  }

  lemma RetireFrontKeeps(cfg: Config, records: seq<Trial>, order: seq<TaskKey>, s: State)
    requires WellFormed(s) && s.backlog.Windowed? && Safe(cfg, s.active) && |s.active| < cfg.MaxWorkers()
    requires QueuesAccounted(records, s) && WindowDiscipline(cfg, order, s) && WindowFull(cfg, s) && NoDuplicates(order)
    requires s.backlog.open != [] && Moving(cfg, s.active, s.backlog.queues, s.backlog.open[0])
    requires Retirable(s.active, s.backlog.queues, s.backlog.open[0])
    ensures var s' := ActOnFront(cfg, s);
            && Safe(cfg, s'.active) && QueuesAccounted(records, s')
            && WindowDiscipline(cfg, order, s') && WindowFull(cfg, s')
            && Grew(s, s')
  {
    RetireKeepsWindow(cfg, order, s);
    FillKeepsWindow(cfg, order, s.(backlog := Windowed(s.backlog.waiting, s.backlog.open[1..], s.backlog.queues)));
  }

  lemma RunFrontIsSafe(cfg: Config, records: seq<Trial>, s: State)
    requires WellFormed(s) && s.backlog.Windowed? && Safe(cfg, s.active) && |s.active| < cfg.MaxWorkers()
    requires QueuesAccounted(records, s) && WindowFull(cfg, s)
    requires s.backlog.open != [] && Moving(cfg, s.active, s.backlog.queues, s.backlog.open[0])
    requires !Retirable(s.active, s.backlog.queues, s.backlog.open[0])
    ensures var s' := ActOnFront(cfg, s);
            Safe(cfg, s'.active) && WindowFull(cfg, s') && Grew(s, s')
  {
    var k := s.backlog.open[0];
    QueueHead(records, s, k);
    LaunchIsSafe(cfg, s, s.backlog.queues[k][0]);
  }

  lemma RunFrontAccounted(cfg: Config, records: seq<Trial>, s: State)
    requires WellFormed(s) && s.backlog.Windowed? && QueuesAccounted(records, s)
    requires s.backlog.open != [] && Moving(cfg, s.active, s.backlog.queues, s.backlog.open[0])
    requires !Retirable(s.active, s.backlog.queues, s.backlog.open[0])
    ensures QueuesAccounted(records, ActOnFront(cfg, s))
  {
    LaunchAccounted(records, s, s.backlog.open[0], s.backlog.open);
  }

  lemma RunFrontDisciplined(cfg: Config, records: seq<Trial>, order: seq<TaskKey>, s: State)
    requires WellFormed(s) && s.backlog.Windowed? && QueuesAccounted(records, s)
    requires WindowDiscipline(cfg, order, s) && NoDuplicates(order)
    requires s.backlog.open != [] && Moving(cfg, s.active, s.backlog.queues, s.backlog.open[0])
    requires !Retirable(s.active, s.backlog.queues, s.backlog.open[0])
    ensures WindowDiscipline(cfg, order, ActOnFront(cfg, s))
  {
    var k := s.backlog.open[0];
    QueueHead(records, s, k);
    LaunchKeepsWindow(cfg, order, s, s.backlog.queues[k][0]);
  }

  lemma RunFrontKeeps(cfg: Config, records: seq<Trial>, order: seq<TaskKey>, s: State)
    requires WellFormed(s) && s.backlog.Windowed? && Safe(cfg, s.active) && |s.active| < cfg.MaxWorkers()
    requires QueuesAccounted(records, s) && WindowDiscipline(cfg, order, s) && WindowFull(cfg, s) && NoDuplicates(order)
    requires s.backlog.open != [] && Moving(cfg, s.active, s.backlog.queues, s.backlog.open[0])
    requires !Retirable(s.active, s.backlog.queues, s.backlog.open[0])
    ensures var s' := ActOnFront(cfg, s);
            && Safe(cfg, s'.active) && QueuesAccounted(records, s')
            && WindowDiscipline(cfg, order, s') && WindowFull(cfg, s')
            && Grew(s, s')
  {
    RunFrontIsSafe(cfg, records, s);
    RunFrontAccounted(cfg, records, s);
    RunFrontDisciplined(cfg, records, order, s);
  }

  lemma ActOnFrontKeeps(cfg: Config, records: seq<Trial>, order: seq<TaskKey>, s: State)
    requires WellFormed(s) && s.backlog.Windowed? && Safe(cfg, s.active) && |s.active| < cfg.MaxWorkers()
    requires QueuesAccounted(records, s) && WindowDiscipline(cfg, order, s) && WindowFull(cfg, s) && NoDuplicates(order)
    requires s.backlog.open != [] && Moving(cfg, s.active, s.backlog.queues, s.backlog.open[0])
    ensures var s' := ActOnFront(cfg, s);
            && Safe(cfg, s'.active) && QueuesAccounted(records, s')
            && WindowDiscipline(cfg, order, s') && WindowFull(cfg, s')
            && Grew(s, s')
  {
    if Retirable(s.active, s.backlog.queues, s.backlog.open[0]) {
      RetireFrontKeeps(cfg, records, order, s);
    } else {
      RunFrontKeeps(cfg, records, order, s);
    }
  }

  ghost predicate NoneMoving(cfg: Config, s: State)
    requires WellFormed(s) && s.backlog.Windowed?
  {
    forall k :: k in s.backlog.open ==> !Moving(cfg, s.active, s.backlog.queues, k)
  }

  lemma {:induction false} SubmitWindowKeeps(cfg: Config, records: seq<Trial>, order: seq<TaskKey>, s: State)
    requires WellFormed(s) && s.backlog.Windowed? && Safe(cfg, s.active)
    requires QueuesAccounted(records, s) && WindowDiscipline(cfg, order, s) && WindowFull(cfg, s) && NoDuplicates(order)
    ensures var s' := SubmitWindow(cfg, s);
            && Safe(cfg, s'.active) && QueuesAccounted(records, s')
            && WindowDiscipline(cfg, order, s') && WindowFull(cfg, s')
            && Grew(s, s')
            && (|s'.active| >= cfg.MaxWorkers() || NoneMoving(cfg, s'))
    decreases cfg.MaxWorkers() - |s.active|, |s.backlog.waiting| + |s.backlog.open|
  {
    if |s.active| < cfg.MaxWorkers() {
      var i := FirstMoving(cfg, s.active, s.backlog.queues, s.backlog.open);
      if i < |s.backlog.open| {
        var turned := RotateOpen(s, i);
        var next := ActOnFront(cfg, turned);
        assert SubmitWindow(cfg, s) == SubmitWindow(cfg, next);
        RotateKeepsWindow(cfg, records, order, s, i);
        ActOnFrontKeeps(cfg, records, order, turned);
        SubmitWindowKeeps(cfg, records, order, next);
        GrewTransitive(s, next, SubmitWindow(cfg, next));
      }
    }
  }

  // ---- one turn ---------------------------------------------------------------------------

  ghost predicate NothingLeft(b: Backlog) {
    match b
    case Flat(pending) => pending == []
    case Windowed(waiting, open, _) => waiting == [] && open == []
  }

  /** The invariant of the pass; `stopped` says that the stop flag has been seen. */
  ghost predicate Kept(cfg: Config, records: seq<Trial>, stopped: bool, s: State) {
    && WellFormed(s)
    && Safe(cfg, s.active)
    && (stopped ==> NothingLeft(s.backlog))
    && match s.backlog
       case Flat(pending) =>
         && multiset(s.log) + multiset(pending) <= multiset(records)
         && (!stopped ==> multiset(s.log) + multiset(pending) == multiset(records))
       case Windowed(_, _, _) =>
         && QueuesAccounted(records, s)
         && (!stopped ==> WindowDiscipline(cfg, TaskOrder(records), s))
  }

  /** Why `submit_ready` returned: the pool is full, or nothing it can see may run. */
  ghost predicate Settled(cfg: Config, s: State)
    requires WellFormed(s)
  {
    match s.backlog
    case Flat(pending) => |s.active| >= cfg.MaxWorkers() || AllBlocked(cfg, s.active, pending)
    case Windowed(_, _, _) => WindowFull(cfg, s) && (|s.active| >= cfg.MaxWorkers() || NoneMoving(cfg, s))
  }

  lemma InitialWindow(cfg: Config, records: seq<Trial>, order: seq<TaskKey>, queues: map<TaskKey, seq<Trial>>)
    requires cfg.taskWindow > 0 && order == TaskOrder(records) && queues == Queues(records)
    ensures var s := State([], map[], Windowed(order, [], queues));
            QueuesAccounted(records, s) && WindowDiscipline(cfg, order, s)
  {
    QueuesAreTheOrder(records);
    InitialQueues(records, State([], map[], Windowed(order, [], queues)));
    InitialDiscipline(cfg, order, queues);
  }

  lemma QueuesAreTheOrder(records: seq<Trial>)
    ensures forall k :: k in TaskOrder(records) <==> k in Queues(records)
  {
    TaskOrderIsTheTasks(records);
    KeysAreTheTasks(records);
  }

  lemma InitialQueues(records: seq<Trial>, s: State)
    requires s.backlog.Windowed? && s.log == [] && s.backlog.queues == Queues(records)
    ensures QueuesAccounted(records, s)
  {
    KeysAreTheTasks(records);
    forall k ensures OfTask([], k) == [] {}
  }

  lemma InitialDiscipline(cfg: Config, order: seq<TaskKey>, queues: map<TaskKey, seq<Trial>>)
    requires cfg.taskWindow > 0 && forall k :: k in order <==> k in queues
    ensures WindowDiscipline(cfg, order, State([], map[], Windowed(order, [], queues)))
  {
    assert Opened(order, order) == [];
    assert order == [] + order;
  }

  lemma InitKept(cfg: Config, records: seq<Trial>)
    requires cfg.Valid()
    ensures Kept(cfg, records, false, Init(cfg, records))
  {
    var s := Init(cfg, records);
    IdleLoads(s.active);
    if s.backlog.Windowed? {
      InitialWindow(cfg, records, TaskOrder(records), Queues(records));
    }
  }

  lemma CompleteKept(cfg: Config, records: seq<Trial>, stopped: bool, s: State, done: set<nat>)
    requires Kept(cfg, records, stopped, s)
    ensures Kept(cfg, records, stopped, Complete(s, done))
  {
    CompleteIsSafe(cfg, s, done);
    LoadsAfterCompletion(s.active, done);
  }

  lemma SubmitKept(cfg: Config, records: seq<Trial>, stopped: bool, s: State, stop: bool)
    requires Kept(cfg, records, stopped, s)
    ensures Kept(cfg, records, stopped || stop, SubmitReady(cfg, s, stop))
    ensures Grew(s, SubmitReady(cfg, s, stop))
    ensures !stopped && !stop ==> Settled(cfg, SubmitReady(cfg, s, stop))
    ensures stopped || stop ==> SubmitReady(cfg, s, stop).log == s.log
  {
    if !stop {
      match s.backlog {
        case Flat(_) =>
          SubmitFlatKeeps(cfg, s);
        case Windowed(_, _, _) =>
          if !stopped {
            TaskOrderIsTheTasks(records);
            FillKeepsWindow(cfg, TaskOrder(records), s);
            SubmitWindowKeeps(cfg, records, TaskOrder(records), Fill(cfg, s));
          }
      }
    }
  }

  lemma TurnKept(cfg: Config, records: seq<Trial>, stopped: bool, s: State, e: Event)
    requires Kept(cfg, records, stopped, s) && CanHappen(s, e)
    ensures var s' := SubmitReady(cfg, Complete(s, e.done), e.stop);
            && Kept(cfg, records, stopped || e.stop, s')
            && (!stopped && !e.stop ==> Settled(cfg, s'))
            && (stopped || e.stop ==> s'.log == s.log)
            && |s'.active| + 1 - |s.active| <= |s'.log| - |s.log|
  {
    CompleteKept(cfg, records, stopped, s, e.done);
    CompletionsCount(s, e);
    SubmitKept(cfg, records, stopped, Complete(s, e.done), e.stop);
  }

  lemma {:induction false} RunKept(cfg: Config, records: seq<Trial>, stop0: bool, events: seq<Event>)
    requires cfg.Valid() && Possible(cfg, records, stop0, events)
    ensures var s := After(cfg, records, stop0, events);
            && Kept(cfg, records, !NeverStopped(stop0, events), s)
            && |events| + |s.active| <= |s.log|
            && (NeverStopped(stop0, events) ==> Settled(cfg, s))
  {
    if events == [] {
      InitKept(cfg, records);
      SubmitKept(cfg, records, false, Init(cfg, records), stop0);
    } else {
      var earlier, e := events[..|events| - 1], events[|events| - 1];
      RunKept(cfg, records, stop0, earlier);
      LastStop(stop0, events);
      TurnKept(cfg, records, !NeverStopped(stop0, earlier), After(cfg, records, stop0, earlier), e);
    }
  }

  lemma LastStop(stop0: bool, events: seq<Event>)
    requires events != []
    ensures NeverStopped(stop0, events)
            <==> NeverStopped(stop0, events[..|events| - 1]) && !events[|events| - 1].stop
  {
  }

  lemma CompletionsCount(s: State, e: Event)
    requires CanHappen(s, e)
    ensures |Complete(s, e.done).active| < |s.active|
  {
    var f :| f in e.done;
    SubsetSize((s.active - e.done).Keys, s.active.Keys - {f});
  }

  // ---- the promises of the pass -----------------------------------------------------------

  /** In every reachable state, also after a stop, the active trials respect the
      worker count, every bench cap, and per-task exclusivity. */
  lemma ActiveTrialsAreSafe(cfg: Config, records: seq<Trial>, stop0: bool, events: seq<Event>)
    requires cfg.Valid() && Possible(cfg, records, stop0, events)
    ensures Safe(cfg, After(cfg, records, stop0, events).active)
  {
    RunKept(cfg, records, stop0, events);
  }

  lemma PrefixCounts<T>(a: seq<T>, b: seq<T>)
    requires a <= b
    ensures multiset(a) <= multiset(b)
  {
    assert b == a + b[|a|..];
  }

  lemma TaskPrefixesCount(log: seq<Trial>, records: seq<Trial>)
    requires forall k :: OfTask(log, k) <= OfTask(records, k)
    ensures multiset(log) <= multiset(records)
  {
    forall t ensures multiset(log)[t] <= multiset(records)[t] {
      PickCounts(log, ByTask, t);
      PickCounts(records, ByTask, t);
      PrefixCounts(OfTask(log, KeyOf(t)), OfTask(records, KeyOf(t)));
    }
  }

  /** No trial is submitted more often than the plan lists it, and so every run
      is finite: it has at most one turn per record. */
  lemma NothingSubmittedTwice(cfg: Config, records: seq<Trial>, stop0: bool, events: seq<Event>)
    requires cfg.Valid() && Possible(cfg, records, stop0, events)
    ensures multiset(After(cfg, records, stop0, events).log) <= multiset(records)
    ensures |events| <= |records|
  {
    RunKept(cfg, records, stop0, events);
    var s := After(cfg, records, stop0, events);
    if s.backlog.Windowed? {
      forall k ensures OfTask(s.log, k) <= OfTask(records, k) {
        assert k in s.backlog.queues ==> OfTask(s.log, k) + s.backlog.queues[k] == OfTask(records, k);
      }
      TaskPrefixesCount(s.log, records);
    }
    assert |multiset(s.log)| <= |multiset(records)| by {
      assert multiset(records) == multiset(s.log) + (multiset(records) - multiset(s.log));
    }
  }

  lemma IdleIsEligible(cfg: Config, active: map<nat, Trial>, t: Trial)
    requires cfg.Valid() && active == map[]
    ensures Eligible(cfg, active, t)
  {
    IdleLoads(active);
  }

  /** Progress: with no stop, an idle pool means that nothing is left to submit. */
  lemma IdleMeansDone(cfg: Config, s: State)
    requires cfg.Valid() && WellFormed(s) && Settled(cfg, s) && s.active == map[]
    requires s.backlog.Windowed? ==> cfg.taskWindow > 0
    ensures NothingLeft(s.backlog)
  {
    IdleLoads(s.active);
    match s.backlog {
      case Flat(pending) =>
        if pending != [] {
          IdleIsEligible(cfg, s.active, pending[0]);
          assert false;
        }
      case Windowed(waiting, open, queues) =>
        if open != [] {
          assert open[0] in open;
          assert Moving(cfg, s.active, queues, open[0]);
          assert false;
        }
    }
  }

  lemma ModeIsFixed(cfg: Config, records: seq<Trial>, stop0: bool, events: seq<Event>)
    ensures After(cfg, records, stop0, events).backlog.Windowed? <==> cfg.taskWindow > 0
  {
  }

  /** A pass that was never stopped and has drained submitted every record of its
      plan exactly once, whatever the completion order. */
  lemma EveryTrialOnce(cfg: Config, records: seq<Trial>, stop0: bool, events: seq<Event>)
    requires cfg.Valid() && Possible(cfg, records, stop0, events) && NeverStopped(stop0, events)
    requires After(cfg, records, stop0, events).active == map[]
    ensures multiset(After(cfg, records, stop0, events).log) == multiset(records)
  {
    RunKept(cfg, records, stop0, events);
    ModeIsFixed(cfg, records, stop0, events);
    var s := After(cfg, records, stop0, events);
    IdleMeansDone(cfg, s);
    if s.backlog.Windowed? {
      var order := TaskOrder(records);
      assert Opened(order, []) == order;
      forall k ensures Pick(s.log, ByTask, k) == Pick(records, ByTask, k) {
        assert OfTask(s.log, k) == OfTask(records, k);
      }
      SamePicksPermute(s.log, records, ByTask);
    }
  }

  /** Conversely, as long as something is left, some trial is active: the loop
      `while active` cannot end early. */
  lemma NeverIdleEarly(cfg: Config, records: seq<Trial>, stop0: bool, events: seq<Event>)
    requires cfg.Valid() && Possible(cfg, records, stop0, events) && NeverStopped(stop0, events)
    requires multiset(After(cfg, records, stop0, events).log) != multiset(records)
    ensures After(cfg, records, stop0, events).active != map[]
  {
    if After(cfg, records, stop0, events).active == map[] {
      EveryTrialOnce(cfg, records, stop0, events);
    }
  }

  /** Why an open task cannot use a free worker. */
  ghost predicate Held(cfg: Config, s: State, k: TaskKey)
    requires s.backlog.Windowed? && k in s.backlog.queues
  {
    var queue := s.backlog.queues[k];
    || (queue == [] && TaskLoad(s.active, k) > 0)
    || (queue != [] && TaskLoad(s.active, k) > 0 && !MayOverlap(cfg, k))
    || (queue != [] && BenchLoad(s.active, queue[0].bench) >= cfg.Cap(queue[0].bench))
  }

  /** Work conservation: when a worker is free, every record the scheduler can see
      is held back by its bench cap or by a running trial of its own task. */
  lemma WorkConserving(cfg: Config, records: seq<Trial>, stop0: bool, events: seq<Event>)
    requires cfg.Valid() && Possible(cfg, records, stop0, events) && NeverStopped(stop0, events)
    requires |After(cfg, records, stop0, events).active| < cfg.MaxWorkers()
    ensures var s := After(cfg, records, stop0, events);
            match s.backlog
            case Flat(pending) =>
              forall t :: t in pending ==>
                            || BenchLoad(s.active, t.bench) >= cfg.Cap(t.bench)
                            || (TaskLoad(s.active, KeyOf(t)) > 0 && !MayOverlap(cfg, KeyOf(t)))
            case Windowed(waiting, open, queues) =>
              && (waiting == [] || |open| >= cfg.taskWindow)
              && (forall k :: k in open ==> k in queues && Held(cfg, s, k))
  {
    RunKept(cfg, records, stop0, events);
    var s := After(cfg, records, stop0, events);
    match s.backlog {
      case Flat(pending) =>
        forall t | t in pending
          ensures || BenchLoad(s.active, t.bench) >= cfg.Cap(t.bench)
                  || (TaskLoad(s.active, KeyOf(t)) > 0 && !MayOverlap(cfg, KeyOf(t)))
        {
          assert !Eligible(cfg, s.active, t);
        }
      case Windowed(waiting, open, queues) =>
        forall k | k in open ensures Held(cfg, s, k) {
          assert !Moving(cfg, s.active, queues, k);
        }
    }
  }

  /** Rolling window: opened tasks are a prefix of the task order, at most
      `taskWindow` of them are unfinished, every active trial's task is open, and
      each task's trials have been submitted in plan order. */
  lemma WindowIsDisciplined(cfg: Config, records: seq<Trial>, stop0: bool, events: seq<Event>)
    requires cfg.Valid() && Possible(cfg, records, stop0, events) && NeverStopped(stop0, events)
    requires cfg.taskWindow > 0
    ensures var s := After(cfg, records, stop0, events);
            var order := TaskOrder(records);
            && s.backlog.Windowed?
            && order == Opened(order, s.backlog.waiting) + s.backlog.waiting
            && |s.backlog.open| <= cfg.taskWindow
            && (forall k :: k in Opened(order, s.backlog.waiting) && k !in s.backlog.open ==> OfTask(s.log, k) == OfTask(records, k))
            && (forall k :: k in s.backlog.waiting ==> OfTask(s.log, k) == [])
            && (forall f :: f in s.active ==> KeyOf(s.active[f]) in s.backlog.open)
  {
    RunKept(cfg, records, stop0, events);
    ModeIsFixed(cfg, records, stop0, events);
    var s := After(cfg, records, stop0, events);
    var order := TaskOrder(records);
    forall k | k in Opened(order, s.backlog.waiting) && k !in s.backlog.open ensures OfTask(s.log, k) == OfTask(records, k) {
      assert k in order;
      assert OfTask(s.log, k) + s.backlog.queues[k] == OfTask(records, k);
    }
    forall f | f in s.active ensures KeyOf(s.active[f]) in s.backlog.open {
      ActiveTaskIsOpen(cfg, records, order, s, f);
    }
  }

  lemma ActiveTaskIsOpen(cfg: Config, records: seq<Trial>, order: seq<TaskKey>, s: State, f: nat)
    requires WellFormed(s) && s.backlog.Windowed?
    requires QueuesAccounted(records, s) && WindowDiscipline(cfg, order, s) && f in s.active
    ensures KeyOf(s.active[f]) in s.backlog.open
  {
    var k := KeyOf(s.active[f]);
    PickMembers(s.log, ByTask, k);
    assert s.log[f] in s.log;
    assert s.log[f] in OfTask(s.log, k);
    assert f in OnTask(s.active, k);
    assert k in order;
  }

  /** In either mode and after any interruption, the trials submitted for a task
      in windowed mode are the first ones of its plan order. */
  lemma WindowKeepsPlanOrder(cfg: Config, records: seq<Trial>, stop0: bool, events: seq<Event>, k: TaskKey)
    requires cfg.Valid() && Possible(cfg, records, stop0, events) && cfg.taskWindow > 0
    ensures OfTask(After(cfg, records, stop0, events).log, k) <= OfTask(records, k)
  {
    RunKept(cfg, records, stop0, events);
    ModeIsFixed(cfg, records, stop0, events);
    var s := After(cfg, records, stop0, events);
    assert k in s.backlog.queues ==> OfTask(s.log, k) + s.backlog.queues[k] == OfTask(records, k);
  }

  /** Once the stop flag has been seen no later turn submits anything, even if a
      later call were to read the flag as clear. */
  lemma {:induction false} StopIsFinal(cfg: Config, records: seq<Trial>, stop0: bool, events: seq<Event>, n: nat)
    requires cfg.Valid() && Possible(cfg, records, stop0, events)
    requires n <= |events| && !NeverStopped(stop0, events[..n])
    ensures After(cfg, records, stop0, events).log == After(cfg, records, stop0, events[..n]).log
    decreases |events|
  {
    if n == |events| {
      assert events[..n] == events;
    } else {
      var earlier, e := events[..|events| - 1], events[|events| - 1];
      PrefixOfPrefix(events, n);
      StopIsFinal(cfg, records, stop0, earlier, n);
      StoppedStays(stop0, earlier, n);
      RunKept(cfg, records, stop0, earlier);
      TurnKept(cfg, records, true, After(cfg, records, stop0, earlier), e);
    }
  }

  lemma PrefixOfPrefix<T>(s: seq<T>, n: nat)
    requires n < |s|
    ensures s[..|s| - 1][..n] == s[..n]
  {
  }

  lemma StoppedStays(stop0: bool, events: seq<Event>, n: nat)
    requires n <= |events| && !NeverStopped(stop0, events[..n])
    ensures !NeverStopped(stop0, events)
  {
    if !stop0 {
      var i :| 0 <= i < n && events[..n][i].stop;
      assert events[i].stop;
    }
  }

  // ---- the window of a run that may have been stopped -------------------------------------

  function Incomplete(log: seq<Trial>, records: seq<Trial>, tasks: seq<TaskKey>): set<TaskKey> {
    set k | k in tasks && OfTask(log, k) != OfTask(records, k)
  }

  /** In what was submitted: only the first `n` tasks of the order have any trial, and at
      most `window` of these still lack one. */
  ghost predicate OneWindow(log: seq<Trial>, records: seq<Trial>, window: int, n: nat) {
    var order := TaskOrder(records);
    && n <= |order|
    && (forall k :: k !in order[..n] ==> OfTask(log, k) == [])
    && |Incomplete(log, records, order[..n])| <= window
  }

  lemma ElementsAtMost<T>(a: set<T>, s: seq<T>)
    requires forall x :: x in a ==> x in s
    ensures |a| <= |s|
  {
    if s == [] {
      assert a == {};
    } else {
      var last := s[|s| - 1];
      assert s == s[..|s| - 1] + [last];
      ElementsAtMost(a - {last}, s[..|s| - 1]);
      assert a <= (a - {last}) + {last};
      SubsetSize(a, (a - {last}) + {last});
    }
  }

  lemma OpenWindow(cfg: Config, records: seq<Trial>, stop0: bool, events: seq<Event>) returns (n: nat)
    requires cfg.Valid() && Possible(cfg, records, stop0, events) && NeverStopped(stop0, events)
    requires cfg.taskWindow > 0
    ensures OneWindow(After(cfg, records, stop0, events).log, records, cfg.taskWindow, n)
  {
    WindowIsDisciplined(cfg, records, stop0, events);
    TaskOrderIsTheTasks(records);
    var s, order := After(cfg, records, stop0, events), TaskOrder(records);
    var waiting := s.backlog.waiting;
    n := |order| - |waiting|;
    forall k | k !in order[..n] ensures OfTask(s.log, k) == [] {
      WindowKeepsPlanOrder(cfg, records, stop0, events, k);
      assert k in order ==> k in waiting;
    }
    ElementsAtMost(Incomplete(s.log, records, order[..n]), s.backlog.open);
  }

  lemma NothingIsOneWindow(records: seq<Trial>, window: int)
    requires window > 0
    ensures OneWindow([], records, window, 0)
  {
    assert TaskOrder(records)[..0] == [];
    assert Incomplete([], records, []) == {};
  }

  /** The window holds in what was submitted, stopped or not: the submitted trials belong
      to a prefix of the task order of which at most `taskWindow` tasks are incomplete. */
  lemma {:induction false} WindowInTheLog(cfg: Config, records: seq<Trial>, stop0: bool, events: seq<Event>)
      returns (n: nat)
    requires cfg.Valid() && Possible(cfg, records, stop0, events) && cfg.taskWindow > 0
    ensures OneWindow(After(cfg, records, stop0, events).log, records, cfg.taskWindow, n)
    decreases |events|
  {
    if NeverStopped(stop0, events) {
      n := OpenWindow(cfg, records, stop0, events);
    } else if events == [] {
      NothingIsOneWindow(records, cfg.taskWindow);
      n := 0;
    } else {
      var earlier, e := events[..|events| - 1], events[|events| - 1];
      n := WindowInTheLog(cfg, records, stop0, earlier);
      LastStop(stop0, events);
      RunKept(cfg, records, stop0, earlier);
      TurnKept(cfg, records, !NeverStopped(stop0, earlier), After(cfg, records, stop0, earlier), e);
    }
  }
}
