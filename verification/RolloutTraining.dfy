/** The one-ahead pipelined training loop of slime/train_async.py and the
    synchronous loop of slime/train.py, over a rollout manager whose generations
    finish at arbitrary times. */
module RolloutTraining {
  import opened Arithmetic
  import opened Plans

  /** What the rollout engines serve: what they loaded themselves, or the actor's
      weights, identified by the rollouts it has been trained on. */
  datatype Weights = OwnLoad | Trained(rollouts: seq<nat>)

  /** A rollout's data, with the weights in the engines when its generation was
      launched and when it finished. */
  datatype Data = Data(rollout: nat, began: Weights, ended: Weights)

  datatype Args = Args(start: nat, numRollout: nat, updateInterval: nat, useCritic: bool,
                       criticOnlySteps: int, criticTrainOnly: bool, offloadRollout: bool) {
    predicate Valid() { updateInterval >= 1 }
  }

  /** One iteration: the data it trained on and which models trained. */
  datatype Step = Step(data: Data, actor: bool, critic: bool)

  predicate ActorTrains(args: Args, rollout: nat) {
    args.useCritic ==> rollout >= args.criticOnlySteps && !args.criticTrainOnly
  }

  /** The rollouts the actor has trained on once the iterations before `n` are done. */
  function History(args: Args, n: nat): seq<nat> {
    if n <= args.start then []
    else History(args, n - 1) + if ActorTrains(args, n - 1) then [n - 1] else []
  }

  /** The boundary after the last iteration. */
  function End(args: Args): nat {
    if args.numRollout > args.start then args.numRollout else args.start
  }

  /** The weights pushed to the engines at the boundary before iteration `n`. */
  function Pushed(args: Args, n: nat): Weights {
    if args.criticTrainOnly then OwnLoad else Trained(History(args, n))
  }

  // ---- the rollout manager ----------------------------------------------------------------

  class RolloutManager {
    var weights: Weights
    var weightsLoaded: bool
    var cacheLoaded: bool
    var launched: seq<nat>
    var running: set<nat>
    var began: map<nat, Weights>
    var finished: map<nat, Data>

    /** A running generation has seen no other weights than the current ones; a
        finished one saw a single version. */
    ghost predicate Valid()
      reads this
    {
      && running !! finished.Keys
      && (forall id :: id in running ==> id in began && began[id] == weights)
      && (forall id :: id in finished ==> id in began && finished[id] == Data(id, began[id], began[id]))
      && (forall id :: id in launched <==> id in running || id in finished)
    }

    constructor (offloaded: bool)
      ensures Valid() && weights == OwnLoad && launched == [] && running == {} && finished == map[]
      ensures weightsLoaded == cacheLoaded == !offloaded
    {
      weights, launched, running, began, finished := OwnLoad, [], {}, map[], map[];
      weightsLoaded, cacheLoaded := !offloaded, !offloaded;
    }

    /** `generate.remote(id)`: returns at once. */
    method Generate(id: nat)
      requires Valid() && weightsLoaded && cacheLoaded && id !in launched
      modifies `launched, `running, `began
      ensures Valid() && launched == old(launched) + [id] && running == old(running) + {id}
      ensures began == old(began)[id := weights]
    {
      launched := launched + [id];
      running := running + {id};
      began := began[id := weights];
    }

    method Finish(id: nat)
      requires Valid() && id in running
      modifies `running, `finished
      ensures Valid() && running == old(running) - {id}
      ensures finished == old(finished)[id := Data(id, began[id], began[id])]
    {
      finished := finished[id := Data(id, began[id], weights)];
      running := running - {id};
    }

    /** Time passes: any running generation may finish. */
    method Progress()
      requires Valid()
      modifies `running, `finished
      ensures Valid() && running <= old(running)
      ensures forall id :: id in old(finished) ==> id in finished && finished[id] == old(finished)[id]
    {
      var left := running;
      while left != {}
        invariant Valid() && left <= running <= old(running)
        invariant forall id :: id in old(finished) ==> id in finished && finished[id] == old(finished)[id]
      {
        var id :| id in left;
        left := left - {id};
        var done: bool := *;
        if done {
          Finish(id);
        }
      }
    }

    /** `ray.get(future)`: waits until the generation has finished. */
    method Get(id: nat) returns (data: Data)
      requires Valid() && id in launched
      modifies `running, `finished
      ensures Valid() && running == old(running) - {id}
      ensures id in began && data == Data(id, began[id], began[id])
    {
      if id in running {
        Finish(id);
      }
      data := finished[id];
    }

    /** `update_weights`, never in the middle of a generation. */
    method UpdateWeights(w: Weights)
      requires Valid() && weightsLoaded && running == {}
      modifies `weights
      ensures Valid() && weights == w
    {
      weights := w;
    }

    method Offload()
      requires running == {}
      modifies `weightsLoaded, `cacheLoaded
      ensures !weightsLoaded && !cacheLoaded
    {
      weightsLoaded, cacheLoaded := false, false;
    }

    method OnloadWeights()
      modifies `weightsLoaded
      ensures weightsLoaded
    {
      weightsLoaded := true;
    }

    method OnloadCache()
      requires weightsLoaded
      modifies `cacheLoaded
      ensures cacheLoaded
    {
      cacheLoaded := true;
    }
  }

  predicate GeneratedBy(data: Data, rollout: nat, w: Weights) {
    data == Data(rollout, w, w)
  }

  // ---- which weights a rollout is generated with ------------------------------------------

  /** The last iteration boundary, up to `n`, at which the async loop pushed weights. */
  function LastPush(args: Args, n: nat): nat
    requires args.Valid()
  {
    if n <= args.start then args.start
    else if n % args.updateInterval == 0 && !args.criticTrainOnly then n
    else LastPush(args, n - 1)
  }

  /** The boundary whose weights generate rollout `k`: it is launched one iteration
      early, before that iteration trains. */
  function GeneratedAt(args: Args, k: nat): nat
    requires args.Valid()
  {
    LastPush(args, if k > args.start then k - 1 else args.start)
  }

  /** What the async loop must train on at each iteration. */
  function AsyncStep(args: Args, k: nat): Step
    requires args.Valid()
  {
    var w := Pushed(args, GeneratedAt(args, k));
    Step(Data(k, w, w), ActorTrains(args, k), args.useCritic)
  }

  /** What the synchronous loop must train on: weights of the iteration itself. */
  function SyncStep(args: Args, k: nat): Step {
    var w := Pushed(args, k);
    Step(Data(k, w, w), ActorTrains(args, k), args.useCritic)
  }

  function Range(lo: nat, hi: nat): seq<nat> {
    if hi <= lo then [] else seq(hi - lo, i requires 0 <= i < hi - lo => lo + i)
  }

  /** The training part of one iteration: the critic is started first, the actor
      trains beside it, then the critic is awaited. */
  method TrainModels(args: Args, rollout: nat, data: Data, actor: seq<nat>)
    returns (step: Step, actor': seq<nat>)
    ensures step == Step(data, ActorTrains(args, rollout), args.useCritic)
    ensures step.actor <==> !args.useCritic || (rollout >= args.criticOnlySteps && !args.criticTrainOnly)
    ensures actor' == actor + if ActorTrains(args, rollout) then [rollout] else []
  {
    actor' := actor;
    var actorTrained, criticTrained := false, false;
    if args.useCritic {
      criticTrained := true;
      if rollout >= args.criticOnlySteps && !args.criticTrainOnly {
        actor', actorTrained := actor + [rollout], true;
      }
    } else {
      actor', actorTrained := actor + [rollout], true;
    }
    step := Step(data, actorTrained, criticTrained);
  }

  // ---- the async loop ---------------------------------------------------------------------

  /** What has been launched when iteration `k` begins: its own rollout at least. */
  function Launched(args: Args, k: nat): seq<nat> {
    Range(args.start, if k < args.numRollout || k == args.start then k + 1 else k)
  }

  lemma LaunchNext(args: Args, k: nat)
    requires args.start <= k
    ensures k + 1 < args.numRollout ==>
      Launched(args, k + 1) == Launched(args, k) + [k + 1] && k + 1 !in Launched(args, k)
    ensures k + 1 == args.numRollout ==> Launched(args, k + 1) == Launched(args, k)
    ensures k < args.numRollout ==> k in Launched(args, k)
  {
    if k < args.numRollout {
      assert Launched(args, k)[k - args.start] == k;
    }
  }

  lemma NextIteration(args: Args, k: nat)
    requires args.Valid() && args.start <= k
    ensures History(args, k + 1) == History(args, k) + if ActorTrains(args, k) then [k] else []
    ensures GeneratedAt(args, k + 1) == LastPush(args, k)
    ensures Pushed(args, LastPush(args, k + 1)) ==
      if (k + 1) % args.updateInterval == 0 then Pushed(args, k + 1) else Pushed(args, LastPush(args, k))
  {
  }

  /** The pending generation, or the data already fetched, is rollout `k`'s. */
  ghost predicate ReadyFor(args: Args, k: nat, mgr: RolloutManager, next: Option<nat>, curr: Option<Data>)
    requires args.Valid()
    reads mgr
  {
    var w := Pushed(args, GeneratedAt(args, k));
    match next
    case Some(id) => id == k && id in mgr.launched && id in mgr.began && mgr.began[id] == w && mgr.running <= {id}
    case None => curr.Some? && GeneratedBy(curr.value, k, w) && mgr.running == {}
  }

  /** What holds whenever the async loop is about to start iteration `k`. */
  ghost predicate AtIteration(args: Args, k: nat, mgr: RolloutManager, actor: seq<nat>)
    requires args.Valid()
    reads mgr
  {
    && mgr.Valid() && mgr.weightsLoaded && mgr.cacheLoaded
    && actor == History(args, k)
    && mgr.weights == Pushed(args, LastPush(args, k))
    && mgr.launched == Launched(args, k)
  }

  /** No generation but the one kept in `next` can be running. */
  ghost predicate Underway(mgr: RolloutManager, next: Option<nat>)
    reads mgr
  {
    if next.Some? then next.value in mgr.launched && mgr.running <= {next.value} else mgr.running == {}
  }

  /** `next` is the generation of rollout `id`, begun with the weights now served. */
  ghost predicate IsLaunched(mgr: RolloutManager, next: Option<nat>, id: nat)
    reads mgr
  {
    next.Some? && next.value == id && id in mgr.began && mgr.began[id] == mgr.weights
  }

  /** Waits for rollout `k` and starts rollout `k + 1`, if there is one. */
  method FetchAndLaunch(args: Args, k: nat, mgr: RolloutManager, next: Option<nat>, curr: Option<Data>)
    returns (next': Option<nat>, data: Data)
    requires args.Valid() && args.start <= k < args.numRollout
    requires mgr.Valid() && mgr.weightsLoaded && mgr.cacheLoaded && mgr.launched == Launched(args, k)
    requires ReadyFor(args, k, mgr, next, curr)
    modifies mgr`launched, mgr`running, mgr`began, mgr`finished
    ensures mgr.Valid() && mgr.launched == Launched(args, k + 1)
    ensures data == AsyncStep(args, k).data
    ensures Underway(mgr, next')
    ensures k + 1 < args.numRollout ==> IsLaunched(mgr, next', k + 1)
  {
    LaunchNext(args, k);
    mgr.Progress();
    if next.Some? {
      data := mgr.Get(next.value);
    } else {
      data := curr.value;
    }
    next' := next;
    if k + 1 < args.numRollout {
      mgr.Generate(k + 1);
      next' := Some(k + 1);
    }
  }

  /** Waits for the generation under way, if any, and only then pushes the weights. */
  method SyncAndPush(args: Args, mgr: RolloutManager, next: Option<nat>, actor: seq<nat>)
    returns (curr: Option<Data>)
    requires mgr.Valid() && mgr.weightsLoaded && Underway(mgr, next)
    modifies mgr`weights, mgr`running, mgr`finished
    ensures mgr.Valid() && mgr.running == {}
    ensures mgr.weights == if args.criticTrainOnly then old(mgr.weights) else Trained(actor)
    ensures next.Some? ==> next.value in mgr.began && curr.Some? && GeneratedBy(curr.value, next.value, mgr.began[next.value])
  {
    curr := None;
    if next.Some? {
      var data := mgr.Get(next.value);
      curr := Some(data);
    }
    if !args.criticTrainOnly {
      mgr.UpdateWeights(Trained(actor));
    }
  }

  /** The end of an iteration: a push every `updateInterval` rollouts. */
  method PushWhenDue(args: Args, k: nat, mgr: RolloutManager, actor: seq<nat>, next: Option<nat>, curr: Option<Data>)
    returns (next': Option<nat>, curr': Option<Data>)
    requires args.Valid() && args.start <= k < args.numRollout
    requires mgr.Valid() && mgr.weightsLoaded && mgr.cacheLoaded && mgr.launched == Launched(args, k + 1)
    requires actor == History(args, k + 1) && mgr.weights == Pushed(args, LastPush(args, k))
    requires Underway(mgr, next) && (k + 1 < args.numRollout ==> IsLaunched(mgr, next, k + 1))
    modifies mgr`weights, mgr`running, mgr`finished
    ensures AtIteration(args, k + 1, mgr, actor)
    ensures k + 1 < args.numRollout ==> ReadyFor(args, k + 1, mgr, next', curr')
  {
    NextIteration(args, k);
    next', curr' := next, curr;
    if (k + 1) % args.updateInterval == 0 {
      curr' := SyncAndPush(args, mgr, next, actor);
      next' := None;
    }
  }

  /** One pass through the loop body. */
  method AsyncIteration(args: Args, k: nat, mgr: RolloutManager, actor: seq<nat>, next: Option<nat>,
                        curr: Option<Data>)
    returns (step: Step, actor': seq<nat>, next': Option<nat>, curr': Option<Data>)
    requires args.Valid() && args.start <= k < args.numRollout
    requires AtIteration(args, k, mgr, actor) && ReadyFor(args, k, mgr, next, curr)
    modifies mgr
    ensures AtIteration(args, k + 1, mgr, actor')
    ensures k + 1 < args.numRollout ==> ReadyFor(args, k + 1, mgr, next', curr')
    ensures step == AsyncStep(args, k)
  {
    NextIteration(args, k);
    var data;
    next', data := FetchAndLaunch(args, k, mgr, next, curr);
    curr' := Some(data);
    step, actor' := TrainModels(args, k, data, actor);
    mgr.Progress();
    next', curr' := PushWhenDue(args, k, mgr, actor', next', curr');
  }

  /** Before the loop: the first push, unless only the critic trains, and the first launch. */
  method StartAsync(args: Args) returns (mgr: RolloutManager)
    requires args.Valid()
    ensures fresh(mgr) && AtIteration(args, args.start, mgr, [])
    ensures ReadyFor(args, args.start, mgr, Some(args.start), None)
  {
    mgr := new RolloutManager(false);
    if !args.criticTrainOnly {
      mgr.UpdateWeights(Trained([]));
    }
    mgr.Generate(args.start);
  }

  // ---- what the log of a run says ---------------------------------------------------------

  /** The rollouts the actor was trained on, read off a log. */
  function TrainedIn(log: seq<Step>): seq<nat> {
    if log == [] then []
    else
      var last := log[|log| - 1];
      TrainedIn(log[..|log| - 1]) + if last.actor then [last.data.rollout] else []
  }

  /** Every iteration trains on its own rollout; the critic trains if there is one; the
      actor trains unless a critic warms up or trains alone. */
  predicate LogTrains(args: Args, log: seq<Step>) {
    forall i :: 0 <= i < |log| ==>
      && log[i].data.rollout == args.start + i
      && (log[i].critic <==> args.useCritic)
      && (log[i].actor <==> !args.useCritic || (args.start + i >= args.criticOnlySteps && !args.criticTrainOnly))
  }

  /** The weights after the first `n` iterations have been pushed. */
  function WeightsAfter(args: Args, log: seq<Step>, n: nat): Weights
    requires n <= |log|
  {
    if args.criticTrainOnly then OwnLoad else Trained(TrainedIn(log[..n]))
  }

  predicate MadeBy(data: Data, w: Weights) {
    data.began == w && data.ended == w
  }

  /** Iterations whose training had been pushed at the last multiple of the update interval
      up to iteration `k`. */
  function PushedBy(args: Args, k: int): int
    requires args.Valid()
  {
    var at := args.updateInterval * (k / args.updateInterval);
    if at > args.start then at - args.start else 0
  }

  /** The synchronous loop's data are made by the weights of all iterations before. */
  ghost predicate SyncLog(args: Args, log: seq<Step>) {
    && |log| == (if args.numRollout > args.start then args.numRollout - args.start else 0)
    && LogTrains(args, log)
    && (forall i :: 0 <= i < |log| ==> MadeBy(log[i].data, WeightsAfter(args, log, i)))
  }

  /** The asynchronous loop's data are made by the weights that were pushed last when the
      iteration before began. */
  ghost predicate AsyncLog(args: Args, log: seq<Step>)
    requires args.Valid()
  {
    && |log| == (if args.numRollout > args.start then args.numRollout - args.start else 0)
    && LogTrains(args, log)
    && (forall i: nat :: i < |log| ==> AsyncMade(args, log, i))
  }

  ghost predicate AsyncMade(args: Args, log: seq<Step>, i: nat)
    requires args.Valid() && i < |log|
  {
    var n := if i == 0 then 0 else PushedBy(args, args.start + i - 1);
    0 <= n <= i && MadeBy(log[i].data, WeightsAfter(args, log, n))
  }

  lemma {:induction false} LogIsHistory(args: Args, log: seq<Step>, n: nat)
    requires LogTrains(args, log) && n <= |log|
    ensures TrainedIn(log[..n]) == History(args, args.start + n)
  {
    if n > 0 {
      LogIsHistory(args, log, n - 1);
      assert log[..n][..n - 1] == log[..n - 1];
    }
  }

  lemma SyncLogHolds(args: Args, log: seq<Step>)
    requires |log| == End(args) - args.start && forall i :: 0 <= i < |log| ==> log[i] == SyncStep(args, args.start + i)
    ensures SyncLog(args, log)
  {
    forall i | 0 <= i < |log| ensures MadeBy(log[i].data, WeightsAfter(args, log, i)) {
      LogIsHistory(args, log, i);
    }
  }

  lemma AsyncLogHolds(args: Args, log: seq<Step>)
    requires args.Valid()
    requires |log| == End(args) - args.start && forall i :: 0 <= i < |log| ==> log[i] == AsyncStep(args, args.start + i)
    ensures AsyncLog(args, log)
  {
    forall i: nat | i < |log| ensures AsyncMade(args, log, i) {
      AsyncDataMade(args, log, i);
    }
  }

  lemma AsyncDataMade(args: Args, log: seq<Step>, i: nat)
    requires args.Valid() && i < |log| && LogTrains(args, log) && log[i] == AsyncStep(args, args.start + i)
    ensures AsyncMade(args, log, i)
  {
    var n := if i == 0 then 0 else PushedBy(args, args.start + i - 1);
    if i > 0 {
      PushedByIs(args, args.start + i - 1);
    }
    LogIsHistory(args, log, n);
  }

  lemma PushedByIs(args: Args, k: nat)
    requires args.Valid() && k >= args.start
    ensures 0 <= PushedBy(args, k) <= k - args.start
    ensures !args.criticTrainOnly ==> LastPush(args, k) == args.start + PushedBy(args, k)
  {
    var d := args.updateInterval;
    assert d * (k / d) <= k;
    if !args.criticTrainOnly {
      PushSchedule(args, k);
    }
  }

  /** slime/train_async.py: iteration `k` trains on rollout `k`, every rollout is
      launched once and in order, and weights are pushed only when no generation runs. */
  method TrainAsync(args: Args) returns (log: seq<Step>, launched: seq<nat>, served: Weights)
    requires args.Valid()
    ensures served == Pushed(args, LastPush(args, End(args)))
    ensures |log| == End(args) - args.start
    ensures forall i :: 0 <= i < |log| ==> log[i] == AsyncStep(args, args.start + i)
    ensures AsyncLog(args, log) && PushedBy(args, End(args)) <= |log|
    ensures served == WeightsAfter(args, log, PushedBy(args, End(args)))
    ensures launched == Range(args.start, if args.numRollout > args.start then args.numRollout else args.start + 1)
    ensures forall i :: 0 <= i < |launched| ==> launched[i] == args.start + i
  {
    var mgr := StartAsync(args);
    var actor: seq<nat> := [];
    var next: Option<nat> := Some(args.start);
    var curr: Option<Data> := None;
    log := [];
    var rollout := args.start;
    while rollout < args.numRollout
      invariant fresh(mgr) && AtIteration(args, rollout, mgr, actor)
      invariant args.start <= rollout && (rollout <= args.numRollout || rollout == args.start)
      invariant |log| == rollout - args.start
      invariant forall i :: 0 <= i < |log| ==> log[i] == AsyncStep(args, args.start + i)
      invariant rollout < args.numRollout ==> ReadyFor(args, rollout, mgr, next, curr)
    {
      var step;
      step, actor, next, curr := AsyncIteration(args, rollout, mgr, actor, next, curr);
      log := log + [step];
      rollout := rollout + 1;
    }
    launched, served := mgr.launched, mgr.weights;
    AsyncRunEnds(args, log, served);
  }

  lemma AsyncRunEnds(args: Args, log: seq<Step>, served: Weights)
    requires args.Valid() && served == Pushed(args, LastPush(args, End(args)))
    requires |log| == End(args) - args.start && forall i :: 0 <= i < |log| ==> log[i] == AsyncStep(args, args.start + i)
    ensures AsyncLog(args, log) && PushedBy(args, End(args)) <= |log|
    ensures served == WeightsAfter(args, log, PushedBy(args, End(args)))
  {
    AsyncLogHolds(args, log);
    PushedByIs(args, End(args));
    LogIsHistory(args, log, PushedBy(args, End(args)));
  }

  // ---- the synchronous loop ---------------------------------------------------------------

  /** Brings the engines back for the next rollout: weights, push, then the cache. */
  method ReloadAndPush(args: Args, mgr: RolloutManager, actor: seq<nat>)
    requires mgr.Valid() && mgr.running == {}
    requires !args.offloadRollout ==> mgr.weightsLoaded && mgr.cacheLoaded
    modifies mgr`weights, mgr`weightsLoaded, mgr`cacheLoaded
    ensures mgr.Valid() && mgr.weightsLoaded && mgr.cacheLoaded
    ensures mgr.weights == if args.criticTrainOnly then old(mgr.weights) else Trained(actor)
  {
    if args.offloadRollout {
      mgr.OnloadWeights();
    }
    if !args.criticTrainOnly {
      mgr.UpdateWeights(Trained(actor));
    }
    if args.offloadRollout {
      mgr.OnloadCache();
    }
  }

  ghost predicate AtSyncIteration(args: Args, k: nat, mgr: RolloutManager, actor: seq<nat>)
    reads mgr
  {
    && mgr.Valid() && mgr.running == {} && mgr.weightsLoaded && mgr.cacheLoaded
    && actor == History(args, k) && mgr.weights == Pushed(args, k)
    && mgr.launched == Range(args.start, k)
  }

  lemma RangeSnoc(lo: nat, k: nat)
    requires lo <= k
    ensures Range(lo, k + 1) == Range(lo, k) + [k] && k !in Range(lo, k)
  {
  }

  /** One pass through the synchronous loop body. */
  method SyncIteration(args: Args, k: nat, mgr: RolloutManager, actor: seq<nat>)
    returns (step: Step, actor': seq<nat>)
    requires args.start <= k && AtSyncIteration(args, k, mgr, actor)
    modifies mgr
    ensures AtSyncIteration(args, k + 1, mgr, actor')
    ensures step == SyncStep(args, k)
  {
    RangeSnoc(args.start, k);
    mgr.Generate(k);
    var data := mgr.Get(k);
    if args.offloadRollout {
      mgr.Offload();
    }
    step, actor' := TrainModels(args, k, data, actor);
    ReloadAndPush(args, mgr, actor');
  }

  /** slime/train.py: generation never overlaps training, nor runs on engines whose
      weights or cache are offloaded. */
  method TrainSync(args: Args) returns (log: seq<Step>, launched: seq<nat>, served: Weights)
    ensures served == Pushed(args, End(args))
    ensures |log| == End(args) - args.start
    ensures forall i :: 0 <= i < |log| ==> log[i] == SyncStep(args, args.start + i)
    ensures SyncLog(args, log) && served == WeightsAfter(args, log, |log|)
    ensures launched == Range(args.start, args.numRollout)
    ensures forall i :: 0 <= i < |launched| ==> launched[i] == args.start + i
  {
    var mgr := new RolloutManager(args.offloadRollout);
    var actor: seq<nat> := [];
    ReloadAndPush(args, mgr, actor);
    log := [];
    var rollout := args.start;
    while rollout < args.numRollout
      invariant fresh(mgr) && AtSyncIteration(args, rollout, mgr, actor)
      invariant args.start <= rollout && (rollout <= args.numRollout || rollout == args.start)
      invariant |log| == rollout - args.start
      invariant forall i :: 0 <= i < |log| ==> log[i] == SyncStep(args, args.start + i)
    {
      var step;
      step, actor := SyncIteration(args, rollout, mgr, actor);
      log := log + [step];
      rollout := rollout + 1;
    }
    SyncLogHolds(args, log);
    LogIsHistory(args, log, |log|);
    launched, served := mgr.launched, mgr.weights;
  }

  // ---- staleness --------------------------------------------------------------------------

  function Max(a: nat, b: nat): nat {
    if a < b then b else a
  }

  /** How many actor updates the weights behind a step's data lack when it is trained on. */
  function Staleness(args: Args, k: nat, step: Step): int
    requires step.data.began.Trained?
  {
    |History(args, k)| - |step.data.began.rollouts|
  }

  /** The first iteration the actor takes part in. */
  function FirstActorStep(args: Args): nat {
    if args.useCritic && args.criticOnlySteps > args.start then args.criticOnlySteps else args.start
  }

  lemma {:induction false} HistoryLength(args: Args, n: nat)
    requires !args.criticTrainOnly
    ensures |History(args, n)| == if n > FirstActorStep(args) then n - FirstActorStep(args) else 0
    decreases n
  {
    if n > args.start {
      HistoryLength(args, n - 1);
    }
  }

  lemma DivStep(n: nat, d: nat)
    requires n > 0 && d > 0
    ensures n % d == 0 ==> d * (n / d) == n
    ensures n % d != 0 ==> n / d == (n - 1) / d
  {
    if n % d != 0 {
      assert n - 1 == d * (n / d) + (n % d - 1);
      QuotientIs(n - 1, d, n / d);
    }
  }

  /** The closed form of the push schedule. */
  lemma {:induction false} PushSchedule(args: Args, n: nat)
    requires args.Valid() && n >= args.start && !args.criticTrainOnly
    ensures LastPush(args, n) == Max(args.start, args.updateInterval * (n / args.updateInterval))
    ensures args.start <= LastPush(args, n) <= n < LastPush(args, n) + args.updateInterval
    decreases n
  {
    var d := args.updateInterval;
    assert d * (n / d) <= n < d * (n / d) + d;
    if n > args.start {
      PushSchedule(args, n - 1);
      DivStep(n, d);
    }
  }

  /** Exact staleness when the actor trains from the first iteration on: none for the
      first rollout, then between one update and the update interval. */
  lemma AsyncStaleness(args: Args, k: nat)
    requires args.Valid() && k >= args.start
    requires !args.criticTrainOnly && FirstActorStep(args) == args.start
    ensures var lag := Staleness(args, k, AsyncStep(args, k));
      if k == args.start then lag == 0
      else
        && lag == k - Max(args.start, args.updateInterval * ((k - 1) / args.updateInterval))
        && 1 <= lag <= args.updateInterval
  {
    HistoryLength(args, k);
    HistoryLength(args, GeneratedAt(args, k));
    if k > args.start {
      PushSchedule(args, k - 1);
    }
  }

  /** The iterations before `n` in which the actor trains. */
  function TrainedBefore(args: Args, n: int): int {
    if n > FirstActorStep(args) then n - FirstActorStep(args) else 0
  }

  /** The last push before rollout `k` was launched: the start, or the last multiple of
      the update interval that lies before `k`. */
  function PushBoundary(args: Args, k: nat): int
    requires args.Valid() && k >= args.start
  {
    if k == args.start then k else Max(args.start, args.updateInterval * ((k - 1) / args.updateInterval))
  }

  /** Exact staleness, also with a critic warm-up: the actor's updates between the last
      push before the launch and the iteration, which the update interval bounds. */
  lemma AsyncStalenessBounded(args: Args, k: nat)
    requires args.Valid() && k >= args.start && !args.criticTrainOnly
    ensures Staleness(args, k, AsyncStep(args, k)) == TrainedBefore(args, k) - TrainedBefore(args, PushBoundary(args, k))
    ensures 0 <= Staleness(args, k, AsyncStep(args, k)) <= args.updateInterval
  {
    HistoryLength(args, k);
    HistoryLength(args, GeneratedAt(args, k));
    PushSchedule(args, if k > args.start then k - 1 else k);
  }

  /** The synchronous loop always trains on data of the current weights. */
  lemma SyncIsFresh(args: Args, k: nat)
    requires !args.criticTrainOnly
    ensures SyncStep(args, k).data.began.Trained? && Staleness(args, k, SyncStep(args, k)) == 0
  {
  }

  /** Pipelining changes an iteration exactly when the actor trained in the one before. */
  lemma AsyncMatchesSync(args: Args, k: nat)
    requires args.Valid() && k >= args.start
    ensures AsyncStep(args, k) == SyncStep(args, k) <==>
      (args.criticTrainOnly || k == args.start || !ActorTrains(args, k - 1))
  {
    if !args.criticTrainOnly && k > args.start {
      HistoryLength(args, k);
      HistoryLength(args, GeneratedAt(args, k));
      PushSchedule(args, k - 1);
      if !ActorTrains(args, k - 1) {
        NothingTrained(args, k);
        NothingTrained(args, GeneratedAt(args, k));
      }
    }
  }

  lemma NothingTrained(args: Args, n: nat)
    requires !args.criticTrainOnly && n <= FirstActorStep(args)
    ensures History(args, n) == []
  {
    HistoryLength(args, n);
  }
}
