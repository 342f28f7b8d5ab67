/**
 One phase of `schedule`: the main goroutine starts a goroutine per task and waits for a wait group; each goroutine
 takes a worker from the channel, calls it, and either offers the worker again and leaves, or drops it and takes
 another. Workers register at any time, each once.
 */
module Scheduler {
  import opened Common

  datatype Phase = MapPhase | ReducePhase

  /** A goroutine: waiting for a worker, in a call, past a successful call, or gone. */
  datatype Task = Waiting | Calling(worker: string) | Leaving | Finished

  /**
   `tasks` are the goroutines started so far out of `total`, `counter` is the wait group, `returned` says that
   `schedule` has returned. `queued` are the workers offered on the channel, `dropped` those a call has failed on;
   `calls` counts `DoTask` calls.
   */
  datatype State = State(total: nat, tasks: seq<Task>, counter: int, returned: bool,
                         queued: set<string>, dropped: set<string>, registered: set<string>, calls: nat)

  // ----- the file names -----

  function TaskCount(phase: Phase, files: nat, nReduce: nat): nat {
    match phase case MapPhase => files case ReducePhase => nReduce
  }

  predicate InRange(task: nat, files: nat) {
    task < files
  }

  /** Every goroutine reads the name of the file with its task number, in both phases. */
  ghost predicate FilesInRange(phase: Phase, files: nat, nReduce: nat) {
    forall task: nat :: task < TaskCount(phase, files, nReduce) ==> InRange(task, files)
  }

  /** No goroutine reads beyond the files exactly when a reduce phase has no more reducers than there are files. */
  lemma FilesInRangeIff(phase: Phase, files: nat, nReduce: nat)
    ensures FilesInRange(phase, files, nReduce) <==> (phase.ReducePhase? ==> nReduce <= files)
  {
    if phase.ReducePhase? && nReduce > files {
      assert !InRange(files, files);
    }
  }

  /** One input file and two reducers: the second reduce task reads beyond the files. */
  lemma TwoReducersOneFile()
    ensures !FilesInRange(ReducePhase, 1, 2) && FilesInRange(MapPhase, 1, 2)
  {
    assert 1 < TaskCount(ReducePhase, 1, 2) && !InRange(1, 1);
  }

  // ----- steps -----

  datatype Step = Spawn | Register(worker: string) | Take(task: nat, worker: string) | Succeed(task: nat)
                | Fail(task: nat) | Done(task: nat) | Return

  ghost predicate Allowed(s: State, step: Step) {
    match step
    case Spawn => |s.tasks| < s.total
    case Register(w) => w !in s.registered
    case Take(i, w) => i < |s.tasks| && s.tasks[i].Waiting? && w in s.queued
    case Succeed(i) => i < |s.tasks| && s.tasks[i].Calling?
    case Fail(i) => i < |s.tasks| && s.tasks[i].Calling?
    case Done(i) => i < |s.tasks| && s.tasks[i].Leaving?
    case Return => |s.tasks| == s.total && s.counter == 0 && !s.returned
  }

  function After(s: State, step: Step): State
    requires Allowed(s, step)
  {
    match step
    case Spawn => s.(tasks := s.tasks + [Waiting], counter := s.counter + 1)
    case Register(w) => s.(queued := s.queued + {w}, registered := s.registered + {w})
    case Take(i, w) => s.(tasks := s.tasks[i := Calling(w)], queued := s.queued - {w}, calls := s.calls + 1)
    case Succeed(i) => s.(tasks := s.tasks[i := Leaving], queued := s.queued + {s.tasks[i].worker})
    case Fail(i) => s.(tasks := s.tasks[i := Waiting], dropped := s.dropped + {s.tasks[i].worker})
    case Done(i) => s.(tasks := s.tasks[i := Finished], counter := s.counter - 1)
    case Return => s.(returned := true)
  }

  ghost predicate Starts(s: State) {
    && s.tasks == [] && s.counter == 0 && !s.returned
    && s.queued == {} && s.dropped == {} && s.registered == {} && s.calls == 0
  }

  ghost predicate IsRun(states: seq<State>, steps: seq<Step>) {
    && |states| == |steps| + 1 && Starts(states[0])
    && forall i :: 0 <= i < |steps| ==> Allowed(states[i], steps[i]) && states[i + 1] == After(states[i], steps[i])
  }

  // ----- counting tasks -----

  function Count(tasks: seq<Task>, p: Task -> bool): (n: nat)
    ensures n <= |tasks|
  {
    if tasks == [] then 0
    else Count(tasks[..|tasks| - 1], p) + if p(tasks[|tasks| - 1]) then 1 else 0
  }

  lemma {:induction false} CountAfter(tasks: seq<Task>, i: nat, t: Task, p: Task -> bool)
    requires i < |tasks|
    ensures Count(tasks[i := t], p) == Count(tasks, p) + (if p(t) then 1 else 0) - (if p(tasks[i]) then 1 else 0)
  {
    var n := |tasks| - 1;
    if i < n {
      assert tasks[i := t][..n] == tasks[..n][i := t];
      CountAfter(tasks[..n], i, t, p);
    } else {
      assert tasks[i := t][..n] == tasks[..n];
    }
  }

  lemma CountOneMore(tasks: seq<Task>, t: Task, p: Task -> bool)
    ensures Count(tasks + [t], p) == Count(tasks, p) + if p(t) then 1 else 0
  {
    assert (tasks + [t])[..|tasks|] == tasks;
  }

  lemma {:induction false} CountZero(tasks: seq<Task>, p: Task -> bool, i: nat)
    requires Count(tasks, p) == 0 && i < |tasks|
    ensures !p(tasks[i])
  {
    if i < |tasks| - 1 {
      CountZero(tasks[..|tasks| - 1], p, i);
    }
  }

  predicate Working(t: Task) {
    !t.Finished?
  }

  predicate Called(t: Task) {
    !t.Waiting?
  }

  predicate InCall(t: Task) {
    t.Calling?
  }

  predicate Gone(t: Task) {
    t.Finished?
  }

  // ----- where the workers are -----

  /** The workers being called. */
  function Held(tasks: seq<Task>): set<string> {
    set i | 0 <= i < |tasks| && tasks[i].Calling? :: tasks[i].worker
  }

  ghost predicate OneTaskEach(tasks: seq<Task>) {
    forall i, j :: 0 <= i < j < |tasks| && tasks[i].Calling? && tasks[j].Calling? ==> tasks[i].worker != tasks[j].worker
  }

  /** Every registered worker is in exactly one of three places. */
  ghost predicate Tokens(queued: set<string>, held: set<string>, dropped: set<string>, registered: set<string>) {
    registered == queued + held + dropped && queued !! held && queued !! dropped && held !! dropped
  }

  lemma MoveToken(a: set<string>, b: set<string>, c: set<string>, registered: set<string>, w: string)
    requires Tokens(a, b, c, registered) && w in a
    ensures Tokens(a - {w}, b + {w}, c, registered) && Tokens(a - {w}, b, c + {w}, registered)
  {
  }

  lemma AddToken(a: set<string>, b: set<string>, c: set<string>, registered: set<string>, w: string)
    requires Tokens(a, b, c, registered) && w !in registered
    ensures Tokens(a + {w}, b, c, registered + {w})
  {
  }

  lemma TurnTokens(a: set<string>, b: set<string>, c: set<string>, registered: set<string>)
    ensures Tokens(a, b, c, registered) <==> Tokens(b, a, c, registered)
  {
  }

  lemma {:induction false} HeldWhenTaken(tasks: seq<Task>, i: nat, w: string)
    requires i < |tasks| && tasks[i].Waiting? && OneTaskEach(tasks) && w !in Held(tasks)
    ensures Held(tasks[i := Calling(w)]) == Held(tasks) + {w} && OneTaskEach(tasks[i := Calling(w)])
  {
    var next := tasks[i := Calling(w)];
    assert forall j :: 0 <= j < |tasks| && tasks[j].Calling? ==> tasks[j].worker in Held(tasks);
    assert next[i].worker in Held(next);
    forall v | v in Held(tasks)
      ensures v in Held(next)
    {
      var j :| 0 <= j < |tasks| && tasks[j].Calling? && tasks[j].worker == v;
      assert next[j].Calling? && next[j].worker == v;
    }
  }

  lemma {:induction false} HeldWhenReleased(tasks: seq<Task>, i: nat, t: Task)
    requires i < |tasks| && tasks[i].Calling? && OneTaskEach(tasks) && !t.Calling?
    ensures tasks[i].worker in Held(tasks)
    ensures Held(tasks[i := t]) == Held(tasks) - {tasks[i].worker} && OneTaskEach(tasks[i := t])
  {
    var next := tasks[i := t];
    forall v | v in Held(tasks) && v != tasks[i].worker
      ensures v in Held(next)
    {
      var j :| 0 <= j < |tasks| && tasks[j].Calling? && tasks[j].worker == v;
      assert next[j].Calling? && next[j].worker == v;
    }
  }

  lemma {:induction false} HeldStays(tasks: seq<Task>, next: seq<Task>)
    requires |tasks| <= |next|
    requires forall i :: 0 <= i < |tasks| ==> next[i] == tasks[i] || (!tasks[i].Calling? && !next[i].Calling?)
    requires forall i :: |tasks| <= i < |next| ==> !next[i].Calling?
    ensures Held(next) == Held(tasks) && (OneTaskEach(tasks) ==> OneTaskEach(next))
  {
    forall v | v in Held(tasks)
      ensures v in Held(next)
    {
      var j :| 0 <= j < |tasks| && tasks[j].Calling? && tasks[j].worker == v;
      assert next[j].Calling? && next[j].worker == v;
    }
  }

  // ----- the invariant -----

  /** Every registered worker is queued, held by exactly one task, or dropped. */
  ghost predicate WorkersOk(s: State) {
    Tokens(s.queued, Held(s.tasks), s.dropped, s.registered) && OneTaskEach(s.tasks)
  }

  /**
   The wait group counts the goroutines that are not gone, every call is under way, has failed or has done its task, and
   `schedule` returns only when all goroutines have been started and are gone.
   */
  ghost predicate CountsOk(s: State) {
    && |s.tasks| <= s.total
    && s.counter == Count(s.tasks, Working)
    && s.calls == Count(s.tasks, Called) + |s.dropped|
    && (s.returned ==> |s.tasks| == s.total && s.counter == 0)
  }

  ghost predicate Invariant(s: State) {
    WorkersOk(s) && CountsOk(s)
  }

  /** A released worker can go back to the queue or be dropped. */
  lemma {:induction false} ReleaseOk(s: State, i: nat, t: Task)
    requires WorkersOk(s) && i < |s.tasks| && s.tasks[i].Calling? && !t.Calling?
    ensures OneTaskEach(s.tasks[i := t])
    ensures Tokens(s.queued + {s.tasks[i].worker}, Held(s.tasks[i := t]), s.dropped, s.registered)
    ensures Tokens(s.queued, Held(s.tasks[i := t]), s.dropped + {s.tasks[i].worker}, s.registered)
  {
    HeldWhenReleased(s.tasks, i, t);
    var w := s.tasks[i].worker;
    TurnTokens(s.queued, Held(s.tasks), s.dropped, s.registered);
    MoveToken(Held(s.tasks), s.queued, s.dropped, s.registered, w);
    TurnTokens(s.queued + {w}, Held(s.tasks) - {w}, s.dropped, s.registered);
    TurnTokens(s.queued, Held(s.tasks) - {w}, s.dropped + {w}, s.registered);
  }

  lemma {:induction false} StepKeepsWorkers(s: State, step: Step)
    requires WorkersOk(s) && Allowed(s, step)
    ensures WorkersOk(After(s, step)) == true
  {
    match step {
      case Spawn =>
        HeldStays(s.tasks, s.tasks + [Waiting]);
      case Register(w) =>
        AddToken(s.queued, Held(s.tasks), s.dropped, s.registered, w);
      case Take(i, w) =>
        MoveToken(s.queued, Held(s.tasks), s.dropped, s.registered, w);
        HeldWhenTaken(s.tasks, i, w);
      case Succeed(i) =>
        ReleaseOk(s, i, Leaving);
      case Fail(i) =>
        ReleaseOk(s, i, Waiting);
      case Done(i) =>
        HeldStays(s.tasks, s.tasks[i := Finished]);
      case Return =>
    }
  }

  lemma {:induction false} TaskStep(s: State, i: nat, t: Task)
    requires i < |s.tasks|
    ensures Count(s.tasks[i := t], Working) ==
              Count(s.tasks, Working) + (if Working(t) then 1 else 0) - (if Working(s.tasks[i]) then 1 else 0)
    ensures Count(s.tasks[i := t], Called) ==
              Count(s.tasks, Called) + (if Called(t) then 1 else 0) - (if Called(s.tasks[i]) then 1 else 0)
    ensures Count(s.tasks[i := t], InCall) ==
              Count(s.tasks, InCall) + (if InCall(t) then 1 else 0) - (if InCall(s.tasks[i]) then 1 else 0)
    ensures Count(s.tasks[i := t], Gone) ==
              Count(s.tasks, Gone) + (if Gone(t) then 1 else 0) - (if Gone(s.tasks[i]) then 1 else 0)
  {
    CountAfter(s.tasks, i, t, Working);
    CountAfter(s.tasks, i, t, Called);
    CountAfter(s.tasks, i, t, InCall);
    CountAfter(s.tasks, i, t, Gone);
  }

  lemma {:induction false} SpawnStep(s: State)
    ensures Count(s.tasks + [Waiting], Working) == Count(s.tasks, Working) + 1
    ensures Count(s.tasks + [Waiting], Called) == Count(s.tasks, Called)
    ensures Count(s.tasks + [Waiting], InCall) == Count(s.tasks, InCall)
    ensures Count(s.tasks + [Waiting], Gone) == Count(s.tasks, Gone)
  {
    CountOneMore(s.tasks, Waiting, Working);
    CountOneMore(s.tasks, Waiting, Called);
    CountOneMore(s.tasks, Waiting, InCall);
    CountOneMore(s.tasks, Waiting, Gone);
  }

  lemma {:induction false} WorkingTask(s: State, i: nat)
    requires CountsOk(s) && i < |s.tasks| && !s.tasks[i].Finished?
    ensures !s.returned && s.counter > 0
  {
    if Count(s.tasks, Working) == 0 {
      CountZero(s.tasks, Working, i);
    }
  }

  lemma {:induction false} FailCounts(s: State, i: nat)
    requires WorkersOk(s) && CountsOk(s) && Allowed(s, Fail(i))
    ensures CountsOk(After(s, Fail(i))) == true
  {
    TaskStep(s, i, Waiting);
    WorkingTask(s, i);
    assert s.tasks[i].worker in Held(s.tasks);
  }

  lemma {:induction false} OtherCounts(s: State, step: Step)
    requires CountsOk(s) && Allowed(s, step) && !step.Fail?
    ensures CountsOk(After(s, step)) == true
  {
    match step {
      case Spawn => SpawnStep(s);
      case Register(w) =>
      case Take(i, w) => TaskStep(s, i, Calling(w)); WorkingTask(s, i);
      case Succeed(i) => TaskStep(s, i, Leaving); WorkingTask(s, i);
      case Done(i) => TaskStep(s, i, Finished); WorkingTask(s, i);
      case Return =>
      case Fail(_) =>
    }
  }

  lemma {:induction false} StepKeepsCounts(s: State, step: Step)
    requires WorkersOk(s) && CountsOk(s) && Allowed(s, step)
    ensures CountsOk(After(s, step)) == true
  {
    if step.Fail? {
      FailCounts(s, step.task);
    } else {
      OtherCounts(s, step);
    }
  }

  lemma {:induction false} RunsKeepInvariant(states: seq<State>, steps: seq<Step>, n: nat)
    requires IsRun(states, steps) && n < |states|
    ensures Invariant(states[n]) == true
  {
    if n > 0 {
      RunsKeepInvariant(states, steps, n - 1);
      StepKeepsWorkers(states[n - 1], steps[n - 1]);
      StepKeepsCounts(states[n - 1], steps[n - 1]);
    }
  }

  // ----- what happened to the calls -----

  /** The call of task `i` that fails in step `k` was one to worker `w`. */
  ghost predicate FailsOn(states: seq<State>, steps: seq<Step>, k: nat, i: nat, w: string) {
    k < |steps| && k < |states| && i < |states[k].tasks| && steps[k] == Fail(i) && states[k].tasks[i] == Calling(w)
  }

  /** A task past its call has succeeded. */
  lemma {:induction false} PastCallSucceeded(states: seq<State>, steps: seq<Step>, n: nat, i: nat) returns (k: nat)
    requires IsRun(states, steps) && n < |states| && i < |states[n].tasks|
    requires states[n].tasks[i].Leaving? || states[n].tasks[i].Finished?
    ensures k < n && steps[k] == Succeed(i)
  {
    assert n > 0;
    assert Allowed(states[n - 1], steps[n - 1]) && states[n] == After(states[n - 1], steps[n - 1]);
    if steps[n - 1] == Succeed(i) {
      k := n - 1;
    } else {
      k := PastCallSucceeded(states, steps, n - 1, i);
    }
  }

  /** After a success the task makes no more calls. */
  lemma {:induction false} SuccessIsLast(states: seq<State>, steps: seq<Step>, k: nat, n: nat, i: nat)
    requires IsRun(states, steps) && k < n < |states| && steps[k] == Succeed(i)
    ensures i < |states[n].tasks| && (states[n].tasks[i].Leaving? || states[n].tasks[i].Finished?)
  {
    assert Allowed(states[n - 1], steps[n - 1]) && states[n] == After(states[n - 1], steps[n - 1]);
    if k < n - 1 {
      SuccessIsLast(states, steps, k, n - 1, i);
    }
  }

  /** Dropped are exactly the workers on which a call has failed. */
  lemma {:induction false} DroppedIffFailed(states: seq<State>, steps: seq<Step>, n: nat, w: string)
    requires IsRun(states, steps) && n < |states|
    ensures w in states[n].dropped <==> exists k: nat, i: nat :: k < n && FailsOn(states, steps, k, i, w)
  {
    if n > 0 {
      DroppedIffFailed(states, steps, n - 1, w);
      var s := states[n - 1];
      assert Allowed(s, steps[n - 1]) && states[n] == After(s, steps[n - 1]);
      if steps[n - 1].Fail? && s.tasks[steps[n - 1].task].worker == w {
        assert FailsOn(states, steps, n - 1, steps[n - 1].task, w);
      }
    }
  }

  /** After a failure the task waits for another worker, and the worker is never taken again. */
  lemma {:induction false} FailureMeansAnother(states: seq<State>, steps: seq<Step>, k: nat, i: nat, w: string)
    requires IsRun(states, steps) && FailsOn(states, steps, k, i, w)
    ensures i < |states[k + 1].tasks| && states[k + 1].tasks[i] == Waiting
    ensures forall l: nat :: k < l < |steps| && steps[l].Take? ==> steps[l].worker != w
  {
    assert Allowed(states[k], steps[k]) && states[k + 1] == After(states[k], steps[k]);
    forall l: nat | k < l < |steps| && steps[l].Take?
      ensures steps[l].worker != w
    {
      DroppedIffFailed(states, steps, l, w);
      RunsKeepInvariant(states, steps, l);
      assert Allowed(states[l], steps[l]);
    }
  }

  /** Every task of the phase has succeeded, in exactly one step. */
  ghost predicate AllSucceeded(total: nat, steps: seq<Step>) {
    && (forall i: nat :: i < total ==> Succeed(i) in steps)
    && (forall k, l :: 0 <= k < l < |steps| && steps[k].Succeed? ==> steps[k] != steps[l])
  }

  lemma {:induction false} FinishedMeansSucceeded(states: seq<State>, steps: seq<Step>, n: nat)
    requires IsRun(states, steps) && n < |states| && |states[n].tasks| == states[n].total
    requires forall i :: 0 <= i < |states[n].tasks| ==> states[n].tasks[i].Finished?
    ensures AllSucceeded(states[n].total, steps[..n]) == true
  {
    forall i: nat | i < states[n].total
      ensures Succeed(i) in steps[..n]
    {
      var k := PastCallSucceeded(states, steps, n, i);
      assert steps[..n][k] == Succeed(i);
    }
    forall k, l | 0 <= k < l < n && steps[k].Succeed?
      ensures steps[k] != steps[l]
    {
      SuccessIsLast(states, steps, k, l, steps[k].task);
      assert Allowed(states[l], steps[l]);
    }
  }

  /**
   In every interleaving: no worker is called by two tasks at once, no worker is queued or dropped while it is called,
   there are at most as many calls as tasks and registrations together, and `schedule` has returned only if all its
   tasks were started, are gone, and a call has succeeded for every one of them, exactly once.
   */
  lemma {:induction false} SchedulerIsSafe(states: seq<State>, steps: seq<Step>, n: nat)
    requires IsRun(states, steps) && n < |states|
    ensures var s := states[n];
            && OneTaskEach(s.tasks)
            && (forall i :: 0 <= i < |s.tasks| && s.tasks[i].Calling? ==> s.tasks[i].worker !in s.queued + s.dropped)
            && s.calls <= s.total + |s.registered|
            && (s.returned ==> |s.tasks| == s.total && forall i :: 0 <= i < |s.tasks| ==> s.tasks[i].Finished?)
    ensures states[n].returned ==> AllSucceeded(states[n].total, steps[..n])
  {
    var s := states[n];
    RunsKeepInvariant(states, steps, n);
    assert forall i :: 0 <= i < |s.tasks| && s.tasks[i].Calling? ==> s.tasks[i].worker in Held(s.tasks);
    SubsetSize(s.dropped, s.registered);
    if s.returned {
      forall i: nat | i < |s.tasks|
        ensures s.tasks[i].Finished?
      {
        CountZero(s.tasks, Working, i);
      }
      FinishedMeansSucceeded(states, steps, n);
    }
  }

  // ----- progress -----

  /** The number of steps that lead to a state. */
  function Progress(s: State): int {
    |s.tasks| + |s.registered| + 2 * s.calls - Count(s.tasks, InCall) + Count(s.tasks, Gone)
    + if s.returned then 1 else 0
  }

  lemma {:induction false} StepProgress(s: State, step: Step)
    requires Allowed(s, step)
    ensures Progress(After(s, step)) == Progress(s) + 1
  {
    match step {
      case Spawn => SpawnStep(s);
      case Register(w) =>
      case Take(i, w) => TaskStep(s, i, Calling(w));
      case Succeed(i) => TaskStep(s, i, Leaving);
      case Fail(i) => TaskStep(s, i, Waiting);
      case Done(i) => TaskStep(s, i, Finished);
      case Return =>
    }
  }

  lemma {:induction false} RunLength(states: seq<State>, steps: seq<Step>, n: nat)
    requires IsRun(states, steps) && n < |states|
    ensures Progress(states[n]) == n && states[n].total == states[0].total
  {
    if n > 0 {
      RunLength(states, steps, n - 1);
      StepProgress(states[n - 1], steps[n - 1]);
    }
  }

  /** No run is longer than four steps per task, three per registration, and the return. */
  lemma {:induction false} RunsAreBounded(states: seq<State>, steps: seq<Step>)
    requires IsRun(states, steps)
    ensures |steps| <= 4 * states[0].total + 3 * |states[|steps|].registered| + 1
  {
    RunLength(states, steps, |steps|);
    RunsKeepInvariant(states, steps, |steps|);
    SchedulerIsSafe(states, steps, |steps|);
  }

  /** Only a new registration can change anything. */
  ghost predicate Quiet(s: State) {
    forall step :: Allowed(s, step) ==> step.Register?
  }

  lemma {:induction false} SomeoneWorking(tasks: seq<Task>) returns (i: nat)
    requires Count(tasks, Working) > 0
    ensures i < |tasks| && !tasks[i].Finished?
  {
    var n := |tasks| - 1;
    if tasks[n].Finished? {
      i := SomeoneWorking(tasks[..n]);
    } else {
      i := n;
    }
  }

  /** Where nothing can go on without a registration, `schedule` has returned or every worker has been dropped. */
  lemma {:induction false} StuckMeansNoWorkers(s: State)
    requires Invariant(s) && Quiet(s)
    ensures s.returned || s.dropped == s.registered
  {
    assert !Allowed(s, Spawn) && !Allowed(s, Return);
    if !s.returned {
      var i := SomeoneWorking(s.tasks);
      assert !Allowed(s, Done(i));
      forall j: nat | j < |s.tasks|
        ensures !s.tasks[j].Calling?
      {
        assert !Allowed(s, Fail(j));
      }
      forall w
        ensures w !in s.queued
      {
        assert !Allowed(s, Take(i, w));
      }
      assert s.queued == {} && Held(s.tasks) == {};
    }
  }

  /** A run that cannot go on, with a worker on which no call has failed, has returned with every task done. */
  lemma {:induction false} GoodWorkerFinishesAll(states: seq<State>, steps: seq<Step>, w: string)
    requires IsRun(states, steps) && Quiet(states[|steps|]) && w in states[|steps|].registered
    requires forall k: nat, i: nat :: !FailsOn(states, steps, k, i, w)
    ensures states[|steps|].returned && AllSucceeded(states[0].total, steps)
  {
    RunsKeepInvariant(states, steps, |steps|);
    DroppedIffFailed(states, steps, |steps|, w);
    StuckMeansNoWorkers(states[|steps|]);
    SchedulerIsSafe(states, steps, |steps|);
    RunLength(states, steps, |steps|);
    assert steps[..|steps|] == steps;
  }
}
