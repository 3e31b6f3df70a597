/**
 posttask5 (and posttask4): one producer hands tasks to one io_service thread
 through a mutex-protected queue, and posts a drain handler only when the queue
 goes from empty to nonempty. It refines posttask3, which posts every task.

 A step is one critical section or one handler action, so every interleaving
 of the two threads is a sequence of steps. Tasks are numbered in posting order.
 */
module BatchedPost {
  import opened Bytes

  type Task = nat

  /** Where the io_service thread is: between handlers, before the swap, running the batch, or done with it. */
  datatype Phase = Idle | Cleared | Running(next: nat)

  datatype State = State(
    total: nat,            // post_count_
    posted: nat,           // tasks the producer has queued
    owes: bool,            // need_post was true and io_service_.post has not been called yet
    pending: seq<Task>,    // pending_tasks_
    queued: nat,           // drain handlers waiting in the io_service
    phase: Phase,
    temp: seq<Task>,       // temp_tasks_
    executed: seq<Task>,   // the tasks run so far; count_ is its length
    stops: nat)            // assignments of stop_time_

  function Init(total: nat): State {
    State(total, 0, false, [], 0, Idle, [], [], 0)
  }

  // ---------- Steps ----------

  datatype Step = Enqueue | PostHandler | StartHandler | Swap | RunTask | FinishHandler

  predicate Enabled(s: State, step: Step) {
    match step
    case Enqueue => s.posted < s.total && !s.owes
    case PostHandler => s.owes
    case StartHandler => s.queued > 0 && s.phase == Idle
    case Swap => s.phase == Cleared
    case RunTask => s.phase.Running? && s.phase.next < |s.temp|
    case FinishHandler => s.phase.Running? && s.phase.next == |s.temp|
  }

  function Do(s: State, step: Step): State
    requires Enabled(s, step)
  {
    match step
    case Enqueue => s.(owes := |s.pending| == 0, pending := s.pending + [s.posted], posted := s.posted + 1)
    case PostHandler => s.(owes := false, queued := s.queued + 1)
    case StartHandler => s.(queued := s.queued - 1, temp := [], phase := Cleared)
    case Swap => s.(temp := s.pending, pending := s.temp, phase := Running(0))
    case RunTask => s.(executed := s.executed + [s.temp[s.phase.next]], phase := Running(s.phase.next + 1))
    case FinishHandler => s.(stops := s.stops + (if |s.executed| == s.total then 1 else 0), phase := Idle)
  }

  // ---------- What every interleaving keeps ----------

  /** Drain handlers owed: about to be posted, queued, or started but not yet past the swap. */
  function DrainsOwed(s: State): nat {
    (if s.owes then 1 else 0) + s.queued + (if s.phase == Cleared then 1 else 0)
  }

  /** Tasks `from`, `from + 1`, ... in order. */
  ghost predicate InOrder(tasks: seq<Task>, from: int) {
    forall i | 0 <= i < |tasks| :: tasks[i] == from + i
  }

  /** Tasks of the batch that are still to run. */
  function Left(s: State): int {
    if s.phase.Running? then |s.temp| - s.phase.next else 0
  }

  ghost predicate Inv(s: State) {
    && DrainsOwed(s) == (if |s.pending| > 0 then 1 else 0)
    && (s.phase == Cleared ==> |s.temp| == 0)
    && (s.phase.Running? ==> s.phase.next <= |s.temp| && |s.temp| > 0 && s.phase.next <= |s.executed|)
    && s.posted <= s.total
    && |s.executed| + Left(s) + |s.pending| == s.posted
    && InOrder(s.executed, 0)
    && (s.phase.Running? ==> InOrder(s.temp, |s.executed| - s.phase.next))
    && InOrder(s.pending, s.posted - |s.pending|)
    && s.stops == (if |s.executed| == s.total > 0 && s.phase == Idle then 1 else 0)
  }

  lemma InitInv(total: nat)
    ensures Inv(Init(total))
  {
  }

  /** Every step of either thread keeps the invariant. */
  lemma StepKeeps(s: State, step: Step)
    requires Inv(s) && Enabled(s, step)
    ensures Inv(Do(s, step))
  {
  }

  /** A run: the states one after the other, each reached from the one before by some step. */
  ghost predicate Run(states: seq<State>, total: nat) {
    && |states| > 0 && states[0] == Init(total)
    && forall i | 0 <= i < |states| - 1 :: Follows(states[i], states[i + 1])
  }

  ghost predicate Follows(s: State, s': State) {
    exists step :: Enabled(s, step) && s' == Do(s, step)
  }

  /** An upper bound on the steps still to come. */
  function StepsLeft(s: State): int {
    7 * (s.total - s.posted) + |s.pending| + (if s.owes then 5 else 0) + 4 * s.queued
    + match s.phase
      case Idle => 0
      case Cleared => 3
      case Running(next) => |s.temp| - next + 2
  }

  lemma StepsRunOut(s: State, step: Step)
    requires Inv(s) && Enabled(s, step)
    ensures StepsLeft(s) >= 0 && StepsLeft(Do(s, step)) < StepsLeft(s)
  {
  }

  lemma FollowKeeps(s: State, s': State)
    requires Inv(s) && Follows(s, s')
    ensures Inv(s') && s'.total == s.total && 0 <= StepsLeft(s') < StepsLeft(s)
  {
    var step :| Enabled(s, step) && s' == Do(s, step);
    StepKeeps(s, step);
    StepsRunOut(s, step);
  }

  /** Every state of every run satisfies the invariant, and no run takes more than `7 * total` steps. */
  lemma {:induction false} RunKeeps(states: seq<State>, total: nat, i: nat)
    requires Run(states, total) && i < |states|
    ensures Inv(states[i]) && states[i].total == total
    ensures 0 <= StepsLeft(states[i]) <= 7 * total - i
    decreases i
  {
    if i == 0 {
      InitInv(total);
    } else {
      RunKeeps(states, total, i - 1);
      assert Follows(states[i - 1], states[i - 1 + 1]);
      FollowKeeps(states[i - 1], states[i]);
    }
  }

  // ---------- Every run ends, and ends well ----------

  ghost predicate Stuck(s: State) {
    forall step :: !Enabled(s, step)
  }

  /**
   A run that can go no further has executed every task once, in posting order,
   and has assigned `stop_time_` once; with no tasks at all it is never assigned.
   */
  lemma StuckMeansDone(s: State)
    requires Inv(s) && Stuck(s)
    ensures s.executed == UpTo(s.total) && s.pending == []
    ensures s.stops == if s.total > 0 then 1 else 0
  {
    assert !Enabled(s, Enqueue) && !Enabled(s, PostHandler) && !Enabled(s, StartHandler);
    assert !Enabled(s, Swap) && !Enabled(s, RunTask) && !Enabled(s, FinishHandler);
  }

  /** The same for whole runs: a run whose last state allows no step has at most `7 * total` steps and is done. */
  lemma RunsEndDone(states: seq<State>, total: nat)
    requires Run(states, total) && Stuck(states[|states| - 1])
    ensures |states| <= 7 * total + 1
    ensures states[|states| - 1].executed == UpTo(total)
    ensures states[|states| - 1].stops == if total > 0 then 1 else 0
  {
    RunKeeps(states, total, |states| - 1);
    StuckMeansDone(states[|states| - 1]);
  }

  /** What the swap hands to the drain handler is never empty. */
  lemma BatchNonempty(s: State)
    requires Inv(s) && Enabled(s, Swap)
    ensures |Do(s, Swap).temp| > 0 && Do(s, Swap).pending == []
  {
  }

  // ---------- Refinement of posttask3 ----------

  /** posttask3: every task is posted to the io_service, which runs them in order. */
  datatype Direct = Direct(total: nat, posted: nat, queue: seq<Task>, executed: seq<Task>)

  datatype DirectStep = Post | RunNext

  predicate DirectEnabled(d: Direct, step: DirectStep) {
    match step
    case Post => d.posted < d.total
    case RunNext => |d.queue| > 0
  }

  function DoDirect(d: Direct, step: DirectStep): Direct
    requires DirectEnabled(d, step)
  {
    match step
    case Post => d.(queue := d.queue + [d.posted], posted := d.posted + 1)
    case RunNext => d.(queue := d.queue[1..], executed := d.executed + [d.queue[0]])
  }

  /** posttask3 itself: what has run, followed by what is queued, is everything posted, in posting order. */
  ghost predicate DirectInv(d: Direct) {
    d.posted <= d.total && d.executed + d.queue == UpTo(d.posted)
  }

  lemma DirectKeeps(d: Direct, step: DirectStep)
    requires DirectInv(d)
    requires DirectEnabled(d, step)
    ensures DirectInv(DoDirect(d, step))
  {
    match step
    case Post =>
      assert d.executed + (d.queue + [d.posted]) == (d.executed + d.queue) + [d.posted];
      assert UpTo(d.posted) + [d.posted] == UpTo(d.posted + 1);
    case RunNext =>
      assert [d.queue[0]] + d.queue[1..] == d.queue;
      assert (d.executed + [d.queue[0]]) + d.queue[1..] == d.executed + d.queue;
  }

  /** The posttask3 state a batched state stands for: the rest of the batch, then the pending queue. */
  function ToDirect(s: State): Direct
    requires Left(s) >= 0
  {
    Direct(s.total, s.posted, (if s.phase.Running? then s.temp[s.phase.next..] else []) + s.pending, s.executed)
  }

  /** Every reachable batched state stands for a state posttask3 keeps to. */
  lemma StandsForDirect(s: State)
    requires Inv(s)
    ensures Left(s) >= 0 && DirectInv(ToDirect(s))
  {
  }

  /** Queueing a task is posttask3's post, running one is its run; the batching steps change nothing. */
  lemma Refines(s: State, step: Step)
    requires Inv(s) && Enabled(s, step)
    ensures Left(Do(s, step)) >= 0
    ensures step == Enqueue ==> s.posted < s.total && ToDirect(Do(s, step)) == DoDirect(ToDirect(s), Post)
    ensures step == RunTask ==> |ToDirect(s).queue| > 0 && ToDirect(Do(s, step)) == DoDirect(ToDirect(s), RunNext)
    ensures step != Enqueue && step != RunTask ==> ToDirect(Do(s, step)) == ToDirect(s)
  {
    var s' := Do(s, step);
    match step
    case Enqueue =>
      assert ToDirect(s').queue == ToDirect(s).queue + [s.posted];
    case RunTask =>
      assert s.temp[s.phase.next..] == [s.temp[s.phase.next]] + s.temp[s.phase.next + 1..];
      assert ToDirect(s').queue == ToDirect(s).queue[1..];
    case FinishHandler =>
      assert s.temp[s.phase.next..] == [];
    case Swap =>
      assert s'.temp[0..] == s.pending;
    case _ =>
  }

  lemma StartsAsDirect(total: nat)
    ensures ToDirect(Init(total)) == Direct(total, 0, [], [])
  {
  }

  /** A step of posttask3, or none. */
  ghost predicate DirectFollows(d: Direct, d': Direct) {
    d' == d || exists step :: DirectEnabled(d, step) && d' == DoDirect(d, step)
  }

  /** A run of posttask3 that may stand still at times. */
  ghost predicate DirectRun(states: seq<Direct>, total: nat) {
    && |states| > 0 && states[0] == Direct(total, 0, [], [])
    && forall i | 0 <= i < |states| - 1 :: DirectFollows(states[i], states[i + 1])
  }

  lemma StepRefines(s: State, s': State)
    requires Inv(s) && Follows(s, s')
    ensures Left(s) >= 0 && Left(s') >= 0 && DirectFollows(ToDirect(s), ToDirect(s'))
  {
    var step :| Enabled(s, step) && s' == Do(s, step);
    Refines(s, step);
    if step == Enqueue {
      assert DirectEnabled(ToDirect(s), Post);
    } else if step == RunTask {
      assert DirectEnabled(ToDirect(s), RunNext);
    }
  }

  /** What a run stands for. */
  ghost function ToDirects(states: seq<State>): (ds: seq<Direct>)
    requires forall i | 0 <= i < |states| :: Left(states[i]) >= 0
  {
    seq(|states|, i requires 0 <= i < |states| => ToDirect(states[i]))
  }

  /** Every run, in every interleaving of the two threads, is a run of posttask3 that executes the same tasks at the same time. */
  lemma RunsRefine(states: seq<State>, total: nat)
    requires Run(states, total)
    ensures forall i | 0 <= i < |states| :: Left(states[i]) >= 0
    ensures DirectRun(ToDirects(states), total)
    ensures forall i | 0 <= i < |states| :: ToDirects(states)[i].executed == states[i].executed
  {
    forall i | 0 <= i < |states| ensures Left(states[i]) >= 0 {
      RunKeeps(states, total, i);
    }
    StartsAsDirect(total);
    forall i | 0 <= i < |states| - 1 ensures DirectFollows(ToDirects(states)[i], ToDirects(states)[i + 1]) {
      RunKeeps(states, total, i);
      StepRefines(states[i], states[i + 1]);
    }
  }

  /** Running the rest of the batch, task by task. */
  function RunRest(s: State): (s': State)
    requires s.phase.Running? && s.phase.next <= |s.temp|
    ensures s'.phase == Running(|s.temp|) && s'.temp == s.temp
    ensures |s'.executed| == |s.executed| + |s.temp| - s.phase.next
    decreases |s.temp| - (if s.phase.Running? then s.phase.next else 0)
  {
    if Enabled(s, RunTask) then RunRest(Do(s, RunTask)) else s
  }

  lemma {:induction false} RunRestKeeps(s: State)
    requires Inv(s) && s.phase.Running?
    ensures Inv(RunRest(s)) && RunRest(s).total == s.total
    ensures RunRest(s).executed == s.executed + s.temp[s.phase.next..] && RunRest(s).pending == s.pending
    decreases |s.temp| - (if s.phase.Running? then s.phase.next else 0)
  {
    if Enabled(s, RunTask) {
      StepKeeps(s, RunTask);
      RunRestKeeps(Do(s, RunTask));
      assert s.temp[s.phase.next..] == [s.temp[s.phase.next]] + s.temp[s.phase.next + 1..];
    }
  }

  /** posttask4's tasks: every one adds 1. */
  function Sum(adds: seq<nat>): nat {
    if |adds| == 0 then 0 else Sum(adds[..|adds| - 1]) + adds[|adds| - 1]
  }

  // ---------- The object ----------

  class PostTask {
    const postCount: nat
    var pendingTasks: seq<Task>
    var tempTasks: seq<Task>
    var count: nat
    // The producer's position: loop counter, and its local `need_post` until it is acted on.
    var posted: nat
    var needPost: bool
    // The io_service: handlers queued and the one being run.
    var queued: nat
    var phase: Phase
    var stops: nat
    // History: the tasks run so far.
    var executed: seq<Task>

    ghost predicate Valid()
      reads this
    {
      count == |executed| && Inv(Now())
    }

    function Now(): State
      reads this
    {
      State(postCount, posted, needPost, pendingTasks, queued, phase, tempTasks, executed, stops)
    }

    constructor (total: nat)
      ensures Valid() && Now() == Init(total)
    {
      postCount := total;
      pendingTasks, tempTasks, count := [], [], 0;
      posted, needPost, queued, phase, stops := 0, false, 0, Idle, 0;
      executed := [];
    }

    /** `post()`: the critical section. */
    method PostLocked()
      requires Valid() && Enabled(Now(), Enqueue)
      modifies this
      ensures Valid() && Now() == Do(old(Now()), Enqueue)
    {
      StepKeeps(Now(), Enqueue);
      needPost := |pendingTasks| == 0;
      pendingTasks := pendingTasks + [posted];
      posted := posted + 1;
    }

    /** `post()`: handing the drain handler to the io_service. */
    method PostDrain()
      requires Valid() && Enabled(Now(), PostHandler)
      modifies this
      ensures Valid() && Now() == Do(old(Now()), PostHandler)
    {
      StepKeeps(Now(), PostHandler);
      needPost := false;
      queued := queued + 1;
    }

    /** The drain handler starts: `temp_tasks_.clear()`. */
    method DrainStart()
      requires Valid() && Enabled(Now(), StartHandler)
      modifies this
      ensures Valid() && Now() == Do(old(Now()), StartHandler)
    {
      StepKeeps(Now(), StartHandler);
      queued := queued - 1;
      tempTasks := [];
      phase := Cleared;
    }

    /** The drain handler's critical section: the swap. */
    method DrainSwap()
      requires Valid() && Enabled(Now(), Swap)
      modifies this
      ensures Valid() && Now() == Do(old(Now()), Swap)
    {
      StepKeeps(Now(), Swap);
      tempTasks, pendingTasks := pendingTasks, tempTasks;
      phase := Running(0);
    }

    /** One turn of the drain handler's loop. */
    method DrainOne()
      requires Valid() && Enabled(Now(), RunTask)
      modifies this
      ensures Valid() && Now() == Do(old(Now()), RunTask)
    {
      StepKeeps(Now(), RunTask);
      executed := executed + [tempTasks[phase.next]];
      count := count + 1;
      phase := Running(phase.next + 1);
    }

    /** The whole loop: runs the batch, in order, and counts it. */
    method DrainRun()
      requires Valid() && phase == Running(0)
      modifies this
      ensures Valid() && Now() == RunRest(old(Now()))
      ensures executed == old(executed) + tempTasks && count == old(count) + |tempTasks|
    {
      ghost var s := Now();
      RunRestKeeps(s);
      for i := 0 to |tempTasks|
        invariant Valid() && phase == Running(i) && tempTasks == s.temp && RunRest(Now()) == RunRest(s)
      {
        DrainOne();
      }
      assert s.temp[0..] == s.temp;
    }

    /** The end of the drain handler. */
    method DrainFinish()
      requires Valid() && Enabled(Now(), FinishHandler)
      modifies this
      ensures Valid() && Now() == Do(old(Now()), FinishHandler)
    {
      StepKeeps(Now(), FinishHandler);
      if count == postCount {
        stops := stops + 1;
      }
      phase := Idle;
    }

    /** Lets one thread do one thing. */
    method Fire(step: Step)
      requires Valid() && Enabled(Now(), step)
      modifies this
      ensures Valid() && Now() == Do(old(Now()), step)
    {
      match step
      case Enqueue => PostLocked();
      case PostHandler => PostDrain();
      case StartHandler => DrainStart();
      case Swap => DrainSwap();
      case RunTask => DrainOne();
      case FinishHandler => DrainFinish();
    }

    /** Some step that can be taken, any of them, if there is one. */
    method Pick() returns (found: bool, step: Step)
      ensures found ==> Enabled(Now(), step)
      ensures !found ==> Stuck(Now())
    {
      step := *;
      found := Enabled(Now(), step);
      if !found {
        var all := [Enqueue, PostHandler, StartHandler, Swap, RunTask, FinishHandler];
        for i := 0 to |all|
          invariant forall j | 0 <= j < i :: !Enabled(Now(), all[j])
        {
          if Enabled(Now(), all[i]) {
            return true, all[i];
          }
        }
        assert !Enabled(Now(), all[0]) && !Enabled(Now(), all[1]) && !Enabled(Now(), all[2]);
        assert !Enabled(Now(), all[3]) && !Enabled(Now(), all[4]) && !Enabled(Now(), all[5]);
      }
    }

    /**
     The producer and the io_service thread, interleaved in any way, until neither
     can go on: they come to that point, and every task has then run once, in
     posting order, with `stop_time_` assigned once if there were tasks.
     */
    method Drive()
      requires Valid()
      modifies this
      ensures Valid() && Stuck(Now())
      ensures executed == UpTo(postCount) && count == postCount && stops == if postCount > 0 then 1 else 0
    {
      var found, step := Pick();
      while found
        invariant Valid() && (found ==> Enabled(Now(), step)) && (!found ==> Stuck(Now()))
        decreases StepsLeft(Now())
      {
        StepsRunOut(Now(), step);
        Fire(step);
        found, step := Pick();
      }
      StuckMeansDone(Now());
    }
  }

  /** posttask4's drain loop adds up the batch instead of calling it; with adds of 1 that is the batch's length. */
  method SumBatch(count: nat, temp: seq<nat>) returns (count': nat)
    requires forall i | 0 <= i < |temp| :: temp[i] == 1
    ensures count' == count + Sum(temp) == count + |temp|
  {
    count' := count;
    for i := 0 to |temp|
      invariant count' == count + Sum(temp[..i]) == count + i
    {
      assert temp[..i + 1][..i] == temp[..i];
      count' := count' + temp[i];
    }
    assert temp[..|temp|] == temp;
  }
}
