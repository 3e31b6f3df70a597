/**
 posttask2: `k = thread_count / 2` tokens, token `i` bouncing between services
 `2i` and `2i + 1`, all of them bumping one shared atomic counter until it has
 reached `post_count`.

 The increment, the test that follows it and the post that follows a failed test
 are separate steps, so other tokens may act in between. `stop()` takes the work
 objects away, and a service without work exits: a post that comes after that
 goes unheard.
 */
module TokenPosts {
  import opened Bytes

  /**
   Queued at a service; its handler has incremented there; has found the counter
   too low and is about to post; has called `stop`; or has posted to a service that had exited.
   */
  datatype Stage = Queued | Counted | Passed | Stopped | Lost

  datatype Token = Token(stage: Stage, service: int)

  datatype State = State(threads: nat, postCount: nat, count: nat, tokens: seq<Token>)

  function Init(threads: nat, postCount: nat): State {
    State(threads, postCount, 0, seq(threads / 2, i => Token(Queued, i * 2)))
  }

  // ---------- Steps ----------

  datatype Step = Increment(i: nat) | Test(i: nat) | Post(i: nat, heard: bool)

  /** Some token has called `stop()`. */
  predicate AnyStopped(s: State) {
    exists j | 0 <= j < |s.tokens| :: s.tokens[j].stage == Stopped
  }

  predicate Enabled(s: State, step: Step) {
    match step
    case Increment(i) => i < |s.tokens| && s.tokens[i].stage == Queued
    case Test(i) => i < |s.tokens| && s.tokens[i].stage == Counted
    case Post(i, heard) => i < |s.tokens| && s.tokens[i].stage == Passed && (heard || AnyStopped(s))
  }

  /** The other service of a pair: odd goes down, even goes up. */
  function Other(service: int): int {
    if service % 2 != 0 then service - 1 else service + 1
  }

  /** `get_io_service(index)`. */
  function ServiceAt(s: State, index: int): int
    requires s.threads > 0
  {
    index % s.threads
  }

  function Do(s: State, step: Step): State
    requires Enabled(s, step) && s.threads > 0
  {
    var here := s.tokens[step.i].service;
    match step
    case Increment(i) => s.(count := s.count + 1, tokens := s.tokens[i := Token(Counted, here)])
    case Test(i) => s.(tokens := s.tokens[i := Token(if s.count >= s.postCount then Stopped else Passed, here)])
    case Post(i, heard) =>
      s.(tokens := s.tokens[i := Token(if heard then Queued else Lost, ServiceAt(s, Other(here)))])
  }

  // ---------- Counting tokens ----------

  /** How many of the first `n` tokens are at one of these stages. */
  function Num(tokens: seq<Token>, stages: set<Stage>, n: nat): (c: nat)
    requires n <= |tokens|
    ensures c <= n
  {
    if n == 0 then 0 else Num(tokens, stages, n - 1) + (if tokens[n - 1].stage in stages then 1 else 0)
  }

  lemma {:induction false} NumUpdate(tokens: seq<Token>, stages: set<Stage>, i: nat, t: Token, n: nat)
    requires i < |tokens| && n <= |tokens|
    ensures Num(tokens[i := t], stages, n) == Num(tokens, stages, n)
            + (if i < n && t.stage in stages then 1 else 0) - (if i < n && tokens[i].stage in stages then 1 else 0)
    decreases n
  {
    if n > 0 {
      NumUpdate(tokens, stages, i, t, n - 1);
    }
  }

  lemma {:induction false} NumZero(tokens: seq<Token>, stages: set<Stage>, n: nat)
    requires n <= |tokens| && forall i | 0 <= i < n :: tokens[i].stage !in stages
    ensures Num(tokens, stages, n) == 0
    decreases n
  {
    if n > 0 {
      NumZero(tokens, stages, n - 1);
    }
  }

  function Tally(s: State, stages: set<Stage>): nat { Num(s.tokens, stages, |s.tokens|) }

  /** The stages a token may yet increment from. */
  const GOING := {Queued, Passed}

  // ---------- What every interleaving keeps ----------

  /** The count at which tokens begin to stop: the first increment has already happened at every test. */
  function Goal(s: State): nat { Max(s.postCount, 1) }

  /** No token can raise the counter past this. */
  function Limit(s: State): int { Goal(s) + |s.tokens| - 1 }

  /** Every token is at home in its own pair of services. */
  ghost predicate Home(s: State) {
    && s.threads >= 2 && s.threads % 2 == 0 && |s.tokens| == s.threads / 2
    && forall i | 0 <= i < |s.tokens| :: s.tokens[i].service == 2 * i || s.tokens[i].service == 2 * i + 1
  }

  ghost predicate Counts(s: State) {
    && (forall i | 0 <= i < |s.tokens| :: s.tokens[i].stage == Counted ==> s.count >= 1)
    && (forall i | 0 <= i < |s.tokens| :: s.tokens[i].stage == Stopped ==> s.count >= Goal(s))
    && (forall i | 0 <= i < |s.tokens| :: s.tokens[i].stage == Lost ==> AnyStopped(s))
    && (s.count >= Goal(s) ==> s.count + Tally(s, GOING) <= Limit(s))
  }

  ghost predicate Inv(s: State) { Home(s) && Counts(s) }

  /** At the start there are `k` tokens, token `i` queued at service `2i`, and nothing is counted. */
  lemma StartsAtEvenServices(threads: nat, postCount: nat)
    ensures var s := Init(threads, postCount);
            && |s.tokens| == threads / 2 && s.count == 0
            && forall i | 0 <= i < |s.tokens| :: s.tokens[i].stage == Queued && s.tokens[i].service == 2 * i
  {
  }

  lemma InitInv(threads: nat, postCount: nat)
    requires threads >= 2 && threads % 2 == 0
    ensures Inv(Init(threads, postCount))
    ensures Tally(Init(threads, postCount), {Counted}) == Tally(Init(threads, postCount), {Passed}) == 0
  {
    NumZero(Init(threads, postCount).tokens, {Counted}, threads / 2);
    NumZero(Init(threads, postCount).tokens, {Passed}, threads / 2);
  }

  lemma HomeKept(s: State, step: Step)
    requires Home(s) && Enabled(s, step)
    ensures Home(Do(s, step))
  {
    PairStays(s, step.i);
  }

  lemma StoppedKept(s: State, step: Step)
    requires Home(s) && Enabled(s, step) && AnyStopped(s)
    ensures AnyStopped(Do(s, step))
  {
    var j :| 0 <= j < |s.tokens| && s.tokens[j].stage == Stopped;
    assert Do(s, step).tokens[j].stage == Stopped;
  }

  lemma CountsKept(s: State, step: Step)
    requires Inv(s) && Enabled(s, step)
    ensures Counts(Do(s, step))
  {
    NumUpdate(s.tokens, GOING, step.i, Do(s, step).tokens[step.i], |s.tokens|);
    if AnyStopped(s) {
      StoppedKept(s, step);
    }
  }

  lemma StepKeeps(s: State, step: Step)
    requires Inv(s) && Enabled(s, step)
    ensures Inv(Do(s, step))
  {
    HomeKept(s, step);
    CountsKept(s, step);
  }

  lemma ModSmall(x: int, n: nat)
    requires 0 <= x < n
    ensures x % n == x
  {
  }

  /** The next service of a token is the other one of its pair, and the pool's modulo does not move it. */
  lemma PairStays(s: State, i: nat)
    requires Home(s) && i < |s.tokens|
    ensures var here := s.tokens[i].service;
            && ServiceAt(s, Other(here)) == Other(here)
            && (here == 2 * i ==> Other(here) == 2 * i + 1)
            && (here == 2 * i + 1 ==> Other(here) == 2 * i)
  {
    ModSmall(Other(s.tokens[i].service), s.threads);
  }

  /** No service ever holds two tokens. */
  lemma OneTokenPerService(s: State, i: nat, j: nat)
    requires Inv(s) && i < j < |s.tokens|
    ensures s.tokens[i].service != s.tokens[j].service
  {
  }

  /** A token moves only by posting, and then to the other service of its pair. */
  lemma TokenAlternates(s: State, step: Step, i: nat)
    requires Inv(s) && Enabled(s, step) && i < |s.tokens|
    ensures var here, there := s.tokens[i].service, Do(s, step).tokens[i].service;
            if step.Post? && step.i == i then there != here && {there, here} == {2 * i, 2 * i + 1}
            else there == here
  {
    PairStays(s, step.i);
  }

  // ---------- Runs ----------

  ghost predicate Follows(s: State, s': State) {
    s.threads > 0 && exists step :: Enabled(s, step) && s' == Do(s, step)
  }

  ghost predicate Run(states: seq<State>, threads: nat, postCount: nat) {
    && |states| > 0 && states[0] == Init(threads, postCount)
    && forall i | 0 <= i < |states| - 1 :: Follows(states[i], states[i + 1])
  }

  /** The counter never passes the limit. */
  lemma CountBounded(s: State)
    requires Inv(s)
    ensures s.count <= Limit(s)
  {
  }

  /** An upper bound on the steps still to come. */
  function StepsLeft(s: State): int {
    3 * (Limit(s) - s.count) + 2 * Tally(s, {Counted}) + Tally(s, {Passed})
  }

  lemma FollowKeeps(s: State, s': State)
    requires Inv(s) && Follows(s, s')
    ensures Inv(s') && s'.threads == s.threads && s'.postCount == s.postCount
    ensures 0 <= StepsLeft(s') < StepsLeft(s)
  {
    var step :| Enabled(s, step) && s' == Do(s, step);
    StepKeeps(s, step);
    CountBounded(s');
    NumUpdate(s.tokens, {Counted}, step.i, s'.tokens[step.i], |s.tokens|);
    NumUpdate(s.tokens, {Passed}, step.i, s'.tokens[step.i], |s.tokens|);
  }

  /** Every state of every run satisfies the invariant, and runs are bounded. */
  lemma {:induction false} RunKeeps(states: seq<State>, threads: nat, postCount: nat, i: nat)
    requires threads >= 2 && threads % 2 == 0
    requires Run(states, threads, postCount) && i < |states|
    ensures Inv(states[i]) && states[i].threads == threads && states[i].postCount == postCount
    ensures 0 <= StepsLeft(states[i]) <= 3 * (Max(postCount, 1) + threads / 2 - 1) - i
    decreases i
  {
    if i == 0 {
      InitInv(threads, postCount);
    } else {
      RunKeeps(states, threads, postCount, i - 1);
      assert Follows(states[i - 1], states[i - 1 + 1]);
      FollowKeeps(states[i - 1], states[i]);
    }
  }

  ghost predicate Stuck(s: State) {
    forall step :: !Enabled(s, step)
  }

  /** A run that can go no further has stopped: `stop()` was called, and the tokens that did not call it posted too late. */
  lemma StuckMeansStopped(s: State)
    requires Inv(s) && Stuck(s)
    ensures AnyStopped(s)
    ensures forall i | 0 <= i < |s.tokens| :: s.tokens[i].stage == Stopped || s.tokens[i].stage == Lost
  {
    forall i | 0 <= i < |s.tokens| ensures s.tokens[i].stage == Stopped || s.tokens[i].stage == Lost {
      assert !Enabled(s, Increment(i)) && !Enabled(s, Test(i)) && !Enabled(s, Post(i, true));
    }
    assert s.tokens[0].stage == Lost ==> AnyStopped(s);
  }

  /**
   Every run ends, `stop()` having been called, with the counter between
   `max(post_count, 1)` and that plus `k - 1`.
   */
  lemma RunsEndWithinLimits(states: seq<State>, threads: nat, postCount: nat)
    requires threads >= 2 && threads % 2 == 0
    requires Run(states, threads, postCount) && Stuck(states[|states| - 1])
    ensures |states| <= 3 * (Max(postCount, 1) + threads / 2 - 1) + 1
    ensures var last := states[|states| - 1];
            AnyStopped(last) && Max(postCount, 1) <= last.count <= Max(postCount, 1) + threads / 2 - 1
  {
    var last := states[|states| - 1];
    RunKeeps(states, threads, postCount, |states| - 1);
    StuckMeansStopped(last);
    CountBounded(last);
  }

  // ---------- The object ----------

  class PostTask {
    const threadCount: nat
    const postCount: nat
    var count: nat
    var tokens: seq<Token>

    ghost predicate Valid()
      reads this
    {
      Inv(Now())
    }

    function Now(): State
      reads this
    {
      State(threadCount, postCount, count, tokens)
    }

    /** Construction and `start()`: one handler posted at every even service. */
    constructor (threads: nat, posts: nat)
      requires threads >= 2 && threads % 2 == 0
      ensures Valid() && Now() == Init(threads, posts)
      ensures |tokens| == threads / 2 && forall i | 0 <= i < |tokens| :: tokens[i] == Token(Queued, 2 * i)
    {
      threadCount, postCount, count, tokens := threads, posts, 0, [];
      new;
      for i := 0 to threads / 2
        invariant |tokens| == i && count == 0 && threadCount == threads && postCount == posts
        invariant forall j | 0 <= j < i :: tokens[j] == Token(Queued, j * 2)
      {
        tokens := tokens + [Token(Queued, i * 2)];
      }
      InitInv(threads, posts);
      assert Now() == Init(threads, posts);
    }

    /** The handler's `++count_`. */
    method CountUp(i: nat)
      requires Valid() && Enabled(Now(), Increment(i))
      modifies this
      ensures Valid() && Now() == Do(old(Now()), Increment(i))
    {
      StepKeeps(Now(), Increment(i));
      count := count + 1;
      tokens := tokens[i := Token(Counted, tokens[i].service)];
    }

    /** The handler's test, and `stop()` if it succeeds. */
    method TestCount(i: nat)
      requires Valid() && Enabled(Now(), Test(i))
      modifies this
      ensures Valid() && Now() == Do(old(Now()), Test(i))
    {
      StepKeeps(Now(), Test(i));
      if count >= postCount {
        tokens := tokens[i := Token(Stopped, tokens[i].service)];
      } else {
        tokens := tokens[i := Token(Passed, tokens[i].service)];
      }
    }

    /** The rest of the handler: `thread_index` goes to the other service of the pair, and `post`. */
    method PostOn(i: nat, heard: bool)
      requires Valid() && Enabled(Now(), Post(i, heard))
      modifies this
      ensures Valid() && Now() == Do(old(Now()), Post(i, heard))
    {
      StepKeeps(Now(), Post(i, heard));
      var threadIndex := tokens[i].service;
      if threadIndex % 2 != 0 {
        threadIndex := threadIndex - 1;
      } else {
        threadIndex := threadIndex + 1;
      }
      tokens := tokens[i := Token(if heard then Queued else Lost, threadIndex % threadCount)];
    }

    /** Lets one token's handler do one thing. */
    method Fire(step: Step)
      requires Valid() && Enabled(Now(), step)
      modifies this
      ensures Valid() && Now() == Do(old(Now()), step)
    {
      match step
      case Increment(i) => CountUp(i);
      case Test(i) => TestCount(i);
      case Post(i, heard) => PostOn(i, heard);
    }

    /** Some step that can be taken, any of them, if there is one. */
    method Pick() returns (found: bool, step: Step)
      ensures found ==> Enabled(Now(), step)
      ensures !found ==> Stuck(Now())
    {
      step := *;
      found := Enabled(Now(), step);
      if !found {
        for i := 0 to |tokens|
          invariant forall j | 0 <= j < i :: tokens[j].stage == Stopped || tokens[j].stage == Lost
        {
          match tokens[i].stage
          case Queued => return true, Increment(i);
          case Counted => return true, Test(i);
          case Passed => return true, Post(i, true);
          case _ =>
        }
      }
    }

    /**
     All services together, interleaved in any way, until none can go on: they
     come to that point, `stop()` has been called, and the counter is within its limits.
     */
    method Drive()
      requires Valid()
      modifies this
      ensures Valid() && Stuck(Now()) && AnyStopped(Now())
      ensures Max(postCount, 1) <= count <= Max(postCount, 1) + threadCount / 2 - 1
    {
      var found, step := Pick();
      while found
        invariant Valid() && (found ==> Enabled(Now(), step)) && (!found ==> Stuck(Now()))
        decreases StepsLeft(Now())
      {
        ghost var s := Now();
        Fire(step);
        FollowKeeps(s, Now());
        CountBounded(s);
        found, step := Pick();
      }
      StuckMeansStopped(Now());
      CountBounded(Now());
    }
  }
}
