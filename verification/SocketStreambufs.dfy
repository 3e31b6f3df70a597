/**
 asio's `basic_socket_streambuf`: the put area, flushed by partial sends, and
 the three-state expiry timer.

 The network and the clock are an argument: for every send, which timer events
 the io_service runs while it is awaited, and whether it fails or how much it
 takes. So a statement over all environments is a statement over that argument.
 */
module SocketStreambufs {
  import opened Bytes
  import Runs

  const BUFFER_SIZE := 512

  datatype ErrorCode = Ok | OperationAborted | SendError

  // ---------- The timer ----------

  datatype TimerState = NoTimer | TimerIsPending | TimerHasExpired

  /** A timer handler the io_service owes: its wait has not elapsed yet, or it is ready to run. */
  datatype Handler = Elapsing | Runnable

  datatype Timer = Timer(state: TimerState, owed: seq<Handler>)

  /** Exactly one timer handler is owed while the timer is pending, and none otherwise. */
  predicate TimerOk(t: Timer) {
    |t.owed| == if t.state == TimerIsPending then 1 else 0
  }

  /** `timer_handler::operator()`: waits again, or finds that the time has come. */
  function Handled(t: Timer, expired: bool): Timer {
    if expired then t.(state := TimerHasExpired) else Timer(TimerIsPending, t.owed + [Elapsing])
  }

  /** Cancelled waits complete at once, with `operation_aborted`. */
  function Cancelled(owed: seq<Handler>): seq<Handler> {
    seq(|owed|, _ => Runnable)
  }

  /** `expires_at(time)`: cancels what is being waited for, then `start_timer`. */
  function Rescheduled(t: Timer, expired: bool): (t': Timer)
    ensures TimerOk(t) ==> TimerOk(t')
    ensures TimerOk(t) && t.state == TimerIsPending ==> t'.state == TimerIsPending && t'.owed == [Runnable]
    ensures TimerOk(t) && t.state != TimerIsPending && !expired ==> t'.state == TimerIsPending && t'.owed == [Elapsing]
    ensures TimerOk(t) && t.state != TimerIsPending && expired ==> t'.state == TimerHasExpired && t'.owed == []
  {
    var t1 := t.(owed := Cancelled(t.owed));
    if t.state == TimerIsPending then t1 else Handled(t1, expired)
  }

  /** One timer event of the io_service, if it owes a handler: the wait elapses, or the handler runs. */
  function Fired(t: Timer, expired: bool): (t': Timer)
    ensures TimerOk(t) ==> TimerOk(t')
    ensures TimerOk(t) && t.state != TimerIsPending ==> t' == t
    ensures TimerOk(t) && t.owed == [Elapsing] ==> t'.state == TimerIsPending && t'.owed == [Runnable]
    ensures TimerOk(t) && t.owed == [Runnable] && !expired ==> t'.state == TimerIsPending && t'.owed == [Elapsing]
    ensures TimerOk(t) && t.owed == [Runnable] && expired ==> t'.state == TimerHasExpired && t'.owed == []
  {
    if |t.owed| == 0 then t
    else if t.owed[0] == Elapsing then t.(owed := t.owed[0 := Runnable])
    else Handled(t.(owed := t.owed[1..]), expired)
  }

  /** The first `n` of some timer events. */
  function FiredAll(t: Timer, events: seq<bool>, n: nat): (t': Timer)
    requires n <= |events|
    ensures TimerOk(t) ==> TimerOk(t')
  {
    if n == 0 then t else Fired(FiredAll(t, events, n - 1), events[n - 1])
  }

  /** A wait that elapses and whose handler then finds that the time has come: the timer expires. */
  lemma WaitThenExpire(t: Timer, first: bool)
    requires TimerOk(t) && t.owed == [Elapsing]
    ensures FiredAll(t, [first, true], 2).state == TimerHasExpired
  {
    assert FiredAll(t, [first, true], 1).owed == [Runnable];
  }

  // ---------- Sending ----------

  /** What comes of one send: timer events while it is awaited, then its error code and how much it took. */
  datatype Outcome = Outcome(events: seq<bool>, ec: ErrorCode, took: nat)

  /** The outcome of the `i`-th send; beyond the list everything goes out at once. */
  function OutcomeAt(outcomes: seq<Outcome>, i: nat): Outcome {
    if i < |outcomes| then outcomes[i] else Outcome([], Ok, 0)
  }

  /** A successful send takes some positive part of what it was given. */
  function Taken(o: Outcome, length: nat): (n: nat)
    requires length > 0
    ensures 0 < n <= length
  {
    if 0 < o.took < length then o.took else length
  }

  /** How a flush ends: how far it got, the error code and the timer. It fails where it did not reach the end. */
  datatype Flush = Flush(reached: nat, ec: ErrorCode, timer: Timer)

  /** The flush loop at byte `at` of `end`, about to make send number `i`. */
  function Flushed(f: Flush, end: nat, outcomes: seq<Outcome>, i: nat): (f': Flush)
    requires f.reached <= end
    ensures f.reached <= f'.reached <= end
    ensures TimerOk(f.timer) ==> TimerOk(f'.timer)
    ensures f'.reached < end ==> f'.ec != Ok
    ensures f.timer.state == TimerHasExpired ==> f'.reached == f.reached
    decreases end - f.reached
  {
    if f.reached == end then f
    else if f.timer.state == TimerHasExpired then f.(ec := OperationAborted)
    else
      var o := OutcomeAt(outcomes, i);
      var timer := FiredAll(f.timer, o.events, |o.events|);
      if o.ec != Ok then Flush(f.reached, o.ec, timer)
      else Flushed(Flush(f.reached + Taken(o, end - f.reached), Ok, timer), end, outcomes, i + 1)
  }

  /** How far the first `m` sends from number `i` on get, if all succeed: each begins where the one before it stopped. */
  function Progress(at: nat, end: nat, outcomes: seq<Outcome>, i: nat, m: nat): (p: nat)
    requires at <= end
    ensures at <= p <= end
  {
    if m == 0 then at
    else
      var p := Progress(at, end, outcomes, i, m - 1);
      if p == end then p else p + Taken(OutcomeAt(outcomes, i + m - 1), end - p)
  }

  /** The timer after those sends were awaited. */
  function Awaited(t: Timer, outcomes: seq<Outcome>, i: nat, m: nat): Timer {
    if m == 0 then t
    else
      var events := OutcomeAt(outcomes, i + m - 1).events;
      FiredAll(Awaited(t, outcomes, i, m - 1), events, |events|)
  }

  lemma {:induction false} ProgressShift(at: nat, end: nat, outcomes: seq<Outcome>, i: nat, m: nat)
    requires at < end
    ensures Progress(at, end, outcomes, i, m + 1)
         == Progress(at + Taken(OutcomeAt(outcomes, i), end - at), end, outcomes, i + 1, m)
    decreases m
  {
    if m > 0 {
      ProgressShift(at, end, outcomes, i, m - 1);
    } else {
      assert Progress(at, end, outcomes, i, 0) == at;
    }
  }

  lemma {:induction false} AwaitedShift(t: Timer, outcomes: seq<Outcome>, i: nat, m: nat)
    ensures var events := OutcomeAt(outcomes, i).events;
            Awaited(t, outcomes, i, m + 1) == Awaited(FiredAll(t, events, |events|), outcomes, i + 1, m)
    decreases m
  {
    if m > 0 {
      AwaitedShift(t, outcomes, i, m - 1);
    } else {
      assert Awaited(t, outcomes, i, 0) == t;
    }
  }

  /** Why a flush stopped after `m` successful sends: it was at the end, the timer had expired, or the next send failed. */
  ghost predicate StopsAfter(f: Flush, end: nat, outcomes: seq<Outcome>, i: nat, m: nat, f': Flush)
    requires f.reached <= end
  {
    && f'.reached == Progress(f.reached, end, outcomes, i, m)
    && (forall j | i <= j < i + m :: OutcomeAt(outcomes, j).ec == Ok)
    && if f'.reached == end then
         f'.timer == Awaited(f.timer, outcomes, i, m) && f'.ec == (if m == 0 then f.ec else Ok)
       else if Awaited(f.timer, outcomes, i, m).state == TimerHasExpired then
         f'.timer == Awaited(f.timer, outcomes, i, m) && f'.ec == OperationAborted
       else
         && f'.timer == Awaited(f.timer, outcomes, i, m + 1)
         && f'.ec == OutcomeAt(outcomes, i + m).ec != Ok
  }

  lemma StopsAtOnce(f: Flush, end: nat, outcomes: seq<Outcome>, i: nat)
    requires f.reached <= end
    requires f.reached == end || f.timer.state == TimerHasExpired || OutcomeAt(outcomes, i).ec != Ok
    ensures StopsAfter(f, end, outcomes, i, 0, Flushed(f, end, outcomes, i))
  {
    assert Awaited(f.timer, outcomes, i, 0) == f.timer;
    AwaitedShift(f.timer, outcomes, i, 0);
    var events := OutcomeAt(outcomes, i).events;
    var timer := FiredAll(f.timer, events, |events|);
    assert Awaited(timer, outcomes, i + 1, 0) == timer;
  }

  /** Every flush stops after some number of successful sends, for one of these reasons and with its error code. */
  lemma {:induction false} FlushStops(f: Flush, end: nat, outcomes: seq<Outcome>, i: nat) returns (m: nat)
    requires f.reached <= end
    ensures StopsAfter(f, end, outcomes, i, m, Flushed(f, end, outcomes, i))
    decreases end - f.reached
  {
    var o := OutcomeAt(outcomes, i);
    if f.reached == end || f.timer.state == TimerHasExpired || o.ec != Ok {
      m := 0;
      StopsAtOnce(f, end, outcomes, i);
    } else {
      var next := Flush(f.reached + Taken(o, end - f.reached), Ok, FiredAll(f.timer, o.events, |o.events|));
      var n := FlushStops(next, end, outcomes, i + 1);
      m := n + 1;
      OneSendMore(f, end, outcomes, i, n);
    }
  }

  lemma OneSendMore(f: Flush, end: nat, outcomes: seq<Outcome>, i: nat, n: nat)
    requires f.reached < end && f.timer.state != TimerHasExpired && OutcomeAt(outcomes, i).ec == Ok
    requires var o := OutcomeAt(outcomes, i);
             var next := Flush(f.reached + Taken(o, end - f.reached), Ok, FiredAll(f.timer, o.events, |o.events|));
             StopsAfter(next, end, outcomes, i + 1, n, Flushed(f, end, outcomes, i))
    ensures StopsAfter(f, end, outcomes, i, n + 1, Flushed(f, end, outcomes, i))
  {
    ProgressShift(f.reached, end, outcomes, i, n);
    AwaitedShift(f.timer, outcomes, i, n);
    AwaitedShift(f.timer, outcomes, i, n + 1);
  }

  // ---------- The put area ----------

  /** One flush: which characters it sent, and whether it got to the end. */
  datatype Attempt = Attempt(start: nat, length: nat, done: bool)

  /**
   `accepted` are all characters ever handed over, `start` how many of them some
   completed flush has sent; the rest are in the put area. `sent` is what the
   network took, and `attempts` the flushes behind it.
   */
  datatype State = State(
    accepted: seq<Byte>, start: nat, sent: seq<Byte>, attempts: seq<Attempt>,
    unbuffered: bool, ec: ErrorCode, timer: Timer)

  /** A streambuf as constructed. */
  predicate New(s: State) {
    && s.accepted == [] && s.start == 0 && s.sent == [] && s.attempts == [] && !s.unbuffered
    && s.timer == Timer(NoTimer, [])
  }

  /** Characters in the put area. */
  function Waiting(s: State): int { |s.accepted| - s.start }

  predicate Shape(s: State) {
    0 <= Waiting(s) <= (if s.unbuffered then 0 else BUFFER_SIZE) && TimerOk(s.timer)
  }

  /** The flush of everything accepted. */
  function FlushOf(s: State, outcomes: seq<Outcome>): (f: Flush)
    requires Shape(s)
    ensures s.start <= f.reached <= |s.accepted| && TimerOk(f.timer)
  {
    Flushed(Flush(s.start, s.ec, s.timer), |s.accepted|, outcomes, 0)
  }

  /** The characters of an attempt. */
  function SliceOf(accepted: seq<Byte>, a: Attempt): seq<Byte> {
    if a.start + a.length <= |accepted| then Sub(accepted, a.start, a.length) else []
  }

  /** Where the attempt after this one begins: behind it if it was completed, else where it began. */
  function StartAfter(a: Attempt): nat { if a.done then a.start + a.length else a.start }

  /** The state after a flush. A failed one keeps the whole put area. */
  function AfterFlush(s: State, f: Flush): State
    requires Shape(s) && s.start <= f.reached <= |s.accepted|
  {
    var a := Attempt(s.start, f.reached - s.start, f.reached == |s.accepted|);
    s.(sent := s.sent + SliceOf(s.accepted, a), attempts := s.attempts + [a], start := StartAfter(a),
       ec := f.ec, timer := f.timer)
  }

  function Synced(s: State, outcomes: seq<Outcome>): (s': State)
    requires Shape(s)
    ensures Shape(s')
  {
    AfterFlush(s, FlushOf(s, outcomes))
  }

  function Kept(s: State, c: Byte): State { s.(accepted := s.accepted + [c]) }

  /** `overflow(c)` of a character in unbuffered mode: it is accepted if the send takes it. */
  function SentAtOnce(s: State, c: Byte, outcomes: seq<Outcome>): State
    requires Shape(s) && s.unbuffered
  {
    var n := |s.accepted|;
    var f := Flushed(Flush(n, s.ec, s.timer), n + 1, outcomes, 0);
    if f.reached == n + 1 then
      State(s.accepted + [c], n + 1, s.sent + [c], s.attempts + [Attempt(n, 1, true)], true, f.ec, f.timer)
    else s.(ec := f.ec, timer := f.timer)
  }

  /** `overflow(c)` of a character in buffered mode. */
  function Overflowing(s: State, c: Byte, outcomes: seq<Outcome>): State
    requires Shape(s) && !s.unbuffered
  {
    var s1 := Synced(s, outcomes);
    if Waiting(s1) == 0 then Kept(s1, c) else s1
  }

  // ---------- Whole runs ----------

  /** What a program may do, and the io_service between its calls. */
  datatype Call = PutChar(c: Byte) | Sync | ExpiresAt | RunTimer | Unbuffer

  /** The environment's part in one call. */
  datatype Env = Env(expired: bool, outcomes: seq<Outcome>)

  function Applied(s: State, call: Call, env: Env): (s': State)
    requires Shape(s)
    ensures Shape(s')
  {
    match call
    case PutChar(c) =>
      if s.unbuffered then SentAtOnce(s, c, env.outcomes)
      else if Waiting(s) < BUFFER_SIZE then Kept(s, c)
      else Overflowing(s, c, env.outcomes)
    case Sync => if s.unbuffered then s else Synced(s, env.outcomes)
    case ExpiresAt => s.(timer := Rescheduled(s.timer, env.expired))
    case RunTimer => s.(timer := Fired(s.timer, env.expired))
    case Unbuffer => s.(unbuffered := s.unbuffered || Waiting(s) == 0)
  }

  /** A character is refused when there is no room for it and the flush, or in unbuffered mode the send, does not finish. */
  predicate Refuses(s: State, outcomes: seq<Outcome>)
    requires Shape(s)
  {
    var n := |s.accepted|;
    if s.unbuffered then Flushed(Flush(n, s.ec, s.timer), n + 1, outcomes, 0).reached == n
    else Waiting(s) == BUFFER_SIZE && FlushOf(s, outcomes).reached < n
  }

  /** What was accepted is what was handed over, in order, but for the characters refused. */
  lemma CallAccepts(s: State, call: Call, env: Env)
    requires Shape(s)
    ensures Applied(s, call, env).accepted
         == match call
            case PutChar(c) => if Refuses(s, env.outcomes) then s.accepted else s.accepted + [c]
            case _ => s.accepted
  {
  }

  /** A call that sends nothing. */
  predicate Quiet(s: State, call: Call) {
    match call
    case PutChar(_) => !s.unbuffered && Waiting(s) < BUFFER_SIZE
    case Sync => s.unbuffered
    case _ => true
  }

  /**
   What a call leaves of the error code and the timer: what its flush or send
   ended with if it made one; else no new error, and the timer where setting it or
   one of its events puts it.
   */
  lemma CallReports(s: State, call: Call, env: Env)
    requires Shape(s)
    ensures var s', n := Applied(s, call, env), |s.accepted|;
            if Quiet(s, call) then
              && s'.ec == s.ec
              && s'.timer == match call
                             case ExpiresAt => Rescheduled(s.timer, env.expired)
                             case RunTimer => Fired(s.timer, env.expired)
                             case _ => s.timer
            else
              var f := if s.unbuffered then Flushed(Flush(n, s.ec, s.timer), n + 1, env.outcomes, 0)
                       else Flushed(Flush(s.start, s.ec, s.timer), n, env.outcomes, 0);
              s'.ec == f.ec && s'.timer == f.timer
  {
  }

  /** One call as a total function of the state. */
  function Step(s: State, call: Call, env: Env): State {
    if Shape(s) then Applied(s, call, env) else s
  }

  /** The state after the first `n` calls. */
  function After(s: State, calls: seq<Call>, envs: seq<Env>, n: nat): State
    requires n <= |calls| == |envs|
  {
    Runs.After(Step, s, calls, envs, n)
  }

  // ---------- What was sent, exactly ----------

  /** An attempt's part of what all attempts, or only the completed ones, put on the network. */
  function Share(accepted: seq<Byte>, a: Attempt, onlyDone: bool): seq<Byte> {
    if a.done || !onlyDone then SliceOf(accepted, a) else []
  }

  /** What the first `n` attempts put on the network. */
  function OnNetwork(accepted: seq<Byte>, attempts: seq<Attempt>, n: nat, onlyDone: bool): seq<Byte>
    requires n <= |attempts|
  {
    if n == 0 then [] else OnNetwork(accepted, attempts, n - 1, onlyDone) + Share(accepted, attempts[n - 1], onlyDone)
  }

  /** Where attempt number `n` begins. */
  function NextStart(attempts: seq<Attempt>, n: nat): nat
    requires n <= |attempts|
  {
    if n == 0 then 0 else StartAfter(attempts[n - 1])
  }

  /** Attempt number `i` begins behind the last completed one and stays within what was accepted. */
  predicate Follows(attempts: seq<Attempt>, i: nat, accepted: nat)
    requires i < |attempts|
  {
    attempts[i].start == NextStart(attempts, i) && attempts[i].start + attempts[i].length <= accepted
  }

  predicate InOrder(attempts: seq<Attempt>, accepted: nat) {
    forall i | 0 <= i < |attempts| :: Follows(attempts, i, accepted)
  }

  /** `sent` is one slice of the accepted characters for each attempt, and the put area begins where the next one will. */
  predicate Explained(s: State) {
    match s
    case State(accepted, start, sent, attempts, _, _, _) =>
      && InOrder(attempts, |accepted|) && start == NextStart(attempts, |attempts|)
      && sent == OnNetwork(accepted, attempts, |attempts|, false)
  }

  ghost predicate Inv(s: State) { Shape(s) && Explained(s) }

  predicate Extends<T(==)>(long: seq<T>, short: seq<T>) {
    |short| <= |long| && forall i | 0 <= i < |short| :: long[i] == short[i]
  }

  lemma ShareExtends(accepted: seq<Byte>, accepted': seq<Byte>, a: Attempt, onlyDone: bool)
    requires Extends(accepted', accepted) && a.start + a.length <= |accepted|
    ensures Share(accepted', a, onlyDone) == Share(accepted, a, onlyDone)
  {
  }

  /** Accepting more and attempting more does not change what the attempts so far sent. */
  lemma {:induction false} OnNetworkExtends(accepted: seq<Byte>, accepted': seq<Byte>, attempts: seq<Attempt>,
                                            attempts': seq<Attempt>, n: nat, onlyDone: bool)
    requires Extends(accepted', accepted) && Extends(attempts', attempts)
    requires n <= |attempts| && InOrder(attempts, |accepted|)
    ensures OnNetwork(accepted', attempts', n, onlyDone) == OnNetwork(accepted, attempts, n, onlyDone)
    decreases n
  {
    if n > 0 {
      OnNetworkExtends(accepted, accepted', attempts, attempts', n - 1, onlyDone);
      assert Follows(attempts, n - 1, |accepted|);
      assert attempts'[n - 1] == attempts[n - 1];
      ShareExtends(accepted, accepted', attempts[n - 1], onlyDone);
    }
  }

  lemma InOrderExtends(attempts: seq<Attempt>, a: Attempt, accepted: nat, accepted': nat)
    requires InOrder(attempts, accepted) && accepted <= accepted'
    requires a.start == NextStart(attempts, |attempts|) && a.start + a.length <= accepted'
    ensures InOrder(attempts + [a], accepted')
    ensures NextStart(attempts + [a], |attempts| + 1) == StartAfter(a)
  {
    forall i | 0 <= i < |attempts| + 1 ensures Follows(attempts + [a], i, accepted') {
      if i < |attempts| {
        assert Follows(attempts, i, accepted);
      }
    }
  }

  /** Accepting characters, and then an attempt from where it should begin. */
  lemma AttemptExplained(s: State, s': State, a: Attempt)
    requires Explained(s) && Extends(s'.accepted, s.accepted)
    requires a.start == s.start && a.start + a.length <= |s'.accepted|
    requires s'.attempts == s.attempts + [a] && s'.start == StartAfter(a) && s'.sent == s.sent + SliceOf(s'.accepted, a)
    ensures Explained(s')
  {
    OnNetworkExtends(s.accepted, s'.accepted, s.attempts, s'.attempts, |s.attempts|, false);
    InOrderExtends(s.attempts, a, |s.accepted|, |s'.accepted|);
  }

  lemma FlushKeeps(s: State, f: Flush)
    requires Shape(s) && Explained(s) && s.start <= f.reached <= |s.accepted|
    ensures Explained(AfterFlush(s, f))
  {
    AttemptExplained(s, AfterFlush(s, f), Attempt(s.start, f.reached - s.start, f.reached == |s.accepted|));
  }

  lemma SyncKeeps(s: State, outcomes: seq<Outcome>)
    requires Inv(s) && !s.unbuffered
    ensures Inv(Synced(s, outcomes))
  {
    FlushKeeps(s, FlushOf(s, outcomes));
  }

  lemma InOrderMore(attempts: seq<Attempt>, accepted: nat, accepted': nat)
    requires InOrder(attempts, accepted) && accepted <= accepted'
    ensures InOrder(attempts, accepted')
  {
    forall i | 0 <= i < |attempts| ensures Follows(attempts, i, accepted') {
      assert Follows(attempts, i, accepted);
    }
  }

  lemma KeepKeeps(s: State, c: Byte)
    requires Explained(s)
    ensures Explained(Kept(s, c))
  {
    OnNetworkExtends(s.accepted, s.accepted + [c], s.attempts, s.attempts, |s.attempts|, false);
    InOrderMore(s.attempts, |s.accepted|, |s.accepted| + 1);
  }

  lemma SendAtOnceKeeps(s: State, c: Byte, outcomes: seq<Outcome>)
    requires Inv(s) && s.unbuffered
    ensures Inv(SentAtOnce(s, c, outcomes))
  {
    var s', a := SentAtOnce(s, c, outcomes), Attempt(|s.accepted|, 1, true);
    if s'.accepted == s.accepted + [c] {
      assert SliceOf(s'.accepted, a) == [c];
      AttemptExplained(s, s', a);
    }
  }

  /** Whatever the call and whatever the environment does, what was sent stays explained and one timer handler is owed if pending. */
  lemma CallKeeps(s: State, call: Call, env: Env)
    requires Inv(s)
    ensures Inv(Applied(s, call, env))
  {
    match call
    case PutChar(c) =>
      if s.unbuffered {
        SendAtOnceKeeps(s, c, env.outcomes);
      } else if Waiting(s) < BUFFER_SIZE {
        KeepKeeps(s, c);
      } else {
        SyncKeeps(s, env.outcomes);
        KeepKeeps(Synced(s, env.outcomes), c);
      }
    case Sync =>
      if !s.unbuffered {
        SyncKeeps(s, env.outcomes);
      }
    case _ =>
  }

  lemma StepsKeep()
    ensures Runs.Keeps(Step, Inv)
  {
    forall s: State, call: Call, env: Env | Inv(s) ensures Inv(Step(s, call, env)) {
      CallKeeps(s, call, env);
    }
  }

  /** So it is after any calls in any environment. */
  lemma RunKeeps(s: State, calls: seq<Call>, envs: seq<Env>, n: nat)
    requires Inv(s) && n <= |calls| == |envs|
    ensures Inv(After(s, calls, envs, n))
  {
    StepsKeep();
    Runs.RunKeeps(Step, Inv, s, calls, envs, n);
  }

  /** Leaving out what failed flushes sent, every flushed character went out once, in order. */
  lemma {:induction false} DoneInOrder(accepted: seq<Byte>, attempts: seq<Attempt>, n: nat)
    requires n <= |attempts| && InOrder(attempts, |accepted|)
    ensures NextStart(attempts, n) <= |accepted|
    ensures OnNetwork(accepted, attempts, n, true) == Sub(accepted, 0, NextStart(attempts, n))
    decreases n
  {
    if n > 0 {
      DoneInOrder(accepted, attempts, n - 1);
      var a := attempts[n - 1];
      assert Follows(attempts, n - 1, |accepted|);
      SubSplit(accepted, 0, a.start, a.length);
    }
  }

  // ---------- When what was sent and the put area are what was accepted ----------

  /** The network has exactly the flushed characters, so that with the put area behind them they are all that was accepted. */
  predicate Exact(s: State) {
    match s
    case State(accepted, start, sent, _, _, _, _) => start <= |accepted| && sent == Sub(accepted, 0, start)
  }

  /** Exactness is what a reader of the connection needs: the bytes sent, followed by the put area, are those accepted. */
  lemma ExactMeansAccepted(s: State)
    requires Shape(s)
    ensures Exact(s) <==> s.sent + Sub(s.accepted, s.start, Waiting(s)) == s.accepted
  {
    SubSplit(s.accepted, 0, s.start, Waiting(s));
    var rest := Sub(s.accepted, s.start, Waiting(s));
    assert Sub(s.accepted, 0, |s.accepted|) == s.accepted;
    if s.sent + rest == s.accepted {
      assert |s.sent| == s.start;
      forall k | 0 <= k < s.start ensures s.sent[k] == s.accepted[k] {
        assert (s.sent + rest)[k] == s.sent[k];
      }
    }
  }

  /** A failed flush, and then one that succeeds: the characters of the first go out a second time. */
  lemma RetrySendsAgain(s: State, first: seq<Outcome>, second: seq<Outcome>)
    requires Inv(s) && !s.unbuffered
    requires FlushOf(s, first).reached < |s.accepted|
    requires FlushOf(Synced(s, first), second).reached == |s.accepted|
    ensures var k, area := FlushOf(s, first).reached - s.start, Sub(s.accepted, s.start, Waiting(s));
            Synced(Synced(s, first), second).sent == s.sent + area[..k] + area
  {
    var k, area := FlushOf(s, first).reached - s.start, Sub(s.accepted, s.start, Waiting(s));
    assert Sub(s.accepted, s.start, k) == area[..k];
  }

  /** The put area may go out in part: a flush of two or more characters with the timer not expired. */
  predicate Risky(s: State, call: Call) {
    && !s.unbuffered && s.timer.state != TimerHasExpired
    && match call
       case PutChar(_) => Waiting(s) >= BUFFER_SIZE
       case Sync => Waiting(s) >= 2
       case _ => false
  }

  lemma SyncExact(s: State, outcomes: seq<Outcome>)
    requires Inv(s) && !s.unbuffered && Exact(s)
    requires Waiting(s) <= 1 || s.timer.state == TimerHasExpired
    ensures Inv(Synced(s, outcomes)) && Exact(Synced(s, outcomes))
  {
    SyncKeeps(s, outcomes);
    var f := FlushOf(s, outcomes);
    SubSplit(s.accepted, 0, s.start, f.reached - s.start);
    if f.reached == s.start {
      assert Sub(s.accepted, s.start, 0) == [];
      assert s.sent + [] == s.sent;
    }
  }

  /** A call that is not risky keeps exactness in every environment. */
  lemma SafeCallExact(s: State, call: Call, env: Env)
    requires Inv(s) && Exact(s) && !Risky(s, call)
    ensures Inv(Applied(s, call, env)) && Exact(Applied(s, call, env))
  {
    CallKeeps(s, call, env);
    match call
    case PutChar(c) =>
      if s.unbuffered || Waiting(s) < BUFFER_SIZE {
        assert Sub(s.accepted + [c], 0, s.start) == Sub(s.accepted, 0, s.start);
        assert s.unbuffered ==> Sub(s.accepted + [c], 0, s.start + 1) == Sub(s.accepted, 0, s.start) + [c];
      } else {
        SyncExact(s, env.outcomes);
        var s1 := Synced(s, env.outcomes);
        assert Sub(s1.accepted + [c], 0, s1.start) == Sub(s1.accepted, 0, s1.start);
      }
    case Sync =>
      if !s.unbuffered {
        SyncExact(s, env.outcomes);
      }
    case _ =>
  }

  /** An environment that takes one character and then fails. */
  const BREAKING := Env(false, [Outcome([], Ok, 1), Outcome([], SendError, 0)])

  lemma SendOne(f: Flush, end: nat, outcomes: seq<Outcome>, i: nat)
    requires f.reached + 2 <= end && f.timer.state != TimerHasExpired && OutcomeAt(outcomes, i) == Outcome([], Ok, 1)
    ensures Flushed(f, end, outcomes, i) == Flushed(Flush(f.reached + 1, Ok, f.timer), end, outcomes, i + 1)
  {
  }

  lemma SendNone(f: Flush, end: nat, outcomes: seq<Outcome>, i: nat)
    requires f.reached < end && f.timer.state != TimerHasExpired && OutcomeAt(outcomes, i) == Outcome([], SendError, 0)
    ensures Flushed(f, end, outcomes, i) == Flush(f.reached, SendError, f.timer)
  {
  }

  lemma BreakingFlush(s: State)
    requires Shape(s) && s.timer.state != TimerHasExpired && Waiting(s) >= 2
    ensures FlushOf(s, BREAKING.outcomes) == Flush(s.start + 1, SendError, s.timer)
  {
    SendOne(Flush(s.start, s.ec, s.timer), |s.accepted|, BREAKING.outcomes, 0);
    SendNone(Flush(s.start + 1, Ok, s.timer), |s.accepted|, BREAKING.outcomes, 1);
  }

  /** A risky call breaks exactness in that environment. */
  lemma RiskyCallBreaks(s: State, call: Call)
    requires Inv(s) && Risky(s, call)
    ensures Inv(Applied(s, call, BREAKING))
    ensures Exact(s) ==> !Exact(Applied(s, call, BREAKING))
  {
    CallKeeps(s, call, BREAKING);
    BreakingFlush(s);
    assert |Applied(s, call, BREAKING).sent| == |s.sent| + 1;
  }

  /** From an exact state, a call keeps exactness in every environment if and only if it is not risky. */
  lemma CallExactIff(s: State, call: Call)
    requires Inv(s) && Exact(s)
    ensures (forall env: Env :: Inv(Applied(s, call, env)) && Exact(Applied(s, call, env))) <==> !Risky(s, call)
  {
    if Risky(s, call) {
      RiskyCallBreaks(s, call);
    } else {
      forall env: Env ensures Inv(Applied(s, call, env)) && Exact(Applied(s, call, env)) {
        SafeCallExact(s, call, env);
      }
    }
  }

  /** Bytes on the network beyond those of completed flushes never go away again. */
  lemma SurplusStays(s: State, call: Call, env: Env)
    requires Inv(s)
    ensures var s' := Applied(s, call, env); |s'.sent| - s'.start >= |s.sent| - s.start
  {
  }

  lemma {:induction false} SurplusNonnegative(accepted: seq<Byte>, attempts: seq<Attempt>, n: nat)
    requires n <= |attempts| && InOrder(attempts, |accepted|)
    ensures |OnNetwork(accepted, attempts, n, false)| >= |OnNetwork(accepted, attempts, n, true)|
    ensures |OnNetwork(accepted, attempts, n, false)| == |OnNetwork(accepted, attempts, n, true)|
        ==> OnNetwork(accepted, attempts, n, false) == OnNetwork(accepted, attempts, n, true)
    decreases n
  {
    if n > 0 {
      SurplusNonnegative(accepted, attempts, n - 1);
    }
  }

  /** So an inexact state has more bytes on the network than flushed characters. */
  lemma InexactMeansSurplus(s: State)
    requires Inv(s)
    ensures |s.sent| >= s.start && (Exact(s) <==> |s.sent| == s.start)
  {
    SurplusNonnegative(s.accepted, s.attempts, |s.attempts|);
    DoneInOrder(s.accepted, s.attempts, |s.attempts|);
  }

  /** Once the network has other bytes than the flushed characters, it always will. */
  lemma CallStaysInexact(s: State, call: Call, env: Env)
    requires Inv(s) && !Exact(s)
    ensures Inv(Applied(s, call, env)) && !Exact(Applied(s, call, env))
  {
    CallKeeps(s, call, env);
    InexactMeansSurplus(s);
    SurplusStays(s, call, env);
    InexactMeansSurplus(Applied(s, call, env));
  }

  lemma NewIsExact(s: State)
    requires New(s)
    ensures Inv(s) && Exact(s)
  {
  }

  // ---------- The object ----------

  /** The characters between `pbase` and `pptr` are the last ones accepted. */
  ghost predicate Holds(putBuffer: array<Byte>, pptr: nat, accepted: seq<Byte>)
    requires pptr <= putBuffer.Length && pptr <= |accepted|
    reads putBuffer
  {
    forall i {:trigger putBuffer[i]} | 0 <= i < pptr :: putBuffer[i] == accepted[|accepted| - pptr + i]
  }

  lemma SliceInPutArea(putBuffer: array<Byte>, pptr: nat, accepted: seq<Byte>, a: Attempt)
    requires pptr <= putBuffer.Length && pptr <= |accepted| && Holds(putBuffer, pptr, accepted)
    requires a.start == |accepted| - pptr && a.length <= pptr
    ensures SliceOf(accepted, a) == Sub(Sub(putBuffer[..], 0, pptr), 0, a.length)
  {
  }

  lemma NothingYet(sent: seq<Byte>, data: seq<Byte>)
    ensures sent == sent + Sub(data, 0, 0)
  {
  }

  lemma Appended(first: seq<Byte>, before: seq<Byte>, data: seq<Byte>, at: nat, n: nat)
    requires at + n <= |data| && before == first + Sub(data, 0, at)
    ensures before + Sub(data, at, n) == first + Sub(data, 0, at + n)
  {
    SubSplit(data, 0, at, n);
  }

  lemma IsAfterFlush(s: State, f: Flush, s': State)
    requires Shape(s) && s.start <= f.reached <= |s.accepted|
    requires var a := Attempt(s.start, f.reached - s.start, f.reached == |s.accepted|);
             && s'.sent == s.sent + SliceOf(s.accepted, a) && s'.attempts == s.attempts + [a] && s'.start == StartAfter(a)
             && s'.accepted == s.accepted && s'.unbuffered == s.unbuffered && s'.ec == f.ec && s'.timer == f.timer
    ensures s' == AfterFlush(s, f)
  {
  }

  class SocketStreambuf {
    var putBuffer: array<Byte>
    var pptr: nat
    var unbuffered: bool
    var ec: ErrorCode
    var bytesTransferred: nat
    var timerState: TimerState
    // The timer handlers the io_service owes.
    var owed: seq<Handler>
    // History.
    ghost var accepted: seq<Byte>
    ghost var start: nat
    ghost var sent: seq<Byte>
    ghost var attempts: seq<Attempt>

    ghost predicate Valid()
      reads this, putBuffer
    {
      && putBuffer.Length == BUFFER_SIZE && start + pptr == |accepted|
      && pptr <= (if unbuffered then 0 else BUFFER_SIZE) && TimerOk(TimerNow())
      && Holds(putBuffer, pptr, accepted)
    }

    function TimerNow(): Timer
      reads this
    {
      Timer(timerState, owed)
    }

    ghost function Now(): State
      reads this
    {
      State(accepted, start, sent, attempts, unbuffered, ec, TimerNow())
    }

    constructor ()
      ensures Valid() && New(Now()) && fresh(putBuffer)
    {
      putBuffer := new Byte[BUFFER_SIZE](_ => 0);
      pptr, unbuffered, ec, bytesTransferred := 0, false, Ok, 0;
      timerState, owed := NoTimer, [];
      accepted, start, sent, attempts := [], 0, [], [];
    }

    /** `timer_handler::operator()`. Closing the socket is left to the environment. */
    method TimerHandler(expired: bool)
      modifies `timerState, `owed
      ensures TimerNow() == Handled(old(TimerNow()), expired)
    {
      if !expired {
        timerState := TimerIsPending;
        owed := owed + [Elapsing];
      } else {
        timerState := TimerHasExpired;
      }
    }

    method ExpiresAtTime(expired: bool)
      modifies `timerState, `owed
      ensures TimerNow() == Rescheduled(old(TimerNow()), expired)
    {
      owed := seq(|owed|, _ => Runnable);
      if timerState != TimerIsPending {
        TimerHandler(expired);
      }
    }

    method TimerEvent(expired: bool)
      modifies `timerState, `owed
      ensures TimerNow() == Fired(old(TimerNow()), expired)
    {
      if |owed| > 0 {
        if owed[0] == Elapsing {
          owed := owed[0 := Runnable];
        } else {
          owed := owed[1..];
          TimerHandler(expired);
        }
      }
    }

    /** `async_send` of what `data` holds from `at` on, then `run_one` until it has completed; the network gets what the send takes. */
    method Send(o: Outcome, data: seq<Byte>, at: nat)
      requires at < |data|
      modifies `ec, `bytesTransferred, `timerState, `owed, `sent
      ensures TimerNow() == FiredAll(old(TimerNow()), o.events, |o.events|)
      ensures ec == o.ec && bytesTransferred == Taken(o, |data| - at)
      ensures sent == if ec == Ok then old(sent) + Sub(data, at, bytesTransferred) else old(sent)
    {
      for i := 0 to |o.events|
        invariant TimerNow() == FiredAll(old(TimerNow()), o.events, i) && sent == old(sent)
      {
        TimerEvent(o.events[i]);
      }
      ec, bytesTransferred := o.ec, Taken(o, |data| - at);
      if ec == Ok {
        sent := sent + Sub(data, at, bytesTransferred);
      }
    }

    /** A send that goes on where the ones before it stopped. */
    method SendNext(o: Outcome, data: seq<Byte>, at: nat, ghost first: seq<Byte>)
      requires at < |data| && sent == first + Sub(data, 0, at)
      modifies `ec, `bytesTransferred, `timerState, `owed, `sent
      ensures TimerNow() == FiredAll(old(TimerNow()), o.events, |o.events|)
      ensures ec == o.ec && bytesTransferred == Taken(o, |data| - at)
      ensures sent == first + Sub(data, 0, if ec == Ok then at + bytesTransferred else at)
    {
      ghost var before := sent;
      Send(o, data, at);
      if ec == Ok {
        Appended(first, before, data, at, bytesTransferred);
      }
    }

    /** The flush loop over `data`, which begins at character `from`; returns how many of its bytes went out, one after the other. */
    method SendAll(outcomes: seq<Outcome>, ghost from: nat, data: seq<Byte>) returns (at: nat)
      modifies `ec, `bytesTransferred, `timerState, `owed, `sent
      ensures at <= |data| && sent == old(sent) + Sub(data, 0, at)
      ensures Flush(from + at, ec, TimerNow())
           == Flushed(Flush(from, old(ec), old(TimerNow())), from + |data|, outcomes, 0)
    {
      at := 0;
      var i := 0;
      NothingYet(sent, data);
      while at < |data|
        invariant at <= |data| && sent == old(sent) + Sub(data, 0, at)
        invariant Flushed(Flush(from + at, ec, TimerNow()), from + |data|, outcomes, i)
               == Flushed(Flush(from, old(ec), old(TimerNow())), from + |data|, outcomes, 0)
      {
        if timerState == TimerHasExpired {
          ec := OperationAborted;
          return;
        }
        SendNext(OutcomeAt(outcomes, i), data, at, old(sent));
        if ec != Ok {
          return;
        }
        at := at + bytesTransferred;
        i := i + 1;
      }
    }

    /** Sends the put area as far as it will go. */
    method SendPutArea(outcomes: seq<Outcome>) returns (at: nat)
      requires Valid() && !unbuffered
      modifies `ec, `bytesTransferred, `timerState, `owed, `sent
      ensures at <= pptr && Flush(start + at, ec, TimerNow()) == FlushOf(old(Now()), outcomes)
      ensures sent == old(sent) + SliceOf(accepted, Attempt(start, at, at == pptr))
    {
      at := SendAll(outcomes, start, Sub(putBuffer[..], 0, pptr));
      SliceInPutArea(putBuffer, pptr, accepted, Attempt(start, at, at == pptr));
    }

    /** Sends the put area and records the attempt. */
    method Attempted(outcomes: seq<Outcome>) returns (ok: bool)
      requires Valid() && !unbuffered
      modifies `ec, `bytesTransferred, `timerState, `owed, `sent, `attempts, `start
      ensures Now() == Synced(old(Now()), outcomes)
      ensures start == if ok then old(start) + pptr else old(start)
      ensures pptr == 0 ==> ok
    {
      ghost var before := Now();
      var at := SendPutArea(outcomes);
      ghost var f := Flush(start + at, ec, TimerNow());
      ok := at == pptr;
      attempts := attempts + [Attempt(start, at, ok)];
      start := if ok then start + at else start;
      assert FlushOf(before, outcomes) == f;
      IsAfterFlush(before, f, Now());
    }

    /** `overflow(eof)` in buffered mode: sends the put area, and empties it if all of it went out. */
    method FlushPutArea(outcomes: seq<Outcome>) returns (ok: bool)
      requires Valid() && !unbuffered
      modifies `ec, `bytesTransferred, `timerState, `owed, `sent, `attempts, `start, `pptr
      ensures Valid() && Now() == Synced(old(Now()), outcomes)
      ensures ok <==> pptr == 0
    {
      ok := Attempted(outcomes);
      if ok {
        pptr := 0;
      }
    }

    /** `*pptr() = c; pbump(1)`. */
    method Keep(c: Byte)
      requires Valid() && pptr < BUFFER_SIZE && !unbuffered
      modifies `pptr, `accepted, putBuffer
      ensures Valid() && putBuffer == old(putBuffer) && Now() == Kept(old(Now()), c)
    {
      putBuffer[pptr] := c;
      pptr := pptr + 1;
      accepted := accepted + [c];
    }

    /** `overflow(c)` of a character, in either mode. */
    method Overflow(c: Byte, outcomes: seq<Outcome>) returns (r: Overflowed)
      requires Valid() && (unbuffered || pptr == BUFFER_SIZE)
      modifies this, putBuffer
      ensures Valid() && putBuffer == old(putBuffer)
      ensures Now() == if old(unbuffered) then SentAtOnce(old(Now()), c, outcomes) else Overflowing(old(Now()), c, outcomes)
      ensures r == if |accepted| > |old(accepted)| then Put(c) else Failed
    {
      if unbuffered {
        var ok := OverflowUnbuffered(c, outcomes);
        r := if ok then Put(c) else Failed;
      } else {
        var ok := FlushPutArea(outcomes);
        if ok {
          Keep(c);
        }
        r := if ok then Put(c) else Failed;
      }
    }

    /** `overflow(c)` in unbuffered mode: the character is sent at once. */
    method OverflowUnbuffered(c: Byte, outcomes: seq<Outcome>) returns (ok: bool)
      requires Valid() && unbuffered
      modifies this
      ensures Valid() && putBuffer == old(putBuffer) && Now() == SentAtOnce(old(Now()), c, outcomes)
      ensures ok <==> |accepted| > |old(accepted)|
    {
      ghost var n := |accepted|;
      var at := SendAll(outcomes, n, [c]);
      ok := at == 1;
      assert Sub([c], 0, at) == if ok then [c] else [];
      if ok {
        accepted, attempts := accepted + [c], attempts + [Attempt(n, 1, true)];
        start := n + 1;
      }
    }

    /** One call of the program, or one of the io_service. */
    method Perform(call: Call, env: Env)
      requires Valid()
      modifies this, putBuffer
      ensures Valid() && putBuffer == old(putBuffer) && Now() == Applied(old(Now()), call, env)
    {
      match call
      case PutChar(c) =>
        if !unbuffered && pptr < BUFFER_SIZE {
          Keep(c);
        } else {
          var r := Overflow(c, env.outcomes);
        }
      case Sync =>
        if !unbuffered {
          var ok := FlushPutArea(env.outcomes);
        }
      case ExpiresAt => ExpiresAtTime(env.expired);
      case RunTimer => TimerEvent(env.expired);
      case Unbuffer =>
        if pptr == 0 {
          unbuffered := true;
        }
    }
  }

  /** Any calls in any environment: the object is in the state the run says, and what it sent is explained. */
  method Replay(sb: SocketStreambuf, calls: seq<Call>, envs: seq<Env>)
    requires sb.Valid() && Inv(sb.Now()) && |calls| == |envs|
    modifies sb, sb.putBuffer
    ensures sb.Valid() && Inv(sb.Now()) && sb.Now() == After(old(sb.Now()), calls, envs, |calls|)
  {
    ghost var s := sb.Now();
    for i := 0 to |calls|
      invariant sb.Valid() && sb.putBuffer == old(sb.putBuffer) && sb.Now() == After(s, calls, envs, i)
    {
      sb.Perform(calls[i], envs[i]);
    }
    RunKeeps(s, calls, envs, |calls|);
  }
}
