/**
 What a program that writes to a `basic_socket_streambuf` can rely on, worked out
 from its calls alone.

 A plan follows the calls as if no send ever succeeded. It counts the risky ones,
 that flush two or more characters. One is enough for some environment to leave
 the connection with other bytes than were accepted; two, for one to send a
 character twice.
 */
module SocketStreambufRuns {
  import opened Bytes
  import opened SocketStreambufs
  import Runs

  /** Characters waiting if none was ever sent, the mode, whether the timer has expired for good, and the risky calls so far. */
  datatype Plan = Plan(count: nat, unbuffered: bool, expired: bool, risks: nat)

  function PlanOf(s: State): Plan
    requires Shape(s)
  {
    Plan(Waiting(s), s.unbuffered, s.timer.state == TimerHasExpired, 0)
  }

  /** A flush of two or more characters. */
  predicate RiskyPlan(p: Plan, call: Call) {
    && !p.unbuffered && !p.expired
    && match call
       case PutChar(_) => p.count >= BUFFER_SIZE
       case Sync => p.count >= 2
       case _ => false
  }

  function PlanStep(p: Plan, call: Call): Plan {
    var p1 := p.(risks := p.risks + if RiskyPlan(p, call) then 1 else 0);
    match call
    case PutChar(_) => if p.unbuffered || p.count >= BUFFER_SIZE then p1 else p1.(count := p.count + 1)
    case Sync => p1
    case ExpiresAt => p1.(expired := false)
    case RunTimer => p1
    case Unbuffer => p1.(unbuffered := p.unbuffered || p.count == 0)
  }

  /** The risky calls of a list. */
  function Risks(s: State, calls: seq<Call>): nat
    requires Shape(s)
  {
    Runs.Planned(PlanStep, PlanOf(s), calls, |calls|).risks
  }

  predicate Any(env: Env) { true }

  // ---------- No environment is worse than the plan ----------

  ghost predicate Dominates(p: Plan, s: State) {
    match p
    case Plan(count, unbuffered, expired, _) =>
      && Waiting(s) <= count && (unbuffered ==> s.unbuffered) && (expired ==> s.timer.state == TimerHasExpired)
  }

  lemma FlushedExpired(f: Flush, end: nat, outcomes: seq<Outcome>)
    requires f.reached <= end && f.timer.state == TimerHasExpired
    ensures Flushed(f, end, outcomes, 0).timer == f.timer && Flushed(f, end, outcomes, 0).reached == f.reached
  {
  }

  lemma DominatesStep(p: Plan, s: State, call: Call, env: Env)
    requires Shape(s) && Dominates(p, s)
    ensures Dominates(PlanStep(p, call), Applied(s, call, env))
    ensures Risky(s, call) ==> RiskyPlan(p, call)
  {
    if s.timer.state == TimerHasExpired {
      FlushedExpired(Flush(s.start, s.ec, s.timer), |s.accepted|, env.outcomes);
      FlushedExpired(Flush(|s.accepted|, s.ec, s.timer), |s.accepted| + 1, env.outcomes);
    }
  }

  /** While no call was risky, the state is exact. */
  ghost predicate SafeSoFar(s: State, p: Plan) {
    Inv(s) && Dominates(p, s) && (p.risks == 0 ==> Exact(s))
  }

  lemma SafeSoFarStep(s: State, p: Plan, call: Call, env: Env)
    requires SafeSoFar(s, p)
    ensures SafeSoFar(Step(s, call, env), PlanStep(p, call))
  {
    CallKeeps(s, call, env);
    DominatesStep(p, s, call, env);
    if PlanStep(p, call).risks == 0 {
      SafeCallExact(s, call, env);
    }
  }

  // ---------- Characters sent twice ----------

  /** The attempt sent character `k`. */
  predicate Has(a: Attempt, k: nat) { a.start <= k < a.start + a.length }

  /** One of the first `n` attempts sent character `k`. */
  predicate SentBy(attempts: seq<Attempt>, n: nat, k: nat)
    requires n <= |attempts|
  {
    exists i | 0 <= i < n :: Has(attempts[i], k)
  }

  /** Some character was sent by two attempts. */
  ghost predicate Twice(s: State) {
    exists j: nat, k: nat | j < |s.attempts| && Has(s.attempts[j], k) :: SentBy(s.attempts, j, k)
  }

  /** A character that is still in the put area was sent. */
  ghost predicate Pending(s: State) {
    exists k: nat | s.start <= k :: SentBy(s.attempts, |s.attempts|, k)
  }

  /** An attempt ends before the put area or, having failed, short of its end. */
  predicate EndsWell(a: Attempt, s: State) {
    a.start + a.length <= s.start || a.start + a.length < |s.accepted|
  }

  predicate Ends(s: State) {
    forall i | 0 <= i < |s.attempts| :: EndsWell(s.attempts[i], s)
  }

  /** What one more attempt adds. */
  lemma AttemptAdds(s: State, s': State, a: Attempt)
    requires Ends(s) && |s.accepted| <= |s'.accepted| && s.start <= |s.accepted|
    requires s'.attempts == s.attempts + [a] && a.start == s.start && s'.start == StartAfter(a)
    requires if a.done then a.start + a.length == |s'.accepted| else a.start + a.length < |s'.accepted|
    ensures Ends(s')
    ensures Pending(s') ==> Pending(s) || (!a.done && a.length > 0)
    ensures Twice(s') ==> Twice(s) || (Pending(s) && a.length > 0)
  {
    var n := |s.attempts|;
    forall i | 0 <= i < n + 1 ensures EndsWell(s'.attempts[i], s') {
      if i < n {
        assert EndsWell(s.attempts[i], s);
      }
    }
    if Pending(s') {
      PendingAdds(s, s', a);
    }
    if Twice(s') {
      TwiceAdds(s, s', a);
    }
  }

  lemma SentByFirst(s: State, s': State, a: Attempt, n: nat, k: nat)
    requires s'.attempts == s.attempts + [a] && n <= |s.attempts|
    ensures SentBy(s'.attempts, n, k) <==> SentBy(s.attempts, n, k)
  {
    if SentBy(s'.attempts, n, k) {
      var i :| 0 <= i < n && Has(s'.attempts[i], k);
      assert Has(s.attempts[i], k);
    }
    if SentBy(s.attempts, n, k) {
      var i :| 0 <= i < n && Has(s.attempts[i], k);
      assert Has(s'.attempts[i], k);
    }
  }

  lemma PendingAdds(s: State, s': State, a: Attempt)
    requires Ends(s) && |s.accepted| <= |s'.accepted| && s.start <= |s.accepted|
    requires s'.attempts == s.attempts + [a] && a.start == s.start && s'.start == StartAfter(a)
    requires if a.done then a.start + a.length == |s'.accepted| else a.start + a.length < |s'.accepted|
    requires Pending(s')
    ensures Pending(s) || (!a.done && a.length > 0)
  {
    var k: nat :| s'.start <= k && SentBy(s'.attempts, |s'.attempts|, k);
    var i :| 0 <= i < |s'.attempts| && Has(s'.attempts[i], k);
    if i < |s.attempts| {
      assert EndsWell(s.attempts[i], s);
      assert Has(s.attempts[i], k) && SentBy(s.attempts, |s.attempts|, k);
    }
  }

  lemma TwiceAdds(s: State, s': State, a: Attempt)
    requires s'.attempts == s.attempts + [a] && a.start == s.start && Twice(s')
    ensures Twice(s) || (Pending(s) && a.length > 0)
  {
    var j: nat, k: nat :| j < |s'.attempts| && Has(s'.attempts[j], k) && SentBy(s'.attempts, j, k);
    SentByFirst(s, s', a, j, k);
    if j < |s.attempts| {
      assert Has(s.attempts[j], k);
    }
  }

  /** Where a waiting character was sent, at least two are waiting. */
  lemma PendingMeansTwo(s: State)
    requires Ends(s) && Pending(s)
    ensures Waiting(s) >= 2
  {
    var k: nat :| s.start <= k && SentBy(s.attempts, |s.attempts|, k);
    var i :| 0 <= i < |s.attempts| && Has(s.attempts[i], k);
    assert EndsWell(s.attempts[i], s);
  }

  lemma KeptAdds(s: State, c: Byte)
    requires Ends(s)
    ensures Ends(Kept(s, c)) && (Pending(Kept(s, c)) ==> Pending(s)) && (Twice(Kept(s, c)) ==> Twice(s))
  {
    forall i | 0 <= i < |s.attempts| ensures EndsWell(s.attempts[i], Kept(s, c)) {
      assert EndsWell(s.attempts[i], s);
    }
  }

  /** A flush can send two or more characters. */
  predicate FlushIsRisky(s: State) { s.timer.state != TimerHasExpired && Waiting(s) >= 2 }

  lemma SyncAdds(s: State, outcomes: seq<Outcome>)
    requires Shape(s) && Ends(s)
    ensures var s' := Synced(s, outcomes);
            && Ends(s') && (Pending(s') ==> Pending(s) || FlushIsRisky(s))
            && (Twice(s') ==> Twice(s) || (Pending(s) && FlushIsRisky(s)))
  {
    var f := FlushOf(s, outcomes);
    AttemptAdds(s, Synced(s, outcomes), Attempt(s.start, f.reached - s.start, f.reached == |s.accepted|));
    if Pending(s) {
      PendingMeansTwo(s);
    }
  }

  lemma SendAtOnceAdds(s: State, c: Byte, outcomes: seq<Outcome>)
    requires Shape(s) && s.unbuffered && Ends(s)
    ensures var s' := SentAtOnce(s, c, outcomes);
            Ends(s') && (Pending(s') ==> Pending(s)) && (Twice(s') ==> Twice(s))
  {
    var s' := SentAtOnce(s, c, outcomes);
    if Pending(s) {
      PendingMeansTwo(s);
    }
    if s'.attempts != s.attempts {
      AttemptAdds(s, s', Attempt(|s.accepted|, 1, true));
    } else {
      SameSent(s, s');
    }
  }

  lemma SameSent(s: State, s': State)
    requires Ends(s) && s'.attempts == s.attempts && s'.start == s.start && s'.accepted == s.accepted
    ensures Ends(s') && (Pending(s') ==> Pending(s)) && (Twice(s') ==> Twice(s))
  {
    forall i | 0 <= i < |s.attempts| ensures EndsWell(s.attempts[i], s') {
      assert EndsWell(s.attempts[i], s);
    }
  }

  /** A call sends a waiting character, or one again, only if it is risky. */
  lemma CallAdds(s: State, call: Call, env: Env)
    requires Shape(s) && Ends(s)
    ensures var s' := Applied(s, call, env);
            && Ends(s') && (Pending(s') ==> Pending(s) || Risky(s, call))
            && (Twice(s') ==> Twice(s) || (Pending(s) && Risky(s, call)))
  {
    match call
    case PutChar(c) =>
      if s.unbuffered {
        SendAtOnceAdds(s, c, env.outcomes);
      } else if Waiting(s) < BUFFER_SIZE {
        KeptAdds(s, c);
      } else {
        SyncAdds(s, env.outcomes);
        KeptAdds(Synced(s, env.outcomes), c);
      }
    case Sync =>
      if !s.unbuffered {
        SyncAdds(s, env.outcomes);
      }
    case _ => SameSent(s, Applied(s, call, env));
  }

  /** A waiting character was sent only after a risky call, one was sent again only after two. */
  ghost predicate Accounted(s: State, p: Plan) {
    Inv(s) && Ends(s) && Dominates(p, s) && (Pending(s) ==> p.risks >= 1) && (Twice(s) ==> p.risks >= 2)
  }

  lemma AccountedStep(s: State, p: Plan, call: Call, env: Env)
    requires Accounted(s, p)
    ensures Accounted(Step(s, call, env), PlanStep(p, call))
  {
    CallKeeps(s, call, env);
    DominatesStep(p, s, call, env);
    CallAdds(s, call, env);
  }

  // ---------- An environment as bad as the plan ----------

  /** No send succeeds, and the timer never expires. */
  const FAILING := Env(false, [Outcome([], SendError, 0)])

  /** One character goes out in every risky call, and nothing else ever does. */
  function Adversary(p: Plan, call: Call): Env {
    if RiskyPlan(p, call) then BREAKING else FAILING
  }

  /** In that environment everything is as planned, and every risky call has sent character `base` once. */
  ghost predicate AsPlanned(s: State, p: Plan, base: nat) {
    && Inv(s) && s.start == base && PlanOf(s) == p.(risks := 0)
    && |s.sent| >= base + p.risks
    && (p.risks >= 1 ==> SentBy(s.attempts, |s.attempts|, base))
    && (p.risks >= 2 ==> Twice(s))
  }

  /** A flush that fails at once, or has nothing to send. */
  lemma FailingFlush(s: State)
    requires Shape(s)
    ensures FlushOf(s, FAILING.outcomes).reached == s.start
    ensures FlushOf(s, FAILING.outcomes).timer == s.timer
  {
    if Waiting(s) > 0 && s.timer.state != TimerHasExpired {
      SendNone(Flush(s.start, s.ec, s.timer), |s.accepted|, FAILING.outcomes, 0);
    }
  }

  lemma MoreAttempts(s: State, s': State, a: Attempt, base: nat)
    requires s'.attempts == s.attempts + [a]
    ensures SentBy(s.attempts, |s.attempts|, base) ==> SentBy(s'.attempts, |s'.attempts|, base)
    ensures Has(a, base) ==> SentBy(s'.attempts, |s'.attempts|, base)
    ensures Twice(s) || (SentBy(s.attempts, |s.attempts|, base) && Has(a, base)) ==> Twice(s')
  {
    var n := |s.attempts|;
    SentByFirst(s, s', a, n, base);
    if SentBy(s.attempts, n, base) {
      var i :| 0 <= i < n && Has(s'.attempts[i], base);
      assert Has(s'.attempts[i], base);
    }
    if Has(a, base) {
      assert Has(s'.attempts[n], base);
    }
    if Twice(s) {
      var j: nat, k: nat :| j < n && Has(s.attempts[j], k) && SentBy(s.attempts, j, k);
      SentByFirst(s, s', a, j, k);
      assert Has(s'.attempts[j], k);
    }
  }

  /** A flush in the adversary's environment: one character more if it is risky, else nothing. */
  lemma FlushAsPlanned(s: State, p: Plan, base: nat)
    requires AsPlanned(s, p, base) && !p.unbuffered
    ensures var risky := FlushIsRisky(s);
            var s' := Synced(s, if risky then BREAKING.outcomes else FAILING.outcomes);
            AsPlanned(s', p.(risks := p.risks + if risky then 1 else 0), base)
  {
    var risky := FlushIsRisky(s);
    var outcomes := if risky then BREAKING.outcomes else FAILING.outcomes;
    SyncKeeps(s, outcomes);
    if risky {
      BreakingFlush(s);
    } else {
      FailingFlush(s);
    }
    var f := FlushOf(s, outcomes);
    MoreAttempts(s, Synced(s, outcomes), Attempt(s.start, f.reached - s.start, f.reached == |s.accepted|), base);
  }

  lemma KeptAsPlanned(s: State, p: Plan, base: nat, c: Byte)
    requires AsPlanned(s, p, base) && !p.unbuffered && p.count < BUFFER_SIZE
    ensures AsPlanned(Kept(s, c), p.(count := p.count + 1), base)
  {
    KeepKeeps(s, c);
    var s' := Kept(s, c);
    assert s'.attempts == s.attempts;
    assert Twice(s) ==> Twice(s');
  }

  lemma NotSentAsPlanned(s: State, p: Plan, base: nat, c: Byte)
    requires AsPlanned(s, p, base) && p.unbuffered
    ensures AsPlanned(SentAtOnce(s, c, FAILING.outcomes), p, base)
  {
    SendAtOnceKeeps(s, c, FAILING.outcomes);
    var n := |s.accepted|;
    if s.timer.state != TimerHasExpired {
      SendNone(Flush(n, s.ec, s.timer), n + 1, FAILING.outcomes, 0);
    }
    var s' := SentAtOnce(s, c, FAILING.outcomes);
    assert s'.attempts == s.attempts && s'.start == s.start;
    assert Twice(s) ==> Twice(s');
  }

  lemma PutCharAsPlanned(s: State, p: Plan, base: nat, c: Byte)
    requires AsPlanned(s, p, base)
    ensures AsPlanned(Step(s, PutChar(c), Adversary(p, PutChar(c))), PlanStep(p, PutChar(c)), base)
  {
    if p.unbuffered {
      NotSentAsPlanned(s, p, base, c);
    } else if p.count < BUFFER_SIZE {
      KeptAsPlanned(s, p, base, c);
    } else {
      FlushAsPlanned(s, p, base);
    }
  }

  lemma QuietAsPlanned(s: State, p: Plan, base: nat, call: Call)
    requires AsPlanned(s, p, base) && (call.ExpiresAt? || call.RunTimer? || call.Unbuffer?)
    ensures AsPlanned(Step(s, call, FAILING), PlanStep(p, call), base)
  {
    CallKeeps(s, call, FAILING);
    var s' := Applied(s, call, FAILING);
    assert s'.attempts == s.attempts && s'.start == s.start && s'.sent == s.sent;
    assert Twice(s) ==> Twice(s');
  }

  lemma AsPlannedStep(s: State, p: Plan, base: nat, call: Call)
    requires AsPlanned(s, p, base)
    ensures AsPlanned(Step(s, call, Adversary(p, call)), PlanStep(p, call), base)
  {
    match call
    case PutChar(c) => PutCharAsPlanned(s, p, base, c);
    case Sync =>
      if !p.unbuffered {
        FlushAsPlanned(s, p, base);
      }
    case _ => QuietAsPlanned(s, p, base, call);
  }

  // ---------- The two theorems ----------

  /** The bytes on the network and the put area are what was accepted, at the end of the calls. */
  ghost predicate EndsExact(s: State, calls: seq<Call>, envs: seq<Env>)
    requires |envs| == |calls|
  {
    Exact(Runs.After(Step, s, calls, envs, |calls|))
  }

  /** At the end of the calls some character was sent twice. */
  ghost predicate EndsTwice(s: State, calls: seq<Call>, envs: seq<Env>)
    requires |envs| == |calls|
  {
    Twice(Runs.After(Step, s, calls, envs, |calls|))
  }

  lemma NoRiskEndsExact(s: State, calls: seq<Call>, envs: seq<Env>)
    requires Inv(s) && Exact(s) && |envs| == |calls| && Risks(s, calls) == 0
    ensures EndsExact(s, calls, envs)
  {
    forall s: State, p: Plan, call: Call, env: Env | SafeSoFar(s, p)
      ensures SafeSoFar(Step(s, call, env), PlanStep(p, call))
    {
      SafeSoFarStep(s, p, call, env);
    }
    Runs.PlanCovers(Step, PlanStep, SafeSoFar, Any, s, PlanOf(s), calls, envs, |calls|);
  }

  lemma TwiceTakesTwo(s: State, calls: seq<Call>, envs: seq<Env>)
    requires Inv(s) && Ends(s) && !Pending(s) && !Twice(s) && |envs| == |calls| && EndsTwice(s, calls, envs)
    ensures Risks(s, calls) >= 2
  {
    forall s: State, p: Plan, call: Call, env: Env | Accounted(s, p)
      ensures Accounted(Step(s, call, env), PlanStep(p, call))
    {
      AccountedStep(s, p, call, env);
    }
    Runs.PlanCovers(Step, PlanStep, Accounted, Any, s, PlanOf(s), calls, envs, |calls|);
  }

  lemma AdversaryRuns(s: State, calls: seq<Call>) returns (envs: seq<Env>)
    requires Inv(s) && |s.sent| >= s.start
    ensures |envs| == |calls|
    ensures Risks(s, calls) >= 1 ==> !EndsExact(s, calls, envs)
    ensures Risks(s, calls) >= 2 ==> EndsTwice(s, calls, envs)
  {
    var rel := (s': State, p: Plan) => AsPlanned(s', p, s.start);
    forall s': State, p: Plan, call: Call | rel(s', p)
      ensures rel(Step(s', call, Adversary(p, call)), PlanStep(p, call))
    {
      AsPlannedStep(s', p, s.start, call);
    }
    envs := Runs.Chosen(PlanStep, Adversary, PlanOf(s), calls);
    Runs.ChosenFollows(Step, PlanStep, Adversary, rel, s, PlanOf(s), calls, |calls|);
    InexactMeansSurplus(Runs.After(Step, s, calls, envs, |calls|));
  }

  /**
   A list of calls leaves the bytes on the network, followed by the put area, equal
   to what was accepted, in every environment, if and only if none of the calls is
   risky in the plan.
   */
  lemma ExactIff(s: State, calls: seq<Call>)
    requires Inv(s) && Exact(s)
    ensures (forall envs: seq<Env> | |envs| == |calls| :: EndsExact(s, calls, envs)) <==> Risks(s, calls) == 0
  {
    if Risks(s, calls) == 0 {
      forall envs: seq<Env> | |envs| == |calls| ensures EndsExact(s, calls, envs) {
        NoRiskEndsExact(s, calls, envs);
      }
    } else {
      InexactMeansSurplus(s);
      var envs := AdversaryRuns(s, calls);
    }
  }

  /** In some environment a list of calls sends a character twice, if and only if two of the calls are risky in the plan. */
  lemma TwiceIff(s: State, calls: seq<Call>)
    requires Inv(s) && Ends(s) && !Pending(s) && !Twice(s)
    ensures (exists envs: seq<Env> | |envs| == |calls| :: EndsTwice(s, calls, envs)) <==> Risks(s, calls) >= 2
  {
    if Risks(s, calls) >= 2 {
      InexactMeansSurplus(s);
      var envs := AdversaryRuns(s, calls);
    } else {
      forall envs: seq<Env> | |envs| == |calls| ensures !EndsTwice(s, calls, envs) {
        if EndsTwice(s, calls, envs) {
          TwiceTakesTwo(s, calls, envs);
        }
      }
    }
  }

  /** Both, for every program that starts with a new streambuf. */
  lemma NewStreambuf(s: State, calls: seq<Call>)
    requires New(s)
    ensures Inv(s) && PlanOf(s) == Plan(0, false, false, 0)
    ensures (forall envs: seq<Env> | |envs| == |calls| :: EndsExact(s, calls, envs)) <==> Risks(s, calls) == 0
    ensures (exists envs: seq<Env> | |envs| == |calls| :: EndsTwice(s, calls, envs)) <==> Risks(s, calls) >= 2
  {
    NewIsExact(s);
    ExactIff(s, calls);
    TwiceIff(s, calls);
  }

  // ---------- When nothing goes wrong ----------

  /** The characters a list of calls hands over in its first `n`. */
  function Characters(calls: seq<Call>, n: nat): seq<Byte>
    requires n <= |calls|
  {
    if n == 0 then []
    else Characters(calls, n - 1) + match calls[n - 1] case PutChar(c) => [c] case _ => []
  }

  function Handing(p: seq<Byte>, call: Call): seq<Byte> {
    match call
    case PutChar(c) => p + [c]
    case _ => p
  }

  lemma {:induction false} HandingIsCharacters(calls: seq<Call>, n: nat)
    requires n <= |calls|
    ensures Runs.Planned(Handing, [], calls, n) == Characters(calls, n)
    decreases n
  {
    if n > 0 {
      HandingIsCharacters(calls, n - 1);
      assert Characters(calls, n - 1) + [] == Characters(calls, n - 1);
    }
  }

  /** No send fails, and the timer never expires. */
  predicate Gentle(env: Env) {
    && !env.expired
    && forall i | 0 <= i < |env.outcomes| :: GentleOutcome(env.outcomes[i])
  }

  predicate GentleOutcome(o: Outcome) {
    o.ec == Ok && forall j | 0 <= j < |o.events| :: !o.events[j]
  }

  lemma {:induction false} GentleTimer(t: Timer, events: seq<bool>, n: nat)
    requires n <= |events| && t.state != TimerHasExpired && forall j | 0 <= j < |events| :: !events[j]
    ensures FiredAll(t, events, n).state != TimerHasExpired
    decreases n
  {
    if n > 0 {
      GentleTimer(t, events, n - 1);
    }
  }

  lemma {:induction false} GentleFlush(f: Flush, end: nat, outcomes: seq<Outcome>, i: nat)
    requires f.reached <= end && f.timer.state != TimerHasExpired
    requires forall j | 0 <= j < |outcomes| :: GentleOutcome(outcomes[j])
    ensures Flushed(f, end, outcomes, i).reached == end
    ensures Flushed(f, end, outcomes, i).timer.state != TimerHasExpired
    decreases end - f.reached
  {
    if f.reached < end {
      var o := OutcomeAt(outcomes, i);
      assert GentleOutcome(o);
      GentleTimer(f.timer, o.events, |o.events|);
      var next := Flush(f.reached + Taken(o, end - f.reached), Ok, FiredAll(f.timer, o.events, |o.events|));
      GentleFlush(next, end, outcomes, i + 1);
    }
  }

  /** Everything handed over was accepted, and is on the network or in the put area. */
  ghost predicate AllThere(s: State, p: seq<Byte>) {
    Shape(s) && Exact(s) && s.timer.state != TimerHasExpired && s.accepted == p
  }

  lemma GentleSync(s: State, p: seq<Byte>, outcomes: seq<Outcome>)
    requires AllThere(s, p) && forall j | 0 <= j < |outcomes| :: GentleOutcome(outcomes[j])
    ensures AllThere(Synced(s, outcomes), p) && Waiting(Synced(s, outcomes)) == 0
  {
    GentleFlush(Flush(s.start, s.ec, s.timer), |s.accepted|, outcomes, 0);
    SubSplit(s.accepted, 0, s.start, Waiting(s));
  }

  lemma KeptThere(s: State, p: seq<Byte>, c: Byte)
    requires AllThere(s, p) && !s.unbuffered && Waiting(s) < BUFFER_SIZE
    ensures AllThere(Kept(s, c), p + [c])
  {
    assert Sub(s.accepted + [c], 0, s.start) == Sub(s.accepted, 0, s.start);
  }

  lemma SentThere(s: State, p: seq<Byte>, c: Byte, outcomes: seq<Outcome>)
    requires AllThere(s, p) && s.unbuffered && forall j | 0 <= j < |outcomes| :: GentleOutcome(outcomes[j])
    ensures AllThere(SentAtOnce(s, c, outcomes), p + [c])
  {
    var n := |s.accepted|;
    GentleFlush(Flush(n, s.ec, s.timer), n + 1, outcomes, 0);
    assert Sub(s.accepted + [c], 0, n + 1) == s.accepted + [c] && Sub(s.accepted, 0, n) == s.accepted;
  }

  lemma GentleStep(s: State, p: seq<Byte>, call: Call, env: Env)
    requires AllThere(s, p) && Gentle(env)
    ensures AllThere(Step(s, call, env), Handing(p, call))
    ensures call == Sync ==> Waiting(Step(s, call, env)) == 0
  {
    match call
    case PutChar(c) =>
      if s.unbuffered {
        SentThere(s, p, c, env.outcomes);
      } else if Waiting(s) < BUFFER_SIZE {
        KeptThere(s, p, c);
      } else {
        GentleSync(s, p, env.outcomes);
        KeptThere(Synced(s, env.outcomes), p, c);
      }
    case Sync =>
      if !s.unbuffered {
        GentleSync(s, p, env.outcomes);
      }
    case _ =>
  }

  /** Everything handed over is on the network. */
  predicate AllSent(s: State, p: seq<Byte>) { s.sent == p }

  lemma LastSync(s: State, p: seq<Byte>, env: Env)
    requires AllThere(s, p) && Gentle(env)
    ensures AllSent(Step(s, Sync, env), p)
  {
    GentleStep(s, p, Sync, env);
    assert Sub(p, 0, |p|) == p;
  }

  lemma GentleCovers()
    ensures Runs.Covers(Step, Handing, AllThere, Gentle)
  {
    forall s: State, p: seq<Byte>, call: Call, env: Env | AllThere(s, p) && Gentle(env)
      ensures AllThere(Step(s, call, env), Handing(p, call))
    {
      GentleStep(s, p, call, env);
    }
  }

  /** If nothing goes wrong, every character put is on the network or in the put area, in order. */
  lemma GentleRun(s: State, calls: seq<Call>, envs: seq<Env>)
    requires New(s) && |calls| == |envs| && forall i | 0 <= i < |envs| :: Gentle(envs[i])
    ensures AllThere(Runs.After(Step, s, calls, envs, |calls|), Characters(calls, |calls|))
  {
    NewIsExact(s);
    GentleCovers();
    Runs.PlanCovers(Step, Handing, AllThere, Gentle, s, [], calls, envs, |calls|);
    HandingIsCharacters(calls, |calls|);
  }

  /** If nothing goes wrong, a program that ends with a `sync()` has sent the characters it put, each once and in order. */
  lemma GentleRunSendsAll(s: State, calls: seq<Call>, envs: seq<Env>)
    requires New(s) && |calls| == |envs| && forall i | 0 <= i < |envs| :: Gentle(envs[i])
    requires |calls| > 0 && calls[|calls| - 1] == Sync
    ensures AllSent(Runs.After(Step, s, calls, envs, |calls|), Characters(calls, |calls|))
  {
    NewIsExact(s);
    GentleCovers();
    forall s: State, p: seq<Byte>, env: Env | AllThere(s, p) && Gentle(env)
      ensures AllSent(Step(s, Sync, env), Handing(p, Sync))
    {
      LastSync(s, p, env);
    }
    Runs.LastCall(Step, Handing, AllThere, Gentle, AllSent, s, [], calls, envs);
    HandingIsCharacters(calls, |calls|);
  }
}
