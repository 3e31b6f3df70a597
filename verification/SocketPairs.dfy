/**
 socketpair: `active_count` one-byte tokens travel round a ring of socket
 pairs. Whatever is read from pair `i` is written to pair `i + 1`, until
 `write_count` reads have happened; then the bytes drain and the last read stops
 the run.

 Delivery is nondeterministic. A read that is re-armed inside a handler may
 complete at once, before that handler writes.
 */
module SocketPairs {
  import opened Bytes

  const FIRST_CH := 'm'

  datatype State = State(
    active: nat,
    writeCount: nat,
    started: nat,             // writes of start() done so far
    wire: seq<seq<char>>,     // bytes between s1_ and s2_ of each pair
    data: seq<char>,          // data_ of each pair
    ready: seq<bool>,         // this pair's read has completed, its handler has not run
    readCount: nat,           // real_read_count_
    writeCalls: nat,          // real_write_count_
    stops: nat)               // calls of stop()

  function Init(pairs: nat, active: nat, writeCount: nat): State {
    State(active, writeCount, 0, seq(pairs, _ => []), seq(pairs, _ => '\0'), seq(pairs, _ => false), 0, 0, 0)
  }

  // ---------- Steps ----------

  datatype Step = StartWrite | Deliver(i: nat) | Handle(i: nat, atOnce: bool)

  predicate Shape(s: State) {
    && |s.wire| == |s.data| == |s.ready|
    && 1 <= s.active <= |s.wire| && s.started <= s.active
  }

  predicate Enabled(s: State, step: Step) {
    && Shape(s)
    && match step
       case StartWrite => s.started < s.active
       case Deliver(i) => s.started == s.active && i < |s.wire| && |s.wire[i]| > 0 && !s.ready[i]
       case Handle(i, _) => s.started == s.active && i < |s.wire| && s.ready[i]
  }

  /** `pair_write(i, b)`. */
  function Send(s: State, i: nat, b: char): State
    requires Shape(s) && i < |s.wire|
  {
    s.(wire := s.wire[i := s.wire[i] + [b]], writeCalls := s.writeCalls + 1)
  }

  /** The read of pair `i` completes. */
  function Receive(s: State, i: nat): State
    requires Shape(s) && i < |s.wire| && |s.wire[i]| > 0
  {
    s.(wire := s.wire[i := s.wire[i][1..]], data := s.data[i := s.wire[i][0]], ready := s.ready[i := true])
  }

  function NextPair(i: nat, pairs: nat): nat
    requires i < pairs
  {
    if i + 1 >= pairs then i + 1 - pairs else i + 1
  }

  /** The read handler of pair `i` up to and including the re-armed read. */
  function Reread(s: State, i: nat, atOnce: bool): State
    requires Shape(s) && i < |s.wire|
  {
    var s1 := s.(readCount := s.readCount + 1, ready := s.ready[i := false]);
    if atOnce && |s1.wire[i]| > 0 then Receive(s1, i) else s1
  }

  /** The rest of the handler: the byte goes to the next pair, or everything is drained, or there is more to drain. */
  function Passed(s: State, i: nat): State
    requires Shape(s) && i < |s.wire|
  {
    if s.readCount < s.writeCount then Send(s, NextPair(i, |s.wire|), s.data[i])
    else if s.readCount == s.writeCalls then s.(stops := s.stops + 1)
    else s
  }

  function Do(s: State, step: Step): State
    requires Enabled(s, step)
  {
    match step
    case StartWrite => Send(s.(started := s.started + 1), s.started, FIRST_CH)
    case Deliver(i) => Receive(s, i)
    case Handle(i, atOnce) => Passed(Reread(s, i, atOnce), i)
  }

  // ---------- Bytes in flight ----------

  /** Bytes on the wires and in completed reads of the first `n` pairs. */
  function FlightUpTo(wire: seq<seq<char>>, ready: seq<bool>, n: nat): nat
    requires n <= |wire| == |ready|
  {
    if n == 0 then 0 else FlightUpTo(wire, ready, n - 1) + |wire[n - 1]| + (if ready[n - 1] then 1 else 0)
  }

  function Flight(s: State): nat
    requires |s.wire| == |s.ready|
  {
    FlightUpTo(s.wire, s.ready, |s.wire|)
  }

  /** Completed reads among the first `n` pairs. */
  function ReadyUpTo(ready: seq<bool>, n: nat): nat
    requires n <= |ready|
  {
    if n == 0 then 0 else ReadyUpTo(ready, n - 1) + (if ready[n - 1] then 1 else 0)
  }

  function Ready(s: State): nat { ReadyUpTo(s.ready, |s.ready|) }

  lemma {:induction false} ReadyUpdate(ready: seq<bool>, i: nat, b: bool, n: nat)
    requires i < |ready| && n <= |ready|
    ensures ReadyUpTo(ready[i := b], n) == ReadyUpTo(ready, n)
            + (if i < n && b then 1 else 0) - (if i < n && ready[i] then 1 else 0)
    decreases n
  {
    if n > 0 {
      ReadyUpdate(ready, i, b, n - 1);
    }
  }

  /** Changing pair `i` alone changes the flight by what pair `i` holds. */
  lemma {:induction false} FlightUpdate(wire: seq<seq<char>>, ready: seq<bool>, i: nat, w: seq<char>, r: bool, n: nat)
    requires n <= |wire| == |ready| && i < |wire|
    ensures FlightUpTo(wire[i := w], ready[i := r], n) == FlightUpTo(wire, ready, n)
            + (if i < n then |w| + (if r then 1 else 0) else 0)
            - (if i < n then |wire[i]| + (if ready[i] then 1 else 0) else 0)
    decreases n
  {
    if n > 0 {
      FlightUpdate(wire, ready, i, w, r, n - 1);
    }
  }

  lemma {:induction false} ReadyWithinFlight(wire: seq<seq<char>>, ready: seq<bool>, n: nat)
    requires n <= |wire| == |ready|
    ensures ReadyUpTo(ready, n) <= FlightUpTo(wire, ready, n)
    decreases n
  {
    if n > 0 {
      ReadyWithinFlight(wire, ready, n - 1);
    }
  }

  lemma {:induction false} NothingMeansNoFlight(wire: seq<seq<char>>, ready: seq<bool>, n: nat)
    requires n <= |wire| == |ready|
    requires forall i | 0 <= i < n :: wire[i] == [] && !ready[i]
    ensures FlightUpTo(wire, ready, n) == 0
    decreases n
  {
    if n > 0 {
      NothingMeansNoFlight(wire, ready, n - 1);
    }
  }

  // ---------- What every delivery order keeps ----------

  /** How many of the first `reads` handlers wrote their byte on. */
  function Forwarded(readCount: nat, writeCount: nat): nat {
    Min(readCount, Max(writeCount, 1) - 1)
  }

  /** Every byte anywhere is the first one. */
  ghost predicate OnlyFirstCh(s: State)
    requires |s.wire| == |s.data| == |s.ready|
  {
    && (forall i, k | 0 <= i < |s.wire| && 0 <= k < |s.wire[i]| :: s.wire[i][k] == FIRST_CH)
    && (forall i | 0 <= i < |s.ready| :: s.ready[i] ==> s.data[i] == FIRST_CH)
  }

  /** `start()` has written one byte to each of the first `started` pairs, and nothing has moved since. */
  predicate StartedUpTo(s: State)
    requires |s.wire| == |s.data| == |s.ready|
  {
    && (forall i | 0 <= i < |s.wire| :: s.wire[i] == if i < s.started then [FIRST_CH] else [])
    && (forall i | 0 <= i < |s.ready| :: !s.ready[i])
  }

  ghost predicate Counts(s: State)
    requires Shape(s)
  {
    && s.writeCalls == s.started + Forwarded(s.readCount, s.writeCount)
    && s.writeCalls == s.readCount + Flight(s)
    && (s.started < s.active ==> s.readCount == 0 && StartedUpTo(s))
    && s.stops == (if s.started == s.active && Flight(s) == 0 then 1 else 0)
  }

  ghost predicate Inv(s: State) {
    Shape(s) && OnlyFirstCh(s) && Counts(s)
  }

  lemma InitInv(pairs: nat, active: nat, writeCount: nat)
    requires 1 <= active <= pairs
    ensures Inv(Init(pairs, active, writeCount))
    ensures Ready(Init(pairs, active, writeCount)) == 0
  {
    var s := Init(pairs, active, writeCount);
    NothingMeansNoFlight(s.wire, s.ready, pairs);
    ReadyWithinFlight(s.wire, s.ready, pairs);
  }

  lemma SendEffect(s: State, i: nat)
    requires Shape(s) && OnlyFirstCh(s) && i < |s.wire|
    ensures var s' := Send(s, i, FIRST_CH);
            Shape(s') && OnlyFirstCh(s') && Flight(s') == Flight(s) + 1 && Ready(s') == Ready(s)
  {
    FlightUpdate(s.wire, s.ready, i, s.wire[i] + [FIRST_CH], s.ready[i], |s.wire|);
    assert s.ready[i := s.ready[i]] == s.ready;
  }

  lemma ReceiveEffect(s: State, i: nat)
    requires Shape(s) && OnlyFirstCh(s) && i < |s.wire| && |s.wire[i]| > 0 && !s.ready[i]
    ensures var s' := Receive(s, i);
            Shape(s') && OnlyFirstCh(s') && Flight(s') == Flight(s) && Ready(s') == Ready(s) + 1
    ensures Receive(s, i).data[i] == FIRST_CH
  {
    var s' := Receive(s, i);
    FlightUpdate(s.wire, s.ready, i, s.wire[i][1..], true, |s.wire|);
    ReadyUpdate(s.ready, i, true, |s.ready|);
    assert s.wire[i][0] == FIRST_CH;
    forall j, k | 0 <= j < |s'.wire| && 0 <= k < |s'.wire[j]| ensures s'.wire[j][k] == FIRST_CH {
      if j == i {
        assert s'.wire[i][k] == s.wire[i][k + 1];
      } else {
        assert s'.wire[j][k] == s.wire[j][k];
      }
    }
  }

  lemma RereadEffect(s: State, i: nat, atOnce: bool)
    requires Shape(s) && OnlyFirstCh(s) && i < |s.wire| && s.ready[i]
    ensures var s' := Reread(s, i, atOnce);
            && Shape(s') && OnlyFirstCh(s') && Flight(s') == Flight(s) - 1
            && Ready(s) - 1 <= Ready(s') <= Ready(s) && s'.data[i] == FIRST_CH
  {
    var s1 := s.(readCount := s.readCount + 1, ready := s.ready[i := false]);
    FlightUpdate(s.wire, s.ready, i, s.wire[i], false, |s.wire|);
    assert s.wire[i := s.wire[i]] == s.wire;
    ReadyUpdate(s.ready, i, false, |s.ready|);
    assert s.data[i] == FIRST_CH;
    assert OnlyFirstCh(s1);
    if atOnce && |s1.wire[i]| > 0 {
      ReceiveEffect(s1, i);
    }
  }

  /** Where the reads and writes stand between the re-armed read of a handler and the rest of it. */
  ghost predicate MidHandle(s: State) {
    && Shape(s) && OnlyFirstCh(s) && s.started == s.active && s.readCount >= 1
    && s.writeCalls == s.started + Forwarded(s.readCount - 1, s.writeCount)
    && s.writeCalls == s.readCount + Flight(s) && s.stops == 0
  }

  lemma RereadMid(s: State, i: nat, atOnce: bool)
    requires Inv(s) && Enabled(s, Handle(i, atOnce))
    ensures MidHandle(Reread(s, i, atOnce)) && Reread(s, i, atOnce).data[i] == FIRST_CH
  {
    RereadEffect(s, i, atOnce);
  }

  lemma PassedKeeps(s: State, i: nat)
    requires MidHandle(s) && i < |s.wire| && s.data[i] == FIRST_CH
    ensures Inv(Passed(s, i))
  {
    if s.readCount < s.writeCount {
      SendEffect(s, NextPair(i, |s.wire|));
    } else {
      assert Forwarded(s.readCount, s.writeCount) == Forwarded(s.readCount - 1, s.writeCount);
    }
  }

  /** A read handler, whether or not its re-armed read completes at once: passes the byte on, or stops, or lets it drain. */
  lemma HandleKeeps(s: State, i: nat, atOnce: bool)
    requires Inv(s) && Enabled(s, Handle(i, atOnce))
    ensures Inv(Do(s, Handle(i, atOnce)))
  {
    RereadMid(s, i, atOnce);
    PassedKeeps(Reread(s, i, atOnce), i);
  }

  lemma HandleDescends(s: State, i: nat, atOnce: bool)
    requires Inv(s) && Enabled(s, Handle(i, atOnce))
    ensures StepsLeft(Do(s, Handle(i, atOnce))) < StepsLeft(s)
  {
    RereadEffect(s, i, atOnce);
    var s' := Reread(s, i, atOnce);
    if s'.readCount < s'.writeCount {
      SendEffect(s', NextPair(i, |s.wire|));
    }
  }

  lemma StepKeeps(s: State, step: Step)
    requires Inv(s) && Enabled(s, step)
    ensures Inv(Do(s, step))
    ensures StepsLeft(Do(s, step)) < StepsLeft(s)
  {
    match step
    case StartWrite => SendEffect(s.(started := s.started + 1), s.started);
    case Deliver(i) => ReceiveEffect(s, i);
    case Handle(i, atOnce) =>
      HandleKeeps(s, i, atOnce);
      HandleDescends(s, i, atOnce);
  }

  // ---------- Runs ----------

  /** The number of reads, and of writes, of a whole run. */
  function FinalCount(active: nat, writeCount: nat): int {
    active + Max(writeCount, 1) - 1
  }

  /** An upper bound on the steps still to come. */
  function StepsLeft(s: State): int {
    2 * (FinalCount(s.active, s.writeCount) - s.readCount) + (s.active - s.started) - Ready(s)
  }

  lemma StepsLeftNonnegative(s: State)
    requires Inv(s)
    ensures StepsLeft(s) >= 0
  {
    ReadyWithinFlight(s.wire, s.ready, |s.wire|);
  }

  ghost predicate Follows(s: State, s': State) {
    exists step :: Enabled(s, step) && s' == Do(s, step)
  }

  ghost predicate Run(states: seq<State>, pairs: nat, active: nat, writeCount: nat) {
    && |states| > 0 && states[0] == Init(pairs, active, writeCount)
    && forall i | 0 <= i < |states| - 1 :: Follows(states[i], states[i + 1])
  }

  lemma FollowKeeps(s: State, s': State)
    requires Inv(s) && Follows(s, s')
    ensures Inv(s') && s'.active == s.active && s'.writeCount == s.writeCount
    ensures 0 <= StepsLeft(s') < StepsLeft(s)
  {
    var step :| Enabled(s, step) && s' == Do(s, step);
    StepKeeps(s, step);
    StepsLeftNonnegative(s');
  }

  lemma {:induction false} RunKeeps(states: seq<State>, pairs: nat, active: nat, writeCount: nat, i: nat)
    requires 1 <= active <= pairs
    requires Run(states, pairs, active, writeCount) && i < |states|
    ensures Inv(states[i]) && states[i].active == active && states[i].writeCount == writeCount
    ensures 0 <= StepsLeft(states[i]) <= 2 * FinalCount(active, writeCount) + active - i
    decreases i
  {
    if i == 0 {
      InitInv(pairs, active, writeCount);
    } else {
      RunKeeps(states, pairs, active, writeCount, i - 1);
      assert Follows(states[i - 1], states[i - 1 + 1]);
      FollowKeeps(states[i - 1], states[i]);
    }
  }

  /** Between the end of `start()` and the `write_count`-th read exactly `active` bytes are in flight. */
  lemma TokensConserved(s: State)
    requires Inv(s) && s.started == s.active && s.readCount < Max(s.writeCount, 1)
    ensures Flight(s) == s.active && s.stops == 0
  {
  }

  /** Only the read that leaves nothing in flight calls `stop()`. */
  lemma StopOnlyWhenDrained(s: State, step: Step)
    requires Inv(s) && Enabled(s, step)
    ensures Do(s, step).stops != s.stops ==>
              && s.stops == 0 && Do(s, step).stops == 1 && Flight(Do(s, step)) == 0
              && Do(s, step).readCount >= s.writeCount
  {
    StepKeeps(s, step);
  }

  /** After each write of `start()`, the last included, the pairs written to hold one byte each and the others none. */
  lemma StartWrites(s: State)
    requires Inv(s) && Enabled(s, StartWrite)
    ensures Do(s, StartWrite).started == s.started + 1 && StartedUpTo(Do(s, StartWrite))
  {
  }

  /** A delivery takes the first byte of its own wire into `data_` and touches nothing else. */
  lemma DeliverTakes(s: State, i: nat)
    requires Enabled(s, Deliver(i))
    ensures var s' := Do(s, Deliver(i));
            && s.wire[i] == [s'.data[i]] + s'.wire[i] && s'.ready[i] && |s'.wire| == |s.wire|
            && (forall j | 0 <= j < |s.wire| && j != i :: s'.wire[j] == s.wire[j])
            && (forall j | 0 <= j < |s.data| && j != i :: s'.data[j] == s.data[j])
            && (forall j | 0 <= j < |s.ready| && j != i :: s'.ready[j] == s.ready[j])
            && s'.readCount == s.readCount && s'.writeCalls == s.writeCalls && s'.stops == s.stops
  {
  }

  /** From the `write_count`-th read on a handler writes nothing, and stops if it was the last. */
  lemma DrainsOne(s: State, i: nat, atOnce: bool)
    requires Enabled(s, Handle(i, atOnce)) && s.readCount + 1 >= s.writeCount
    ensures var s' := Do(s, Handle(i, atOnce));
            && s'.wire == (if ReadsAgain(s, i, atOnce) then s.wire[i := s.wire[i][1..]] else s.wire)
            && s'.readCount == s.readCount + 1 && s'.writeCalls == s.writeCalls
            && s'.stops == s.stops + (if s.readCount + 1 == s.writeCalls then 1 else 0)
  {
  }

  /** The pairs form a ring. */
  lemma NextRoundTheRing(i: nat, pairs: nat)
    requires i < pairs
    ensures NextPair(i, pairs) == (i + 1) % pairs
  {
    if i + 1 == pairs {
      assert (i + 1) % pairs == 0;
    }
  }

  /** The re-armed read completes inside the handler, with the next byte of the same pair. */
  predicate ReadsAgain(s: State, i: nat, atOnce: bool)
    requires i < |s.wire|
  {
    atOnce && |s.wire[i]| > 0
  }

  /**
   Before the last read a handler writes one byte to the next pair of the ring
   and touches no other wire but its own: if the re-armed read completes at once,
   that one loses its first byte, and it is this byte that is passed on.
   */
  lemma ForwardsOne(s: State, i: nat, atOnce: bool)
    requires Enabled(s, Handle(i, atOnce)) && s.readCount + 1 < s.writeCount
    ensures var wire', next := Do(s, Handle(i, atOnce)).wire, NextPair(i, |s.wire|);
            var again := ReadsAgain(s, i, atOnce);
            var own, b := if again then s.wire[i][1..] else s.wire[i], if again then s.wire[i][0] else s.data[i];
            && |wire'| == |s.wire|
            && wire'[next] == (if next == i then own else s.wire[next]) + [b]
            && (next != i ==> wire'[i] == own)
            && forall j | 0 <= j < |s.wire| && j != next && j != i :: wire'[j] == s.wire[j]
  {
  }

  ghost predicate Stuck(s: State) {
    forall step :: !Enabled(s, step)
  }

  /** A run that can go no further is drained. */
  lemma StuckMeansDrained(s: State)
    requires Inv(s) && Stuck(s)
    ensures Flight(s) == 0 && s.stops == 1 && s.readCount == s.writeCalls == FinalCount(s.active, s.writeCount)
  {
    assert !Enabled(s, StartWrite);
    forall i | 0 <= i < |s.wire| ensures s.wire[i] == [] && !s.ready[i] {
      assert !Enabled(s, Deliver(i)) && !Enabled(s, Handle(i, false));
    }
    NothingMeansNoFlight(s.wire, s.ready, |s.wire|);
  }

  /** Every run ends, after one `stop()`, with all wires empty and both counts at `active + max(write_count, 1) - 1`. */
  lemma RunsEndDrained(states: seq<State>, pairs: nat, active: nat, writeCount: nat)
    requires 1 <= active <= pairs
    requires Run(states, pairs, active, writeCount) && Stuck(states[|states| - 1])
    ensures |states| <= 2 * FinalCount(active, writeCount) + active + 1
    ensures var last := states[|states| - 1];
            && Shape(last) && Flight(last) == 0 && last.stops == 1
            && last.readCount == last.writeCalls == FinalCount(active, writeCount)
  {
    RunKeeps(states, pairs, active, writeCount, |states| - 1);
    StuckMeansDrained(states[|states| - 1]);
  }

  // ---------- The object ----------

  class Pairs {
    const pairCount: nat
    const activeCount: nat
    const writeCount: nat
    var wire: seq<seq<char>>
    var data: seq<char>
    var ready: seq<bool>
    var realReadCount: nat
    var realWriteCount: nat
    var started: nat
    var stops: nat

    ghost predicate Valid()
      reads this
    {
      pairCount == |wire| && Inv(Now())
    }

    function Now(): State
      reads this
    {
      State(activeCount, writeCount, started, wire, data, ready, realReadCount, realWriteCount, stops)
    }

    constructor (pairs: nat, active: nat, writes: nat)
      requires 1 <= active <= pairs
      ensures Valid() && Now() == Init(pairs, active, writes)
    {
      pairCount, activeCount, writeCount := pairs, active, writes;
      wire, data, ready := seq(pairs, _ => []), seq(pairs, _ => '\0'), seq(pairs, _ => false);
      realReadCount, realWriteCount, started, stops := 0, 0, 0, 0;
      InitInv(pairs, active, writes);
    }

    method PairWrite(i: nat, b: char)
      requires Shape(Now()) && i < |wire|
      modifies `wire, `realWriteCount
      ensures Now() == Send(old(Now()), i, b)
    {
      wire := wire[i := wire[i] + [b]];
      realWriteCount := realWriteCount + 1;
    }

    /** One iteration of the loop in `start()`. */
    method StartOne()
      requires Valid() && Enabled(Now(), StartWrite)
      modifies this
      ensures Valid() && Now() == Do(old(Now()), StartWrite)
    {
      StepKeeps(Now(), StartWrite);
      var index := started;
      started := started + 1;
      PairWrite(index, FIRST_CH);
    }

    /** The environment completes the read of pair `i`. */
    method CompleteRead(i: nat)
      requires Shape(Now()) && i < |wire| && |wire[i]| > 0
      modifies `wire, `data, `ready
      ensures Now() == Receive(old(Now()), i)
    {
      data := data[i := wire[i][0]];
      ready := ready[i := true];
      wire := wire[i := wire[i][1..]];
    }

    /** The read handler of pair `i`, up to and including `pair_read(i)`, which may complete at once. */
    method CountAndReread(i: nat, atOnce: bool)
      requires Shape(Now()) && i < |wire|
      modifies `realReadCount, `wire, `data, `ready
      ensures Now() == Reread(old(Now()), i, atOnce)
    {
      realReadCount := realReadCount + 1;
      ready := ready[i := false];
      if atOnce && |wire[i]| > 0 {
        CompleteRead(i);
      }
    }

    /** The rest of the handler: passes on what `data_` holds, or stops once everything is drained. */
    method ForwardOrStop(i: nat)
      requires Shape(Now()) && i < |wire| == pairCount
      modifies `wire, `realWriteCount, `stops
      ensures Now() == Passed(old(Now()), i)
    {
      if realReadCount < writeCount {
        var next := i + 1;
        if next >= pairCount {
          next := next - pairCount;
        }
        PairWrite(next, data[i]);
      } else if realReadCount == realWriteCount {
        stops := stops + 1;
      }
    }

    /** The read handler of pair `i`. */
    method OnRead(i: nat, atOnce: bool)
      requires Valid() && Enabled(Now(), Handle(i, atOnce))
      modifies this
      ensures Valid() && Now() == Do(old(Now()), Handle(i, atOnce))
    {
      ghost var s := Now();
      CountAndReread(i, atOnce);
      ForwardOrStop(i);
      StepKeeps(s, Handle(i, atOnce));
    }

    /** Lets the start loop, one delivery or one read handler go on. */
    method Fire(step: Step)
      requires Valid() && Enabled(Now(), step)
      modifies this
      ensures Valid() && Now() == Do(old(Now()), step)
    {
      match step
      case StartWrite => StartOne();
      case Deliver(i) =>
        StepKeeps(Now(), step);
        CompleteRead(i);
      case Handle(i, atOnce) => OnRead(i, atOnce);
    }

    /** Some step that can be taken, any of them, if there is one. */
    method Pick() returns (found: bool, step: Step)
      requires Shape(Now())
      ensures found ==> Enabled(Now(), step)
      ensures !found ==> Stuck(Now())
    {
      step := *;
      found := Enabled(Now(), step);
      if !found {
        if started < activeCount {
          return true, StartWrite;
        }
        for i := 0 to |wire|
          invariant forall j | 0 <= j < i :: wire[j] == [] && !ready[j]
        {
          if ready[i] {
            return true, Handle(i, false);
          } else if |wire[i]| > 0 {
            return true, Deliver(i);
          }
        }
      }
    }

    /**
     The start loop, deliveries and handlers in any order, until nothing is left
     to do: they come to that point, with one `stop()`, nothing in flight, and the
     read and write counts at `active + max(write_count, 1) - 1`.
     */
    method Drive()
      requires Valid()
      modifies this
      ensures Valid() && Stuck(Now()) && Flight(Now()) == 0 && stops == 1
      ensures realReadCount == realWriteCount == FinalCount(activeCount, writeCount)
    {
      var found, step := Pick();
      while found
        invariant Valid() && (found ==> Enabled(Now(), step)) && (!found ==> Stuck(Now()))
        decreases StepsLeft(Now())
      {
        StepsLeftNonnegative(Now());
        StepKeeps(Now(), step);
        Fire(step);
        found, step := Pick();
      }
      StuckMeansDrained(Now());
    }
  }
}
