/**
 client2 and server2: an unframed echo in which each side owns ten buffers and
 overlaps reads and writes. A side keeps reading while it has a free buffer; when
 it runs out, the next write completion restarts reading.

 Several reads can be in flight at once, and a write may be partial: its
 unwritten rest is dropped. A step is either a transfer that finishes a read or a
 write in flight, or the completion handler of a finished one, so the peer may
 see bytes long before the writer's handler runs.
 */
module EchoPool {
  import opened Bytes

  const STACK_SIZE := 10

  /**
   A read or write in flight. `length` is, for a write, how many bytes to write
   and, once done, how many were; for a read, 0 and, once done, how many came.
   */
  datatype Op = Op(buffer: nat, length: nat, done: bool)

  /** One side: its stack of free buffers and the operations its socket owes it. */
  datatype Pool = Pool(stack: seq<nat>, reading: seq<Op>, writing: seq<Op>)

  /** Ten buffers, pushed in order. */
  function NewPool(): Pool {
    Pool(UpTo(STACK_SIZE), [], [])
  }

  function RemoveAt<T>(s: seq<T>, k: nat): seq<T>
    requires k < |s|
  {
    s[..k] + s[k + 1..]
  }

  // ---------- One side ----------

  /** `read()`: does nothing when the cached buffers are used up. */
  function Read(p: Pool): Pool {
    if |p.stack| == 0 then p
    else Pool(p.stack[..|p.stack| - 1], p.reading + [Op(p.stack[|p.stack| - 1], 0, false)], p.writing)
  }

  function Write(p: Pool, buffer: nat, length: nat): Pool {
    p.(writing := p.writing + [Op(buffer, length, false)])
  }

  /** A transfer of `cb` bytes finishes the `k`-th operation. */
  function Finish(ops: seq<Op>, k: nat, cb: nat): seq<Op>
    requires k < |ops|
  {
    ops[k := Op(ops[k].buffer, cb, true)]
  }

  /** The handler of the `k`-th read in flight, when it succeeded. */
  function OnRead(p: Pool, k: nat): Pool
    requires k < |p.reading|
  {
    Read(Write(p.(reading := RemoveAt(p.reading, k)), p.reading[k].buffer, p.reading[k].length))
  }

  /** The handler of the `k`-th write in flight, when it succeeded. */
  function OnWrite(p: Pool, k: nat): Pool
    requires k < |p.writing|
  {
    var needRead := |p.stack| == 0;
    var p' := Pool(p.stack + [p.writing[k].buffer], p.reading, RemoveAt(p.writing, k));
    if needRead then Read(p') else p'
  }

  /** The client's first packet: a whole buffer off the stack. */
  function FirstWrite(p: Pool, blockSize: nat): Pool
    requires |p.stack| > 0
  {
    Write(p.(stack := p.stack[..|p.stack| - 1]), p.stack[|p.stack| - 1], blockSize)
  }

  function Buffers(ops: seq<Op>): seq<nat> {
    seq(|ops|, i requires 0 <= i < |ops| => ops[i].buffer)
  }

  /** Where every buffer is. */
  function Everywhere(p: Pool): multiset<nat> {
    multiset(p.stack) + multiset(Buffers(p.reading)) + multiset(Buffers(p.writing))
  }

  /** The ten buffers, each exactly once. */
  ghost predicate Partitioned(p: Pool) {
    && |p.stack| + |p.reading| + |p.writing| == STACK_SIZE
    && forall b: nat :: Everywhere(p)[b] == if b < STACK_SIZE then 1 else 0
  }

  /** Once started: with a free buffer, some read is in flight. */
  ghost predicate Reading(p: Pool) {
    |p.reading| == 0 ==> |p.stack| == 0
  }

  lemma RemoveFromMultiset<T>(s: seq<T>, k: nat)
    requires k < |s|
    ensures multiset(s) == multiset(RemoveAt(s, k)) + multiset{s[k]}
  {
    assert s == s[..k] + [s[k]] + s[k + 1..];
  }

  lemma PopMultiset(s: seq<nat>)
    requires |s| > 0
    ensures multiset(s) == multiset(s[..|s| - 1]) + multiset{s[|s| - 1]}
  {
    assert s == s[..|s| - 1] + [s[|s| - 1]];
  }

  lemma BuffersOf(ops: seq<Op>, k: nat, op: Op)
    ensures Buffers(ops + [op]) == Buffers(ops) + [op.buffer]
    ensures k < |ops| ==> Buffers(RemoveAt(ops, k)) == RemoveAt(Buffers(ops), k)
  {
  }

  lemma NewPoolPartitioned()
    ensures Partitioned(NewPool())
  {
    UpToOnce(STACK_SIZE);
    assert Everywhere(NewPool()) == multiset(UpTo(STACK_SIZE));
  }

  lemma {:induction false} UpToOnce(n: nat)
    ensures forall b: nat :: multiset(UpTo(n))[b] == if b < n then 1 else 0
  {
    if n > 0 {
      UpToOnce(n - 1);
      assert UpTo(n) == UpTo(n - 1) + [n - 1];
    }
  }

  lemma ReadKeeps(p: Pool)
    ensures Everywhere(Read(p)) == Everywhere(p)
    ensures |Read(p).stack| + |Read(p).reading| == |p.stack| + |p.reading| && Read(p).writing == p.writing
    ensures Reading(Read(p)) <==> |p.stack| > 0 || Reading(p)
  {
    if |p.stack| > 0 {
      PopMultiset(p.stack);
      BuffersOf(p.reading, |p.reading|, Op(p.stack[|p.stack| - 1], 0, false));
    }
  }

  lemma FinishKeeps(p: Pool, k: nat, cb: nat)
    requires Partitioned(p)
    ensures k < |p.reading| ==> Partitioned(p.(reading := Finish(p.reading, k, cb)))
    ensures k < |p.writing| ==> Partitioned(p.(writing := Finish(p.writing, k, cb)))
  {
    if k < |p.reading| {
      assert Buffers(Finish(p.reading, k, cb)) == Buffers(p.reading);
      assert Everywhere(p.(reading := Finish(p.reading, k, cb))) == Everywhere(p);
    }
    if k < |p.writing| {
      assert Buffers(Finish(p.writing, k, cb)) == Buffers(p.writing);
      assert Everywhere(p.(writing := Finish(p.writing, k, cb))) == Everywhere(p);
    }
  }

  /**
   A side that runs a read handler has the buffers it had, writes what came, and
   reads on into the top buffer of the stack if there is one.
   */
  lemma OnReadKeeps(p: Pool, k: nat)
    requires Partitioned(p) && k < |p.reading|
    ensures Partitioned(OnRead(p, k)) && Reading(OnRead(p, k))
    ensures OnRead(p, k).writing == p.writing + [Op(p.reading[k].buffer, p.reading[k].length, false)]
    ensures |p.stack| > 0 ==>
              && OnRead(p, k).stack == p.stack[..|p.stack| - 1]
              && OnRead(p, k).reading == RemoveAt(p.reading, k) + [Op(p.stack[|p.stack| - 1], 0, false)]
    ensures |p.stack| == 0 ==> OnRead(p, k).stack == [] && OnRead(p, k).reading == RemoveAt(p.reading, k)
  {
    var p1 := Write(p.(reading := RemoveAt(p.reading, k)), p.reading[k].buffer, p.reading[k].length);
    BuffersOf(p.reading, k, p.reading[k]);
    RemoveFromMultiset(Buffers(p.reading), k);
    BuffersOf(p.writing, |p.writing|, Op(p.reading[k].buffer, p.reading[k].length, false));
    assert Everywhere(p1) == Everywhere(p);
    ReadKeeps(p1);
  }

  /**
   So has a side that runs a write handler. With a buffer free it only puts its own
   back; without one it reads again, into the buffer it just got back.
   */
  lemma OnWriteKeeps(p: Pool, k: nat)
    requires Partitioned(p) && Reading(p) && k < |p.writing|
    ensures Partitioned(OnWrite(p, k)) && Reading(OnWrite(p, k))
    ensures OnWrite(p, k).writing == RemoveAt(p.writing, k)
    ensures |p.stack| > 0 ==> OnWrite(p, k).reading == p.reading && OnWrite(p, k).stack == p.stack + [p.writing[k].buffer]
    ensures |p.stack| == 0 ==>
              && OnWrite(p, k).reading == p.reading + [Op(p.writing[k].buffer, 0, false)]
              && OnWrite(p, k).stack == []
  {
    var p1 := Pool(p.stack + [p.writing[k].buffer], p.reading, RemoveAt(p.writing, k));
    BuffersOf(p.writing, k, p.writing[k]);
    RemoveFromMultiset(Buffers(p.writing), k);
    assert Everywhere(p1) == Everywhere(p);
    ReadKeeps(p1);
  }

  lemma FirstWriteKeeps(p: Pool, blockSize: nat)
    requires Partitioned(p) && |p.stack| > 0 && |p.reading| > 0
    ensures Partitioned(FirstWrite(p, blockSize)) && Reading(FirstWrite(p, blockSize))
    ensures FirstWrite(p, blockSize) ==
              Pool(p.stack[..|p.stack| - 1], p.reading, p.writing + [Op(p.stack[|p.stack| - 1], blockSize, false)])
  {
    PopMultiset(p.stack);
    BuffersOf(p.writing, |p.writing|, Op(p.stack[|p.stack| - 1], blockSize, false));
    assert Everywhere(FirstWrite(p, blockSize)) == Everywhere(p);
  }

  /** When no read is in flight all ten buffers are being written, and whichever write completes first restarts reading. */
  lemma NeverStalls(p: Pool)
    requires Partitioned(p) && Reading(p) && |p.reading| == 0
    ensures |p.writing| == STACK_SIZE
    ensures forall k | 0 <= k < |p.writing| :: |OnWrite(p, k).reading| == 1
  {
  }

  // ---------- Client and server together ----------

  /**
   Both sides and the two channels between them, as byte counts. `droppedBy...`
   are history variables: the bytes that partial writes never sent.
   */
  datatype World = World(
    client: Pool, server: Pool, clientBlock: nat, serverBlock: nat,
    clientStarted: bool, serverStarted: bool,
    toServer: nat, toClient: nat,
    bytesWritten: nat, bytesRead: nat, countWritten: nat, countRead: nat,
    droppedByClient: nat, droppedByServer: nat)

  function Init(clientBlock: nat, serverBlock: nat): World {
    World(NewPool(), NewPool(), clientBlock, serverBlock, false, false, 0, 0, 0, 0, 0, 0, 0, 0)
  }

  datatype Step =
    | StartClient
    | StartServer
    | ClientReceive(k: nat, cb: nat)
    | ClientRead(k: nat)
    | ClientSend(k: nat, cb: nat)
    | ClientWrite(k: nat)
    | ServerReceive(k: nat, cb: nat)
    | ServerRead(k: nat)
    | ServerSend(k: nat, cb: nat)
    | ServerWrite(k: nat)

  predicate Waiting(ops: seq<Op>, k: nat) { k < |ops| && !ops[k].done }

  predicate Finished(ops: seq<Op>, k: nat) { k < |ops| && ops[k].done }

  predicate Enabled(w: World, step: Step) {
    match step
    case StartClient => !w.clientStarted && |w.client.stack| >= 2
    case StartServer => !w.serverStarted
    case ClientReceive(k, cb) => Waiting(w.client.reading, k) && cb <= w.clientBlock && cb <= w.toClient
    case ClientRead(k) => Finished(w.client.reading, k)
    case ClientSend(k, cb) => Waiting(w.client.writing, k) && cb <= w.client.writing[k].length
    case ClientWrite(k) => Finished(w.client.writing, k)
    case ServerReceive(k, cb) => Waiting(w.server.reading, k) && cb <= w.serverBlock && cb <= w.toServer
    case ServerRead(k) => Finished(w.server.reading, k)
    case ServerSend(k, cb) => Waiting(w.server.writing, k) && cb <= w.server.writing[k].length
    case ServerWrite(k) => Finished(w.server.writing, k)
  }

  function Do(w: World, step: Step): World
    requires Enabled(w, step)
  {
    match step
    case StartClient => w.(clientStarted := true, client := FirstWrite(Read(w.client), w.clientBlock))
    case StartServer => w.(serverStarted := true, server := Read(w.server))
    case ClientReceive(k, cb) =>
      w.(client := w.client.(reading := Finish(w.client.reading, k, cb)), toClient := w.toClient - cb)
    case ClientRead(k) =>
      w.(client := OnRead(w.client, k),
         bytesRead := w.bytesRead + w.client.reading[k].length, countRead := w.countRead + 1)
    case ClientSend(k, cb) =>
      w.(client := w.client.(writing := Finish(w.client.writing, k, cb)), toServer := w.toServer + cb,
         droppedByClient := w.droppedByClient + (w.client.writing[k].length - cb))
    case ClientWrite(k) =>
      w.(client := OnWrite(w.client, k),
         bytesWritten := w.bytesWritten + w.client.writing[k].length, countWritten := w.countWritten + 1)
    case ServerReceive(k, cb) =>
      w.(server := w.server.(reading := Finish(w.server.reading, k, cb)), toServer := w.toServer - cb)
    case ServerRead(k) => w.(server := OnRead(w.server, k))
    case ServerSend(k, cb) =>
      w.(server := w.server.(writing := Finish(w.server.writing, k, cb)), toClient := w.toClient + cb,
         droppedByServer := w.droppedByServer + (w.server.writing[k].length - cb))
    case ServerWrite(k) => w.(server := OnWrite(w.server, k))
  }

  /** Bytes of the operations that are done, or of those that are not. */
  function Held(ops: seq<Op>, done: bool): nat {
    if |ops| == 0 then 0
    else Held(ops[..|ops| - 1], done) + (if ops[|ops| - 1].done == done then ops[|ops| - 1].length else 0)
  }

  function Share(op: Op, done: bool): nat { if op.done == done then op.length else 0 }

  lemma HeldAppend(ops: seq<Op>, op: Op, done: bool)
    ensures Held(ops + [op], done) == Held(ops, done) + Share(op, done)
  {
  }

  lemma {:induction false} HeldRemove(ops: seq<Op>, k: nat, done: bool)
    requires k < |ops|
    ensures Held(RemoveAt(ops, k), done) == Held(ops, done) - Share(ops[k], done)
    decreases |ops|
  {
    var last := |ops| - 1;
    if k == last {
      assert RemoveAt(ops, k) == ops[..last];
    } else {
      HeldRemove(ops[..last], k, done);
      assert RemoveAt(ops, k) == RemoveAt(ops[..last], k) + [ops[last]];
      HeldAppend(RemoveAt(ops[..last], k), ops[last], done);
    }
  }

  lemma {:induction false} HeldFinish(ops: seq<Op>, k: nat, cb: nat, done: bool)
    requires k < |ops|
    ensures Held(Finish(ops, k, cb), done) == Held(ops, done) - Share(ops[k], done) + (if done then cb else 0)
    decreases |ops|
  {
    var last := |ops| - 1;
    if k == last {
      assert Finish(ops, k, cb)[..last] == ops[..last];
    } else {
      HeldFinish(ops[..last], k, cb, done);
      assert Finish(ops, k, cb)[..last] == Finish(ops[..last], k, cb);
    }
  }

  /** Bytes of a side's that are yet to go out: what its finished reads brought in and its waiting writes hold. */
  function Carried(p: Pool): nat { Held(p.reading, true) + Held(p.writing, false) }

  /** Bytes still going round: carried by a side or on a channel. */
  function Circulating(w: World): nat {
    Carried(w.client) + Carried(w.server) + w.toServer + w.toClient
  }

  function Dropped(w: World): nat { w.droppedByClient + w.droppedByServer }

  /** No operation in flight goes past the end of its buffer. */
  ghost predicate Fits(ops: seq<Op>, block: nat) {
    forall i | 0 <= i < |ops| :: ops[i].length <= block
  }

  ghost predicate PoolOk(p: Pool, started: bool, block: nat) {
    && Partitioned(p) && Reading(p) == started && (!started ==> p == NewPool())
    && Fits(p.reading, block) && Fits(p.writing, block)
  }

  /** Every write begun by the client carries what one read handler brought, or is the first packet. */
  ghost predicate ClientCounts(w: World) {
    && w.bytesWritten + Held(w.client.writing, true) + Held(w.client.writing, false) + w.droppedByClient
       == w.bytesRead + (if w.clientStarted then w.clientBlock else 0)
    && w.countWritten + |w.client.writing| == w.countRead + (if w.clientStarted then 1 else 0)
  }

  ghost predicate Inv(w: World) {
    && PoolOk(w.client, w.clientStarted, w.clientBlock) && PoolOk(w.server, w.serverStarted, w.serverBlock)
    && Circulating(w) + Dropped(w) == (if w.clientStarted then w.clientBlock else 0)
    && ClientCounts(w)
  }

  lemma InitInv(clientBlock: nat, serverBlock: nat)
    ensures Inv(Init(clientBlock, serverBlock))
  {
    NewPoolPartitioned();
  }

  lemma FitsRemove(ops: seq<Op>, k: nat, block: nat)
    requires k < |ops| && Fits(ops, block)
    ensures Fits(RemoveAt(ops, k), block)
  {
  }

  lemma ReceiveSide(p: Pool, k: nat, cb: nat, block: nat)
    requires PoolOk(p, true, block) && Waiting(p.reading, k) && cb <= block
    ensures var p' := p.(reading := Finish(p.reading, k, cb));
            PoolOk(p', true, block) && Carried(p') == Carried(p) + cb
  {
    FinishKeeps(p, k, cb);
    HeldFinish(p.reading, k, cb, true);
  }

  lemma SendSide(p: Pool, k: nat, cb: nat, block: nat)
    requires PoolOk(p, true, block) && Waiting(p.writing, k) && cb <= p.writing[k].length
    ensures var p' := p.(writing := Finish(p.writing, k, cb));
            && PoolOk(p', true, block) && Carried(p') == Carried(p) - p.writing[k].length
            && Held(p'.writing, true) == Held(p.writing, true) + cb
            && Held(p'.writing, false) == Held(p.writing, false) - p.writing[k].length
  {
    FinishKeeps(p, k, cb);
    HeldFinish(p.writing, k, cb, true);
    HeldFinish(p.writing, k, cb, false);
  }

  lemma ReadSide(p: Pool, k: nat, block: nat)
    requires PoolOk(p, true, block) && Finished(p.reading, k)
    ensures var p' := OnRead(p, k);
            && PoolOk(p', true, block) && Carried(p') == Carried(p)
            && Held(p'.writing, true) == Held(p.writing, true)
            && Held(p'.writing, false) == Held(p.writing, false) + p.reading[k].length
  {
    OnReadKeeps(p, k);
    var op := Op(p.reading[k].buffer, p.reading[k].length, false);
    HeldAppend(p.writing, op, true);
    HeldAppend(p.writing, op, false);
    ReadLeaves(p, k, block);
    assert Fits(p.writing + [op], block);
  }

  lemma ReadLeaves(p: Pool, k: nat, block: nat)
    requires k < |p.reading| && Fits(p.reading, block)
    ensures Fits(OnRead(p, k).reading, block)
    ensures Held(OnRead(p, k).reading, true) == Held(p.reading, true) - Share(p.reading[k], true)
  {
    HeldRemove(p.reading, k, true);
    FitsRemove(p.reading, k, block);
    ReadAddsNothing(Write(p.(reading := RemoveAt(p.reading, k)), p.reading[k].buffer, p.reading[k].length), block);
  }

  lemma WriteSide(p: Pool, k: nat, block: nat)
    requires PoolOk(p, true, block) && Finished(p.writing, k)
    ensures var p' := OnWrite(p, k);
            && PoolOk(p', true, block) && Carried(p') == Carried(p)
            && Held(p'.writing, true) == Held(p.writing, true) - p.writing[k].length
            && Held(p'.writing, false) == Held(p.writing, false)
  {
    OnWriteKeeps(p, k);
    HeldRemove(p.writing, k, true);
    HeldRemove(p.writing, k, false);
    FitsRemove(p.writing, k, block);
    ReadAddsNothing(Pool(p.stack + [p.writing[k].buffer], p.reading, RemoveAt(p.writing, k)), block);
  }

  /** Starting a read brings in no bytes. */
  lemma ReadAddsNothing(p: Pool, block: nat)
    requires Fits(p.reading, block)
    ensures Fits(Read(p).reading, block) && Held(Read(p).reading, true) == Held(p.reading, true)
  {
  }

  lemma StartClientKeeps(w: World)
    requires Inv(w) && Enabled(w, StartClient)
    ensures Inv(Do(w, StartClient))
  {
    var p := Read(NewPool());
    NewPoolPartitioned();
    ReadKeeps(NewPool());
    ReadAddsNothing(NewPool(), w.clientBlock);
    FirstWriteKeeps(p, w.clientBlock);
    var op := Op(p.stack[|p.stack| - 1], w.clientBlock, false);
    HeldAppend(p.writing, op, true);
    HeldAppend(p.writing, op, false);
  }

  /** The client starts with a read into the top buffer and its first packet from the next; the server with a read. */
  lemma StartsWith(clientBlock: nat, serverBlock: nat)
    ensures var w := Init(clientBlock, serverBlock);
            && Do(w, StartClient).client == Pool(UpTo(8), [Op(9, 0, false)], [Op(8, clientBlock, false)])
            && Do(w, StartServer).server == Pool(UpTo(9), [Op(9, 0, false)], [])
  {
    assert UpTo(10)[..9] == UpTo(9) && UpTo(9)[..8] == UpTo(8);
  }

  lemma StartServerKeeps(w: World)
    requires Inv(w) && Enabled(w, StartServer)
    ensures Inv(Do(w, StartServer))
  {
    NewPoolPartitioned();
    ReadKeeps(NewPool());
    ReadAddsNothing(NewPool(), w.serverBlock);
  }

  lemma ClientKeeps(w: World, step: Step)
    requires Inv(w) && w.clientStarted && Enabled(w, step)
    requires step.ClientReceive? || step.ClientRead? || step.ClientSend? || step.ClientWrite?
    ensures Inv(Do(w, step))
  {
    match step
    case ClientReceive(k, cb) => ReceiveSide(w.client, k, cb, w.clientBlock);
    case ClientRead(k) => ReadSide(w.client, k, w.clientBlock);
    case ClientSend(k, cb) => SendSide(w.client, k, cb, w.clientBlock);
    case ClientWrite(k) => WriteSide(w.client, k, w.clientBlock);
  }

  lemma ServerKeeps(w: World, step: Step)
    requires Inv(w) && w.serverStarted && Enabled(w, step)
    requires step.ServerReceive? || step.ServerRead? || step.ServerSend? || step.ServerWrite?
    ensures Inv(Do(w, step))
  {
    match step
    case ServerReceive(k, cb) => ReceiveSide(w.server, k, cb, w.serverBlock);
    case ServerRead(k) => ReadSide(w.server, k, w.serverBlock);
    case ServerSend(k, cb) => SendSide(w.server, k, cb, w.serverBlock);
    case ServerWrite(k) => WriteSide(w.server, k, w.serverBlock);
  }

  lemma StepKeeps(w: World, step: Step)
    requires Inv(w) && Enabled(w, step)
    ensures Inv(Do(w, step))
  {
    match step
    case StartClient => StartClientKeeps(w);
    case StartServer => StartServerKeeps(w);
    case ClientReceive(_, _) => ClientKeeps(w, step);
    case ClientRead(_) => ClientKeeps(w, step);
    case ClientSend(_, _) => ClientKeeps(w, step);
    case ClientWrite(_) => ClientKeeps(w, step);
    case _ => ServerKeeps(w, step);
  }

  /** Reads in flight become more only at the start, and where a write handler finds no buffer free: then by one. */
  lemma ReadsRise(w: World, step: Step)
    requires Inv(w) && Enabled(w, step)
    ensures |Do(w, step).client.reading| > |w.client.reading| ==>
              && |Do(w, step).client.reading| == |w.client.reading| + 1
              && (step.StartClient? || (step.ClientWrite? && |w.client.stack| == 0))
    ensures |Do(w, step).server.reading| > |w.server.reading| ==>
              && |Do(w, step).server.reading| == |w.server.reading| + 1
              && (step.StartServer? || (step.ServerWrite? && |w.server.stack| == 0))
  {
  }

  // ---------- Runs ----------

  ghost predicate Follows(w: World, w': World) {
    exists step :: Enabled(w, step) && w' == Do(w, step)
  }

  ghost predicate Run(states: seq<World>, clientBlock: nat, serverBlock: nat) {
    && |states| > 0 && states[0] == Init(clientBlock, serverBlock)
    && forall i | 0 <= i < |states| - 1 :: Follows(states[i], states[i + 1])
  }

  /** No step adds bytes once the client has started. */
  lemma FollowKeeps(w: World, w': World)
    requires Inv(w) && Follows(w, w')
    ensures Inv(w') && w'.clientBlock == w.clientBlock && w'.serverBlock == w.serverBlock
    ensures w.clientStarted ==> w'.clientStarted && Circulating(w') <= Circulating(w)
    ensures Dropped(w) <= Dropped(w')
    ensures w.clientStarted && |w'.client.reading| > |w.client.reading| ==> |w.client.stack| == 0
    ensures w.serverStarted && |w'.server.reading| > |w.server.reading| ==> |w.server.stack| == 0
  {
    var step :| Enabled(w, step) && w' == Do(w, step);
    StepKeeps(w, step);
    ReadsRise(w, step);
    assert Dropped(w) <= Dropped(w');
  }

  lemma {:induction false} RunKeeps(states: seq<World>, clientBlock: nat, serverBlock: nat, i: nat)
    requires Run(states, clientBlock, serverBlock) && i < |states|
    ensures Inv(states[i]) && states[i].clientBlock == clientBlock && states[i].serverBlock == serverBlock
    decreases i
  {
    if i == 0 {
      InitInv(clientBlock, serverBlock);
    } else {
      RunKeeps(states, clientBlock, serverBlock, i - 1);
      assert Follows(states[i - 1], states[i - 1 + 1]);
      FollowKeeps(states[i - 1], states[i]);
    }
  }

  /**
   In every state of every run: no buffer is lost or shared or run past, no side
   with a free buffer has stopped reading, no more than one block circulates,
   exactly one block does if and only if nothing was ever dropped, and the client
   has written at most one block more than it has read.
   */
  lemma RunsConserve(states: seq<World>, clientBlock: nat, serverBlock: nat, i: nat)
    requires Run(states, clientBlock, serverBlock) && i < |states| && states[i].clientStarted
    ensures PoolOk(states[i].client, true, clientBlock)
    ensures PoolOk(states[i].server, states[i].serverStarted, serverBlock)
    ensures Circulating(states[i]) <= clientBlock
    ensures Circulating(states[i]) == clientBlock <==> Dropped(states[i]) == 0
    ensures states[i].bytesWritten <= clientBlock + states[i].bytesRead
    ensures states[i].countWritten <= states[i].countRead + 1
  {
    RunKeeps(states, clientBlock, serverBlock, i);
  }

  /** Once a side has started, the reads in flight become more only when a write handler found no buffer free. */
  lemma RunsReadOn(states: seq<World>, clientBlock: nat, serverBlock: nat, i: nat)
    requires Run(states, clientBlock, serverBlock) && i < |states| - 1
    ensures states[i].clientStarted && |states[i + 1].client.reading| > |states[i].client.reading| ==>
              |states[i].client.stack| == 0
    ensures states[i].serverStarted && |states[i + 1].server.reading| > |states[i].server.reading| ==>
              |states[i].server.stack| == 0
  {
    RunKeeps(states, clientBlock, serverBlock, i);
    assert Follows(states[i], states[i + 1]);
    FollowKeeps(states[i], states[i + 1]);
  }

  /** Exactly the partial writes drop bytes. */
  lemma OnlyPartialWritesDrop(w: World, step: Step)
    requires Enabled(w, step)
    ensures Dropped(Do(w, step)) == Dropped(w) +
              match step
              case ClientSend(k, cb) => w.client.writing[k].length - cb
              case ServerSend(k, cb) => w.server.writing[k].length - cb
              case _ => 0
  {
  }

  lemma {:induction false} HeldSomewhere(ops: seq<Op>, done: bool) returns (k: nat)
    requires Held(ops, done) > 0
    ensures k < |ops| && ops[k].done == done && ops[k].length > 0
    decreases |ops|
  {
    k := |ops| - 1;
    if Share(ops[k], done) == 0 {
      k := HeldSomewhere(ops[..k], done);
    }
  }

  /**
   A step that gets bytes round and drops none: it moves some, or runs a handler,
   or it ends an empty write of a side that has to read again.
   */
  ghost predicate Advances(w: World, step: Step) {
    && Enabled(w, step) && Dropped(Do(w, step)) == Dropped(w)
    && match step
       case ClientReceive(_, cb) => cb > 0
       case ServerReceive(_, cb) => cb > 0
       case ClientSend(_, cb) => cb > 0 || |w.client.reading| == 0
       case ServerSend(_, cb) => cb > 0 || |w.server.reading| == 0
       case _ => true
  }

  lemma {:induction false} NothingHeld(ops: seq<Op>, done: bool, k: nat)
    requires k < |ops| && ops[k].done == done && Held(ops, done) == 0
    ensures ops[k].length == 0
    decreases |ops|
  {
    if k < |ops| - 1 {
      NothingHeld(ops[..|ops| - 1], done, k);
    }
  }

  /** A side with bytes to pass on, or bytes to fetch, can take such a step. */
  lemma ClientAdvances(w: World) returns (step: Step)
    requires Inv(w) && w.clientStarted && w.clientBlock > 0 && (Carried(w.client) > 0 || w.toClient > 0)
    ensures Advances(w, step)
  {
    if Held(w.client.reading, true) > 0 {
      var k := HeldSomewhere(w.client.reading, true);
      step := ClientRead(k);
    } else if Held(w.client.writing, false) > 0 {
      var k := HeldSomewhere(w.client.writing, false);
      step := ClientSend(k, w.client.writing[k].length);
    } else if |w.client.reading| > 0 {
      step := if w.client.reading[0].done then ClientRead(0) else ClientReceive(0, 1);
    } else if w.client.writing[0].done {
      step := ClientWrite(0);
    } else {
      NothingHeld(w.client.writing, false, 0);
      step := ClientSend(0, 0);
    }
  }

  lemma ServerAdvances(w: World) returns (step: Step)
    requires Inv(w) && w.serverStarted && w.serverBlock > 0 && (Carried(w.server) > 0 || w.toServer > 0)
    ensures Advances(w, step)
  {
    if Held(w.server.reading, true) > 0 {
      var k := HeldSomewhere(w.server.reading, true);
      step := ServerRead(k);
    } else if Held(w.server.writing, false) > 0 {
      var k := HeldSomewhere(w.server.writing, false);
      step := ServerSend(k, w.server.writing[k].length);
    } else if |w.server.reading| > 0 {
      step := if w.server.reading[0].done then ServerRead(0) else ServerReceive(0, 1);
    } else if w.server.writing[0].done {
      step := ServerWrite(0);
    } else {
      NothingHeld(w.server.writing, false, 0);
      step := ServerSend(0, 0);
    }
  }

  /** The echo never stalls: while bytes circulate there is a step that gets them round and loses none. */
  lemma NeverStuck(w: World)
    requires Inv(w) && w.clientStarted && w.serverStarted && w.serverBlock > 0 && Circulating(w) > 0
    ensures exists step :: Advances(w, step)
  {
    if Carried(w.client) > 0 || w.toClient > 0 {
      var step := ClientAdvances(w);
    } else {
      var step := ServerAdvances(w);
    }
  }

  // ---------- The objects ----------

  /** server2's session. */
  class ServerSession {
    const blockSize: nat
    var buffers: seq<nat>
    var closed: bool
    // What the socket owes.
    var reading: seq<Op>
    var writing: seq<Op>

    function Now(): Pool
      reads this
    {
      Pool(buffers, reading, writing)
    }

    constructor (block: nat)
      ensures Now() == NewPool() && !closed && blockSize == block
    {
      blockSize := block;
      buffers, reading, writing, closed := UpTo(STACK_SIZE), [], [], false;
    }

    /** `read()`, and `start()`, which only calls it. */
    method StartRead()
      modifies this
      ensures Now() == Read(old(Now())) && closed == old(closed)
    {
      if |buffers| == 0 {
        return;
      }
      var buffer := buffers[|buffers| - 1];
      buffers := buffers[..|buffers| - 1];
      reading := reading + [Op(buffer, 0, false)];
    }

    method StartWrite(buffer: nat, length: nat)
      modifies `writing
      ensures Now() == Write(old(Now()), buffer, length)
    {
      writing := writing + [Op(buffer, length, false)];
    }

    /** The `k`-th read gets `cb` bytes. */
    method Received(k: nat, cb: nat)
      requires k < |reading|
      modifies `reading
      ensures reading == Finish(old(reading), k, cb)
    {
      reading := reading[k := Op(reading[k].buffer, cb, true)];
    }

    /** The `k`-th write writes `cb` bytes. */
    method Sent(k: nat, cb: nat)
      requires k < |writing|
      modifies `writing
      ensures writing == Finish(old(writing), k, cb)
    {
      writing := writing[k := Op(writing[k].buffer, cb, true)];
    }

    /** The handler of the `k`-th read. On an error the session closes and the buffer is not put back. */
    method ReadDone(k: nat, cb: nat, err: bool)
      requires k < |reading| && (!err ==> Finished(reading, k) && cb == reading[k].length)
      modifies this
      ensures !err ==> Now() == OnRead(old(Now()), k) && closed == old(closed)
      ensures err ==> Now() == old(Now()).(reading := RemoveAt(old(reading), k)) && closed
    {
      var buffer := reading[k].buffer;
      reading := RemoveAt(reading, k);
      if !err {
        StartWrite(buffer, cb);
        StartRead();
      } else {
        closed := true;
      }
    }

    /** The handler of the `k`-th write. The buffer goes back on the stack even on an error. */
    method WriteDone(k: nat, err: bool)
      requires k < |writing| && (!err ==> Finished(writing, k))
      modifies this
      ensures !err ==> Now() == OnWrite(old(Now()), k) && closed == old(closed)
      ensures err ==> closed
      ensures err ==> Now() == Pool(old(buffers) + [old(writing)[k].buffer], old(reading), RemoveAt(old(writing), k))
    {
      var buffer := writing[k].buffer;
      writing := RemoveAt(writing, k);
      var needRead := |buffers| == 0;
      buffers := buffers + [buffer];
      if needRead && !err {
        StartRead();
      }
      if err {
        closed := true;
      }
    }
  }

  /** client2's session. */
  class ClientSession {
    const blockSize: nat
    var buffers: seq<nat>
    var bytesWritten: nat
    var bytesRead: nat
    var countWritten: nat
    var countRead: nat
    var error: bool
    var wantClose: bool
    var reading: seq<Op>
    var writing: seq<Op>

    function Now(): Pool
      reads this
    {
      Pool(buffers, reading, writing)
    }

    constructor (block: nat)
      ensures Now() == NewPool() && blockSize == block && bytesWritten == bytesRead == countWritten == countRead == 0 && !error && !wantClose
    {
      blockSize := block;
      buffers, reading, writing := UpTo(STACK_SIZE), [], [];
      bytesWritten, bytesRead, countWritten, countRead := 0, 0, 0, 0;
      error, wantClose := false, false;
    }

    /** `read()`. */
    method StartRead()
      modifies `buffers, `reading
      ensures Now() == Read(old(Now()))
    {
      if |buffers| == 0 {
        return;
      }
      var buffer := buffers[|buffers| - 1];
      buffers := buffers[..|buffers| - 1];
      reading := reading + [Op(buffer, 0, false)];
    }

    method StartWrite(buffer: nat, length: nat)
      modifies `writing
      ensures Now() == Write(old(Now()), buffer, length)
    {
      writing := writing + [Op(buffer, length, false)];
    }

    /** The connect handler: one read, then the first packet. */
    method Connected()
      requires |buffers| >= 2
      modifies `buffers, `reading, `writing
      ensures Now() == FirstWrite(Read(old(Now())), blockSize)
    {
      StartRead();
      var buffer := buffers[|buffers| - 1];
      buffers := buffers[..|buffers| - 1];
      StartWrite(buffer, blockSize);
    }

    /** The `k`-th read gets `cb` bytes. */
    method Received(k: nat, cb: nat)
      requires k < |reading|
      modifies `reading
      ensures reading == Finish(old(reading), k, cb)
    {
      reading := reading[k := Op(reading[k].buffer, cb, true)];
    }

    /** The `k`-th write writes `cb` bytes. */
    method Sent(k: nat, cb: nat)
      requires k < |writing|
      modifies `writing
      ensures writing == Finish(old(writing), k, cb)
    {
      writing := writing[k := Op(writing[k].buffer, cb, true)];
    }

    /** The handler of the `k`-th read. */
    method ReadDone(k: nat, cb: nat, err: bool)
      requires k < |reading| && (!err ==> Finished(reading, k) && cb == reading[k].length)
      modifies this
      ensures !err ==> Now() == OnRead(old(Now()), k)
      ensures !err ==> bytesRead == old(bytesRead) + cb && countRead == old(countRead) + 1 && error == old(error)
      ensures err ==> Now() == old(Now()).(reading := RemoveAt(old(reading), k))
      ensures err ==> bytesRead == old(bytesRead) && countRead == old(countRead) && error == (old(error) || !wantClose)
      ensures bytesWritten == old(bytesWritten) && countWritten == old(countWritten) && wantClose == old(wantClose)
    {
      var buffer := reading[k].buffer;
      reading := RemoveAt(reading, k);
      if !err {
        bytesRead := bytesRead + cb;
        countRead := countRead + 1;
        StartWrite(buffer, cb);
        StartRead();
      } else if !wantClose {
        error := true;
      }
    }

    /** The handler of the `k`-th write. */
    method WriteDone(k: nat, cb: nat, err: bool)
      requires k < |writing| && (!err ==> Finished(writing, k) && cb == writing[k].length)
      modifies this
      ensures !err ==> Now() == OnWrite(old(Now()), k)
      ensures !err ==> bytesWritten == old(bytesWritten) + cb && countWritten == old(countWritten) + 1 && error == old(error)
      ensures err ==> Now() == Pool(old(buffers) + [old(writing)[k].buffer], old(reading), RemoveAt(old(writing), k))
      ensures err ==> bytesWritten == old(bytesWritten) && countWritten == old(countWritten)
      ensures err ==> error == (old(error) || !wantClose)
      ensures bytesRead == old(bytesRead) && countRead == old(countRead) && wantClose == old(wantClose)
    {
      var buffer := writing[k].buffer;
      writing := RemoveAt(writing, k);
      var needRead := |buffers| == 0;
      buffers := buffers + [buffer];
      if !err {
        bytesWritten := bytesWritten + cb;
        countWritten := countWritten + 1;
        if needRead {
          StartRead();
        }
      } else if !wantClose {
        error := true;
      }
    }

    /** `stop()`: errors from now on are not recorded. */
    method Stop()
      modifies `wantClose
      ensures wantClose
    {
      wantClose := true;
    }
  }

  /** A client session and the server session at the other end of its connection. */
  class Connection {
    const client: ClientSession
    const server: ServerSession
    var clientStarted: bool
    var serverStarted: bool
    // Bytes under way in each direction.
    var toServer: nat
    var toClient: nat
    // History: bytes partial writes never sent.
    var droppedByClient: nat
    var droppedByServer: nat

    function Now(): World
      reads this, client, server
    {
      World(client.Now(), server.Now(), client.blockSize, server.blockSize, clientStarted, serverStarted,
            toServer, toClient, client.bytesWritten, client.bytesRead, client.countWritten, client.countRead,
            droppedByClient, droppedByServer)
    }

    ghost predicate Valid()
      reads this, client, server
    {
      Inv(Now())
    }

    constructor (clientBlock: nat, serverBlock: nat)
      ensures Valid() && Now() == Init(clientBlock, serverBlock) && fresh(client) && fresh(server)
    {
      client := new ClientSession(clientBlock);
      server := new ServerSession(serverBlock);
      clientStarted, serverStarted, toServer, toClient, droppedByClient, droppedByServer := false, false, 0, 0, 0, 0;
      InitInv(clientBlock, serverBlock);
    }

    method FireClient(step: Step)
      requires Enabled(Now(), step)
      requires step.ClientReceive? || step.ClientRead? || step.ClientSend? || step.ClientWrite?
      modifies this, client
      ensures Now() == Do(old(Now()), step)
    {
      match step
      case ClientReceive(k, cb) =>
        client.Received(k, cb);
        toClient := toClient - cb;
      case ClientRead(k) => client.ReadDone(k, client.reading[k].length, false);
      case ClientSend(k, cb) =>
        droppedByClient := droppedByClient + (client.writing[k].length - cb);
        client.Sent(k, cb);
        toServer := toServer + cb;
      case ClientWrite(k) => client.WriteDone(k, client.writing[k].length, false);
    }

    method FireServer(step: Step)
      requires Enabled(Now(), step)
      requires step.ServerReceive? || step.ServerRead? || step.ServerSend? || step.ServerWrite?
      modifies this, server
      ensures Now() == Do(old(Now()), step)
    {
      match step
      case ServerReceive(k, cb) =>
        server.Received(k, cb);
        toServer := toServer - cb;
      case ServerRead(k) => server.ReadDone(k, server.reading[k].length, false);
      case ServerSend(k, cb) =>
        droppedByServer := droppedByServer + (server.writing[k].length - cb);
        server.Sent(k, cb);
        toClient := toClient + cb;
      case ServerWrite(k) => server.WriteDone(k, false);
    }

    method FireStart(step: Step)
      requires Enabled(Now(), step) && (step.StartClient? || step.StartServer?)
      modifies this, client, server
      ensures Now() == Do(old(Now()), step)
    {
      if step.StartClient? {
        client.Connected();
        clientStarted := true;
      } else {
        server.StartRead();
        serverStarted := true;
      }
    }

    method FireAny(step: Step)
      requires Enabled(Now(), step)
      modifies this, client, server
      ensures Now() == Do(old(Now()), step)
    {
      if step.StartClient? || step.StartServer? {
        FireStart(step);
      } else if step.ClientReceive? || step.ClientRead? || step.ClientSend? || step.ClientWrite? {
        FireClient(step);
      } else {
        FireServer(step);
      }
    }

    method Fire(step: Step)
      requires Valid() && Enabled(Now(), step)
      modifies this, client, server
      ensures Valid() && Now() == Do(old(Now()), step)
    {
      StepKeeps(Now(), step);
      FireAny(step);
    }

    /**
     The two sessions and the network for any number of turns, in each of which
     any step that can be taken may be, or the client's `stop()` may run ahead of
     completions already queued: buffers and bytes are conserved throughout.
     */
    method Drive(turns: nat)
      requires Valid()
      modifies this, client, server
      ensures PoolOk(client.Now(), clientStarted, client.blockSize) && PoolOk(server.Now(), serverStarted, server.blockSize)
      ensures clientStarted ==> Circulating(Now()) + Dropped(Now()) == client.blockSize
      ensures clientStarted ==> client.bytesWritten <= client.blockSize + client.bytesRead
    {
      for i := 0 to turns
        invariant Valid()
      {
        var step: Step := *;
        var stop: bool := *;
        if stop {
          client.Stop();
        } else if Enabled(Now(), step) {
          Fire(step);
        }
      }
    }
  }
}
