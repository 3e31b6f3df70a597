/**
 client3 and server3: a counted ping-pong of framed packets over two byte
 streams. Each side has one 10008-byte buffer that it writes from and reads into.

 A step either moves some bytes of the write or read in progress, or runs the
 completion handler of one that is complete. The server trusts the body length in
 the header, so that it stays inside its buffer is a property of both programs
 together. `Overrun` stands for an operation that would leave the buffer.
 */
module FramedEcho {
  import opened Bytes
  import opened Framing

  // ---------- One side ----------

  datatype Phase =
    | Idle
    | Writing(size: nat)
    | ReadingHead
    | ReadingBody(size: nat)
    | Closed
    | Broken
    | Overrun

  /** A session: its buffer, the operation in progress, and how many bytes of it have moved. */
  datatype Side = Side(buf: seq<Byte>, phase: Phase, moved: nat)

  predicate Gone(s: Side) { s.phase.Closed? || s.phase.Broken? }

  predicate IsReading(s: Side) { s.phase.ReadingHead? || s.phase.ReadingBody? }

  /** Bytes the operation in progress must move. */
  function Wanted(s: Side): nat {
    match s.phase
    case Writing(size) => size
    case ReadingHead => HEADER
    case ReadingBody(size) => size
    case _ => 0
  }

  /** Where in the buffer the next byte goes to or comes from. */
  function Offset(s: Side): nat {
    if s.phase.ReadingBody? then HEADER + s.moved else s.moved
  }

  predicate Busy(s: Side) { s.phase.Writing? || IsReading(s) }

  predicate Complete(s: Side) { Busy(s) && s.moved == Wanted(s) }

  predicate CanSend(s: Side, k: nat) {
    s.phase.Writing? && 0 < k && s.moved + k <= Wanted(s) && s.moved + k <= |s.buf|
  }

  predicate CanReceive(s: Side, wire: seq<Byte>, k: nat) {
    IsReading(s) && 0 < k <= |wire| && s.moved + k <= Wanted(s) && Offset(s) + k <= |s.buf|
  }

  /** An operation fails once the peer is gone and nothing more will arrive. */
  predicate CanFail(s: Side, wire: seq<Byte>, peer: Side) {
    Gone(peer) && s.moved < Wanted(s) && (s.phase.Writing? || |wire| == 0)
  }

  /** `async_write` of the whole packet in the buffer. */
  function BeginWrite(s: Side): Side
    requires |s.buf| >= HEADER
  {
    s.(phase := if FullSize(s.buf) <= |s.buf| then Writing(FullSize(s.buf)) else Overrun, moved := 0)
  }

  /** `read_head()`. */
  function BeginHead(s: Side): Side { s.(phase := ReadingHead, moved := 0) }

  /** `read_body()`. */
  function BeginBody(s: Side): Side
    requires |s.buf| >= HEADER
  {
    var size := WordAt(s.buf, 0);
    s.(phase := if HEADER + size <= |s.buf| then ReadingBody(size) else Overrun, moved := 0)
  }

  /** `socket_.close()`. */
  function Close(s: Side): Side { s.(phase := Closed, moved := 0) }

  /** An operation ends in an error; its handler starts nothing. */
  function Fail(s: Side): Side { s.(phase := Broken, moved := 0) }

  /** `check_count()`. */
  predicate CountReached(buf: seq<Byte>, total: nat)
    requires |buf| >= HEADER
  {
    WordAt(buf, 4) >= total
  }

  function Receive(s: Side, wire: seq<Byte>, k: nat): Side
    requires CanReceive(s, wire, k)
  {
    s.(buf := Stored(s.buf, Offset(s), Sub(wire, 0, k)), moved := s.moved + k)
  }

  // ---------- The two programs ----------

  /** `frames` counts the packets the client has begun to send. */
  datatype Client = Client(side: Side, total: nat, bodyLen: nat, finished: bool, frames: nat)

  /** `replies` counts the packets the server has finished sending. */
  datatype Server = Server(side: Side, total: nat, replies: nat)

  /** `get_body_len()`: the value returned; the field becomes one more. */
  function BodyLen(field: nat): nat { if field > MAX_BODY then 100 else field }

  function ClientConnected(c: Client): Client
    requires |c.side.buf| >= HEADER && BodyLen(c.bodyLen) < WORD
  {
    var len := BodyLen(c.bodyLen);
    c.(side := BeginWrite(c.side.(buf := PutWord(PutWord(c.side.buf, 0, len), 4, 1))), bodyLen := len + 1, frames := c.frames + 1)
  }

  function ClientHandle(c: Client): Client
    requires Complete(c.side) && |c.side.buf| >= HEADER && BodyLen(c.bodyLen) < WORD
  {
    if c.side.phase.Writing? then c.(side := BeginHead(c.side))
    else if c.side.phase.ReadingHead? then c.(side := BeginBody(c.side))
    else if CountReached(c.side.buf, c.total) then c.(side := Close(c.side), finished := true)
    else
      var len := BodyLen(c.bodyLen);
      c.(side := BeginWrite(c.side.(buf := IncCount(PutWord(c.side.buf, 0, len)))),
         bodyLen := len + 1, frames := c.frames + 1)
  }

  function ServerHandle(s: Server): Server
    requires Complete(s.side) && |s.side.buf| >= HEADER
  {
    if s.side.phase.ReadingHead? then s.(side := BeginBody(s.side))
    else
      var reached := CountReached(s.side.buf, s.total);
      if s.side.phase.Writing? then
        s.(side := if reached then Close(s.side) else BeginHead(s.side), replies := s.replies + 1)
      else
        s.(side := if reached then Close(s.side) else BeginWrite(s.side.(buf := IncCount(s.side.buf))))
  }

  datatype World = World(client: Client, server: Server, toServer: seq<Byte>, toClient: seq<Byte>)

  /** Both sessions connected to each other; the client's connect handler has yet to run. The buffers hold anything. */
  function Init(clientBuf: seq<Byte>, serverBuf: seq<Byte>, clientTotal: nat, serverTotal: nat): World {
    World(Client(Side(clientBuf, Idle, 0), clientTotal, 100, false, 0),
          Server(Side(serverBuf, ReadingHead, 0), serverTotal, 0), [], [])
  }

  datatype Step =
    | Connect
    | ClientSend(k: nat)
    | ClientReceive(k: nat)
    | ClientRun
    | ClientFail
    | ServerSend(k: nat)
    | ServerReceive(k: nat)
    | ServerRun
    | ServerFail

  predicate Sized(w: World) {
    |w.client.side.buf| == |w.server.side.buf| == BLOCK && BodyLen(w.client.bodyLen) < WORD
  }

  predicate Enabled(w: World, step: Step) {
    && Sized(w)
    && match step
       case Connect => w.client.side.phase.Idle?
       case ClientSend(k) => CanSend(w.client.side, k)
       case ClientReceive(k) => CanReceive(w.client.side, w.toClient, k)
       case ClientRun => Complete(w.client.side)
       case ClientFail => CanFail(w.client.side, w.toClient, w.server.side)
       case ServerSend(k) => CanSend(w.server.side, k)
       case ServerReceive(k) => CanReceive(w.server.side, w.toServer, k)
       case ServerRun => Complete(w.server.side)
       case ServerFail => CanFail(w.server.side, w.toServer, w.client.side)
  }

  function Advance(s: Side, k: nat): Side { s.(moved := s.moved + k) }

  function Do(w: World, step: Step): World
    requires Enabled(w, step)
  {
    match step
    case Connect => w.(client := ClientConnected(w.client))
    case ClientSend(k) =>
      w.(client := w.client.(side := Advance(w.client.side, k)),
         toServer := w.toServer + Sub(w.client.side.buf, w.client.side.moved, k))
    case ClientReceive(k) =>
      w.(client := w.client.(side := Receive(w.client.side, w.toClient, k)),
         toClient := Sub(w.toClient, k, |w.toClient| - k))
    case ClientRun => w.(client := ClientHandle(w.client))
    case ClientFail => w.(client := w.client.(side := Fail(w.client.side)))
    case ServerSend(k) =>
      w.(server := w.server.(side := Advance(w.server.side, k)),
         toClient := w.toClient + Sub(w.server.side.buf, w.server.side.moved, k))
    case ServerReceive(k) =>
      w.(server := w.server.(side := Receive(w.server.side, w.toServer, k)),
         toServer := Sub(w.toServer, k, |w.toServer| - k))
    case ServerRun => w.(server := ServerHandle(w.server))
    case ServerFail => w.(server := w.server.(side := Fail(w.server.side)))
  }

  // ---------- The packets of a run ----------

  /** Body length of the client's `j`-th packet. */
  function Len(j: nat): (n: nat)
    requires j >= 1
    ensures 100 <= n <= MAX_BODY
  {
    100 + (j - 1) % 9901
  }

  /** The client's `j`-th packet. */
  function Request(j: nat, body: seq<Byte>): Frame
    requires j >= 1
  {
    Frame(Len(j), 2 * j - 1, body)
  }

  /** The server's answer to it: the same body, the count one higher. */
  function Reply(j: nat, body: seq<Byte>): Frame
    requires j >= 1
  {
    Frame(Len(j), 2 * j, body)
  }

  lemma NextLen(j: nat)
    requires j >= 1
    ensures Len(j + 1) == BodyLen(Len(j) + 1)
  {
    var r := (j - 1) % 9901;
    if r < 9900 {
      assert j % 9901 == r + 1;
    } else {
      assert j % 9901 == 0;
    }
  }

  // ---------- What every run keeps ----------

  /** How much of the packet being received is in the buffer. */
  function Got(s: Side): nat { if IsReading(s) then Offset(s) else 0 }

  /** How much of a packet of the given size has been put on the wire. */
  function Put(s: Side, size: nat): nat { if s.phase.Writing? then s.moved else size }

  /** In the middle of receiving a packet with the given body length. */
  predicate Receiving(s: Side, length: nat) {
    match s.phase
    case ReadingHead => s.moved <= HEADER
    case ReadingBody(size) => size == length && s.moved <= length
    case _ => false
  }

  predicate Rested(s: Side) { s.phase.ReadingHead? && s.moved == 0 }

  predicate WroteAll(s: Side, size: nat) { s.phase == Writing(size) && s.moved == size }

  predicate HasCount(s: Side, count: nat) { |s.buf| >= HEADER && WordAt(s.buf, 4) == count }

  /** The server's last answer, if any, carried a count below its total. */
  predicate GoesOn(s: Server) { s.replies > 0 ==> 2 * s.replies < s.total }

  /** Having sent an answer the server reads on if its count is below the total, and has closed if not. */
  predicate AfterReply(s: Server) {
    if 2 * s.replies < s.total then Rested(s.side) else s.side.phase == Closed
  }

  /** The parts that hold from beginning to end; the body part of the client's buffer never changes. */
  ghost predicate Always(w: World, body: seq<Byte>) {
    && w.client.total < WORD && w.server.total < WORD
    && BodyIs(w.client.side.buf, body) && |w.server.side.buf| == BLOCK
  }

  ghost predicate AtStart(w: World) {
    && w.client.side.phase == Idle && w.client.frames == 0 && w.client.bodyLen == 100 && !w.client.finished
    && Rested(w.server.side) && w.server.replies == 0
    && w.toServer == [] && w.toClient == []
  }

  /** Once the client has sent packet `frames`. */
  ghost predicate Under(w: World) {
    var j := w.client.frames;
    && j >= 1 && w.client.bodyLen == Len(j) + 1
    && (j > 1 ==> 2 * (j - 1) < w.client.total && 2 * (j - 1) <= w.server.total)
  }

  /** Packet `frames` is on its way to the server, which may still owe the handler of its last write. */
  ghost predicate InRequest(w: World, body: seq<Byte>)
    requires Under(w)
  {
    var j := w.client.frames;
    var f := Request(j, body);
    && !w.client.finished && w.toClient == []
    && ((w.client.side.phase == Writing(f.Size()) && w.client.side.moved <= f.Size()) || Rested(w.client.side))
    && Starts(w.client.side.buf, f, f.Size())
    && (if j > 1 && WroteAll(w.server.side, HEADER + Len(j - 1))
        then w.server.replies == j - 2 && HasCount(w.server.side, 2 * (j - 1))
        else w.server.replies == j - 1 && Receiving(w.server.side, Len(j)) && GoesOn(w.server))
    && Starts(w.server.side.buf, f, Got(w.server.side))
    && OnWire(w.toServer, f, Got(w.server.side), Put(w.client.side, f.Size()))
  }

  /** The answer to packet `frames` is on its way to the client, which may still owe the handler of its write. */
  ghost predicate InReply(w: World, body: seq<Byte>)
    requires Under(w)
  {
    var j := w.client.frames;
    var f := Reply(j, body);
    && !w.client.finished && w.toServer == [] && 2 * j <= w.server.total
    && (if w.server.side.phase == Writing(f.Size())
        then w.server.replies == j - 1 && w.server.side.moved <= f.Size() && Starts(w.server.side.buf, f, f.Size())
        else w.server.replies == j && AfterReply(w.server))
    && (WroteAll(w.client.side, f.Size()) || Receiving(w.client.side, Len(j)))
    && Starts(w.client.side.buf, f, Got(w.client.side))
    && OnWire(w.toClient, f, Got(w.client.side), Put(w.server.side, f.Size()))
  }

  /** The channel holds a part of the packet that ends at `to`. */
  ghost predicate PartUpTo(wire: seq<Byte>, f: Frame, to: nat) {
    exists from: nat :: OnWire(wire, f, from, to)
  }

  /** The channel holds a part of the packet. */
  ghost predicate PartOf(wire: seq<Byte>, f: Frame) {
    exists to: nat :: PartUpTo(wire, f, to)
  }

  /** The server has closed without answering packet `frames`; what is left of it may still be on the channel. */
  ghost predicate Orphaned(w: World, body: seq<Byte>)
    requires Under(w)
  {
    var f := Request(w.client.frames, body);
    && !w.client.finished && w.server.side.phase == Closed && w.toClient == [] && PartOf(w.toServer, f)
    && w.server.total <= 2 * w.client.frames - 1 && w.server.replies <= w.client.frames
    && match w.client.side.phase
       case Writing(size) =>
         && w.client.side.moved <= size == f.Size() && Starts(w.client.side.buf, f, size)
         && PartUpTo(w.toServer, f, w.client.side.moved)
       case ReadingHead => w.client.side.moved == 0
       case Broken => true
       case _ => false
  }

  /** The client has finished; the server may still owe the handler of its last write. */
  ghost predicate Finished(w: World)
    requires Under(w)
  {
    var j := w.client.frames;
    && w.client.finished && w.client.side.phase == Closed && w.toServer == [] && w.toClient == []
    && w.client.total <= 2 * j <= w.server.total
    && if WroteAll(w.server.side, HEADER + Len(j))
       then w.server.replies == j - 1 && HasCount(w.server.side, 2 * j)
       else w.server.replies == j && (AfterReply(w.server) || (w.server.side.phase == Broken && GoesOn(w.server)))
  }

  ghost predicate Inv(w: World, body: seq<Byte>) {
    && Always(w, body)
    && (AtStart(w) || (Under(w) && (InRequest(w, body) || InReply(w, body) || Orphaned(w, body) || Finished(w))))
  }

  // ---------- A packet on its way to the server ----------

  lemma ConnectKeeps(w: World, body: seq<Byte>)
    requires Always(w, body) && AtStart(w)
    requires Enabled(w, Connect)
    ensures Inv(Do(w, Connect), body)
  {
    var f := Request(1, body);
    HeaderMakes(w.client.side.buf, f);
    var w' := Do(w, Connect);
    HeaderOf(w'.client.side.buf, f, f.Size());
    assert InRequest(w', body);
  }

  lemma RequestSend(w: World, body: seq<Byte>, k: nat)
    requires Always(w, body) && Under(w) && InRequest(w, body)
    requires Enabled(w, ClientSend(k))
    ensures Inv(Do(w, ClientSend(k)), body)
  {
    var f := Request(w.client.frames, body);
    SendChunk(w.toServer, w.client.side.buf, f, Got(w.server.side), w.client.side.moved, k);
    assert InRequest(Do(w, ClientSend(k)), body);
  }

  lemma RequestSent(w: World, body: seq<Byte>)
    requires Always(w, body) && Under(w) && InRequest(w, body)
    requires Enabled(w, ClientRun)
    ensures Inv(Do(w, ClientRun), body)
  {
  }

  /** A side in the middle of a packet goes on with it. */
  lemma ReceivePart(s: Side, wire: seq<Byte>, f: Frame, to: nat, k: nat)
    requires CanReceive(s, wire, k) && Receiving(s, f.length)
    requires Starts(s.buf, f, Got(s)) && OnWire(wire, f, Got(s), to)
    ensures var s' := Receive(s, wire, k);
            && s'.phase == s.phase && Receiving(s', f.length) && Starts(s'.buf, f, Got(s'))
            && OnWire(Sub(wire, k, |wire| - k), f, Got(s'), to) && (BodyIs(s.buf, f.body) ==> BodyIs(s'.buf, f.body))
  {
    ReceiveChunk(wire, s.buf, f, Got(s), to, k);
  }

  lemma RequestReceive(w: World, body: seq<Byte>, k: nat)
    requires Always(w, body) && Under(w) && InRequest(w, body)
    requires Enabled(w, ServerReceive(k))
    ensures Inv(Do(w, ServerReceive(k)), body)
  {
    var f := Request(w.client.frames, body);
    ReceivePart(w.server.side, w.toServer, f, Put(w.client.side, f.Size()), k);
    assert InRequest(Do(w, ServerReceive(k)), body);
  }

  lemma RequestRun(w: World, body: seq<Byte>)
    requires Always(w, body) && Under(w) && InRequest(w, body)
    requires Enabled(w, ServerRun)
    ensures Inv(Do(w, ServerRun), body)
  {
    if w.server.side.phase.Writing? {
      var f, w' := Request(w.client.frames, body), Do(w, ServerRun);
      assert PartUpTo(w'.toServer, f, Put(w.client.side, f.Size()));
      assert InRequest(w', body) || Orphaned(w', body);
    } else if w.server.side.phase.ReadingHead? {
      HeaderOf(w.server.side.buf, Request(w.client.frames, body), HEADER);
      assert InRequest(Do(w, ServerRun), body);
    } else {
      Answer(w, body);
    }
  }

  /** The server has the whole packet: it closes, or turns the packet into the answer. */
  lemma Answer(w: World, body: seq<Byte>)
    requires Always(w, body) && Under(w) && InRequest(w, body)
    requires Enabled(w, ServerRun) && w.server.side.phase.ReadingBody?
    ensures Inv(Do(w, ServerRun), body)
  {
    var f := Request(w.client.frames, body);
    var w' := Do(w, ServerRun);
    HeaderOf(w.server.side.buf, f, f.Size());
    if w.server.total <= f.count {
      assert PartUpTo(w'.toServer, f, f.Size());
      assert Orphaned(w', body);
    } else {
      IncMakes(w.server.side.buf, f);
      HeaderOf(w'.server.side.buf, Reply(w.client.frames, body), f.Size());
      assert InReply(w', body);
    }
  }

  lemma RequestKeeps(w: World, body: seq<Byte>, step: Step)
    requires Always(w, body) && Under(w) && InRequest(w, body)
    requires Enabled(w, step)
    ensures Inv(Do(w, step), body)
  {
    match step
    case ClientSend(k) => RequestSend(w, body, k);
    case ClientRun => RequestSent(w, body);
    case ServerReceive(k) => RequestReceive(w, body, k);
    case ServerRun => RequestRun(w, body);
    case _ => assert false;
  }

  // ---------- The answer on its way to the client ----------

  lemma ReplySend(w: World, body: seq<Byte>, k: nat)
    requires Always(w, body) && Under(w) && InReply(w, body)
    requires Enabled(w, ServerSend(k))
    ensures Inv(Do(w, ServerSend(k)), body)
  {
    var f := Reply(w.client.frames, body);
    SendChunk(w.toClient, w.server.side.buf, f, Got(w.client.side), w.server.side.moved, k);
    assert InReply(Do(w, ServerSend(k)), body);
  }

  lemma ReplySent(w: World, body: seq<Byte>)
    requires Always(w, body) && Under(w) && InReply(w, body)
    requires Enabled(w, ServerRun)
    ensures Inv(Do(w, ServerRun), body)
  {
    HeaderOf(w.server.side.buf, Reply(w.client.frames, body), HEADER + Len(w.client.frames));
    assert InReply(Do(w, ServerRun), body);
  }

  lemma ReplyReceive(w: World, body: seq<Byte>, k: nat)
    requires Always(w, body) && Under(w) && InReply(w, body)
    requires Enabled(w, ClientReceive(k))
    ensures Inv(Do(w, ClientReceive(k)), body)
  {
    var f := Reply(w.client.frames, body);
    ReceivePart(w.client.side, w.toClient, f, Put(w.server.side, f.Size()), k);
    assert InReply(Do(w, ClientReceive(k)), body);
  }

  lemma ReplyRun(w: World, body: seq<Byte>)
    requires Always(w, body) && Under(w) && InReply(w, body)
    requires Enabled(w, ClientRun)
    ensures Inv(Do(w, ClientRun), body)
  {
    var f := Reply(w.client.frames, body);
    var w' := Do(w, ClientRun);
    if w.client.side.phase.Writing? {
      assert InReply(w', body);
    } else if w.client.side.phase.ReadingHead? {
      HeaderOf(w.client.side.buf, f, HEADER);
      assert InReply(w', body);
    } else {
      HeaderOf(w.client.side.buf, f, f.Size());
      if w.client.total <= f.count {
        assert Finished(w');
      } else {
        NextRequest(w, body);
      }
    }
  }

  /** The client turns the answer into its next packet over the same body. */
  lemma NextPacket(w: World, body: seq<Byte>)
    requires Always(w, body) && Under(w) && InReply(w, body)
    requires Enabled(w, ClientRun) && w.client.side.phase.ReadingBody? && 2 * w.client.frames < w.client.total
    ensures var c, f := ClientHandle(w.client), Request(w.client.frames + 1, body);
            && c.side.phase == Writing(f.Size()) && c.side.moved == 0 && c.frames == w.client.frames + 1
            && c.bodyLen == f.length + 1 && !c.finished && c.total == w.client.total
            && BodyIs(c.side.buf, body) && Starts(c.side.buf, f, f.Size())
  {
    var j := w.client.frames;
    var f, f' := Reply(j, body), Request(j + 1, body);
    var buf := w.client.side.buf;
    HeaderOf(buf, f, f.Size());
    NextLen(j);
    HeaderMakes(buf, f');
    assert WordAt(PutWord(buf, 0, f'.length), 4) == f.count;
    HeaderOf(PutWord(PutWord(buf, 0, f'.length), 4, f'.count), f', f'.Size());
  }

  lemma NextRequest(w: World, body: seq<Byte>)
    requires Always(w, body) && Under(w) && InReply(w, body)
    requires Enabled(w, ClientRun) && w.client.side.phase.ReadingBody? && 2 * w.client.frames < w.client.total
    ensures Inv(Do(w, ClientRun), body)
  {
    NextPacket(w, body);
    var f := Reply(w.client.frames, body);
    var w' := Do(w, ClientRun);
    if w.server.side.phase.Writing? {
      HeaderOf(w.server.side.buf, f, f.Size());
      assert InRequest(w', body);
    } else if w.server.side.phase.ReadingHead? {
      assert InRequest(w', body);
    } else {
      var f' := Request(w'.client.frames, body);
      assert OnWire(w'.toServer, f', 0, 0) && PartUpTo(w'.toServer, f', 0);
      assert Orphaned(w', body);
    }
  }

  lemma ReplyKeeps(w: World, body: seq<Byte>, step: Step)
    requires Always(w, body) && Under(w) && InReply(w, body)
    requires Enabled(w, step)
    ensures Inv(Do(w, step), body)
  {
    match step
    case ServerSend(k) => ReplySend(w, body, k);
    case ServerRun => ReplySent(w, body);
    case ClientReceive(k) => ReplyReceive(w, body, k);
    case ClientRun => ReplyRun(w, body);
    case _ => assert false;
  }

  // ---------- One of them gone ----------

  lemma OrphanedSend(w: World, body: seq<Byte>, k: nat)
    requires Always(w, body) && Under(w) && Orphaned(w, body)
    requires Enabled(w, ClientSend(k))
    ensures Inv(Do(w, ClientSend(k)), body)
  {
    var f, to := Request(w.client.frames, body), w.client.side.moved;
    var from: nat :| OnWire(w.toServer, f, from, to);
    SendChunk(w.toServer, w.client.side.buf, f, from, to, k);
    var w' := Do(w, ClientSend(k));
    assert PartUpTo(w'.toServer, f, to + k);
    assert Orphaned(w', body);
  }

  lemma OrphanedKeeps(w: World, body: seq<Byte>, step: Step)
    requires Always(w, body) && Under(w) && Orphaned(w, body)
    requires Enabled(w, step)
    ensures Inv(Do(w, step), body)
  {
    match step
    case ClientSend(k) => OrphanedSend(w, body, k);
    case ClientRun => assert Orphaned(Do(w, step), body);
    case ClientFail => assert Orphaned(Do(w, step), body);
    case _ => assert false;
  }

  lemma FinishedKeeps(w: World, body: seq<Byte>, step: Step)
    requires Always(w, body) && Under(w) && Finished(w)
    requires Enabled(w, step)
    ensures Inv(Do(w, step), body)
  {
  }

  /** Every step keeps the invariant. */
  lemma StepKeeps(w: World, body: seq<Byte>, step: Step)
    requires Inv(w, body) && Enabled(w, step)
    ensures Inv(Do(w, step), body)
  {
    if AtStart(w) {
      ConnectKeeps(w, body);
    } else if Orphaned(w, body) {
      OrphanedKeeps(w, body, step);
    } else if Finished(w) {
      FinishedKeeps(w, body, step);
    } else if InRequest(w, body) {
      RequestKeeps(w, body, step);
    } else {
      ReplyKeeps(w, body, step);
    }
  }

  // ---------- What that means ----------

  /** What is left of the operation in progress stays inside the buffer. */
  ghost predicate Within(s: Side) {
    && |s.buf| == BLOCK && s.phase != Overrun
    && (Busy(s) ==> s.moved <= Wanted(s) && Offset(s) + (Wanted(s) - s.moved) <= BLOCK)
  }

  /** `Overrun` marks exactly the operations that would leave the buffer. */
  lemma OverrunIff(s: Side)
    requires |s.buf| == BLOCK
    ensures BeginWrite(s).phase == Overrun <==> FullSize(s.buf) > BLOCK
    ensures BeginBody(s).phase == Overrun <==> HEADER + WordAt(s.buf, 0) > BLOCK
  {
  }

  /** Neither side ever starts an operation that leaves its buffer: the server's missing length check is never needed. */
  lemma StaysWithin(w: World, body: seq<Byte>)
    requires Inv(w, body)
    ensures Within(w.client.side) && Within(w.server.side)
  {
  }

  lemma PartIsShort(wire: seq<Byte>, f: Frame)
    requires PartOf(wire, f)
    ensures |wire| <= f.Size() <= BLOCK
  {
    var to: nat :| PartUpTo(wire, f, to);
    var from: nat :| OnWire(wire, f, from, to);
  }

  /** At most one packet is in transit, and only one way: the client's latest, or the answer to it. */
  lemma OneInTransit(w: World, body: seq<Byte>)
    requires Inv(w, body)
    ensures w.toServer == [] || w.toClient == []
    ensures |w.toServer| + |w.toClient| <= BLOCK
    ensures w.toClient != [] ==>
              && w.client.frames >= 1
              && OnWire(w.toClient, Reply(w.client.frames, body), Got(w.client.side),
                        Put(w.server.side, HEADER + Len(w.client.frames)))
    ensures w.toServer != [] ==> w.client.frames >= 1 && PartOf(w.toServer, Request(w.client.frames, body))
    ensures w.toServer != [] && w.server.side.phase != Closed ==>
              OnWire(w.toServer, Request(w.client.frames, body), Got(w.server.side),
                     Put(w.client.side, HEADER + Len(w.client.frames)))
  {
    if w.toServer != [] {
      var f := Request(w.client.frames, body);
      if InRequest(w, body) {
        assert PartUpTo(w.toServer, f, Put(w.client.side, f.Size()));
      }
      PartIsShort(w.toServer, f);
    }
  }

  /** A packet read to its end is the one the peer sent: the server gets request `frames`, the client the same body back. */
  lemma Delivered(w: World, body: seq<Byte>)
    requires Inv(w, body)
    ensures w.server.side.phase.ReadingBody? && Complete(w.server.side) ==>
              && w.client.frames >= 1
              && var f := Request(w.client.frames, body); Starts(w.server.side.buf, f, f.Size())
    ensures w.client.side.phase.ReadingBody? && Complete(w.client.side) ==>
              && w.client.frames >= 1
              && var f := Reply(w.client.frames, body); Starts(w.client.side.buf, f, f.Size())
  {
  }

  /**
   The check after a write: a server that has sent an answer whose count reaches
   its total has closed and reads no more, and one that reads has sent none.
   */
  lemma ServerReadsBelowTotal(w: World, body: seq<Byte>)
    requires Inv(w, body)
    ensures IsReading(w.server.side) ==> GoesOn(w.server)
    ensures w.server.replies > 0 && 2 * w.server.replies >= w.server.total ==>
              w.server.side.phase == Closed
  {
  }

  /** `inc_packet_count()` never wraps: a side increments only below its 32-bit total. */
  lemma CountNeverWraps(s: Side, total: nat)
    requires |s.buf| >= HEADER && total < WORD && !CountReached(s.buf, total)
    ensures WordAt(IncCount(s.buf), 4) == WordAt(s.buf, 4) + 1
  {
    DecodeEncode(IncCount(s.buf), 4, WordAt(s.buf, 4) + 1);
  }

  // ---------- Every run ends ----------

  /** More than all the steps one packet takes on one side. */
  const ROUND := 30000

  function ClientPart(s: Side): int {
    match s.phase
    case Writing(size) => size - s.moved + MAX_BODY + 11
    case ReadingHead => HEADER - s.moved + MAX_BODY + 2
    case ReadingBody(size) => size - s.moved + 1
    case _ => 0
  }

  function ServerPart(s: Side): int {
    match s.phase
    case ReadingHead => HEADER - s.moved + 2 * MAX_BODY + 11
    case ReadingBody(size) => size - s.moved + MAX_BODY + 10
    case Writing(size) => size - s.moved + 1
    case _ => 0
  }

  /** An upper bound on the steps still to come. */
  function StepsLeft(w: World): int {
    ROUND * (w.server.total + 1 - w.client.frames) + ClientPart(w.client.side)
    + ROUND * (w.server.total + 1 - w.server.replies) + ServerPart(w.server.side)
  }

  ghost predicate Counted(w: World) {
    w.server.replies <= w.client.frames <= w.server.total + 1
  }

  lemma StepsLeftNonnegative(w: World, body: seq<Byte>)
    requires Inv(w, body)
    ensures Counted(w) && StepsLeft(w) >= 0
  {
    StaysWithin(w, body);
  }

  lemma ClientDescends(w: World, step: Step)
    requires Within(w.client.side) && Enabled(w, step) && Within(Do(w, step).client.side)
    requires step.Connect? || step.ClientSend? || step.ClientReceive? || step.ClientRun? || step.ClientFail?
    ensures StepsLeft(Do(w, step)) < StepsLeft(w)
  {
  }

  lemma ServerDescends(w: World, step: Step)
    requires Within(w.server.side) && Enabled(w, step) && Within(Do(w, step).server.side)
    requires step.ServerSend? || step.ServerReceive? || step.ServerRun? || step.ServerFail?
    ensures StepsLeft(Do(w, step)) < StepsLeft(w)
  {
  }

  lemma StepDescends(w: World, body: seq<Byte>, step: Step)
    requires Inv(w, body) && Enabled(w, step) && Inv(Do(w, step), body)
    ensures 0 <= StepsLeft(Do(w, step)) < StepsLeft(w)
  {
    StaysWithin(w, body);
    StepsLeftNonnegative(Do(w, step), body);
    StaysWithin(Do(w, step), body);
    if step.Connect? || step.ClientSend? || step.ClientReceive? || step.ClientRun? || step.ClientFail? {
      ClientDescends(w, step);
    } else {
      ServerDescends(w, step);
    }
  }

  lemma StepGoesOn(w: World, body: seq<Byte>, step: Step)
    requires Inv(w, body) && Enabled(w, step)
    ensures Inv(Do(w, step), body) && 0 <= StepsLeft(Do(w, step)) < StepsLeft(w)
  {
    StepKeeps(w, body, step);
    StepDescends(w, body, step);
  }

  ghost predicate Follows(w: World, w': World) {
    exists step :: Enabled(w, step) && w' == Do(w, step)
  }

  lemma FollowKeeps(w: World, w': World, body: seq<Byte>)
    requires Inv(w, body) && Follows(w, w')
    ensures Inv(w', body) && 0 <= StepsLeft(w') < StepsLeft(w)
    ensures w'.client.total == w.client.total && w'.server.total == w.server.total
  {
    var step :| Enabled(w, step) && w' == Do(w, step);
    StepGoesOn(w, body, step);
  }

  ghost predicate Run(states: seq<World>, clientBuf: seq<Byte>, serverBuf: seq<Byte>, clientTotal: nat, serverTotal: nat) {
    && |clientBuf| == |serverBuf| == BLOCK && clientTotal < WORD && serverTotal < WORD
    && |states| > 0 && states[0] == Init(clientBuf, serverBuf, clientTotal, serverTotal)
    && forall i | 0 <= i < |states| - 1 :: Follows(states[i], states[i + 1])
  }

  /** The body every packet of the run carries: what the client's buffer held behind the header when it connected. */
  function BodyOf(clientBuf: seq<Byte>): seq<Byte>
    requires |clientBuf| == BLOCK
  {
    Sub(clientBuf, HEADER, MAX_BODY)
  }

  function MaxSteps(serverTotal: nat): nat { 2 * ROUND * (serverTotal + 1) + ROUND }

  lemma InitInv(clientBuf: seq<Byte>, serverBuf: seq<Byte>, clientTotal: nat, serverTotal: nat)
    requires |clientBuf| == |serverBuf| == BLOCK && clientTotal < WORD && serverTotal < WORD
    ensures Inv(Init(clientBuf, serverBuf, clientTotal, serverTotal), BodyOf(clientBuf))
  {
  }

  lemma {:induction false} RunKeeps(states: seq<World>, clientBuf: seq<Byte>, serverBuf: seq<Byte>,
                                    clientTotal: nat, serverTotal: nat, i: nat)
    requires Run(states, clientBuf, serverBuf, clientTotal, serverTotal) && i < |states|
    ensures Inv(states[i], BodyOf(clientBuf))
    ensures states[i].client.total == clientTotal && states[i].server.total == serverTotal
    ensures 0 <= StepsLeft(states[i]) <= MaxSteps(serverTotal) - i
    decreases i
  {
    if i == 0 {
      InitInv(clientBuf, serverBuf, clientTotal, serverTotal);
    } else {
      RunKeeps(states, clientBuf, serverBuf, clientTotal, serverTotal, i - 1);
      assert Follows(states[i - 1], states[i - 1 + 1]);
      FollowKeeps(states[i - 1], states[i], BodyOf(clientBuf));
    }
  }

  // ---------- How it ends ----------

  ghost predicate Stuck(w: World) {
    forall step :: !Enabled(w, step)
  }

  /** The least even number that is at least 2 and at least `n`. */
  function LeastEven(n: nat): (e: nat)
    ensures e % 2 == 0 && e >= 2 && e >= n
    ensures forall m: nat | m % 2 == 0 && m >= 2 && m >= n :: e <= m
  {
    if n <= 2 then 2 else n + n % 2
  }

  /** A run can stop only when it has been decided who went away first. */
  lemma StuckIsOver(w: World, body: seq<Byte>)
    requires Inv(w, body) && Stuck(w)
    ensures w.client.frames >= 1 && (Orphaned(w, body) || Finished(w))
  {
    assert !Enabled(w, Connect) && !Enabled(w, ClientRun) && !Enabled(w, ServerRun);
    assert !Enabled(w, ClientSend(1)) && !Enabled(w, ServerSend(1));
    assert !Enabled(w, ClientReceive(1)) && !Enabled(w, ServerReceive(1));
  }

  /** With packet `j` the last one sent, the totals tell a closed server from a finished client. */
  lemma TotalsDecide(j: nat, clientTotal: nat, serverTotal: nat)
    requires j >= 1 && (j > 1 ==> 2 * (j - 1) < clientTotal)
    ensures serverTotal <= 2 * j - 1 ==> LeastEven(clientTotal) > serverTotal
    ensures clientTotal <= 2 * j <= serverTotal ==> LeastEven(clientTotal) <= serverTotal
  {
  }

  /** And which of the two it was is settled by the two totals. */
  lemma OverMeans(w: World, body: seq<Byte>)
    requires Under(w) && (Orphaned(w, body) || Finished(w))
    ensures w.client.finished <==> LeastEven(w.client.total) <= w.server.total
  {
    TotalsDecide(w.client.frames, w.client.total, w.server.total);
  }

  lemma StuckMeans(w: World, body: seq<Byte>)
    requires Inv(w, body) && Stuck(w)
    ensures w.client.finished <==> LeastEven(w.client.total) <= w.server.total
  {
    StuckIsOver(w, body);
    OverMeans(w, body);
  }

  /**
   Every run ends, within a number of steps fixed by the server's total, and the
   client has finished if and only if the least even number from max(client total, 2)
   on is within the server's total.
   */
  lemma RunsEnd(states: seq<World>, clientBuf: seq<Byte>, serverBuf: seq<Byte>, clientTotal: nat, serverTotal: nat)
    requires Run(states, clientBuf, serverBuf, clientTotal, serverTotal) && Stuck(states[|states| - 1])
    ensures |states| <= MaxSteps(serverTotal) + 1
    ensures states[|states| - 1].client.finished <==> LeastEven(clientTotal) <= serverTotal
  {
    var last := states[|states| - 1];
    RunKeeps(states, clientBuf, serverBuf, clientTotal, serverTotal, |states| - 1);
    StuckMeans(last, BodyOf(clientBuf));
  }

  /** With one total on both sides: exactly when it is even and positive. */
  lemma EqualTotals(states: seq<World>, clientBuf: seq<Byte>, serverBuf: seq<Byte>, total: nat)
    requires Run(states, clientBuf, serverBuf, total, total) && Stuck(states[|states| - 1])
    ensures states[|states| - 1].client.finished <==> total % 2 == 0 && total > 0
  {
    RunsEnd(states, clientBuf, serverBuf, total, total);
  }

  /**
   In every state of every run: both sides stay in their buffers, and whatever
   packet a side has read to its end is the one sent to it, around the body the
   client started with.
   */
  lemma RunsEcho(states: seq<World>, clientBuf: seq<Byte>, serverBuf: seq<Byte>, clientTotal: nat, serverTotal: nat, i: nat)
    requires Run(states, clientBuf, serverBuf, clientTotal, serverTotal) && i < |states|
    ensures Within(states[i].client.side) && Within(states[i].server.side)
    ensures BodyIs(states[i].client.side.buf, BodyOf(clientBuf))
    ensures states[i].server.side.phase.ReadingBody? && Complete(states[i].server.side) ==>
              && states[i].client.frames >= 1
              && var f := Request(states[i].client.frames, BodyOf(clientBuf));
                 Starts(states[i].server.side.buf, f, f.Size())
    ensures states[i].client.side.phase.ReadingBody? && Complete(states[i].client.side) ==>
              && states[i].client.frames >= 1
              && var f := Reply(states[i].client.frames, BodyOf(clientBuf));
                 Starts(states[i].client.side.buf, f, f.Size())
  {
    RunKeeps(states, clientBuf, serverBuf, clientTotal, serverTotal, i);
    StaysWithin(states[i], BodyOf(clientBuf));
    Delivered(states[i], BodyOf(clientBuf));
  }

  /** In every state of every run the server has closed once the count it sent reached its total. */
  lemma RunsCloseServer(states: seq<World>, clientBuf: seq<Byte>, serverBuf: seq<Byte>, clientTotal: nat, serverTotal: nat, i: nat)
    requires Run(states, clientBuf, serverBuf, clientTotal, serverTotal) && i < |states|
    ensures states[i].server.replies > 0 && 2 * states[i].server.replies >= serverTotal ==>
              states[i].server.side.phase == Closed
    ensures IsReading(states[i].server.side) && states[i].server.replies > 0 ==> 2 * states[i].server.replies < serverTotal
  {
    RunKeeps(states, clientBuf, serverBuf, clientTotal, serverTotal, i);
    ServerReadsBelowTotal(states[i], BodyOf(clientBuf));
  }

  // ---------- The objects ----------

  /** `htonl` into a header field. */
  method StoreWord(buffer: array<Byte>, at: nat, n: nat)
    requires at + 4 <= buffer.Length && n < WORD
    modifies buffer
    ensures buffer[..] == PutWord(old(buffer[..]), at, n)
  {
    buffer[at] := WordByte(n, 0);
    buffer[at + 1] := WordByte(n, 1);
    buffer[at + 2] := WordByte(n, 2);
    buffer[at + 3] := WordByte(n, 3);
  }

  /** `inc_packet_count()`. */
  method IncPacketCount(buffer: array<Byte>)
    requires buffer.Length >= HEADER
    modifies buffer
    ensures buffer[..] == IncCount(old(buffer[..]))
  {
    var count := Add32(WordAt(buffer[..], 4), 1);
    StoreWord(buffer, 4, count);
  }

  /** What `async_read` writes into a buffer. */
  method StoreBytes(buffer: array<Byte>, at: nat, bytes: seq<Byte>, k: nat)
    requires k <= |bytes| && at + k <= buffer.Length
    modifies buffer
    ensures buffer[..] == Stored(old(buffer[..]), at, Sub(bytes, 0, k))
  {
    ghost var before := buffer[..];
    for i := 0 to k
      invariant forall j | 0 <= j < buffer.Length :: buffer[j] == if at <= j < at + i then bytes[j - at] else before[j]
    {
      buffer[at + i] := bytes[i];
    }
  }

  /** client3's `session`; `frames` is a history variable. */
  class ClientSession {
    const total: nat
    const buffer: array<Byte>
    var phase: Phase
    var moved: nat
    var bodyLen: nat
    var finished: bool
    var frames: nat

    ghost predicate Valid()
      reads this
    {
      buffer.Length == BLOCK && total < WORD && bodyLen <= MAX_BODY + 1
    }

    function Now(): Client
      reads this, buffer
    {
      Client(Side(buffer[..], phase, moved), total, bodyLen, finished, frames)
    }

    constructor (totalCount: nat)
      requires totalCount < WORD
      ensures Valid() && fresh(buffer)
      ensures Now() == Client(Side(buffer[..], Idle, 0), totalCount, 100, false, 0)
    {
      total := totalCount;
      buffer := new Byte[BLOCK];
      phase, moved, bodyLen, finished, frames := Idle, 0, 100, false, 0;
    }

    method GetBodyLen() returns (len: nat)
      requires Valid()
      modifies `bodyLen
      ensures Valid() && len == BodyLen(old(bodyLen)) && bodyLen == len + 1
    {
      if bodyLen > 10000 {
        bodyLen := 100;
      }
      len := bodyLen;
      bodyLen := bodyLen + 1;
    }

    method Write()
      requires Valid()
      modifies `phase, `moved
      ensures Now() == old(Now()).(side := BeginWrite(old(Now()).side))
    {
      var fullSize := FullSize(buffer[..]);
      phase, moved := if fullSize <= buffer.Length then Writing(fullSize) else Overrun, 0;
    }

    method ReadHead()
      modifies `phase, `moved
      ensures Now() == old(Now()).(side := BeginHead(old(Now()).side))
    {
      phase, moved := ReadingHead, 0;
    }

    method ReadBody()
      requires Valid()
      modifies `phase, `moved
      ensures Now() == old(Now()).(side := BeginBody(old(Now()).side))
    {
      var bodySize := WordAt(buffer[..], 0);
      phase, moved := if HEADER + bodySize <= buffer.Length then ReadingBody(bodySize) else Overrun, 0;
    }

    /** `k` more bytes of the write in progress have gone out. */
    method Sent(k: nat)
      modifies `moved
      ensures Now() == old(Now()).(side := Advance(old(Now()).side, k))
    {
      moved := moved + k;
    }

    /** The read in progress gets the first `k` bytes of `wire`. */
    method Received(wire: seq<Byte>, k: nat)
      requires CanReceive(Now().side, wire, k)
      modifies `moved, buffer
      ensures Now() == old(Now()).(side := Receive(old(Now()).side, wire, k))
    {
      StoreBytes(buffer, Offset(Now().side), wire, k);
      moved := moved + k;
    }

    /** The operation in progress ends in an error; its handler starts nothing. */
    method OnError()
      modifies `phase, `moved
      ensures Now() == old(Now()).(side := Fail(old(Now()).side))
    {
      phase, moved := Broken, 0;
    }

    /** The connect handler. */
    method OnConnect()
      requires Valid() && phase.Idle?
      modifies this, buffer
      ensures Valid() && Now() == ClientConnected(old(Now()))
    {
      var len := GetBodyLen();
      StoreWord(buffer, 0, len);
      StoreWord(buffer, 4, 1);
      frames := frames + 1;
      Write();
    }

    /** The write handler. */
    method OnWritten()
      requires Valid() && Complete(Now().side) && phase.Writing?
      modifies this, buffer
      ensures Valid() && Now() == ClientHandle(old(Now()))
    {
      ReadHead();
    }

    /** The header read's handler. */
    method OnHead()
      requires Valid() && Complete(Now().side) && phase.ReadingHead?
      modifies this, buffer
      ensures Valid() && Now() == ClientHandle(old(Now()))
    {
      ReadBody();
    }

    /** The body read's handler. */
    method OnBody()
      requires Valid() && Complete(Now().side) && phase.ReadingBody?
      modifies this, buffer
      ensures Valid() && Now() == ClientHandle(old(Now()))
    {
      if WordAt(buffer[..], 4) >= total {
        finished := true;
        phase, moved := Closed, 0;
      } else {
        var len := GetBodyLen();
        StoreWord(buffer, 0, len);
        IncPacketCount(buffer);
        frames := frames + 1;
        Write();
      }
    }
  }

  /** server3's `session`; `replies` is a history variable. */
  class ServerSession {
    const total: nat
    const buffer: array<Byte>
    var phase: Phase
    var moved: nat
    var replies: nat

    ghost predicate Valid()
      reads this
    {
      buffer.Length == BLOCK && total < WORD
    }

    function Now(): Server
      reads this, buffer
    {
      Server(Side(buffer[..], phase, moved), total, replies)
    }

    /** Construction and `start()`. */
    constructor (totalCount: nat)
      requires totalCount < WORD
      ensures Valid() && fresh(buffer)
      ensures Now() == Server(Side(buffer[..], ReadingHead, 0), totalCount, 0)
    {
      total := totalCount;
      buffer := new Byte[BLOCK];
      phase, moved, replies := ReadingHead, 0, 0;
    }

    /** `write()`: the size is taken before the count goes up. */
    method Write()
      requires Valid()
      modifies `phase, `moved, buffer
      ensures Now() == old(Now()).(side := BeginWrite(old(Now()).side.(buf := IncCount(old(Now()).side.buf))))
    {
      var fullSize := FullSize(buffer[..]);
      IncPacketCount(buffer);
      phase, moved := if fullSize <= buffer.Length then Writing(fullSize) else Overrun, 0;
    }

    method ReadHead()
      modifies `phase, `moved
      ensures Now() == old(Now()).(side := BeginHead(old(Now()).side))
    {
      phase, moved := ReadingHead, 0;
    }

    method ReadBody()
      requires Valid()
      modifies `phase, `moved
      ensures Now() == old(Now()).(side := BeginBody(old(Now()).side))
    {
      var bodySize := WordAt(buffer[..], 0);
      phase, moved := if HEADER + bodySize <= buffer.Length then ReadingBody(bodySize) else Overrun, 0;
    }

    /** `k` more bytes of the write in progress have gone out. */
    method Sent(k: nat)
      modifies `moved
      ensures Now() == old(Now()).(side := Advance(old(Now()).side, k))
    {
      moved := moved + k;
    }

    /** The read in progress gets the first `k` bytes of `wire`. */
    method Received(wire: seq<Byte>, k: nat)
      requires CanReceive(Now().side, wire, k)
      modifies `moved, buffer
      ensures Now() == old(Now()).(side := Receive(old(Now()).side, wire, k))
    {
      StoreBytes(buffer, Offset(Now().side), wire, k);
      moved := moved + k;
    }

    /** The operation in progress ends in an error; its handler starts nothing. */
    method OnError()
      modifies `phase, `moved
      ensures Now() == old(Now()).(side := Fail(old(Now()).side))
    {
      phase, moved := Broken, 0;
    }

    /** The write handler. */
    method OnWritten()
      requires Valid() && Complete(Now().side) && phase.Writing?
      modifies this, buffer
      ensures Valid() && Now() == ServerHandle(old(Now()))
    {
      replies := replies + 1;
      if WordAt(buffer[..], 4) >= total {
        phase, moved := Closed, 0;
      } else {
        ReadHead();
      }
    }

    /** The header read's handler. */
    method OnHead()
      requires Valid() && Complete(Now().side) && phase.ReadingHead?
      modifies this, buffer
      ensures Valid() && Now() == ServerHandle(old(Now()))
    {
      ReadBody();
    }

    /** The body read's handler. */
    method OnBody()
      requires Valid() && Complete(Now().side) && phase.ReadingBody?
      modifies this, buffer
      ensures Valid() && Now() == ServerHandle(old(Now()))
    {
      if WordAt(buffer[..], 4) >= total {
        phase, moved := Closed, 0;
      } else {
        Write();
      }
    }
  }

  /** A client session and the server session at the other end of its connection. */
  class Connection {
    const client: ClientSession
    const server: ServerSession
    var toServer: seq<Byte>
    var toClient: seq<Byte>
    ghost const body: seq<Byte>

    function Now(): World
      reads this, client, client.buffer, server, server.buffer
    {
      World(client.Now(), server.Now(), toServer, toClient)
    }

    ghost predicate Valid()
      reads this, client, client.buffer, server, server.buffer
    {
      client.Valid() && server.Valid() && client.buffer != server.buffer && Inv(Now(), body)
    }

    /** Two new sessions, connected to each other. */
    constructor (clientTotal: nat, serverTotal: nat)
      requires clientTotal < WORD && serverTotal < WORD
      ensures Valid() && client.total == clientTotal && server.total == serverTotal
      ensures fresh(client) && fresh(server) && fresh(client.buffer) && fresh(server.buffer)
    {
      var c := new ClientSession(clientTotal);
      var s := new ServerSession(serverTotal);
      client, server, toServer, toClient := c, s, [], [];
      body := BodyOf(c.buffer[..]);
      InitInv(c.buffer[..], s.buffer[..], clientTotal, serverTotal);
    }

    method FireClient(step: Step)
      requires client.Valid() && Enabled(Now(), step)
      requires step.Connect? || step.ClientReceive? || step.ClientRun? || step.ClientSend? || step.ClientFail?
      modifies this, client, client.buffer
      ensures client.Now() == Do(old(Now()), step).client
      ensures toServer == Do(old(Now()), step).toServer && toClient == Do(old(Now()), step).toClient
      ensures client.Valid()
    {
      match step
      case Connect => client.OnConnect();
      case ClientSend(k) =>
        toServer := toServer + Sub(client.buffer[..], client.moved, k);
        client.Sent(k);
      case ClientReceive(k) =>
        client.Received(toClient, k);
        toClient := Sub(toClient, k, |toClient| - k);
      case ClientRun => RunClient();
      case ClientFail => client.OnError();
    }

    method RunClient()
      requires client.Valid() && Complete(client.Now().side)
      modifies client, client.buffer
      ensures client.Valid() && client.Now() == ClientHandle(old(client.Now()))
    {
      if client.phase.Writing? {
        client.OnWritten();
      } else if client.phase.ReadingHead? {
        client.OnHead();
      } else {
        client.OnBody();
      }
    }

    method FireServer(step: Step)
      requires server.Valid() && Enabled(Now(), step)
      requires step.ServerReceive? || step.ServerRun? || step.ServerSend? || step.ServerFail?
      modifies this, server, server.buffer
      ensures server.Now() == Do(old(Now()), step).server
      ensures toServer == Do(old(Now()), step).toServer && toClient == Do(old(Now()), step).toClient
      ensures server.Valid()
    {
      match step
      case ServerSend(k) =>
        toClient := toClient + Sub(server.buffer[..], server.moved, k);
        server.Sent(k);
      case ServerReceive(k) =>
        server.Received(toServer, k);
        toServer := Sub(toServer, k, |toServer| - k);
      case ServerRun => RunServer();
      case ServerFail => server.OnError();
    }

    method RunServer()
      requires server.Valid() && Complete(server.Now().side)
      modifies server, server.buffer
      ensures server.Valid() && server.Now() == ServerHandle(old(server.Now()))
    {
      if server.phase.Writing? {
        server.OnWritten();
      } else if server.phase.ReadingHead? {
        server.OnHead();
      } else {
        server.OnBody();
      }
    }

    method FireEither(step: Step)
      requires client.Valid() && server.Valid() && client.buffer != server.buffer && Enabled(Now(), step)
      modifies this, client, client.buffer, server, server.buffer
      ensures client.Valid() && server.Valid() && Now() == Do(old(Now()), step)
    {
      if step.Connect? || step.ClientReceive? || step.ClientRun? || step.ClientSend? || step.ClientFail? {
        FireClient(step);
      } else {
        FireServer(step);
      }
    }

    method Fire(step: Step)
      requires Valid() && Enabled(Now(), step)
      modifies this, client, client.buffer, server, server.buffer
      ensures Valid() && Now() == Do(old(Now()), step)
    {
      StepGoesOn(Now(), body, step);
      FireEither(step);
    }

    /** Some step that can be taken, any of them, if there is one. */
    method Pick() returns (found: bool, step: Step)
      requires Sized(Now())
      ensures found ==> Enabled(Now(), step)
      ensures !found ==> Stuck(Now())
    {
      step := *;
      found := Enabled(Now(), step);
      if !found {
        var all := [Connect, ClientSend(1), ClientReceive(1), ClientRun, ClientFail,
                    ServerSend(1), ServerReceive(1), ServerRun, ServerFail];
        for i := 0 to |all|
          invariant forall j | 0 <= j < i :: !Enabled(Now(), all[j])
        {
          if Enabled(Now(), all[i]) {
            return true, all[i];
          }
        }
        assert !Enabled(Now(), all[0]) && !Enabled(Now(), all[3]) && !Enabled(Now(), all[4]);
        assert !Enabled(Now(), all[1]) && !Enabled(Now(), all[2]) && !Enabled(Now(), all[5]);
        assert !Enabled(Now(), all[6]) && !Enabled(Now(), all[7]) && !Enabled(Now(), all[8]);
      }
    }

    /** One step, any that can be taken, if there is one. */
    method Turn() returns (more: bool)
      requires Valid()
      modifies this, client, client.buffer, server, server.buffer
      ensures Valid()
      ensures more ==> 0 <= StepsLeft(Now()) < old(StepsLeft(Now()))
      ensures !more ==> Stuck(Now()) && StepsLeft(Now()) == old(StepsLeft(Now()))
    {
      var step;
      more, step := Pick();
      if more {
        StepGoesOn(Now(), body, step);
        Fire(step);
      }
    }

    /**
     Both sessions and the network, in any order, until nothing more can happen:
     they come to that point, and the client has finished if and only if the two
     totals say so.
     */
    method Drive()
      requires Valid()
      modifies this, client, client.buffer, server, server.buffer
      ensures Valid() && Stuck(Now())
      ensures client.finished <==> LeastEven(client.total) <= server.total
    {
      var more := Turn();
      while more
        invariant Valid() && (more ==> StepsLeft(Now()) >= 0) && (!more ==> Stuck(Now()))
        decreases StepsLeft(Now()), more
      {
        more := Turn();
      }
      StuckMeans(Now(), body);
    }
  }
}
