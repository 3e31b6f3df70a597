# Verified models of the asio benchmark suite

The suite measures asio with small network and task-posting programs and carries
its own copy of asio 1.10.8. This project models the parts of both that are hard
to get right and proves what they promise, in Dafny 4.11.

Buffer algebra (`asio_alone/asio`):

- `Buffers.dfy`: the gather/scatter `buffer_copy` loops over one flat memory. They
  are specified by a copy between flat byte strings that knows nothing of how
  either side is cut into buffers.
- `BuffersIterators.dfy`: the random-access cursor over a list of buffers, with
  its three redundant coordinates, against one index into the flattened bytes.
- `Streambufs.dfy`: the byte FIFO in one growing vector, against a bounded FIFO.
- `SocketStreambufs.dfy`: the put area flushed by partial sends, and the timer.
  `SocketStreambufRuns.dfy` says what a list of calls on it can rely on, with what
  that needs of any program and environment in `Runs.dfy`.

The suite's own programs, as transition systems with one step for each handler,
critical section or transfer, and as classes whose handler methods are those steps:

- `BatchedPost.dfy`: posttask5 and posttask4, a batching queue that refines
  posttask3.
- `Framing.dfy`, `FramedEcho.dfy`: client3 and server3, a counted ping-pong of
  framed packets.
- `EchoPool.dfy`: client2 and server2, an echo through a pool of ten buffers.
- `TokenPosts.dfy`: posttask2, tokens bouncing between pairs of services.
- `SocketPairs.dfy`: socketpair, bytes going round a ring of socket pairs.

In each of the five, `Init`, `Enabled` and `Do` are the transition system, `Run` a
finite run of it, and each `RunKeeps` gives the invariant in every state of every
run. `Stuck` is a state with no step left. Where runs must end, `StepsLeft` is a
bound that every step lowers. Each class keeps the invariant in its `Valid`, and its
`Drive` lets any step that can be taken be the next one, so that the objects
themselves come to the conclusion of the run theorem.

What came out that reading one function does not show:

- `basic_streambuf::reserve` slides its bytes before it may throw and then leaves
  its pointers. A throwing `prepare` keeps `data()`, whatever the bytes are, if and
  only if nothing was consumed since the input was last at the front, or the input is
  no longer than what was consumed since (`ThrowKeepsDataIff`). Four bytes committed,
  one consumed and two prepared under a maximum of four lose data
  (`PrepareThatLosesData`). `size() <= max_size()` always survives.
- A `basic_socket_streambuf` flush that fails after a partial send keeps the whole
  put area, so the next flush sends the beginning again (`RetrySendsAgain`). What was
  sent is always one slice of the accepted characters for each flush, each slice
  beginning where the last completed one ended (`CallKeeps`).
- What can go wrong with a new one is decided by the list of calls alone. Count
  characters as if no send ever succeeded, up to 512, and call a flush of two or more of
  them risky: a `sync()` at two or more, or a character put at 512. After a `setbuf(0, 0)`
  at a count of zero no call is risky any more. The bytes sent, followed by the
  put area, are what was accepted, in every environment, if and only if no call is
  risky (`ExactIff`). Some environment sends a character twice if and only if two calls
  are (`TwiceIff`).
- server3 reads a body of whatever length the header names. Together with client3
  it never leaves its buffer (`StaysWithin`).
- Whether a client3 session finishes depends on both totals: it does if and only if
  the least even number from max(client total, 2) on is within the server's total.
  Two equal odd totals never finish (`RunsEnd`, `EqualTotals`).
- posttask5 with a `post_count` of 0 never assigns `stop_time_`; with any other it
  does so exactly once (`StuckMeansDone`).

In posttask2 a token that has failed the test and not yet posted when another calls
`stop()` may post to a service that has already exited. The model allows for that
with a step of its own, and the counter bounds hold all the same.

## Model

| member | source | states |
|---|---|---|
| Buffers.AddrInBuffer | asio_alone/asio/buffer.hpp:1693-1736 | byte `off` of buffer `i` is the flat byte numbered by the sizes of the buffers before it plus `off`, empty buffers anywhere |
| Buffers.AddrsDistinct | asio_alone/asio/buffer.hpp:1693-1736 | in a list of buffers that do not overlap, no two flat bytes share an address |
| Buffers.CopiedAt | asio_alone/asio/buffer.hpp:1693-1736 | with non-overlapping targets, target byte `k` ends up equal to source byte `k` |
| Buffers.CopyMeaning | asio_alone/asio/buffer.hpp:1693-1736 | with non-overlapping targets a copy of `n` bytes makes exactly the first `n` bytes of the flattened target equal the source's and leaves every other byte of the memory alone |
| Buffers.SourceKept | asio_alone/asio/buffer.hpp:1680-1691 | a source that shares no byte with the target reads the same after the copy |
| Buffers.ExtendByte | asio_alone/asio/buffer.hpp:1706-1733 | a chunk inside one target buffer and one source buffer, placed at the flat offset reached, extends the copy by exactly that chunk at every address |
| Buffers.ExtendCopy | asio_alone/asio/buffer.hpp:1706-1733 | so one `memcpy` turns the memory of a copy of `total` bytes into that of a copy of `total + n`, and never runs past either list |
| Buffers.CopyBuffer | asio_alone/asio/buffer.hpp:1295-1304 | moves the lesser of the two sizes and changes only those bytes |
| Buffers.CopyBufferBounded | asio_alone/asio/buffer.hpp:1761-1765 | the same, at most `max` bytes |
| Buffers.SingletonCopy | asio_alone/asio/buffer.hpp:1295-1304 | the single-buffer copy gives the count and the memory of the general copy on one-element lists |
| Buffers.BufferSize | asio_alone/asio/buffer.hpp:385-396 | the size of a sequence is the length of its flat byte string |
| Buffers.CopySequences | asio_alone/asio/buffer.hpp:1693-1736 | terminates, though an iteration may copy nothing; returns min(total target, total source); the memory is the flat copy of that many bytes |
| Buffers.CopySequencesBounded | asio_alone/asio/buffer.hpp:2186-2231 | the same with the bound: returns min(total target, total source, bound) |
| Buffers.CopyFromSequence | asio_alone/asio/buffer.hpp:1402-1421 | one target: the count and memory of the general copy with a one-element target list |
| Buffers.CopyToSequence | asio_alone/asio/buffer.hpp:1573-1592 | one source: the count and memory of the general copy with a one-element source list |
| Buffers.CopyFromSequenceBounded | asio_alone/asio/buffer.hpp:1881-1885 | truncating the target gives the count and memory of the bounded general copy to the whole target |
| Buffers.CopyToSequenceBounded | asio_alone/asio/buffer.hpp:2061-2065 | truncating the source gives the count and memory of the bounded general copy from the whole source |
| Buffers.TruncatedOne | asio_alone/asio/buffer.hpp:718-728 | `buffer(b, max)` has min(size, max) bytes, each at the address it has in `b` |
| Buffers.SameAddressesSameCopy | asio_alone/asio/buffer.hpp:2061-2065 | lists whose first `n` bytes lie at the same addresses are copied alike, whatever their shape |
| BuffersIterators.PlaceUnique | asio_alone/asio/buffers_iterator.hpp:307-310 | two resting places with the same flat position have the same buffer and offset |
| BuffersIterators.PositionInFlat | asio_alone/asio/buffers_iterator.hpp:301-304 | `position_` is at most the total, is the total exactly at the end, and elsewhere indexes the byte the iterator is on in the flattened list |
| BuffersIterators.WalksCompose | asio_alone/asio/buffers_iterator.hpp:216-227 | stepping `a` times and then `b` times, in either direction, is stepping `a + b` times |
| BuffersIterators.WalkBackUndoes | asio_alone/asio/buffers_iterator.hpp:216-227 | `n` steps and then `-n` steps return to the very same buffer and offset |
| BuffersIterators.JumpsAddUp | asio_alone/asio/buffers_iterator.hpp:366-445 | where any run of in-range jumps ends depends only on their sum |
| BuffersIterators.BuffersIterator.Begin | asio_alone/asio/buffers_iterator.hpp:127-144 | rests in the first nonempty buffer, or at the end, at position 0 |
| BuffersIterators.BuffersIterator.End | asio_alone/asio/buffers_iterator.hpp:147-163 | rests past the last buffer with the total as position |
| BuffersIterators.BuffersIterator.Dereference | asio_alone/asio/buffers_iterator.hpp:301-304 | yields the flattened byte at `position_` |
| BuffersIterators.BuffersIterator.Increment | asio_alone/asio/buffers_iterator.hpp:313-333 | skips empty buffers and rests one flat byte further |
| BuffersIterators.BuffersIterator.Decrement | asio_alone/asio/buffers_iterator.hpp:336-363 | rests one flat byte back, in the last nonempty buffer before |
| BuffersIterators.BuffersIterator.Advance | asio_alone/asio/buffers_iterator.hpp:366-445 | terminates and reaches the same buffer, offset and position as that many single steps; neither bounds assertion can fail in range |
| BuffersIterators.BuffersIterator.At | asio_alone/asio/buffers_iterator.hpp:178-183 | the flattened byte `n` away, the iterator unmoved |
| BuffersIterators.BuffersIterator.Plus | asio_alone/asio/buffers_iterator.hpp:230-254 | a new iterator, `n` single steps away |
| BuffersIterators.ComparisonsAgree | asio_alone/asio/buffers_iterator.hpp:257-310 | `==` holds only of identical iterators, `<` and `<=` are the order of (buffer, offset), and going the distance from one iterator leads to the other |
| Streambufs.SlideThenGrow | asio_alone/asio/basic_streambuf.hpp:313-325 | sliding and growing keep the input bytes |
| Streambufs.SlideInPlaceHarmless | asio_alone/asio/basic_streambuf.hpp:313-331 | a slide without a pointer update shows every input unchanged if and only if nothing slid or the input was no longer than the slide |
| Streambufs.ThrowsIff | asio_alone/asio/basic_streambuf.hpp:320-331 | `reserve` throws if and only if size plus `n` exceeds the maximum, although the test is written so as not to overflow |
| Streambufs.ReserveKeeps | asio_alone/asio/basic_streambuf.hpp:299-337 | otherwise the data is unchanged and `n` bytes fit behind it; with room enough nothing moves, and else the data goes to the front and the put area ends at the greater of its old end and size plus `n`, no further |
| Streambufs.ThrowKeepsDataIff | asio_alone/asio/basic_streambuf.hpp:313-331 | a `reserve` that throws keeps the data for all bytes the vector may hold, if and only if nothing was consumed since the input was last at the front or the input is no longer than what was |
| Streambufs.Streambuf.constructor | asio_alone/asio/basic_streambuf.hpp:131-141 | empty, with min(maximum, 128) bytes to write into and the invariant in place |
| Streambufs.Streambuf.MakeRoom | asio_alone/asio/basic_streambuf.hpp:299-337 | the pointer arithmetic of `reserve` reaches that state and throws in that case |
| Streambufs.Streambuf.Reserve | asio_alone/asio/basic_streambuf.hpp:299-337 | throws exactly beyond the maximum; otherwise the data is unchanged, and the put area ends exactly where `n` more bytes need it to; a throw moves no pointer and leaves the slid vector; consumed plus data stays what was committed |
| Streambufs.Streambuf.Prepare | asio_alone/asio/basic_streambuf.hpp:199-209 | the documented condition for `length_error`, exactly; on success the `n` bytes behind the data, the vector grown no more than they need |
| Streambufs.PrepareThatLosesData | asio_alone/asio/basic_streambuf.hpp:313-331 | a streambuf that shows 2, 3, 4 before a `prepare` that throws, and 3, 4, 4 after it |
| Streambufs.PrepareThatKeepsData | asio_alone/asio/basic_streambuf.hpp:313-337 | one that had a byte consumed from 128, and shows the other 127 after a `prepare` that throws |
| Streambufs.Streambuf.Commit | asio_alone/asio/basic_streambuf.hpp:223-229 | appends the first `n` output bytes, or all there are, to the data; the input stays where it begins |
| Streambufs.Streambuf.Consume | asio_alone/asio/basic_streambuf.hpp:238-245 | drops the first `n` data bytes, or all there are, and nothing else; the input begins that much later |
| Streambufs.Streambuf.Underflow | asio_alone/asio/basic_streambuf.hpp:254-265 | the first data byte or eof, nothing removed |
| Streambufs.Streambuf.Overflow | asio_alone/asio/basic_streambuf.hpp:274-297 | throws if and only if a character comes when the data is as long as the maximum; otherwise appends it, growing a full area by 128 bytes or what the maximum leaves; eof changes nothing |
| Streambufs.Streambuf.ReadSizeHelper | asio_alone/asio/basic_streambuf.hpp:344-350 | never more than the limit, than still fits, or than the greater of 512 and what the capacity leaves; if less than the first two, then the third |
| Streambufs.PrepareForRead | asio_alone/asio/basic_streambuf.hpp:344-350 | preparing what `read_size_helper` asks for never throws |
| Streambufs.FifoConserves | asio_alone/asio/basic_streambuf.hpp:62-68 | through every run of the bounded FIFO, what left followed by what is there is what entered, in order |
| Streambufs.Perform | asio_alone/asio/basic_streambuf.hpp:204-297 | each `prepare`, fill, `commit`, `sputc`, `consume` or look is the FIFO's operation, down to the length of the output area, and throws exactly when the FIFO has no room |
| Streambufs.Replay | asio_alone/asio/basic_streambuf.hpp:204-337 | any sequence of them, across sliding and growing, is a run of the FIFO up to the first that is not legal or has no room |
| SocketStreambufs.Rescheduled | asio_alone/asio/basic_socket_streambuf.hpp:259-268 | a new expiry time wakes the handler owed if the timer is pending; if not, it starts one wait, or has expired with nothing owed when the time has come |
| SocketStreambufs.Fired | asio_alone/asio/basic_socket_streambuf.hpp:498-516 | an elapsing wait makes its handler ready; a ready handler waits again, or expires the timer if and only if the time has come; exactly one is owed when pending and none otherwise |
| SocketStreambufs.WaitThenExpire | asio_alone/asio/basic_socket_streambuf.hpp:494-517 | a wait that elapses, and whose handler finds that the time has come, expires the timer while a send is awaited |
| SocketStreambufs.Flushed | asio_alone/asio/basic_socket_streambuf.hpp:365-390 | for any environment the flush loop ends at or before the end, with an error code set if before, and at once if the timer has expired |
| SocketStreambufs.FlushStops | asio_alone/asio/basic_socket_streambuf.hpp:367-390 | a flush stops after some number of successful sends, each going on where the last stopped: at the end, at an expired timer with `operation_aborted`, or at a failed send with the code of that send |
| SocketStreambufs.CallAccepts | asio_alone/asio/basic_socket_streambuf.hpp:332-402 | a character put is appended to what was accepted unless there is no room and the flush, or in unbuffered mode the send, does not finish; no other call accepts anything |
| SocketStreambufs.CallReports | asio_alone/asio/basic_socket_streambuf.hpp:259-419 | error code and timer after a call are those its flush or send ended with; a call that makes none sets no error, and moves the timer only if it is about the timer |
| SocketStreambufs.CallKeeps | asio_alone/asio/basic_socket_streambuf.hpp:332-419 | whatever the call and the environment: what was sent is one slice of the accepted characters for each flush, each beginning where the last completed flush ended, and the put area begins there too; one timer handler is owed if pending |
| SocketStreambufs.RunKeeps | asio_alone/asio/basic_socket_streambuf.hpp:332-419 | so it is after any calls in any environment |
| SocketStreambufs.DoneInOrder | asio_alone/asio/basic_socket_streambuf.hpp:365-391 | leaving out what failed flushes sent, every flushed character went out once, in order |
| SocketStreambufs.RetrySendsAgain | asio_alone/asio/basic_socket_streambuf.hpp:365-391 | a flush that fails after `k` characters and one that succeeds send those `k` and then the whole put area |
| SocketStreambufs.ExactMeansAccepted | asio_alone/asio/basic_socket_streambuf.hpp:365-407 | the network has exactly the flushed characters if and only if what was sent, followed by the put area, is what was accepted |
| SocketStreambufs.CallExactIff | asio_alone/asio/basic_socket_streambuf.hpp:332-407 | from such a state, a call keeps it so in every environment if and only if it does not flush two or more characters with the timer not expired |
| SocketStreambufs.RiskyCallBreaks | asio_alone/asio/basic_socket_streambuf.hpp:367-390 | a flush of two or more characters breaks it in the environment that takes one and then fails |
| SocketStreambufs.CallStaysInexact | asio_alone/asio/basic_socket_streambuf.hpp:332-407 | once the network has other bytes than the flushed characters, no call and no environment changes that |
| SocketStreambufs.SocketStreambuf.TimerHandler | asio_alone/asio/basic_socket_streambuf.hpp:494-517 | the handler is the model's: it waits again or finds that the time has come |
| SocketStreambufs.SocketStreambuf.SendAll | asio_alone/asio/basic_socket_streambuf.hpp:367-390 | the send loop, with the timer handlers that run meanwhile, gets as far as `Flushed` says, and the network gets exactly the bytes up to there, each send the part it takes |
| SocketStreambufs.SocketStreambuf.FlushPutArea | asio_alone/asio/basic_socket_streambuf.hpp:365-391 | the put area in its 512-byte array goes out as the model's flush, and is empty exactly if all of it did |
| SocketStreambufs.SocketStreambuf.Overflow | asio_alone/asio/basic_socket_streambuf.hpp:332-402 | in either mode the character is returned exactly when it was accepted, and is then the last one accepted |
| SocketStreambufs.Replay | asio_alone/asio/basic_socket_streambuf.hpp:332-419 | any calls in any environment bring the object to the state of the run |
| SocketStreambufRuns.DominatesStep | asio_alone/asio/basic_socket_streambuf.hpp:332-419 | whatever the environment does, no more characters wait than if no send had ever succeeded, and a call is risky only if it would be then |
| SocketStreambufRuns.CallAdds | asio_alone/asio/basic_socket_streambuf.hpp:365-391 | a call sends a character that stays in the put area, or sends one again, only if it is risky; and again only if one in the put area was sent before |
| SocketStreambufRuns.TwiceTakesTwo | asio_alone/asio/basic_socket_streambuf.hpp:332-419 | if in any environment some character is sent twice, two of the calls are risky |
| SocketStreambufRuns.AsPlannedStep | asio_alone/asio/basic_socket_streambuf.hpp:332-419 | in the environment that lets one character out in every risky call and nothing else, the put area fills as if no send had succeeded, and every risky call sends its first character |
| SocketStreambufRuns.ExactIff | asio_alone/asio/basic_socket_streambuf.hpp:332-419 | for every list of calls: what was sent, followed by the put area, is what was accepted, in every environment, if and only if none of them is risky |
| SocketStreambufRuns.TwiceIff | asio_alone/asio/basic_socket_streambuf.hpp:332-419 | for every list of calls: in some environment a character is sent twice if and only if two of them are risky |
| SocketStreambufRuns.NewStreambuf | asio_alone/asio/basic_socket_streambuf.hpp:332-419 | both for a new streambuf, where the risky calls depend on nothing but the list |
| SocketStreambufRuns.GentleRun | asio_alone/asio/basic_socket_streambuf.hpp:332-407 | if no send fails and the timer never expires, every character put was accepted and is on the network or in the put area, in order |
| SocketStreambufRuns.GentleRunSendsAll | asio_alone/asio/basic_socket_streambuf.hpp:332-407 | so a program that ends with a `sync()` has then sent the characters it put, each once and in order |
| BatchedPost.StepKeeps | posttask5.cpp:48-77 | tasks are pending exactly when one drain handler is owed (about to be posted, queued, or before its swap), never two; executed, batch and pending together are everything posted, in order |
| BatchedPost.StepsRunOut | posttask5.cpp:48-77 | every step of either thread lowers a nonnegative bound |
| BatchedPost.RunKeeps | posttask5.cpp:32-77 | both hold in every state of every interleaving |
| BatchedPost.StuckMeansDone | posttask5.cpp:32-77 | when no step is left every task has run once, in posting order, and `stop_time_` was assigned once, or never if there were no tasks |
| BatchedPost.RunsEndDone | posttask5.cpp:32-77 | every run ends within `7 * post_count` steps and ends so |
| BatchedPost.BatchNonempty | posttask5.cpp:63-66 | the swap never hands over an empty batch |
| BatchedPost.DirectKeeps | posttask3.cpp:25-36 | posttask3 runs tasks in posting order |
| BatchedPost.StandsForDirect | posttask5.cpp:48-77 | the rest of the batch followed by the pending queue is a queue posttask3 could have |
| BatchedPost.Refines | posttask5.cpp:48-77 | every step is a step of posttask3 or none: no task lost, repeated or reordered |
| BatchedPost.StartsAsDirect | posttask3.cpp:25-36 | the two programs start alike |
| BatchedPost.RunsRefine | posttask5.cpp:32-77 | every run in every interleaving is, standing still at times, a run of posttask3 that has executed the same tasks in every state |
| BatchedPost.RunRestKeeps | posttask5.cpp:68-70 | running the rest of a batch appends exactly it to what was executed, and keeps the invariant |
| BatchedPost.PostTask.PostLocked | posttask5.cpp:51-57 | the producer's critical section is the model's `Enqueue` |
| BatchedPost.PostTask.DrainRun | posttask5.cpp:68-70 | the loop runs the whole batch, in order, counts it, and keeps the invariant |
| BatchedPost.PostTask.DrainFinish | posttask5.cpp:72-74 | the final test is `FinishHandler` |
| BatchedPost.PostTask.Drive | posttask5.cpp:32-77 | the object, its two threads interleaved in any way, comes to the end with every task run once, in posting order, and `stop_time_` assigned once if there were any |
| BatchedPost.SumBatch | posttask4.cpp:63-65 | posttask4's sum of ones adds the length of the batch, as running the tasks would |
| Framing.DecodeEncode | client3.cpp:18-20 | reading a header word that was written gives the number written |
| Framing.EncodeDecode | client3.cpp:18-20 | writing a word that was read changes no byte |
| Framing.NetworkOrder | client3.cpp:15-28 | header words are in network order: of two, the lesser has the lesser byte at the first place where they differ |
| Framing.HeaderOf | client3.cpp:15-28 | a buffer that begins with a packet's header yields its length, count and full size |
| Framing.HeaderMakes | client3.cpp:96-98 | storing the two header words over a body makes that packet and leaves the body |
| Framing.IncMakes | client3.cpp:24-27 | `inc_packet_count` turns a packet into the one that differs only in a count one higher |
| Framing.SendChunk | client3.cpp:47-56 | any part of a packet sent next continues the packet on the wire |
| Framing.ReceiveChunk | client3.cpp:58-71 | any part received next continues the packet in the buffer, and leaves a body it equals unchanged |
| FramedEcho.NextLen | client3.cpp:114-118 | successive values of `get_body_len` are 100 + ((j - 1) mod 9901) |
| FramedEcho.StepKeeps | client3.cpp:47-104 | at any moment the pair is at the start, has packet `j` on its way, has its answer on its way, or one side is gone for good, with buffers, counts and channels exactly so |
| FramedEcho.Answer | server3.cpp:83-98 | a server holding the whole packet closes or turns it into the answer, same body, count one higher |
| FramedEcho.NextPacket | client3.cpp:74-84 | a client holding the whole answer turns it into its next packet over the same body |
| FramedEcho.StaysWithin | server3.cpp:83-87 | no read or write ever begun by either side goes past its 10008-byte buffer, though the server never checks a length |
| FramedEcho.OverrunIff | server3.cpp:55-98 | the mark for leaving the buffer is set exactly when an operation would |
| FramedEcho.OneInTransit | client3.cpp:47-71 | only one channel is ever nonempty and holds a part of one packet, byte for byte: the client's latest, even to a server that has closed, or its answer |
| FramedEcho.Delivered | server3.cpp:83-98 | a packet read to its end is byte for byte the one the peer sent |
| FramedEcho.ServerReadsBelowTotal | server3.cpp:63-69 | a server that has sent an answer whose count reaches its total has closed, and one that reads has sent none |
| FramedEcho.CountNeverWraps | client3.cpp:24-27 | a side that increments is below its 32-bit total, so the 32-bit addition is exact |
| FramedEcho.StepDescends | client3.cpp:47-104 | every step of either side lowers a nonnegative bound |
| FramedEcho.RunKeeps | client3.cpp:89-104 | the invariant holds in every state of every run, from buffers with any contents |
| FramedEcho.RunsEcho | server3.cpp:55-98 | in every state of every run both sides stay in their buffers and the body comes back unchanged |
| FramedEcho.RunsCloseServer | server3.cpp:63-69 | so it is in every state of every run: no read is begun after such an answer |
| FramedEcho.StuckIsOver | server3.cpp:55-98 | a run can only stop with the server gone before an answer or with the client finished |
| FramedEcho.RunsEnd | client3.cpp:120-123 | every run ends, and `finished_` is set if and only if the least even number from max(client total, 2) on is at most the server's total |
| FramedEcho.EqualTotals | client3.cpp:120-123 | with one total on both sides: if and only if it is even and positive |
| FramedEcho.ClientSession.OnConnect | client3.cpp:90-103 | the connect handler is the model's step from idle to the first packet |
| FramedEcho.ClientSession.OnBody | client3.cpp:72-86 | the body handler finishes or sends the next packet, as the model does |
| FramedEcho.ServerSession.Write | server3.cpp:55-60 | taking the size before incrementing sends the packet the increment makes |
| FramedEcho.ServerSession.OnWritten | server3.cpp:61-70 | the write handler closes or reads on, as the model does |
| FramedEcho.ServerSession.OnBody | server3.cpp:88-97 | the body handler closes or answers, as the model does |
| FramedEcho.Connection.Drive | client3.cpp:47-104 | the two sessions and the network, in any order, come to the end with `finished_` set exactly under the condition on the totals |
| EchoPool.NewPoolPartitioned | server2.cpp:21-28 | construction puts ten different buffers on the stack |
| EchoPool.OnReadKeeps | server2.cpp:73-81 | a read handler leaves every buffer in exactly one place, writes what came, and reads on into the top buffer, or not at all if there is none |
| EchoPool.OnWriteKeeps | server2.cpp:48-61 | so does a write handler: with a buffer free it only puts its own back, without one it begins one read, into the buffer it just got back |
| EchoPool.StartsWith | client2.cpp:137-141 | the client starts with a read into the top buffer and one block from the next, the server with a read |
| EchoPool.NeverStalls | server2.cpp:52-56 | with no read in flight all ten buffers are being written, and whichever write completes first restarts reading |
| EchoPool.StepKeeps | client2.cpp:84-144 | bytes carried by either side, on either channel and dropped always make up one block; the client's byte and handler counters account for all it began to write |
| EchoPool.FollowKeeps | client2.cpp:84-144 | once the client has started, no step adds a byte to those circulating or takes back a dropped one |
| EchoPool.ReadsRise | server2.cpp:52-56 | reads in flight become more only at the start and where a write handler finds no buffer free, and then by one |
| EchoPool.RunsConserve | client2.cpp:84-144 | in every state of every run: buffers partitioned and not run past, at most one block circulating, exactly one if and only if no byte was ever dropped, and bytes written at most one block beyond bytes read |
| EchoPool.RunsReadOn | server2.cpp:52-56 | the same between any two states of a run, once the side has started |
| EchoPool.OnlyPartialWritesDrop | client2.cpp:84-102 | a step drops bytes exactly as far as the write it ends was partial |
| EchoPool.NeverStuck | client2.cpp:84-144 | while bytes circulate there is a step that drops none and moves one, runs a handler, or ends an empty write of a side that must read again |
| EchoPool.ServerSession.ReadDone | server2.cpp:73-81 | on success the model's read step; on an error the session closes and that buffer is in no list any more |
| EchoPool.ServerSession.WriteDone | server2.cpp:48-61 | on success the model's write step; on an error the buffer goes back and the session closes |
| EchoPool.ClientSession.Connected | client2.cpp:131-143 | one read, then one block written from another buffer |
| EchoPool.ClientSession.ReadDone | client2.cpp:113-127 | on success the model's read step with both read counters; an error is recorded unless the session wants to close |
| EchoPool.ClientSession.WriteDone | client2.cpp:84-102 | on success the model's write step with both write counters; an error is recorded unless the session wants to close |
| EchoPool.Connection.Drive | client2.cpp:84-152 | the two sessions and the network keep buffers partitioned and bytes conserved through any number of turns in any order, `stop()` among them |
| TokenPosts.StepKeeps | posttask2.cpp:39-60 | tokens stay in their own pairs, stop only once the counter is at max(post_count, 1), and from then on the counter plus the tokens that may still raise it is bounded |
| TokenPosts.StartsAtEvenServices | posttask2.cpp:24-26 | token `i` of `k` starts queued at service `2i`, with nothing counted |
| TokenPosts.PairStays | io_pool.cpp:57-60 | the next service is the other one of the pair, and the pool's modulo does not move it |
| TokenPosts.OneTokenPerService | posttask2.cpp:39-55 | no service ever holds two tokens |
| TokenPosts.TokenAlternates | posttask2.cpp:46-52 | a token moves only when it posts, and then between services `2i` and `2i + 1` |
| TokenPosts.CountBounded | posttask2.cpp:39-60 | the counter never passes max(post_count, 1) + k - 1 |
| TokenPosts.RunKeeps | posttask2.cpp:21-60 | the invariant holds in every state of every interleaving, and each step lowers the bound |
| TokenPosts.StuckMeansStopped | posttask2.cpp:39-60 | when no step is left `stop()` was called, and a token that did not call it posted too late |
| TokenPosts.RunsEndWithinLimits | posttask2.cpp:21-60 | every run ends with the counter between max(post_count, 1) and that plus k - 1 |
| TokenPosts.PostTask.constructor | posttask2.cpp:21-28 | the start loop posts one token to each even service |
| TokenPosts.PostTask.TestCount | posttask2.cpp:43-45 | the test is another, with whatever the counter has become |
| TokenPosts.PostTask.PostOn | posttask2.cpp:46-52 | the post is a third |
| TokenPosts.PostTask.Drive | posttask2.cpp:21-60 | the object, its services interleaved in any way, comes to the end with `stop()` called and the counter within its limits |
| SocketPairs.FlightUpdate | socketpair.cpp:54-85 | changing one pair changes the bytes in flight by what that pair holds |
| SocketPairs.HandleKeeps | socketpair.cpp:56-71 | a read handler keeps writes = reads + bytes in flight, whether or not the re-armed read completes inside it |
| SocketPairs.StepKeeps | socketpair.cpp:41-96 | so does every step; every byte is `first_ch_`; `stop()` has run exactly if nothing is in flight any more |
| SocketPairs.RunKeeps | socketpair.cpp:41-96 | the same in every state of every delivery order |
| SocketPairs.StartWrites | socketpair.cpp:44-47 | after each write of `start()` the pairs written to hold one byte each and the others none |
| SocketPairs.DeliverTakes | socketpair.cpp:56 | a delivery moves the first byte of its own wire into `data_` and touches nothing else |
| SocketPairs.TokensConserved | socketpair.cpp:54-72 | exactly `active_count` bytes are in flight until the `write_count`-th read |
| SocketPairs.NextRoundTheRing | socketpair.cpp:63-65 | the next pair is (i + 1) mod n |
| SocketPairs.ForwardsOne | socketpair.cpp:54-66 | before the last read a handler writes one byte to the next pair and touches no other wire but its own; if the re-armed read completes at once, that wire loses its first byte, and this byte is the one passed on |
| SocketPairs.DrainsOne | socketpair.cpp:57-69 | from the `write_count`-th read on a handler writes nothing, and stops exactly if reads have caught up with writes |
| SocketPairs.StopOnlyWhenDrained | socketpair.cpp:67-69 | `stop()` runs only in the handler that leaves nothing in flight, and only once |
| SocketPairs.StuckMeansDrained | socketpair.cpp:41-96 | when no step is left everything is drained and `stop()` has run once |
| SocketPairs.RunsEndDrained | socketpair.cpp:41-96 | every run ends with one `stop()`, nothing in flight, and reads = writes = active + max(write_count, 1) - 1 |
| SocketPairs.Pairs.OnRead | socketpair.cpp:56-71 | the handler is the model's step, the byte forwarded being the one the re-armed read may already have replaced |
| SocketPairs.Pairs.Drive | socketpair.cpp:41-96 | the object, deliveries and handlers in any order, comes to the end with one `stop()`, nothing in flight and the exact counts |

## Left out

- Sockets, timers, resolvers, the reactor and the operating system: byte channels, nondeterministic transfers and handler steps stand for them, and a transfer or handler that can happen is taken to happen in the end.
- `size_t` and `uint64_t` wrap-around: these are unbounded here. The 32-bit words of client3 and server3 are modelled with their wrap-around.
- Streambufs.Streambuf.Commit: the truncation to `int` in `pbump` is not modelled; a bound on the count excludes it.
- Streambufs.Streambuf.Consume: the same for `gbump`.
- Streambufs.Streambuf.ReadSizeHelper: the vector's capacity is a parameter that is at least its size.
- The streambuf's vector is a sequence value, so the aliasing of a prepared buffer with the vector is not captured; filling one is a method of its own.
- Streambufs.Replay: ends with the first throw; what the vector then holds is in the contract of `Reserve`.
- Writing through a `buffers_iterator` and its behaviour outside its range: buffers are values there, and the source asserts the range.
- `advance` is one method with a helper for each direction and one for its innermost loop.
- Debug checks on buffers, the `buffer()` overloads for arrays, vectors and strings, and the forwarding `buffer_copy` overloads that only convert a buffer.
- Overlapping `buffer_copy` regions: `memcpy` excludes them and so does the model.
- The get area of `basic_socket_streambuf` and closing the socket on expiry.
- SocketStreambufs.SocketStreambuf.Send: a successful send takes at least one byte, and a failed one none.
- `std::streambuf::sputc` is taken to store the character if there is room and to call `overflow` if not.
- `close()` and reconnecting of `basic_socket_streambuf`, which empty the put area.
- Errors in client3 and server3 other than the peer being gone, and with them the content of a buffer after a failed read.
- EchoPool.StepKeeps: error-free steps only; what a handler does on an error is in the contracts of the session classes.
- EchoPool.NeverStuck: needs a positive server block size, since a read into an empty buffer moves nothing.
- The contents of client2 and server2 buffers: several reads and writes may be in flight at once, and the programs promise nothing about order.
- A socketpair run with `active_count` 0, which divides by zero, or above `pair_count`, which indexes past the pairs; posttask2 with an odd or zero thread count, which throws.
- client1, server1, posttask1 and the round robin of `io_service_pool`.
- The `basic_*` socket and service headers, `read_until`, `completion_condition.hpp` and `coroutine.hpp`: declarations, forwarding, or code driven from elsewhere.
- Clocks, statistics, command lines, resource limits, object lifetime and freeing of memory.
