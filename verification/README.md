# MailMsg: a verified model

MailMsg carries messages between Linux and a Zephyr core (CPU3) through eight single-producer, single-consumer rings in
shared memory, four priorities in each direction, with a hardware mailbox for doorbells. A session has a number, the
generation. Linux opens it by starting CPU3 and waiting for `SESSION_READY`, and closes it with `STOP_REQUEST`. This project
models the protocol library, CPU3's worker, the Linux lifecycle driver and the bench client, and proves what they keep over
all inputs and all runs.

`dafny verify dfyconfig.toml` checks the whole.

## How the model is built

| layer | modules |
|---|---|
| words, checksum, frames | `Words`, `Crc`, `CrcPolynomial`, `Frames` |
| ring: word by word between two CPUs; as one object; as a queue | `RingSteps`, `Ring`, `Frames.PushSpec`, `Frames.PopSpec` |
| endpoint: numbers, sessions, statistics | `Endpoint`, `Sequences`, `Traffic` |
| CPU3: what is answered, the worker, the doorbells, how the two agree, the observation line | `Answers`, `Service`, `Doorbell`, `WorkerSteps`, `Snapshot` |
| Linux driver: what each locked region does, the imperative driver, what its callers can rely on, whole runs | `Device`, `Driver`, `Regions`, `Lifecycle`, `OpenFiles`, `Reader` |
| both sides together | `Sessions`, `Injection`, `Quiesce`, `Window` |
| the bench client | `Bench` |

Code that changes state step by step is written so: `Ring`, `Endpoint`, `Driver`, `Service` and `Bench` hold classes whose
methods loop and assign as the C code does. Each such method is tied to a function of the old state (`PushSpec`, `SendSpec`,
`ControlSpec`, ...), and the properties over runs are lemmas about those functions. What an entry point, a frame, a
counter or a checksum means is stated besides in terms of states, bytes and numbers alone (`Regions`, `Frames.SealedWords`,
`Answers.RepliesOnTheWire`, `Traffic`), so that it does not rest on those functions. Each entry point of `Driver` also records
itself in the object's history, which `Valid` keeps to be a run of `Lifecycle`, so the theorems over runs hold of the object. A
32-bit word is the subset type `u32` with explicit wrap-around; the checksum register is its 32 bits.

Concurrency is modelled as interleaving:

- `RingSteps` gives each CPU its own copy of every 32-bit word. `publish` copies a word to memory, `acquire` refreshes it, and
  an unpublished store may reach memory at any moment, as a cache may write back at will. The grain is the word: a cache
  written back as whole lines, with the neighbouring index, is outside the model, and the CPUs are taken as coherent there.
- `Doorbell` interleaves Linux, the interrupt handler and the worker at each access to the status bit, the pending bitmap and
  the semaphore. `Snapshot` interleaves single word stores and loads. `Reader` interleaves a blocking read with the driver's
  locked regions, CPU3's pushes and doorbells and the interrupt.
- `Service` runs the worker's loops while a method of arbitrary Linux steps (`Meanwhile`) runs between any two of its looks.
  `WorkerSteps` proves that its drains and passes take the steps of the worker in `Doorbell`.
- `Quiesce` runs Linux's stop, access by access, against CPU3's way from popping the request to CPU_OFF, on top of `Doorbell`.
- `Sessions` runs every locked region of the driver against every step of CPU3, with a core that may lose power at any time. At
  probe the rings may hold anything, as the carveout does until the first start zeroes it.

Clocks, PSCI answers, doorbell results and everything a peer or a caller may choose are inputs. In `Lifecycle`, `OpenFiles`
and `Reader` CPU3 may leave anything in the rings; in `Sessions` it runs its own code. `Sessions` assumes of PSCI that OFF is
reported only of a core that is not running, and that CPU_ON succeeds only on a core that is off.

## Where the code does something other than it says

- The stop preflight compares the 0-or-1 answer of `mailmsg_ring_has_data` with -1. It therefore accepts as soon as p0 behind
  it is empty, and never looks at the other rings or the doorbells. `OpenFiles.StopIsAdmittedExactly` states the condition,
  `Sessions.StopsOverUndrainedRings` gives a run, from a fresh driver, that stops over a queued PING and over CPU3's own unread
  ACK and PONG.
- The worker breaks off after a bad or stale frame without coming back, and takes the bitmap before it finds that READY is not
  published. `Doorbell.StrandedExactlyByGivingUp` proves that these two are exactly the ways to lose a wake-up, and
  `FrameBehindABadOneIsLost` and `WokenBeforeReadyIsLost` give a run for each: in the second Linux has already read READY and
  rings between READY's commit and the flag that publishes it, and the frame still waits when the flag is set.
- CPU3 acknowledges all doorbells before CPU_OFF because, as the comment there says, no producer can follow. The stop itself
  can: a worker already in p0's ring may pop the request before its doorbell is rung. `Quiesce.LeftExactly` says exactly when a
  bit is left over, `Quiesce.PoppedBeforeTheBell` gives a run, and `Quiesce.NoSessionAfterALateDoorbell` proves that then no
  further session is ever started.
- The bench counts the answer to the value 0xffffffff as unknown, because that PONG carries zero
  (`Bench.AnswerIsRecognised`).
- A window of four on p0 and p1, each request drawing an ACK and a PONG, can lose a PONG to a full ring.
  `Window.WindowIsSafeExactlyWhenItFits` gives the bound for every priority.

## Model

| member | source | states |
|---|---|---|
| `Crc.FrameCrc32` | LZAMP/protocol/mailmsg/mailmsg.h:99-116 | The nested byte and bit loops over an arbitrary message end in the register that takes the message one bit at a time, complemented |
| `Crc.FeedByte` | LZAMP/protocol/mailmsg/mailmsg.h:111-113 | XORing a byte in at once and stepping eight times equals feeding its eight bits one by one |
| `Crc.GeneratorConstant` | LZAMP/protocol/mailmsg/mailmsg.h:113 | The generator polynomial of the 32-bit FCS, bit-reversed, is the constant 0xedb88320 |
| `Crc.BurstIsDetected` | LZAMP/protocol/mailmsg/mailmsg.h:100-116 | Two messages of equal length that differ only within some 32 consecutive bits have different checksums, wherever the burst lies |
| `Crc.GeneratorBurstIsMissed` | LZAMP/protocol/mailmsg/mailmsg.h:100-116 | The bound is sharp: a 33-bit burst shaped like the generator leaves the checksum unchanged in every message |
| `Crc.UnshiftShift` | LZAMP/protocol/mailmsg/mailmsg.h:113 | One bit step can be undone, because the generator has its top bit set |
| `Crc.FeedInjective` | LZAMP/protocol/mailmsg/mailmsg.h:106-114 | A changed register stays changed through any common suffix |
| `CrcPolynomial.ChecksumIsTheRemainder` | LZAMP/protocol/mailmsg/mailmsg.h:99-116 | The complemented checksum, read as a polynomial over GF(2), is the remainder that section 8.1.1.6.2 of ITU-T V.42 prescribes, and no other polynomial of degree below 32 is |
| `CrcPolynomial.Division` | LZAMP/protocol/mailmsg/mailmsg.h:106-114 | The bits that fall out of the register are the quotient of the division by the generator, and the register is its rest |
| `CrcPolynomial.RemainderIsUnique` | LZAMP/protocol/mailmsg/mailmsg.h:99-116 | Division by the generator has one remainder, so the meaning of the checksum is unambiguous |
| `Words.LoadAfterStore` | LZAMP/firmware/zephyr/app/src/main.c:177-191 | A 32-bit value stored little-endian is read back, whatever follows it |
| `Frames.DamageIsDetected` | LZAMP/linux/drivers/lzamp_amp_mailmsg.c:628-637 | A frame whose first payload byte is inverted after sealing is always judged BAD_CRC and always releases its slot, for every generation, sequence number, kind and payload |
| `Frames.FourByteDamageIsDetected` | LZAMP/protocol/mailmsg/mailmsg.h:100-116 | Any change confined to four consecutive bytes changes the checksum |
| `Frames.SealedWords` | LZAMP/protocol/mailmsg/mailmsg.h:78-110 | The checksum word of a sealed slot is the checksum of the frame's 44 bytes as they lie in memory: generation, kind, sequence and length at offsets 0, 4, 8 and 12, the payload from 16 on; its commit word is the number at offset 8 |
| `Frames.JudgedWords` | LZAMP/protocol/mailmsg/mailmsg.c:35-60 | The consumer's verdict is about the same bytes: malformed exactly by three of the four head words, accepted exactly if the checksum word is theirs |
| `Frames.PopAfterPushes` | LZAMP/protocol/mailmsg/mailmsg.c:9-60 | A frame pushed into a ring with room comes out unaltered and accepted, after exactly the slots pushed before it, in their order |
| `RingSteps.WordsInMemoryOrder` | LZAMP/protocol/mailmsg/mailmsg.h:78-85 | Words 0 to 10 of a slot, one copy at a time, are the bytes 4k to 4k+4 under the checksum |
| `RingSteps.DeliveredInOrder` | LZAMP/protocol/mailmsg/mailmsg.c:9-60 | In every interleaving of push steps, pop steps, early write-backs and refetches, what was popped is a prefix of what was pushed, sealed and unaltered; at most seven frames are outstanding; INCOMPLETE, INVALID on pop and BAD_CRC never occur |
| `RingSteps.StepRefinesQueue` | LZAMP/protocol/mailmsg/mailmsg.c:9-60 | Each word-level step is one atomic push or pop of the bounded queue, or leaves the queue alone |
| `RingSteps.NeverTheSlotBeingWritten` | LZAMP/protocol/mailmsg/mailmsg.c:24-31 | The consumer never copies the slot the producer is writing |
| `RingSteps.FullAndEmptyAreStaleAtWorst` | LZAMP/protocol/mailmsg/mailmsg.c:18-21 | FULL and EMPTY are reported exactly by the copies of the indices held, and a wrong answer is always one that a stale index explains |
| `RingSteps.AcquireIsExact` | LZAMP/protocol/mailmsg/mailmsg.c:35-44 | Unless the other side is between storing and publishing its index, an acquire yields its true position |
| `RingSteps.AnswersAreAtomic` | LZAMP/protocol/mailmsg/mailmsg.c:18-21 | Seen in memory, each call takes effect at one point within itself: a push and a pop where the index reaches memory, FULL and EMPTY, exactly, where the other index was last refreshed before the check |
| `Ring.Ring.Push` | LZAMP/protocol/mailmsg/mailmsg.c:9-33 | Appends the frame with its number as commit word and the checksum of its bytes in memory, or reports INVALID or FULL and changes nothing |
| `Ring.Ring.Pop` | LZAMP/protocol/mailmsg/mailmsg.c:35-60 | Hands over the oldest slot with the verdict on it and releases it whatever the verdict, but leaves an uncommitted slot |
| `Ring.Ring.HasData` | LZAMP/protocol/mailmsg/mailmsg.c:62-70 | True exactly when the contents are not empty |
| `Ring.Ring.Count` | LZAMP/protocol/mailmsg/mailmsg.c:72-88 | The number of frames in the contents, around the ring, and an error for indices out of range |
| `Ring.Ring.Inject` | LZAMP/linux/drivers/lzamp_amp_mailmsg.c:608-641 | The fault-injection push: as Push, but what it appends is damaged after sealing when asked |
| `Endpoint.Endpoint.Send` | LZAMP/protocol/mailmsg/mailmsg_endpoint.c:75-132 | Unbound, argument, session and ring errors in the C order; draws a number even if the ring turns out full; commits, counts and notifies, and leaves the caller's result untouched on an argument error |
| `Endpoint.Endpoint.Receive` | LZAMP/protocol/mailmsg/mailmsg_endpoint.c:134-164 | An unbound endpoint and session errors take nothing; otherwise the ring's verdict, refined to STALE_FRAME for another generation, and its counter, whose meaning is `Traffic.FindingsAreCounted` |
| `Endpoint.Endpoint.Bind` | LZAMP/protocol/mailmsg/mailmsg_endpoint.c:39-73 | A refused bind changes nothing; an accepted one resets numbers and statistics and crosses the two directions by role |
| `Endpoint.Endpoint.SessionValid` | LZAMP/protocol/mailmsg/mailmsg_endpoint.c:21-37 | The verdict on the shared header: unbound, foreign, of another session, or good |
| `Endpoint.Endpoint.HasReceived` | LZAMP/protocol/mailmsg/mailmsg_endpoint.c:166-177 | An answer only when bound and within a valid session, and then whether the ring holds a frame |
| `Endpoint.Endpoint.DrawSequence` | LZAMP/protocol/mailmsg/mailmsg_endpoint.c:4-10 | The successor number, skipping zero |
| `Endpoint.SessionIsExact` | LZAMP/protocol/mailmsg/mailmsg_endpoint.c:21-37 | Good for exactly one header, and which of the three errors otherwise |
| `Endpoint.RefusedSends` | LZAMP/protocol/mailmsg/mailmsg_endpoint.c:85-97 | A send refused for its arguments or its session draws no number and touches neither ring nor counters |
| `Endpoint.SequenceMeansCommitted` | LZAMP/protocol/mailmsg/mailmsg_endpoint.c:91-131 | A send reports a non-zero sequence number exactly when the frame carrying it was committed; says exactly when a send succeeds and when it finds the ring full |
| `Endpoint.ReceiveTakesHead` | LZAMP/protocol/mailmsg/mailmsg_endpoint.c:134-164 | A receive hands over the head of its queue and removes it, or hands over nothing and removes nothing |
| `Sequences.DrawsRepeatExactlyByCycle` | LZAMP/protocol/mailmsg/mailmsg_endpoint.c:4-10 | Never zero; two draws agree exactly when they are a multiple of 2^32-1 draws apart |
| `Sequences.EveryValueIsDrawn` | LZAMP/protocol/mailmsg/mailmsg_endpoint.c:4-10 | The cycle covers every non-zero 32-bit value |
| `Traffic.CountersAddUp` | LZAMP/protocol/mailmsg/mailmsg_endpoint.c:75-164 | Over any run of sends and receives since bind: sent = taken + queued, in order; enqueued = sent + coalesced + failed doorbells = received + depth, modulo 2^32; high water at most 7 |
| `Traffic.SendCountersCount` | LZAMP/protocol/mailmsg/mailmsg_endpoint.c:109-131 | Over any run since bind, modulo 2^32: doorbells rung, coalesced and failed are the committed sends with that answer, full the sends that found seven frames; the high water is the greatest depth there was |
| `Traffic.ReceiveCountersCount` | LZAMP/protocol/mailmsg/mailmsg_endpoint.c:149-156 | Over any run since bind, modulo 2^32: good is the number of frames taken that carry the receiver's generation, stale the number of the others |
| `Traffic.FindingsAreCounted` | LZAMP/protocol/mailmsg/mailmsg_endpoint.c:134-164 | Whatever a peer leaves in the rings: each of the five receive counters is the number of heads found in that state, modulo 2^32 |
| `Traffic.CommitsAreDistinct` | LZAMP/protocol/mailmsg/mailmsg_endpoint.c:100-121 | Any two frames committed by one endpoint fewer than 2^32-1 draws apart carry different numbers, across priorities and across numbers burnt on full rings |
| `Answers.InjectedDamageIsRefused` | LZAMP/firmware/zephyr/app/src/main.c:486-516 | CPU3 takes a damaged frame once as BAD_CRC, releases it, never answers it with PONG, and on p0 and p1 owes exactly one NACK naming its number and reason 1 |
| `Answers.StopRepliesEcho` | LZAMP/firmware/zephyr/app/src/main.c:519-541 | A stop reply is owed only to a whole STOP_REQUEST on p0, and is the one that request and that build deserve |
| `Answers.RepliesOnTheWire` | LZAMP/firmware/zephyr/app/src/main.c:490-556 | What CPU3 answers to each frame it has taken, by the words a receiver reads: kind, number, reason or status, value plus one |
| `Answers.ReadyOnTheWire` | LZAMP/firmware/zephyr/app/src/main.c:366-401 | READY carries the session's number and protocol version 6 |
| `Answers.EchoReads` | LZAMP/firmware/zephyr/app/src/main.c:321-338 | Number and status written into a feedback frame are read back from its payload |
| `Answers.PongReads` | LZAMP/firmware/zephyr/app/src/main.c:403-421 | A PONG's payload reads as the request's value plus one, wrapping |
| `Service.Service.Transmit` | LZAMP/firmware/zephyr/app/src/main.c:296-311 | One reply queued through the endpoint; its doorbell is coalesced while an earlier one stands and rings otherwise; a full ring is counted |
| `Service.Service.Answer` | LZAMP/firmware/zephyr/app/src/main.c:490-556 | Exactly the replies due for a frame are attempted, in order; CPU3 goes off if and only if the frame is an empty stop request, the image is built to stop, and STOP_READY echoing it was appended to p0 |
| `Service.Service.AnswerStop` | LZAMP/firmware/zephyr/app/src/main.c:519-541 | One reply to a stop request by its length and by the build, and off exactly when STOP_READY was committed |
| `Service.Service.Drain` | LZAMP/firmware/zephyr/app/src/main.c:475-563 | Against any activity of Linux: at most seven looks, all but the last good; what lay in the ring was taken, in order, in those looks or is what the last look left there, and the other rings lose nothing; sends what the looks call for; after a used-up quota one more look decides between rescheduling and leaving |
| `Service.Service.Pass` | LZAMP/firmware/zephyr/app/src/main.c:462-566 | At most 7 frames a priority and 28 in all; serves the taken priorities in order and no other; reschedules exactly those whose quota was used up with a frame seen behind it; in all four rings every frame there at the start was taken, in order, or is still there, and what a drain did not take of its ring is what it last saw there; does nothing before READY is published |
| `Service.Service.WorkerTurn` | LZAMP/firmware/zephyr/app/src/main.c:568-600 | All pending doorbells are taken at once and served, with the same account of all four rings since the turn began; those put back are pending again with the semaphore up |
| `Service.Service.SessionReady` | LZAMP/firmware/zephyr/app/src/main.c:366-401 | READY is committed at most once: after a commit only its doorbell is tried again, after a full ring nothing is committed |
| `Service.WellFormedLeavesNothing` | LZAMP/firmware/zephyr/app/src/main.c:483-563 | Of any pass so accounted for, over well-formed frames of this session: every frame that lay in a served ring when the pass began was taken, in order, and its answers are among the frames sent, or the priority is in the set to be rescheduled with a frame seen in its ring, or the core went off |
| `Doorbell.NoLostWakeup` | LZAMP/firmware/zephyr/app/src/main.c:558-655 | In every run without bad frames or doorbells before READY, a frame whose doorbell was accepted is vouched for by the status bit, the handler, the bitmap with the semaphore, or the current pass; a quiet system holds no such frame |
| `Doorbell.StrandedExactlyByGivingUp` | LZAMP/firmware/zephyr/app/src/main.c:469-516 | A step strands a rung frame if and only if it is the worker giving up on the priority, early or behind a bad frame, with no further doorbell under way |
| `Doorbell.WokenBeforeReadyIsLost` | LZAMP/firmware/zephyr/app/src/main.c:396-399 | A run in which Linux reads READY and rings before the flag behind the commit is set: the wake-up is dropped, and a good rung frame waits in a sleeping system with the flag set |
| `Doorbell.FrameBehindABadOneIsLost` | LZAMP/firmware/zephyr/app/src/main.c:490-516 | A run in which a good rung frame behind a damaged one waits in a sleeping system |
| `WorkerSteps.DrainIsTheWorkers` | LZAMP/firmware/zephyr/app/src/main.c:475-563 | A drain of `Service` is a series of moves of the worker of `Doorbell`, one a look, by the kind of the frame found; it ends where they end and comes back to its priority exactly when they do |
| `WorkerSteps.PassIsTheWorkers` | LZAMP/firmware/zephyr/app/src/main.c:462-600 | A whole pass, fed with the same ring contents, leaves the worker of `Doorbell` with the same priorities to put back |
| `Quiesce.LeftExactly` | LZAMP/firmware/zephyr/app/src/main.c:716-736 | In every interleaving CPU_OFF leaves A2B clear, unless the stop's DAT write came after the status read; then p0's bit is left and no other |
| `Quiesce.RungBeforeThePop` | LZAMP/firmware/zephyr/app/src/main.c:711-730 | A request popped after its doorbell was rung, coalesced or refused leaves A2B clear, whatever else was pending |
| `Quiesce.SampleDecides` | LZAMP/linux/drivers/lzamp_amp_mailmsg.c:897-921 | By where the stop stands at the status read: settled, and nothing is left; the bit found clear but DAT not yet written, and p0's bit is left |
| `Quiesce.PoppedBeforeTheBell` | LZAMP/firmware/zephyr/app/src/main.c:519-541 | A run from power-on in which the bit stands with the core off |
| `Quiesce.RearmAnswers` | LZAMP/linux/drivers/lzamp_amp_mailmsg.c:1846-1853 | With the core off and no file open rearm succeeds, or answers EBUSY exactly if the doorbell was late |
| `Quiesce.NoSessionAfterALateDoorbell` | LZAMP/linux/drivers/lzamp_amp_mailmsg.c:1817-1875 | After a late doorbell the driver keeps its session number in every continuation: nothing clears the bit, so no rearm and no start succeeds |
| `Quiesce.StepKeeps` | LZAMP/linux/drivers/lzamp_amp_mailmsg.c:1500-1521 | Every step keeps the gate closed from the request's commit to CPU_OFF, the request last in its ring, and the bit clear under whoever found it so |
| `Window.EveryRequestIsAnswered` | LZAMP/tools/mailmsg_window_bench.c:206-226 | With a fitting window no response is ever dropped and no request refused, and the client reads the ACK and PONG of each accepted request, in order, once |
| `Window.WindowIsSafeExactlyWhenItFits` | LZAMP/firmware/zephyr/app/src/main.c:552-555 | A window never loses a response in any run if and only if it is at most 3 on p0 and p1, and at most 7 on p2 and p3 |
| `Window.TooWideAWindowLosesAPong` | LZAMP/firmware/zephyr/app/src/main.c:403-421 | For every wider window, a run of differently numbered requests that drops the PONG of the last |
| `Window.AnswersAreReplies` | LZAMP/firmware/zephyr/app/src/main.c:552-555 | The responses counted here are, one for one and in order, the replies CPU3's service owes for a PING |
| `Snapshot.ValidSnapshotIsOnePublication` | LZAMP/linux/drivers/lzamp_amp_mailmsg.c:746-784 | Under word-by-word writing and reading, a snapshot judged valid holds the fields of the one publication its commit numbers, if fewer than a cycle of commits fall into the read |
| `Snapshot.UndisturbedReadIsValid` | LZAMP/firmware/zephyr/app/src/main.c:225-275 | A read the writer stays out of is always judged valid, once something was published |
| `Device.ReceiveConsumes` | LZAMP/linux/drivers/lzamp_amp_mailmsg.c:421-443 | Which results of a receive have consumed a frame and which have left the ring as it was, on which the drain loops rely to end |
| `Driver.Driver.ControlWork` | LZAMP/linux/drivers/lzamp_amp_mailmsg.c:402-496 | The lifecycle drain of p0, deadline by deadline: skips stale and foreign frames, records errors, stops at the frame it waits for, at an empty ring or at the deadline; whether the deadline is extended is pinned, frame by frame, to the drain's last one; one act of the recorded run |
| `Driver.Driver.Digest` | LZAMP/linux/drivers/lzamp_amp_mailmsg.c:446-492 | READY of this very session opens the data plane; a stop reply counts only if it echoes the current request; a refusal reopens; STOP_READY, and nothing else, extends the deadline |
| `Driver.Driver.MarkOffline` | LZAMP/linux/drivers/lzamp_amp_mailmsg.c:303-320 | From every live phase to OFFLINE, with every reader's count moved; otherwise nothing |
| `Driver.Driver.RefreshAffinity` | LZAMP/linux/drivers/lzamp_amp_mailmsg.c:323-341 | ON and ON_PENDING are remembered; a sample of OFF, after a successful CPU_ON and a sighting of ON, ends a live session, and no other sample does |
| `Driver.Driver.AffinityWork` | LZAMP/linux/drivers/lzamp_amp_mailmsg.c:343-379 | In a live phase a sample leads to OFFLINE, with every reader's count moved, if and only if it is OFF and the core was seen on; otherwise it at most remembers ON; p0 is drained while the lifecycle plane owns it, and the sampler goes on while the session lives |
| `Driver.Driver.AffinityShow` | LZAMP/linux/drivers/lzamp_amp_mailmsg.c:877-893 | Reading the affinity from user space is the same sample, with the same two outcomes in a live phase |
| `Driver.Driver.SetTimeout` | LZAMP/linux/drivers/lzamp_amp_mailmsg.c:383-398 | STARTING and STOPPING end in their timeout phases with ETIMEDOUT, every reader's count moved |
| `Driver.Driver.TimeoutWork` | LZAMP/linux/drivers/lzamp_amp_mailmsg.c:498-527 | An expired STARTING or STOPPING ends in its timeout phase with ETIMEDOUT, except that STOPPING behind STOP_READY ends OFFLINE exactly if the sample is OFF and the core was seen on |
| `Driver.Driver.ImageWrite` | LZAMP/linux/drivers/lzamp_amp_mailmsg.c:673-711 | The image grows only in order, within its size, and never after a start |
| `Driver.Driver.Start` | LZAMP/linux/drivers/lzamp_amp_mailmsg.c:1730-1811 | A start needs a complete image and a core that is off; it zeroes the window, numbers a new session, binds, and falls back if CPU_ON fails |
| `Driver.Driver.Rearm` | LZAMP/linux/drivers/lzamp_amp_mailmsg.c:1817-1875 | Only after a start, with no open file, a core that is off and no doorbell standing; ends the session and unfreezes the image |
| `Driver.Driver.Stop` | LZAMP/linux/drivers/lzamp_amp_mailmsg.c:1474-1538 | The data plane closes before the request is sent, reopens if nothing was committed, and stays closed if only the doorbell failed |
| `Driver.Driver.StopPreflight` | LZAMP/linux/drivers/lzamp_amp_mailmsg.c:1440-1468 | What the preflight decides as the code stands: open files, a bound and valid session, p0 behind it |
| `Driver.Driver.Open` | LZAMP/linux/drivers/lzamp_amp_mailmsg.c:1056-1088 | A descriptor is opened and counted only through the data gate |
| `Driver.Driver.Release` | LZAMP/linux/drivers/lzamp_amp_mailmsg.c:1090-1103 | Closing takes the signed counters down without a test, and in every run they stay at or above zero |
| `Driver.Driver.ClaimReader` | LZAMP/linux/drivers/lzamp_amp_mailmsg.c:1105-1124 | The reader of a priority goes to one descriptor; the holder may ask again |
| `Driver.Driver.ReadTurn` | LZAMP/linux/drivers/lzamp_amp_mailmsg.c:1144-1171 | One locked turn of a read hands over exactly the slot at the head of its ring if it is finished, whole and current, takes a finished one in any case, and otherwise answers the error its phase or that slot deserves |
| `Driver.Driver.Write` | LZAMP/linux/drivers/lzamp_amp_mailmsg.c:1179-1217 | With its own priority, at most 28 bytes, in ACTIVE and with room, a write answers 0 and puts behind its ring exactly one sealed frame with this kind, length and payload, the session's generation and the number just drawn; any other changes no ring and answers the error for its arguments, its phase or the full ring |
| `Driver.Driver.Ping` | LZAMP/linux/drivers/lzamp_amp_mailmsg.c:1376-1416 | In ACTIVE with room, exactly one PING of four bytes that read as the value; otherwise no ring changes, with the error for the phase or the full ring |
| `Driver.Driver.Inject` | LZAMP/linux/drivers/lzamp_amp_mailmsg.c:1296-1320 | The test hooks draw the endpoint's next number but bypass its statistics; in ACTIVE with room they commit one PING of the value, with its first payload byte inverted on request; only the corruption hook rings, and only for a committed frame |
| `Driver.Driver.ResponseShow` | LZAMP/linux/drivers/lzamp_amp_mailmsg.c:1614-1683 | Drains the reverse rings in order, each until empty, blocked or stale |
| `Driver.Driver.Callback` | LZAMP/linux/drivers/lzamp_amp_mailmsg.c:220-237 | The interrupt moves the count of its priority and nothing else, and calls the lifecycle drain in STARTING and STOPPING |
| `Driver.Driver.PeerActs` | LZAMP/firmware/zephyr/app/src/main.c:462-566 | Whatever CPU3 does to the rings between two regions keeps the driver's invariants and is one act of the recorded run |
| `Regions.SampleDecides` | LZAMP/linux/drivers/lzamp_amp_mailmsg.c:323-341 | Over the steps of the driver: a sample in a live phase leads to OFFLINE if and only if it is OFF and the core was seen on, and nothing else of the session changes |
| `Regions.TimeoutDecides` | LZAMP/linux/drivers/lzamp_amp_mailmsg.c:498-527 | The whole state behind an expired and an unexpired timeout |
| `Regions.WritesLandAsGiven` | LZAMP/linux/drivers/lzamp_amp_mailmsg.c:1190-1217 | In every run each user's write appends exactly the user's frame to its own ring and answers 0, or changes no ring and answers the error |
| `Regions.PingIsExact` | LZAMP/linux/drivers/lzamp_amp_mailmsg.c:1376-1416 | The same of the sysfs request, on every priority |
| `Regions.InjectIsExact` | LZAMP/linux/drivers/lzamp_amp_mailmsg.c:1296-1320 | The same of the test hooks; with the one payload byte inverted back, a damaged frame is a PING as any other |
| `Regions.ReadIsExact` | LZAMP/linux/drivers/lzamp_amp_mailmsg.c:1144-1171 | What one turn of a read takes, hands over and answers, by the head of its ring and the phase |
| `Regions.DrainTakesTheFirst` | LZAMP/linux/drivers/lzamp_amp_mailmsg.c:419-493 | Whatever lies in p0: the drain takes and passes over everything before the first frame it waits for, noting the last error, obeys that frame and leaves the rest; without one it stops at the first unfinished slot or at the end, or times out on the first current frame after its deadline |
| `Regions.DrainTooLate` | LZAMP/linux/drivers/lzamp_amp_mailmsg.c:383-398 | A drain that begins after its deadline takes nothing and times out |
| `Regions.ResponseEmpties` | LZAMP/linux/drivers/lzamp_amp_mailmsg.c:1614-1683 | The response file takes from each reverse ring up to its end, an unfinished slot or a stale frame, in ACTIVE only |
| `Regions.ImageGrows` | LZAMP/linux/drivers/lzamp_amp_mailmsg.c:673-711 | A piece of the image is taken if and only if no session was started, it begins where the last ended and fits |
| `Regions.StartIsExact` | LZAMP/linux/drivers/lzamp_amp_mailmsg.c:1730-1811 | What a start needs, everything it sets in the window and the driver, and the error otherwise |
| `Regions.RearmIsExact` | LZAMP/linux/drivers/lzamp_amp_mailmsg.c:1817-1875 | What a rearm needs, what it clears and what it keeps; refused, it is at most a sample |
| `Regions.StopIsExact` | LZAMP/linux/drivers/lzamp_amp_mailmsg.c:1474-1538 | A stop commits one empty STOP_REQUEST on p0 and remembers its number, or sends nothing; a failed doorbell changes the answer only |
| `Regions.FilesAreExact` | LZAMP/linux/drivers/lzamp_amp_mailmsg.c:1056-1124 | Open, claim and close: when each succeeds, which count moves, and the error otherwise |
| `Driver.OpenDriverIsConfirmed` | LZAMP/linux/drivers/lzamp_amp_mailmsg.c:446-465 | Of every driver object: in ACTIVE, STOPPING and STOP_TIMEOUT its four generations agree and are not zero, and its image is complete and frozen |
| `Driver.RevivedDriverWasRestarted` | LZAMP/linux/drivers/lzamp_amp_mailmsg.c:1817-1870 | Of every driver object: ACTIVE after a timeout or OFFLINE lies behind a rearm, a start and a READY of this very session in its history |
| `Lifecycle.OpenedSessionIsConfirmed` | LZAMP/linux/drivers/lzamp_amp_mailmsg.c:446-465 | In every run, ACTIVE, STOPPING and STOP_TIMEOUT imply peer = session = endpoint = shared generation, not zero, a zero result, a successful CPU_ON and a complete image that no write can change |
| `Lifecycle.ReopensOnlyThroughANewSession` | LZAMP/linux/drivers/lzamp_amp_mailmsg.c:1817-1870 | From either timeout or OFFLINE, every later ACTIVE lies behind a rearm, then a start with a new number on zeroed rings, then a READY carrying that number; start, READY and the reopened session are the same session, with nothing but STARTING and then ACTIVE or STOPPING between |
| `Lifecycle.WaysOut` | LZAMP/linux/drivers/lzamp_amp_mailmsg.c:303-320 | Where each phase can lead in one step, UNARMED, STARTING, ACTIVE, STOPPING and the three ends, by which entry point, and what frame opens or reopens it; OFFLINE exactly by a sample of OFF of a core seen on |
| `Lifecycle.DrainExtendsOnStopReady` | LZAMP/linux/drivers/lzamp_amp_mailmsg.c:467-492 | The deadline is extended only by a STOP_READY in p0 that echoes the current stop, and the phase stays STOPPING |
| `Lifecycle.ControlDrains` | LZAMP/linux/drivers/lzamp_amp_mailmsg.c:419-493 | The drain changes only its own fields, takes frames off the head of p0, and reopens only for a frame found there that warrants it |
| `Lifecycle.StepKeepsSound` | LZAMP/linux/drivers/lzamp_amp_mailmsg.c:1730-1811 | Every locked region keeps the lifecycle invariant, whatever the peer put into the rings |
| `OpenFiles.DescriptorSeesActiveOrOffline` | LZAMP/linux/drivers/lzamp_amp_mailmsg.c:1219-1244 | In every run a live descriptor's gate answers 0 or ENOLINK, poll's STARTING and STOPPING branches are unreachable, and the counts are exact with at most one reader a priority |
| `OpenFiles.ClaimIsExclusive` | LZAMP/linux/drivers/lzamp_amp_mailmsg.c:1105-1124 | A claim succeeds if and only if no other descriptor holds the reader, and closing the holder frees it |
| `OpenFiles.StepKeepsAccounted` | LZAMP/linux/drivers/lzamp_amp_mailmsg.c:1056-1124 | Every locked region keeps open count = open files, reader count = claimed files at most 1, and open files only in ACTIVE or OFFLINE |
| `OpenFiles.StopIsAdmittedExactly` | LZAMP/linux/drivers/lzamp_amp_mailmsg.c:1440-1468 | In every reachable state a stop begins if and only if the session is ACTIVE, no file is open, p0 behind is empty and p0 ahead has room; a refused doorbell changes only the answer |
| `Reader.NobodySleepsThroughShutdown` | LZAMP/linux/drivers/lzamp_amp_mailmsg.c:1143-1176 | In every interleaving a reader asleep on an unchanged count has an ACTIVE session, and a frame in its ring still has its doorbell coming; otherwise it may wake |
| `Reader.MoveKeeps` | LZAMP/linux/drivers/lzamp_amp_mailmsg.c:303-320 | Every step of driver, peer, interrupt and reader keeps that |
| `Sessions.ReadyIsFirstAndOnce` | LZAMP/firmware/zephyr/app/src/main.c:367-400 | In every run of the joint system the first frame CPU3 commits in a session is READY, and no other is, whatever its doorbells answer |
| `Sessions.OpensOnEmptyRings` | LZAMP/linux/drivers/lzamp_amp_mailmsg.c:446-465 | At the step from STARTING to ACTIVE all eight rings are empty |
| `Sessions.UsersNeverReadReady` | LZAMP/linux/drivers/lzamp_amp_mailmsg.c:1143-1176 | No read through a descriptor ever returns READY |
| `Sessions.NoCommitOutsideActive` | LZAMP/linux/drivers/lzamp_amp_mailmsg.c:278-298 | Within a session no entry point commits a frame or draws a number outside ACTIVE; the forward rings only shrink |
| `Sessions.RefusalAnswersThisStop` | LZAMP/linux/drivers/lzamp_amp_mailmsg.c:467-492 | STOPPING returns to ACTIVE only if CPU3 took and refused this stop's own request, the one frame committed since ACTIVE was left, within 2^32-1 draws; an image built to stop never does that |
| `Sessions.StopCommits` | LZAMP/linux/drivers/lzamp_amp_mailmsg.c:1500-1521 | A stop commits its request under a number drawn just then and remembers that number |
| `Sessions.FrozenDuringStop` | LZAMP/linux/drivers/lzamp_amp_mailmsg.c:1500-1535 | From then on nothing is committed as long as STOPPING lasts |
| `Sessions.EchoNamesTheStop` | LZAMP/firmware/zephyr/app/src/main.c:519-541 | A refusal that echoes the current number answers the current request and no earlier one |
| `Sessions.NextKeeps` | LZAMP/firmware/zephyr/app/src/main.c:367-400 | Every step of Linux and CPU3 keeps the joint invariant of handshake, numbers and stop |
| `Sessions.InjectionIsRefused` | LZAMP/linux/drivers/lzamp_amp_mailmsg.c:1296-1320 | The sysfs hook commits one damaged frame under a fresh number, and a receive that finds it at the head rejects it, releases it, and owes a NACK of that number or nothing |
| `Injection.TakenAtMostOnce` | LZAMP/firmware/zephyr/app/src/main.c:483-489 | In every run of the joint system a committed frame is taken at most once in its session, within 2^32-1 draws |
| `Injection.InjectedIsRefusedOnce` | LZAMP/firmware/zephyr/app/src/main.c:490-515 | In every run an injected damaged frame is taken only from its own ring, at most once, releases its slot, and on p0 and p1 makes CPU3 owe exactly one NACK with its number and reason 1, elsewhere nothing |
| `Injection.InjectedIsRefusedInSomeRun` | LZAMP/linux/drivers/lzamp_amp_mailmsg.c:1296-1320 | On every priority there is such a run from a fresh driver: the session opens, the hook commits its frame, CPU3 takes and refuses it |
| `Injection.NackNamesItsFrame` | LZAMP/firmware/zephyr/app/src/main.c:498-502 | Only the step that takes a frame makes CPU3 owe a NACK with its number |
| `Injection.UniqueKeeps` | LZAMP/protocol/mailmsg/mailmsg_endpoint.c:4-10 | Every step of the joint system keeps the numbers under way and those taken pairwise different |
| `Sessions.SessionOpensInSomeRun` | LZAMP/linux/drivers/lzamp_amp_mailmsg.c:1763-1794 | A run from a fresh driver to an open session with a serving CPU3 |
| `Sessions.StopIsRefusedInSomeRun` | LZAMP/firmware/zephyr/app/src/main.c:535-539 | A run in which a stop is refused and the session reopens |
| `Sessions.StopsOverUndrainedRings` | LZAMP/linux/drivers/lzamp_amp_mailmsg.c:1450-1458 | A run from a fresh driver that starts a stop over a queued PING and over the ACK and PONG CPU3 sent for an earlier one, against the comment above the preflight |
| `Bench.Bench.FindFree` | LZAMP/tools/mailmsg_window_bench.c:105-114 | The first free slot, or none exactly when all are in use |
| `Bench.Bench.FindValue` | LZAMP/tools/mailmsg_window_bench.c:116-125 | A slot in flight with the value, or none if there is none |
| `Bench.Bench.FillOne` | LZAMP/tools/mailmsg_window_bench.c:207-242 | A free slot exists below the window; a write that succeeds occupies just that slot with the next value, one that fails changes only its counter |
| `Bench.Bench.Account` | LZAMP/tools/mailmsg_window_bench.c:281-312 | Each frame read moves exactly one counter, and only a PONG that answers a value in flight closes a slot, that one |
| `Bench.Bench.Fill` | LZAMP/tools/mailmsg_window_bench.c:206-242 | For any answers of the kernel: writes the next values, in order, exactly until the window is full or a write is turned away; only a failed write ends the measurement |
| `Bench.Bench.ReadAll` | LZAMP/tools/mailmsg_window_bench.c:270-313 | Every frame offered is read and accounted for, in order; the values in flight afterwards are those before without the ones answered |
| `Bench.Bench.Measure` | LZAMP/tools/mailmsg_window_bench.c:203-314 | As many rounds as begin before the deadline, or up to the first failure: each fills, polls, and reads if there is something to read and no error; each state follows from the kernel's answers |
| `Bench.Bench.Collect` | LZAMP/tools/mailmsg_window_bench.c:316-358 | The grace period polls and reads while something is in flight, there is time and the device does not hang up, and writes nothing |
| `Bench.Bench.Run` | LZAMP/tools/mailmsg_window_bench.c:203-402 | The rounds, then the grace period, each pinned by the kernel's answers; a run with time and room writes; lost = timed out = in flight = written - answered; exit code 0 if and only if no error, refusal, duplicate or stray was counted and, on p0 and p1, everything written was acknowledged and answered |
| `Bench.MeasurementWrites` | LZAMP/tools/mailmsg_window_bench.c:203-210 | A measurement that begins before its deadline with room in the window writes in its first round |
| `Bench.PerfectRunSettles` | LZAMP/tools/mailmsg_window_bench.c:203-402 | With a kernel that accepts every write and a CPU3 that answers, every round writes a whole window and has it answered, nothing is left over, and no counter of a failure moves |
| `Bench.ActiveValuesDiffer` | LZAMP/tools/mailmsg_window_bench.c:219-221 | Values in flight are pairwise different until 2^32 requests have been written |
| `Bench.ActiveAreFew` | LZAMP/tools/mailmsg_window_bench.c:105-114 | All slots are in use exactly when as many requests as slots are in flight |
| `Bench.AnswerIsRecognised` | LZAMP/tools/mailmsg_window_bench.c:297-302 | A PONG is recognised exactly when its request's value is not 0xffffffff |
| `Bench.PercentileIsTheLeastRank` | LZAMP/tools/mailmsg_window_bench.c:127-137 | The percentile index is inside the samples and the least that leaves the asked share at or before it |

## Left out

- Probe, device tree, sysfs text formats, misc devices, cache, PSCI and MMIO instructions: only their assumed effects appear, as inputs.
- The legacy one-shot ping and response path: its entry accepts only UNARMED, and the gate it then calls refuses UNARMED.
- The device-removal flag: no path of the driver sets it.
- Notification fault injection (priority, count, errno): a doorbell's answer is an input of every send, so any injected failure is covered, but not the bookkeeping of the injection.
- The Rockchip mailbox driver behind the B2A interrupt: `Reader` assumes that the status bit is cleared before the callback.
- Cache lines: the ring model works word by word; an index and a neighbouring index written back together, and indices damaged from outside, are not modelled.
- `Reader`: the atomic reader count is unbounded; a reader asleep while it wraps around 2^32 is not modelled.
- Endpoint.Endpoint.Send: the high-water mark is taken from the queue right after the push; a consumer that empties slots between push and count can only make the real mark lower.
- Sessions.RefusalAnswersThisStop: beyond 2^32-1 draws in one session numbers repeat, and the echo then no longer names one request; the same holds of the numbers in `Injection`.
- Driver.Driver.StopPreflight: the loop over the later rings and the doorbell test are not written out, because the first comparison always returns.
- Timers: delayed work and jiffies; whether a deadline has passed is an input of the region that tests it.
- The self-off build (`MAILMSG_TEST_SELF_OFF_VALUE`), in which a PING with a chosen value turns CPU3 off; `Sessions` lets the core go off at any time.
- CPU3's checkpoints, heartbeat, raw mailbox echo and test-only delays.
- Quiesce.RungBeforeThePop: a request popped before its doorbell may still leave A2B clear, if the doorbell is settled before the status read; `Quiesce.LeftExactly` is the exact condition.
- WorkerSteps.PassIsTheWorkers: speaks of passes over committed slots that leave the core on; `Doorbell` knows neither uncommitted slots nor CPU_OFF.
- `Service`: the observation lines it publishes on the way; how such a line is written and read is `Snapshot`.
- In `Sessions` each step of CPU3 touches the shared window once, and the bitmap and quota of `Service` and `Doorbell` are left open: any priority may be served next.
- The bench's clock, its first poll, sorting and printed text; its latencies are recorded, their values are not related to time.
- The bench's deadline: an input says how many rounds begin before it, and how many turns the grace period has.
- The Python agent, the user client, the mailbox0 adapter, shell scripts and performance figures.
