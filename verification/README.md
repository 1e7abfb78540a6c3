# Broadcast verification

The repository copies one input file to n outputs and reports the bytes delivered. It has four
mechanisms for it, chosen by the mode switch of `main.cpp`, an event-loop broadcaster for live clients,
and two small supporting pieces. This project models each of them in Dafny and proves them against
one specification: every output equals the input, and the count is n times its size
(`Spec.Broadcasted`). `dafny verify dfyconfig.toml` checks all of it.

## How the system is modelled

- **Files and pipes.** A file is a byte sequence with positioned reads and writes; a write behind the end
  leaves zeros. File and pipe 0 are the source side, number i + 1 belongs to output i, as `main.cpp`
  sets them up. A pipe is a bounded FIFO of bytes; `tee` copies without consuming.
- **io_uring.** `Kernel` holds chains of linked requests. A schedule is a list of choices: which chain
  moves next and whether its head request fails. Requests of one chain run in order, a failure cancels the
  rest of the chain, different chains interleave freely, every request yields one completion. `Exec` runs
  a schedule and skips impossible choices, so a statement about all schedules is one about all
  interleavings and all sets of failures. `Uring.Ring` adds the bounded submission queue, the cutting into
  chains, and waiting. Submit and wait run an arbitrary schedule; a wait that can never return is
  reported as a hang rather than assumed away. `Ran` says that a state is reached by running planned batches
  of chains one after the other; the results of modes 2, 3 and 4 say so of their end state. `Hung` says that the
  kernel is stuck in such a run: the results of modes 3 and 4 say so when they block. The state remembers which chains
  failed and how much of each was cut off, so that counts after failures are stated exactly.
- **Two switches of the environment.** `faulty` says whether requests may fail (all-or-nothing).
  `ordered` says that the fills of one pipe, and its drains, run in submission order. Nothing assumes it:
  `SpliceOrder` proves exactly when mode 3 needs it.
- **Mode 1** has no ring: the tasks of a round interleave system call by system call, and any set of calls fails.
- **The event loop** is a class with the loop's own state; the kernel's completions are a script of events,
  and the result is tied, for every script, to a view of the broadcast as its clients see it (`Play`).
- **The pipelined reader** takes the order of completions and the set of failing reads as parameters.

Loops and in-place updates of the source are methods and classes here; what they compute is tied to
functions and invariants about which the lemmas speak.

## What comes out

- Mode 3 delivers everything exactly when all chains fit into one batch (n times the number of 256 KiB
  chunks is at most 256) or n divides 256 (`Fits`). Otherwise the queue-full break skips outputs, and
  `Output` gives the exact file each output becomes. With the benchmark's three outputs a file of 22,282,240 bytes
  (21.25 MiB, 85 chunks) is still complete; the 86th chunk misses two outputs, and 86 chunks report 64 MiB instead of 64.5.
- After failures every mode reports an exact count, not just an incomplete one: mode 3 the chunks whose chains did not
  fail, mode 2 the windows of the jobs that did not fail, mode 4 the drains before each cut, mode 1 the whole copies less
  one for each broken copy, wrapped to `size_t`.
- Links do not order chains that share a pipe. The outputs of mode 3 are independent of that order exactly when no
  two chunks of a batch fit into a pipe together (`KeepsApart`); with the 1 MiB pipes of `main.cpp` that
  means n >= 256 or an input of a single chunk. In all other cases there is a run without any failure in
  which a chunk overtakes the one before it and lands in its place.
- Mode 4 needs n <= 512: with more outputs `io_uring_get_sqe` returns null in the middle of the chain and the
  source uses the entry anyway. Otherwise its count is a certificate of delivery.
- Mode 2 delivers under every schedule and completion order, and with failures it still frees every context once
  and counts exactly the bytes of the successful writes. Submitting in pieces makes no difference to the outputs.
- Mode 1 is race-free: every interleaving of a round ends like a sequential loop, whatever calls fail. No schedule
  in which each holder serves one node per round needs fewer rounds. Its count is a certificate too, even
  though a failed copy adds -1 to an unsigned sum, and every output is always a prefix of the input.
- The event loop keeps its clients in lockstep, but waits forever exactly when a chunk has been read and every
  client has had a write fail, or there was none (`HangsExactly`). Without failures every client gets exactly the chunks
  read, in whatever order the writes of a round complete (`FailureFree`).
- `sender_pipe.h` keeps the buffers of the reads in flight apart in every completion order exactly when the
  file has at most 16 KiB; for each longer file reading in order makes two reads share a buffer.

Where the source and its comments differ the code is followed: `broadcastSplice.hpp:9` says 512KB, the
constant is 256 KiB. `broadcaster.hpp` is written against an older `Request` with a shared buffer; the buffer
its names indicate is modelled, not the one of `Request.hpp`.

## Model

| member | source | states |
|---|---|---|
| Modes.RunMode | source/main.cpp:97-206 | The outcome of every command line. It is no mode below 1, a null entry iff mode 4 has n > 512 and a nonempty input, and blocks only in modes 3 and 4, stuck after a failure; otherwise it reports the exact count of an end state reached by the planned copies or chains, whatever failed. A supported mode (mode 3: the batch guard; mode 4: n <= 512 or an empty input) in which nothing failed returns n times the size and leaves n copies and empty pipes; that count is reported in no other case. Mode 3 without a failure, also outside its guard, reports the covered bytes and leaves the planned files where the bytes are exact. |
| SpliceBroadcast.PerformSpliceBroadcast | source/Network/broadcastSplice.hpp:47-120 | For every schedule and failure set: a run that returns is a kernel run of the planned batches and reports the bytes of exactly the chains that did not fail, so n * size iff the guard holds and nothing failed; without a failure it returns the covered bytes with empty pipes and holes for skipped chunks, and, with ordered pipes or chunks kept apart, every output is exactly the planned file. A run that blocks is stuck in a batch of the plan, after a failure. |
| SpliceBroadcast.SuccessExactly | source/Network/broadcastSplice.hpp:106-119 | The bytes of the chains that did not fail are at most the bytes queued, and equal to them iff none failed. |
| SpliceBroadcast.SpliceChunks | source/Network/broadcastSplice.hpp:59-116 | The chunk loop submits exactly the specified batches, each after the one before it has completed, and ends with everything settled and counted. |
| SpliceBroadcast.QueueChunk | source/Network/broadcastSplice.hpp:63-89 | The output loop queues min(n, free chains) whole pairs, never half a chain, and `expected_cqes` is the number of queued requests. |
| SpliceBroadcast.Reap | source/Network/broadcastSplice.hpp:95-115 | The reaping loop takes off exactly the completions of the batch, counts what they delivered, and can only hang after a failure. |
| SpliceBroadcast.Flush | source/Network/broadcastSplice.hpp:95-115 | A batch submitted from a settled state ends settled: no chain left, no completion left, empty pipes unless something failed, the count equal to the bytes of the chains so far that did not fail. |
| SpliceBroadcast.ExactOutput | source/Network/broadcastSplice.hpp:59-119 | Where the bytes are exact, output i is the planned file: the input's bytes in covered chunks, zeros in skipped ones, ending with the last covered chunk. |
| SpliceBroadcast.FilledApart | source/Network/broadcastSplice.hpp:63-95 | If the plan keeps chunks apart, no two chunks of any batch for one output fit into its pipe together. |
| SpliceBroadcast.HangMeansFailure | source/Network/broadcastSplice.hpp:99-104 | If completions are still expected and no request can move, a request has failed. |
| SpliceOrder.OrderFreeExactly | source/Network/broadcastSplice.hpp:63-97 | For all n, sizes and pipe capacities of at least a chunk: every failure-free run of the plan on every input leaves the planned outputs iff the plan keeps chunks apart in the pipes. |
| SpliceOrder.WithMainsPipes | source/main.cpp:140-168 | With 1 MiB pipes that is n >= 256 or an input of at most one chunk. |
| SpliceOrder.OvertakingRun | source/Network/broadcastSplice.hpp:66-86 | Whenever two chunks of a batch fit into a pipe together, for any input, some failure-free run of the whole plan puts the first byte of the later chunk where the earlier one belongs. |
| SpliceOrder.RanSettled | source/Network/broadcastSplice.hpp:59-116 | Every failure-free run of the plan ends each batch settled, with the bytes exact in pipe order or with chunks kept apart. |
| SpliceOrder.Finish | source/Network/broadcastSplice.hpp:99-114 | From every state of a failure-free run the kernel can bring all requests to their end. |
| SplicePlan.PositionExact | source/Network/broadcastSplice.hpp:63-95 | Before chunk c the queue holds (c mod ceil(256/n)) * n chains. |
| SplicePlan.QueuedCovered | source/Network/broadcastSplice.hpp:63-68 | Chunk c is queued for output i iff (c mod ceil(256/n)) * n + i < 256. |
| SplicePlan.JobsAreCovered | source/Network/broadcastSplice.hpp:59-89 | Every job queued is a chunk-aligned covered (chunk, output) pair. |
| SplicePlan.CoveredIsJob | source/Network/broadcastSplice.hpp:59-89 | Every covered (chunk, output) pair is queued, with the chunk's offset and length. |
| SplicePlan.PlanOk | source/Network/broadcastSplice.hpp:59-97 | Batches submitted and jobs waiting are together all jobs so far, in order, and as many wait as the position says. |
| SplicePlan.BytesQueued | source/Network/broadcastSplice.hpp:59-116 | The bytes queued are at most n copies, and n copies iff no chunk skips an output. |
| SplicePlan.QueuedIsCovered | source/Network/broadcastSplice.hpp:59-116 | The bytes queued are those of each chunk times the outputs that get it. |
| SplicePlan.FitsExactly | source/Network/broadcastSplice.hpp:63-95 | No chunk skips an output iff n * chunks <= 256 or n divides 256: a guard a caller can check. |
| SplicePlan.ApartExactly | source/Network/broadcastSplice.hpp:63-95 | The guard for chunks kept apart holds iff no chunk that follows another in its batch fits behind it. |
| SplicePlan.OutputIsInput | source/Network/broadcastSplice.hpp:67-68 | The planned file of an output is the input iff it gets the last chunk and every chunk it does not get is all zeros. |
| SplicePlan.FitsOutputs | source/Network/broadcastSplice.hpp:59-119 | Under the guard every planned file is the input. |
| SplicePlan.ThreeOutputs | source/benchmark.sh:7 | With the script's three outputs the guard holds iff the file has at most 22,282,240 bytes; the 86th chunk reaches the first output only, and a file of 86 chunks then reports 67,108,864 bytes. |
| SplicePipes.ExecSafe | source/Network/broadcastSplice.hpp:65-113 | Main invariant of mode 3 over every schedule and failure set: unless something failed, pipe bytes = filled and undrained chains, no byte outside a job's range, and, where the bytes are exact, FIFO content and delivered chunks; reported plus promised bytes are always those of the chains that did not fail. |
| SplicePipes.SucceedInv | source/Network/broadcastSplice.hpp:65-86 | Each single fill or drain keeps the pipe invariant. |
| SplicePipes.FillConserves | source/Network/broadcastSplice.hpp:66-74 | A fill, in any order, makes the pipe longer by exactly its chunk and never beyond its capacity. |
| SplicePipes.DrainConserves | source/Network/broadcastSplice.hpp:77-86 | A drain, in any order, takes exactly its chunk's length. |
| SplicePipes.DrainWrites | source/Network/broadcastSplice.hpp:81-83 | Whatever bytes a drain takes, it writes only inside its own chunk's range, and the file ends with a chunk. |
| SplicePipes.DrainDelivers | source/Network/broadcastSplice.hpp:77-86 | Where the bytes are exact, a drain delivers its own chunk and spoils none delivered before. |
| SplicePipes.Foremost | source/Network/broadcastSplice.hpp:70-83 | In pipe order, or with chunks kept apart, a fill that may run goes behind all chunks in its pipe and a drain that may run takes the front one. |
| SplicePipes.Crowded | source/Network/broadcastSplice.hpp:70-83 | Chunks that do not fit together are never in one pipe together, in any schedule. |
| SplicePipes.AheadFinished | source/Network/broadcastSplice.hpp:70-83 | In pipe order a chain that may run has overtaken no chain of its pipe. |
| SplicePipes.PipeDrains | source/Network/broadcastSplice.hpp:65-113 | A pipe with bytes in it always has a drain that can run with enough bytes: fills waiting for room cannot deadlock. |
| SplicePipes.Progress | source/Network/broadcastSplice.hpp:99-104 | While a chain is unfinished, some request can run. |
| SplicePipes.SubmitInv | source/Network/broadcastSplice.hpp:95-97 | Submitting a batch of pairs after a finished one keeps the invariant. |
| SplicePipes.Reaped | source/Network/broadcastSplice.hpp:99-114 | When all requests have completed, all pipes are empty. |
| TeeBroadcast.PerformTeeBroadcast | source/Network/broadcastTee.hpp:119-197 | For every schedule and failure set: a null entry iff n > 512 and the input is nonempty; a run that returns is a kernel run of one chain per chunk and reports, chunk by chunk, the drains before the point where its chain was cut, so n * size iff nothing failed, and then every output is the input and every pipe is empty. A run that blocks is stuck in one of these chains, after a failure. |
| TeeBroadcast.TeeChunk | source/Network/broadcastTee.hpp:133-193 | One chunk extends the delivered prefix of every output and leaves all pipes empty; once something failed the count stays below n times the prefix. |
| TeeBroadcast.QueueChain | source/Network/broadcastTee.hpp:138-172 | The code queues exactly the 2n-request chain and counts 2n submissions; an entry is always there iff n <= 512. |
| TeeBroadcast.CollectCqes | source/Network/broadcastTee.hpp:176-192 | The completion loop adds up the bytes delivered and sees every completion. |
| TeeBroadcast.SubmitAndWait | source/Network/broadcastTee.hpp:176 | The wait for 2n completions ends with the chain finished, or hangs after a failure only. |
| TeeBroadcast.NextOp | source/Network/broadcastTee.hpp:138-172 | Request p of the chain can run after its predecessors and keeps the state invariant: tee leaves the source pipe unchanged, each drain empties its pipe, the last one drains the source pipe. |
| TeeBroadcast.ExecLive | source/Network/broadcastTee.hpp:133-193 | The invariant of a chunk over every schedule and failure set, and one completion per request. |
| TeeBroadcast.FailAccount | source/Network/broadcastTee.hpp:182-189 | A failed request takes away the bytes of exactly the drains it cancels: reported plus promised bytes stay those of the drains before each cut. |
| TeeBroadcast.TeeChainData | source/Network/broadcastTee.hpp:143-171 | The user_data words of a chain promise exactly n times its chunk. |
| TeeBroadcast.DrainedData | source/Network/broadcastTee.hpp:143-171 | The first p requests of a chain promise one chunk per drain among them: (p - 1) / 2 of them, and n for the whole chain. |
| TeeBroadcast.TeeBytesExactly | source/Network/broadcastTee.hpp:180-191 | The drains before the cuts deliver at most n copies of the prefix, and n copies iff no chain was cut. |
| TeeBroadcast.HangMeansFailure | source/Network/broadcastTee.hpp:176 | A chain that cannot go on has had a failure. |
| VecBroadcast.PerformUringBroadcast | source/IOuring/uring_vec_broadcaster.hpp:92-137 | For every schedule, completion order and failure set: it returns, all contexts are freed, the outputs and failures are those of one kernel run of all chains, the total is the bytes of the jobs that did not fail, those jobs' windows are delivered, and the total is n * size iff nothing failed, in which case every output is the input. |
| VecBroadcast.SubmitReadVWriteV | source/IOuring/uring_vec_broadcaster.hpp:49-90 | Queues one read/write pair per window of the output, returns the file size, and leaves the ring empty. |
| VecBroadcast.QueueWindow | source/IOuring/uring_vec_broadcaster.hpp:57-86 | The queue always holds whole pairs, so the second entry is never null and no pair is split over two submissions. |
| VecBroadcast.NewContext | source/IOuring/uring_vec_broadcaster.hpp:22-40 | The constructor's blocks have 1 to 64K bytes each, add up to the window, and stay below the iovec limit. |
| VecBroadcast.ExpectedCompletions | source/IOuring/uring_vec_broadcaster.hpp:99-102 | ceil(size / 8M) * n is the number of contexts submitted. |
| VecBroadcast.AllBytes | source/IOuring/uring_vec_broadcaster.hpp:57-86 | The windows of all outputs add up to n * size. |
| VecBroadcast.WindowsJoin | source/IOuring/uring_vec_broadcaster.hpp:57-86 | An output that holds each of its first windows holds the prefix they partition. |
| VecBroadcast.NeverHangs | source/IOuring/uring_vec_broadcaster.hpp:112-116 | While completions are expected one is waiting or some request can run. |
| VecBroadcast.ReapOne | source/IOuring/uring_vec_broadcaster.hpp:118-132 | One completion frees at most its own context, once, and counts it iff it succeeded. |
| VecBroadcast.ReapAll | source/IOuring/uring_vec_broadcaster.hpp:109-133 | The loop ends with `completed` equal to the expected number and every job freed. |
| VecBroadcast.CreditsExact | source/IOuring/uring_vec_broadcaster.hpp:121-128 | The counted bytes are complete iff no job failed. |
| VecBroadcast.AllFreed | source/IOuring/uring_vec_broadcaster.hpp:112-131 | Counting is enough: the count reaches the total iff every job is freed. |
| VecOnce.ExecMirrors | source/IOuring/uring_vec_broadcaster.hpp:64-88 | For every schedule: a world in which only some jobs are submitted, and contexts of finished ones freed, evolves like one with all jobs submitted at once, under the schedule without the premature choices. |
| VecOnce.ExplainedSubmit | source/IOuring/uring_vec_broadcaster.hpp:66-88 | A submission in the middle of the loop does not change what the run is a run of. |
| VecOnce.ExplainedFree | source/IOuring/uring_vec_broadcaster.hpp:129-132 | Nor does freeing the context of a finished job. |
| VecJobs.ExecInv | source/IOuring/uring_vec_broadcaster.hpp:49-137 | Main invariant of mode 2 over every schedule and failure set: private live contexts, each holding exactly its window between read and write; finished jobs delivered; exactly one completion per finished, unfreed job. |
| VecJobs.ReadStep | source/IOuring/uring_vec_broadcaster.hpp:64-73 | A read puts exactly its window into the job's own context. |
| VecJobs.WriteDelivers | source/IOuring/uring_vec_broadcaster.hpp:75-83 | A write from the job's context delivers its window and spoils none delivered before. |
| VecJobs.FailStep | source/IOuring/uring_vec_broadcaster.hpp:118-131 | A failed read or write still posts the job's one context-carrying completion, with a negative result. |
| VecJobs.ExecOutcome | source/IOuring/uring_vec_broadcaster.hpp:112-133 | Whether a finished job failed never changes afterwards. |
| VecJobs.Outstanding | source/IOuring/uring_vec_broadcaster.hpp:112-116 | A job that is not freed can run or a completion is waiting. |
| VecJobs.SeenContext | source/IOuring/uring_vec_broadcaster.hpp:118-131 | The context of a completion is alive and not yet freed, carries the job's byte count, and freeing it keeps the invariant. |
| VecJobs.AllocateInv | source/IOuring/uring_vec_broadcaster.hpp:62 | A new context is distinct from all live ones and keeps the invariant. |
| TreeBroadcast.PerformReadvBroadcast | source/IOuring/readv_broadcaster.hpp:78-115 | For every interleaving and every set of failing calls: files and count are those of the copies made one after another; every output is a prefix of the input; the unsigned count is n * size, and the outputs are all the input, iff no call of the copies fails. |
| TreeBroadcast.ParallelRound | source/IOuring/readv_broadcaster.hpp:88-110 | A round ends, in every interleaving and for every set of failing calls, with the files of the sequential loop and reports the sum of what its copies return. |
| TreeBroadcast.RunTasks | source/IOuring/readv_broadcaster.hpp:90-110 | The interleaved tasks all stop and keep the round invariant. |
| TreeBroadcast.MakeTasks | source/IOuring/readv_broadcaster.hpp:91-98 | The iterations with a receiver are the first min(stride, nodes - stride), node i serving node i + stride. |
| TreeBroadcast.RoundStep | source/IOuring/readv_broadcaster.hpp:91-109 | Race freedom: whichever task moves, senders and untouched files are as before the round, every receiver is written by its own task only, and the size read at the start of a copy stays valid. |
| TreeBroadcast.TaskIsCopy | source/IOuring/readv_broadcaster.hpp:99-108 | A task that has stopped has left its output as, and returns what, a call of submit_read_write on its own does. |
| TreeBroadcast.RoundDone | source/IOuring/readv_broadcaster.hpp:91-109 | When all tasks have stopped, each receiver is its old content overwritten by what its own copy delivered, all else unchanged. |
| TreeBroadcast.RoundIsSequential | source/IOuring/readv_broadcaster.hpp:90-110 | That state is the one of running the copies one after another. |
| TreeBroadcast.ReportedExactly | source/IOuring/readv_broadcaster.hpp:90-107 | The reduction is count * size iff every copy delivered that much. |
| TreeBroadcast.RoundReportExactly | source/IOuring/readv_broadcaster.hpp:84-107 | A round reports the sizes of the whole copies, less one for every copy in which a call fails. |
| TreeBroadcast.SingleOutput | source/IOuring/readv_broadcaster.hpp:84-107 | With one output a failing call makes the reported count 2^64 - 1. |
| TreeBroadcast.RoundPrefixes | source/IOuring/readv_broadcaster.hpp:86-111 | Whatever fails, no node ever holds anything but a prefix of the input, and nodes from 2^r on are untouched before round r. |
| TreeBroadcast.RoundCovers | source/IOuring/readv_broadcaster.hpp:86-111 | The first min(2^(r+1), n+1) nodes hold the input after round r iff the first min(2^r, n+1) did before it and none of its calls fails. |
| TreeBroadcast.ReceivesOnce | source/IOuring/readv_broadcaster.hpp:86-98 | Each output is a receiver in exactly one of the rounds. |
| TreeBroadcast.RoundTransfer | source/IOuring/readv_broadcaster.hpp:91-107 | The nodes served before and in a round add up to those served before the next one. |
| TreeBroadcast.CeilLog2Least | source/IOuring/readv_broadcaster.hpp:82 | The number of rounds is the least R with 2^R >= n + 1. |
| TreeBroadcast.RoundsNeeded | source/IOuring/readv_broadcaster.hpp:80-111 | No schedule in which each holder serves at most one node per round reaches all nodes in fewer rounds. |
| TreeBroadcast.RoundDoubles | source/IOuring/readv_broadcaster.hpp:86-111 | In any such schedule one round at most doubles the holders. |
| TreeBroadcast.TasksServe | source/IOuring/readv_broadcaster.hpp:91-98 | The senders of the tree in round r are those of the parallel loop's tasks: node d is served by node d - 2^r. |
| TreeBroadcast.TreeIsSchedule | source/IOuring/readv_broadcaster.hpp:80-111 | The tree, with these senders, is such a schedule, with exactly that many rounds. |
| TreeBroadcast.Bounds | source/IOuring/readv_broadcaster.hpp:80-94 | For n <= 2^31 - 2 the node count, `1 << round` and `receiver_id` fit a 32-bit int. |
| TreeBroadcast.Wraps | source/IOuring/readv_broadcaster.hpp:84-107 | A sum short of the goal, even a negative one wrapped to size_t, never reads as the goal. |
| WindowedCopy.SubmitReadWrite | source/IOuring/readv_broadcaster.hpp:21-76 | For every set of failing calls: the windows before the first failing call are copied and no other, the size is returned iff no call fails and -1 otherwise, and the heap is as before on every path. |
| WindowedCopy.CopyExactly | source/IOuring/readv_broadcaster.hpp:53-67 | The size is returned iff none of the copy's 2 * ceil(size / 64M) calls fails, and iff all bytes are copied. |
| WindowedCopy.CopyWindow | source/IOuring/readv_broadcaster.hpp:35-73 | One window is copied in place iff neither of its calls fails, else nothing is; its buffers are freed either way. |
| WindowedCopy.AllocateWindow | source/IOuring/readv_broadcaster.hpp:37-50 | At most 1024 distinct fresh buffers, lengths 1 to 64K, adding up to the window. |
| WindowedCopy.FreeWindow | source/IOuring/readv_broadcaster.hpp:56-71 | Every buffer of the window is freed exactly once, nothing else. |
| WindowedCopy.ScatterGather | source/IOuring/readv_broadcaster.hpp:53-61 | Scattering into distinct buffers and gathering from them is the identity. |
| WindowedCopy.CopiedMore | source/IOuring/readv_broadcaster.hpp:33-74 | Copying the next window behind a copied prefix is copying the longer prefix. |
| EventLoop.Broadcast | source/Network/broadcaster.hpp:57-158 | For every script of completions: status, clients left, chunks read, chunks per client and writes in flight are those of the clients' view of the script; every client holds a prefix of the chunks read; one read or only writes are in flight; at end of input or read error nothing is in flight and the clients left have every chunk; created requests = freed + in flight. |
| EventLoop.HistoryIsTaken | source/Network/broadcaster.hpp:124-141 | The chunks passed on are, in order and whole, those the read delivered while it was in flight. |
| EventLoop.EndsExactly | source/Network/broadcaster.hpp:93-127 | It ends at end of input iff its read completed with 0 while in flight, and with an error iff its read failed. |
| EventLoop.NoSqeExactly | source/Network/broadcaster.hpp:41-48 | It runs out of entries iff a chunk has been read for more than 64 clients. |
| EventLoop.AgainChangesNothing | source/Network/broadcaster.hpp:95-99 | Leaving out the completions with EAGAIN changes nothing: the read is submitted again. |
| EventLoop.ReceivedIsSent | source/Network/broadcaster.hpp:148-155 | Every client, also one dropped later, has exactly the chunks whose writes to it succeeded. |
| EventLoop.FailureFree | source/Network/broadcaster.hpp:79-156 | For every list of chunks, every nonempty list of at most 64 clients and every order of the writes of each round: without failures every client has exactly these chunks, and the end of the input then ends the loop. |
| EventLoop.HangsExactly | source/Network/broadcaster.hpp:101-119 | The loop waits forever iff a chunk has been read and every client has had a write fail (or there is none). |
| EventLoop.NeverHangs | source/Network/broadcaster.hpp:101-119 | A script with fewer failures than clients never makes it wait forever. |
| EventLoop.AllFail | source/Network/broadcaster.hpp:101-147 | For every list of at most 64 clients, also the empty one: a chunk and then a failure of each write makes it wait forever. |
| EventLoop.Survivors | source/Network/broadcaster.hpp:101-119 | The clients left are exactly those none of whose writes failed. |
| EventLoop.NeverIdle | source/Network/broadcaster.hpp:79-156 | While a client is left a request is in flight; reads and writes are never in flight together; `writes_pending` is the number of writes in flight. |
| EventLoop.Served | source/Network/broadcaster.hpp:148-155 | After a write succeeds, the lockstep holds for the remaining writes; after the last one every client left has all chunks. |
| EventLoop.Dropped | source/Network/broadcaster.hpp:101-119 | The same after a write fails and its client is dropped. |
| EventLoop.FannedOut | source/Network/broadcaster.hpp:129-147 | After the fan-out every client lacks exactly the last chunk and has one write of it in flight. |
| EventLoop.WithoutDistinct | source/Network/broadcaster.hpp:105-111 | Removing a dead client keeps the remaining descriptors distinct. |
| EventLoop.Loop.Handle | source/Network/broadcaster.hpp:79-156 | One turn of the loop is one step of the clients' view and keeps lockstep and ownership, or ends with nothing in flight. |
| EventLoop.Loop.WriteDone | source/Network/broadcaster.hpp:148-155 | A write that succeeds serves exactly its client; the next read starts after the last write. |
| EventLoop.Loop.WriteFailed | source/Network/broadcaster.hpp:101-119 | A write that fails removes exactly its client; the next read starts after the last write if a client is left. |
| EventLoop.Loop.OnData | source/Network/broadcaster.hpp:124-147 | The chunk read joins the history and goes out to every client, if there are at most 64. |
| EventLoop.Loop.FanOut | source/Network/broadcaster.hpp:129-146 | Exactly one write per client, in order, all from one buffer. |
| EventLoop.Loop.StartRead | source/Network/broadcaster.hpp:68-75 | Starts the one read, when nothing is in flight and all clients are served. |
| RingBuffer.Buffer.Put | source/IOuring/RingBuffer.hpp:33-50 | Appends the item; a full buffer loses its oldest item. |
| RingBuffer.Buffer.HeadIsModulo | source/IOuring/RingBuffer.hpp:40-49 | In every valid state `head` is (`tail` + `size`) mod capacity. |
| RingBuffer.Buffer.Get | source/IOuring/RingBuffer.hpp:52-61 | Returns and removes the oldest item, or reports an empty buffer. |
| RingBuffer.Buffer.Peek | source/IOuring/RingBuffer.hpp:63-69 | Returns the oldest item, or reports an empty buffer, and changes nothing. |
| RingBuffer.Buffer.IsFull | source/IOuring/RingBuffer.hpp:23-26 | True iff the contents fill the capacity. |
| RingBuffer.Buffer.IsEmpty | source/IOuring/RingBuffer.hpp:28-31 | True iff there are no contents. |
| RingBuffer.Buffer.constructor | source/IOuring/RingBuffer.hpp:21 | A new buffer is valid and empty. |
| RingBuffer.PutRoom | source/IOuring/RingBuffer.hpp:35-49 | Writing slot `head` of a buffer with room appends to what is read around from `tail`. |
| RingBuffer.PutFull | source/IOuring/RingBuffer.hpp:35-49 | Writing it in a full buffer replaces the oldest item by the newest. |
| RingBuffer.EveryRun | source/IOuring/RingBuffer.hpp:33-61 | Over every run the items put are, in order, those gone and those still there: gets return them in put order at most once, the contents are the last `size` put, and puts = gets + overwritten + size. |
| RingBuffer.RunOfCalls | source/IOuring/RingBuffer.hpp:33-61 | In terms of the calls alone: what was put, that the last `size` of these are left, which items the gets hand out, and how many gets met a nonempty buffer and how many puts a full one. |
| RingBuffer.FirstInFirstOut | source/IOuring/RingBuffer.hpp:33-61 | With no overwriting, k gets after the puts hand out the first k items put and leave the others. |
| RingBuffer.PlayAll | source/IOuring/RingBuffer.hpp:21-61 | For every list of calls on a real buffer: the gets hand out, and the buffer keeps, exactly what the run of the specification says, which is what the calls alone determine (the last `size` items put). |
| SenderPipe.ReadFileRequest | source/Network/sender_pipe.h:52-151 | For every size, completion order and set of failing reads: it stops at the first failing completion, if there is one, with the bytes of exactly the blocks completed before it; otherwise after every block, with the bytes of the file. |
| SenderPipe.AfterAccounted | source/Network/sender_pipe.h:92-138 | Over every completion order, block offsets are submitted in order, each once, and bytes read plus bytes in flight are the part submitted; at the end that is the file. |
| SenderPipe.EveryChoice | source/Network/sender_pipe.h:119-138 | Every sequence of possible choices among the reads in flight is the completion order of a run that makes exactly them. |
| SenderPipe.AfterCompleted | source/Network/sender_pipe.h:119-138 | Over every completion order the blocks completed, by their offsets, and those in flight are together the blocks submitted, and the bytes read are those of the blocks completed. |
| SenderPipe.FillQueue | source/Network/sender_pipe.h:94-108 | The inner loop fills the free slots with the next blocks; the queue never runs out of entries, `idx` equals the reads in flight. |
| SenderPipe.OrderKeepsApart | source/Network/sender_pipe.h:94-135 | For each completion order: the reads in flight never share a buffer iff, as long as blocks are left, it is always the read in the highest buffer that completes. |
| SenderPipe.BuffersNeverShared | source/Network/sender_pipe.h:94-135 | No completion order makes two reads in flight share a buffer iff the file has at most 16384 bytes. |
| SenderPipe.FifoCollides | source/Network/sender_pipe.h:94-135 | For every longer file, when the first read completes first, the fourth and the fifth block (offsets 12288 and 16384) are both in flight in buffer 3. |
| Kernel.ExecAccounting | source/Network/broadcastTee.hpp:176-192 | Completions posted plus requests outstanding is constant: one completion per request, whatever fails. |
| Kernel.SucceedConserves | source/Network/broadcastSplice.hpp:106-113 | A completed request moves the bytes it promised into the completion queue. |
| Kernel.FailConserves | source/Network/broadcastSplice.hpp:106-113 | A failed chain loses exactly what it still promised. |
| Kernel.ExecGoesOn | source/Network/broadcastSplice.hpp:99-114 | Taking completions off the queue while the kernel runs does not change the run. |
| Kernel.HangsThere | source/Network/broadcastSplice.hpp:99-104 | A stuck state reached from the batches before it is a hang of the whole plan. |
| Uring.SplitAppend | source/Network/broadcastSplice.hpp:65-88 | Requests queued behind a closed chain leave the chains formed so far as they are. |
| Uring.SplitChain | source/Network/broadcastTee.hpp:138-172 | Requests linked up to the last one form one chain. |
| Uring.Ring.GetSqe | source/Network/broadcastSplice.hpp:66-68 | Null exactly when the queue is full; otherwise the entry is queued last. |
| Uring.Ring.WaitNr | source/Network/broadcastSplice.hpp:101-104 | After an arbitrary run of the kernel the completions are there, or nothing can move any more. |
| Files.PwriteOwn | source/Network/broadcastSplice.hpp:81-83 | Copying a range to its own place delivers it, keeps every range delivered before, and never outgrows the input. |
| Files.GatherScatter | source/IOuring/uring_vec_broadcaster.hpp:71-82 | Reading into iovecs and writing from them is the identity. |

## Left out

- Short transfers: a request transfers all its bytes or fails.
- `io_uring_submit` accepting part of the queue, failing waits, completion-queue overflow, a failing `io_uring_queue_init`: assumed not to happen.
- A failing `posix_memalign`: assumed not to happen; in `submit_read_write` the buffers of the window would leak.
- The errno values of failures: a completion is a success in full, an I/O error or a cancellation.
- Unreadable files and a size of -1; descriptors that alias each other; n = 0 in mode 4, where `size() - 1` wraps.
- Pipes smaller than a chunk: a splice of a whole chunk into one would be a short transfer.
- EAGAIN on a write in the event loop, which the source resubmits as a read.
- The kernel's own steps between submission calls: they run at submit and wait, where the program can observe them.
- `io_uring_get_sqe` and the prep calls that fill the entry are one operation, since no one can see the entry in between.
- Uring.Ring.WaitNr: a completion is awaited as long as some request can run; that the kernel actually runs it is assumed.
- Modes.RunMode: totals below 2^64 are assumed, and only mode 1's count is wrapped explicitly; in modes 2 to 4 it never exceeds n times the size.
- WindowedCopy.SubmitReadWrite: `start_offset` is 0, the only value the broadcasts pass.
- TreeBroadcast.CeilLog2Least: rounding of the floating-point `log2` is not modelled; the integer ceiling is used.
- TreeBroadcast.RunTasks: one system call is one atomic step, and any number of tasks may interleave, which includes the four threads of the source.
- EventLoop.Broadcast: a write transfers its whole chunk, and clients have distinct descriptors.
- SenderPipe.ReadFileRequest: it counts bytes only; the buffers' contents are never used by the source.
- `pack_data` and its decode in `process_cqes`, `prepare_splice`, `prepare_tee`: no broadcast calls them, and the round trip of disjoint bit fields is easy.
- Commented-out code, the MPI broadcast, `IO_Handle`, `Server.h`, printing, timing, FIFO and directory creation.
