# gomc-rest, modelled and proved in Dafny

gomc-rest puts a REST interface in front of a Mitsubishi PLC. HTTP handlers turn JSON
requests into calls of the MC protocol; one bounded queue with one worker runs them, one at
a time, on one connection that is opened on demand. This project models that path from the
decoded request to the device memory and back, and proves what the gateway promises.

`dafny verify dfyconfig.toml` checks everything.

## How it is modelled

| module | what it models |
|---|---|
| `Words` | bit updates, packing, wrap-around and sign extension of machine words |
| `Wire` | device memory, the calls of `plcConnection`, their replies, how a call can fail |
| `Programs` | the list of calls each queued operation makes, and what running it does |
| `Effects` | which bits a program sets, and that a run leaves exactly what its instructions set |
| `Operations` | the bodies in queue.go as the loops they are, proved to run exactly their programs |
| `Client` | `PLCClient` as a class, and the ledger of its connections |
| `WorkQueue` | the queue protocol as a step machine: callers, worker, shutdown, metric readers |
| `Gateway` | queue, executing job, connection mutex and `Close` composed, one wire call a step |
| `Updates` | what the jobs have performed, and that no update is lost |
| `Addresses` | the device tables, the prefix table and `parseAddr` |
| `ReadWrite` | `/read` and `/write`: which call, and the number conversions |
| `Requests` | what `/read` and `/write` mean on the device memory, and which requests are accepted |
| `RandomAccess` | `/random-read` and `/random-write`: planning, splitting, reassembly |
| `EndToEnd` | read-your-writes across the whole gateway |
| `Latency` | the metrics ring buffer |

The queue is concurrent, so it is a step machine: every lock acquisition, flag read, channel
operation and `select` choice is a step of its own, a `select` with several ready cases may
take any of them, and `default` is taken only when no case is ready. The read-write lock is
the rule that a writer excludes everyone and readers exclude writers; Go's preference for
waiting writers only removes interleavings. The connection client, the operation bodies, the
planning loops and the ring buffer are sequential and are written as classes and methods.

The network's choices are a script of faults read one per dial or call: `Fine`, `Refused`
(an error answer), `Lost` (a connection error); past the end of the script every step is
fine. Theorems are for every script. Where one speaks of a run that ends well, it also says
that the run does end well when the script is empty.

Assumptions: the PLC library returns slices of the requested length; a failed call leaves
the device memory as it was; a random write applies its lists in order; a double word has
its low half in the lower register; word devices and bit devices do not alias; nothing but
the gateway writes the memory; a context that has ended stays ended; the queue has room for
at least one job (config.go:139 rejects anything less); `Shutdown` and `Close` are called only
after the initial connect has returned, as in main.go. Remote commands leave the modelled
memory alone.

## Main results

- **No orphaned job.** Once the worker has stopped, the buffer is empty for ever and every
  accepted job has been finished exactly once, in order of acceptance. The proof rests on the
  lock: nobody is choosing while `closed` is set.
- **Shutdown ends.** After the close every worker step decreases a measure that no other step
  increases and that is at most twice the buffered jobs plus nine; the worker is never stuck,
  and an executing job shortens a measure read off its program.
- **Serial effects.** With each wire call a step of its own, in every reachable state the whole
  link is what the jobs leave when performed one by one in acceptance order, plus the calls so
  far of at most one operation in progress; callers get the answers of that order, and the order
  respects real time.
- **No lost updates.** In every reachable state, for any mix of jobs, any interleaving and any
  failures, every bit of every register and every bit device holds what the last performed
  instruction that sets it gave it; a job that answered success has performed all of its
  instructions, any other a first part of them.
- **Ledger.** In every reachable state opens minus closes is one or zero, no connection is
  used or closed when it is not open, and memory is what the acknowledged calls made it.
- **Grouped equals naive**, with the exact state after a failure in any group; random reads
  and writes agree with touching every entry by itself, writes also up to the point of a failure.
- **Meaning of requests.** Every accepted read returns what the memory shows at the address, every
  accepted write makes it show the written values and touches nothing else; which requests are
  accepted is stated in full. A random read returns what plain reads of its entries return, a random
  write does what plain writes of its entries do, one after the other.
- **Round trips.** For every accepted write, reading back returns the values; for every accepted
  read, writing the values back changes nothing; lists and K notation round-trip exactly for the
  values that fit.
- **Addresses.** `parseAddr` is the same function for every table the random map order and the
  unstable sort can produce; it accepts exactly the spellings of well-formed addresses, each as the
  address it spells, and knows exactly the documented devices.
- **Honest answers.** A job whose context ended before it started never starts; whoever is told
  busy was choosing at a full queue with a live context; a call leaves the client disconnected
  exactly when it answers a connection error, and says how its last call on the wire ended.
- **Clean shutdown is final**: once Shutdown has returned nil, whatever steps between, during and
  after the steps of Close, the link changes by that close alone and no job starts.
- **The metrics add up** in every interleaving, those of the PLC up to the call in progress.

Two observations on the source. `connect` overwrites an open connection without closing it
(plc.go:79), so the ledger stays balanced exactly when nothing is open or the dial fails:
`Client.ConnectConsistent`. main.go calls it before anything else can have connected, so it
does not happen there. And README.md:267 says that only word devices support `sint=true`,
while the code accepts it with K notation on bit devices (handler.go:413-433), as
README.md:323 says; the model follows the code. Addresses may carry a sign, as `Atoi` and
`ParseInt` allow: `D+5` is `D5`.

## Model

| member | source | states |
|---|---|---|
| WorkQueue.InitInv | queue.go:40-48 | a new queue, of any capacity from one, satisfies the protocol invariant |
| WorkQueue.StopFlags | queue.go:91-97 | setting `closed` and closing `done` under the write lock keeps the flags consistent: nobody is choosing to enqueue, so no caller that saw the queue open can enqueue after the close |
| WorkQueue.WorkerOrder | queue.go:107-134 | dequeuing, rejecting and finishing keep accepted = finished, then in hand, then buffered |
| WorkQueue.WorkerOutcomes | queue.go:136-151 | every worker step keeps each delivered result its own job's, a context error only for an ended context, and leaves results undelivered only for ended contexts |
| WorkQueue.CallerHonest | queue.go:50-83 | whatever a caller returns is justified afterwards: busy means not accepted, a context error means its context ended, closed means rejected, a value means its own job finished with it |
| WorkQueue.BusyMeansFull | queue.go:66-74 | in every run, whoever leaves as busy was at its select with a live context at a moment when the queue was full |
| WorkQueue.EndedNeverStarts | queue.go:136-144 | in every run, a job whose context ends before it has started never starts |
| WorkQueue.EndedNeverAccepted | queue.go:50-53 | a call whose context has ended before it tests it leaves with the context's error and its job is never accepted |
| WorkQueue.ClosedAcceptsNothing | queue.go:54-58 | no run of a closed queue accepts a job |
| WorkQueue.SelectsAreFree | queue.go:66-82 | a select with several ready cases may take any of them, and never `default` |
| WorkQueue.CallerCanMove | queue.go:50-82 | a call outside its wait always has a step, once it can have the lock |
| WorkQueue.ShutdownAnswers | queue.go:91-105 | in every run Shutdown answers nil only with the worker stopped and an error only with its context ended, and one call runs the body while the others wait for it |
| WorkQueue.StopCanMove | queue.go:91-105 | a Shutdown call that has not answered is never stuck, but for readers of the lock and the worker |
| WorkQueue.StepKeeps | queue.go:50-151 | every step of every caller, worker, shutdown and reader keeps the invariant |
| WorkQueue.RunKeeps | queue.go:50-151 | so does every run |
| WorkQueue.NoOrphanedJob | queue.go:107-134 | in every run, once the worker has stopped the buffer is empty and the finished jobs are the accepted ones, each once, in order |
| WorkQueue.StoppedForGood | queue.go:54-75 | after that no run accepts, starts or finishes anything more and the buffer stays empty |
| WorkQueue.StartedInOrder | queue.go:107-144 | jobs start in acceptance order, each at most once |
| WorkQueue.FinishedOnce | queue.go:146-151 | no job is finished twice |
| WorkQueue.FinishNeverBlocks | queue.go:146-151 | the result channel of the job being finished is empty, so the send is always ready |
| WorkQueue.CallerGetsItsOwn | queue.go:77-82 | a caller whose context never ends leaves with its own job's outcome, or with a rejection of a job that was not started |
| WorkQueue.ResultIsThere | queue.go:77-82 | a waiting caller with a live context whose job is finished, or whose worker has stopped, can receive its result |
| WorkQueue.RejectedForGood | queue.go:54-75 | a call that has left as busy or closed, metered or not, never has its job executed in any continuation |
| WorkQueue.LeftForGood | queue.go:77-82 | a call that has returned keeps its result |
| WorkQueue.OneLateStart | queue.go:114-120 | after `closed` is set no job starts but possibly one, the one the worker had in hand at that moment |
| WorkQueue.RemainingStep | queue.go:107-134 | after the close each worker step decreases the measure and no other step increases it |
| WorkQueue.WorkerStepsBounded | queue.go:107-134 | in every run from a closed queue the worker takes at most 2 * buffered + 9 steps |
| WorkQueue.WorkerCanMove | queue.go:107-151 | once Shutdown released the lock the worker can step unless it executes a job or has stopped |
| WorkQueue.RequestsConserved | queue.go:165-179 | client requests = busy + recorded + in flight |
| WorkQueue.MetersAlwaysHold | queue.go:165-179 | in every interleaving the client counters count exactly the calls in each stage |
| WorkQueue.ClampNeverFires | queue.go:573-579 | because busy is loaded before requests, the difference is never negative |
| Gateway.ExecStepCompletes | plc.go:126-204 | every single step of a job keeps the outcome of the undivided operation |
| Gateway.ExecStepShortens | plc.go:126-204 | a job returns within a bound read off its program |
| Gateway.ExecutingMoves | plc.go:126-167 | an executing job can always step, or waits for a Close that can |
| Gateway.StepKeeps | queue.go:107-144 | every step of the composed gateway keeps the link equal to the sections performed so far, whole and in order |
| Gateway.SerialEffects | queue.go:107-144 | in every reachable state, outside a section the link is that of the sections performed one after the other; inside one the record goes on from there and stays within what the operation will have done; memory is what the acknowledged calls made it; jobs are in acceptance order |
| Gateway.AnswersAreSerial | queue.go:50-83 | an executed call returns the answer its operation has at its place in that order |
| Gateway.RealTimeOrder | queue.go:50-83 | a call that has its answer precedes every call that is not made yet |
| Gateway.SectionUndisturbed | plc.go:126-158 | while a job is between two wire calls no other step touches the connection, the memory or the job |
| Updates.NoLostUpdate | queue.go:107-144 | in every reachable state each bit of each register and each bit device is as the last performed instruction that sets it left it, over the sections in order and the job in progress |
| Updates.BitWritesKept | queue.go:296-313 | for one register and any jobs that leave it alone or write its bits last, each bit holds what the last entry naming it says; a success has written all its entries, a failure those of its first registers |
| Updates.RandomWriteWritesBits | queue.go:501-524 | a random write whose words and double words avoid a register writes exactly its word bits to it |
| Updates.SparingWritesNoBits | queue.go:200-238 | a job that leaves a register alone, such as a read, writes none of its bits |
| Updates.ExecStepMid | plc.go:140-143 | between two wire calls a job has performed exactly a first part of its program |
| Effects.CallStores | plc.go:13-27 | a call leaves each register and bit device as it stored it or as it was |
| Effects.ProgramLeaves | plc.go:140-143 | whatever fails, a run has performed its first instructions and nothing else, all of them if and only if it ends well |
| Effects.LeavesOne | plc.go:140-143 | the memory left is determined bit by bit by the instructions performed |
| Effects.GroupsSet | queue.go:546-563 | the first groups set exactly the bits their entries name, each to the last entry's value |
| Gateway.LedgerBalanced | plc.go:70-204 | in every reachable state the ledger is balanced and the memory is explained by the acknowledged calls |
| Gateway.PlcCounters | plc.go:126-204 | in every reachable state requests + failed reconnects are the calls so far, plus at most the one in progress; outside a section every request is timed, every dial but the first is a reconnect, and errors = answers that are errors |
| Gateway.CloseAfterShutdown | main.go:115-118 | after Shutdown returned nil, Close can run to its end and leaves no connection |
| Gateway.OnlyCloseIsLeft | main.go:115-118 | once the worker has stopped, in every continuation the link changes by Close alone and no job starts |
| Gateway.CleanShutdown | main.go:115-118 | in every run in which Shutdown returned nil, every continuation in which Close closes, whatever steps between, ends without a connection and without another job started |
| Gateway.ShutdownIsFinal | main.go:115-118 | from then on no dial, call, job or memory change happens in any continuation |
| Client.PlcClient.ConnectNow | plc.go:70-81 | the new state of the whole link after one dial |
| Client.PlcClient.Reconnect | plc.go:83-86 | the same, with the attempt counted whether or not it succeeds |
| Client.PlcClient.Do | plc.go:126-158 | state and answer are those of `Perform`, for every program and every fault script |
| Client.PlcClient.DoReset | plc.go:171-204 | the same for a reset: the connection never survives |
| Client.PlcClient.CloseNow | plc.go:160-167 | closes the connection if there is one |
| Client.PlcClient.InitialConnect | plc.go:103-111 | one dial, its failure ignored |
| Client.PlcClient.RunOn | plc.go:140-143 | running the operation's calls in order stops at the first failure and returns the replies |
| Client.ConnectConsistent | plc.go:70-81 | connecting keeps the ledger balanced if and only if nothing is open or the dial fails |
| Client.PerformConsistent | plc.go:103-204 | every operation keeps the ledger balanced and the memory explained, an initial connect if and only if it has nothing to overwrite or fails |
| Client.RunsConsistent | main.go:53-55 | so does every sequence of operations that starts with the initial connect |
| Client.LedgerCounts | plc.go:70-204 | opens minus closes is one with a connection and zero without |
| Client.ClosedForGood | plc.go:149-167 | a closed connection is never used, closed or opened again |
| Client.ConnectionAfter | plc.go:145-192 | a call leaves the client disconnected if and only if it answers a connection error, otherwise an open connection stays the same one; a reset or close leaves none |
| Client.DialedOnDemand | plc.go:130-138 | a reconnect is counted if and only if a call finds no connection; when its dial fails nothing is sent and the answer is that failure |
| Client.ResetSends | plc.go:185-203 | a reset sends the one reset command and closes, and answers how the command ended |
| Client.AnswerTells | plc.go:140-157 | an answer says how the last call on the wire ended: success, a PLC error, or a lost connection, which alone closes it |
| Client.PerformCounts | plc.go:126-204 | an operation is admitted or stopped by a failed dial, and a dial and an error are counted exactly once |
| Client.RequestsAddUp | plc.go:130-143 | over all sequences, calls = requests + failed reconnects, and every dial but the first is a reconnect |
| Client.ErrorsAddUp | plc.go:149-203 | over all sequences, the error counter is the number of failed answers |
| Operations.Network.Send | plc.go:13-27 | one call: its reply, its effect if it succeeds, nothing if it fails |
| Operations.ReadWordBits | queue.go:270-294 | one register read, and exactly the bits asked for |
| Operations.WriteWordBits | queue.go:296-319 | the loop over the bits is one read-modify-write of the register, stopping at a failure |
| Operations.ReadBitsAsWord | queue.go:324-351 | the packed integer is the one whose bits are the devices, least significant first |
| Operations.WriteBitsAsWord | queue.go:355-373 | the devices get the low bits of the value, in order |
| Operations.GroupByRegister | queue.go:537-545 | registers in order of first mention, each with its own entries in request order |
| Operations.WriteGroupedWordBits | queue.go:546-563 | one read and one write per register, under any failures |
| Operations.RandomReadOn | queue.go:453-490 | the optional mixed read, then one read per bit device, under any failures |
| Operations.RandomWriteOn | queue.go:501-528 | words and double words, then bit devices, then grouped word bits, skipping empty phases, under any failures |
| Programs.GroupedEqualsNaive | queue.go:532-563 | without failures the memory equals that of one read-modify-write per entry, with exactly one read and one write per register |
| Programs.GroupedAnyFaults | queue.go:546-563 | whatever fails, exactly the entries of the first registers are applied; it ends well if and only if that is all of them |
| Programs.FailureInGroup | queue.go:546-563 | a failure in group j leaves the groups before it applied and the later ones untouched |
| Programs.BitsAppliedMeaning | queue.go:532-563 | every bit of every register ends as its last entry says and is unchanged without one |
| Programs.MentionedInOrder | queue.go:538-545 | the registers written are exactly those an entry names, in the order in which entries name them first |
| Programs.StopsAtFailure | queue.go:546-560 | calls are made one after the other until one fails, none after it, and the outcome is that of the last |
| Programs.RandomReadCalls | queue.go:466-479 | one call for words and double words, one for each bit device |
| Programs.RandomWriteCalls | queue.go:512-522 | one call for words and double words, one for bit devices, two for each register with word bits |
| Programs.GroupsEqualEntries | queue.go:537-557 | folding a register's entries at once equals applying all entries in request order |
| Programs.RangeIsGrouped | queue.go:296-315 | a range write is the grouped write of the corresponding entries |
| Programs.EditsMeaning | queue.go:306-312 | inside the range each bit is the written value, outside it is unchanged |
| Programs.RandomWriteAnyFaults | queue.go:501-524 | the phases compose: words, double words, bit devices, word bits; those before a failure have their full effect, those after it none |
| Programs.RandomReadRun | queue.go:453-489 | every register, double register and bit as it stands, in order |
| Programs.FineIsFaultless | plc.go:142-147 | a run that ends well is the run on a network that does not fail |
| Addresses.BuildTable | device.go:36-47 | whatever order the map yields and however ties are sorted, the table holds exactly the multi-character devices, longest first |
| Addresses.SortByLength | device.go:43-45 | any sort by length alone keeps the elements and orders lengths |
| Addresses.DeviceOfIsLongest | device.go:83-93 | the device is at least as long as any table prefix of the input |
| Addresses.FirstMatchIsDevice | device.go:83-89 | the first match in any such table is that device |
| Addresses.SplitDevice | device.go:80-93 | so the scan splits the same way for every table |
| Addresses.ParseAddr | device.go:60-147 | the parser returns the same result for every table, on every string |
| Addresses.SplitNumbers | device.go:102-144 | the number and the bit suffix, with every rejection |
| Addresses.AcceptedIsWellFormed | device.go:124-129 | every accepted text is well formed: range, bit only on word devices, nibbles only on bit devices, never both |
| Addresses.PrintThenParse | device.go:60-147 | parsing the canonical text of any well-formed address gives it back |
| Addresses.AcceptsExactly | device.go:60-147 | the parser accepts exactly the texts that spell a well-formed address, with or without a sign, each as that address |
| Addresses.DocumentedDevices | device.go:13-32 | the devices of README.md:282-289 and no others: which have hexadecimal and which decimal numbers, which have bits and which nibbles |
| Addresses.DeviceOfPrinted | device.go:83-97 | hex digits that look like device letters never extend the device name |
| Words.PutBitBits | queue.go:306-312 | setting or clearing a bit changes that bit alone |
| Words.PackSnoc | queue.go:336-341 | or-ing a bit above those packed so far extends the packing |
| Words.PackOfUnpack | queue.go:358-363 | unpacking and packing keeps the low bits |
| Words.UnpackOfPack | queue.go:336-363 | packing and unpacking gives the devices back |
| Words.FitsIffShownBack | handler.go:62-68 | a value fits if and only if narrowing and showing it loses nothing |
| Words.ShownFits | handler.go:55-60 | whatever is shown fits, and narrows to the same bits |
| ReadWrite.EncodeDwords | handler.go:674-692 | all values are encoded, low half first, or the list is rejected if any is out of range |
| ReadWrite.EncodeWords | handler.go:711-718 | the same for words |
| ReadWrite.DecodeDwords | handler.go:473-483 | pairs of registers are combined and shown |
| ReadWrite.DecodeWords | handler.go:486-493 | registers are shown |
| ReadWrite.WordsRoundTrip | handler.go:486-493 | a word list survives the trip if and only if all its values fit |
| ReadWrite.DwordsRoundTrip | handler.go:674-692 | so does a double-word list |
| ReadWrite.HandleReply | handler.go:412-503 | the response built from a reply of the requested length, for every shape |
| ReadWrite.HandleWrite | handler.go:546-760 | the handler's branches and loops produce exactly the planned program or reject |
| ReadWrite.WriteIsOneInstruction | handler.go:659-760 | an accepted write is a single call of at most 1024 items, or one read-modify-write below bit 16 |
| ReadWrite.ListAcceptedIff | handler.go:659-741 | a list for a word device is accepted if and only if its length is within the limit and every value would come back as it is |
| ReadWrite.ReadWithinLimits | handler.go:384-468 | an accepted read asks for 1 to 1024 items, stays within one register for bits, and its reply can be shown |
| ReadWrite.PackedRoundTrip | handler.go:578-585 | a value comes back from 4n bit devices if and only if it fits them |
| ReadWrite.PackedReadFits | handler.go:422-431 | any state of the devices reads as a value that fits and unpacks to the same state |
| ReadWrite.PackedWriteBack | queue.go:324-373 | writing back what was read changes no device |
| ReadWrite.BitRangeWriteThenRead | queue.go:270-315 | a written bit range reads back; other bits, registers and devices are unchanged |
| ReadWrite.WriteThenRead | handler.go:358-764 | for every accepted write that ends well, the same read is accepted and returns the written values |
| ReadWrite.ReadThenWriteBack | handler.go:358-764 | for every accepted read, writing its values back is accepted and leaves the memory as it is, whatever fails |
| Requests.ReadAcceptedIff | handler.go:384-460 | exactly which reads are accepted |
| Requests.WriteAcceptedIff | handler.go:547-755 | exactly which writes are accepted |
| Requests.ReadShows | handler.go:412-503 | an accepted read returns as many values as asked for, each the number or boolean that stands in its devices |
| Requests.WriteShows | handler.go:546-760 | after an accepted write that ends well the memory shows the written values at the address |
| Requests.WriteTouches | handler.go:546-760 | an accepted write sets exactly the bits and devices its values go to |
| Requests.WriteSparesOthers | handler.go:546-760 | whatever fails, every other bit and device is left as it was |
| RandomAccess.ParseEach | handler.go:934-949 | the parsed list, or a rejection if any element is not accepted |
| RandomAccess.SplitBits | handler.go:960-988 | word bits folded and bit devices set aside, each entry located; accepted if and only if all parse and at most 16 are bit devices |
| RandomAccess.SourceKinds | handler.go:963-987 | a bit entry is a bit below 16 of a word device or a bit device |
| RandomAccess.PlanRandomRead | handler.go:910-996 | accepted exactly for valid requests, with at most 255 combined addresses and every index in range |
| RandomAccess.Assemble | handler.go:1002-1017 | each answer is picked from its place in the three lists |
| RandomAccess.RandomRead | handler.go:885-1018 | the values returned are, entry by entry in request order, those that /read returns for each word, double word and bit alone; a failed call is reported |
| RandomAccess.ReadAcceptedIff | handler.go:910-996 | a random read is accepted if and only if it is within the limits and /read accepts each entry by itself as one word, double word or boolean |
| RandomAccess.WordIsRead | handler.go:918-933 | an entry of words or dwords is accepted exactly when /read accepts it as a double word, and stands for what /read returns |
| RandomAccess.BitIsRead | handler.go:963-987 | an entry of bits is accepted exactly when /read answers it with one boolean, and stands for that boolean |
| RandomAccess.SplitBitWrites | handler.go:1118-1143 | bit entries are split in two lists, or rejected |
| RandomAccess.SplitEqualsEach | handler.go:1118-1143 | writing the two lists one after the other equals writing every entry in request order |
| RandomAccess.PlanRandomWrite | handler.go:1072-1144 | the program of a valid request, rejection of any other |
| RandomAccess.RandomWriteIsPointwise | handler.go:1080-1144 | a valid request does what plain writes of its entries do, one after the other: words, double words, bits in request order; after a failure, those of the phases and registers done |
| RandomAccess.WriteAcceptedIff | handler.go:1072-1143 | a random write is accepted if and only if it is within the limits and its entries are addresses the plain endpoints accept |
| RandomAccess.BitIsWritten | handler.go:1118-1143 | a bit entry is accepted exactly when /write accepts it with its boolean, and does what that write does |
| EndToEnd.ViewDecides | handler.go:358-505 | what a read returns depends on nothing but the bits it sees |
| EndToEnd.ReadYourWrites | handler.go:358-764 | in every run of the gateway, a successful read of what a successful write wrote answers exactly the written values, if nothing between them sets a bit the read sees |
| Latency.Rotated | metrics.go:24-31 | a full ring is the recent history rotated at the write position |
| Latency.ArrayOrderSum | metrics.go:63-70 | summing slots in array order is summing the last 100 values |
| Latency.RecordKeeps | metrics.go:27-29 | one write keeps the other recent values and drops the oldest |
| Latency.LatencyMetrics.AddTotal | metrics.go:25 | the total grows by the value, before and outside the lock |
| Latency.LatencyMetrics.WriteRing | metrics.go:26-30 | position, count and ring stand for the history with the value added, whatever other recorders have added to the total meanwhile |
| Latency.LatencyMetrics.RecordLatency | metrics.go:24-31 | the two steps together record the value |
| Latency.LatencyMetrics.TotalWhenQuiet | metrics.go:24-31 | whenever no recorder is between its two steps the total is the sum of the full history |
| Latency.SumOfSame | metrics.go:25-29 | the order in which recorders reach the ring does not matter to the total |
| Latency.LatencyMetrics.RecentSum | metrics.go:54-71 | sum and count are those of the last 100 values, or of all when fewer |

## Left out

- The MC protocol library, sockets, dialing, frames and timeouts: calls are steps on an abstract memory that may fail.
- HTTP methods, query and JSON decoding, body limits, status codes and error texts, `/info`, `/version`, `/metrics` formatting, `/health` and its locked read of the connection state.
- Authentication, configuration parsing, logging, `buildLogQuery` and `capLogQuery`: output or single-branch checks.
- Upper-casing, trimming and Unicode in addresses: `Addresses` starts from ASCII text that has been trimmed and upper-cased. Integers are those of a 64-bit build.
- Rounding of the averages and wall-clock time: exact sums and counts, latencies are any non-negative integers. Counters do not overflow.
- The timeout counter of `exec`, and whether a context ended by deadline or by cancellation.
- Panics inside a job.
- The memory effects of the remote commands on the PLC: they are calls that may fail and touch no modelled device.
- Scheduler fairness: termination is a measure and the absence of stuck states, not a time.
- WorkQueue.StepKeeps: `WorkQueue` is a step machine on values, not a class, because its fields are shared by concurrent goroutines; channels are sequences and maps.
- Client.PlcClient.Do: the function passed in is a program of calls whose only data flow is the edit of one register, which covers every operation of queue.go.
- Not claimed, because the code does not promise it: a call that returned a context error may still have its job executed; a job that was past the closed check may start just after the close; a result may be dropped when its context has ended; after a `Shutdown` that timed out a running job may reconnect after `Close`.
