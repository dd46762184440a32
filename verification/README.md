# Verification of the blue server library

This project models the stateful core of the library and proves what it is for. Five parts are covered:

- **The paged byte buffer and its wire formats** (`Paging`, `PagedBuffer`, `FlatBuffer`, `WireCodec`, `BufferCodec`,
  `Streams`, `BufferEdges`). A linked list of pages with a cursor split over a node pointer and a position behaves as a
  flat byte sequence with a cursor over every run of calls; mixed lists of integers, varints, zigzag integers and
  strings come back as they were written; fixed-size transfers over partial sends and receives move every byte once.
- **Events, timers and fibers** (`EventTable`, `EventHistory`, `EventLoop`, `Timers`, `PollerWake`, `Reactor`,
  `Dispatching`, `Shutdown`, `Discarding`, `Resumption`, `DispatchLoop`, `HookWait`). Registrations, the kernel's interest set and the
  pending count agree after every step of every interleaving; each registration resumes its fiber once or is dropped; the
  timer set stays sorted although the keys live in the timers; the poller misses no wake-up; shutdown is final, and
  workers exit with no work outstanding, exactly when no worker has a task in hand; a blocked call times out only when
  its time is up.
- **URLs and queries** (`Search`, `UrlParser`, `UrlPrinting`, `UrlRoundTrip`, `Percent`, `QueryString`). The automaton
  for registered-name hosts, what it makes of every text it accepts, and when printing and parsing undo each other.
- **The connection pool** (`ConnectionPool`, `PoolRuns`, `PoolAge`, `PoolProgress`): conservation and exclusive use over
  all interleavings, how old a connection can be when it is handed out again, and that no call gets stuck.
- **Links and the reverse proxy** (`Paths`, `Rewriter`, `RequestPaths`, `PageLinks`, `Srcset`): path normalisation, what the
  links of a page become, and when routing a rewritten link fetches the URL the link stands for.

Code that updates state in place is modelled by classes and methods with loops, proved against functions or contents;
protocols are modelled as transition systems whose steps are single critical sections, and their results hold for every
run. `Options` holds the one option type. `dafny verify dfyconfig.toml` checks everything.

## Where the code does less than it promises

Each of these is proved, with the exact condition under which the code does what its documentation says.

- `setPosition` steps one page too far exactly when the new position is the end of the content and the start of the last
  page (`PagedBuffer.ByteArray.SetPosition`). Rewinding a fresh buffer therefore loses the next write
  (`BufferEdges.RewindBeforeWrite`), and a receive that ends there misplaces the next one, on every appending buffer
  and for every length that allows such a cut (`BufferEdges.CutReceive`); for all others the transfer is exact
  (`Streams.SocketStream.ReadFixSize`).
- The positional read of an empty buffer divides by zero when it wants anything at all and its length check, which wraps
  past the content, lets it through (`PagedBuffer.ByteArray.ReadAt`). The positional list of slices runs off the last page
  past the content, and then loses that page's element although the result counts it
  (`PagedBuffer.ByteArray.GetReadBuffersAt`).
- Reading nothing at full capacity dereferences a null page, so a list of values that ends with an empty string and fills
  its pages exactly cannot be read back (`BufferCodec.RoundTrip`); nothing else stands in the way of the round trip.
- `stopping()` can hold and then cease to hold without any outside submission, exactly when some worker is between giving
  up a yielded fiber and queueing it again, or between taking expired callbacks and submitting them
  (`Shutdown.StoppingFinalIffQuiet`, reached and seen by a polling worker in `Shutdown.StoppingCanLapse`).
- Workers can therefore exit with work outstanding: a worker that sees `stopping()` hold never asks again, and it leaves
  with nothing outstanding, however the run goes on, exactly when no worker has a task in hand at that moment
  (`Shutdown.ExitSettledIff`). In `Shutdown.ExitsWithWork` both of two workers exit while a fiber waits for an event.
- `delEvent` on a registration that is to resume a fiber leaves that fiber parked for good. When shutdown is final a fiber
  is unfinished exactly when this has happened to it, and nothing resumes it ever after (`Discarding.UnfinishedIffDropped`,
  reached by `Discarding.DroppedAtShutdown`).
- The pool reads the clock before it waits for its lock. So no connection that it hands out is too old exactly when the
  lock was free at once, or the limits let no connection be reused at all; under all other limits every wait, however
  short, can hand out one that is too old (`PoolAge.NeverTooOldIff`, `PoolAge.TooOldReused`).
- A connection over TLS is created with time zero instead of the clock's, so it is handed out again only by calls that
  began before the clock reached `maxAliveTime` (`PoolProgress.TlsSoonTooOld`).
- Below one hour of clock any step back counts as a rollover, however small (`Timers.TimerManager.DetectClockRollover`).
- A fiber whose task throws comes back from `swapOut` as `HOLD`, like a parked one, so the loop's branches for `EXCEPT` are
  never taken, and the fiber of a callback that threw is dropped in a state its destructor rejects
  (`DispatchLoop.Schedular.RunCallback`).
- A fiber in `hook_io` can wait with its timer set and never be told that its time is up: when the callback of an earlier
  round sets the flag between the fiber's look at it and its next registration, the next callback finds the flag set and
  does nothing (`HookWait.TimeoutWakesIff`, reached by `HookWait.TimeoutCanBeLost`).
- The poller sleeps without a limit when the measured delay, cut to 32 bits, is negative (`PollerWake.TimeoutExact`).
- A trailing `?`, `#` or `:` stays at the end of the component before it, so getters return too much although the text
  prints as it was; an empty query before a fragment is lost in print; ports are reduced modulo 65536
  (`UrlRoundTrip.ComponentsOfText`, `UrlRoundTrip.GettersReturnParts`, `UrlRoundTrip.TextPrintsBack`). Any prefix of a URL
  is accepted, since the only errors are characters that do not fit (`UrlPrinting.PrefixParses`).
- Routing a rewritten link fetches the resolved URL exactly when the link holds an absolute URL and starts with it (an
  `https://` one must hold no `http://`), or holds none and the page is an `http` or `https` one
  (`Rewriter.RewriteThenRoute`). A query in the link is not fetched with it (`RequestPaths.QueryIsDropped`), so a link
  with a `?` is fetched back exactly when nothing follows the `?` (`RequestPaths.QueryLinkRoundTrip`).

## Model

| member | source | states |
|---|---|---|
| PagedBuffer.ByteArray.constructor | blue/bytearray.cpp:77-86 | a new buffer is one page, empty, big-endian, with the cursor on byte 0 |
| PagedBuffer.ByteArray.AddCapacity | blue/bytearray.cpp:640-674 | as many pages are linked as the shortfall needs, all else kept; room suffices when the free space fits a signed 32-bit integer, and not otherwise |
| PagedBuffer.ByteArray.Write | blue/bytearray.cpp:410-452 | the bytes overwrite the content at the cursor and extend it past the end; no other byte of memory changes; the cursor moves by their number |
| PagedBuffer.ByteArray.Read | blue/bytearray.cpp:454-489 | the next bytes of the content across pages, or out of range, or a null page for an empty read at full capacity, in exactly these cases |
| PagedBuffer.ByteArray.ReadAt | blue/bytearray.cpp:491-543 | the bytes at any position, without moving the cursor; the length check wraps past the content, where memory up to the end of the last page is copied, and an empty buffer is divided by in exactly the cases named |
| PagedBuffer.Sub64Wraps | blue/bytearray.cpp:491-497 | the length check subtracts unsigned 64-bit numbers: below zero the difference comes out larger by 2^64 |
| PagedBuffer.ByteArray.SetPosition | blue/bytearray.cpp:545-588 | the cursor is on byte v and the content unchanged; a page is added and the cursor a page ahead just when v is the end of the content and the start of the last page |
| PagedBuffer.ByteArray.Clear | blue/bytearray.cpp:395-408 | one page is left, empty, with a valid cursor |
| PagedBuffer.ByteArray.ToString | blue/bytearray.cpp:684-694 | the content from the cursor on |
| PagedBuffer.ByteArray.GetReadBuffers | blue/bytearray.cpp:712-751 | the appended elements gather exactly the next bytes of the content; position, size and content stay |
| PagedBuffer.ByteArray.GetReadBuffersAt | blue/bytearray.cpp:753-802 | the same from any position within the content; past it, exactly how many bytes are counted and which of them the elements cover |
| PagedBuffer.ByteArray.GetWriteBuffers | blue/bytearray.cpp:804-841 | room is made, and the appended elements are the pages' own slices from the cursor on, in order, n bytes in all; content and cursor stay |
| PagedBuffer.SlicesLocus | blue/bytearray.cpp:804-841 | byte j of such a list is byte (start + j) of the flat memory |
| PagedBuffer.SlicesDisjoint | blue/bytearray.cpp:804-841 | no two of its bytes share an address |
| PagedBuffer.ByteArray.GatherSlices | blue/bytearray.cpp:712-751 | gathering such a list yields the flat memory it covers |
| PagedBuffer.ByteArray.Scatter | blue/msocketstream.cpp:35-50 | a scattering receive of any prefix splices it into the flat memory where the list starts |
| PagedBuffer.ByteArray.SetSize | blue/bytearray.cpp:676-682 | raises the size only, and keeps the buffer well formed exactly when the new size fits the capacity |
| FlatBuffer.Apply | blue/bytearray.cpp:395-588 | one call on the paged buffer gives the reply and the state of the flat model |
| FlatBuffer.Replay | blue/bytearray.cpp:395-841 | every run of allowed calls refines the flat byte sequence with a cursor, reply by reply |
| FlatBuffer.StepKeeps | blue/bytearray.cpp:640-674 | position <= size <= capacity over every allowed call |
| FlatBuffer.PageSizeDoesNotShow | blue/bytearray.cpp:395-694 | two buffers with different page sizes give the same replies and contents for the same run |
| WireCodec.FixedBytesRoundTrip | blue/bytearray.cpp:119-171 | fixed-width integers in either byte order are decoded to themselves |
| WireCodec.FixedBytesSpell | blue/bytearray.cpp:119-171 | byte i of an integer is its digit of weight 256^i in a little-endian encoding, of weight 256^(w-1-i) in a big-endian one |
| WireCodec.SwapGivesWireOrder | blue/bytearray.cpp:119-171 | swapping when buffer and host order differ puts these bytes in the buffer's order on the wire, on either host |
| WireCodec.SwapReadsOtherOrder | blue/bytearray.cpp:252-303 | swapping what was read in host order reads it in the other order |
| WireCodec.TwosComplementRoundTrip | blue/bytearray.cpp:109-171 | signed integers survive their two's complement form |
| WireCodec.ZigzagFolds | blue/bytearray.cpp:39-75 | the shift-and-xor encoding is 2v, or -2v-1 for negative v |
| WireCodec.ZigzagRoundTrip | blue/bytearray.cpp:39-75 | decoding undoes encoding for every 32- and 64-bit value |
| WireCodec.LebMeaning | blue/bytearray.cpp:178-189 | the varint is the shortest unsigned LEB128 form: byte i carries the seven bits of weight 128^i, continuation bits stand on all bytes but the last, no sequence with that value is shorter, and no other as short has these bits |
| WireCodec.LebFits | blue/bytearray.cpp:178-207 | five bytes hold any 32-bit number, ten any 64-bit one |
| WireCodec.VarintRoundTrip | blue/bytearray.cpp:311-341 | the reading loop, with its shifts inside the word, stops at the end of an encoding with the number, whatever follows |
| BufferCodec.DecodeEncode | blue/bytearray.cpp:109-384 | every representable value is decoded from its encoding, whatever follows |
| BufferCodec.TextOfAnyLength | blue/bytearray.cpp:223-239 | a string of any length is read back as its first (length mod 256^w) bytes, so as itself iff its length fits the prefix |
| WireCodec.FixedKeepsLow | blue/bytearray.cpp:119-171 | a number too large for w bytes is reduced modulo 256^w |
| BufferCodec.VarintBytes | blue/bytearray.cpp:178-207 | the writer's loop produces the LEB128 form |
| BufferCodec.EncodedOnWire | blue/bytearray.cpp:109-239 | the bytes of every kind of value: digits of integers in the buffer's order, negative ones modulo 256^w, varints in groups, signed ones folded, strings behind their length |
| BufferCodec.WriteValue | blue/bytearray.cpp:109-239 | writing a value overwrites the content with its encoding, on hosts of either byte order, and these bytes stand in the content |
| BufferCodec.ReadVarint | blue/bytearray.cpp:311-341 | the reader's loop over single-byte reads equals the decoder |
| BufferCodec.ReadValue | blue/bytearray.cpp:252-384 | reading a value of a kind equals decoding the unread content |
| BufferCodec.RoundTrip | blue/bytearray.cpp:39-384 | any list of representable mixed values, any page size, either byte order: written, rewound and read in order it is the same list with nothing left, unless it ends with an empty string on exactly full pages |
| BufferEdges.RewindBeforeWrite | blue/bytearray.cpp:567-577 | rewinding a fresh one-page buffer before writing makes later reads return the old bytes of the first page |
| BufferEdges.CutReceive | blue/mstream.cpp:24-37 | whenever a cut where the last page will start is possible, receives cut there leave stale memory in the content and the second part one page on; the content is exact iff the stale bytes are the received ones |
| BufferEdges.CutFirst | blue/msocketstream.cpp:35-50 | the receive that is cut there appends its bytes and leaves the cursor one page on |
| BufferEdges.CutSecond | blue/msocketstream.cpp:35-50 | the next one extends the content over what stood in memory and puts its bytes a page behind |
| Streams.Commit | blue/msocketstream.cpp:41-47 | size and position advance over the received bytes; the cursor is a page ahead in the boundary case only |
| Streams.SocketStream.Write | blue/msocketstream.cpp:61-76 | a partial send takes exactly the next unread bytes, and the cursor moves past those that went out |
| Streams.SocketStream.WriteFixSize | blue/mstream.cpp:56-69 | over any pattern of partial sends exactly content[pos..pos+len] goes out, in order and once; it fails only if a transfer does |
| Streams.SocketStream.Read | blue/msocketstream.cpp:35-50 | a partial receive is laid over the content at the cursor |
| Streams.SocketStream.ReadFixSize | blue/mstream.cpp:24-37 | over any pattern of partial receives the bytes are appended in order and once, when the length cannot be cut where the last page will start; together with BufferEdges.CutReceive this is an iff; fewer bytes than asked arrive only if a transfer fails |
| EventTable.AddKeepsBook | blue/iomanager.cpp:113-191 | registering keeps: bit set iff slot taken, kernel set equals the bits, pending is their number |
| EventTable.TriggerKeepsBook | blue/iomanager.cpp:38-55 | so does triggering |
| EventTable.AddWaits | blue/iomanager.cpp:113-191 | a successful registration puts its continuation into one slot, a failed one into none |
| EventTable.ClearReleases | blue/iomanager.cpp:193-235 | what leaves a slot is what the slot held |
| EventTable.CancelSchedules | blue/iomanager.cpp:237-285 | cancelling moves the continuation from its slot to the scheduler, and keeps the books |
| EventTable.CancelAllSchedules | blue/iomanager.cpp:287-333 | so does cancelling both, for every continuation |
| EventTable.DispatchSchedules | blue/iomanager.cpp:424-479 | so does a reported readiness, error or hang-up |
| EventHistory.BookkeepingHolds | blue/iomanager.cpp:113-333 | over all interleavings of add, delete, cancel, cancel-all and reports the books agree, and every registered continuation is in exactly one place: a slot, scheduled once, or dropped by delete |
| EventHistory.WhoMovesThem | blue/iomanager.cpp:113-333 | continuations are dropped by delEvent alone and scheduled by cancellations and reports alone |
| EventHistory.AnyOpCanCome | blue/iomanager.cpp:113-333 | every operation can come next in every reachable state, but for a second registration |
| EventLoop.IOManager.AddEvent | blue/iomanager.cpp:113-191 | the kernel is asked to add, or to change to, exactly the registered events and the new one; if it agrees, the continuation stands in its slot; the context vector grows to 2 fd; all else stays; so the update equals the table operation |
| EventLoop.IOManager.DelEvent | blue/iomanager.cpp:193-235 | the kernel is asked to watch what is left; if it agrees, bit and slot are emptied and nothing is scheduled; all else stays |
| EventLoop.IOManager.CancelEvent | blue/iomanager.cpp:237-285 | likewise, and the continuation is submitted |
| EventLoop.IOManager.CancelAll | blue/iomanager.cpp:287-333 | the kernel is asked to forget the descriptor; if it agrees, every registered continuation is submitted, the reader's first |
| EventLoop.IOManager.HandleReport | blue/iomanager.cpp:424-479 | when the kernel agrees to watch the rest, a registered reader is submitted iff input or an error was reported, a writer iff output or an error was, and just their slots are emptied; it is not asked when neither is |
| EventLoop.IOManager.HandleReports | blue/iomanager.cpp:410-479 | over all reports, slots plus submissions are conserved for every continuation |
| Timers.TimerManager.InOrder | blue/timer.cpp:13-29 | the set is in the order of deadlines, and of addresses where they are equal |
| Timers.TimerManager.AddTimer | blue/timer.cpp:185-212 | the timer is armed at now + ms in a set that stays sorted by (deadline, address); the poller is told iff it is first and was not told before |
| Timers.TimerManager.Cancel | blue/timer.cpp:59-77 | disarms it if it was armed, and nothing else |
| Timers.TimerManager.Refresh | blue/timer.cpp:79-116 | an armed timer moves to now + ms, and the set stays sorted |
| Timers.TimerManager.Reset | blue/timer.cpp:118-176 | an armed timer gets the new period from now or from its old start, never below zero |
| Timers.TimerManager.Find | blue/timer.cpp:13-29 | the comparator alone finds a timer in the set iff it is there |
| Timers.TimerManager.GetNextTime | blue/timer.cpp:273-297 | the time to the earliest of all deadlines; insertion at the front may tell the poller again |
| Timers.TimerManager.DetectClockRollover | blue/timer.cpp:299-309 | the unsigned test reports a step back by more than an hour, and below one hour of clock any step back |
| Timers.TimerManager.ListExpiredCb | blue/timer.cpp:219-265 | exactly the due timers are emitted, in deadline order and once; one-shots are disarmed, recurring ones re-armed at now + ms, others untouched; on rollover all are emitted |
| PollerWake.NoLostWakeUp | blue/timer.cpp:185-212 | whenever the poller sleeps on a later deadline than the earliest, a wake byte is waiting or about to be written |
| PollerWake.ToldOncePerRound | blue/timer.cpp:185-212 | over every run each setting of the flag has its byte written or owed, and it is set at most once per round of the poller: only by a timer that comes before all others while nobody was told |
| PollerWake.FallsAsleep | blue/iomanager.cpp:371-390 | a poller that has cleared the flag sleeps until the earliest deadline, three seconds at the most, also without timers |
| PollerWake.RoundCompletes | blue/iomanager.cpp:357-420 | a poller can always make its round, interrupted or not: it comes back with the pipe drained, what was due swept, and nothing to be told |
| PollerWake.ByteArrives | blue/timer.cpp:185-212 | a timer armed in front while the poller sleeps and nobody was told gets its byte into the pipe |
| PollerWake.TimeoutExact | blue/iomanager.cpp:371-390 | the timeout is between 0 and the wait iff the wait, cut to 32 bits, is not negative |
| PollerWake.NeverSleepsPast | blue/iomanager.cpp:371-407 | with no wake pending the poller wakes by every deadline, unless the delay has its 32nd bit set |
| Reactor.InvHolds | blue/schedular.cpp:202-306 | in every reachable state the books agree, the active count is the number of busy workers, and every fiber's handle is where it should be and nowhere else |
| Reactor.ActiveNext | blue/schedular.cpp:225-290 | the active count follows on every branch of the dispatch loop |
| Dispatching.ResumedOncePerRegistration | blue/hook.cpp:132-211 | over every run: resumptions, plus drops by delEvent, plus the handles that are left, equal submissions, registrations and yields; a waiting fiber that was not dropped has exactly one handle, others none |
| Dispatching.SwapsInOnlyWaiting | blue/schedular.cpp:219-250 | no running or finished fiber is swapped in, and none runs on two workers |
| Dispatching.ActiveCounts | blue/schedular.cpp:225-290 | the active count equals the workers holding a taken entry, in every run |
| Dispatching.EntriesConserved | blue/schedular.h:62-99 | every submitted entry is in the queue or was taken by one worker |
| Dispatching.PinsRespected | blue/schedular.cpp:210-226 | a pinned entry is taken only by the thread it names |
| Shutdown.ShutdownStable | blue/iomanager.cpp:351-355 | without outside submissions, shutdown stays once nothing is queued, active, pending, armed or in hand |
| Shutdown.StoppingFinalIffQuiet | blue/schedular.cpp:239-245 | when stopping() holds, it holds after every possible step iff no worker has a task in hand |
| Shutdown.StoppingCanLapse | blue/schedular.cpp:239-245 | a run in which a polling worker sees stopping() hold, and a step after that it does not |
| Shutdown.NothingOutstanding | blue/schedular.cpp:316-326 | shutdown is final iff it was asked for and no work is outstanding: nothing queued, registered, armed or running, every fiber finished or dropped by delEvent |
| Shutdown.WorkersLeaveSettled | blue/schedular.cpp:286-297 | in every run: if nothing is in hand when a worker first sees stopping() hold, and nothing is submitted from outside from then on, no work is outstanding once a worker has exited |
| Shutdown.ExitSettledIff | blue/iomanager.cpp:351-369 | a worker that sees stopping() hold leaves with no work outstanding on every continuation without outside submissions iff no worker has a task in hand |
| Shutdown.ExitsWithWork | blue/schedular.cpp:286-297 | a run of two workers that both exit while a fiber waits for a registered event |
| Dispatching.TimersLeaveToRun | blue/iomanager.cpp:400-407 | a timer goes only when it is disarmed or its callback is taken, and what was taken is submitted in order, unpinned |
| Resumption.ParkedCanResume | blue/schedular.cpp:202-306 | from every reachable state with a worker that was not told to stop, a fiber parked on an event can be resumed by that worker's steps, whatever the worker and the queue are in the middle of |
| Resumption.CanAlways | blue/schedular.h:62-99 | running fibers, other threads and polling workers can take every step of theirs whenever the source lets them |
| Resumption.TimersFollow | blue/timer.cpp:185-265 | timers are armed and disarmed by the steps for it alone |
| Discarding.DropNext | blue/iomanager.cpp:193-235 | every step keeps dropped fibers dropped, swaps none of them in, and drops exactly those whose registration it deletes |
| Discarding.DroppedOnce | blue/iomanager.cpp:193-235 | over every run a fiber is dropped at most once, and is marked so from then on and only then |
| Discarding.StaysParked | blue/iomanager.cpp:193-235 | a parked fiber whose registration was dropped stays parked on every continuation, and is never resumed |
| Discarding.UnfinishedIffDropped | blue/schedular.cpp:316-326 | when shutdown is final a fiber is unfinished iff delEvent dropped its registration, and then it is never resumed |
| Discarding.DroppedAtShutdown | blue/iomanager.cpp:193-235 | a run in which delEvent hits a parked fiber and shutdown then is final |
| DispatchLoop.Fiber.SwapOut | blue/fiber.cpp:267-290 | TERM and READY stay, every other status becomes HOLD, EXCEPT too |
| DispatchLoop.Fiber.Resume | blue/fiber.cpp:249-290 | the status a fiber comes back with: READY or HOLD as it yielded, TERM when its task returned, HOLD when it threw |
| DispatchLoop.Schedular.ScheduleAll | blue/schedular.h:84-99 | a batch follows what is queued, in order, and idle workers are told iff the queue was empty |
| DispatchLoop.Schedular.TakeTask | blue/schedular.cpp:207-231 | the scan is a step of the reactor, from the object's queue and count before it to those after it: the first entry neither pinned elsewhere nor running is taken, or the worker goes idle; other workers are told iff one pinned elsewhere was passed |
| DispatchLoop.Schedular.RunFiber | blue/schedular.cpp:236-252 | the fiber is queued again, once, iff it yielded to be; the active count drops on every branch; on the reactor these are the steps by which it begins, leaves, and is queued |
| DispatchLoop.Schedular.RunCallback | blue/schedular.cpp:253-285 | the spare fiber is reset only when that is allowed, kept iff its callback returned, and otherwise given up; on the reactor these are the same steps, with a reused spare forgotten first |
| DispatchLoop.ForgetKeepsInv | blue/schedular.cpp:253-285 | forgetting a finished fiber, as reuse does, keeps everything that holds in reachable states |
| HookWait.TimeoutIsDue | blue/hook.cpp:132-211 | a call reports a timeout only after its whole timeout, whatever stale callbacks run; it leaves no timer behind |
| HookWait.CallReturns | blue/hook.cpp:132-211 | over every run: back from a wait a call reports the timeout iff a timer callback of this call has run, and tries again otherwise; it returns the hooked function's own result, or that registering failed, and in no other way |
| HookWait.NotifiedGoesOn | blue/hook.cpp:184-208 | a waiting fiber whose event is notified comes back, and tries again unless its time is up |
| HookWait.SucceedsAndFollows | blue/hook.cpp:122-134 | a call that tries can return its own result, and the next call starts with its own timeout and a clear flag |
| HookWait.SilentTimesOut | blue/hook.cpp:150-206 | on a silent socket every call with a timeout can report it at the moment the time is up |
| HookWait.TimeoutWakesIff | blue/hook.cpp:150-172 | a waiting call can be woken by time alone iff the flag of the call is not already spent |
| HookWait.TimeoutCanBeLost | blue/hook.cpp:132-211 | a run after which a call waits with its timer set and the flag spent |
| UrlParser.CreateUrl | blue/urlparser.cpp:63-580 | the automaton's loop and the setters after it compute the run of the transition table and its carving |
| UrlParser.Carve | blue/urlparser.cpp:8320-8417 | the setters produce the components between the marks |
| UrlParser.GetAsciiUrl | blue/url.cpp:71-97 | the appended parts are the printed form |
| UrlParser.CharacterClasses | blue/urlparser.cpp:63-580 | the table's ranges are the character classes of RFC 3986 for schemes, registered names and paths |
| UrlParser.Errors | blue/urlparser.cpp:63-580 | which characters are errors in authorities, paths, queries and fragments |
| UrlPrinting.ShapeRun | blue/urlparser.cpp:63-580 | wherever the automaton ends, its marks lie in order, each right after its delimiter, and the scheme ends at the first colon |
| UrlPrinting.PrefixParses | blue/urlparser.cpp:63-580 | every prefix of an accepted URL is accepted |
| UrlPrinting.PortPrintsBack | blue/urlparser.cpp:8382-8390 | a port is printed as written iff it has no leading zero and lies in 1..65535 |
| UrlPrinting.PiecesMakeText | blue/urlparser.cpp:8320-8417 | the carved pieces with their delimiters make up the text |
| UrlPrinting.PrintsBack | blue/url.cpp:71-97 | every text the automaton accepts, in any state, is printed back iff it is faithful: scheme followed by //, canonical port, no empty query before a fragment |
| UrlRoundTrip.RunOverText | blue/urlparser.cpp:63-580 | every text made of well-formed components (sections 3.1 to 3.5 of RFC 3986) is read to its end, with the marks where the components are |
| UrlRoundTrip.ComponentsOfText | blue/urlparser.cpp:8320-8417 | exactly what each getter returns for every such text, trailing delimiters and port reduction included |
| UrlRoundTrip.GettersReturnParts | blue/urlparser.cpp:8320-8417 | the getters return the components iff no component is empty at the end of another |
| UrlRoundTrip.TextPrintsBack | blue/url.cpp:71-97 | such a text is printed back iff its port is canonical and no empty query stands before a fragment |
| UrlRoundTrip.RoundTrip | blue/url.cpp:71-97 | scheme://name[:port][/path][?query][#fragment] with canonical port and non-empty query and fragment comes back from parser and printer |
| Percent.UrlEncode | blue/urlutils.h:87-108 | the loop produces the character-by-character encoding, in both modes |
| Percent.UrlDecode | blue/urlutils.h:114-148 | the loop produces the decoding, also of incomplete and malformed escapes |
| Percent.EncodePath | blue/urlutils.h:155-178 | the loop encodes all but path characters |
| Percent.EitherCaseDecodes | blue/urlutils.h:114-148 | an escape of any octet, with either digit in either case, decodes to the octet |
| Percent.OthersDecode | blue/urlutils.h:114-148 | every other character stays, a % that no two digits follow too, but + becomes a space |
| Percent.EncodedByName | blue/urlutils.h:87-178 | a character is kept or becomes % and two upper-case digits, those of its high and low half |
| Percent.KeptCharacters | blue/urlutils.h:87-178 | the kept sets are those of sections 2.2, 2.3 and 3.3 of RFC 3986 |
| Percent.DecodeEncoded | blue/urlutils.h:87-148 | decoding undoes encoding for any set of kept characters without %, up to + becoming a space |
| Percent.UrlRoundTrip | blue/urlutils.h:87-148 | UrlDecode(UrlEncode(s)) = s for every byte string in both modes |
| Percent.PathRoundTrip | blue/urlutils.h:114-178 | UrlDecode(EncodePath(s)) = s iff s has no + |
| Percent.EncodedIsSafe | blue/urlutils.h:87-108 | encoded text has unreserved characters and % only (section 2.1 of RFC 3986) |
| QueryString.HttpRequest.ParseQuery | http/httpParser.cpp:320-347 | the loop over positions makes the settings of the pieces between &, in order |
| QueryString.QueryRoundTrip | http/httpParser.cpp:320-383 | parsing the joined encoded list makes exactly the settings of the list |
| QueryString.FoldSame | http/http.cpp:171-174 | two keys name one parameter iff they agree up to the case of letters, as far as the first NUL |
| QueryString.LastSettingStays | http/http.cpp:211-214 | of settings whose keys differ in case only, the last one stays |
| ConnectionPool.HttpConnectionPool.Purge | http/httpconnection.cpp:325-354 | connections are taken from the front: unusable ones out, the first usable one handed out busy, the rest kept in order |
| ConnectionPool.HttpConnectionPool.GetConnection | http/httpconnection.cpp:325-411 | the total loses the purged and gains a newly opened connection |
| ConnectionPool.HttpConnectionPool.Release | http/httpconnection.cpp:563-598 | a connection goes back idle iff it is connected, young enough, under its request limit and there is room; else it is deleted and deducted |
| ConnectionPool.PurgeDetermined | http/httpconnection.cpp:325-354 | the outcome of a purge is determined by the pool and the usable connections |
| PoolRuns.TotalConserved | http/httpconnection.cpp:325-411 | in every state of every interleaving the total is pooled plus handed out plus purged but not yet deducted; the pool never exceeds its size |
| PoolRuns.OneHolder | http/httpconnection.cpp:563-598 | no connection has two holders, none in use is pooled, pooled ones are idle, none serves more than max(1, maxRequest) requests |
| PoolRuns.ReusedIsFresh | http/httpconnection.cpp:325-354 | a reused connection is the first in the pool that is connected and was young when the call began; those discarded before it were disconnected or too old, not merely busy |
| PoolProgress.EveryCallCanEnd | http/httpconnection.cpp:325-411 | from every reachable state a thread anywhere in a call can finish it by steps of its own |
| PoolProgress.CreatedWhenOpened | http/httpconnection.cpp:400-405 | a connection keeps the creation time it was opened with: the clock's, or zero over TLS |
| PoolProgress.TlsSoonTooOld | http/httpconnection.cpp:400-405 | a TLS connection is reused only by calls that began before the clock reached maxAliveTime |
| PoolProgress.BrokenIsNotReused | http/httpconnection.cpp:335-339 | a connection that the peer has closed is never handed out again |
| PoolAge.NeverTooOldIff | http/httpconnection.cpp:325-354 | for all limits and waits: no run hands out a connection that is too old after that wait for the lock, iff the wait is zero or the limits let no connection be reused |
| PoolAge.TooOldReused | http/httpconnection.cpp:325-354 | for all limits that let connections be reused and every wait above zero, a run that hands out one that is too old |
| Paths.NormalizePath | http/httpserver.cpp:160-188 | the getline loop and the joining loop compute the normal form |
| Paths.SegmentsPlain | http/httpserver.cpp:160-188 | the result is / or has only segments that are neither empty nor dots |
| Paths.Idempotent | http/httpserver.cpp:160-188 | normalising twice is normalising once |
| Paths.JoinLaw | http/httpserver.cpp:160-188 | normalize(a/b) = normalize(normalize(a)/b) for all strings |
| Paths.NormalizedKeepsUncancelled | http/httpserver.cpp:160-188 | the result consists of the pieces that no later .. cancels, by an independent account from the right |
| Paths.NeverClimbs | http/httpserver.cpp:160-188 | a leading .. changes nothing |
| Rewriter.RewriteUrl | http/httpserver.cpp:191-246 | empty and special links and links on unparsable pages stay; others become the proxy prefix and the resolved URL, by the four cases |
| PageLinks.PrintedParts | blue/url.cpp:71-112 | a printed URL is scheme, ://, authority and the rest |
| PageLinks.WhatLinksBecome | http/httpserver.cpp:191-246 | what each kind of link becomes in terms of the page's own text: left alone, itself, or itself behind the page's scheme and colon, or behind the page up to its path, joined to the path and normalised if relative |
| Rewriter.Route | http/httpserver.cpp:757-791 | the branch, with its trimming loop, finds the first http:// or else https:// and builds the target |
| PageLinks.WhatIsFetched | http/httpserver.cpp:757-791 | a path in front of the embedded URL, without slashes at its ends, becomes the path on that URL's server, and the URL's query stays |
| Rewriter.RouteEmbedded | http/httpserver.cpp:757-791 | routing /blue/ and a URL fetches that URL iff it starts with http://, or with https:// and has no http:// in it |
| Rewriter.RewriteThenRoute | http/httpserver.cpp:191-246 | for every rewritten link: the router fetches the URL it stands for iff it starts with the absolute URL it holds (https without http in it), or holds none and the page is http or https |
| RequestPaths.SchemeRead | blue/urlparser.cpp:8322-8329 | every accepted URL carries the scheme it starts with |
| RequestPaths.SchemeHasNoColon | blue/urlparser.cpp:8322-8329 | no scheme that is read off a URL has a colon |
| RequestPaths.AuthorityEnds | blue/urlparser.cpp:63-580 | no authority has a /, ?, # or NUL in it, and a non-empty path starts with one of them |
| RequestPaths.AuthorityHasNoSlash | blue/urlparser.cpp:63-580 | no authority that is read off a URL has a slash |
| RequestPaths.TargetAccepted | blue/urlparser.cpp:63-580 | a request target that starts with / and has no ? and # is accepted iff it consists of path characters and escapes, the last one possibly cut off |
| RequestPaths.WholeIsPath | http/httpParser.cpp:456-471 | a request target without ? and # is its own path |
| RequestPaths.LinkRoundTrip | http/httpserver.cpp:757-791 | a rewritten link without ? and # is accepted as a request target iff it resolves to path text, and then fetches the URL it stands for on exactly the links of Rewriter.RewriteThenRoute |
| RequestPaths.QueryTargetAccepted | blue/urlparser.cpp:63-580 | a request target with a ? is accepted iff what precedes it is path characters and complete escapes, and what follows is printable |
| RequestPaths.QueryIsDropped | http/httpserver.cpp:764-791 | a query in the link is not part of what is fetched |
| RequestPaths.QueryLinkRoundTrip | http/httpserver.cpp:764-791 | a rewritten link with a ? is accepted as a request target on exactly such texts, and then fetches the URL it stands for iff nothing follows the ? and the link is one of Rewriter.RewriteThenRoute |
| Srcset.RewriteSrcset | http/httpserver.cpp:358-405 | the nested loops rewrite each candidate on its own |
| Srcset.CandidateParts | http/httpserver.cpp:365-392 | of a candidate only its first word, which blanks and commas end, is rewritten |
| Srcset.EachOnItsOwn | http/httpserver.cpp:358-405 | a list of candidates is rewritten candidate by candidate, split at its commas |
| Srcset.OnlyUrlsChange | http/httpserver.cpp:358-405 | blanks, descriptors and commas are copied unchanged |

## Left out

- UrlParser.CreateUrl: user information, escaped, IPv4, IPv6 and UTF-8 hosts, and UTF-8 in paths, queries and fragments: `UrlParser` ends in the state `Elsewhere` for them, and its results say nothing about such texts. The decoded copies of the components and `getUnicodeURL` are not modelled either.
- Rewriter.RewriteThenRoute: takes what `CreateUrl` does to the target as a parameter that reads `http` and `https` off the front; `RequestPaths.ParseReadsScheme` proves this for the hosts the model covers, and `RequestPaths.SchemeHasNoColon` and `RequestPaths.AuthorityHasNoSlash` what it asks of the page's URL.
- BufferCodec.RoundTrip: strings fit their length prefix (`BufferCodec.TextOfAnyLength` says what happens to others); writeStringVint, whose reader expects another length format, and float and double, which are bit copies, are not modelled.
- PagedBuffer.ByteArray.Write: requires that growing works out, that is, that the free space fits a signed 32-bit integer or suffices (`PagedBuffer.ByteArray.AddCapacity` covers the other case); likewise the receiving methods, which also require that the cursor is on a page, or nothing is wanted, or more room than there is, as the source dereferences a null page otherwise.
- Streams.SocketStream.ReadFixSize: promises the content only when the length cannot be cut where the last page will start, since it fails otherwise (`BufferEdges.CutReceive`); that a receive which can be cut there but is not goes well is stated per receive only.
- The back link of a page node, which no method reads; file input and output and the hex dump of the buffer.
- Deadlines that overflow 64 bits (the timer methods require that they do not), and two timers at one address.
- Fibers resumed by a timer's `schedule` instead of a callback (the sleep hooks), and, in the runs of `Reactor`, tasks that throw (`DispatchLoop` has them); the idle-thread count, weak memory, and the unlocked time between storing a fiber's state and saving its context. Evaluating `stopping()` and taking expired callbacks are one step each.
- DispatchLoop.Schedular.RunFiber: the queue is as it was when the fiber comes back; what the fiber and other threads do to it meanwhile are steps of `Reactor`. The same holds for `DispatchLoop.Schedular.RunCallback`.
- Concurrent growth of the context vector; the assertion against registering an event twice is a precondition.
- HookWait.TimeoutIsDue: the time is counted from the call's first wait, not from its last, since callbacks of earlier rounds share the flag.
- The hook's early exits for descriptors it does not manage, and connect_with_timeout, which is one round of the same loop.
- Address lookup, connecting and TLS in `ConnectionPool` are one nondeterministic result; draining a socket before pooling has no effect on the model.
- The other branches of handleClient (forward proxy, WebSocket, admin pages, target parameter), HTML and CSS processing, cookies, rate limits, caches, header formatting, IP prefix arithmetic and the configuration, logging and database modules.
