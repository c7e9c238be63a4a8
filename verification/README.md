# Verified model of the kvstore server

This project models the concurrent key value server, its line protocol, and the two
stateful cores that ship with its browser demo, and proves what they promise. Run
`dafny verify dfyconfig.toml`.

## What is modelled

**The server** (`Machine.dfy`). The accept loop, one handler per connection, the Shutdown
caller, the drain goroutine and the clients interleave freely. Every lock acquisition,
access and release is a step of its own: `Delete` looks its key up in one step and removes
it in another, and the deferred calls of a handler run as delete from `conns`, close, then
`wg.Done`. A run is any sequence of enabled actions. The history of a run records each line
read and each reply written; the log records each command at the step where it takes effect.

* `Locks.dfy` keeps the owners of the server mutex, `conns`, the WaitGroup and the gate.
* `Effects.dfy` keeps the store's RWMutex and ties the map, the log and every handler's
  counter together. Under the write lock, a key that `Delete` found is still there when it is
  removed; this is what makes it atomic.
* `Histories.dfy` defines linearizability of a history without reference to the machine.
* `Linearizability.dfy`, `Framing.dfy`, `GateClosing.dfy`, `Draining.dfy`, `Termination.dfy`,
  `Delivery.dfy` and `Service.dfy` hold the main results over every reachable state and every run.
* `Harness.dfy` is a client-side consequence: it uses only the linearization and its
  real-time order, not the inside of the server.

**The protocol** (`Protocol.dfy`) is pure code and stays so; `AtomicMap.dfy` is its meaning
on one map. `Server.dfy` and `Demo.dfy` are the same code as objects on one goroutine,
proved against that meaning. `SoleClient` connects the two: a client alone on the concurrent
server gets the replies of the sequential one.

**The reference table** (`RefTable.dfy`, `RefRuns.dfy`) is an allocator of ids with
reference counts, a free pool and an inverse index. Words are NaN-boxed (section 6.2.1 of
IEEE 754-2019). The class is proved against a functional table, and the invariants are
proved over every run in which Go holds and gives up references. **The argument layout**
(`ArgLayout.dfy`) is proved by an independent reader that walks the table from `argv`.

**The rest** is the harness's decimal printer (`Itoa.dfy`), its statistics (`Stats.dfy`), the
counter scaling (`Clock.dfy`) and the step player (`StepPlayer.dfy`).

## Environment contract

* A string is a sequence of bytes, one character each. Verbs are ASCII.
* Close may be repeated. After it, writes fail and no new data is read, but lines already in
  the scanner are still delivered. When a client has ended its side or vanished, no new data
  is read and a write may succeed or fail.
* The scanner returns LF-free lines in order; a line longer than the cap ends the loop. The
  cap is a parameter. Parsing trims CR and LF, so a CR left on a line changes nothing.
* Shutdown is called at most once, after Listen. Accept fails once the listener is closed,
  and may fail at any other time. The context may end at any moment of the select.
* The mutexes exclude as documented. A reader may also pass a waiting writer here, so there
  are more runs than the real RWMutex allows, and what holds of all of them holds of its runs.
  Where a step is claimed to be enabled, `LockAdmits` asks for one that the real lock allows too.
* A browser timer fires at most once and never after it was cleared.
* A JavaScript array has fewer than 2^32 elements; linear memory has at most 2^32 bytes.

## Where the code and its comments differ

The comment at `server/server.go:139-140` says that after Shutdown's critical section every
connection was closed there or refused at the gate. A handler that has already left `conns`
but not yet reached its own Close is neither: `SomeConnectionOpenAtGate` gives such a run.
`SectionClosesAll` is the exact condition, known when Shutdown enters the section: the comment
holds in every run from there just when no handler is between its delete and its Close.
`AllClosedAtGate` is the same for the end of the section, and `OpenAfterGate` says for every
later state which connections are still open. Draining is not affected, because such a
connection still counts in the WaitGroup.

The split at `bench/clock_windows.go:35-37` avoids one overflow and leaves another: a counter
above 9223372037 Hz overflows in the scaled remainder. `NanosIsExact` is the exact condition
for every frequency, and `NanosIsMonotone` shows that above it the clock can run backwards.

`setInt64` at `docs/wasm_exec.js:119-122` rounds its high word down and its low word toward
zero. For a negative number with a fraction whose integer part is a multiple of 2^32 the two
disagree, unless the number is so small that dividing it by 2^32 rounds to zero. `StoresInteger`
is that exact condition for float64s and `HalfBorrows` an input. Lengths and clock readings
since 1970 are not negative.

## Model

| member | source | states |
|---|---|---|
| Linearizability.ServerIsLinearizable | store/store.go:33-56 | Under every interleaving the history of lines and replies is linearizable: some legal sequential run on one map explains every reply and keeps real-time order; the stored map is that run's map. |
| Histories.AgreeingLogLinearizes | server/server.go:96-131 | A legal numbered log that covers the lines read and the replies written on each connection, in real-time order, is a linearization. |
| Effects.EffectStep | store/store.go:33-56 | Every step keeps: one writer or any readers, check-then-delete is atomic, the map is the replay of the log, each handler is where its share of lines, effects and replies says. |
| Effects.AccessEffect | server/server.go:112-131 | The store access under the lock takes effect and answers as the command on the line means, for the map at that moment. |
| Linearizability.RepliesInOrder | server/server.go:95-107 | The i-th reply on a connection answers its i-th line, as of that line's place in the linearization; at most one line read is unanswered. |
| Linearizability.ReadYourWrites | server/server_test.go:95-136 | If only one connection ever writes or deletes a key, its replies on that key are those it would get alone. |
| Linearizability.OwnWriteIsRead | server/server_test.go:95-136 | Then a GET is answered, word for word, by the connection's own last SET or DEL: the value and LF, or (nil). |
| Linearizability.SoleClient | server/server.go:95-131 | A client alone on the concurrent server gets the sequential server's replies. |
| Linearizability.SoleClientMap | server/server.go:95-131 | And the map is the sequential server's, after the lines answered and perhaps the one in progress. |
| Linearizability.Conservation | store/store.go:40-56 | SETs that found a key absent, minus DELs answered "1", is 1 if the key is stored and else 0. |
| Delivery.NoLineIsLost | server/server.go:95-96 | At every point of every run, the lines that reached a connection are those it has read, in order, and then its buffer. |
| Delivery.LeavesOnlyWhenDone | server/server.go:96-107 | A handler leaves its loop only before a line that is too long or on a dead connection, and on the latter it has read every line unless a reply could not be written. |
| Service.ServeLine | server/server.go:96-107 | In every reachable state, a line that fits, at the head of the buffer of an open connection, can be read and its reply written, whatever the others are doing. |
| Service.ReadersShare | store/store.go:33-38 | Two GETs can hold the store lock at once. |
| Service.ServeBuffer | server/server.go:95-107 | And so can the whole buffer, in order. |
| Service.ClientIsServed | server/server.go:54-107 | While Serve is accepting, a new client can be admitted and have all its lines read and answered, and Serve accepts again. |
| Locks.ServerStep | server/server.go:66-91 | Every step keeps the owner of the mutex, conns, the WaitGroup counter and the shutdown stage consistent with all program counters. |
| Draining.AdmissionGate | server/server.go:66-80 | After Shutdown's critical section, over any run, conns gains no member, the WaitGroup never rises and nothing is admitted. |
| Draining.ShutGateHolds | server/server.go:138-147 | Then every admitted connection is closed or its handler is at its own Close, and one not admitted can only be refused and closed. |
| GateClosing.SectionClosesAll | server/server.go:139-147 | Every run of the critical section leaves all admitted connections closed if and only if no handler is between its delete and its Close when Shutdown enters. |
| GateClosing.AllClosedAtGate | server/server.go:141-147 | When the section ends, all admitted connections are closed if and only if no handler is there. |
| GateClosing.OpenAtGate | server/server.go:84-91 | The same for each connection: it is open if and only if its own handler is there. |
| GateClosing.OpenAfterGate | server/server.go:84-91 | In every later state, an admitted connection is open if and only if its handler was there when the section ended and has not moved. |
| GateClosing.CloseStep | server/server.go:66-91 | Every step keeps what the counters say about which connections are closed, before, during and after the section. |
| Draining.SomeConnectionOpenAtGate | server/server.go:139-147 | A run after which an admitted connection is still open when the critical section ends. |
| Draining.ServeReturnsNil | server/server.go:54-65 | From the moment done is closed, Serve can only return nil, if and only if it had not returned an error before. |
| Draining.ServeGoesOn | server/server.go:54-82 | Serve returns an error only after an Accept failed, and nil only after done was closed. |
| Draining.ErrExactly | server/server.go:154-159 | Shutdown returns the context's error if and only if the context ended while it was waiting. |
| Draining.CounterIsExact | server/server.go:77-91 | The WaitGroup counts the admitted handlers that have not run Done, also between Add and the start of the goroutine. |
| Draining.DrainIsSound | server/server.go:149-159 | When Shutdown returns nil, every admitted handler has ended and its connection is closed, conns is empty, and map and history never change again. |
| Termination.DrainIsBounded | server/server.go:141-152 | After the gate the server takes boundedly many steps, whatever clients and scheduler do. |
| Termination.DrainNeverBlocks | server/server.go:84-107 | Until drained, some step other than an accept error or the context ending is enabled, also under a store lock that lets waiting writers hold back readers. |
| Termination.DrainTerminates | server/server.go:149-153 | Every run that cannot be continued by such steps has drained, within the bound, and every connection ever accepted is closed, admitted or refused. |
| Termination.ShutdownReturns | server/server.go:149-159 | By then Shutdown has returned: nil unless the context ended while it was waiting. |
| Termination.ServeReturns | server/server.go:54-65 | When the Accept on the closed listener has failed too, Serve has returned: nil unless it had returned an error before. |
| Termination.DrainIsPossible | server/server.go:149-155 | Such steps alone lead to a drained server and a nil return. |
| Termination.AtMostOneMoreCommand | server/server.go:96-107 | After the gate each connection begins at most one more command, however many lines its scanner holds. |
| Framing.EveryReplyIsOneLine | protocol/protocol.go:58-68 | In every reachable state no LF is stored, no value ends in CR, and every reply is exactly one line. |
| Framing.BridgeTrimsTerminator | cmd/kvstore-web/main.go:77-84 | Trimming CR and LF off a reply removes its terminator only. |
| Protocol.ParseExactly | protocol/protocol.go:31-56 | A line parses to a command exactly when, trimmed, it is that command printed with its verb in any case. |
| Protocol.ParseInLetters | protocol/protocol.go:31-56 | The same letter by letter: three letters that fold to the verb, one space, the operands. |
| Protocol.RefusalText | protocol/protocol.go:33-68 | The text each refused line is answered with, word for word. |
| Protocol.UnquoteQuote | protocol/protocol.go:54 | The quoted verb in a refusal reads back as the verb, in any bytes. |
| Protocol.ParseErrors | protocol/protocol.go:33-55 | Which refusal a refused line gets. |
| Protocol.ImageIsCanonical | protocol/protocol.go:31-56 | The commands Parse can return are exactly those with a non-empty, space-free key whose last field does not end in CR or LF. |
| Protocol.PrintParse | bench/main.go:276-280 | Every such command, printed as the clients print it, parses back to itself. |
| Protocol.ParsePrintParse | protocol/protocol.go:31-56 | Parsing is unchanged by printing the result and parsing again. |
| Protocol.ParseIgnoresEol | protocol/protocol.go:32 | Line terminators at the end never change the result. |
| Protocol.ParseNoLf | protocol/protocol.go:31-68 | A line without LF gives a command without LF and without a trailing CR in its value, or a one-line error reply. |
| AtomicMap.LineKeepsClean | server/server.go:112-131 | Serving one LF-free line keeps the map free of LF and replies with one line. |
| AtomicMap.AnswersSpelledOut | protocol/protocol.go:58-68 | The reply to each command, word for word, for every map. |
| AtomicMap.EffectsSpelledOut | server/server.go:112-131 | What each command leaves under every key. |
| Server.MemoryStore.Get | store/store.go:33-38 | The binding of the key, if any. |
| Server.MemoryStore.Set | store/store.go:40-44 | Binds the key and leaves the others. |
| Server.MemoryStore.Delete | store/store.go:48-56 | Reports whether the key was present, removes it and leaves the others. |
| Server.Handler.Execute | server/server.go:112-131 | The reply and the effect the command means. |
| Server.Handler.Handle | server/server.go:96-107 | The replies written and the final map, when writing fails at any point; the command whose reply was lost has still taken effect. |
| Harness.HarnessNeverMisses | bench/main.go:271-303 | After populate, no client in any interleaving ever gets a miss or an error; each reply is the stored value or OK. |
| Harness.PopulateLeavesExactly | bench/main.go:316-336 | Once populate has its replies the store holds exactly one binding per index, whatever the clients then do: the keys are distinct, there is no other key, and every value is the one value. |
| Harness.Populate | bench/main.go:316-336 | Sends one SET per key, in order. |
| Harness.Run | bench/main.go:271-303 | Sends only lines over the populated keys, and fails at the first unexpected reply and only there. |
| Itoa.Itoa | bench/main.go:359-371 | The decimal form of every non-negative 64-bit int, within the buffer of 20. |
| Itoa.DecimalIsCanonical | bench/main.go:359-371 | Digits only, no leading zero, and it reads back as the number. |
| Itoa.DecimalIsInjective | bench/main.go:359-371 | Different numbers print differently. |
| Itoa.KeysAreDistinct | bench/main.go:316-336 | Different indices make different harness keys. |
| Itoa.FitsBuffer | bench/main.go:363-364 | Nineteen digits suffice below 2^63. |
| Demo.Page.Remember | docs/wasm/main.go:39-49 | Appends a new key unless 64 are remembered. |
| Demo.Page.Rows | docs/wasm/main.go:75-83 | One row per remembered key in the store, in order. |
| Demo.Page.Eval | docs/wasm/main.go:88-118 | The server's reply and effect for the line, and rows drawn from the store. |
| Demo.Page.Session | docs/wasm/main.go:88-118 | Over any lines, the replies and the map of the sequential server. |
| Demo.SeenIsFirstKeys | docs/wasm/main.go:39-49 | The page remembers exactly the first 64 distinct keys ever SET, without duplicates. |
| Demo.KeysSetExactly | docs/wasm/main.go:39-49 | Those keys are the keys of the SETs among the lines, and a new one goes to the end. |
| Demo.RowsAreSubMap | docs/wasm/main.go:75-83 | The rows are always part of the map, no key twice. |
| Demo.CompleteWhenRemembered | docs/wasm/main.go:75-83 | The rows show the whole map exactly when every stored key is remembered. |
| Demo.DrawsWholeMap | docs/wasm/main.go:39-83 | While at most 64 distinct keys have been SET, the rows show the whole map. |
| Demo.DrawsWholeMapExactly | docs/wasm/main.go:39-83 | Without deletions that bound is also necessary. |
| RefTable.Go.StoreValue | docs/wasm_exec.js:147-195 | The table after one more reference, and the word written for it; no other byte changes. |
| RefTable.Go.LoadValue | docs/wasm_exec.js:134-145 | What the word in memory reads as. |
| RefTable.Go.FinalizeRef | docs/wasm_exec.js:313-323 | The table after one reference is given up. |
| RefRuns.EveryRunInv | docs/wasm_exec.js:485-503 | Over every run index and live values are inverse, the pool is exactly the dead ids without duplicates, pinned ids stay, counts are the references outstanding. |
| RefRuns.ApplyInv | docs/wasm_exec.js:147-195 | Each store and each valid finalize keeps those invariants. |
| RefRuns.HeldReadsBack | docs/wasm_exec.js:134-195 | Any word Go still holds reads back as the value stored; every NaN is the one NaN and -0 is 0. |
| RefRuns.HeldTypes | docs/wasm_exec.js:176-193 | The type read off any word Go still holds is the type of the value stored. |
| RefTable.BoxedWords | docs/wasm_exec.js:147-195 | The word written for each kind of value, bit for bit. |
| RefTable.FloatClasses | docs/wasm_exec.js:134-161 | What counts as NaN and as zero, by sign, exponent and fraction. |
| RefRuns.NotReissued | docs/wasm_exec.js:165-175 | A new value never gets an id that an outstanding reference has. |
| RefRuns.SpaceBound | docs/wasm_exec.js:165-175 | The table is 7 plus the largest number of values live at once. |
| LinearMemory.SetU32 | docs/wasm_exec.js:119-126 | The four bytes written, least significant first; they read back and no other byte changes. |
| LinearMemory.SetInt64 | docs/wasm_exec.js:119-122 | What any finite number leaves in memory; no other byte changes. |
| LinearMemory.GetInt64 | docs/wasm_exec.js:128-132 | The signed 64-bit integer in memory. |
| LinearMemory.StoresInteger | docs/wasm_exec.js:119-132 | In range, the two words read back as the integer part if and only if they round alike; an integer always reads back. |
| LinearMemory.HalfBorrows | docs/wasm_exec.js:119-122 | Minus one half reads back as -2^32. |
| ArgLayout.Writer.StrPtr | docs/wasm_exec.js:509-518 | Writes the string and its terminator and advances to the next multiple of 8, or throws when memory ends. |
| ArgLayout.Lay | docs/wasm_exec.js:506-546 | The layout of all strings and the table; throws exactly when it would reach 12288. |
| ArgLayout.ReadsBack | docs/wasm_exec.js:520-539 | For NUL-free strings, reading from argv gives back exactly the arguments, and past their null the environment. |
| ArgLayout.EnvSplits | docs/wasm_exec.js:528-531 | The first '=' of an environment string separates its key from its value. |
| ArgLayout.RegionsDisjoint | docs/wasm_exec.js:509-539 | Pointers are 8-aligned, strings disjoint, and the table behind them all. |
| Clock.SplitIsExact | bench/clock_windows.go:36-37 | Splitting divide and multiply loses nothing. |
| Clock.ExactIsFloor | bench/clock_windows.go:34-37 | The exact time is whole nanoseconds, a billion for every f ticks. |
| Clock.NanosIsExact | bench/clock_windows.go:32-38 | With wrapping arithmetic the result is exact if and only if the exact time and the scaled remainder are int64s, for every frequency. |
| Clock.NanosFits | bench/clock_windows.go:32-38 | Up to 9223372037 Hz the exact time alone decides, and every intermediate fits when it does. |
| Clock.NanosIsMonotone | bench/clock_windows.go:32-38 | While the time fits the clock never runs backwards, if and only if the frequency is at most that. |
| Clock.SecondsBound | bench/clock_windows.go:35-37 | A bound on whole seconds that is enough. |
| Clock.MultiplyFirstOverflows | bench/clock_windows.go:35-36 | Multiplying first is right if and only if the product fits. |
| Stats.Merge | bench/main.go:228-236 | A sorted permutation of all clients' samples, or failure if any client failed. |
| Stats.MergedSize | bench/main.go:228-236 | Its length is clients times ops. |
| Stats.MaxIsLargest | bench/main.go:141-146 | The maximum is one of the samples and none is above it; without samples it is zero. |
| Stats.PctSplits | bench/main.go:150-159 | So many samples are at most the percentile and so many at least, and it is one of the samples. |
| Stats.PctIsPercentile | bench/main.go:148-159 | At least p percent of the samples are at most it, the others at least it. |
| Stats.RankExactly | bench/main.go:150-159 | The rank is p percent of the number of samples, rounded down, or the last. |
| Stats.PctIsMonotone | bench/main.go:141-159 | Percentiles grow with p and never pass the maximum. |
| Stats.RateTimesTime | bench/main.go:139 | Operations per second: the rate times the time is the operations. |
| Stats.SlowerRate | bench/main.go:139 | Of two runs of as many operations the longer has the lower rate. |
| Stats.Repeat | bench/main.go:169-185 | A median run by throughput, and the non-negative spread relative to it. |
| StepPlayer.StepPlayer.DoFire | docs/kit.js:310-324 | A firing advances, or stops on the last step. |
| StepPlayer.StepPlayer.DoPlay | docs/kit.js:336-345 | Starts, from the beginning when on the last step. |
| StepPlayer.StepPlayer.DoGoTo | docs/kit.js:363-370 | Stops the clock and moves to the clamped step. |
| StepPlayer.StepPlayer.DoNext | docs/kit.js:372-376 | Stops the clock and moves on, except on the last step. |
| StepPlayer.StepPlayer.DoPrev | docs/kit.js:378-382 | Stops the clock and moves back, except on the first step. |
| StepPlayer.StepPlayer.DoDestroy | docs/kit.js:438-446 | No timer is left. |
| StepPlayer.NextPrev | docs/kit.js:372-382 | Next and Prev go one step and stop, undo each other, and do nothing at their end. |
| StepPlayer.PlayPause | docs/kit.js:336-361 | Play goes on from the step shown, or from the first when on the last; Pause and a hidden tab stop on the step shown; Toggle undoes itself before the last step. |
| StepPlayer.GoToShows | docs/kit.js:363-370 | Asking for a step in range shows it and stops. |
| StepPlayer.ClampNearest | docs/kit.js:230-236 | Any number asked for goes to the nearest step, halves up, within the range. |
| StepPlayer.DestroyedForGood | docs/kit.js:438-446 | Once destroyed, no event moves or starts it. |
| StepPlayer.AlwaysSound | docs/kit.js:303-382 | Over every sequence of events the index is in range and a timer is pending exactly while playing and not destroyed. |
| StepPlayer.StepSound | docs/kit.js:310-324 | The same for one event; a firing never lowers the index. |
| StepPlayer.AutoplayEnds | docs/kit.js:310-324 | Left alone, playback stops on the last step after exactly total - index firings. |

## Left out

* The server's goroutines are steps on values, not methods of an object: several of them share its fields at once. `Server.dfy` has the object form of what one goroutine runs.
* Partial writes, and how a byte stream is cut into lines: the scanner's contract.
* `errUnhandled`: a command is one of three constructors, so the branch has no counterpart.
* Non-ASCII verbs and white space: case folding and `TrimSpace` beyond ASCII are not modelled; `%q` takes bytes from 0x80 up as printable.
* A writer waiting for the store lock does not hold back new readers here, so runs that the real lock refuses are included; `LockAdmits` covers the claims that this would favour. Starvation before the shutdown is not modelled.
* A final line longer than the cap is only cut off; the scanner's error value is not modelled, as the handler ignores it.
* The HTTP and JSON parts of `cmd/kvstore-web/main.go`, and signal handling in `cmd/kvstore/main.go`: I/O plumbing.
* Floating point rounding in `pct` and `opsPerSec`: percentages and throughputs are reals, and a run takes a positive time.
* The harness's timing, random draws, flag parsing and printing: draws are parameters of `Run`.
* Foreign calls of `docs/wasm_exec.js` (`Reflect`, text encoding, timeouts, `fs`): strings arrive encoded. `keys` of `Lay` stands for what `Object.keys(...).sort()` returns.
* `setInt64` of NaN or an infinity, and the rounding of floating point numbers before it is called.
* Rendering, labels, key handling and mounting in `docs/kit.js`: Home and End are `GoTo`, a listener removed by destroy is an event without effect, and `onRender` does not call back into the player.
