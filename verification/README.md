# Verification of the shutdown protocol and the accept pipelines

This project models, in Dafny, how the server accepts connections, hands them to tasks, and shuts
down gracefully: `serve_http_with_shutdown`, `serve_http_connection`, the two accept streams
`serve_tcp_incoming` and `serve_tls_incoming`, the classification of accept errors, and the
one-shot future `Fuse`. It proves what every interleaving of the server and its connection tasks
keeps, that a shutdown reaches every connection and terminates, and that the concurrent server
serves the same connections as the sequential pipeline.

`dafny verify dfyconfig.toml` checks the whole project.

## How the model is laid out

| file | content |
|---|---|
| `Wrappers.dfy` | `Option`, `Result`, the answer of one poll, and truth as a number |
| `Errors.dfy` | which accept errors are fatal |
| `Streams.dfy` | what the two accept streams yield, as functions of their input, and the laws of those functions |
| `Tcp.dfy`, `Tls.dfy` | the two generators, resumed one poll at a time |
| `Futures.dfy` | futures as poll histories, and `Fuse` |
| `Watch.dfy` | the parts of `tokio::sync::watch` that the server uses |
| `Connection.dfy` | the select loop of one connection: runs of completed selects, and the polled loop |
| `Protocol.dfy` | the whole server as a transition system |
| `Invariants.dfy` | what every step keeps |
| `Shutdown.dfy` | safety of the shutdown over all runs |
| `Drain.dfy` | termination of runs, completion of the drain, absence of deadlock |
| `Independence.dfy` | what the schedule cannot change: commuting steps, confluence, fates |
| `Refinement.dfy` | the concurrent server against the sequential pipeline, and its tasks against the connection loop, run by run and poll by poll |
| `Schedule.dfy` | what the server does under a schedule, as functions of its state |
| `Liveness.dfy` | what comes of a schedule: the signal is heard, what arrives is accepted, polled tasks move on and are told, the drain ends |
| `HttpServer.dfy` | the server as a program with its tasks' connection loops, run under a schedule |

The server exists at three levels. `Protocol.dfy` describes it as states and events; a run is a
sequence of events, each possible where it happens, and results about "every run" quantify over all
such sequences: any number of tasks, any interleaving, any moment of shutdown or cancellation.
`HttpServer.dfy` is the same server with mutable fields and the control flow of the source. Its
invariant says that the steps it has taken form a run of the protocol and led to its present state,
so everything proved of runs holds of it. Its methods are also proved to do, turn by turn, exactly
what `Schedule.dfy` says, which adds to the protocol who runs when and what the polled futures
answer; `Liveness.dfy` proves what follows for whole schedules. The connection loop likewise exists
as runs of completed selects and as a class that polls its three futures; every task of the program
that serves a connection owns such an object and is polled through it, and the program's invariant
keeps the two in step.

Assumptions about what lies outside the crate are written out as definitions:

* `Watch.dfy`: a cloned receiver has seen what the original has seen; `changed()` is ready when the
  version differs from the one seen or the sender is gone; `send` fails only without receivers;
  `closed()` completes when there is no receiver.
* A future is an arbitrary function from the number of a poll to its answer, and it is an error to
  poll it again after it was ready. `Future.PollOnce` and `TcpIncoming.PollNext` demand this of
  their callers, so that no loop of the model polls anything that has completed. Where the answer
  depends on what happens elsewhere, as that of a watcher does on the channel, `Resolve` fixes it
  just before the poll; answers already given stay as they are.
* `select!` polls its branches in an arbitrary order, the first ready branch whose pattern matches
  wins, and a ready branch whose pattern does not match is disabled for the rest of that select.
* Handshakes are an oracle on connections. A handshake whose blocking task fails to join counts as
  rejected. Errors are given after their conversion into the crate's boxed error, which is the
  first thing that is done with them.
* The main future can be dropped where it awaits, that is in the accept loop and in `closed()`.

`Drain.Guaranteed` lists the fairness assumptions of `Drain.dfy`. `Liveness.dfy` assumes none: it says
which schedules are long enough (`Patient`, `Arrives`, `Suffices`, `Complete`).

## Where the code and its documentation differ

The model follows the code.

* `src/tcp.rs:10-12`, `src/tcp.rs:33-36` and the comment at `src/tcp.rs:79-80` say that a fatal
  error terminates the stream. The code yields it and goes on (`src/tcp.rs:81`); the test at
  `src/tcp.rs:226-227` sees the stream end only because its input ends there.
  `Streams.TcpFilterAgainstDocumentation` proves when the two agree, and
  `Streams.StreamOutlivesFatalError` gives an input on which they do not.
* `src/tls.rs:44` and the comment at `src/tls.rs:100` say that a fatal error may end the TLS stream.
  The code never ends it, through either of its error exits.
  `Streams.TlsPipelineAgainstDocumentation` proves when a stream that did end after its first error
  would be the same, and `Streams.StreamOutlivesFatalHandshake` gives an input, through the
  handshake, on which it would not.
* `src/error.rs:20` speaks of terminating the accept loop. `Shutdown.OnlySignalEndsLoop` proves that
  no error does.
* The comment at `src/http.rs:453` speaks of dropping the sender; the code drops main's receiver.
* `src/http.rs:404` clones the receiver even without a signal, because the argument of `then_some`
  is evaluated first, and drops the clone at once. `Protocol.Spawn` does the same.

## Model

| member | source | states |
|---|---|---|
| Errors.HandleAcceptError | src/error.rs:31-57 | exactly four kinds of I/O error are passed over in silence, and every other error comes back unchanged |
| Streams.TcpFilterKeepsOrder | src/tcp.rs:64-85 | the accept stream keeps exactly the items that are not non-fatal errors, unchanged and in order of arrival |
| Streams.TcpFilterConcat | src/tcp.rs:70-84 | filtering distributes over concatenation: what is yielded for an item depends on no other item |
| Streams.TcpFilterIdempotent | src/tcp.rs:70-84 | filtering the filtered stream changes nothing, because a surfaced fatal error is classified fatal again |
| Streams.TcpFilterAgainstDocumentation | src/tcp.rs:35-36 | the documented stream, which ends at the first fatal error, is always a prefix of the real one, and they are equal exactly when only non-fatal errors follow a fatal one |
| Streams.StreamOutlivesFatalError | src/tcp.rs:79-81 | a connection that follows a fatal error is yielded by the code and not by the documented stream |
| Streams.TlsAfterTcp | src/tls.rs:81-122 | the TLS stream over the filtered listener yields the same as over the listener itself |
| Streams.TlsServesAdmitted | src/tls.rs:81-122 | the connections yielded are those whose handshake succeeds, in order of arrival; no earlier error of either kind costs a later connection |
| Streams.TlsConservation | src/tls.rs:83-120 | every input item is yielded as a connection, yielded as an error, or skipped, over both error exits |
| Streams.TlsYieldKinds | src/tls.rs:84-119 | an item is dropped exactly if its error or its handshake's is not fatal, and otherwise becomes the very error of its failed handshake, or itself |
| Streams.TlsPipelineKeepsOrder | src/tls.rs:81-122 | the TLS stream yields exactly the items that are not dropped, in order of arrival, each as itself or as its handshake's own error |
| Streams.TlsPipelineAgainstDocumentation | src/tls.rs:44 | a stream that ended after its first yielded error is always a prefix of the real one, and they are equal exactly when everything after the first fatal accept or handshake error is dropped |
| Streams.StreamOutlivesFatalHandshake | src/tls.rs:94-103 | after a handshake that fails fatally the code yields the error and then the next connection |
| Tcp.TcpIncoming.ReadItem | src/tcp.rs:71-83 | one turn of the loop yields what the filter says for that item, and nothing else |
| Tcp.TcpIncoming.PollNext | src/tcp.rs:64-85 | over any polls the generator has yielded the filter of what it has read; it stops at the first item it can yield and ends exactly when the listener does |
| Tls.TlsIncoming.ReadItem | src/tls.rs:82-119 | an accepted connection starts its handshake, an error is yielded or skipped |
| Tls.TlsIncoming.FinishHandshake | src/tls.rs:85-105 | a finished handshake yields what the stream's function says of its item, which `Streams.TlsYieldKinds` pins down: the connection, or the handshake's own error if that is fatal, or nothing |
| Tls.TlsIncoming.PollNext | src/tls.rs:77-123 | over any polls the generator has yielded the pipeline of the items it has settled, in order, one item per poll, suspended in at most one handshake; it reads nothing that has not arrived, and completes no more handshakes than have resolved, and all of those if it waits for another |
| Futures.Fuse.Poll | src/fuse.rs:25-41 | poll number n answers what a fused future must answer from the inner future's answers alone; the inner future is not polled after its result |
| Futures.FuseHistory | src/fuse.rs:6-7 | over any number of polls: pending, then at most one result, which is the inner future's first, then pending |
| Futures.FuseDelivers | src/fuse.rs:25-41 | a result is delivered if and only if the inner future would ever have one, and never twice |
| Connection.SelectsAreBounded | src/http.rs:119-139 | each completed select uses up exactly one of the remaining chances of connection, timer and signal |
| Connection.RunExact | src/http.rs:119-139 | over any run: the loop is over exactly when the connection has completed, once and last; `graceful_shutdown` calls equal timer firings plus signal firings, each at most once and only if set up |
| Connection.RunBounds | src/http.rs:86-139 | at most three selects complete and `graceful_shutdown` is called at most twice, at most once per future that was set up |
| Connection.RunWithoutAge | src/http.rs:119-139 | without an age the state of the loop determines which selects have completed and in which order: the signal's, if it has fired, then the connection's, if it has completed |
| Connection.WinnerReady | src/http.rs:120-138 | a select completes exactly when a branch is ready, and with the first ready branch of the poll order |
| Connection.HttpConnection.constructor | src/http.rs:101-116 | the loop starts with the given connection, with its signal fusing the given watcher if there is one, and with its timer on the given age if one is set, all of them unpolled |
| Connection.HttpConnection.PollBranch | src/http.rs:120-138 | polls one future, never one that has completed, and disturbs no other |
| Connection.HttpConnection.PollSelect | src/http.rs:120-138 | the first ready branch in the poll order wins, and only its future has completed; no future is polled twice, and all are if none wins |
| Connection.HttpConnection.Handle | src/http.rs:121-137 | the winner's handler restores the invariant: return, re-arm the timer to never, or leave the fused signal spent, and `graceful_shutdown` is never called on a completed connection |
| Connection.HttpConnection.Turn | src/http.rs:119-139 | one poll of the select with its handler takes the loop to the state that the winner's event leads to, or leaves it as it was; a ready signal that loses stays ready |
| Connection.HttpConnection.Serve | src/http.rs:119-141 | from any point of the loop on and under every poll schedule the loop is exact and bounded, and goes on until the connection completes: a future that completes with its answer number n wins once the select has been polled that often and once more per other future that can still fire, unless the connection completes first; so a ready signal is acted on by the next poll of the select, or by the second next if the timer can still fire |
| Invariants.InvTaskStep | src/http.rs:407-444 | every step of a task, through every early return, keeps the invariant that ties channel, tasks and input together |
| Invariants.InvPull | src/http.rs:401-407 | accepting an item keeps the invariant, with one task and, if graceful, one receiver more |
| Invariants.InvMain | src/http.rs:394-400 | leaving the loop, announcing, dropping the receiver, returning and being dropped keep the invariant |
| Invariants.InvReachable | src/http.rs:371-462 | the invariant holds in every state of every run |
| Shutdown.NoticeIsExact | src/http.rs:102-137 | no lost and no false notice: at any stage of any unfinished task its `changed()` is ready if and only if the shutdown is known and the task has not acted on it or the sender is gone; its signal branch can win if and only if the shutdown is known and not acted on; and it has called `graceful_shutdown` once if it has acted, and never otherwise |
| Shutdown.KnownPhases | src/http.rs:450-459 | the shutdown is known exactly from the broadcast on, or once the server future is dropped |
| Shutdown.CancelAnnounces | src/http.rs:103-105 | dropping the server future gives every unfinished task the same notice as the broadcast |
| Shutdown.ReceiversCountTasks | src/http.rs:402-445 | the receiver count is main's receiver plus one per unfinished task |
| Shutdown.ClosedIffQuiescent | src/http.rs:459 | `closed()` can complete exactly when every task ever spawned has finished |
| Shutdown.QuiescentAtReturn | src/http.rs:449-462 | the server returns only with a signal and only when no task is left |
| Shutdown.BroadcastIsHeard | src/http.rs:452 | `send` always finds a receiver, and from then on the shutdown is known |
| Shutdown.BroadcastAtMostOnce | src/http.rs:396-454 | along every run the channel version is the number of broadcasts, at most one, and the input read is the number of items pulled |
| Shutdown.AfterTheLoop | src/http.rs:450-460 | from the break on no task is created, nothing is read, the receiver count never increases, the notice is never withdrawn and finished tasks stay finished |
| Shutdown.OnlySignalEndsLoop | src/http.rs:391-447 | the accept loop is left if and only if the signal fired or the server was dropped: no error, failed task or end of the listener does it |
| Shutdown.SignalAlwaysHeard | src/http.rs:394-401 | while the loop runs, its signal branch is armed exactly if a signal was supplied, even after the listener has ended |
| Shutdown.WithoutSignal | src/http.rs:375-379 | without a signal the server never returns and no connection is ever told to shut down |
| Shutdown.SpawnedIsFiltered | src/http.rs:401-407 | in every reachable state there is exactly one task per item of the filtered input read so far, in order |
| Drain.StepDecreases | src/http.rs:391-460 | every step of main or of a task lowers the rank |
| Drain.RunsAreBounded | src/http.rs:391-460 | no run is longer than the rank of the state it starts from |
| Drain.WholeRunIsBounded | src/http.rs:391-460 | a whole run over n input items takes at most 6n + 5 steps |
| Drain.NoDeadlock | src/http.rs:450-460 | after the break, guaranteed steps run out exactly when all tasks have finished and main has returned or was dropped |
| Drain.DrainCompletes | src/http.rs:449-462 | every maximal run after the break, with any interleaving and with or without cancellation, ends with all tasks finished, and with main returned unless it was dropped |
| Drain.DrainExists | src/http.rs:134-137 | such a run exists by guaranteed steps alone, and in it every connection alive at the break is told to shut down before it ends |
| Independence.TasksCommute | src/http.rs:407-444 | steps of two tasks commute exactly |
| Independence.MainCommutes | src/http.rs:391-460 | in every reachable state a step of main and a step of a task commute exactly, and `closed()` is never possible beside a step of a task |
| Independence.RunsCanBeReordered | src/http.rs:407-444 | exchanging neighbouring steps that commute leaves a run possible and its final state unchanged |
| Independence.MainIsFixed | src/http.rs:371-462 | main's part of the state follows from main's own steps, whatever the tasks do in between |
| Independence.StageIsFixed | src/http.rs:407-444 | how far a task has got follows from its item and its own steps, whatever else happens |
| Independence.InterleavingDoesNotMatter | src/http.rs:371-462 | confluence: two runs in which main does the same and each task does the same lead to the same state, however they are interleaved |
| Independence.FateIsFixed | src/http.rs:408-443 | how a task ends is decided by its item and the handshake oracle alone |
| Independence.FateIgnoresSchedule | src/http.rs:407-444 | two runs on the same input, stopped at any two moments, gave the same items to the tasks they share and end them in the same way |
| Refinement.ServedSoFar | src/http.rs:418-429 | at every moment, connections served plus those owed by unfinished tasks are those the sequential pipeline serves on the input read so far |
| Refinement.ConcurrentIsSequential | src/http.rs:418-462 | when all tasks have finished, and so at return, the connections that got a transport are those `serve_tls_incoming` yields on the input read (with TLS), or `serve_tcp_incoming` (without) |
| Refinement.TasksRunTheLoop | src/http.rs:435-442 | each task's connection goes through a run of the connection loop, without an age and watched exactly if there is a signal |
| Refinement.PollLoop | src/http.rs:101-139 | one poll of the class's select, with the task's `changed()` as its signal future: the winner is the first ready branch of the order, is a step the task can take, and takes loop and task to the same state; a select that stays pending has changed neither, has not found the connection complete, and has missed no shutdown |
| Refinement.ServedConnectionsAreBounded | src/http.rs:435-442 | inside the server a connection goes through at most two selects and is told to shut down at most once |
| Schedule.StepForFits | src/http.rs:407-444 | a polled task takes a step that fits the poll, and takes none exactly when it can take none |
| Liveness.SelectMovesOn | src/http.rs:394-446 | a select of the accept loop that does not leave it has spawned a task, or has polled the signal in vain and read all that has arrived |
| Liveness.SignalEndsLoop | src/http.rs:396-400 | if the supplied signal is ever ready, the accept loop is left by it once main has run often enough, however often it loses to the listener and whatever the tasks do |
| Liveness.OnlyReadySignalEndsLoop | src/http.rs:391-447 | while the signal is pending and nobody drops the server, the accept loop goes on |
| Liveness.ListenerIsHeard | src/http.rs:401-407 | what has arrived gets its tasks, in order, under every schedule that lets main run more often than there are items to yield, unless the loop is left before |
| Liveness.TasksMoveOn | src/http.rs:407-444 | no poll of a task is lost between two statements of main: what the schedule had in store for it, the rest of the schedule has in store for what is left to do |
| Liveness.TasksMoveOnInLoop | src/http.rs:407-444 | the same while main accepts |
| Liveness.WaitingEnds | src/http.rs:459 | `closed()` completes and the server returns if the schedule gives every task, in order, the polls it still waits for, whatever else the schedule holds |
| Liveness.BreakEnds | src/http.rs:449-462 | the same from the break on, through the broadcast and the drop of main's receiver |
| Liveness.PolledIsTold | src/http.rs:134-137 | at the end of the drain every connection whose loop was polled in it has been told to shut down or has completed |
| Liveness.ServerReturns | src/http.rs:352-463 | the whole server returns if its signal is ever ready and the schedule is long enough to reach it and then to finish every task, whatever arrives and in whatever order everything is polled |
| HttpServer.HttpServer.constructor | src/http.rs:371-388 | the program starts in the protocol's initial state, graceful exactly if a signal is supplied, with the supplied signal in its fuse and not polled yet |
| HttpServer.HttpServer.PollSignal | src/http.rs:396-400 | the loop is left exactly if the fused signal answers, and nothing else changes |
| HttpServer.HttpServer.PollIncoming | src/http.rs:401-407 | the accept branch reads what has arrived and no more, up to the first item to yield; it wins exactly when it spawns one task, and is disabled exactly when the listener has ended and all of it is read |
| HttpServer.HttpServer.Spawn | src/http.rs:402-445 | one task more, holding a clone of the receiver exactly if there is a signal, and nothing else changed |
| HttpServer.HttpServer.Accept | src/http.rs:401-407 | the item just yielded gets exactly one task, with that item and, if graceful, main's receiver cloned; reading past the errors before it got none |
| HttpServer.HttpServer.PollAccept | src/http.rs:394-446 | a select won by the signal has spawned and dropped nothing; a ready signal loses only to an accepted item polled before it, and then stays ready; a select that stays pending has read all that has arrived |
| HttpServer.AdvanceTask | src/http.rs:407-444 | the task's code, through its early returns, does to the task exactly what the protocol's step does, and wraps a connection exactly when it starts to serve it |
| HttpServer.HttpServer.MoveTask | src/http.rs:407-444 | the receiver of a task that has ended leaves the channel, and a connection gets its transport, and nothing else changes |
| HttpServer.HttpServer.StepTask | src/http.rs:407-444 | a task's step changes that task, the receiver count if it ends, and nothing else |
| HttpServer.HttpServer.EnterLoop | src/http.rs:435-442 | a task that reaches its connection gets a connection loop of its own, watched by its receiver if it has one and without an age, in step with the task |
| HttpServer.HttpServer.FollowLoop | src/http.rs:120-139 | after a completed select task and loop are in step again, and the task of a completed connection has no loop left |
| HttpServer.HttpServer.PollLoop | src/http.rs:101-139 | polling the loop of task i does what the protocol's step does for the select's winner, to that task alone; if nothing wins, nothing changes, the connection has not completed and the shutdown cannot be noticed |
| HttpServer.HttpServer.LoopIsTraced | src/http.rs:119-139 | at every moment the selects that a task's loop object has completed are, in order, the ones the run of the protocol records for that task |
| HttpServer.HttpServer.PollTask | src/http.rs:407-444 | a polled task takes the step of the first ready branch, or the one step its stage allows, and is left as it was exactly when it can take none |
| HttpServer.HttpServer.RunTasks | src/http.rs:449-454 | between two statements of main every task's turn that comes next is taken, in order |
| HttpServer.HttpServer.Announce | src/http.rs:450-452 | sends if graceful, as in the protocol |
| HttpServer.HttpServer.DropSignalRx | src/http.rs:454 | drops main's receiver and no other |
| HttpServer.HttpServer.Return | src/http.rs:459-462 | returns only when no receiver is left |
| HttpServer.HttpServer.Drop | src/http.rs:371-391 | dropping the server future drops the sender and main's receiver |
| HttpServer.HttpServer.AcceptLoop | src/http.rs:391-447 | the loop does turn by turn what the schedule says; it is left if the server is dropped, and by a signal that is ever ready once main has run often enough, and by nothing else; and as long as it accepts, what has arrived has its tasks |
| HttpServer.HttpServer.AwaitClosed | src/http.rs:459 | waits until no receiver is left, while every task's turn is taken; it returns if the schedule gives every task the polls it still waits for, and stops if the server is dropped |
| HttpServer.HttpServer.WindDown | src/http.rs:449-462 | after the break main announces, drops its receiver and waits: it ends returned, dropped, or with a receiver left, and returned if the schedule gives every task the polls it still waits for |
| HttpServer.HttpServer.ServeHttpWithShutdown | src/http.rs:352-463 | under every schedule, if the server returns then there was a signal, every task has finished, and it has served exactly the connections of the sequential pipeline on the input it has read; if it has not returned, it is still accepting, was dropped, or some task is unfinished; and it does return if the supplied signal is ever ready and the schedule is long enough |

## Left out

- `Transport` (src/io.rs): reading, writing and flushing only dispatch on two cases.
- `load_certs` and `load_private_key` (src/tls.rs:139-170): file I/O and parsing inside a library.
- hyper and rustls: a connection is a future with a result, and a handshake is an oracle; upgraded connections are not followed after the connection future ends.
- tokio: wakers and the scheduler are replaced by arbitrary schedules; that a ready future is polled again at all is assumed only where `Drain.Guaranteed` says so.
- Durations and clocks: the age timer is a future that may fire once, and how long a handshake takes is up to the schedule.
- Task panics and runtime teardown.
- The listener's backlog: connections that arrive after the break stay unread; what their clients see is not modelled.
- `Error` construction, `Debug`, `Display` and `source` (src/error.rs:59-145), and tracing.
