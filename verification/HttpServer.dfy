/** `serve_http_with_shutdown` (src/http.rs) as the program it is: the accept loop, the shutdown
    that follows it, and the tasks that run in between, all under one schedule. */
module HttpServer {
  import opened Wrappers
  import opened Streams
  import opened Tcp
  import opened Futures
  import opened Watch
  import opened Protocol
  import opened Invariants
  import opened Shutdown
  import opened Refinement
  import opened Schedule
  import opened Liveness
  import Connection

  function Pulls(k: nat): seq<Event> {
    seq(k, _ => Pull)
  }

  /** Reading a stretch of non-fatal errors spawns nothing. */
  lemma {:induction false} SkipPulls(setup: Setup, s: Server, k: nat)
    requires s.phase == Accepting(true) && s.mainRx.Some? && s.consumed + k <= |setup.input|
    requires forall j | s.consumed <= j < s.consumed + k :: Skipped(setup.input[j])
    ensures Legal(setup, s, Pulls(k))
    ensures Run(setup, s, Pulls(k)) == s.(consumed := s.consumed + k)
  {
    if k != 0 {
      SkipPulls(setup, s, k - 1);
      assert Pulls(k)[..k - 1] == Pulls(k - 1);
      assert TcpYieldOf(setup.input[s.consumed + k - 1]) == None;
    }
  }

  lemma AllSkippedBetween(input: seq<Incoming>, a: nat, b: nat)
    requires a <= b <= |input| && TcpFilter(input[..b]) == TcpFilter(input[..a])
    ensures forall j | a <= j < b :: Skipped(input[j])
  {
    var between := input[a..b];
    assert input[..a] + between == input[..b];
    TcpFilterConcat(input[..a], between);
    AllSkipped(between);
    forall j | a <= j < b
      ensures Skipped(input[j])
    {
      assert input[j] == between[j - a];
    }
  }

  lemma SnocInjective(a: seq<Incoming>, b: seq<Incoming>, x: Incoming)
    requires a + [x] == b + [x]
    ensures a == b
  {
    assert |a + [x]| == |a| + 1 && |b + [x]| == |b| + 1;
    assert a == (a + [x])[..|a|] == (b + [x])[..|b|] == b;
  }

  /** Reading up to `pos` when nothing comes of it. */
  lemma ReadNothing(setup: Setup, es: seq<Event>, s: Server, pos: nat, was: seq<Incoming>)
    requires Reaches(setup, es, s) && s.phase == Accepting(true) && s.mainRx.Some?
    requires s.consumed <= pos <= |setup.input|
    requires was == TcpFilter(setup.input[..s.consumed]) == TcpFilter(setup.input[..pos])
    ensures Reaches(setup, es + Pulls(pos - s.consumed), s.(consumed := pos))
  {
    AllSkippedBetween(setup.input, s.consumed, pos);
    SkipPulls(setup, s, pos - s.consumed);
    ReachesRun(setup, es, s, Pulls(pos - s.consumed));
  }

  /** Reading up to the end of the listener when nothing comes of it. */
  lemma ReadToEnd(setup: Setup, es: seq<Event>, s: Server, was: seq<Incoming>)
    requires Reaches(setup, es, s) && s.phase == Accepting(true) && s.mainRx.Some?
    requires s.consumed <= |setup.input|
    requires was == TcpFilter(setup.input[..s.consumed]) == TcpFilter(setup.input[..|setup.input|])
    ensures Reaches(setup, es + Pulls(|setup.input| - s.consumed) + [StreamEnd],
                    s.(consumed := |setup.input|, phase := Accepting(false)))
  {
    ReadNothing(setup, es, s, |setup.input|, was);
    ReachesStep(setup, es + Pulls(|setup.input| - s.consumed), s.(consumed := |setup.input|), StreamEnd);
  }

  /** Reading up to `pos` when `item` comes of it, and of the last item read. */
  lemma ReadOne(setup: Setup, es: seq<Event>, s: Server, pos: nat, item: Incoming,
                was: seq<Incoming>, now: seq<Incoming>)
    requires Reaches(setup, es, s) && s.phase == Accepting(true) && s.mainRx.Some?
    requires s.consumed < pos <= |setup.input|
    requires was == TcpFilter(setup.input[..s.consumed]) && now == TcpFilter(setup.input[..pos])
    requires now == was + [item] && TcpYield(setup.input[pos - 1]) == [item]
    ensures Reaches(setup, es + Pulls(pos - s.consumed), Protocol.Spawn(setup, s.(consumed := pos), item))
  {
    var k := pos - s.consumed;
    var last := s.(consumed := pos - 1);
    FilterBefore(setup.input, pos, was, item);
    ReadNothing(setup, es, s, pos - 1, was);
    assert TcpYieldOf(setup.input[pos - 1]) == Some(item);
    ReachesStep(setup, es + Pulls(k - 1), last, Pull);
    assert es + Pulls(k) == es + Pulls(k - 1) + [Pull];
  }

  lemma FilterBefore(input: seq<Incoming>, pos: nat, was: seq<Incoming>, item: Incoming)
    requires 0 < pos <= |input| && TcpFilter(input[..pos]) == was + [item] && TcpYield(input[pos - 1]) == [item]
    ensures TcpFilter(input[..pos - 1]) == was
  {
    TcpFilterSnoc(input, pos - 1);
    SnocInjective(TcpFilter(input[..pos - 1]), was, item);
  }

  // ---------- the accept stream, polled once ----------

  lemma {:induction false} ListeningSkips(setup: Setup, s: Server, pos: nat, arrived: nat, ended: bool)
    requires s.phase == Accepting(true) && s.mainRx.Some?
    requires s.consumed <= pos <= |setup.input| && (pos == s.consumed || pos <= arrived)
    requires forall j | s.consumed <= j < pos :: Skipped(setup.input[j])
    ensures AfterListening(setup, s, arrived, ended) == AfterListening(setup, s.(consumed := pos), arrived, ended)
    decreases pos - s.consumed
  {
    if s.consumed < pos {
      assert Enabled(setup, s, Pull);
      ListeningSkips(setup, s.(consumed := s.consumed + 1), pos, arrived, ended);
    }
  }

  lemma ListensInVain(setup: Setup, s: Server, pos: nat, arrived: nat, ended: bool, was: seq<Incoming>)
    requires s.phase == Accepting(true) && s.mainRx.Some?
    requires s.consumed <= pos <= |setup.input| && (pos == s.consumed || pos <= arrived) && arrived <= pos
    requires was == TcpFilter(setup.input[..s.consumed]) == TcpFilter(setup.input[..pos])
    ensures var read := s.(consumed := pos);
            AfterListening(setup, s, arrived, ended)
            == if ended && pos == |setup.input| then read.(phase := Accepting(false)) else read
  {
    AllSkippedBetween(setup.input, s.consumed, pos);
    ListeningSkips(setup, s, pos, arrived, ended);
  }

  lemma ListensToItem(setup: Setup, s: Server, pos: nat, arrived: nat, ended: bool, item: Incoming,
                      was: seq<Incoming>, now: seq<Incoming>)
    requires s.phase == Accepting(true) && s.mainRx.Some?
    requires s.consumed < pos <= |setup.input| && pos <= arrived
    requires was == TcpFilter(setup.input[..s.consumed]) && now == TcpFilter(setup.input[..pos])
    requires now == was + [item] && TcpYield(setup.input[pos - 1]) == [item]
    ensures AfterListening(setup, s, arrived, ended) == Protocol.Spawn(setup, s.(consumed := pos), item)
  {
    FilterBefore(setup.input, pos, was, item);
    AllSkippedBetween(setup.input, s.consumed, pos - 1);
    ListeningSkips(setup, s, pos - 1, arrived, ended);
    ListensToNext(setup, s.(consumed := pos - 1), arrived, ended, item);
  }

  lemma ListensToNext(setup: Setup, s: Server, arrived: nat, ended: bool, item: Incoming)
    requires s.phase == Accepting(true) && s.mainRx.Some? && s.consumed < |setup.input| && s.consumed < arrived
    requires TcpYield(setup.input[s.consumed]) == [item]
    ensures AfterListening(setup, s, arrived, ended)
         == Protocol.Spawn(setup, s.(consumed := s.consumed + 1), item)
  {
    assert Enabled(setup, s, Pull) && TcpYieldOf(setup.input[s.consumed]) == Some(item);
  }

  /** What a task does between two of its awaits, up to the next: from its first poll to its
      handshake or its connection loop, from there to the connection loop, or through one
      completed select of that loop. Every early end drops the receiver, and a connection is
      wrapped in a transport just before it is served. */
  method AdvanceTask(setup: Setup, channel: Channel, t: Task, e: TaskEvent)
    returns (t': Task, ghost wrapped: multiset<Io>)
    requires TaskEnabled(channel, t, e)
    ensures t' == TaskStep(setup, channel, t, e)
    ensures wrapped == Wrapped(t, t')
  {
    var rx, stage := t.rx, t.stage;
    wrapped := multiset{};
    match e {
      case Begin =>
        match t.item {
          case Err(_) =>
            stage := Finished(AcceptFailed);
          case Ok(io) =>
            if setup.tls {
              stage := Handshaking;
            } else {
              stage := Serving(Connection.Fresh(false, rx.Some?));
              wrapped := multiset{io};
            }
        }
      case Handshaken =>
        match setup.handshake(t.item.value) {
          case Accepted =>
            stage := Serving(Connection.Fresh(false, rx.Some?));
            wrapped := multiset{t.item.value};
          case Rejected(_, _) =>
            stage := Finished(HandshakeFailed);
        }
      case Http(won) =>
        var conn := Connection.Apply(stage.conn, won);
        stage := if won.ConnDone? then Finished(Served(conn)) else Serving(conn);
        if won.SignalFired? {
          rx := Some(channel.Observed(rx.value));
        }
    }
    t' := Task(t.item, if stage.Finished? then None else rx, stage);
  }

  class HttpServer {
    const setup: Setup
    const incoming: TcpIncoming
    const signal: Fuse<()>
    // Where the main future is, its watch receiver, the channel, and the tasks it has spawned.
    var phase: Phase
    var signalRx: Option<nat>
    var channel: Channel
    var tasks: seq<Task>
    // The connection loops of the tasks that serve, and the objects they consist of.
    var loops: map<nat, Connection.HttpConnection>
    ghost var Repr: set<object>
    // The connections wrapped in a transport, and the steps taken so far.
    ghost var transports: multiset<Io>
    ghost var trace: seq<Event>

    ghost function Abs(): Server
      reads this`phase, this`signalRx, this`channel, this`tasks, this`transports, incoming, signal
    {
      Server(phase, signal.inner.Some?, signalRx, channel, incoming.pos, tasks, transports)
    }

    ghost function Now(): World
      reads this`phase, this`signalRx, this`channel, this`tasks, this`transports, incoming, signal
    {
      World(Abs(), |signal.results|)
    }

    /** The steps taken are a run of the protocol, and have led to the present state. */
    ghost predicate Valid()
      reads this`phase, this`signalRx, this`channel, this`tasks, this`transports, this`trace, incoming, signal
    {
      && incoming.Valid() && incoming.input == setup.input
      && signal.Valid()
      && (phase.Accepting? ==> (incoming.finished <==> phase == Accepting(false)))
      && (setup.graceful <==> signal.source.Some?)
      && Reaches(setup, trace, Abs())
    }

    /** Task `j` has a connection loop exactly while it serves, and the two are in step. */
    ghost predicate InStep(j: nat)
      reads this`tasks, this`loops, this`Repr, Repr
    {
      if j in loops then
        && j < |tasks| && tasks[j].stage.Serving?
        && loops[j] in Repr && loops[j].signal in Repr
        && loops[j].Valid() && loops[j].State() == tasks[j].stage.conn
        && loops[j].start == Connection.Fresh(false, setup.graceful)
      else
        j < |tasks| ==> !tasks[j].stage.Serving?
    }

    /** The loops share nothing with each other or with main. */
    ghost predicate Apart()
      reads this`loops, this`Repr
    {
      && this !in Repr && incoming !in Repr && signal !in Repr
      && forall j, k | j in loops && k in loops && j != k ::
           loops[j] != loops[k] && loops[j].signal != loops[k].signal
    }

    ghost predicate LoopsOk()
      reads this`tasks, this`loops, this`Repr, Repr
    {
      Apart() && forall j: nat :: InStep(j)
    }

    /** The same while task `i` and its loop are being moved. */
    ghost predicate LoopsOkBut(i: nat)
      reads this`tasks, this`loops, this`Repr, Repr
    {
      Apart() && forall j: nat | j != i :: InStep(j)
    }

    /** A task that has not moved, or has just been spawned, is still in step with its loop. */
    twostate lemma LoopKept(j: nat)
      requires old(InStep(j)) && old(Repr) <= Repr
      requires j in loops <==> j in old(loops)
      requires j in loops ==> loops[j] == old(loops[j]) && unchanged(loops[j], loops[j].signal)
      requires if j < old(|tasks|) then j < |tasks| && tasks[j] == old(tasks[j])
               else j < |tasks| ==> tasks[j].stage.Spawned?
      ensures InStep(j)
    {
    }

    /** Whether the shutdown signal would be ready if it were polled now. */
    ghost predicate SignalReady()
      reads signal
    {
      FusedAnswer(signal.source, |signal.results|).Ready?
    }

    /** Graceful shutdown is enabled exactly if a signal is supplied. */
    constructor (input: seq<Incoming>, tls: bool, handshake: Handshake, signal: Option<nat -> Poll<()>>)
      ensures Valid() && LoopsOk() && fresh(this.incoming) && fresh(this.signal) && Repr == {}
      ensures setup == Setup(signal.Some?, tls, input, handshake)
      ensures trace == [] && Now() == World(Init(setup), 0)
      ensures this.signal.source == signal
    {
      this.setup := Setup(signal.Some?, tls, input, handshake);
      this.incoming := new TcpIncoming(input);
      this.signal := new Fuse(match signal case Some(f) => Some(Unpolled(f)) case None => None);
      var (c, rx) := NewChannel();
      this.channel, this.signalRx := c, Some(rx);
      this.phase, this.tasks := Accepting(true), [];
      this.loops, this.Repr := map[], {};
      this.transports, this.trace := multiset{}, [];
      new;
      ReachesIsRun(setup, [], Init(setup));
    }

    /** Poll the signal; if it is ready, leave the loop. */
    method PollSignal() returns (left: bool)
      requires Valid() && phase.Accepting?
      modifies this`phase, this`trace, signal`inner, signal`results
      ensures Valid() && left == phase.LeftLoop? == old(SignalReady())
      ensures Now() == AfterAsking(setup, signal.source, old(Now()))
      ensures left ==> trace == old(trace) + [Signal]
      ensures !left ==> phase == old(phase) && trace == old(trace)
    {
      ghost var before := Abs();
      var r := signal.Poll();
      left := r.Ready?;
      if left {
        phase := LeftLoop;
        ReachesStep(setup, trace, before, Signal);
        trace := trace + [Signal];
      }
    }

    /** In the middle of polling the accept stream: it has read on from the state `before`, in which
        it had yielded `was`. */
    ghost predicate Reading(before: Server, was: seq<Incoming>)
      reads this, incoming, signal
    {
      && incoming.Valid() && incoming.input == setup.input
      && signal.Valid() && (setup.graceful <==> signal.source.Some?)
      && Reaches(setup, trace, before)
      && before.phase == Accepting(true) && before.mainRx.Some?
      && before.consumed <= incoming.pos
      && was == TcpFilter(setup.input[..before.consumed])
      && Abs() == before.(consumed := incoming.pos)
    }

    /** Nothing has happened to the tasks but that some may have been spawned. */
    ghost predicate Grown(before: seq<Task>)
      reads this`tasks
    {
      before <= tasks && forall j | |before| <= j < |tasks| :: tasks[j].stage.Spawned?
    }

    /** Spawning leaves the loops as they are. */
    twostate lemma SpawningKeepsLoops()
      requires old(LoopsOk()) && Grown(old(tasks)) && loops == old(loops) && Repr == old(Repr) && unchanged(Repr)
      ensures LoopsOk()
    {
      forall j: nat
        ensures InStep(j)
      {
        assert old(InStep(j));
        LoopKept(j);
      }
    }

    /** Clone the receiver and spawn the item's task with it, or without one if there is no signal. */
    method Spawn(item: Incoming)
      requires signalRx.Some?
      modifies this`channel, this`tasks
      ensures Abs() == Protocol.Spawn(setup, old(Abs()), item)
    {
      var (cloned, rx) := channel.Clone(signalRx.value);
      if setup.graceful {
        channel := cloned;
        tasks := tasks + [Task(item, Some(rx), Spawned)];
      } else {
        channel := cloned.DropReceiver();
        tasks := tasks + [Task(item, None, Spawned)];
      }
    }

    /** The select's accept branch has won: spawn a task for the item. */
    method Accept(item: Incoming, ghost before: Server, ghost was: seq<Incoming>, ghost arrived: nat, ghost ended: bool)
      requires Reading(before, was) && !incoming.finished
      requires before.consumed < incoming.pos && incoming.yielded == was + [item]
      requires TcpYield(setup.input[incoming.pos - 1]) == [item] && incoming.pos <= arrived
      modifies this`channel, this`tasks, this`trace
      ensures Valid() && Abs() == AfterListening(setup, before, arrived, ended)
      ensures tasks == old(tasks) + [Task(item, if setup.graceful then signalRx else None, Spawned)]
    {
      ListensToItem(setup, before, incoming.pos, arrived, ended, item, was, incoming.yielded);
      ReadOne(setup, trace, before, incoming.pos, item, was, incoming.yielded);
      trace := trace + Pulls(incoming.pos - before.consumed);
      Spawn(item);
    }

    /** The accept stream waits for the listener, having perhaps passed over some errors. */
    ghost method KeepWaiting(before: Server, was: seq<Incoming>, arrived: nat, ended: bool)
      requires Reading(before, was) && !incoming.finished && incoming.yielded == was
      requires (incoming.pos == before.consumed || incoming.pos <= arrived) && arrived <= incoming.pos
      requires !(ended && incoming.pos == |setup.input|)
      modifies this`trace
      ensures Valid() && Abs() == AfterListening(setup, before, arrived, ended)
    {
      ghost var pos := incoming.pos;
      assert was == TcpFilter(setup.input[..pos]);
      ReadNothing(setup, trace, before, pos, was);
      ListensInVain(setup, before, pos, arrived, ended, was);
      trace := trace + Pulls(pos - before.consumed);
    }

    /** The accept stream is over: its branch is disabled for the rest of the select. */
    method DisableIncoming(ghost before: Server, ghost was: seq<Incoming>, ghost arrived: nat)
      requires Reading(before, was) && incoming.finished
      requires incoming.pos == |setup.input| && incoming.yielded == was
      requires (incoming.pos == before.consumed || incoming.pos <= arrived) && arrived <= incoming.pos
      modifies this`phase, this`trace
      ensures Valid() && phase == Accepting(false) && Abs() == AfterListening(setup, before, arrived, true)
    {
      ReadToEnd(setup, trace, before, was);
      ListensInVain(setup, before, incoming.pos, arrived, true, was);
      trace := trace + Pulls(incoming.pos - before.consumed) + [StreamEnd];
      phase := Accepting(false);
    }

    /** Poll the accept stream: spawn a task for the item it yields, or disable its branch if it
        is over. */
    method PollIncoming(arrived: nat, ended: bool) returns (won: bool)
      requires Valid() && phase == Accepting(true) && signalRx.Some? && arrived <= |setup.input|
      modifies this`phase, this`channel, this`tasks, this`trace, incoming
      ensures Valid() && phase.Accepting?
      ensures Abs() == AfterListening(setup, old(Abs()), arrived, ended)
      ensures old(incoming.pos) <= incoming.pos && (incoming.pos == old(incoming.pos) || incoming.pos <= arrived)
      ensures !won ==> (phase == Accepting(false) <==> ended && incoming.pos == |setup.input|)
      ensures won ==> phase == Accepting(true)
      ensures !won ==> arrived <= incoming.pos && (phase == Accepting(false) <==> incoming.finished)
      ensures |tasks| == |old(tasks)| + Bit(won) && Grown(old(tasks))
    {
      ghost var before, was := Abs(), incoming.yielded;
      var r := incoming.PollNext(arrived, ended);
      match r {
        case Pending =>
          won := false;
          KeepWaiting(before, was, arrived, ended);
        case Ready(None) =>
          won := false;
          DisableIncoming(before, was, arrived);
        case Ready(Some(item)) =>
          won := true;
          Accept(item, before, was, arrived, ended);
      }
    }

    /** Poll the accept branch, unless it is disabled. */
    method Listen(arrived: nat, ended: bool) returns (won: bool)
      requires Valid() && phase.Accepting? && arrived <= |setup.input|
      modifies this`phase, this`channel, this`tasks, this`trace, incoming
      ensures Valid() && phase.Accepting?
      ensures Abs() == AfterListening(setup, old(Abs()), arrived, ended)
      ensures |tasks| == |old(tasks)| + Bit(won) && Grown(old(tasks))
      ensures !won ==> arrived <= incoming.pos
    {
      MainHolds();
      won := false;
      if phase == Accepting(true) {
        won := PollIncoming(arrived, ended);
      }
    }

    /** One poll of the accept loop's select: its two branches in the order given, until one wins.
        A select won by the signal has spawned nothing and dropped nothing, and a signal that is
        ready loses only to an accepted item; a select that stays pending has read all that has
        arrived. */
    method PollAccept(signalFirst: bool, arrived: nat, ended: bool) returns (left: bool)
      requires Valid() && LoopsOk() && phase.Accepting? && arrived <= |setup.input|
      modifies this`phase, this`channel, this`tasks, this`trace, incoming, signal`inner, signal`results
      ensures Valid() && LoopsOk() && left == phase.LeftLoop? && (!left ==> phase.Accepting?)
      ensures Grown(old(tasks)) && |tasks| <= |old(tasks)| + 1
      ensures Now() == AfterSelect(setup, signal.source, old(Now()), signalFirst, arrived, ended)
      ensures left ==> tasks == old(tasks) && old(SignalReady())
      ensures !left && tasks == old(tasks) ==> arrived <= incoming.pos
      ensures old(SignalReady()) ==> left || (!signalFirst && |tasks| == |old(tasks)| + 1 && SignalReady())
    {
      left := false;
      var won := false;
      if signalFirst {
        left := PollSignal();
      }
      if !left {
        won := Listen(arrived, ended);
      }
      if !signalFirst && !won {
        left := PollSignal();
      }
      SpawningKeepsLoops();
    }

    /** While it accepts, main holds its receiver. */
    lemma MainHolds()
      requires Valid() && phase.Accepting?
      ensures signalRx.Some?
    {
      assert Reachable(setup, Abs());
      InvReachable(setup, Abs());
    }

    /** Put a task in its new place, with what that does to the rest of the server: a task that has
        ended has dropped its receiver. */
    method MoveTask(i: nat, t': Task, ghost wrapped: multiset<Io>)
      requires i < |tasks| && wrapped == Wrapped(tasks[i], t')
      modifies this`channel, this`tasks, this`transports
      ensures Abs() == Replace(old(Abs()), i, t')
    {
      if tasks[i].rx.Some? && t'.rx.None? {
        channel := channel.DropReceiver();
      }
      tasks := tasks[i := t'];
      transports := transports + wrapped;
    }

    /** One step of a task: its first poll, the end of its handshake, or a completed select of its
        connection loop. */
    method StepTask(i: nat, e: TaskEvent)
      requires Valid() && Enabled(setup, Abs(), Step(i, e))
      modifies this`channel, this`tasks, this`transports, this`trace
      ensures Valid() && Abs() == Apply(setup, old(Abs()), Step(i, e))
    {
      ReachesStep(setup, trace, Abs(), Step(i, e));
      trace := trace + [Step(i, e)];
      var t', wrapped := AdvanceTask(setup, channel, tasks[i], e);
      MoveTask(i, t', wrapped);
    }

    /** A connection loop in the server is running, has no age, and has a receiver exactly if there
        is a signal. */
    lemma ServingTask(i: nat)
      requires Valid() && i < |tasks| && tasks[i].stage.Serving?
      ensures var c := tasks[i].stage.conn;
              c.live && !c.ageArmed && (c.signalArmed ==> setup.graceful) && (tasks[i].rx.Some? <==> setup.graceful)
    {
      assert Reachable(setup, Abs());
      InvReachable(setup, Abs());
      assert TaskOk(setup, Known(channel), tasks[i]);
    }

    /** The loop of a task that has just reached it: with the task's receiver for a watcher, and
        without an age. */
    method EnterLoop(i: nat)
      requires LoopsOkBut(i) && i < |tasks| && i !in loops
      requires tasks[i].stage == Serving(Connection.Fresh(false, setup.graceful)) && tasks[i].rx.Some? == setup.graceful
      modifies this`loops, this`Repr
      ensures LoopsOk() && fresh(Repr - old(Repr))
    {
      var watcher := if tasks[i].rx.Some? then Some((n: nat) => Pending) else None;
      var loop := new Connection.HttpConnection((n: nat) => Pending, watcher, None);
      loops, Repr := loops[i := loop], Repr + {loop, loop.signal};
      assert InStep(i);
      forall j: nat | j != i
        ensures InStep(j)
      {
        assert old(InStep(j));
        LoopKept(j);
      }
    }

    /** What happens to one task and its loop leaves the others in step. */
    twostate lemma OthersKept(i: nat)
      requires old(LoopsOkBut(i)) && Repr == old(Repr) && loops.Keys - {i} == old(loops).Keys - {i}
      requires forall j | j in loops && j != i ::
                 j in old(loops) && loops[j] == old(loops)[j] && unchanged(loops[j], loops[j].signal)
      requires i < |tasks| == |old(tasks)| && tasks == old(tasks)[i := tasks[i]]
      requires i in loops ==> i in old(loops) && loops[i] == old(loops)[i]
      ensures LoopsOkBut(i)
    {
      forall j: nat | j != i
        ensures InStep(j)
      {
        assert old(InStep(j));
        assert j in loops <==> j in loops.Keys - {i};
        LoopKept(j);
      }
    }

    /** A step of a task on its way to its connection loop. */
    method TowardsLoop(i: nat, e: TaskEvent)
      requires Valid() && LoopsOk() && Enabled(setup, Abs(), Step(i, e)) && !e.Http?
      modifies this`channel, this`tasks, this`transports, this`trace, this`loops, this`Repr
      ensures Valid() && LoopsOk() && fresh(Repr - old(Repr))
      ensures Abs() == Apply(setup, old(Abs()), Step(i, e))
    {
      assert InStep(i);
      StepTask(i, e);
      OthersKept(i);
      if tasks[i].stage.Serving? {
        ServingTask(i);
        EnterLoop(i);
      }
    }

    /** The task follows its loop through the select that `e` has won, and leaves it if the
        connection has completed. */
    method FollowLoop(i: nat, e: ConnEvent)
      requires Valid() && LoopsOkBut(i) && i in loops && Enabled(setup, Abs(), Step(i, Http(e)))
      requires loops[i] in Repr && loops[i].signal in Repr && loops[i].Valid()
      requires loops[i].start == Connection.Fresh(false, setup.graceful)
      requires LoopOf(TaskStep(setup, channel, tasks[i], Http(e))) == Some(loops[i].State())
      modifies this`channel, this`tasks, this`transports, this`trace, this`loops
      ensures Valid() && LoopsOk()
      ensures Abs() == Apply(setup, old(Abs()), Step(i, Http(e)))
    {
      StepTask(i, Http(e));
      if e.ConnDone? {
        loops := loops - {i};
      }
      OthersKept(i);
      assert InStep(i);
    }

    /** One poll of a task's connection loop. */
    method PollLoop(i: nat, order: seq<Connection.Branch>, answer: Poll<Connection.HttpResult>)
      returns (won: Option<ConnEvent>)
      requires Valid() && LoopsOk() && i in loops && Connection.PollOrder(order)
      modifies this`channel, this`tasks, this`transports, this`trace, this`loops, Repr
      ensures Valid() && LoopsOk()
      ensures won == Connection.Winner(order, Connection.Readiness(
                       answer.Ready?, false, Enabled(setup, old(Abs()), Step(i, Http(Connection.SignalFired)))))
      ensures match won
              case Some(e) =>
                && Enabled(setup, old(Abs()), Step(i, Http(e)))
                && Abs() == Apply(setup, old(Abs()), Step(i, Http(e)))
                && (e.ConnDone? ==> answer.Ready?)
              case None =>
                && Abs() == old(Abs())
                && answer.Pending? && !Enabled(setup, Abs(), Step(i, Http(Connection.SignalFired)))
    {
      assert InStep(i);
      ServingTask(i);
      won := Refinement.PollLoop(setup, channel, tasks[i], loops[i], order, answer);
      OthersKept(i);
      if won.Some? {
        FollowLoop(i, won.value);
      } else {
        assert InStep(i);
      }
    }

    /** The selects that a task's polled loop has completed are the ones the trace says it took. */
    lemma LoopIsTraced(i: nat)
      requires Valid() && LoopsOk() && i in loops
      ensures loops[i].events == SelectsOf(trace, i)
    {
      var start := Connection.Fresh(false, setup.graceful);
      assert InStep(i);
      ServingTask(i);
      ReachesIsRun(setup, trace, Abs());
      TasksRunTheLoop(setup, trace, i);
      assert Connection.Leads(start, SelectsOf(trace, i), tasks[i].stage.conn);
      Connection.RunWithoutAge(setup.graceful, SelectsOf(trace, i));
      Connection.RunWithoutAge(setup.graceful, loops[i].events);
    }

    /** A task's turn. It takes a step that fits the way it is polled, and is left as it was exactly
        if it cannot take such a step. */
    method PollTask(i: nat, poll: TaskPoll) returns (e: Option<TaskEvent>)
      requires Valid() && LoopsOk() && PollOk(poll)
      modifies this`channel, this`tasks, this`transports, this`trace, this`loops, this`Repr, Repr
      ensures Valid() && LoopsOk() && fresh(Repr - old(Repr))
      ensures e == StepFor(old(Abs()), i, poll) && Abs() == AfterPoll(setup, old(Abs()), i, poll)
      ensures match e
              case Some(e') => Fits(poll, e') && Enabled(setup, old(Abs()), Step(i, e'))
              case None => Abs() == old(Abs()) && forall e' | Fits(poll, e') :: !Enabled(setup, Abs(), Step(i, e'))
    {
      e := None;
      PollFits(i, poll);
      if i < |tasks| {
        match (poll, tasks[i].stage) {
          case (FirstPoll, Spawned) =>
            e := Some(Begin);
            TowardsLoop(i, Begin);
          case (HandshakeDone, Handshaking) =>
            e := Some(Handshaken);
            TowardsLoop(i, Handshaken);
          case (LoopPoll(order, answer), Serving(_)) =>
            assert InStep(i);
            var won := PollLoop(i, order, answer);
            e := if won.Some? then Some(Http(won.value)) else None;
          case _ =>
        }
      }
    }

    lemma PollFits(i: nat, poll: TaskPoll)
      requires Valid() && PollOk(poll)
      ensures match StepFor(Abs(), i, poll)
              case Some(e) => Fits(poll, e) && Enabled(setup, Abs(), Step(i, e))
              case None => forall e | Fits(poll, e) :: !Enabled(setup, Abs(), Step(i, e))
    {
      assert Reachable(setup, Abs());
      InvReachable(setup, Abs());
      StepForFits(setup, Abs(), i, poll);
    }

    /** What follows the loop: with a signal, tell every task; without one, return. */
    method Announce()
      requires Valid() && phase.LeftLoop?
      modifies this`phase, this`signalRx, this`channel, this`trace
      ensures Valid() && Abs() == Apply(setup, old(Abs()), Event.Announce)
      ensures phase == if setup.graceful then Announced else Returned
    {
      ghost var after := Apply(setup, Abs(), Event.Announce);
      ReachesStep(setup, trace, Abs(), Event.Announce);
      trace := trace + [Event.Announce];
      if setup.graceful {
        phase := Announced;
        channel := channel.Send().0;
      } else {
        phase := Returned;
        channel := channel.DropSender();
        channel := if signalRx.Some? then channel.DropReceiver() else channel;
        signalRx := None;
      }
      assert Abs() == after;
    }

    /** `drop(signal_rx)`. */
    method DropSignalRx()
      requires Valid() && phase.Announced?
      modifies this`phase, this`signalRx, this`channel, this`trace
      ensures Valid() && Abs() == Apply(setup, old(Abs()), DropMainRx)
      ensures phase == Draining
    {
      ghost var after := Apply(setup, Abs(), DropMainRx);
      ReachesStep(setup, trace, Abs(), DropMainRx);
      trace := trace + [DropMainRx];
      phase := Draining;
      channel := if signalRx.Some? then channel.DropReceiver() else channel;
      signalRx := None;
      assert Abs() == after;
    }

    /** `closed()` has completed: return, which drops the sender. */
    method Return()
      requires Valid() && phase.Draining? && channel.ClosedReady()
      modifies this`phase, this`channel, this`trace
      ensures Valid() && Abs() == Apply(setup, old(Abs()), Closed)
      ensures phase == Returned
    {
      ghost var after := Apply(setup, Abs(), Closed);
      ReachesStep(setup, trace, Abs(), Closed);
      trace := trace + [Closed];
      phase := Returned;
      channel := channel.DropSender();
      assert Abs() == after;
    }

    /** The server future is dropped while it awaits. */
    method Drop()
      requires Valid() && (phase.Accepting? || phase.Draining?)
      modifies this`phase, this`signalRx, this`channel, this`trace
      ensures Valid() && Abs() == Apply(setup, old(Abs()), Cancel)
      ensures phase == Cancelled
    {
      ghost var after := Apply(setup, Abs(), Cancel);
      ReachesStep(setup, trace, Abs(), Cancel);
      trace := trace + [Cancel];
      phase := Cancelled;
      channel := channel.DropSender();
      channel := if signalRx.Some? then channel.DropReceiver() else channel;
      signalRx := None;
      assert Abs() == after;
    }

    /** Let tasks run between two statements of main, as long as it is their turn. */
    method RunTasks(turns: seq<Turn>) returns (rest: seq<Turn>)
      requires Valid() && LoopsOk() && forall t | t in turns :: TurnOk(setup, t)
      modifies this`channel, this`tasks, this`transports, this`trace, this`loops, this`Repr, Repr
      ensures Valid() && LoopsOk() && fresh(Repr - old(Repr))
      ensures (Abs(), rest) == AfterTasks(setup, old(Abs()), turns)
      ensures forall t | t in rest :: t in turns
    {
      rest := turns;
      while rest != [] && rest[0].TaskTurn?
        invariant Valid() && LoopsOk() && fresh(Repr - old(Repr))
        invariant AfterTasks(setup, Abs(), rest) == AfterTasks(setup, old(Abs()), turns)
        invariant forall t | t in rest :: t in turns
      {
        assert TurnOk(setup, rest[0]);
        var _ := PollTask(rest[0].i, rest[0].poll);
        rest := rest[1..];
      }
    }

    lemma AcceptingIsInLoop()
      requires Valid() && phase.Accepting?
      ensures InLoop(setup, signal.source, Now())
    {
      assert Reachable(setup, Abs());
      InvReachable(setup, Abs());
    }

    /** Whether answer number `n` of the supplied signal is `Ready`. */
    ghost predicate SignalFires(n: nat)
      reads signal
    {
      signal.source.Some? && signal.source.value(n).Ready?
    }

    /** What the accept loop owes after the schedule `turns`, which it began in `w`. Unless it is dropped,
        a signal that is ever ready ends it if main has run often enough, and only such a signal does;
        and if it still accepts, what has arrived has its tasks. */
    ghost predicate AcceptedAsPromised(w: World, turns: seq<Turn>)
      reads this`phase, this`tasks, incoming, signal
    {
      && (if DropServer in turns then !phase.Accepting?
          else (forall n: nat | SignalFires(n) && Patient(setup, w, turns, n) :: phase.LeftLoop?)
               && ((forall n: nat :: !SignalFires(n)) ==> phase.Accepting?))
      && forall a: nat | Arrives(setup, w.server, turns, a) ::
           phase.Accepting? ==> a <= incoming.pos && TcpFilter(setup.input[..a]) <= Items(tasks)
    }

    /** One turn of the schedule while main accepts. */
    method AcceptTurn(turn: Turn)
      requires Valid() && LoopsOk() && phase.Accepting? && TurnOk(setup, turn)
      modifies this, incoming, signal`inner, signal`results, Repr
      ensures Valid() && LoopsOk() && fresh(Repr - old(Repr))
      ensures Now() == AfterTurn(setup, signal.source, old(Now()), turn)
      ensures phase.Accepting? || phase.LeftLoop? || (phase.Cancelled? && turn == DropServer)
    {
      match turn {
        case MainTurn(signalFirst, arrived, ended) => var _ := PollAccept(signalFirst, arrived, ended);
        case TaskTurn(i, poll) => var _ := PollTask(i, poll);
        case DropServer => Drop();
      }
    }

    /** The accept loop, until the signal ends it, the server is dropped or the schedule is over. If the
        signal is ever ready it does end it, however often it loses to the listener: main need only run
        often enough. As long as the signal is pending, the loop goes on, and everything that has
        arrived gets its task. */
    method AcceptLoop(turns: seq<Turn>) returns (rest: seq<Turn>)
      requires Valid() && LoopsOk() && phase.Accepting? && forall t | t in turns :: TurnOk(setup, t)
      modifies this, incoming, signal`inner, signal`results, Repr
      ensures Valid() && LoopsOk() && fresh(Repr - old(Repr))
      ensures (Now(), rest) == AfterAccepting(setup, signal.source, old(Now()), turns)
      ensures phase.LeftLoop? || phase.Cancelled? || (phase.Accepting? && rest == [])
      ensures forall t | t in rest :: t in turns
      ensures DropServer !in turns ==> !phase.Cancelled?
      ensures AcceptedAsPromised(old(Now()), turns)
    {
      ghost var w := Now();
      AcceptingIsInLoop();
      rest := turns;
      while rest != [] && phase.Accepting?
        invariant Valid() && LoopsOk() && fresh(Repr - old(Repr))
        invariant phase.Accepting? || phase.LeftLoop? || phase.Cancelled?
        invariant AfterAccepting(setup, signal.source, Now(), rest) == AfterAccepting(setup, signal.source, w, turns)
        invariant DropServer !in turns ==> !phase.Cancelled?
        invariant forall t | t in rest :: t in turns
        decreases |rest|
      {
        AcceptTurn(rest[0]);
        rest := rest[1..];
      }
      AcceptingKeepsPromises(w, turns);
    }

    lemma AcceptingKeepsPromises(w: World, turns: seq<Turn>)
      requires InLoop(setup, signal.source, w) && forall t | t in turns :: TurnOk(setup, t)
      requires AfterAccepting(setup, signal.source, w, turns).0 == Now()
      ensures AcceptedAsPromised(w, turns)
    {
      if DropServer in turns {
        DropIsObeyed(setup, signal.source, w, turns);
      } else {
        OnlyReadySignalEndsLoop(setup, signal.source, w, turns);
        if m: nat :| phase.LeftLoop? && signal.source.value(m).Ready? {
          assert SignalFires(m);
        }
        forall n: nat | SignalFires(n) && Patient(setup, w, turns, n)
          ensures phase.LeftLoop?
        {
          SignalEndsLoop(setup, signal.source, w, turns, n);
        }
      }
      forall a: nat | Arrives(setup, w.server, turns, a)
        ensures phase.Accepting? ==> a <= incoming.pos && TcpFilter(setup.input[..a]) <= Items(tasks)
      {
        ListenerIsHeard(setup, signal.source, w, turns, a);
      }
    }

    /** One turn of the schedule while main waits. */
    method WaitTurn(turn: Turn)
      requires Valid() && LoopsOk() && phase.Draining? && TurnOk(setup, turn)
      modifies this, Repr
      ensures Valid() && LoopsOk() && fresh(Repr - old(Repr))
      ensures Abs() == AfterWait(setup, old(Abs()), turn)
      ensures phase.Draining? || (phase.Cancelled? && turn == DropServer)
    {
      match turn {
        case MainTurn(_, _, _) =>
        case TaskTurn(i, poll) => var _ := PollTask(i, poll);
        case DropServer => Drop();
      }
    }

    lemma WaitingKeepsPromises(turns: seq<Turn>)
      requires Valid() && phase.Draining? && forall t | t in turns :: TurnOk(setup, t)
      ensures var r := AfterWaiting(setup, Abs(), turns);
              if DropServer in turns then !r.phase.Draining?
              else Suffices(setup, Abs(), turns) ==> r.phase.Returned?
    {
      if DropServer in turns {
        DropEndsWaiting(setup, Abs(), turns);
      } else if Suffices(setup, Abs(), turns) {
        assert Reachable(setup, Abs());
        WaitingEnds(setup, Abs(), turns);
      }
    }

    /** `signal_tx.closed().await`, until it completes, the server is dropped or the schedule is over. It
        does complete if the schedule gives every task the polls it waits for. */
    method AwaitClosed(turns: seq<Turn>)
      requires Valid() && LoopsOk() && phase.Draining? && forall t | t in turns :: TurnOk(setup, t)
      modifies this, Repr
      ensures Valid() && LoopsOk() && fresh(Repr - old(Repr))
      ensures Abs() == AfterWaiting(setup, old(Abs()), turns)
      ensures phase.Returned? || phase.Cancelled? || (phase.Draining? && !channel.ClosedReady())
      ensures DropServer !in turns ==> !phase.Cancelled?
      ensures old(Suffices(setup, Abs(), turns)) && DropServer !in turns ==> phase.Returned?
      ensures DropServer in turns ==> !phase.Draining?
    {
      ghost var s := Abs();
      WaitingKeepsPromises(turns);
      var rest := turns;
      while rest != [] && phase.Draining? && !channel.ClosedReady()
        invariant Valid() && LoopsOk() && fresh(Repr - old(Repr)) && (phase.Draining? || phase.Cancelled?)
        invariant AfterWaiting(setup, Abs(), rest) == AfterWaiting(setup, s, turns)
        invariant forall t | t in rest :: t in turns
        invariant DropServer !in turns ==> !phase.Cancelled?
        decreases |rest|
      {
        WaitTurn(rest[0]);
        rest := rest[1..];
      }
      if phase.Draining? && channel.ClosedReady() {
        Return();
      }
    }

    /** What follows the broadcast. */
    method Drain(turns: seq<Turn>)
      requires Valid() && LoopsOk() && phase.Announced? && forall t | t in turns :: TurnOk(setup, t)
      modifies this, Repr
      ensures Valid() && LoopsOk() && fresh(Repr - old(Repr))
      ensures Abs() == AfterAnnounce(setup, old(Abs()), turns)
      ensures phase.Returned? || phase.Cancelled? || (phase.Draining? && !channel.ClosedReady())
      ensures DropServer !in turns ==> !phase.Cancelled?
    {
      var rest := RunTasks(turns);
      DropSignalRx();
      AwaitClosed(rest);
    }

    lemma BreakKeepsPromises(turns: seq<Turn>)
      requires Valid() && phase.LeftLoop? && forall t | t in turns :: TurnOk(setup, t)
      ensures DropServer !in turns && Suffices(setup, Abs(), turns) ==>
                AfterBreak(setup, Abs(), turns).phase.Returned?
    {
      if DropServer !in turns && Suffices(setup, Abs(), turns) {
        assert Reachable(setup, Abs());
        BreakEnds(setup, Abs(), turns);
      }
    }

    /** What follows the accept loop, until the server returns, is dropped or the schedule is over. */
    method WindDown(turns: seq<Turn>)
      requires Valid() && LoopsOk() && phase.LeftLoop? && forall t | t in turns :: TurnOk(setup, t)
      modifies this, Repr
      ensures Valid() && LoopsOk() && fresh(Repr - old(Repr))
      ensures Abs() == AfterBreak(setup, old(Abs()), turns)
      ensures phase.Returned? || phase.Cancelled? || (phase.Draining? && !channel.ClosedReady())
      ensures DropServer !in turns ==> !phase.Cancelled?
      ensures old(Suffices(setup, Abs(), turns)) && DropServer !in turns ==> phase.Returned?
    {
      BreakKeepsPromises(turns);
      var rest := RunTasks(turns);
      Announce();
      if setup.graceful {
        Drain(rest);
      }
    }

    /** The server under a schedule, up to where the schedule ends. If it returns, then there was a
        signal, every task it ever spawned has finished, and the connections it has served are
        exactly those that the sequential pipeline serves on the input it has read. If it has not
        returned by then, it is still accepting, it has been dropped, or some task is unfinished. It
        does return if its signal is ever ready and the schedule is complete up to there and beyond. */
    method ServeHttpWithShutdown(turns: seq<Turn>) returns (returned: bool)
      requires Valid() && LoopsOk() && phase.Accepting? && forall t | t in turns :: TurnOk(setup, t)
      modifies this, incoming, signal`inner, signal`results, Repr
      ensures Valid() && LoopsOk() && fresh(Repr - old(Repr)) && returned == phase.Returned?
      ensures Abs() == AfterAll(setup, signal.source, old(Now()), turns)
      ensures returned ==> setup.graceful && AllFinished(Abs())
      ensures returned ==> transports == multiset(Sequential(setup, setup.input[..incoming.pos]))
      ensures !returned ==> phase.Accepting? || phase.Cancelled? || !AllFinished(Abs())
      ensures DropServer !in turns ==> !phase.Cancelled?
      ensures DropServer !in turns ==>
                forall n: nat | old(SignalFires(n) && Patient(setup, Now(), turns, n)) ::
                  returned || !AllFinished(Abs())
      ensures forall n: nat, k: nat | k <= |turns| ::
                old(SignalFires(n) && Complete(setup, Now(), turns[..k], turns[k..], n)) ==> returned
    {
      ghost var w := Now();
      AcceptingIsInLoop();
      CompleteReturns(w, turns);
      var rest := AcceptLoop(turns);
      if phase.LeftLoop? {
        WindDown(rest);
      }
      returned := phase.Returned?;
      if returned {
        AtReturn();
      } else if phase.Draining? {
        WhileDraining();
      }
    }

    lemma CompleteReturns(w: World, turns: seq<Turn>)
      requires InLoop(setup, signal.source, w)
      ensures forall n: nat, k: nat | k <= |turns| && SignalFires(n) && Complete(setup, w, turns[..k], turns[k..], n) ::
                AfterAll(setup, signal.source, w, turns).phase.Returned?
    {
      forall n: nat, k: nat | k <= |turns| && SignalFires(n) && Complete(setup, w, turns[..k], turns[k..], n)
        ensures AfterAll(setup, signal.source, w, turns).phase.Returned?
      {
        ServerReturns(setup, signal.source, w, turns[..k], turns[k..], n);
        assert turns == turns[..k] + turns[k..];
      }
    }

    lemma WhileDraining()
      requires Valid() && phase.Draining?
      ensures channel.ClosedReady() <==> AllFinished(Abs())
    {
      assert Reachable(setup, Abs());
      ClosedIffQuiescent(setup, Abs());
    }

    lemma AtReturn()
      requires Valid() && phase.Returned?
      ensures setup.graceful && AllFinished(Abs())
      ensures transports == multiset(Sequential(setup, setup.input[..incoming.pos]))
    {
      assert Reachable(setup, Abs());
      QuiescentAtReturn(setup, Abs());
      ConcurrentIsSequential(setup, Abs());
    }
  }
}
