/** What comes of the server under a schedule: a signal is heard, what arrives is accepted, a polled
    task moves on, a connection notices the shutdown, and the drain ends. */
module Liveness {
  import opened Wrappers
  import opened Streams
  import Watch
  import opened Protocol
  import opened Invariants
  import opened Shutdown
  import opened Schedule
  import Connection

  // ---------- single turns ----------

  lemma ReachableDo(setup: Setup, s: Server, e: Event)
    requires Reachable(setup, s)
    ensures Reachable(setup, Do(setup, s, e))
  {
    if Enabled(setup, s, e) {
      ReachableStep(setup, s, e);
    }
  }

  /** The poll of a task touches neither main nor any other task. */
  lemma PollKeeps(setup: Setup, s: Server, i: nat, poll: TaskPoll)
    ensures var r := AfterPoll(setup, s, i, poll);
            && r.phase == s.phase && r.signalArmed == s.signalArmed && r.consumed == s.consumed
            && |r.tasks| == |s.tasks|
            && forall j | 0 <= j < |s.tasks| && j != i :: r.tasks[j] == s.tasks[j]
    ensures Reachable(setup, s) ==> Reachable(setup, AfterPoll(setup, s, i, poll))
  {
    match StepFor(s, i, poll) {
      case Some(e) =>
        if Reachable(setup, s) {
          ReachableDo(setup, s, Step(i, e));
        }
      case None =>
    }
  }

  /** One poll of the accept stream spawns at most one task, and has read all that has arrived if it
      spawns none. */
  lemma {:induction false} ListeningReads(setup: Setup, s: Server, arrived: nat, ended: bool)
    requires Reachable(setup, s) && s.phase.Accepting? && arrived <= |setup.input|
    ensures var r := AfterListening(setup, s, arrived, ended);
            && Reachable(setup, r) && r.phase.Accepting? && r.signalArmed == s.signalArmed
            && s.consumed <= r.consumed
            && s.tasks <= r.tasks && |r.tasks| <= |s.tasks| + 1
            && (|r.tasks| == |s.tasks| ==> arrived <= r.consumed)
    decreases |setup.input| - s.consumed
  {
    InvReachable(setup, s);
    if s.consumed < arrived {
      assert Enabled(setup, s, Pull);
      ReachableStep(setup, s, Pull);
      PullOnly(setup, s, Pull);
      if TcpYieldOf(setup.input[s.consumed]).None? {
        ListeningReads(setup, Apply(setup, s, Pull), arrived, ended);
      }
    } else {
      ReachableDo(setup, s, StreamEnd);
    }
  }

  /** The accept loop at the start of a select. As long as its signal is armed, it is the one that was
      supplied, and all of its answers so far were pending. */
  ghost predicate InLoop(setup: Setup, signal: Option<nat -> Poll<()>>, w: World) {
    && Reachable(setup, w.server) && w.server.phase.Accepting?
    && (setup.graceful <==> signal.Some?)
    && (setup.graceful ==> forall m: nat | m < w.asked :: signal.value(m).Pending?)
  }

  /** The loop after a turn: it goes on, or has been left by the signal's first answer. */
  ghost predicate GoesOn(setup: Setup, signal: Option<nat -> Poll<()>>, w: World, w': World) {
    && w.asked <= w'.asked && |w.server.tasks| <= |w'.server.tasks| && w.server.consumed <= w'.server.consumed
    && Reachable(setup, w'.server)
    && if w'.server.phase.Accepting? then InLoop(setup, signal, w')
       else w'.server.phase.LeftLoop? && signal.Some? && exists m: nat :: m < w'.asked && signal.value(m).Ready?
  }

  lemma AskingHears(setup: Setup, signal: Option<nat -> Poll<()>>, w: World)
    requires InLoop(setup, signal, w)
    ensures GoesOn(setup, signal, w, AfterAsking(setup, signal, w))
    ensures AfterAsking(setup, signal, w).server.phase.LeftLoop? <==> signal.Some? && signal.value(w.asked).Ready?
    ensures AfterAsking(setup, signal, w).server.tasks == w.server.tasks
    ensures AfterAsking(setup, signal, w).server.consumed == w.server.consumed
  {
    InvReachable(setup, w.server);
    ReachableDo(setup, w.server, Signal);
  }

  /** One select of the accept loop that does not leave it has spawned a task, or else has polled the
      signal in vain and read all that has arrived. */
  lemma SelectMovesOn(setup: Setup, signal: Option<nat -> Poll<()>>, w: World,
                      signalFirst: bool, arrived: nat, ended: bool)
    requires InLoop(setup, signal, w) && arrived <= |setup.input|
    ensures var w' := AfterSelect(setup, signal, w, signalFirst, arrived, ended);
            && GoesOn(setup, signal, w, w') && w.server.tasks <= w'.server.tasks
            && |w.server.tasks| + w.asked < |w'.server.tasks| + w'.asked
            && (w'.server.phase.Accepting? && |w'.server.tasks| == |w.server.tasks| ==>
                  w'.asked == w.asked + 1 && arrived <= w'.server.consumed)
  {
    if signalFirst {
      AskingHears(setup, signal, w);
      var w' := AfterAsking(setup, signal, w);
      if w'.server.phase.Accepting? {
        ListeningReads(setup, w'.server, arrived, ended);
      }
    } else {
      ListeningReads(setup, w.server, arrived, ended);
      AskingHears(setup, signal, w.(server := AfterListening(setup, w.server, arrived, ended)));
    }
  }

  lemma TurnMovesOn(setup: Setup, signal: Option<nat -> Poll<()>>, w: World, turn: Turn)
    requires InLoop(setup, signal, w) && TurnOk(setup, turn)
    ensures var w' := AfterTurn(setup, signal, w, turn);
            && (turn != DropServer ==> GoesOn(setup, signal, w, w'))
            && (turn == DropServer ==> !w'.server.phase.Accepting? && !w'.server.phase.LeftLoop?)
            && (turn.MainTurn? ==> |w.server.tasks| + w.asked < |w'.server.tasks| + w'.asked)
            && (turn.MainTurn? && w'.server.phase.Accepting? ==>
                  |w.server.tasks| < |w'.server.tasks| || turn.arrived <= w'.server.consumed)
  {
    match turn {
      case MainTurn(signalFirst, arrived, ended) => SelectMovesOn(setup, signal, w, signalFirst, arrived, ended);
      case TaskTurn(i, poll) => PollKeeps(setup, w.server, i, poll);
      case DropServer =>
    }
  }

  // ---------- the accept loop ----------

  function MainTurns(turns: seq<Turn>): nat {
    if turns == [] then 0 else Bit(turns[0].MainTurn?) + MainTurns(turns[1..])
  }

  lemma TasksAreBounded(setup: Setup, s: Server)
    requires Reachable(setup, s)
    ensures |s.tasks| <= |TcpFilter(setup.input)|
    ensures s.consumed <= |setup.input| && |s.tasks| == |TcpFilter(setup.input[..s.consumed])|
  {
    SpawnedIsFiltered(setup, s);
    SpawnedIsPrefix(setup, s);
    assert |Items(s.tasks)| == |s.tasks|;
  }

  /** Main runs often enough to reach answer number `n` of the signal, even if every item that the
      listener can still yield wins a select before that. */
  ghost predicate Patient(setup: Setup, w: World, turns: seq<Turn>, n: nat) {
    |TcpFilter(setup.input)| + n < |w.server.tasks| + w.asked + MainTurns(turns)
  }

  /** The signal ends the accept loop: if it is ever ready, the loop is left by it, however often it
      loses to the listener and whatever the tasks do, as soon as main has run often enough. */
  lemma {:induction false} SignalEndsLoop(setup: Setup, signal: Option<nat -> Poll<()>>, w: World,
                                          turns: seq<Turn>, n: nat)
    requires InLoop(setup, signal, w) && DropServer !in turns && forall t | t in turns :: TurnOk(setup, t)
    requires signal.Some? && signal.value(n).Ready? && Patient(setup, w, turns, n)
    ensures AfterAccepting(setup, signal, w, turns).0.server.phase.LeftLoop?
    decreases turns
  {
    TasksAreBounded(setup, w.server);
    if turns != [] {
      var w' := AfterTurn(setup, signal, w, turns[0]);
      TurnMovesOn(setup, signal, w, turns[0]);
      if w'.server.phase.Accepting? {
        SignalEndsLoop(setup, signal, w', turns[1..], n);
      } else {
        assert AfterAccepting(setup, signal, w', turns[1..]).0 == w';
      }
    }
  }

  /** Nothing else ends it. While the signal is pending and nobody drops the server, it accepts. */
  lemma {:induction false} OnlyReadySignalEndsLoop(setup: Setup, signal: Option<nat -> Poll<()>>, w: World,
                                                   turns: seq<Turn>)
    requires InLoop(setup, signal, w) && DropServer !in turns && forall t | t in turns :: TurnOk(setup, t)
    ensures var (w', rest) := AfterAccepting(setup, signal, w, turns);
            && Reachable(setup, w'.server)
            && (w'.server.phase.Accepting? || w'.server.phase.LeftLoop?)
            && (w'.server.phase.Accepting? ==> rest == [])
            && (w'.server.phase.LeftLoop? ==> signal.Some? && exists m: nat :: signal.value(m).Ready?)
    decreases turns
  {
    if turns != [] {
      var w' := AfterTurn(setup, signal, w, turns[0]);
      TurnMovesOn(setup, signal, w, turns[0]);
      if w'.server.phase.Accepting? {
        OnlyReadySignalEndsLoop(setup, signal, w', turns[1..]);
      } else {
        assert AfterAccepting(setup, signal, w', turns[1..]) == (w', turns[1..]);
      }
    }
  }

  /** And dropping the server always does. */
  lemma {:induction false} DropIsObeyed(setup: Setup, signal: Option<nat -> Poll<()>>, w: World, turns: seq<Turn>)
    requires InLoop(setup, signal, w) && DropServer in turns && forall t | t in turns :: TurnOk(setup, t)
    ensures !AfterAccepting(setup, signal, w, turns).0.server.phase.Accepting?
    decreases turns
  {
    var w' := AfterTurn(setup, signal, w, turns[0]);
    TurnMovesOn(setup, signal, w, turns[0]);
    if w'.server.phase.Accepting? {
      DropIsObeyed(setup, signal, w', turns[1..]);
    } else {
      assert AfterAccepting(setup, signal, w', turns[1..]).0 == w';
    }
  }

  /** The first `a` items have arrived whenever main polls the listener, and main runs more often than
      there are items to yield among them. */
  ghost predicate Arrives(setup: Setup, s: Server, turns: seq<Turn>, a: nat) {
    && a <= |setup.input|
    && (forall t | t in turns && t.MainTurn? :: a <= t.arrived)
    && (a <= s.consumed || |TcpFilter(setup.input[..a])| < |s.tasks| + MainTurns(turns))
  }

  /** The listener is heard: what has arrived gets its tasks, in order, under every schedule that lets
      main run often enough, unless the loop is left before. */
  lemma {:induction false} ListenerIsHeard(setup: Setup, signal: Option<nat -> Poll<()>>, w: World,
                                           turns: seq<Turn>, a: nat)
    requires InLoop(setup, signal, w) && forall t | t in turns :: TurnOk(setup, t)
    requires Arrives(setup, w.server, turns, a)
    ensures var s := AfterAccepting(setup, signal, w, turns).0.server;
            s.phase.Accepting? ==> a <= s.consumed && TcpFilter(setup.input[..a]) <= Items(s.tasks)
    decreases turns
  {
    if turns == [] {
      ReadIsSpawned(setup, w.server, a);
    } else {
      var w' := AfterTurn(setup, signal, w, turns[0]);
      TurnMovesOn(setup, signal, w, turns[0]);
      if w'.server.phase.Accepting? {
        ListenerIsHeard(setup, signal, w', turns[1..], a);
      } else {
        assert AfterAccepting(setup, signal, w', turns[1..]).0 == w';
      }
    }
  }

  lemma FilterGrows(input: seq<Incoming>, a: nat, b: nat)
    requires a <= b <= |input|
    ensures TcpFilter(input[..a]) <= TcpFilter(input[..b])
  {
    TcpFilterPrefix(input[..b], a);
    assert input[..b][..a] == input[..a];
  }

  lemma ReadIsSpawned(setup: Setup, s: Server, a: nat)
    requires Reachable(setup, s) && a <= |setup.input|
    requires a <= s.consumed || |TcpFilter(setup.input[..a])| < |s.tasks|
    ensures a <= s.consumed && TcpFilter(setup.input[..a]) <= Items(s.tasks)
  {
    TasksAreBounded(setup, s);
    SpawnedIsFiltered(setup, s);
    if a <= s.consumed {
      FilterGrows(setup.input, a, s.consumed);
    } else {
      FilterGrows(setup.input, s.consumed, a);
    }
  }

  // ---------- the tasks ----------

  /** What an unfinished task waits for: its first poll, its handshake, and a poll of its connection
      loop that finds the connection complete, or two of them if the shutdown may win one. */
  datatype Chore = ToStart | ToShakeHands | ToComplete

  function Completions(armed: bool): seq<Chore> {
    if armed then [ToComplete, ToComplete] else [ToComplete]
  }

  /** From the handshake on, if there is one. */
  function ChoresAfterTls(setup: Setup, item: Incoming): seq<Chore> {
    if Servable(setup, item) then Completions(setup.graceful) else []
  }

  function SpawnedChores(setup: Setup, item: Incoming): seq<Chore> {
    if item.Err? then [ToStart]
    else if setup.tls then [ToStart] + ([ToShakeHands] + ChoresAfterTls(setup, item))
    else [ToStart] + ChoresAfterTls(setup, item)
  }

  function Chores(setup: Setup, t: Task): seq<Chore> {
    match t.stage
    case Spawned => SpawnedChores(setup, t.item)
    case Handshaking => [ToShakeHands] + ChoresAfterTls(setup, t.item)
    case Serving(c) => Completions(c.signalArmed)
    case Finished(_) => []
  }

  predicate Serves(poll: TaskPoll, chore: Chore) {
    match chore
    case ToStart => poll.FirstPoll?
    case ToShakeHands => poll.HandshakeDone?
    case ToComplete => poll.LoopPoll? && poll.answer.Ready?
  }

  /** The schedule gives task `j` the polls it waits for, in this order, among any others. */
  predicate Enough(turns: seq<Turn>, j: nat, cs: seq<Chore>)
    decreases turns
  {
    cs == [] ||
    (turns != [] &&
     if turns[0].TaskTurn? && turns[0].i == j && Serves(turns[0].poll, cs[0])
     then Enough(turns[1..], j, cs[1..])
     else Enough(turns[1..], j, cs))
  }

  /** Who waits for less needs no more. */
  lemma {:induction false} EnoughForRest(turns: seq<Turn>, j: nat, cs: seq<Chore>)
    requires Enough(turns, j, cs) && cs != []
    ensures Enough(turns, j, cs[1..])
    decreases turns
  {
    if |cs| > 1 {
      if turns[0].TaskTurn? && turns[0].i == j && Serves(turns[0].poll, cs[0]) {
        EnoughForRest(turns[1..], j, cs[1..]);
      } else {
        EnoughForRest(turns[1..], j, cs);
        EnoughForRest(turns[1..], j, cs[1..]);
      }
    }
  }

  lemma {:induction false} EnoughForSuffix(turns: seq<Turn>, j: nat, cs: seq<Chore>, k: nat)
    requires Enough(turns, j, cs) && k <= |cs|
    ensures Enough(turns, j, cs[k..])
  {
    if k == 0 {
      assert cs[0..] == cs;
    } else {
      EnoughForSuffix(turns, j, cs, k - 1);
      EnoughForRest(turns, j, cs[k - 1..]);
      assert cs[k - 1..][1..] == cs[k..];
    }
  }

  /** Polls that come before do no harm. */
  lemma {:induction false} EnoughAfter(more: seq<Turn>, turns: seq<Turn>, j: nat, cs: seq<Chore>)
    requires Enough(turns, j, cs)
    ensures Enough(more + turns, j, cs)
    decreases more
  {
    if more == [] {
      assert more + turns == turns;
    } else if cs != [] {
      assert (more + turns)[1..] == more[1..] + turns;
      EnoughForRest(turns, j, cs);
      EnoughAfter(more[1..], turns, j, cs);
      EnoughAfter(more[1..], turns, j, cs[1..]);
    }
  }

  lemma DropFirst(c: Chore, cs: seq<Chore>)
    ensures ([c] + cs)[1..] == cs
  {
  }

  /** Every step of a task brings it forward. */
  lemma ChoresOfStep(setup: Setup, channel: Watch.Channel, t: Task, e: TaskEvent) returns (k: nat)
    requires TaskOk(setup, Known(channel), t) && TaskEnabled(channel, t, e)
    ensures 1 <= k <= |Chores(setup, t)| && Chores(setup, TaskStep(setup, channel, t, e)) == Chores(setup, t)[k..]
  {
    var rest := ChoresAfterTls(setup, t.item);
    match e {
      case Begin =>
        k := 1;
        DropFirst(ToStart, rest);
        DropFirst(ToStart, [ToShakeHands] + rest);
      case Handshaken =>
        k := 1;
        DropFirst(ToShakeHands, rest);
      case Http(won) =>
        k := if won.ConnDone? then |Chores(setup, t)| else 1;
    }
  }

  /** A poll brings a task forward if it is the one the task waits for, and never back. */
  lemma PollDoesChore(setup: Setup, s: Server, i: nat, poll: TaskPoll, j: nat) returns (k: nat)
    requires Inv(setup, s) && PollOk(poll) && j < |s.tasks|
    ensures j < |AfterPoll(setup, s, i, poll).tasks|
    ensures var cs := Chores(setup, s.tasks[j]);
            && k <= |cs| && Chores(setup, AfterPoll(setup, s, i, poll).tasks[j]) == cs[k..]
            && (i == j && cs != [] && Serves(poll, cs[0]) ==> 1 <= k)
  {
    var cs := Chores(setup, s.tasks[j]);
    PollKeeps(setup, s, i, poll);
    StepForFits(setup, s, i, poll);
    if i == j && StepFor(s, i, poll).Some? {
      assert TaskOk(setup, Known(s.channel), s.tasks[j]);
      k := ChoresOfStep(setup, s.channel, s.tasks[j], StepFor(s, i, poll).value);
    } else {
      k := 0;
      if i == j && cs != [] && Serves(poll, cs[0]) {
        ChoreIsStep(setup, s, j, poll);
      }
    }
  }

  /** A poll that a task waits for finds a step. */
  lemma ChoreIsStep(setup: Setup, s: Server, j: nat, poll: TaskPoll)
    requires Inv(setup, s) && PollOk(poll) && j < |s.tasks|
    requires Chores(setup, s.tasks[j]) != [] && Serves(poll, Chores(setup, s.tasks[j])[0])
    ensures StepFor(s, j, poll).Some?
  {
    assert TaskOk(setup, Known(s.channel), s.tasks[j]);
    if poll.LoopPoll? {
      var noticed := TaskEnabled(s.channel, s.tasks[j], Http(Connection.SignalFired));
      Connection.WinnerReady(poll.order, Connection.Readiness(true, false, noticed));
    }
  }

  /** The schedule gives every task what it waits for. */
  ghost predicate Suffices(setup: Setup, s: Server, turns: seq<Turn>) {
    forall j | 0 <= j < |s.tasks| :: Enough(turns, j, Chores(setup, s.tasks[j]))
  }

  lemma PollSuffices(setup: Setup, s: Server, turns: seq<Turn>, j: nat)
    requires Inv(setup, s) && turns != [] && turns[0].TaskTurn? && PollOk(turns[0].poll)
    requires j < |s.tasks| && Enough(turns, j, Chores(setup, s.tasks[j]))
    ensures var r := AfterPoll(setup, s, turns[0].i, turns[0].poll);
            j < |r.tasks| && Enough(turns[1..], j, Chores(setup, r.tasks[j]))
  {
    var cs := Chores(setup, s.tasks[j]);
    var k := PollDoesChore(setup, s, turns[0].i, turns[0].poll, j);
    if cs != [] {
      if turns[0].i == j && Serves(turns[0].poll, cs[0]) {
        EnoughForSuffix(turns[1..], j, cs[1..], k - 1);
        assert cs[1..][k - 1..] == cs[k..];
      } else {
        EnoughForSuffix(turns[1..], j, cs, k);
      }
    }
  }

  /** No turn of a task is lost between two statements of main: what the schedule had in store for a
      task, the rest of it has in store for what is left to do. */
  lemma {:induction false} TasksMoveOn(setup: Setup, s: Server, turns: seq<Turn>)
    requires Reachable(setup, s) && forall t | t in turns :: TurnOk(setup, t)
    ensures var (r, rest) := AfterTasks(setup, s, turns);
            && Reachable(setup, r) && r.phase == s.phase && |r.tasks| == |s.tasks|
            && (forall t | t in rest :: t in turns)
            && forall j | 0 <= j < |s.tasks| && Enough(turns, j, Chores(setup, s.tasks[j])) ::
                 Enough(rest, j, Chores(setup, r.tasks[j]))
    decreases turns
  {
    if turns != [] && turns[0].TaskTurn? {
      var s' := AfterPoll(setup, s, turns[0].i, turns[0].poll);
      InvReachable(setup, s);
      assert TurnOk(setup, turns[0]);
      PollKeeps(setup, s, turns[0].i, turns[0].poll);
      forall j | 0 <= j < |s.tasks| && Enough(turns, j, Chores(setup, s.tasks[j]))
        ensures Enough(turns[1..], j, Chores(setup, s'.tasks[j]))
      {
        PollSuffices(setup, s, turns, j);
      }
      TasksMoveOn(setup, s', turns[1..]);
    }
  }

  lemma TurnSuffices(setup: Setup, signal: Option<nat -> Poll<()>>, w: World, turns: seq<Turn>, j: nat)
    requires InLoop(setup, signal, w) && turns != [] && TurnOk(setup, turns[0])
    requires j < |w.server.tasks| && Enough(turns, j, Chores(setup, w.server.tasks[j]))
    ensures var r := AfterTurn(setup, signal, w, turns[0]).server;
            j < |r.tasks| && Enough(turns[1..], j, Chores(setup, r.tasks[j]))
  {
    match turns[0] {
      case MainTurn(signalFirst, arrived, ended) => SelectMovesOn(setup, signal, w, signalFirst, arrived, ended);
      case TaskTurn(i, poll) =>
        InvReachable(setup, w.server);
        PollSuffices(setup, w.server, turns, j);
      case DropServer =>
    }
  }

  /** Nor is one lost while main accepts. */
  lemma {:induction false} TasksMoveOnInLoop(setup: Setup, signal: Option<nat -> Poll<()>>, w: World,
                                             turns: seq<Turn>, j: nat)
    requires InLoop(setup, signal, w) && forall t | t in turns :: TurnOk(setup, t)
    requires j < |w.server.tasks| && Enough(turns, j, Chores(setup, w.server.tasks[j]))
    ensures var (w', rest) := AfterAccepting(setup, signal, w, turns);
            j < |w'.server.tasks| && Enough(rest, j, Chores(setup, w'.server.tasks[j]))
    decreases turns
  {
    if turns != [] {
      var w' := AfterTurn(setup, signal, w, turns[0]);
      TurnMovesOn(setup, signal, w, turns[0]);
      TurnSuffices(setup, signal, w, turns, j);
      if w'.server.phase.Accepting? {
        TasksMoveOnInLoop(setup, signal, w', turns[1..], j);
      } else {
        assert AfterAccepting(setup, signal, w', turns[1..]) == (w', turns[1..]);
      }
    }
  }

  // ---------- the drain ----------

  lemma NothingLeftToDo(setup: Setup, s: Server)
    requires Suffices(setup, s, [])
    ensures AllFinished(s)
  {
    forall j | 0 <= j < |s.tasks|
      ensures s.tasks[j].stage.Finished?
    {
      assert Enough([], j, Chores(setup, s.tasks[j]));
    }
  }

  /** The drain ends. If the schedule gives every task the polls it waits for, then the server
      returns, whatever else the schedule holds and in whatever order. */
  lemma {:induction false} WaitingEnds(setup: Setup, s: Server, turns: seq<Turn>)
    requires Reachable(setup, s) && s.phase.Draining? && Suffices(setup, s, turns)
    requires DropServer !in turns && forall t | t in turns :: TurnOk(setup, t)
    ensures AfterWaiting(setup, s, turns).phase.Returned?
    decreases turns
  {
    if !Enabled(setup, s, Closed) {
      if turns == [] {
        NothingLeftToDo(setup, s);
        ClosedIffQuiescent(setup, s);
        assert false;
      } else {
        var s' := AfterWait(setup, s, turns[0]);
        InvReachable(setup, s);
        assert TurnOk(setup, turns[0]);
        match turns[0] {
          case MainTurn(_, _, _) =>
          case TaskTurn(i, poll) =>
            PollKeeps(setup, s, i, poll);
            forall j | 0 <= j < |s'.tasks|
              ensures Enough(turns[1..], j, Chores(setup, s'.tasks[j]))
            {
              PollSuffices(setup, s, turns, j);
            }
        }
        WaitingEnds(setup, s', turns[1..]);
      }
    }
  }

  /** Dropping the server ends the wait as well. */
  lemma {:induction false} DropEndsWaiting(setup: Setup, s: Server, turns: seq<Turn>)
    requires s.phase.Draining? && DropServer in turns
    ensures !AfterWaiting(setup, s, turns).phase.Draining?
    decreases turns
  {
    if !Enabled(setup, s, Closed) {
      match turns[0] {
        case MainTurn(_, _, _) =>
        case TaskTurn(i, poll) => PollKeeps(setup, s, i, poll);
        case DropServer =>
      }
      if turns[0] != DropServer {
        DropEndsWaiting(setup, AfterWait(setup, s, turns[0]), turns[1..]);
      }
    }
  }

  /** From the break on: main announces the shutdown and drops its receiver, while the tasks may
      already run, and then the drain ends. */
  lemma BreakEnds(setup: Setup, s: Server, turns: seq<Turn>)
    requires Reachable(setup, s) && s.phase.LeftLoop? && Suffices(setup, s, turns)
    requires DropServer !in turns && forall t | t in turns :: TurnOk(setup, t)
    ensures AfterBreak(setup, s, turns).phase.Returned?
  {
    InvReachable(setup, s);
    var (left, turns') := AfterTasks(setup, s, turns);
    TasksMoveOn(setup, s, turns);
    var told := Do(setup, left, Announce);
    ReachableDo(setup, left, Announce);
    var (ready, turns'') := AfterTasks(setup, told, turns');
    TasksMoveOn(setup, told, turns');
    ReachableDo(setup, ready, DropMainRx);
    WaitingEnds(setup, Do(setup, ready, DropMainRx), turns'');
  }

  lemma ChoresOfItem(setup: Setup, s: Server, j: nat) returns (k: nat)
    requires Reachable(setup, s) && j < |s.tasks| && j < |TcpFilter(setup.input)|
    ensures var cs := SpawnedChores(setup, TcpFilter(setup.input)[j]);
            k <= |cs| && Chores(setup, s.tasks[j]) == cs[k..]
  {
    InvReachable(setup, s);
    SpawnedIsPrefix(setup, s);
    assert s.tasks[j].item == Items(s.tasks)[j] == TcpFilter(setup.input)[j];
    assert TaskOk(setup, Known(s.channel), s.tasks[j]);
    k := |SpawnedChores(setup, s.tasks[j].item)| - |Chores(setup, s.tasks[j])|;
  }

  lemma {:induction false} AcceptingInParts(setup: Setup, signal: Option<nat -> Poll<()>>, w: World,
                                            before: seq<Turn>, after: seq<Turn>)
    requires !AfterAccepting(setup, signal, w, before).0.server.phase.Accepting?
    ensures var (w', rest) := AfterAccepting(setup, signal, w, before);
            AfterAccepting(setup, signal, w, before + after) == (w', rest + after)
    decreases before
  {
    if before == [] || !w.server.phase.Accepting? {
      assert before == [] ==> before + after == after;
    } else {
      assert (before + after)[1..] == before[1..] + after;
      AcceptingInParts(setup, signal, AfterTurn(setup, signal, w, before[0]), before[1..], after);
    }
  }

  /** A schedule in two parts. In the first, main runs often enough to reach answer number `n` of the
      signal; in the second, every task that the listener can have brought gets the polls it waits for
      from its spawning on. */
  ghost predicate Complete(setup: Setup, w: World, before: seq<Turn>, after: seq<Turn>, n: nat) {
    && Patient(setup, w, before, n)
    && DropServer !in before + after
    && (forall t | t in before + after :: TurnOk(setup, t))
    && forall j | 0 <= j < |TcpFilter(setup.input)| ::
         Enough(after, j, SpawnedChores(setup, TcpFilter(setup.input)[j]))
  }

  /** The whole server returns, if its signal is ever ready and the schedule is complete: whatever
      arrives, however handshakes and connections turn out, and in whatever order everything is polled. */
  lemma ServerReturns(setup: Setup, signal: Option<nat -> Poll<()>>, w: World,
                      before: seq<Turn>, after: seq<Turn>, n: nat)
    requires InLoop(setup, signal, w) && signal.Some? && signal.value(n).Ready?
    requires Complete(setup, w, before, after, n)
    ensures AfterAll(setup, signal, w, before + after).phase.Returned?
  {
    assert forall t | t in before :: t in before + after;
    SignalEndsLoop(setup, signal, w, before, n);
    AcceptingInParts(setup, signal, w, before, after);
    var (w', rest) := AfterAccepting(setup, signal, w, before);
    OnlyReadySignalEndsLoop(setup, signal, w, before);
    RestIsPart(setup, signal, w, before);
    TasksAreBounded(setup, w'.server);
    forall j | 0 <= j < |w'.server.tasks|
      ensures Enough(rest + after, j, Chores(setup, w'.server.tasks[j]))
    {
      var cs := SpawnedChores(setup, TcpFilter(setup.input)[j]);
      var k := ChoresOfItem(setup, w'.server, j);
      EnoughForSuffix(after, j, cs, k);
      EnoughAfter(rest, after, j, cs[k..]);
    }
    BreakEnds(setup, w'.server, rest + after);
  }

  lemma {:induction false} RestIsPart(setup: Setup, signal: Option<nat -> Poll<()>>, w: World, turns: seq<Turn>)
    ensures forall t | t in AfterAccepting(setup, signal, w, turns).1 :: t in turns
    decreases turns
  {
    if turns != [] && w.server.phase.Accepting? {
      RestIsPart(setup, signal, AfterTurn(setup, signal, w, turns[0]), turns[1..]);
    }
  }

  // ---------- the notice ----------

  /** The task has been told to shut down, or has ended. */
  predicate Told(t: Task) {
    t.stage.Finished? || Acted(t)
  }

  lemma PollTells(setup: Setup, s: Server, i: nat, poll: TaskPoll, j: nat)
    requires Reachable(setup, s) && setup.graceful && Known(s.channel) && PollOk(poll)
    requires j < |s.tasks| && (s.tasks[j].stage.Serving? || s.tasks[j].stage.Finished?)
    ensures var r := AfterPoll(setup, s, i, poll);
            && j < |r.tasks| && (r.tasks[j].stage.Serving? || r.tasks[j].stage.Finished?)
            && (Told(s.tasks[j]) || (i == j && poll.LoopPoll?) ==> Told(r.tasks[j]))
  {
    InvReachable(setup, s);
    PollKeeps(setup, s, i, poll);
    StepForFits(setup, s, i, poll);
    assert TaskOk(setup, Known(s.channel), s.tasks[j]);
    if i == j && s.tasks[j].stage.Serving? && !Acted(s.tasks[j]) && poll.LoopPoll? {
      NoticeIsExact(setup, s, j);
    }
  }

  /** Once the shutdown is known, a connection notices it the next time it is polled, whatever the poll
      order and whatever else is ready: at the end of the drain each connection whose loop was polled
      in it has been told to shut down, or has completed. */
  lemma {:induction false} PolledIsTold(setup: Setup, s: Server, turns: seq<Turn>, j: nat)
    requires Reachable(setup, s) && s.phase.Draining? && j < |s.tasks|
    requires s.tasks[j].stage.Serving? || s.tasks[j].stage.Finished?
    requires DropServer !in turns && forall t | t in turns :: TurnOk(setup, t)
    requires Told(s.tasks[j]) || exists t :: t in turns && t.TaskTurn? && t.i == j && t.poll.LoopPoll?
    ensures var r := AfterWaiting(setup, s, turns); j < |r.tasks| && Told(r.tasks[j])
    decreases turns
  {
    InvReachable(setup, s);
    if Enabled(setup, s, Closed) {
      ClosedIffQuiescent(setup, s);
    } else if turns != [] {
      assert TurnOk(setup, turns[0]);
      match turns[0] {
        case MainTurn(_, _, _) =>
        case TaskTurn(i, poll) =>
          PollKeeps(setup, s, i, poll);
          PollTells(setup, s, i, poll, j);
      }
      PolledIsTold(setup, AfterWait(setup, s, turns[0]), turns[1..], j);
    }
  }
}
