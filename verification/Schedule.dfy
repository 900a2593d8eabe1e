/** What the server does under a schedule, as functions of its state: one turn after the other, the
    answers of the shutdown signal given. HttpServer.dfy is the program that does it. */
module Schedule {
  import opened Wrappers
  import opened Streams
  import opened Futures
  import opened Protocol
  import opened Invariants
  import Connection

  /** How a task is polled: for the first time, when its handshake has completed, or in its
      connection loop, with the order in which the select polls and what hyper answers. */
  datatype TaskPoll =
    | FirstPoll
    | HandshakeDone
    | LoopPoll(order: seq<Connection.Branch>, answer: Poll<Connection.HttpResult>)

  /** Who runs next: main, with the order in which its select polls and what the listener offers;
      a task; or the owner of the server future, who drops it. */
  datatype Turn =
    | MainTurn(signalFirst: bool, arrived: nat, ended: bool)
    | TaskTurn(i: nat, poll: TaskPoll)
    | DropServer

  predicate PollOk(poll: TaskPoll) {
    poll.LoopPoll? ==> Connection.PollOrder(poll.order)
  }

  /** A turn that can occur: nothing arrives beyond the listener's input, and a select polls each
      of its branches once. */
  predicate TurnOk(setup: Setup, t: Turn) {
    match t
    case MainTurn(_, arrived, _) => arrived <= |setup.input|
    case TaskTurn(_, poll) => PollOk(poll)
    case DropServer => true
  }

  /** The steps a task may take when it is polled in this way. */
  predicate Fits(poll: TaskPoll, e: TaskEvent) {
    match poll
    case FirstPoll => e.Begin?
    case HandshakeDone => e.Handshaken?
    case LoopPoll(_, answer) => e.Http? && (e.won.ConnDone? ==> answer.Ready?)
  }

  /** The server, and how often its signal has been polled. */
  datatype World = World(server: Server, asked: nat)

  /** An event, where it is possible. */
  function Do(setup: Setup, s: Server, e: Event): Server {
    if Enabled(setup, s, e) then Apply(setup, s, e) else s
  }

  // ---------- tasks ----------

  /** The step a task takes when it is polled: in its connection loop, the one of the first branch in
      the poll order that is ready. */
  function StepFor(s: Server, i: nat, poll: TaskPoll): Option<TaskEvent> {
    if i >= |s.tasks| then None
    else
      match (poll, s.tasks[i].stage)
      case (FirstPoll, Spawned) => Some(Begin)
      case (HandshakeDone, Handshaking) => Some(Handshaken)
      case (LoopPoll(order, answer), Serving(_)) =>
        var noticed := TaskEnabled(s.channel, s.tasks[i], Http(Connection.SignalFired));
        (match Connection.Winner(order, Connection.Readiness(answer.Ready?, false, noticed))
         case Some(won) => Some(Http(won))
         case None => None)
      case _ => None
  }

  function AfterPoll(setup: Setup, s: Server, i: nat, poll: TaskPoll): Server {
    match StepFor(s, i, poll)
    case Some(e) => Do(setup, s, Step(i, e))
    case None => s
  }

  /** A polled task takes a step that fits the poll exactly if there is one that it can take. */
  lemma StepForFits(setup: Setup, s: Server, i: nat, poll: TaskPoll)
    requires Inv(setup, s) && PollOk(poll)
    ensures match StepFor(s, i, poll)
            case Some(e) => Fits(poll, e) && Enabled(setup, s, Step(i, e))
            case None => forall e | Fits(poll, e) :: !Enabled(setup, s, Step(i, e))
  {
    if i < |s.tasks| {
      assert TaskOk(setup, Known(s.channel), s.tasks[i]);
      if poll.LoopPoll? {
        var noticed := TaskEnabled(s.channel, s.tasks[i], Http(Connection.SignalFired));
        Connection.WinnerReady(poll.order, Connection.Readiness(poll.answer.Ready?, false, noticed));
      }
    }
  }

  /** The tasks' turns that come next, and the schedule that is left after them. */
  function AfterTasks(setup: Setup, s: Server, turns: seq<Turn>): (Server, seq<Turn>)
    decreases turns
  {
    if turns == [] || !turns[0].TaskTurn? then (s, turns)
    else AfterTasks(setup, AfterPoll(setup, s, turns[0].i, turns[0].poll), turns[1..])
  }

  // ---------- the accept loop ----------

  /** One poll of the accept stream: read what has arrived, up to the first item that is not passed
      over, or find that the stream is over. */
  function AfterListening(setup: Setup, s: Server, arrived: nat, ended: bool): Server
    decreases |setup.input| - s.consumed
  {
    if s.consumed < arrived && Enabled(setup, s, Pull) then
      var read := Apply(setup, s, Pull);
      if TcpYieldOf(setup.input[s.consumed]).Some? then read
      else AfterListening(setup, read, arrived, ended)
    else if ended then Do(setup, s, StreamEnd)
    else s
  }

  /** One poll of the signal. */
  ghost function AfterAsking(setup: Setup, signal: Option<nat -> Poll<()>>, w: World): World {
    World(if FusedAnswer(signal, w.asked).Ready? then Do(setup, w.server, Signal) else w.server, w.asked + 1)
  }

  /** One poll of the select: the signal and the accept stream, one after the other, until one wins. */
  ghost function AfterSelect(setup: Setup, signal: Option<nat -> Poll<()>>, w: World,
                             signalFirst: bool, arrived: nat, ended: bool): World {
    if signalFirst then
      var w' := AfterAsking(setup, signal, w);
      if w'.server.phase.LeftLoop? then w' else w'.(server := AfterListening(setup, w'.server, arrived, ended))
    else
      var s := AfterListening(setup, w.server, arrived, ended);
      if |w.server.tasks| < |s.tasks| then w.(server := s) else AfterAsking(setup, signal, w.(server := s))
  }

  ghost function AfterTurn(setup: Setup, signal: Option<nat -> Poll<()>>, w: World, turn: Turn): World {
    match turn
    case MainTurn(signalFirst, arrived, ended) => AfterSelect(setup, signal, w, signalFirst, arrived, ended)
    case TaskTurn(i, poll) => w.(server := AfterPoll(setup, w.server, i, poll))
    case DropServer => w.(server := Do(setup, w.server, Cancel))
  }

  /** The accept loop, and the schedule that is left when it ends. */
  ghost function AfterAccepting(setup: Setup, signal: Option<nat -> Poll<()>>, w: World, turns: seq<Turn>)
    : (World, seq<Turn>)
    decreases turns
  {
    if turns == [] || !w.server.phase.Accepting? then (w, turns)
    else AfterAccepting(setup, signal, AfterTurn(setup, signal, w, turns[0]), turns[1..])
  }

  // ---------- the shutdown ----------

  /** A turn while main waits for the channel to close. */
  function AfterWait(setup: Setup, s: Server, turn: Turn): Server {
    match turn
    case MainTurn(_, _, _) => s
    case TaskTurn(i, poll) => AfterPoll(setup, s, i, poll)
    case DropServer => Do(setup, s, Cancel)
  }

  /** `signal_tx.closed().await` and the return. */
  function AfterWaiting(setup: Setup, s: Server, turns: seq<Turn>): Server
    decreases turns
  {
    if Enabled(setup, s, Closed) then Apply(setup, s, Closed)
    else if turns == [] || !s.phase.Draining? then s
    else AfterWaiting(setup, AfterWait(setup, s, turns[0]), turns[1..])
  }

  /** What follows the broadcast. */
  function AfterAnnounce(setup: Setup, s: Server, turns: seq<Turn>): Server {
    var (ready, rest) := AfterTasks(setup, s, turns);
    AfterWaiting(setup, Do(setup, ready, DropMainRx), rest)
  }

  /** What follows the accept loop. */
  function AfterBreak(setup: Setup, s: Server, turns: seq<Turn>): Server {
    var (left, rest) := AfterTasks(setup, s, turns);
    var told := Do(setup, left, Announce);
    if setup.graceful then AfterAnnounce(setup, told, rest) else told
  }

  /** The whole server. */
  ghost function AfterAll(setup: Setup, signal: Option<nat -> Poll<()>>, w: World, turns: seq<Turn>): Server {
    var (w', rest) := AfterAccepting(setup, signal, w, turns);
    if w'.server.phase.LeftLoop? then AfterBreak(setup, w'.server, rest) else w'.server
  }
}
