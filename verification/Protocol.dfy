/** The server as a transition system (src/http.rs, `serve_http_with_shutdown`): the main future,
    the watch channel it shares with its connection tasks, and any number of tasks, which
    interleave in any order. */
module Protocol {
  import opened Wrappers
  import opened Streams
  import opened Watch
  import Connection

  type ConnState = Connection.ConnState
  type ConnEvent = Connection.ConnEvent

  /** Everything a run does not choose: whether a signal future was supplied, whether TLS is
      configured, what the listener produces, and how handshakes turn out. */
  datatype Setup = Setup(graceful: bool, tls: bool, input: seq<Incoming>, handshake: Handshake)

  /** Program points of the main future. It can be dropped only where it awaits: in the accept
      loop and while it waits for the channel to close. */
  datatype Phase =
    | Accepting(incomingOpen: bool)   // in the accept loop's select
    | LeftLoop                        // after the break
    | Announced                       // after send
    | Draining                        // after its receiver is dropped, awaiting closed()
    | Returned
    | Cancelled                       // dropped before it returned

  datatype Outcome =
    | AcceptFailed
    | HandshakeFailed
    | Served(conn: ConnState)

  datatype Stage =
    | Spawned
    | Handshaking
    | Serving(conn: ConnState)
    | Finished(outcome: Outcome)

  /** A spawned task: the accept result it was given, and its watch receiver while it lives. */
  datatype Task = Task(item: Incoming, rx: Option<nat>, stage: Stage)

  datatype Server = Server(
    phase: Phase,
    signalArmed: bool,            // whether the fused signal can still fire
    mainRx: Option<nat>,          // main's own receiver, and what it has seen
    channel: Channel,
    consumed: nat,                // how much of the listener's input has been read
    tasks: seq<Task>,             // in the order in which they were spawned
    transports: multiset<Io>      // connections that have been wrapped in a `Transport`
  )

  datatype Event =
    | Pull                        // the accept stream reads one item of the listener
    | StreamEnd                   // the accept stream is over: its branch is disabled
    | Signal                      // the shutdown signal wins the select
    | Announce                    // what follows the loop: send, if graceful
    | DropMainRx
    | Closed                      // closed() completes, and the server returns
    | Cancel                      // the server future is dropped
    | Step(i: nat, e: TaskEvent)  // a step of task i

  datatype TaskEvent =
    | Begin                       // first poll
    | Handshaken                  // the TLS handshake completes
    | Http(won: ConnEvent)        // a select of the connection loop completes

  function Init(setup: Setup): Server {
    var (channel, rx) := NewChannel();
    Server(Accepting(true), setup.graceful, Some(rx), channel, 0, [], multiset{})
  }

  // ---------- one task ----------

  predicate TaskEnabled(channel: Channel, t: Task, e: TaskEvent) {
    match e
    case Begin => t.stage.Spawned?
    case Handshaken => t.stage.Handshaking? && t.item.Ok?
    case Http(won) =>
      && t.stage.Serving?
      && Connection.Enabled(t.stage.conn, won)
      && (won.SignalFired? ==> t.rx.Some? && channel.Changed(t.rx.value).Ready?)
  }

  /** A task that ends drops everything it owns, its receiver included. */
  function Finish(t: Task, outcome: Outcome): Task {
    t.(rx := None, stage := Finished(outcome))
  }

  /** The task wraps its connection in a `Transport` and enters the connection loop. The server
      never sets a maximum connection age. */
  function Serve(t: Task): Task {
    t.(stage := Serving(Connection.Fresh(false, t.rx.Some?)))
  }

  function TaskStep(setup: Setup, channel: Channel, t: Task, e: TaskEvent): Task
    requires TaskEnabled(channel, t, e)
  {
    match e
    case Begin =>
      if t.item.Err? then Finish(t, AcceptFailed)
      else if setup.tls then t.(stage := Handshaking)
      else Serve(t)
    case Handshaken =>
      if setup.handshake(t.item.value).Accepted? then Serve(t) else Finish(t, HandshakeFailed)
    case Http(won) =>
      var conn := Connection.Apply(t.stage.conn, won);
      match won
      case ConnDone => Finish(t, Served(conn))
      case AgeFired => t.(stage := Serving(conn))
      case SignalFired => t.(stage := Serving(conn), rx := Some(channel.Observed(t.rx.value)))
  }

  /** What the step of a task from `t` to `t'` does to the rest of the server: its receiver leaves
      the channel when it is dropped, and its connection gets a transport when it is first served. */
  function Replace(s: Server, i: nat, t': Task): Server
    requires i < |s.tasks|
  {
    var t := s.tasks[i];
    s.(tasks := s.tasks[i := t'],
       channel := if t.rx.Some? && t'.rx.None? then s.channel.DropReceiver() else s.channel,
       transports := s.transports + Wrapped(t, t'))
  }

  function Wrapped(t: Task, t': Task): multiset<Io> {
    if !t.stage.Serving? && t'.stage.Serving? && t.item.Ok? then multiset{t.item.value} else multiset{}
  }

  // ---------- the whole server ----------

  predicate Enabled(setup: Setup, s: Server, e: Event) {
    match e
    case Pull => s.phase == Accepting(true) && s.consumed < |setup.input| && s.mainRx.Some?
    case StreamEnd => s.phase == Accepting(true) && s.consumed == |setup.input|
    case Signal => s.phase.Accepting? && s.signalArmed
    case Announce => s.phase.LeftLoop?
    case DropMainRx => s.phase.Announced?
    case Closed => s.phase.Draining? && s.channel.ClosedReady()
    case Cancel => s.phase.Accepting? || s.phase.Draining?
    case Step(i, e') => i < |s.tasks| && TaskEnabled(s.channel, s.tasks[i], e')
  }

  /** The task for an item the accept stream has yielded. The clone is made even when there is no
      signal to wait for, and is then dropped at once. */
  function Spawn(setup: Setup, s: Server, item: Incoming): Server
    requires s.mainRx.Some?
  {
    var (cloned, rx) := s.channel.Clone(s.mainRx.value);
    if setup.graceful then
      s.(channel := cloned, tasks := s.tasks + [Task(item, Some(rx), Spawned)])
    else
      s.(channel := cloned.DropReceiver(), tasks := s.tasks + [Task(item, None, Spawned)])
  }

  function DropMain(s: Server): Server {
    s.(mainRx := None, channel := if s.mainRx.Some? then s.channel.DropReceiver() else s.channel)
  }

  function DropSender(s: Server): Server {
    s.(channel := s.channel.DropSender())
  }

  function Apply(setup: Setup, s: Server, e: Event): Server
    requires Enabled(setup, s, e)
  {
    match e
    case Pull =>
      var read := s.(consumed := s.consumed + 1);
      (match TcpYieldOf(setup.input[s.consumed])
       case None => read
       case Some(item) => Spawn(setup, read, item))
    case StreamEnd => s.(phase := Accepting(false))
    case Signal => s.(phase := LeftLoop, signalArmed := false)
    case Announce =>
      if setup.graceful then s.(phase := Announced, channel := s.channel.Send().0)
      else DropMain(DropSender(s.(phase := Returned)))
    case DropMainRx => DropMain(s.(phase := Draining))
    case Closed => DropSender(s.(phase := Returned))
    case Cancel => DropMain(DropSender(s.(phase := Cancelled)))
    case Step(i, e') => Replace(s, i, TaskStep(setup, s.channel, s.tasks[i], e'))
  }

  /** Whether the events `es` can happen in this order from `s`. */
  predicate Legal(setup: Setup, s: Server, es: seq<Event>)
    decreases |es|, 0
  {
    es == [] ||
    (var n := |es| - 1; Legal(setup, s, es[..n]) && Enabled(setup, Run(setup, s, es[..n]), es[n]))
  }

  function Run(setup: Setup, s: Server, es: seq<Event>): Server
    requires Legal(setup, s, es)
    decreases |es|, 1
  {
    if es == [] then s else var n := |es| - 1; Apply(setup, Run(setup, s, es[..n]), es[n])
  }

  lemma RunSnoc(setup: Setup, s: Server, es: seq<Event>, e: Event)
    requires Legal(setup, s, es) && Enabled(setup, Run(setup, s, es), e)
    ensures Legal(setup, s, es + [e])
    ensures Run(setup, s, es + [e]) == Apply(setup, Run(setup, s, es), e)
  {
    assert (es + [e])[..|es|] == es;
  }

  lemma {:induction false} RunConcat(setup: Setup, s: Server, a: seq<Event>, b: seq<Event>)
    requires Legal(setup, s, a) && Legal(setup, Run(setup, s, a), b)
    ensures Legal(setup, s, a + b)
    ensures Run(setup, s, a + b) == Run(setup, Run(setup, s, a), b)
  {
    if b == [] {
      assert a + b == a;
    } else {
      var n := |b| - 1;
      var init, e := b[..n], b[n];
      assert b == init + [e];
      RunConcat(setup, s, a, init);
      assert Run(setup, Run(setup, s, a), b) == Apply(setup, Run(setup, Run(setup, s, a), init), e);
      RunSnoc(setup, s, a + init, e);
      assert a + b == (a + init) + [e];
    }
  }

  lemma {:induction false} RunSplit(setup: Setup, s: Server, a: seq<Event>, b: seq<Event>)
    requires Legal(setup, s, a + b)
    ensures Legal(setup, s, a) && Legal(setup, Run(setup, s, a), b)
    ensures Run(setup, s, a + b) == Run(setup, Run(setup, s, a), b)
  {
    if b == [] {
      assert a + b == a;
    } else {
      var n := |b| - 1;
      assert (a + b)[..|a| + n] == a + b[..n];
      RunSplit(setup, s, a, b[..n]);
      assert (a + b)[|a| + n] == b[n];
    }
  }

  /** The states a run from the start goes through: each follows from the one before it by an
      event that is possible there. */
  ghost predicate Path(setup: Setup, es: seq<Event>, ss: seq<Server>) {
    && |ss| == |es| + 1
    && ss[0] == Init(setup)
    && forall k {:trigger es[k]} | 0 <= k < |es| ::
         Enabled(setup, ss[k], es[k]) && ss[k + 1] == Apply(setup, ss[k], es[k])
  }

  /** The run `es` from the start is possible and leads to `s`. */
  ghost predicate Reaches(setup: Setup, es: seq<Event>, s: Server) {
    exists ss: seq<Server> :: Path(setup, es, ss) && ss[|es|] == s
  }

  lemma {:induction false} PathIsRun(setup: Setup, es: seq<Event>, ss: seq<Server>)
    requires Path(setup, es, ss)
    ensures Legal(setup, Init(setup), es) && Run(setup, Init(setup), es) == ss[|es|]
  {
    if es != [] {
      var n := |es| - 1;
      assert forall k | 0 <= k < n :: es[..n][k] == es[k];
      PathIsRun(setup, es[..n], ss[..|es|]);
      assert Enabled(setup, ss[n], es[n]);
    }
  }

  lemma PathLast(setup: Setup, es: seq<Event>, before: seq<Server>, n: nat)
    requires |es| == n + 1 && Path(setup, es[..n], before) && Enabled(setup, before[n], es[n])
    ensures Path(setup, es, before + [Apply(setup, before[n], es[n])])
  {
    var ss := before + [Apply(setup, before[n], es[n])];
    forall k | 0 <= k < |es|
      ensures Enabled(setup, ss[k], es[k]) && ss[k + 1] == Apply(setup, ss[k], es[k])
    {
      if k < n {
        assert es[..n][k] == es[k] && ss[k] == before[k] && ss[k + 1] == before[k + 1];
      }
    }
  }

  lemma {:induction false} RunHasPath(setup: Setup, es: seq<Event>) returns (ss: seq<Server>)
    requires Legal(setup, Init(setup), es)
    ensures Path(setup, es, ss) && ss[|es|] == Run(setup, Init(setup), es)
  {
    if es == [] {
      ss := [Init(setup)];
    } else {
      var n := |es| - 1;
      var before := RunHasPath(setup, es[..n]);
      PathLast(setup, es, before, n);
      ss := before + [Apply(setup, before[n], es[n])];
    }
  }

  /** The two views of a run agree. */
  lemma ReachesIsRun(setup: Setup, es: seq<Event>, s: Server)
    ensures Reaches(setup, es, s) <==> Legal(setup, Init(setup), es) && Run(setup, Init(setup), es) == s
  {
    if Reaches(setup, es, s) {
      var ss :| Path(setup, es, ss) && ss[|es|] == s;
      PathIsRun(setup, es, ss);
    }
    if Legal(setup, Init(setup), es) {
      var ss := RunHasPath(setup, es);
    }
  }

  lemma ReachesStep(setup: Setup, es: seq<Event>, s: Server, e: Event)
    requires Reaches(setup, es, s) && Enabled(setup, s, e)
    ensures Reaches(setup, es + [e], Apply(setup, s, e))
  {
    ReachesIsRun(setup, es, s);
    RunSnoc(setup, Init(setup), es, e);
    ReachesIsRun(setup, es + [e], Apply(setup, s, e));
  }

  lemma ReachesRun(setup: Setup, es: seq<Event>, s: Server, more: seq<Event>)
    requires Reaches(setup, es, s) && Legal(setup, s, more)
    ensures Reaches(setup, es + more, Run(setup, s, more))
  {
    ReachesIsRun(setup, es, s);
    RunConcat(setup, Init(setup), es, more);
    ReachesIsRun(setup, es + more, Run(setup, s, more));
  }

  /** A state that some run from the start reaches. */
  ghost predicate Reachable(setup: Setup, s: Server) {
    exists es: seq<Event> :: Reaches(setup, es, s)
  }
}
