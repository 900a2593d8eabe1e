/** The concurrent server refines two simpler programs: the sequential accept pipeline, in the
    connections it serves, and the connection loop, in what it does to each of them. */
module Refinement {
  import opened Wrappers
  import opened Streams
  import opened Watch
  import opened Protocol
  import opened Invariants
  import opened Shutdown
  import Connection

  // ---------- the concurrent server against the sequential pipeline ----------

  /** The connections served if the items are handled one after the other: with TLS, those that
      `serve_tls_incoming` yields; without, those that `serve_tcp_incoming` yields. */
  function Sequential(setup: Setup, input: seq<Incoming>): seq<Io> {
    if setup.tls then Oks(TlsPipeline(input, setup.handshake)) else Oks(TcpFilter(input))
  }

  /** The connection that an unfinished task is still going to serve. */
  function Owed(setup: Setup, t: Task): multiset<Io> {
    if (t.stage.Spawned? || t.stage.Handshaking?) && Servable(setup, t.item) then multiset{t.item.value} else multiset{}
  }

  function AllOwed(setup: Setup, ts: seq<Task>): multiset<Io> {
    if ts == [] then multiset{} else var n := |ts| - 1; AllOwed(setup, ts[..n]) + Owed(setup, ts[n])
  }

  function IfServable(setup: Setup, item: Incoming): seq<Io> {
    if Servable(setup, item) then [item.value] else []
  }

  /** The servable items, in order. */
  function ServableOf(setup: Setup, items: seq<Incoming>): seq<Io> {
    if items == [] then []
    else var n := |items| - 1; ServableOf(setup, items[..n]) + IfServable(setup, items[n])
  }

  lemma TaskReachedOrOwed(setup: Setup, known: bool, t: Task)
    requires TaskOk(setup, known, t)
    ensures Reached(t) + Owed(setup, t) == multiset(IfServable(setup, t.item))
  {
  }

  lemma Merge(a: multiset<Io>, b: multiset<Io>, s: seq<Io>, c: multiset<Io>, d: multiset<Io>, t: seq<Io>)
    requires a + b == multiset(s) && c + d == multiset(t)
    ensures (a + c) + (b + d) == multiset(s + t)
  {
    assert (a + c) + (b + d) == (a + b) + (c + d);
  }

  lemma {:induction false} ReachedOrOwed(setup: Setup, known: bool, ts: seq<Task>)
    requires TasksOk(setup, known, ts)
    ensures Gather(ts) + AllOwed(setup, ts) == multiset(ServableOf(setup, Items(ts)))
  {
    if ts != [] {
      var n := |ts| - 1;
      var init, t := ts[..n], ts[n];
      ReachedOrOwed(setup, known, init);
      TaskReachedOrOwed(setup, known, t);
      Merge(Gather(init), AllOwed(setup, init), ServableOf(setup, Items(init)),
            Reached(t), Owed(setup, t), IfServable(setup, t.item));
      assert Items(ts)[..n] == Items(init);
    }
  }

  lemma {:induction false} ServableIsSequential(setup: Setup, items: seq<Incoming>)
    ensures ServableOf(setup, items) == if setup.tls then Oks(TlsPipeline(items, setup.handshake)) else Oks(items)
  {
    if items != [] {
      var n := |items| - 1;
      var last := items[n];
      ServableIsSequential(setup, items[..n]);
      assert items == items[..n] + [last];
      if setup.tls {
        TlsPipelineConcat(items[..n], [last], setup.handshake);
        OksConcat(TlsPipeline(items[..n], setup.handshake), TlsPipeline([last], setup.handshake));
        TlsServesFirst(last, [], setup.handshake);
        assert [last] + [] == [last];
      } else {
        OksConcat(items[..n], [last]);
        OksCons(last, []);
        assert [last] + [] == [last];
      }
    }
  }

  /** At every moment of every run, the connections already served, together with those that
      unfinished tasks will still serve, are exactly the ones the sequential pipeline serves on
      the input read so far. */
  lemma ServedSoFar(setup: Setup, s: Server)
    requires Reachable(setup, s)
    ensures s.consumed <= |setup.input|
    ensures s.transports + AllOwed(setup, s.tasks) == multiset(Sequential(setup, setup.input[..s.consumed]))
  {
    InvReachable(setup, s);
    var input := setup.input[..s.consumed];
    ReachedOrOwed(setup, Known(s.channel), s.tasks);
    ServableIsSequential(setup, TcpFilter(input));
    TlsAfterTcp(input, setup.handshake);
  }

  lemma {:induction false} NothingOwed(setup: Setup, ts: seq<Task>)
    requires forall i | 0 <= i < |ts| :: ts[i].stage.Finished?
    ensures AllOwed(setup, ts) == multiset{}
  {
    if ts != [] {
      NothingOwed(setup, ts[..|ts| - 1]);
    }
  }

  /** Once every task has finished, and so in particular when the server returns, the concurrent
      server has served what the sequential pipeline serves, under any schedule and whenever the
      shutdown came. */
  lemma ConcurrentIsSequential(setup: Setup, s: Server)
    requires Reachable(setup, s) && (AllFinished(s) || s.phase.Returned?)
    ensures s.consumed <= |setup.input|
    ensures s.transports == multiset(Sequential(setup, setup.input[..s.consumed]))
  {
    if s.phase.Returned? {
      QuiescentAtReturn(setup, s);
    }
    ServedSoFar(setup, s);
    NothingOwed(setup, s.tasks);
    assert s.transports + multiset{} == s.transports;
  }

  // ---------- the tasks against the connection loop ----------

  /** The selects of task `i` that completed in a run. */
  function SelectsOf(es: seq<Event>, i: nat): seq<ConnEvent> {
    if es == [] then []
    else
      var n := |es| - 1;
      SelectsOf(es[..n], i) +
      (match es[n]
       case Step(j, Http(won)) => if j == i then [won] else []
       case _ => [])
  }

  /** The connection loop of a task that serves or has served. */
  function LoopOf(t: Task): Option<ConnState> {
    match t.stage
    case Serving(c) => Some(c)
    case Finished(Served(c)) => Some(c)
    case _ => None
  }

  /** What task `i` has gone through after the selects `ws`. */
  ghost predicate Follows(setup: Setup, s: Server, i: nat, ws: seq<ConnEvent>) {
    if i < |s.tasks| && LoopOf(s.tasks[i]).Some?
    then Connection.Leads(Connection.Fresh(false, setup.graceful), ws, LoopOf(s.tasks[i]).value)
    else ws == []
  }

  lemma LoopOfStep(setup: Setup, channel: Channel, t: Task, e: TaskEvent)
    requires TaskEnabled(channel, t, e)
    ensures var t' := TaskStep(setup, channel, t, e);
            match e
            case Http(won) => LoopOf(t') == Some(Connection.Apply(t.stage.conn, won))
            case _ => LoopOf(t').Some? ==> LoopOf(t').value == Connection.Fresh(false, t.rx.Some?)
  {
  }

  lemma FollowsStep(setup: Setup, s: Server, i: nat, e: TaskEvent, ws: seq<ConnEvent>)
    requires Inv(setup, s) && Enabled(setup, s, Step(i, e)) && Follows(setup, s, i, ws)
    ensures Follows(setup, Apply(setup, s, Step(i, e)), i, ws + (if e.Http? then [e.won] else []))
  {
    assert TaskOk(setup, Known(s.channel), s.tasks[i]);
    LoopOfStep(setup, s.channel, s.tasks[i], e);
    match e {
      case Http(won) =>
        Connection.LeadsStep(Connection.Fresh(false, setup.graceful), ws, s.tasks[i].stage.conn, won);
      case _ => assert ws + [] == ws;
    }
  }

  /** Inside the server, every task's connection goes through a run of the connection loop, without
      an age and watched exactly if there is a signal: all that holds of the loop's runs holds here. */
  lemma {:induction false} TasksRunTheLoop(setup: Setup, es: seq<Event>, i: nat)
    requires Legal(setup, Init(setup), es)
    ensures Follows(setup, Run(setup, Init(setup), es), i, SelectsOf(es, i))
  {
    if es != [] {
      var n := |es| - 1;
      var s := Run(setup, Init(setup), es[..n]);
      TasksRunTheLoop(setup, es[..n], i);
      if es[n].Step? && es[n].i == i {
        InvInit(setup);
        InvRun(setup, Init(setup), es[..n]);
        FollowsStep(setup, s, i, es[n].e, SelectsOf(es[..n], i));
      } else {
        FollowsOther(setup, s, i, es[n], SelectsOf(es[..n], i));
        assert SelectsOf(es, i) == SelectsOf(es[..n], i);
      }
    }
  }

  lemma FollowsOther(setup: Setup, s: Server, i: nat, e: Event, ws: seq<ConnEvent>)
    requires Enabled(setup, s, e) && !(e.Step? && e.i == i) && Follows(setup, s, i, ws)
    ensures Follows(setup, Apply(setup, s, e), i, ws)
  {
  }

  /** One poll of a task's connection loop, in the state the channel is in: the loop's signal future
      is the `changed()` of the task's receiver. The polled loop and the task stay in step. If a
      branch wins, its event is a step the task can take, and takes both to the same state; if none
      does, neither has changed, the connection has not completed, and no shutdown was missed. */
  method PollLoop(ghost setup: Setup, channel: Channel, t: Task, loop: Connection.HttpConnection,
                  order: seq<Connection.Branch>, answer: Poll<Connection.HttpResult>)
    returns (won: Option<ConnEvent>)
    requires loop.Valid() && LoopOf(t) == Some(loop.State()) && t.stage.Serving? && t.stage.conn.live
    requires t.stage.conn.signalArmed ==> t.rx.Some?
    requires Connection.PollOrder(order)
    modifies loop, loop.signal
    ensures loop.Valid()
    ensures won == Connection.Winner(order, Connection.Readiness(
                     answer.Ready?, old(loop.Ready()).age, TaskEnabled(channel, t, Http(Connection.SignalFired))))
    ensures match won
            case Some(e) =>
              && TaskEnabled(channel, t, Http(e))
              && LoopOf(TaskStep(setup, channel, t, Http(e))) == Some(loop.State())
              && (e.ConnDone? ==> answer.Ready?)
            case None =>
              && LoopOf(t) == Some(loop.State())
              && answer.Pending?
              && !TaskEnabled(channel, t, Http(Connection.SignalFired))
  {
    var changed := t.rx.Some? && channel.Changed(t.rx.value).Ready?;
    loop.Resolve(answer, if changed then Ready(()) else Pending);
    Connection.WinnerReady(order, loop.Ready());
    won := loop.Turn(order);
    if won.Some? {
      LoopOfStep(setup, channel, t, Http(won.value));
    }
  }

  /** So a connection of the server goes through at most two selects, and is told to shut down at
      most once, and not at all without a signal. */
  lemma ServedConnectionsAreBounded(setup: Setup, es: seq<Event>, i: nat)
    requires Legal(setup, Init(setup), es)
    ensures var ws := SelectsOf(es, i);
            && |ws| <= 1 + (if setup.graceful then 1 else 0)
            && Connection.Count(ws, Connection.ConnDone) <= 1
            && Connection.Count(ws, Connection.AgeFired) == 0
            && Connection.Count(ws, Connection.SignalFired) <= (if setup.graceful then 1 else 0)
  {
    TasksRunTheLoop(setup, es, i);
    var ws := SelectsOf(es, i);
    if ws != [] {
      Connection.RunExact(false, setup.graceful, ws);
      Connection.RunBounds(false, setup.graceful, ws);
    }
  }
}
