/** Safety of the shutdown protocol over all runs. */
module Shutdown {
  import opened Wrappers
  import opened Streams
  import opened Watch
  import opened Protocol
  import opened Invariants
  import Connection

  predicate AllFinished(s: Server) {
    forall i | 0 <= i < |s.tasks| :: s.tasks[i].stage.Finished?
  }

  function Unfinished(t: Task): int { Bit(!t.stage.Finished?) }

  /** The shutdown is known exactly once main has sent it or has been dropped. */
  lemma KnownPhases(setup: Setup, s: Server)
    requires Reachable(setup, s)
    ensures Known(s.channel) <==> s.phase.Announced? || s.phase.Draining? || s.phase.Returned? || s.phase.Cancelled?
  {
    InvReachable(setup, s);
  }

  /** A task in its connection loop whose signal branch has fired. */
  predicate Acted(t: Task) {
    t.stage.Serving? && !t.stage.conn.signalArmed
  }

  /** A task that has acted on the shutdown has seen the channel's present version. */
  predicate HasSeen(version: nat, t: Task) {
    Acted(t) && t.rx.Some? ==> t.rx.value == version
  }

  ghost predicate ActedHaveSeen(s: Server) {
    forall i | 0 <= i < |s.tasks| :: HasSeen(s.channel.version, s.tasks[i])
  }

  lemma TaskStepHasSeen(setup: Setup, channel: Channel, t: Task, e: TaskEvent)
    requires TaskEnabled(channel, t, e) && HasSeen(channel.version, t)
    ensures HasSeen(channel.version, TaskStep(setup, channel, t, e))
  {
  }

  /** While the version can still change, no task has acted. */
  lemma NobodyActedBefore(setup: Setup, s: Server, i: nat)
    requires Inv(setup, s) && i < |s.tasks| && !Known(s.channel)
    ensures !Acted(s.tasks[i]) || s.tasks[i].rx.None?
  {
    assert TaskOk(setup, Known(s.channel), s.tasks[i]);
  }

  lemma MainKeepsTasks(setup: Setup, s: Server, e: Event)
    requires Enabled(setup, s, e) && !e.Step?
    ensures var r := Apply(setup, s, e);
            && s.tasks <= r.tasks && (forall i | |s.tasks| <= i < |r.tasks| :: r.tasks[i].stage.Spawned?)
            && (r.channel.version != s.channel.version ==> e.Announce?)
  {
  }

  lemma ActedHaveSeenStep(setup: Setup, s: Server, e: Event)
    requires Inv(setup, s) && Enabled(setup, s, e) && ActedHaveSeen(s)
    ensures ActedHaveSeen(Apply(setup, s, e))
  {
    if e.Step? {
      TaskStepHasSeen(setup, s.channel, s.tasks[e.i], e.e);
    } else {
      MainKeepsTasks(setup, s, e);
      forall i | 0 <= i < |s.tasks| && e.Announce?
        ensures !Acted(s.tasks[i]) || s.tasks[i].rx.None?
      {
        NobodyActedBefore(setup, s, i);
      }
    }
  }

  lemma {:induction false} ActedHaveSeenRun(setup: Setup, es: seq<Event>)
    requires Legal(setup, Init(setup), es)
    ensures ActedHaveSeen(Run(setup, Init(setup), es))
  {
    if es != [] {
      var n := |es| - 1;
      ActedHaveSeenRun(setup, es[..n]);
      InvInit(setup);
      InvRun(setup, Init(setup), es[..n]);
      ActedHaveSeenStep(setup, Run(setup, Init(setup), es[..n]), es[n]);
    }
  }

  lemma ActedHaveSeenReachable(setup: Setup, s: Server)
    requires Reachable(setup, s)
    ensures ActedHaveSeen(s)
  {
    var es :| Reaches(setup, es, s);
    ReachesIsRun(setup, es, s);
    ActedHaveSeenRun(setup, es);
  }

  /** No lost notice and no false one. With a signal, at any point of any run and at any stage of
      an unfinished task: its `changed()` is ready exactly if the shutdown is known and either the
      task has not acted on it yet or the sender is gone, which `changed()` reports for ever. What
      keeps a task that has acted from acting again is the fuse: once it serves, its signal branch
      can win exactly if the shutdown is known and not acted on, and it has called
      `graceful_shutdown` exactly once if it has acted and not at all if it has not. */
  lemma NoticeIsExact(setup: Setup, s: Server, i: nat)
    requires Reachable(setup, s) && setup.graceful
    requires i < |s.tasks| && !s.tasks[i].stage.Finished?
    ensures s.tasks[i].rx.Some?
    ensures var t := s.tasks[i];
            && (s.channel.Changed(t.rx.value).Ready? <==>
                  Known(s.channel) && (!Acted(t) || !s.channel.senderAlive))
            && (t.stage.Serving? ==>
                 && (Enabled(setup, s, Step(i, Http(Connection.SignalFired))) <==> Known(s.channel) && !Acted(t))
                 && t.stage.conn.calls == Bit(Acted(t)))
  {
    InvReachable(setup, s);
    ActedHaveSeenReachable(setup, s);
    assert TaskOk(setup, Known(s.channel), s.tasks[i]);
    assert HasSeen(s.channel.version, s.tasks[i]);
  }

  /** Being dropped announces the shutdown as well as the broadcast does: from the very next state
      on, every task still alive either has acted on it or is ready to. */
  lemma CancelAnnounces(setup: Setup, s: Server, i: nat)
    requires Reachable(setup, s) && setup.graceful && Enabled(setup, s, Cancel)
    requires i < |s.tasks| && !s.tasks[i].stage.Finished?
    ensures var r := Apply(setup, s, Cancel);
            var t := r.tasks[i];
            && t == s.tasks[i]
            && Known(r.channel)
            && ((t.stage.Serving? && t.stage.conn.calls == 1)
                || (t.rx.Some? && r.channel.Changed(t.rx.value).Ready?))
  {
    ReachableStep(setup, s, Cancel);
    NoticeIsExact(setup, Apply(setup, s, Cancel), i);
  }

  lemma ReachableStep(setup: Setup, s: Server, e: Event)
    requires Reachable(setup, s) && Enabled(setup, s, e)
    ensures Reachable(setup, Apply(setup, s, e))
  {
    var es :| Reaches(setup, es, s);
    ReachesStep(setup, es, s, e);
  }

  lemma ReachableRun(setup: Setup, s: Server, es: seq<Event>)
    requires Reachable(setup, s) && Legal(setup, s, es)
    ensures Reachable(setup, Run(setup, s, es))
  {
    var before :| Reaches(setup, before, s);
    ReachesRun(setup, before, s, es);
  }

  lemma {:induction false} HoldsIsUnfinished(setup: Setup, known: bool, ts: seq<Task>)
    requires setup.graceful && TasksOk(setup, known, ts)
    ensures Sum(Holds, ts) == Sum(Unfinished, ts)
  {
    if ts != [] {
      HoldsIsUnfinished(setup, known, ts[..|ts| - 1]);
      assert TaskOk(setup, known, ts[|ts| - 1]);
    }
  }

  /** The receiver count is main's own receiver plus one for each unfinished task, through every
      way a task can end. */
  lemma ReceiversCountTasks(setup: Setup, s: Server)
    requires Reachable(setup, s)
    ensures s.channel.receivers == Bit(s.mainRx.Some?) + (if setup.graceful then Sum(Unfinished, s.tasks) else 0)
    ensures setup.graceful ==> (Sum(Unfinished, s.tasks) == 0 <==> AllFinished(s))
  {
    InvReachable(setup, s);
    if setup.graceful {
      HoldsIsUnfinished(setup, Known(s.channel), s.tasks);
      SumOfNats(Unfinished, s.tasks);
      if AllFinished(s) {
        assert forall t | t in s.tasks :: Unfinished(t) == 0;
      } else {
        var i :| 0 <= i < |s.tasks| && !s.tasks[i].stage.Finished?;
        assert s.tasks[i] in s.tasks;
      }
    } else {
      forall t | t in s.tasks
        ensures Holds(t) == 0
      {
        assert TaskOk(setup, Known(s.channel), t);
      }
      SumOfNats(Holds, s.tasks);
    }
  }

  /** `closed()` can complete exactly when every task ever spawned has finished. */
  lemma ClosedIffQuiescent(setup: Setup, s: Server)
    requires Reachable(setup, s) && s.phase.Draining?
    ensures Enabled(setup, s, Closed) <==> AllFinished(s)
  {
    InvReachable(setup, s);
    ReceiversCountTasks(setup, s);
  }

  /** The server returns only with a signal, and only when no task is left. */
  lemma QuiescentAtReturn(setup: Setup, s: Server)
    requires Reachable(setup, s) && s.phase.Returned?
    ensures setup.graceful && AllFinished(s)
  {
    InvReachable(setup, s);
    ReceiversCountTasks(setup, s);
  }

  /** `send` always finds a receiver, because main still holds its own. */
  lemma BroadcastIsHeard(setup: Setup, s: Server)
    requires Reachable(setup, s) && Enabled(setup, s, Announce)
    ensures setup.graceful && 0 < s.channel.receivers && s.channel.Send().1
    ensures Known(Apply(setup, s, Announce).channel)
  {
    InvReachable(setup, s);
    SumOfNats(Holds, s.tasks);
  }

  function CountOf(es: seq<Event>, e: Event): nat {
    if es == [] then 0
    else var n := |es| - 1; CountOf(es[..n], e) + (if es[n] == e then 1 else 0)
  }

  /** Along every run the version is the number of broadcasts, which is at most one, and the input
      consumed is the number of items pulled. */
  lemma {:induction false} BroadcastAtMostOnce(setup: Setup, es: seq<Event>)
    requires Legal(setup, Init(setup), es)
    ensures var s := Run(setup, Init(setup), es);
            && s.channel.version == CountOf(es, Announce) <= 1
            && s.consumed == CountOf(es, Pull)
  {
    if es != [] {
      var n := |es| - 1;
      var s := Run(setup, Init(setup), es[..n]);
      BroadcastAtMostOnce(setup, es[..n]);
      ReachesIsRun(setup, es[..n], s);
      InvReachable(setup, s);
      if es[n] == Announce {
        BroadcastIsHeard(setup, s);
      }
      PullOnly(setup, s, es[n]);
    }
  }

  lemma PullOnly(setup: Setup, s: Server, e: Event)
    requires Enabled(setup, s, e)
    ensures Apply(setup, s, e).consumed == s.consumed + (if e == Pull then 1 else 0)
    ensures e != Announce ==> Apply(setup, s, e).channel.version == s.channel.version
    ensures e == Pull ==> Apply(setup, s, e).phase == s.phase
    ensures e == Pull ==> s.tasks <= Apply(setup, s, e).tasks
  {
  }

  /** What no step after the break can do. */
  ghost predicate OnlyWindsDown(s: Server, r: Server) {
    && !r.phase.Accepting?
    && r.consumed == s.consumed
    && Items(r.tasks) == Items(s.tasks)
    && r.channel.receivers <= s.channel.receivers
    && s.channel.version <= r.channel.version
    && (Known(s.channel) ==> Known(r.channel))
    && forall i | 0 <= i < |s.tasks| && i < |r.tasks| && s.tasks[i].stage.Finished? :: r.tasks[i] == s.tasks[i]
  }

  lemma StepWindsDown(setup: Setup, s: Server, e: Event)
    requires !s.phase.Accepting? && Enabled(setup, s, e)
    ensures OnlyWindsDown(s, Apply(setup, s, e))
  {
    var r := Apply(setup, s, e);
    if e.Step? {
      TaskStepShape(setup, s.channel, s.tasks[e.i], e.e);
      assert Items(r.tasks) == Items(s.tasks);
    }
  }

  /** From the break on, whatever happens: no task is created, nothing more is read, the receiver
      count never increases, the shutdown never becomes unknown again, and a finished task stays
      as it is. */
  lemma {:induction false} AfterTheLoop(setup: Setup, s: Server, es: seq<Event>)
    requires !s.phase.Accepting? && Legal(setup, s, es)
    ensures OnlyWindsDown(s, Run(setup, s, es))
  {
    if es != [] {
      var n := |es| - 1;
      var m := Run(setup, s, es[..n]);
      AfterTheLoop(setup, s, es[..n]);
      StepWindsDown(setup, m, es[n]);
      WindsDownTrans(s, m, Run(setup, s, es));
    }
  }

  lemma WindsDownTrans(s: Server, m: Server, r: Server)
    requires OnlyWindsDown(s, m) && OnlyWindsDown(m, r)
    ensures OnlyWindsDown(s, r)
  {
    assert |Items(s.tasks)| == |Items(m.tasks)| == |Items(r.tasks)|;
  }

  /** Nothing ends the accept loop but the signal and the dropping of the server: no error of any
      kind, no failed task and not the end of the listener. */
  lemma {:induction false} OnlySignalEndsLoop(setup: Setup, es: seq<Event>)
    requires Legal(setup, Init(setup), es)
    ensures Run(setup, Init(setup), es).phase.Accepting? <==> Signal !in es && Cancel !in es
  {
    if es != [] {
      var n := |es| - 1;
      OnlySignalEndsLoop(setup, es[..n]);
      PullOnly(setup, Run(setup, Init(setup), es[..n]), es[n]);
      assert es == es[..n] + [es[n]];
    }
  }

  /** With a signal, the accept loop can be left for as long as it runs, even after the listener
      has ended. */
  lemma SignalAlwaysHeard(setup: Setup, s: Server)
    requires Reachable(setup, s) && s.phase.Accepting?
    ensures Enabled(setup, s, Signal) <==> setup.graceful
  {
    InvReachable(setup, s);
  }

  /** Without a signal, the server never leaves its loop by itself and never returns, and no
      connection is ever told to shut down, not even when the server is dropped. */
  lemma WithoutSignal(setup: Setup, s: Server)
    requires Reachable(setup, s) && !setup.graceful
    ensures s.phase.Accepting? || s.phase.Cancelled?
    ensures forall i | 0 <= i < |s.tasks| ::
              match s.tasks[i].stage
              case Serving(c) => c.calls == 0 && !Enabled(setup, s, Step(i, Http(Connection.SignalFired)))
              case Finished(Served(c)) => c.calls == 0
              case _ => true
  {
    InvReachable(setup, s);
    forall i | 0 <= i < |s.tasks|
      ensures TaskOk(setup, Known(s.channel), s.tasks[i])
    {
    }
  }

  /** In every reachable state there is exactly one task for each item of the filtered input read
      so far, in order: nothing pulled is ever dropped or served twice. */
  lemma SpawnedIsFiltered(setup: Setup, s: Server)
    requires Reachable(setup, s)
    ensures s.consumed <= |setup.input|
    ensures Items(s.tasks) == TcpFilter(setup.input[..s.consumed])
    ensures Oks(Items(s.tasks)) == Oks(setup.input[..s.consumed])
  {
    InvReachable(setup, s);
    OksOfFilter(setup.input[..s.consumed]);
  }

  lemma SpawnedIsPrefix(setup: Setup, s: Server)
    requires Reachable(setup, s)
    ensures Items(s.tasks) <= TcpFilter(setup.input)
  {
    SpawnedIsFiltered(setup, s);
    TcpFilterPrefix(setup.input, s.consumed);
  }

  lemma {:induction false} OksOfFilter(input: seq<Incoming>)
    ensures Oks(TcpFilter(input)) == Oks(input)
  {
    if input != [] {
      OksOfFilter(input[1..]);
      match TcpYieldOf(input[0]) {
        case None => assert TcpFilter(input) == TcpFilter(input[1..]);
        case Some(item) => OksCons(item, TcpFilter(input[1..]));
      }
    }
  }
}
