/** Termination of runs and of the drain, and absence of deadlock. */
module Drain {
  import opened Watch
  import opened Protocol
  import opened Invariants
  import opened Shutdown
  import Connection

  /** Steps a task can still take. */
  function TaskRank(t: Task): int {
    match t.stage
    case Spawned => 5
    case Handshaking => 4
    case Serving(c) => Connection.Measure(c)
    case Finished(_) => 0
  }

  function PhaseRank(p: Phase): int {
    match p
    case Accepting(open) => if open then 5 else 4
    case LeftLoop => 3
    case Announced => 2
    case Draining => 1
    case Returned => 0
    case Cancelled => 0
  }

  /** An item still to be read costs one step, and the steps of the task it may become. */
  function Rank(setup: Setup, s: Server): int {
    6 * (|setup.input| - s.consumed) + PhaseRank(s.phase) + Sum(TaskRank, s.tasks)
  }

  lemma TaskStepDecreases(setup: Setup, channel: Channel, t: Task, e: TaskEvent)
    requires TaskEnabled(channel, t, e)
    ensures 0 <= TaskRank(TaskStep(setup, channel, t, e)) < TaskRank(t)
  {
  }

  lemma PullDecreases(setup: Setup, s: Server)
    requires Enabled(setup, s, Pull)
    ensures Rank(setup, Apply(setup, s, Pull)) < Rank(setup, s)
  {
    var r := Apply(setup, s, Pull);
    if |s.tasks| < |r.tasks| {
      SumAppend(TaskRank, s.tasks, r.tasks[|s.tasks|]);
    }
  }

  /** Every step, of main or of a task, brings the run closer to its end. */
  lemma StepDecreases(setup: Setup, s: Server, e: Event)
    requires Enabled(setup, s, e)
    ensures Rank(setup, Apply(setup, s, e)) < Rank(setup, s)
  {
    match e {
      case Pull => PullDecreases(setup, s);
      case Step(i, e') =>
        TaskStepDecreases(setup, s.channel, s.tasks[i], e');
        SumUpdate(TaskRank, s.tasks, i, TaskStep(setup, s.channel, s.tasks[i], e'));
      case _ =>
    }
  }

  lemma RankIsNat(setup: Setup, s: Server)
    requires s.consumed <= |setup.input|
    ensures 0 <= Rank(setup, s)
  {
    SumOfNats(TaskRank, s.tasks);
  }

  /** No run goes on for ever: its length is bounded by the rank of the state it starts from. */
  lemma {:induction false} RunsAreBounded(setup: Setup, s: Server, es: seq<Event>)
    requires s.consumed <= |setup.input| && Legal(setup, s, es)
    ensures Run(setup, s, es).consumed <= |setup.input|
    ensures |es| + Rank(setup, Run(setup, s, es)) <= Rank(setup, s)
    ensures |es| <= Rank(setup, s)
  {
    if es != [] {
      var n := |es| - 1;
      var m := Run(setup, s, es[..n]);
      RunsAreBounded(setup, s, es[..n]);
      StepDecreases(setup, m, es[n]);
      PullOnly(setup, m, es[n]);
    }
    RankIsNat(setup, Run(setup, s, es));
  }

  /** A whole server run over an input of n items takes at most 6n + 5 steps. */
  lemma WholeRunIsBounded(setup: Setup, es: seq<Event>)
    requires Legal(setup, Init(setup), es)
    ensures |es| <= 6 * |setup.input| + 5
  {
    RunsAreBounded(setup, Init(setup), es);
  }

  /** The steps that must come, on these assumptions only: spawned tasks are polled, handshakes
      resolve, a connection loop whose signal is ready notices it, hyper completes a connection
      after `graceful_shutdown`, and main runs on when it is not waiting. Nothing is assumed about
      a connection that has not been told to shut down. */
  ghost predicate Guaranteed(setup: Setup, s: Server, e: Event) {
    Enabled(setup, s, e) &&
    match e
    case Step(i, e') => (
      match e'
      case Begin => true
      case Handshaken => true
      case Http(won) => won.SignalFired? || (won.ConnDone? && 0 < s.tasks[i].stage.conn.calls))
    case Announce => true
    case DropMainRx => true
    case Closed => true
    case _ => false
  }

  ghost predicate Stuck(setup: Setup, s: Server) {
    forall e :: !Guaranteed(setup, s, e)
  }

  /** An unfinished task always has a guaranteed step once the shutdown is known. */
  lemma TaskCanMove(setup: Setup, s: Server, i: nat) returns (e: Event)
    requires Reachable(setup, s) && setup.graceful && Known(s.channel)
    requires i < |s.tasks| && !s.tasks[i].stage.Finished?
    ensures Guaranteed(setup, s, e)
  {
    InvReachable(setup, s);
    NoticeIsExact(setup, s, i);
    assert TaskOk(setup, Known(s.channel), s.tasks[i]);
    match s.tasks[i].stage {
      case Spawned => e := Step(i, Begin);
      case Handshaking => e := Step(i, Handshaken);
      case Serving(c) => e := Step(i, Http(if c.signalArmed then Connection.SignalFired else Connection.ConnDone));
    }
  }

  lemma DrainCanMove(setup: Setup, s: Server) returns (e: Event)
    requires Reachable(setup, s) && setup.graceful && !s.phase.Accepting?
    requires !AllFinished(s) || !(s.phase.Returned? || s.phase.Cancelled?)
    ensures Guaranteed(setup, s, e)
  {
    if s.phase.LeftLoop? {
      e := Announce;
    } else if s.phase.Announced? {
      e := DropMainRx;
    } else if AllFinished(s) {
      ClosedIffQuiescent(setup, s);
      e := Closed;
    } else {
      KnownPhases(setup, s);
      var i :| 0 <= i < |s.tasks| && !s.tasks[i].stage.Finished?;
      e := TaskCanMove(setup, s, i);
    }
  }

  lemma NothingLeft(setup: Setup, s: Server, e: Event)
    requires AllFinished(s) && (s.phase.Returned? || s.phase.Cancelled?)
    ensures !Guaranteed(setup, s, e)
  {
    assert e.Step? && e.i < |s.tasks| ==> s.tasks[e.i].stage.Finished?;
  }

  /** Once the loop is left, by the signal or by cancellation, there is no deadlock: guaranteed
      steps run out exactly when every task has finished and main has returned or is gone. */
  lemma NoDeadlock(setup: Setup, s: Server)
    requires Reachable(setup, s) && setup.graceful && !s.phase.Accepting?
    ensures Stuck(setup, s) <==> AllFinished(s) && (s.phase.Returned? || s.phase.Cancelled?)
  {
    if AllFinished(s) && (s.phase.Returned? || s.phase.Cancelled?) {
      forall e
        ensures !Guaranteed(setup, s, e)
      {
        NothingLeft(setup, s, e);
      }
    } else {
      var e := DrainCanMove(setup, s);
      assert !Stuck(setup, s);
    }
  }

  /** The drain completes. Take any run on from a state after the break, with any interleaving and
      with or without a cancellation: it is no longer than the rank, and if no guaranteed step is
      left at its end, every task has finished, and main has returned unless it was dropped. */
  lemma DrainCompletes(setup: Setup, s: Server, es: seq<Event>)
    requires Reachable(setup, s) && setup.graceful && !s.phase.Accepting?
    requires Legal(setup, s, es) && Stuck(setup, Run(setup, s, es))
    ensures |es| <= Rank(setup, s)
    ensures AllFinished(Run(setup, s, es))
    ensures !s.phase.Cancelled? && Cancel !in es ==> Run(setup, s, es).phase.Returned?
  {
    InvReachable(setup, s);
    RunsAreBounded(setup, s, es);
    ReachableRun(setup, s, es);
    AfterTheLoop(setup, s, es);
    NoDeadlock(setup, Run(setup, s, es));
    if !s.phase.Cancelled? && Cancel !in es {
      NotCancelled(setup, s, es);
    }
  }

  lemma {:induction false} NotCancelled(setup: Setup, s: Server, es: seq<Event>)
    requires Legal(setup, s, es) && !s.phase.Cancelled? && Cancel !in es
    ensures !Run(setup, s, es).phase.Cancelled?
  {
    if es != [] {
      var n := |es| - 1;
      NotCancelled(setup, s, es[..n]);
      PullOnly(setup, Run(setup, s, es[..n]), es[n]);
    }
  }

  /** A task that ended without having served, or whose connection was told to shut down first. */
  predicate EndedGracefully(t: Task) {
    t.stage.Finished? && (t.stage.outcome.Served? ==> t.stage.outcome.conn.calls == 1)
  }

  lemma GuaranteedEnd(setup: Setup, s: Server, e: Event, i: nat)
    requires Inv(setup, s) && Guaranteed(setup, s, e) && i < |s.tasks| && !s.tasks[i].stage.Finished?
    requires i < |Apply(setup, s, e).tasks| && Apply(setup, s, e).tasks[i].stage.Finished?
    ensures EndedGracefully(Apply(setup, s, e).tasks[i])
  {
    assert TaskOk(setup, Known(s.channel), s.tasks[i]);
  }

  /** And such a run exists from every state after the break: guaranteed steps alone lead there,
      and every connection still alive at the break is told to shut down before it ends. */
  lemma {:induction false} DrainExists(setup: Setup, s: Server) returns (es: seq<Event>)
    requires Reachable(setup, s) && setup.graceful && !s.phase.Accepting?
    ensures Legal(setup, s, es) && Cancel !in es
    ensures Stuck(setup, Run(setup, s, es)) && AllFinished(Run(setup, s, es))
    ensures |Run(setup, s, es).tasks| == |s.tasks|
    ensures forall i | 0 <= i < |s.tasks| && !s.tasks[i].stage.Finished? :: EndedGracefully(Run(setup, s, es).tasks[i])
    decreases Rank(setup, s)
  {
    InvReachable(setup, s);
    RankIsNat(setup, s);
    if Stuck(setup, s) {
      es := [];
      NoDeadlock(setup, s);
    } else {
      var e :| Guaranteed(setup, s, e);
      es := DrainFrom(setup, s, e);
    }
  }

  lemma {:induction false} DrainFrom(setup: Setup, s: Server, e: Event) returns (es: seq<Event>)
    requires Reachable(setup, s) && setup.graceful && !s.phase.Accepting? && Guaranteed(setup, s, e)
    ensures Legal(setup, s, es) && Cancel !in es
    ensures Stuck(setup, Run(setup, s, es)) && AllFinished(Run(setup, s, es))
    ensures |Run(setup, s, es).tasks| == |s.tasks|
    ensures forall i | 0 <= i < |s.tasks| && !s.tasks[i].stage.Finished? :: EndedGracefully(Run(setup, s, es).tasks[i])
    decreases Rank(setup, s), 0
  {
    InvReachable(setup, s);
    var r := Apply(setup, s, e);
    StepDecreases(setup, s, e);
    ReachableStep(setup, s, e);
    StepWindsDown(setup, s, e);
    InvReachable(setup, r);
    RankIsNat(setup, r);
    var rest := DrainExists(setup, r);
    RunCons(setup, s, e, rest);
    AfterTheLoop(setup, r, rest);
    es := [e] + rest;
    assert |Items(s.tasks)| == |Items(r.tasks)|;
    forall i | 0 <= i < |s.tasks| && !s.tasks[i].stage.Finished?
      ensures EndedGracefully(Run(setup, s, es).tasks[i])
    {
      if r.tasks[i].stage.Finished? {
        GuaranteedEnd(setup, s, e, i);
      }
    }
  }

  lemma RunCons(setup: Setup, s: Server, e: Event, rest: seq<Event>)
    requires Enabled(setup, s, e) && Legal(setup, Apply(setup, s, e), rest)
    ensures Legal(setup, s, [e] + rest) && Run(setup, s, [e] + rest) == Run(setup, Apply(setup, s, e), rest)
  {
    assert Legal(setup, s, []) && Run(setup, s, []) == s;
    RunSnoc(setup, s, [], e);
    assert [] + [e] == [e];
    RunConcat(setup, s, [e], rest);
  }
}
