/** What the schedule cannot change: steps of different actors commute, and each task's fate is
    fixed by its item. */
module Independence {
  import opened Wrappers
  import opened Streams
  import opened Watch
  import opened Protocol
  import opened Invariants
  import opened Shutdown
  import Connection

  // ---------- commuting steps ----------

  /** Both steps are possible, neither disables the other, and either order leads to the same state. */
  predicate Commute(setup: Setup, s: Server, a: Event, b: Event) {
    && Enabled(setup, s, a) && Enabled(setup, s, b)
    && Enabled(setup, Apply(setup, s, a), b) && Enabled(setup, Apply(setup, s, b), a)
    && Apply(setup, Apply(setup, s, a), b) == Apply(setup, Apply(setup, s, b), a)
  }

  /** A task reads no more of the channel than its version and whether its sender lives. */
  lemma ReceiversDoNotMatter(setup: Setup, c: Channel, d: Channel, t: Task, e: TaskEvent)
    requires c.version == d.version && c.senderAlive == d.senderAlive
    ensures TaskEnabled(c, t, e) <==> TaskEnabled(d, t, e)
    ensures TaskEnabled(c, t, e) ==> TaskStep(setup, c, t, e) == TaskStep(setup, d, t, e)
  {
  }

  lemma ReplaceCommutes(s: Server, i: nat, t: Task, j: nat, u: Task)
    requires i < |s.tasks| && j < |s.tasks| && i != j
    ensures Replace(Replace(s, i, t), j, u) == Replace(Replace(s, j, u), i, t)
  {
    assert s.tasks[i := t][j := u] == s.tasks[j := u][i := t];
  }

  /** Steps of two different tasks commute. */
  lemma TasksCommute(setup: Setup, s: Server, i: nat, e: TaskEvent, j: nat, f: TaskEvent)
    requires i != j && Enabled(setup, s, Step(i, e)) && Enabled(setup, s, Step(j, f))
    ensures Commute(setup, s, Step(i, e), Step(j, f))
  {
    var t := TaskStep(setup, s.channel, s.tasks[i], e);
    var u := TaskStep(setup, s.channel, s.tasks[j], f);
    var si, sj := Replace(s, i, t), Replace(s, j, u);
    assert si.tasks[j] == s.tasks[j] && sj.tasks[i] == s.tasks[i];
    ReceiversDoNotMatter(setup, s.channel, si.channel, s.tasks[j], f);
    ReceiversDoNotMatter(setup, s.channel, sj.channel, s.tasks[i], e);
    ReplaceCommutes(s, i, t, j, u);
  }

  lemma ReplaceAfterSpawn(setup: Setup, s: Server, item: Incoming, i: nat, t: Task)
    requires i < |s.tasks| && s.mainRx.Some?
    ensures Replace(Spawn(setup, s, item), i, t) == Spawn(setup, Replace(s, i, t), item)
  {
    var spawned := Spawn(setup, s, item).tasks[|s.tasks|];
    assert (s.tasks + [spawned])[i := t] == s.tasks[i := t] + [spawned];
  }

  lemma PullCommutes(setup: Setup, s: Server, i: nat, t: Task)
    requires Enabled(setup, s, Pull) && i < |s.tasks|
    ensures i < |Apply(setup, s, Pull).tasks| && Enabled(setup, Replace(s, i, t), Pull)
    ensures Replace(Apply(setup, s, Pull), i, t) == Apply(setup, Replace(s, i, t), Pull)
    ensures Apply(setup, s, Pull).tasks[i] == s.tasks[i]
    ensures Apply(setup, s, Pull).channel.(receivers := s.channel.receivers) == s.channel
  {
    match TcpYieldOf(setup.input[s.consumed]) {
      case None =>
      case Some(item) => ReplaceAfterSpawn(setup, s.(consumed := s.consumed + 1), item, i, t);
    }
  }

  /** What a step of main's other than reading does, it does whatever a task has done before. */
  lemma MainIgnoresReplace(setup: Setup, s: Server, m: Event, i: nat, t: Task)
    requires Enabled(setup, s, m) && !m.Step? && !m.Pull? && !m.Closed? && i < |s.tasks|
    requires m.Announce? ==> setup.graceful && 0 < s.channel.receivers && 0 < Replace(s, i, t).channel.receivers
    ensures Enabled(setup, Replace(s, i, t), m)
    ensures Replace(Apply(setup, s, m), i, t) == Apply(setup, Replace(s, i, t), m)
    ensures Apply(setup, s, m).tasks == s.tasks
  {
  }

  /** Before the shutdown is known a task cannot notice it, and afterwards it notices the same:
      what main does never takes a step away from a task, nor changes it. */
  lemma MainKeepsStep(setup: Setup, s: Server, m: Event, i: nat, e: TaskEvent)
    requires Inv(setup, s) && Enabled(setup, s, m) && !m.Step? && !m.Pull? && Enabled(setup, s, Step(i, e))
    ensures var c := Apply(setup, s, m).channel;
            TaskEnabled(c, s.tasks[i], e)
            && TaskStep(setup, c, s.tasks[i], e) == TaskStep(setup, s.channel, s.tasks[i], e)
  {
    assert TaskOk(setup, Known(s.channel), s.tasks[i]);
  }

  lemma PullCommutesWithStep(setup: Setup, s: Server, i: nat, e: TaskEvent)
    requires Enabled(setup, s, Pull) && Enabled(setup, s, Step(i, e))
    ensures Commute(setup, s, Pull, Step(i, e))
  {
    PullCommutes(setup, s, i, TaskStep(setup, s.channel, s.tasks[i], e));
    ReceiversDoNotMatter(setup, s.channel, Apply(setup, s, Pull).channel, s.tasks[i], e);
  }

  lemma OtherCommutesWithStep(setup: Setup, s: Server, m: Event, i: nat, e: TaskEvent)
    requires Inv(setup, s) && Enabled(setup, s, m) && !m.Step? && !m.Pull? && !m.Closed?
    requires Enabled(setup, s, Step(i, e))
    requires m.Announce? ==>
               setup.graceful && 0 < s.channel.receivers && 0 < Apply(setup, s, Step(i, e)).channel.receivers
    ensures Commute(setup, s, m, Step(i, e))
  {
    MainIgnoresReplace(setup, s, m, i, TaskStep(setup, s.channel, s.tasks[i], e));
    MainKeepsStep(setup, s, m, i, e);
  }

  lemma AnnounceCommutesWithStep(setup: Setup, s: Server, i: nat, e: TaskEvent)
    requires Reachable(setup, s) && Enabled(setup, s, Announce) && Enabled(setup, s, Step(i, e))
    ensures Commute(setup, s, Announce, Step(i, e))
  {
    InvReachable(setup, s);
    BroadcastIsHeard(setup, s);
    ReachableStep(setup, s, Step(i, e));
    BroadcastIsHeard(setup, Apply(setup, s, Step(i, e)));
    OtherCommutesWithStep(setup, s, Announce, i, e);
  }

  lemma NoStepWhenClosed(setup: Setup, s: Server, i: nat, e: TaskEvent)
    requires Reachable(setup, s) && Enabled(setup, s, Closed)
    ensures !Enabled(setup, s, Step(i, e))
  {
    ClosedIffQuiescent(setup, s);
    assert i < |s.tasks| ==> s.tasks[i].stage.Finished?;
  }

  /** In every reachable state, a step of main and a step of a task that are both possible commute
      too. `closed()` can never be one of them: it is not possible beside a step of a task. */
  lemma MainCommutes(setup: Setup, s: Server, m: Event, i: nat, e: TaskEvent)
    requires Reachable(setup, s) && Enabled(setup, s, m) && !m.Step? && Enabled(setup, s, Step(i, e))
    ensures m != Closed && Commute(setup, s, m, Step(i, e))
  {
    match m {
      case Pull => PullCommutesWithStep(setup, s, i, e);
      case Closed => NoStepWhenClosed(setup, s, i, e);
      case Announce => AnnounceCommutesWithStep(setup, s, i, e);
      case _ =>
        InvReachable(setup, s);
        OtherCommutesWithStep(setup, s, m, i, e);
    }
  }

  lemma RunTwo(setup: Setup, s: Server, a: Event, b: Event)
    requires Enabled(setup, s, a) && Enabled(setup, Apply(setup, s, a), b)
    ensures Legal(setup, s, [a, b]) && Run(setup, s, [a, b]) == Apply(setup, Apply(setup, s, a), b)
  {
    assert Legal(setup, s, []) && Run(setup, s, []) == s;
    RunSnoc(setup, s, [], a);
    assert [] + [a] == [a];
    RunSnoc(setup, s, [a], b);
    assert [a] + [b] == [a, b];
  }

  /** So neighbouring steps of a whole run that commute can be exchanged: the run stays possible
      and leads to the same state. */
  lemma RunsCanBeReordered(setup: Setup, s: Server, before: seq<Event>, a: Event, b: Event, after: seq<Event>)
    requires Legal(setup, s, before) && Commute(setup, Run(setup, s, before), a, b)
    requires Legal(setup, s, before + [a, b] + after)
    ensures Legal(setup, s, before + [b, a] + after)
    ensures Run(setup, s, before + [b, a] + after) == Run(setup, s, before + [a, b] + after)
  {
    var m := Run(setup, s, before);
    RunSplit(setup, s, before + [a, b], after);
    RunSplit(setup, s, before, [a, b]);
    RunTwo(setup, m, a, b);
    RunTwo(setup, m, b, a);
    RunConcat(setup, s, before, [b, a]);
    RunConcat(setup, s, before + [b, a], after);
  }

  // ---------- confluence ----------

  /** What main does in a run. */
  function MainOf(es: seq<Event>): seq<Event> {
    if es == [] then []
    else
      var n := |es| - 1;
      if es[n].Step? then MainOf(es[..n]) else MainOf(es[..n]) + [es[n]]
  }

  /** What task `i` does in a run. */
  function StepsOf(es: seq<Event>, i: nat): seq<TaskEvent> {
    if es == [] then []
    else
      var n := |es| - 1;
      if es[n].Step? && es[n].i == i then StepsOf(es[..n], i) + [es[n].e] else StepsOf(es[..n], i)
  }

  /** The part of the state that is main's own. */
  datatype MainPart = MainPart(
    phase: Phase, signalArmed: bool, mainRx: Option<nat>, version: nat, senderAlive: bool, consumed: nat)

  function MainPartOf(s: Server): MainPart {
    MainPart(s.phase, s.signalArmed, s.mainRx, s.channel.version, s.channel.senderAlive, s.consumed)
  }

  function MainStep(setup: Setup, m: MainPart, e: Event): MainPart {
    match e
    case Pull => m.(consumed := m.consumed + 1)
    case StreamEnd => m.(phase := Accepting(false))
    case Signal => m.(phase := LeftLoop, signalArmed := false)
    case Announce =>
      if setup.graceful then m.(phase := Announced, version := m.version + 1)
      else m.(phase := Returned, mainRx := None, senderAlive := false)
    case DropMainRx => m.(phase := Draining, mainRx := None)
    case Closed => m.(phase := Returned, senderAlive := false)
    case Cancel => m.(phase := Cancelled, mainRx := None, senderAlive := false)
    case Step(_, _) => m
  }

  function MainAfter(setup: Setup, ms: seq<Event>): MainPart {
    if ms == [] then MainPartOf(Init(setup))
    else var n := |ms| - 1; MainStep(setup, MainAfter(setup, ms[..n]), ms[n])
  }

  /** How far a task gets by one step, whatever the channel. */
  function StageStep(setup: Setup, item: Incoming, stage: Stage, e: TaskEvent): Stage {
    match (stage, e)
    case (Spawned, Begin) =>
      if item.Err? then Finished(AcceptFailed)
      else if setup.tls then Handshaking
      else Serving(Connection.Fresh(false, setup.graceful))
    case (Handshaking, Handshaken) =>
      if Servable(setup, item) then Serving(Connection.Fresh(false, setup.graceful)) else Finished(HandshakeFailed)
    case (Serving(c), Http(won)) =>
      if !Connection.Enabled(c, won) then stage
      else if won.ConnDone? then Finished(Served(Connection.Apply(c, won)))
      else Serving(Connection.Apply(c, won))
    case _ => stage
  }

  function StageAfter(setup: Setup, item: Incoming, ws: seq<TaskEvent>): Stage {
    if ws == [] then Spawned
    else var n := |ws| - 1; StageStep(setup, item, StageAfter(setup, item, ws[..n]), ws[n])
  }

  lemma MainPartStep(setup: Setup, s: Server, e: Event)
    requires Enabled(setup, s, e) && (e.Announce? && setup.graceful ==> s.channel.Send().1)
    ensures MainPartOf(Apply(setup, s, e)) == MainStep(setup, MainPartOf(s), e)
  {
  }

  /** Main's part of the state follows from what main did, whatever the tasks did in between. */
  lemma {:induction false} MainIsFixed(setup: Setup, es: seq<Event>)
    requires Legal(setup, Init(setup), es)
    ensures MainPartOf(Run(setup, Init(setup), es)) == MainAfter(setup, MainOf(es))
  {
    if es != [] {
      var n := |es| - 1;
      var s := Run(setup, Init(setup), es[..n]);
      MainIsFixed(setup, es[..n]);
      ReachesIsRun(setup, es[..n], s);
      if es[n].Announce? {
        BroadcastIsHeard(setup, s);
      }
      MainPartStep(setup, s, es[n]);
      assert (MainOf(es[..n]) + [es[n]])[..|MainOf(es[..n])|] == MainOf(es[..n]);
    }
  }

  lemma StageOfStep(setup: Setup, channel: Channel, t: Task, e: TaskEvent)
    requires TaskOk(setup, Known(channel), t) && TaskEnabled(channel, t, e)
    ensures TaskStep(setup, channel, t, e).item == t.item
    ensures TaskStep(setup, channel, t, e).stage == StageStep(setup, t.item, t.stage, e)
  {
  }

  /** A task of state `s` has got where the steps `ws` lead, and one not yet spawned has none. */
  ghost predicate GotTo(setup: Setup, s: Server, i: nat, ws: seq<TaskEvent>) {
    if i < |s.tasks| then s.tasks[i].stage == StageAfter(setup, s.tasks[i].item, ws) else ws == []
  }

  lemma GotToStep(setup: Setup, s: Server, i: nat, e: TaskEvent, ws: seq<TaskEvent>)
    requires Inv(setup, s) && Enabled(setup, s, Step(i, e)) && GotTo(setup, s, i, ws)
    ensures GotTo(setup, Apply(setup, s, Step(i, e)), i, ws + [e])
  {
    assert TaskOk(setup, Known(s.channel), s.tasks[i]);
    StageOfStep(setup, s.channel, s.tasks[i], e);
    assert (ws + [e])[..|ws|] == ws;
  }

  lemma GotToOther(setup: Setup, s: Server, i: nat, e: Event, ws: seq<TaskEvent>)
    requires Enabled(setup, s, e) && !(e.Step? && e.i == i) && GotTo(setup, s, i, ws)
    ensures GotTo(setup, Apply(setup, s, e), i, ws)
  {
    if !e.Step? {
      MainKeepsTasks(setup, s, e);
    }
  }

  /** How far a task has got follows from its item and its own steps. */
  lemma {:induction false} StageIsFixed(setup: Setup, es: seq<Event>, i: nat)
    requires Legal(setup, Init(setup), es)
    ensures GotTo(setup, Run(setup, Init(setup), es), i, StepsOf(es, i))
  {
    if es != [] {
      var n := |es| - 1;
      var s := Run(setup, Init(setup), es[..n]);
      StageIsFixed(setup, es[..n], i);
      if es[n].Step? && es[n].i == i {
        InvInit(setup);
        InvRun(setup, Init(setup), es[..n]);
        GotToStep(setup, s, i, es[n].e, StepsOf(es[..n], i));
      } else {
        GotToOther(setup, s, i, es[n], StepsOf(es[..n], i));
      }
    }
  }

  /** A task's receiver follows from its stage and the channel's version. */
  lemma ReceiverIsFixed(setup: Setup, s: Server, i: nat)
    requires Reachable(setup, s) && i < |s.tasks|
    ensures var t := s.tasks[i];
            t.rx == if setup.graceful && !t.stage.Finished?
                    then Some(if Acted(t) then s.channel.version else 0) else None
  {
    InvReachable(setup, s);
    ActedHaveSeenReachable(setup, s);
    assert TaskOk(setup, Known(s.channel), s.tasks[i]);
    assert HasSeen(s.channel.version, s.tasks[i]);
  }

  lemma SameTasks(setup: Setup, r: Server, s: Server)
    requires Reachable(setup, r) && Reachable(setup, s) && MainPartOf(r) == MainPartOf(s)
    requires forall i | 0 <= i < |r.tasks| && i < |s.tasks| && r.tasks[i].item == s.tasks[i].item ::
               r.tasks[i].stage == s.tasks[i].stage
    ensures r.tasks == s.tasks
  {
    SpawnedIsFiltered(setup, r);
    SpawnedIsFiltered(setup, s);
    assert |r.tasks| == |Items(r.tasks)| == |Items(s.tasks)| == |s.tasks|;
    forall i | 0 <= i < |r.tasks|
      ensures r.tasks[i] == s.tasks[i]
    {
      assert r.tasks[i].item == Items(r.tasks)[i] == Items(s.tasks)[i] == s.tasks[i].item;
      ReceiverIsFixed(setup, r, i);
      ReceiverIsFixed(setup, s, i);
    }
  }

  /** Confluence. If main does the same in two runs, and each task does the same, then they lead to
      the same state, however the steps are interleaved: the receiver count, what every receiver has
      seen and the connections served included. */
  lemma InterleavingDoesNotMatter(setup: Setup, es: seq<Event>, fs: seq<Event>)
    requires Legal(setup, Init(setup), es) && Legal(setup, Init(setup), fs)
    requires MainOf(es) == MainOf(fs) && forall i: nat :: StepsOf(es, i) == StepsOf(fs, i)
    ensures Run(setup, Init(setup), es) == Run(setup, Init(setup), fs)
  {
    var r, s := Run(setup, Init(setup), es), Run(setup, Init(setup), fs);
    ReachesIsRun(setup, es, r);
    ReachesIsRun(setup, fs, s);
    MainIsFixed(setup, es);
    MainIsFixed(setup, fs);
    forall i | 0 <= i < |r.tasks| && i < |s.tasks| && r.tasks[i].item == s.tasks[i].item
      ensures r.tasks[i].stage == s.tasks[i].stage
    {
      StageIsFixed(setup, es, i);
      StageIsFixed(setup, fs, i);
    }
    SameTasks(setup, r, s);
    InvReachable(setup, r);
    InvReachable(setup, s);
  }

  // ---------- fates ----------

  /** How a task ended is decided by the item it was given and by the handshake oracle alone. */
  lemma FateIsFixed(setup: Setup, s: Server, i: nat)
    requires Reachable(setup, s) && i < |s.tasks| && s.tasks[i].stage.Finished?
    ensures var t := s.tasks[i];
            && (t.stage.outcome.AcceptFailed? <==> t.item.Err?)
            && (t.stage.outcome.HandshakeFailed? <==>
                  t.item.Ok? && setup.tls && setup.handshake(t.item.value).Rejected?)
            && (t.stage.outcome.Served? <==> Servable(setup, t.item))
  {
    InvReachable(setup, s);
    assert TaskOk(setup, Known(s.channel), s.tasks[i]);
  }

  /** Two runs on the same input and the same oracle, under any two schedules and whenever each of
      them was told to stop: the tasks they have in common were given the same items, and where
      both have finished they ended in the same way. */
  lemma FateIgnoresSchedule(setup: Setup, r: Server, s: Server, i: nat)
    requires Reachable(setup, r) && Reachable(setup, s)
    requires i < |r.tasks| && i < |s.tasks|
    ensures r.tasks[i].item == s.tasks[i].item
    ensures r.tasks[i].stage.Finished? && s.tasks[i].stage.Finished? ==>
              var a, b := r.tasks[i].stage.outcome, s.tasks[i].stage.outcome;
              a.Served? == b.Served? && a.AcceptFailed? == b.AcceptFailed? && a.HandshakeFailed? == b.HandshakeFailed?
  {
    SpawnedIsPrefix(setup, r);
    SpawnedIsPrefix(setup, s);
    var all := TcpFilter(setup.input);
    assert r.tasks[i].item == Items(r.tasks)[i] == all[i];
    assert s.tasks[i].item == Items(s.tasks)[i] == all[i];
    if r.tasks[i].stage.Finished? && s.tasks[i].stage.Finished? {
      FateIsFixed(setup, r, i);
      FateIsFixed(setup, s, i);
    }
  }
}
