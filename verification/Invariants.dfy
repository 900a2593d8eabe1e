/** What every step of the server keeps. */
module Invariants {
  import opened Wrappers
  import opened Streams
  import opened Watch
  import opened Protocol
  import Connection

  // ---------- sums over the tasks ----------

  function Sum(f: Task -> int, ts: seq<Task>): int {
    if ts == [] then 0 else var n := |ts| - 1; Sum(f, ts[..n]) + f(ts[n])
  }

  lemma SumAppend(f: Task -> int, ts: seq<Task>, t: Task)
    ensures Sum(f, ts + [t]) == Sum(f, ts) + f(t)
  {
    assert (ts + [t])[..|ts|] == ts;
  }

  lemma {:induction false} SumUpdate(f: Task -> int, ts: seq<Task>, i: nat, t: Task)
    requires i < |ts|
    ensures Sum(f, ts[i := t]) == Sum(f, ts) - f(ts[i]) + f(t)
  {
    var n := |ts| - 1;
    if i == n {
      assert ts[i := t][..n] == ts[..n];
    } else {
      SumUpdate(f, ts[..n], i, t);
      assert ts[i := t][..n] == ts[..n][i := t];
    }
  }

  lemma {:induction false} SumOfNats(f: Task -> int, ts: seq<Task>)
    requires forall t | t in ts :: 0 <= f(t)
    ensures 0 <= Sum(f, ts)
    ensures Sum(f, ts) == 0 <==> forall t | t in ts :: f(t) == 0
  {
    if ts != [] {
      var n := |ts| - 1;
      SumOfNats(f, ts[..n]);
      assert ts == ts[..n] + [ts[n]];
    }
  }

  function Bag(f: Task -> multiset<Io>, ts: seq<Task>): multiset<Io> {
    if ts == [] then multiset{} else var n := |ts| - 1; Bag(f, ts[..n]) + f(ts[n])
  }

  lemma BagAppend(f: Task -> multiset<Io>, ts: seq<Task>, t: Task)
    ensures Bag(f, ts + [t]) == Bag(f, ts) + f(t)
  {
    assert (ts + [t])[..|ts|] == ts;
  }

  lemma {:induction false} BagUpdate(f: Task -> multiset<Io>, ts: seq<Task>, i: nat, t: Task, extra: multiset<Io>)
    requires i < |ts| && f(t) == f(ts[i]) + extra
    ensures Bag(f, ts[i := t]) == Bag(f, ts) + extra
  {
    var n := |ts| - 1;
    var us := ts[i := t];
    if i == n {
      assert us[..n] == ts[..n];
    } else {
      BagUpdate(f, ts[..n], i, t, extra);
      assert us[..n] == ts[..n][i := t];
      assert us[n] == ts[n];
    }
  }

  // ---------- what each state looks like ----------

  function Holds(t: Task): int { Bit(t.rx.Some?) }

  function Items(ts: seq<Task>): seq<Incoming> {
    seq(|ts|, i requires 0 <= i < |ts| => ts[i].item)
  }

  /** The connection of a task that got as far as having a transport. */
  function Reached(t: Task): multiset<Io> {
    if t.item.Ok? && (t.stage.Serving? || (t.stage.Finished? && t.stage.outcome.Served?))
    then multiset{t.item.value} else multiset{}
  }

  function Gather(ts: seq<Task>): multiset<Io> {
    Bag(Reached, ts)
  }

  /** The shutdown has been made known on the channel: by a new version, or by the sender's end. */
  predicate Known(channel: Channel) {
    0 < channel.version || !channel.senderAlive
  }

  /** Whether this item is a connection that gets a transport. */
  predicate Servable(setup: Setup, item: Incoming) {
    item.Ok? && (setup.tls ==> setup.handshake(item.value).Accepted?)
  }

  /** A connection loop inside the server: no age, and one call to `graceful_shutdown` exactly if
      it had a signal that has fired, which needs the shutdown to be known. */
  predicate LoopOk(setup: Setup, known: bool, c: ConnState) {
    && !c.ageArmed
    && (c.signalArmed ==> setup.graceful)
    && c.calls == (if setup.graceful && !c.signalArmed then 1 else 0)
    && (0 < c.calls ==> known)
  }

  predicate TaskOk(setup: Setup, known: bool, t: Task) {
    && (t.rx.Some? <==> setup.graceful && !t.stage.Finished?)
    && (t.rx.Some? && (t.stage.Serving? ==> t.stage.conn.signalArmed) ==> t.rx.value == 0)
    && match t.stage
       case Spawned => true
       case Handshaking => setup.tls && t.item.Ok?
       case Serving(c) => Servable(setup, t.item) && c.live && LoopOk(setup, known, c)
       case Finished(AcceptFailed) => t.item.Err?
       case Finished(HandshakeFailed) => t.item.Ok? && !Servable(setup, t.item)
       case Finished(Served(c)) => Servable(setup, t.item) && !c.live && LoopOk(setup, known, c)
  }

  predicate TasksOk(setup: Setup, known: bool, ts: seq<Task>) {
    forall i | 0 <= i < |ts| :: TaskOk(setup, known, ts[i])
  }

  predicate PhaseOk(setup: Setup, s: Server) {
    && (s.phase.Accepting? ==> s.signalArmed == setup.graceful)
    && (s.phase == Accepting(false) ==> s.consumed == |setup.input|)
    && (s.mainRx.Some? ==> s.mainRx.value == 0)
    && s.channel.version <= 1
    && (!setup.graceful ==> s.phase.Accepting? || s.phase.Cancelled?)
    && match s.phase
       case Accepting(_) => s.mainRx.Some? && s.channel.version == 0 && s.channel.senderAlive
       case LeftLoop => s.mainRx.Some? && s.channel.version == 0 && s.channel.senderAlive
       case Announced => s.mainRx.Some? && s.channel.version == 1 && s.channel.senderAlive
       case Draining => s.mainRx.None? && s.channel.version == 1 && s.channel.senderAlive
       case Returned => s.mainRx.None? && s.channel.version == 1 && !s.channel.senderAlive
                        && s.channel.receivers == 0
       case Cancelled => s.mainRx.None? && !s.channel.senderAlive
  }

  predicate Counted(s: Server) {
    s.channel.receivers == Bit(s.mainRx.Some?) + Sum(Holds, s.tasks)
  }

  predicate Accounted(setup: Setup, s: Server) {
    && s.consumed <= |setup.input|
    && Items(s.tasks) == TcpFilter(setup.input[..s.consumed])
    && s.transports == Gather(s.tasks)
  }

  ghost predicate Inv(setup: Setup, s: Server) {
    && PhaseOk(setup, s)
    && Counted(s)
    && Accounted(setup, s)
    && TasksOk(setup, Known(s.channel), s.tasks)
  }

  // ---------- preservation ----------

  lemma InvInit(setup: Setup)
    ensures Inv(setup, Init(setup))
  {
    assert setup.input[..0] == [];
  }

  /** A task's own step keeps what is known of the task. */
  lemma TaskOkStep(setup: Setup, channel: Channel, t: Task, e: TaskEvent)
    requires TaskOk(setup, Known(channel), t) && TaskEnabled(channel, t, e)
    ensures TaskOk(setup, Known(channel), TaskStep(setup, channel, t, e))
  {
    match e {
      case Http(won) => LoopOkStep(setup, channel, t.stage.conn, won);
      case _ =>
    }
  }

  lemma LoopOkStep(setup: Setup, channel: Channel, c: ConnState, won: ConnEvent)
    requires LoopOk(setup, Known(channel), c) && Connection.Enabled(c, won)
    requires won.SignalFired? ==> Known(channel)
    ensures !won.AgeFired? && LoopOk(setup, Known(channel), Connection.Apply(c, won))
  {
  }

  lemma TaskStepShape(setup: Setup, channel: Channel, t: Task, e: TaskEvent)
    requires TaskEnabled(channel, t, e)
    ensures var t' := TaskStep(setup, channel, t, e);
            && t'.item == t.item && !t.stage.Finished?
            && (t'.rx.Some? ==> t.rx.Some?)
            && ((t.stage.Serving? ==> t.item.Ok?) ==> Reached(t') == Reached(t) + Wrapped(t, t'))
  {
  }

  lemma CountedReplace(s: Server, i: nat, t: Task)
    requires Counted(s) && i < |s.tasks| && (t.rx.Some? ==> s.tasks[i].rx.Some?)
    ensures Counted(Replace(s, i, t))
    ensures Replace(s, i, t).channel.receivers == s.channel.receivers - Holds(s.tasks[i]) + Holds(t)
  {
    SumUpdate(Holds, s.tasks, i, t);
  }

  lemma ItemsUpdate(ts: seq<Task>, i: nat, t: Task)
    requires i < |ts| && t.item == ts[i].item
    ensures Items(ts[i := t]) == Items(ts)
  {
  }

  lemma AccountedReplace(setup: Setup, s: Server, i: nat, t: Task)
    requires Accounted(setup, s) && i < |s.tasks|
    requires t.item == s.tasks[i].item && Reached(t) == Reached(s.tasks[i]) + Wrapped(s.tasks[i], t)
    ensures Accounted(setup, Replace(s, i, t))
  {
    BagUpdate(Reached, s.tasks, i, t, Wrapped(s.tasks[i], t));
    ItemsUpdate(s.tasks, i, t);
  }

  lemma InvReplace(setup: Setup, s: Server, i: nat, t: Task)
    requires Inv(setup, s) && i < |s.tasks|
    requires TaskOk(setup, Known(s.channel), t)
    requires t.item == s.tasks[i].item && (t.rx.Some? ==> s.tasks[i].rx.Some?)
    requires Reached(t) == Reached(s.tasks[i]) + Wrapped(s.tasks[i], t)
    requires s.phase.Returned? ==> Holds(t) == Holds(s.tasks[i])
    ensures Inv(setup, Replace(s, i, t))
  {
    CountedReplace(s, i, t);
    AccountedReplace(setup, s, i, t);
    assert TasksOk(setup, Known(s.channel), s.tasks[i := t]);
  }

  lemma InvTaskStep(setup: Setup, s: Server, i: nat, e: TaskEvent)
    requires Inv(setup, s) && Enabled(setup, s, Step(i, e))
    ensures Inv(setup, Apply(setup, s, Step(i, e)))
  {
    var t := s.tasks[i];
    assert TaskOk(setup, Known(s.channel), t);
    TaskOkStep(setup, s.channel, t, e);
    TaskStepShape(setup, s.channel, t, e);
    if s.phase.Returned? {
      SumOfNats(Holds, s.tasks);
      assert Holds(t) == 0;
    }
    InvReplace(setup, s, i, TaskStep(setup, s.channel, t, e));
  }

  lemma AppendSpawned(ts: seq<Task>, t: Task)
    requires t.stage.Spawned?
    ensures Sum(Holds, ts + [t]) == Sum(Holds, ts) + Holds(t)
    ensures Gather(ts + [t]) == Gather(ts)
    ensures Items(ts + [t]) == Items(ts) + [t.item]
  {
    SumAppend(Holds, ts, t);
    BagAppend(Reached, ts, t);
    assert Gather(ts) + multiset{} == Gather(ts);
  }

  lemma InvSpawn(setup: Setup, s: Server, item: Incoming)
    requires s.phase.Accepting? && s.consumed <= |setup.input|
    requires PhaseOk(setup, s) && Counted(s) && TasksOk(setup, Known(s.channel), s.tasks)
    requires Items(s.tasks) + [item] == TcpFilter(setup.input[..s.consumed]) && s.transports == Gather(s.tasks)
    ensures Inv(setup, Spawn(setup, s, item))
  {
    var t := Task(item, if setup.graceful then Some(0) else None, Spawned);
    SpawnIs(setup, s, item);
    AppendSpawned(s.tasks, t);
    AppendOk(setup, Known(s.channel), s.tasks, t);
  }

  lemma SpawnIs(setup: Setup, s: Server, item: Incoming)
    requires s.mainRx == Some(0)
    ensures var t := Task(item, if setup.graceful then Some(0) else None, Spawned);
            Spawn(setup, s, item)
            == s.(channel := s.channel.(receivers := s.channel.receivers + Holds(t)), tasks := s.tasks + [t])
  {
  }

  lemma AppendOk(setup: Setup, known: bool, ts: seq<Task>, t: Task)
    requires TasksOk(setup, known, ts) && TaskOk(setup, known, t)
    ensures TasksOk(setup, known, ts + [t])
  {
  }

  lemma InvPull(setup: Setup, s: Server)
    requires Inv(setup, s) && Enabled(setup, s, Pull)
    ensures Inv(setup, Apply(setup, s, Pull))
  {
    var read := s.(consumed := s.consumed + 1);
    TcpFilterSnoc(setup.input, s.consumed);
    match TcpYieldOf(setup.input[s.consumed]) {
      case None => assert TcpFilter(setup.input[..read.consumed]) == Items(s.tasks);
      case Some(item) => InvSpawn(setup, read, item);
    }
  }

  lemma InvMain(setup: Setup, s: Server, e: Event)
    requires Inv(setup, s) && Enabled(setup, s, e)
    requires e.StreamEnd? || e.Signal? || e.Announce? || e.DropMainRx? || e.Closed? || e.Cancel?
    ensures Inv(setup, Apply(setup, s, e))
  {
    SumOfNats(Holds, s.tasks);
    var r := Apply(setup, s, e);
    forall i | 0 <= i < |r.tasks|
      ensures TaskOk(setup, Known(r.channel), r.tasks[i])
    {
      assert TaskOk(setup, Known(s.channel), s.tasks[i]);
    }
  }

  lemma InvStep(setup: Setup, s: Server, e: Event)
    requires Inv(setup, s) && Enabled(setup, s, e)
    ensures Inv(setup, Apply(setup, s, e))
  {
    match e {
      case Pull => InvPull(setup, s);
      case Step(i, e') => InvTaskStep(setup, s, i, e');
      case _ => InvMain(setup, s, e);
    }
  }

  /** The invariant holds along every run, whatever the interleaving. */
  lemma {:induction false} InvRun(setup: Setup, s: Server, es: seq<Event>)
    requires Inv(setup, s) && Legal(setup, s, es)
    ensures Inv(setup, Run(setup, s, es))
  {
    if es != [] {
      var n := |es| - 1;
      InvRun(setup, s, es[..n]);
      InvStep(setup, Run(setup, s, es[..n]), es[n]);
    }
  }

  lemma InvReachable(setup: Setup, s: Server)
    requires Reachable(setup, s)
    ensures Inv(setup, s)
  {
    var es :| Reaches(setup, es, s);
    ReachesIsRun(setup, es, s);
    InvInit(setup);
    InvRun(setup, Init(setup), es);
  }
}
