/** The life of one connection (src/http.rs, `serve_http_connection`): first what a completed
    select does to it, with the laws of whole runs, then the polled loop that produces such runs. */
module Connection {
  import opened Wrappers
  import opened Futures

  /** What the loop knows about its three futures: whether the connection is still running,
      whether the age timer can still fire, whether the shutdown signal can still fire, and how
      often `graceful_shutdown` has been called. */
  datatype ConnState = ConnState(live: bool, ageArmed: bool, signalArmed: bool, calls: nat)

  /** The branch that wins a select. */
  datatype ConnEvent = ConnDone | AgeFired | SignalFired

  function Fresh(ageSet: bool, watched: bool): ConnState {
    ConnState(true, ageSet, watched, 0)
  }

  predicate Enabled(c: ConnState, e: ConnEvent) {
    c.live && match e
              case ConnDone => true
              case AgeFired => c.ageArmed
              case SignalFired => c.signalArmed
  }

  function Apply(c: ConnState, e: ConnEvent): ConnState
    requires Enabled(c, e)
  {
    match e
    case ConnDone => c.(live := false)
    case AgeFired => c.(ageArmed := false, calls := c.calls + 1)
    case SignalFired => c.(signalArmed := false, calls := c.calls + 1)
  }

  /** Whether the selects `es`, in this order, can follow one another from `c`. */
  predicate Legal(c: ConnState, es: seq<ConnEvent>)
    decreases |es|, 0
  {
    es == [] ||
    (var n := |es| - 1; Legal(c, es[..n]) && Enabled(Run(c, es[..n]), es[n]))
  }

  function Run(c: ConnState, es: seq<ConnEvent>): ConnState
    requires Legal(c, es)
    decreases |es|, 1
  {
    if es == [] then c else var n := |es| - 1; Apply(Run(c, es[..n]), es[n])
  }

  /** The selects `es` are possible from `c` and lead to `d`. */
  ghost predicate Leads(c: ConnState, es: seq<ConnEvent>, d: ConnState) {
    Legal(c, es) && Run(c, es) == d
  }

  lemma LeadsStep(c: ConnState, es: seq<ConnEvent>, d: ConnState, e: ConnEvent)
    requires Leads(c, es, d) && Enabled(d, e)
    ensures Leads(c, es + [e], Apply(d, e))
  {
    assert (es + [e])[..|es|] == es;
  }

  /** Selects that can still complete. */
  function Measure(c: ConnState): nat {
    Bit(c.live) + Bit(c.ageArmed) + Bit(c.signalArmed)
  }

  function Count(es: seq<ConnEvent>, e: ConnEvent): nat {
    if es == [] then 0
    else var n := |es| - 1; Count(es[..n], e) + Bit(es[n] == e)
  }

  /** Each completed select uses up one of at most three chances, whatever the poll schedule. */
  lemma {:induction false} SelectsAreBounded(c: ConnState, es: seq<ConnEvent>)
    requires Legal(c, es)
    ensures |es| + Measure(Run(c, es)) == Measure(c)
  {
    if es != [] {
      SelectsAreBounded(c, es[..|es| - 1]);
    }
  }

  /** Over any run from the start: the loop is over exactly when the connection has completed,
      it completes at most once and last of all, `graceful_shutdown` has been called once per
      firing of the timer and of the signal, and each of those fires at most once and only if it
      was set up. */
  lemma {:induction false} RunExact(ageSet: bool, watched: bool, es: seq<ConnEvent>)
    requires Legal(Fresh(ageSet, watched), es)
    ensures var c := Run(Fresh(ageSet, watched), es);
            && (!c.live <==> es != [] && es[|es| - 1] == ConnDone)
            && Count(es, ConnDone) == Bit(!c.live)
            && (forall k | 0 <= k < |es| - 1 :: es[k] != ConnDone)
            && c.calls == Count(es, AgeFired) + Count(es, SignalFired)
            && Count(es, AgeFired) == Bit(ageSet) - Bit(c.ageArmed)
            && Count(es, SignalFired) == Bit(watched) - Bit(c.signalArmed)
  {
    if es != [] {
      var n := |es| - 1;
      RunExact(ageSet, watched, es[..n]);
      assert forall k | 0 <= k < n :: es[k] == es[..n][k];
      assert n > 0 ==> es[..n][n - 1] == es[n - 1];
    }
  }

  /** So at most three selects complete and `graceful_shutdown` is called at most twice, or at
      most once without an age or without a watcher. */
  lemma RunBounds(ageSet: bool, watched: bool, es: seq<ConnEvent>)
    requires Legal(Fresh(ageSet, watched), es)
    ensures var c := Run(Fresh(ageSet, watched), es);
            && |es| <= 1 + Bit(ageSet) + Bit(watched) <= 3
            && c.calls <= Bit(ageSet) + Bit(watched) <= 2
  {
    SelectsAreBounded(Fresh(ageSet, watched), es);
    RunExact(ageSet, watched, es);
  }

  /** Without an age, the state the loop is in tells which selects have completed, and in which
      order. */
  lemma {:induction false} RunWithoutAge(watched: bool, es: seq<ConnEvent>)
    requires Legal(Fresh(false, watched), es)
    ensures var c := Run(Fresh(false, watched), es);
            es == (if watched && !c.signalArmed then [SignalFired] else []) + (if c.live then [] else [ConnDone])
  {
    if es != [] {
      RunWithoutAge(watched, es[..|es| - 1]);
      RunExact(false, watched, es);
    }
  }

  // ---------- the polled loop ----------

  datatype HttpResult = Served | HttpError

  /** `sleep_or_pending`: a timer, or a future that never completes. */
  datatype AgeTimer = Waiting(timer: Future<()>) | Never

  function SleepOrPending(waitFor: Option<nat -> Poll<()>>): AgeTimer {
    match waitFor
    case Some(wait) => Waiting(Unpolled(wait))
    case None => Never
  }

  datatype Branch = ConnBranch | AgeBranch | SignalBranch

  /** `select!` polls each of its branches once, in an order of its own choosing. */
  predicate PollOrder(order: seq<Branch>) {
    |order| == 3 && order[0] != order[1] && order[0] != order[2] && order[1] != order[2]
  }

  function EventOf(b: Branch): ConnEvent {
    match b
    case ConnBranch => ConnDone
    case AgeBranch => AgeFired
    case SignalBranch => SignalFired
  }

  /** Which branches would be ready if they were polled now. */
  datatype Readiness = Readiness(conn: bool, age: bool, signal: bool) {
    predicate Of(b: Branch) {
      match b
      case ConnBranch => conn
      case AgeBranch => age
      case SignalBranch => signal
    }
  }

  /** The first branch in `order` that is ready. */
  function Winner(order: seq<Branch>, ready: Readiness): Option<ConnEvent> {
    if order == [] then None
    else if ready.Of(order[0]) then Some(EventOf(order[0]))
    else Winner(order[1..], ready)
  }

  ghost predicate FirstReady(order: seq<Branch>, ready: Readiness, k: int) {
    0 <= k < |order| && ready.Of(order[k]) && forall j | 0 <= j < k :: !ready.Of(order[j])
  }

  /** A select completes exactly when one of its branches is ready, with the first such branch. */
  lemma WinnerReady(order: seq<Branch>, ready: Readiness)
    requires PollOrder(order)
    ensures forall e :: Winner(order, ready) == Some(e) <==>
              exists k :: FirstReady(order, ready, k) && EventOf(order[k]) == e
    ensures Winner(order, ready) == None <==> !ready.conn && !ready.age && !ready.signal
    ensures Winner(order, ready) == Some(ConnDone) ==> ready.conn
    ensures Winner(order, ready) == Some(AgeFired) ==> ready.age
    ensures Winner(order, ready) == Some(SignalFired) ==> ready.signal
  {
    var rest := order[1..];
    assert Winner(order, ready) == if ready.Of(order[0]) then Some(EventOf(order[0])) else Winner(rest, ready);
    assert Winner(rest, ready) == if ready.Of(order[1]) then Some(EventOf(order[1])) else Winner(rest[1..], ready);
    assert Winner(rest[1..], ready) == if ready.Of(order[2]) then Some(EventOf(order[2])) else None;
    forall k | FirstReady(order, ready, k)
      ensures Winner(order, ready) == Some(EventOf(order[k]))
    {
      assert k == 0 || k == 1 || k == 2;
    }
    if Winner(order, ready).Some? {
      var k := if ready.Of(order[0]) then 0 else if ready.Of(order[1]) then 1 else 2;
      assert FirstReady(order, ready, k);
    }
  }

  /** How often each of the three futures has been polled. */
  datatype Asks = Asks(conn: nat, age: nat, signal: nat) {
    function Of(b: Branch): nat {
      match b
      case ConnBranch => conn
      case AgeBranch => age
      case SignalBranch => signal
    }

    function Add(more: Asks): Asks {
      Asks(conn + more.conn, age + more.age, signal + more.signal)
    }

    /** One poll of a branch more. There is no timer to poll when none is set. */
    function Plus(b: Branch, timed: bool): Asks {
      Add(Asks(Bit(b == ConnBranch), Bit(b == AgeBranch && timed), Bit(b == SignalBranch)))
    }

    predicate Within(least: Asks, more: Asks) {
      forall b: Branch :: least.Of(b) <= Of(b) <= least.Of(b) + more.Of(b)
    }
  }

  /** After the first `k` branches of `order` have been polled. */
  function PlusFirst(a: Asks, order: seq<Branch>, k: nat, timed: bool): Asks
    requires k <= |order|
  {
    if k == 0 then a else PlusFirst(a, order, k - 1, timed).Plus(order[k - 1], timed)
  }

  lemma {:induction false} PlusFirstOf(a: Asks, order: seq<Branch>, k: nat, timed: bool, b: Branch)
    requires PollOrder(order) && k <= 3
    ensures PlusFirst(a, order, k, timed).Of(b) == a.Of(b) + Bit(b in order[..k] && (b != AgeBranch || timed))
  {
    if k != 0 {
      PlusFirstOf(a, order, k - 1, timed, b);
      assert order[..k] == order[..k - 1] + [order[k - 1]];
    }
  }

  /** Each branch is polled at most once, and exactly once when all have been polled. */
  lemma EachOnce(a: Asks, order: seq<Branch>, k: nat, timed: bool)
    requires PollOrder(order) && k <= 3
    ensures PlusFirst(a, order, k, timed).Within(a, Asks(1, Bit(timed), 1))
    ensures k == 3 ==> PlusFirst(a, order, k, timed) == a.Add(Asks(1, Bit(timed), 1))
  {
    PlusFirstOf(a, order, k, timed, ConnBranch);
    PlusFirstOf(a, order, k, timed, AgeBranch);
    PlusFirstOf(a, order, k, timed, SignalBranch);
    if k == 3 {
      assert order[..k] == [order[0], order[1], order[2]];
    }
  }

  /** The loop at a moment: its state, how often its futures have been polled, and which polls they
      would complete at. */
  datatype Moment = Moment(state: ConnState, asked: Asks, conn: iset<nat>, age: iset<nat>, signal: iset<nat>) {
    function Completions(b: Branch): iset<nat> {
      match b
      case ConnBranch => conn
      case AgeBranch => age
      case SignalBranch => signal
    }

    /** The branch can still win, with answer number `n` of its future, and `polls` polls of the
        select are enough to get there whichever other branches win on the way. */
    ghost predicate Due(b: Branch, n: nat, polls: nat) {
      && Enabled(state, EventOf(b)) && n in Completions(b)
      && n - asked.Of(b) + Measure(state) <= polls + Bit(b != ConnBranch)
    }
  }

  /** From `m` to `m'` the select has been polled `polls` times and `b` has not won: each of those polls
      has asked its future again, or has used up another one. */
  ghost predicate Tracked(b: Branch, m: Moment, m': Moment, polls: nat) {
    && Enabled(m'.state, EventOf(b))
    && m'.Completions(b) == m.Completions(b)
    && polls + Measure(m'.state) + m.asked.Of(b) <= Measure(m.state) + m'.asked.Of(b)
  }

  /** What one more poll of the select does to a branch that does not win it. */
  ghost predicate Passes(b: Branch, won: Option<ConnEvent>, m: Moment, m': Moment) {
    && won != Some(EventOf(b)) && won != Some(ConnDone)
    && (if won.Some? then Enabled(m.state, won.value) && m'.state == Apply(m.state, won.value) else m'.state == m.state)
    && m'.Completions(b) == m.Completions(b)
    && m.asked.Of(b) + Bit(won == None && (b != AgeBranch || m.state.ageArmed)) <= m'.asked.Of(b)
  }

  lemma TrackedStep(b: Branch, m0: Moment, m: Moment, polls: nat, won: Option<ConnEvent>, m': Moment)
    requires Tracked(b, m0, m, polls) && Passes(b, won, m, m')
    ensures Tracked(b, m0, m', polls + 1)
  {
  }

  class HttpConnection {
    var conn: Future<HttpResult>
    var sleep: AgeTimer
    const signal: Fuse<()>
    var gracefulCalls: nat
    var returned: bool
    // The state the loop started from, and the selects completed since.
    ghost const start: ConnState
    ghost var events: seq<ConnEvent>

    /** Between the polls of a select that `won` has just won, or that nothing has won yet, and
        the handler: only the winner's future has completed. */
    ghost predicate Polled(won: Option<ConnEvent>)
      reads this, signal
    {
      && conn.Valid() && conn.done == (won == Some(ConnDone))
      && (sleep.Waiting? ==> sleep.timer.Valid() && sleep.timer.done == (won == Some(AgeFired)))
      && (won == Some(AgeFired) ==> sleep.Waiting?)
      && signal.Valid()
      && (won == Some(SignalFired) ==> signal.inner.None?)
      && !returned
      && start == Fresh(start.ageArmed, start.signalArmed)
      && Leads(start, events,
               ConnState(true, sleep.Waiting?, signal.inner.Some? || won == Some(SignalFired), gracefulCalls))
    }

    ghost function State(): ConnState
      reads this, signal
    {
      ConnState(!conn.done, sleep.Waiting?, signal.inner.Some?, gracefulCalls)
    }

    /** Between selects, and after the loop: the selects completed so far have led to the present
        state. */
    ghost predicate Valid()
      reads this, signal
    {
      if returned
      then conn.done && start == Fresh(start.ageArmed, start.signalArmed) && Leads(start, events, State())
      else Polled(None)
    }

    ghost function Ready(): Readiness
      reads this, signal
    {
      Readiness(
        conn.answers(conn.polls).Ready?,
        sleep.Waiting? && sleep.timer.answers(sleep.timer.polls).Ready?,
        signal.inner.Some? && signal.inner.value.answers(signal.inner.value.polls).Ready?)
    }

    /** How often the futures have been polled. */
    ghost function Asked(): Asks
      reads this, signal
    {
      Asks(conn.polls, if sleep.Waiting? then sleep.timer.polls else 0, |signal.results|)
    }

    /** Whether the future of a branch would answer `Ready` to poll number `n`. */
    ghost predicate Completes(b: Branch, n: nat)
      reads this, signal
    {
      match b
      case ConnBranch => conn.answers(n).Ready?
      case AgeBranch => sleep.Waiting? && sleep.timer.answers(n).Ready?
      case SignalBranch => signal.source.Some? && signal.source.value(n).Ready?
    }

    ghost function Completions(b: Branch): iset<nat>
      reads this, signal
    {
      iset n: nat | Completes(b, n)
    }

    ghost function Now(): Moment
      reads this, signal
    {
      Moment(State(), Asked(), Completions(ConnBranch), Completions(AgeBranch), Completions(SignalBranch))
    }

    /** The futures are the ones they were, except that they may have been polled. */
    twostate predicate SameFutures()
      reads this, signal
    {
      && conn.answers == old(conn.answers)
      && sleep.Waiting? == old(sleep.Waiting?)
      && (sleep.Waiting? ==> sleep.timer.answers == old(sleep.timer.answers))
      && signal.source == old(signal.source)
    }

    /** The loop's futures: the watcher's `changed`, if there is a watcher, wrapped in a fuse;
        the age timer, if an age is set; and the connection. */
    constructor (conn: nat -> Poll<HttpResult>, watcher: Option<nat -> Poll<()>>, maxAge: Option<nat -> Poll<()>>)
      ensures Valid() && fresh(signal) && !returned
      ensures start == Fresh(maxAge.Some?, watcher.Some?) == State() && events == []
      ensures this.conn == Unpolled(conn) && this.sleep == SleepOrPending(maxAge)
      ensures signal.source == watcher && signal.results == []
    {
      this.signal := new Fuse(match watcher case Some(w) => Some(Unpolled(w)) case None => None);
      this.sleep := SleepOrPending(maxAge);
      this.conn := Unpolled(conn);
      this.gracefulCalls, this.returned := 0, false;
      this.start := Fresh(maxAge.Some?, watcher.Some?);
      this.events := [];
    }

    /** What the surroundings of the loop decide before it is polled: how the connection and, as
        long as it waits for it, the watcher are going to answer. */
    method Resolve(connAnswer: Poll<HttpResult>, watcherAnswer: Poll<()>)
      requires Valid() && !returned
      modifies this`conn, signal
      ensures Valid() && State() == old(State())
      ensures Ready() == Readiness(connAnswer.Ready?, old(Ready()).age, State().signalArmed && watcherAnswer.Ready?)
    {
      conn := conn.Resolve(connAnswer);
      signal.Resolve(watcherAnswer);
    }

    /** Poll one branch. Nothing is polled that has already completed. */
    method PollBranch(b: Branch) returns (ready: bool)
      requires Polled(None)
      modifies this`conn, this`sleep, signal`inner, signal`results
      ensures Polled(if ready then Some(EventOf(b)) else None)
      ensures SameFutures()
      ensures Asked() == old(Asked()).Plus(b, sleep.Waiting?)
      ensures ready == old(Ready()).Of(b)
      ensures forall b' | b' != b :: Ready().Of(b') == old(Ready()).Of(b')
    {
      match b {
        case ConnBranch =>
          var (answer, polled) := conn.PollOnce();
          conn, ready := polled, answer.Ready?;
        case AgeBranch =>
          match sleep {
            case Waiting(timer) =>
              var (answer, polled) := timer.PollOnce();
              sleep, ready := Waiting(polled), answer.Ready?;
            case Never =>
              ready := false;
          }
        case SignalBranch =>
          var answer := signal.Poll();
          ready := answer.Ready?;
      }
    }

    /** One poll of the select: its branches in order, until one of them is ready, and so all of them
        if none is. A signal that is ready but loses stays ready. */
    method PollSelect(order: seq<Branch>) returns (won: Option<ConnEvent>)
      requires Polled(None) && PollOrder(order)
      modifies this`conn, this`sleep, signal`inner, signal`results
      ensures Polled(won)
      ensures SameFutures()
      ensures Asked().Within(old(Asked()), Asks(1, Bit(sleep.Waiting?), 1))
      ensures won == None ==> Asked() == old(Asked()).Add(Asks(1, Bit(sleep.Waiting?), 1))
      ensures won == Winner(order, old(Ready()))
      ensures won != Some(SignalFired) && old(Ready()).signal ==> Ready().signal
    {
      won := None;
      var k := 0;
      while k < 3 && won == None
        invariant 0 <= k <= 3
        invariant Polled(won)
        invariant won == None ==> forall j | k <= j < 3 :: Ready().Of(order[j]) == old(Ready()).Of(order[j])
        invariant won != Some(SignalFired) && old(Ready()).signal ==> Ready().signal
        invariant SameFutures()
        invariant Asked() == PlusFirst(old(Asked()), order, k, sleep.Waiting?)
        invariant Winner(order, old(Ready())) == if won == None then Winner(order[k..], old(Ready())) else won
      {
        var ready := PollBranch(order[k]);
        if ready {
          won := Some(EventOf(order[k]));
        }
        k := k + 1;
      }
      EachOnce(old(Asked()), order, k, sleep.Waiting?);
    }

    method GracefulShutdown()
      requires !conn.done
      modifies this`gracefulCalls
      ensures gracefulCalls == old(gracefulCalls) + 1
    {
      gracefulCalls := gracefulCalls + 1;
    }

    /** The handler of the branch that has won the select. */
    method Handle(won: ConnEvent)
      requires Polled(Some(won))
      modifies this`returned, this`sleep, this`gracefulCalls, this`events
      ensures Valid() && returned == (won == ConnDone)
      ensures events == old(events) + [won]
      ensures won != SignalFired ==> Ready().signal == old(Ready()).signal
      ensures forall b: Branch | EventOf(b) != won :: Asked().Of(b) == old(Asked()).Of(b)
      ensures forall b | EventOf(b) != won :: Completions(b) == old(Completions(b))
    {
      LeadsStep(start, events, Run(start, events), won);
      match won {
        case ConnDone =>
          returned := true;
        case AgeFired =>
          GracefulShutdown();
          sleep := SleepOrPending(None);
        case SignalFired =>
          GracefulShutdown();
      }
      events := events + [won];
    }

    /** One poll of the select and, if it completes, the handler of its winner. */
    method Turn(order: seq<Branch>) returns (won: Option<ConnEvent>)
      requires Valid() && !returned && PollOrder(order)
      modifies this, signal`inner, signal`results
      ensures Valid() && returned == (won == Some(ConnDone))
      ensures forall b | won != Some(EventOf(b)) ::
                old(Asked()).Of(b) + Bit(won == None && (b != AgeBranch || sleep.Waiting?)) <= Asked().Of(b)
      ensures forall b | won != Some(EventOf(b)) :: Completions(b) == old(Completions(b))
      ensures won == Winner(order, old(Ready()))
      ensures events == old(events) + (if won.Some? then [won.value] else [])
      ensures match won
              case None => State() == old(State())
              case Some(e) => Enabled(old(State()), e) && State() == Apply(old(State()), e)
      ensures forall e :: Count(events, e) == Count(old(events), e) + Bit(won == Some(e))
      ensures old(Ready()).signal && won != Some(SignalFired) ==> won != None && Ready().signal
    {
      WinnerReady(order, Ready());
      ghost var before := events;
      won := PollSelect(order);
      if won.Some? {
        Handle(won.value);
        assert events[..|events| - 1] == before;
      }
    }

    /** After `polls` polls of the select since `m`, when the completed selects were `es`, the branch
        `b` has won one of them or is `Tracked`. */
    ghost predicate OnTrack(b: Branch, m: Moment, es: seq<ConnEvent>, polls: nat)
      reads this, signal
    {
      || returned
      || Count(es, EventOf(b)) < Count(events, EventOf(b))
      || (Count(es, EventOf(b)) == Count(events, EventOf(b)) && Tracked(b, m, Now(), polls))
    }

    /** A future that can still complete has not been asked for the answer it completes with. */
    lemma NotAskedYet(b: Branch, n: nat)
      requires Valid() && Enabled(State(), EventOf(b)) && n in Completions(b)
      ensures Asked().Of(b) <= n
    {
    }

    lemma DueHasWon(m: Moment, es: seq<ConnEvent>, polls: nat)
      requires Valid() && Exact() && forall b | Enabled(m.state, EventOf(b)) :: OnTrack(b, m, es, polls)
      ensures forall b, n: nat | m.Due(b, n, polls) :: returned || Count(events, EventOf(b)) == 1
    {
      forall b, n: nat | m.Due(b, n, polls)
        ensures returned || Count(events, EventOf(b)) == 1
      {
        assert OnTrack(b, m, es, polls);
        if Tracked(b, m, Now(), polls) {
          NotAskedYet(b, n);
        }
      }
    }

    /** A turn of the loop, and what it means for the branches that have not won yet. */
    method TrackedTurn(order: seq<Branch>, ghost m: Moment, ghost es: seq<ConnEvent>, ghost polls: nat)
      requires Valid() && !returned && PollOrder(order)
      requires forall b | Enabled(m.state, EventOf(b)) :: OnTrack(b, m, es, polls)
      modifies this, signal`inner, signal`results
      ensures Valid()
      ensures forall b | Enabled(m.state, EventOf(b)) :: OnTrack(b, m, es, polls + 1)
    {
      ghost var before := Now();
      var won := Turn(order);
      forall b | won != Some(EventOf(b)) && !returned && Tracked(b, m, before, polls)
        ensures Tracked(b, m, Now(), polls + 1)
      {
        assert Passes(b, won, before, Now());
        TrackedStep(b, m, before, polls, won, Now());
      }
      forall b | Enabled(m.state, EventOf(b))
        ensures OnTrack(b, m, es, polls + 1)
      {
        assert old(OnTrack(b, m, es, polls));
      }
    }

    /** What holds of the loop whenever it is not inside a select: it has returned exactly if the
        connection has completed, which it does once and last; at most as many selects have
        completed as there were futures to fire, and `graceful_shutdown` has been called once for
        each firing of the timer and of the signal. */
    ghost predicate Exact()
      reads this
    {
      && (returned <==> events != [] && events[|events| - 1] == ConnDone)
      && Count(events, ConnDone) == Bit(returned)
      && |events| <= 1 + Bit(start.ageArmed) + Bit(start.signalArmed)
      && gracefulCalls == Count(events, AgeFired) + Count(events, SignalFired)
      && Count(events, AgeFired) <= Bit(start.ageArmed)
      && Count(events, SignalFired) <= Bit(start.signalArmed)
    }

    lemma ValidIsExact()
      requires Valid()
      ensures Exact()
    {
      RunExact(start.ageArmed, start.signalArmed, events);
      RunBounds(start.ageArmed, start.signalArmed, events);
    }

    /** The loop from any point on, under a poll schedule: one poll order per poll of the select.
        Whatever the schedule does, the loop is exact, and goes on until the connection completes:
        a future that is going to complete with its answer number `n` wins as soon as the select has
        been polled that often, and once more for each other future that can still fire, unless the
        connection completes first. So a signal that is ready is acted on by the next poll of the
        select, or by the one after that if the age timer can still fire. */
    method Serve(schedule: seq<seq<Branch>>)
      requires Valid()
      requires forall order | order in schedule :: PollOrder(order)
      modifies this, signal`inner, signal`results
      ensures Valid() && Exact()
      ensures forall b, n: nat | old(Now()).Due(b, n, |schedule|) :: returned || Count(events, EventOf(b)) == 1
      ensures old(Ready()).signal && 1 + Bit(old(sleep).Waiting?) <= |schedule| ==>
                returned || Count(events, SignalFired) == 1
    {
      ghost var m, es := Now(), events;
      if !returned && Ready().signal && 1 + Bit(sleep.Waiting?) <= |schedule| {
        ReadyIsDue(|schedule|);
      }
      var i := 0;
      while i < |schedule| && !returned
        invariant 0 <= i <= |schedule| && Valid() && (old(returned) ==> returned)
        invariant forall b | Enabled(m.state, EventOf(b)) :: OnTrack(b, m, es, i)
      {
        TrackedTurn(schedule[i], m, es, i);
        i := i + 1;
      }
      ValidIsExact();
      if !returned {
        DueHasWon(m, es, |schedule|);
      }
    }

    /** A signal that is ready now is due. */
    lemma ReadyIsDue(polls: nat)
      requires Valid() && !returned && Ready().signal && 1 + Bit(sleep.Waiting?) <= polls
      ensures Now().Due(SignalBranch, Asked().signal, polls)
    {
    }
  }
}
