/**
 The event loop's hand-off of functors: other threads append to a locked list and then
 write to an eventfd that the loop polls edge-triggered; the loop swaps the list out and
 runs it.  Steps of all threads interleave arbitrarily.

 The handlers of other channels and the functors themselves are user code that may queue
 more functors and may quit the loop; which channels are ready is an oracle.
 */
module EventLoop {

  type Tid = nat
  type Functor = nat

  /** Where the loop thread stands inside loop(). */
  datatype Phase =
    | Idle                      // loop() not entered
    | Testing                   // at while (!quit_)
    | Polling                   // in poll
    | Handling(unread: bool)    // running handlers; unread: the eventfd's handler has not run yet
    | Marking                   // about to set callingPendingFunctors_
    | Swapping                  // about to swap the list out
    | Running                   // running the functors swapped out
    | Expiring                  // in handleExpired
    | Stopped

  /**
   waking holds the threads that have queued or quit and have not yet written to the eventfd.
   executed and queued are history: functors in the order they were run and queued.
   direct are those that runInLoop called on the spot.
   */
  datatype State = State(me: Tid, phase: Phase, calling: bool, quit: bool,
                         pending: seq<Functor>, batch: seq<Functor>, counter: nat, edge: bool, waking: set<Tid>,
                         executed: seq<Functor>, queued: seq<Functor>, direct: seq<Functor>)

  datatype Action =
    | Queue(t: Tid, f: Functor)
    | RunInLoop(t: Tid, f: Functor)
    | Wake(t: Tid)
    | Quit(t: Tid)
    | Start
    | Advance(saw: bool, other: bool)

  function Init(me: Tid): State {
    State(me, Idle, false, false, [], [], 0, false, {}, [], [], [])
  }

  /** Thread t runs code of its own: the loop thread does so only in these phases. */
  predicate InUserCode(s: State, t: Tid) {
    && t !in s.waking
    && (t == s.me ==> s.phase.Idle? || s.phase.Handling? || s.phase.Running? || s.phase.Expiring? || s.phase.Stopped?)
  }

  /** queueInLoop up to the unlock: the loop thread owes a wake-up only while functors run. */
  function Push(s: State, t: Tid, f: Functor): State {
    s.(pending := s.pending + [f], queued := s.queued + [f],
       waking := if t != s.me || s.calling then s.waking + {t} else s.waking)
  }

  /** The eventfd is reported when something was written since it was last reported and it is readable. */
  predicate Readable(s: State) { s.edge && s.counter > 0 }

  /** The loop thread's next step. */
  function LoopStep(s: State, saw: bool, other: bool): State {
    match s.phase
    case Testing => s.(phase := if s.quit then Stopped else Polling)
    case Polling =>
      if saw && Readable(s) then s.(phase := Handling(true), edge := false)
      else if other then s.(phase := Handling(false))
      else s
    case Handling(true) => s.(phase := Handling(false), counter := 0)
    case Handling(false) => s.(phase := Marking)
    case Marking => s.(phase := Swapping, calling := true)
    case Swapping => s.(phase := Running, batch := s.pending, pending := [])
    case Running =>
      if s.batch == [] then s.(phase := Expiring, calling := false)
      else s.(batch := s.batch[1..], executed := s.executed + [s.batch[0]])
    case Expiring => s.(phase := Testing)
    case _ => s
  }

  function Step(s: State, a: Action): State {
    match a
    case Queue(t, f) => if InUserCode(s, t) then Push(s, t, f) else s
    case RunInLoop(t, f) =>
      if !InUserCode(s, t) then s
      else if t == s.me then s.(direct := s.direct + [f])
      else Push(s, t, f)
    case Wake(t) =>
      if t in s.waking then s.(waking := s.waking - {t}, counter := s.counter + 1, edge := true) else s
    case Quit(t) =>
      if InUserCode(s, t) then s.(quit := true, waking := if t != s.me then s.waking + {t} else s.waking) else s
    case Start => if s.phase.Idle? then s.(phase := Testing, quit := false) else s
    case Advance(saw, other) => if s.me in s.waking then s else LoopStep(s, saw, other)
  }

  function Exec(s: State, run: seq<Action>): State
    decreases |run|
  {
    if run == [] then s else Exec(Step(s, run[0]), run[1..])
  }

  lemma {:induction false} ExecConcat(s: State, a: seq<Action>, b: seq<Action>)
    ensures Exec(s, a + b) == Exec(Exec(s, a), b)
    decreases |a|
  {
    if a == [] {
      assert a + b == b;
    } else {
      assert (a + b)[1..] == a[1..] + b;
      ExecConcat(Step(s, a[0]), a[1..], b);
    }
  }

  // --------------------------------------------------------- order of functors

  /** No functor is lost, repeated or overtaken. */
  predicate Conserved(s: State) {
    && s.executed + s.batch + s.pending == s.queued
    && (s.phase.Running? || s.batch == [])
  }

  lemma StepConserves(s: State, a: Action)
    requires Conserved(s)
    ensures Conserved(Step(s, a))
  {
    match a
    case Advance(saw, other) =>
      if s.me !in s.waking { LoopConserves(s, saw, other); }
    case Queue(t, f) => PushConserves(s, t, f);
    case RunInLoop(t, f) => PushConserves(s, t, f);
    case _ =>
  }

  lemma PushConserves(s: State, t: Tid, f: Functor)
    requires Conserved(s)
    ensures Conserved(Push(s, t, f))
  {
    assert s.executed + s.batch + (s.pending + [f]) == (s.executed + s.batch + s.pending) + [f];
  }

  lemma LoopConserves(s: State, saw: bool, other: bool)
    requires Conserved(s)
    ensures Conserved(LoopStep(s, saw, other))
  {
    var e, b, p := s.executed, s.batch, s.pending;
    if s.phase.Running? && b != [] {
      assert (e + [b[0]]) + b[1..] + p == e + b + p;
    } else if s.phase.Swapping? {
      assert e + p + [] == e + [] + p;
    }
  }

  /** In every run: run functors, swapped batch and pending list are the queued functors in lock order. */
  lemma {:induction false} FunctorsKeepOrder(s: State, run: seq<Action>)
    requires Conserved(s)
    ensures Conserved(Exec(s, run))
    decreases |run|
  {
    if run != [] {
      StepConserves(s, run[0]);
      FunctorsKeepOrder(Step(s, run[0]), run[1..]);
    }
  }

  // ------------------------------------------------------------- no lost wake-up

  /** The loop will be woken: the eventfd is readable, or some thread is about to write it. */
  predicate Signalled(s: State) { Readable(s) || s.waking != {} }

  /** The list has been looked at for the last time before the next poll. */
  predicate PastSwap(p: Phase) { p.Idle? || p.Testing? || p.Polling? || p.Running? || p.Expiring? }

  /** The loop ends at its next test. */
  predicate Leaving(s: State) { s.quit && (s.phase.Expiring? || s.phase.Testing?) }

  predicate Inv(s: State) {
    && (s.calling <==> s.phase.Swapping? || s.phase.Running?)
    && (s.me in s.waking ==> s.phase.Running?)
    && (PastSwap(s.phase) && s.pending != [] ==> Signalled(s) || Leaving(s))
    && (s.phase.Polling? && s.quit ==> Signalled(s))
  }

  /**
   The loop thread itself queues from handlers and functors; elsewhere only when the loop
   will be woken anyway or is about to end.
   */
  predicate Timely(s: State, a: Action) {
    a.Queue? && a.t == s.me && (s.phase.Idle? || s.phase.Expiring?) ==> Signalled(s) || Leaving(s)
  }

  predicate AllTimely(s: State, run: seq<Action>)
    decreases |run|
  {
    run == [] || (Timely(s, run[0]) && AllTimely(Step(s, run[0]), run[1..]))
  }

  lemma StepKeepsInv(s: State, a: Action)
    requires Inv(s) && Timely(s, a)
    ensures Inv(Step(s, a))
  {
    var s' := Step(s, a);
    match a
    case Queue(t, f) => assert s' != s && t in s'.waking ==> s'.waking != {};
    case RunInLoop(t, f) => assert s' != s && t in s'.waking ==> s'.waking != {};
    case Quit(t) => assert t in s'.waking ==> s'.waking != {};
    case _ =>
  }

  lemma {:induction false} ExecKeepsInv(s: State, run: seq<Action>)
    requires Inv(s) && AllTimely(s, run)
    ensures Inv(Exec(s, run))
    decreases |run|
  {
    hide Inv;
    if run != [] {
      StepKeepsInv(s, run[0]);
      ExecKeepsInv(Step(s, run[0]), run[1..]);
    }
  }

  /** The loop never sleeps on work, nor on a request to quit. */
  lemma NoLostWakeup(me: Tid, run: seq<Action>)
    requires AllTimely(Init(me), run)
    ensures var s := Exec(Init(me), run);
            s.phase.Polling? && (s.pending != [] || s.quit) ==> Signalled(s)
  {
    ExecKeepsInv(Init(me), run);
  }

  /** A functor that the loop thread queues at another time is slept on: these steps of its own lead there. */
  function IntoPoll(s: State): seq<Action> {
    (if s.phase.Idle? then [Start] else [Advance(false, false)]) + [Advance(false, false)]
  }

  /** From a timer's expiry, or before the loop starts, with no wake-up due. */
  lemma LateQueueIsSleptOn(s: State, f: Functor)
    requires s.phase.Idle? || (s.phase.Expiring? && !s.quit)
    requires !s.calling && !Signalled(s)
    ensures var s' := Exec(Step(s, Queue(s.me, f)), IntoPoll(s));
            s'.phase.Polling? && s'.pending == s.pending + [f] && !Signalled(s')
  {
    var run := IntoPoll(s);
    var s1 := Step(s, Queue(s.me, f));
    var s2 := Step(s1, run[0]);
    var s3 := Step(s2, run[1]);
    assert Exec(s1, run) == s3 by {
      assert run[1..][1..] == [];
      assert Exec(s2, run[1..]) == s3;
    }
  }

  /** Steps of the loop thread alone. */
  predicate OwnSteps(run: seq<Action>) { forall i | 0 <= i < |run| :: run[i].Start? || run[i].Advance? }

  predicate Sleeps(s: State) { s.phase.Polling? && s.pending != [] && !Signalled(s) }

  lemma {:induction false} OwnStepsKeepInv(s: State, run: seq<Action>)
    requires Inv(s) && OwnSteps(run)
    ensures Inv(Exec(s, run))
    decreases |run|
  {
    hide Inv;
    if run != [] {
      assert run[0].Start? || run[0].Advance?;
      StepKeepsInv(s, run[0]);
      OwnStepsKeepInv(Step(s, run[0]), run[1..]);
    }
  }

  /**
   The hypothesis of NoLostWakeup is exact: whenever the loop thread queues a functor, its
   own next steps can put it to sleep on work if and only if the queueing was untimely.
   */
  lemma SleptOnIffUntimely(s: State, f: Functor)
    requires Inv(s) && InUserCode(s, s.me)
    ensures (exists run :: OwnSteps(run) && Sleeps(Exec(Step(s, Queue(s.me, f)), run))) <==> !Timely(s, Queue(s.me, f))
  {
    var a := Queue(s.me, f);
    if Timely(s, a) {
      StepKeepsInv(s, a);
      forall run | OwnSteps(run) ensures !Sleeps(Exec(Step(s, a), run)) { OwnStepsKeepInv(Step(s, a), run); }
    } else {
      LateQueueIsSleptOn(s, f);
      assert OwnSteps(IntoPoll(s)) && Sleeps(Exec(Step(s, a), IntoPoll(s)));
    }
  }

  // ---------------------------------------------------------- work gets done

  /** Steps of the loop thread, and writes to the eventfd that are already owed. */
  predicate NoNewWork(run: seq<Action>) {
    forall i | 0 <= i < |run| :: run[i].Advance? || run[i].Wake?
  }

  /** Where one more step leads. */
  lemma ThenAct(s: State, a: Action, more: seq<Action>)
    ensures Exec(s, [a] + more) == Exec(Step(s, a), more)
  {
    assert ([a] + more)[1..] == more;
  }

  /** Running the batch, once the loop thread owes no write itself. */
  lemma {:induction false} BatchRuns(s: State) returns (run: seq<Action>)
    requires s.phase.Running? && s.me !in s.waking
    ensures NoNewWork(run)
    ensures Exec(s, run) == s.(executed := s.executed + s.batch, batch := [])
    decreases |s.batch|
  {
    if s.batch == [] {
      run := [];
    } else {
      var a := Advance(false, false);
      var s' := Step(s, a);
      var more := BatchRuns(s');
      run := [a] + more;
      ThenAct(s, a, more);
      assert s'.executed + s'.batch == s.executed + s.batch;
    }
  }

  /** From the swap on, everything queued by then is run. */
  lemma SwapRunsAll(s: State) returns (run: seq<Action>)
    requires Conserved(s) && s.phase.Swapping? && s.me !in s.waking
    ensures NoNewWork(run) && Exec(s, run).executed == s.queued
  {
    var a := Advance(false, false);
    var more := BatchRuns(Step(s, a));
    run := [a] + more;
    ThenAct(s, a, more);
  }

  /** From the handlers on, the loop reaches the swap. */
  lemma HandlersReachSwap(s: State) returns (run: seq<Action>)
    requires Conserved(s) && s.me !in s.waking
    requires s.phase.Handling? || s.phase.Marking? || s.phase.Swapping?
    ensures NoNewWork(run) && Exec(s, run).executed == s.queued
    decreases match s.phase case Handling(true) => 3 case Handling(false) => 2 case Marking => 1 case _ => 0
  {
    if s.phase.Swapping? {
      run := SwapRunsAll(s);
    } else {
      var a := Advance(false, false);
      var more := HandlersReachSwap(Step(s, a));
      run := [a] + more;
      ThenAct(s, a, more);
    }
  }

  /** A poll that has been signalled returns. */
  lemma PollReturns(s: State) returns (run: seq<Action>)
    requires Conserved(s) && s.phase.Polling? && Signalled(s) && s.me !in s.waking
    ensures NoNewWork(run) && Exec(s, run).executed == s.queued
  {
    var poll := Advance(true, false);
    if Readable(s) {
      var more := HandlersReachSwap(Step(s, poll));
      run := [poll] + more;
      ThenAct(s, poll, more);
    } else {
      var t :| t in s.waking;
      var woken := Step(s, Wake(t));
      var more := HandlersReachSwap(Step(woken, poll));
      run := [Wake(t)] + ([poll] + more);
      ThenAct(woken, poll, more);
      ThenAct(s, Wake(t), [poll] + more);
    }
  }

  /**
   Whatever state a timely run has reached, every functor queued so far is run by steps of
   the loop thread and of threads that have already queued: no new event is needed.
   */
  lemma QueuedWorkRuns(s: State) returns (run: seq<Action>)
    requires Conserved(s) && Inv(s) && !s.quit && !s.phase.Idle? && !s.phase.Stopped?
    ensures NoNewWork(run) && Exec(s, run).executed == s.queued
    decreases s.me in s.waking,
              match s.phase case Running => 3 case Expiring => 2 case Testing => 1 case _ => 0
  {
    var a := Advance(false, false);
    if s.me in s.waking {
      var s' := Step(s, Wake(s.me));
      var more := QueuedWorkRuns(s');
      run := [Wake(s.me)] + more;
      ThenAct(s, Wake(s.me), more);
    } else if s.phase.Handling? || s.phase.Marking? || s.phase.Swapping? {
      run := HandlersReachSwap(s);
    } else if s.batch == [] && s.pending == [] {
      run := [];
    } else if s.phase.Polling? {
      run := PollReturns(s);
    } else if s.phase.Running? {
      var first := BatchRuns(s);
      var s1 := Exec(s, first);
      var s2 := Step(s1, a);
      var rest := QueuedWorkRuns(s2);
      run := first + ([a] + rest);
      ThenAct(s1, a, rest);
      ExecConcat(s, first, [a] + rest);
    } else {
      var rest := QueuedWorkRuns(Step(s, a));
      run := [a] + rest;
      ThenAct(s, a, rest);
    }
  }

  // ---------------------------------------------------- going on and stopping

  ghost predicate QuitCalled(run: seq<Action>) { exists i | 0 <= i < |run| :: run[i].Quit? }

  /** loop() returns only because somebody has called quit. */
  lemma StopsOnlyOnQuit(me: Tid, run: seq<Action>)
    ensures var s := Exec(Init(me), run); s.phase.Stopped? ==> s.quit && QuitCalled(run)
  {
    QuitNeedsCall(Init(me), run);
  }

  lemma {:induction false} QuitNeedsCall(s: State, run: seq<Action>)
    requires s.phase.Stopped? ==> s.quit
    ensures var s' := Exec(s, run); (s'.phase.Stopped? ==> s'.quit) && (s'.quit ==> s.quit || QuitCalled(run))
    decreases |run|
  {
    if run != [] {
      var s' := Step(s, run[0]);
      assert s'.quit ==> s.quit || run[0].Quit?;
      assert s'.phase.Stopped? ==> s'.quit;
      hide Step;
      QuitNeedsCall(s', run[1..]);
      if QuitCalled(run[1..]) {
        var i :| 0 <= i < |run[1..]| && run[1..][i].Quit?;
        assert run[i + 1].Quit?;
      }
    }
  }

  /** Inside loop(). */
  predicate Looping(s: State) { !s.phase.Idle? && !s.phase.Stopped? }

  /** Once a poll returns, the loop's own steps and writes already owed lead to the next test of quit_. */
  lemma ReachesTest(s: State) returns (run: seq<Action>)
    requires Inv(s) && Looping(s) && !s.phase.Polling?
    ensures NoNewWork(run) && Exec(s, run).phase.Testing? && Exec(s, run).quit == s.quit && Inv(Exec(s, run))
    decreases s.me in s.waking,
              match s.phase case Handling(true) => 6 case Handling(false) => 5 case Marking => 4
                            case Swapping => 3 case Running => 2 case Expiring => 1 case _ => 0,
              |s.batch|
  {
    if s.phase.Testing? {
      run := [];
    } else {
      var a := if s.me in s.waking then Wake(s.me) else Advance(false, false);
      StepKeepsInv(s, a);
      var more := ReachesTest(Step(s, a));
      run := [a] + more;
      ThenAct(s, a, more);
    }
  }

  /** A request to quit, made while the loop runs, ends it: no new event is needed. */
  lemma QuitStops(s: State) returns (run: seq<Action>)
    requires Inv(s) && Looping(s) && s.quit
    ensures NoNewWork(run) && Exec(s, run).phase.Stopped?
    decreases s.phase.Polling?
  {
    var a := Advance(true, false);
    if !s.phase.Polling? {
      var first := ReachesTest(s);
      run := first + [a];
      ThenAct(Exec(s, first), a, []);
      TestStops(Exec(s, first), a);
      ExecConcat(s, first, [a]);
    } else if Readable(s) {
      StepKeepsInv(s, a);
      var more := QuitStops(Step(s, a));
      run := [a] + more;
      ThenAct(s, a, more);
    } else {
      var t :| t in s.waking;
      var woken := Step(s, Wake(t));
      StepKeepsInv(s, Wake(t));
      StepKeepsInv(woken, a);
      var more := QuitStops(Step(woken, a));
      run := [Wake(t)] + ([a] + more);
      ThenAct(woken, a, more);
      ThenAct(s, Wake(t), [a] + more);
    }
  }

  lemma TestStops(s: State, a: Action)
    requires s.phase.Testing? && s.quit && s.me !in s.waking && a.Advance?
    ensures Exec(s, [a]).phase.Stopped?
  {
    assert [a][1..] == [];
  }

  /** Without a request to quit the loop comes back to its poll. */
  lemma LoopsBackToPoll(s: State) returns (run: seq<Action>)
    requires Inv(s) && Looping(s) && !s.quit
    ensures NoNewWork(run) && Exec(s, run).phase.Polling?
  {
    if s.phase.Polling? {
      run := [];
    } else {
      var a := Advance(false, false);
      var first := ReachesTest(s);
      run := first + [a];
      var tested := Exec(s, first);
      ThenAct(tested, a, []);
      assert Exec(tested, [a]) == Step(tested, a) by { assert [a][1..] == []; }
      ExecConcat(s, first, [a]);
    }
  }

  /** loop() starts by clearing quit_: a request made before it is forgotten, and the loop polls. */
  lemma EarlyQuitIsForgotten(s: State)
    requires s.phase.Idle? && s.me !in s.waking
    ensures var s' := Exec(s, [Start] + [Advance(false, false)]); s'.phase.Polling? && !s'.quit
  {
    ThenAct(s, Start, [Advance(false, false)]);
    ThenAct(Step(s, Start), Advance(false, false), []);
    assert [Advance(false, false)] + [] == [Advance(false, false)];
  }

  /** A poll that reports another channel returns, and everything queued by then is run. */
  lemma OtherChannelWakes(s: State, saw: bool) returns (more: seq<Action>)
    requires Conserved(s) && s.phase.Polling? && s.me !in s.waking
    ensures NoNewWork(more) && Exec(s, [Advance(saw, true)] + more).executed == s.queued
  {
    var a := Advance(saw, true);
    more := HandlersReachSwap(Step(s, a));
    ThenAct(s, a, more);
  }

  /** One report of the eventfd reads it empty: the next poll sleeps until somebody writes again. */
  lemma ReadingClears(s: State, saw: bool)
    requires s.phase.Polling? && Readable(s) && s.me !in s.waking
    ensures var read := Exec(s, [Advance(true, false)] + [Advance(false, false)]);
            var next := read.(phase := Polling);
            && read.phase == Handling(false) && read.counter == 0 && !read.edge
            && Step(next, Advance(saw, false)) == next
  {
    ThenAct(s, Advance(true, false), [Advance(false, false)]);
    ThenAct(Step(s, Advance(true, false)), Advance(false, false), []);
    assert [Advance(false, false)] + [] == [Advance(false, false)];
  }

  // ------------------------------------------------------ the methods as written

  /** What is queued by functors while they run: spawns says what each of them queues. */
  function Spawned(spawns: Functor -> seq<Functor>, fs: seq<Functor>): seq<Functor> {
    if fs == [] then [] else Spawned(spawns, fs[..|fs| - 1]) + spawns(fs[|fs| - 1])
  }

  class Loop {
    const me: Tid
    const spawns: Functor -> seq<Functor>
    var pending: seq<Functor>
    var calling: bool
    var counter: nat
    var edge: bool
    var executed: seq<Functor>
    var direct: seq<Functor>
    ghost var queued: seq<Functor>

    constructor (me: Tid, spawns: Functor -> seq<Functor>)
      ensures this.me == me && this.spawns == spawns && View(Idle, []) == Init(me)
    {
      this.me, this.spawns := me, spawns;
      pending, calling, counter, edge, executed, direct, queued := [], false, 0, false, [], [], [];
    }

    /** The protocol state these fields stand for while no thread owes a write and none quits. */
    ghost function View(phase: Phase, batch: seq<Functor>): State
      reads this
    {
      State(me, phase, calling, false, pending, batch, counter, edge, {}, executed, queued, direct)
    }

    method Wakeup()
      modifies this`counter, this`edge
      ensures counter == old(counter) + 1 && edge
    {
      counter, edge := counter + 1, true;
    }

    /** queueInLoop: appends, and writes the eventfd unless the loop is sure to look again. */
    method QueueInLoop(t: Tid, f: Functor)
      modifies this
      ensures calling == old(calling) && executed == old(executed) && pending == old(pending) + [f]
      ensures forall phase, batch | InUserCode(old(View(phase, batch)), t) ::
                View(phase, batch) == Step(Step(old(View(phase, batch)), Queue(t, f)), Wake(t))
    {
      pending, queued := pending + [f], queued + [f];
      if t != me || calling { Wakeup(); }
      assert forall phase, batch | InUserCode(old(View(phase, batch)), t) ::
          View(phase, batch).waking == Step(Step(old(View(phase, batch)), Queue(t, f)), Wake(t)).waking;
    }

    /** runInLoop: the loop's own thread calls the functor on the spot, ahead of all queued ones. */
    method RunOrQueue(t: Tid, f: Functor)
      modifies this
      ensures t == me ==> direct == old(direct) + [f] && pending == old(pending)
      ensures forall phase, batch | InUserCode(old(View(phase, batch)), t) ::
                View(phase, batch) == Step(Step(old(View(phase, batch)), RunInLoop(t, f)), Wake(t))
    {
      if t == me {
        direct := direct + [f];
      } else {
        QueueInLoop(t, f);
      }
    }

    /** One functor runs and queues what it spawns. */
    method Call(f: Functor, ghost rest: seq<Functor>) returns (ghost run: seq<Action>)
      requires calling
      modifies this
      ensures calling && executed == old(executed) + [f] && pending == old(pending) + spawns(f)
      ensures View(Running, rest) == Exec(old(View(Running, [f] + rest)), run)
    {
      var fs := spawns(f);
      executed := executed + [f];
      ghost var start := old(View(Running, [f] + rest));
      run := [Advance(false, false)];
      assert ([f] + rest)[1..] == rest && run[1..] == [];
      assert View(Running, rest) == Exec(start, run);
      for i := 0 to |fs|
        invariant calling && executed == old(executed) + [f] && pending == old(pending) + fs[..i]
        invariant View(Running, rest) == Exec(start, run)
      {
        ghost var s := View(Running, rest);
        QueueInLoop(me, fs[i]);
        ThenAct(s, Queue(me, fs[i]), [Wake(me)]);
        ThenAct(Step(s, Queue(me, fs[i])), Wake(me), []);
        ExecConcat(start, run, [Queue(me, fs[i])] + [Wake(me)]);
        run := run + ([Queue(me, fs[i])] + [Wake(me)]);
        assert fs[..i + 1] == fs[..i] + [fs[i]];
      }
      assert fs[..|fs|] == fs;
    }

    /**
     doPendingFunctors: runs what was pending at the swap, in order, and leaves pending
     exactly what those functors queued.  It is a run of the protocol.
     */
    method DoPendingFunctors() returns (ghost run: seq<Action>)
      requires !calling
      modifies this
      ensures !calling && executed == old(executed) + old(pending)
      ensures pending == Spawned(spawns, old(pending))
      ensures View(Expiring, []) == Exec(old(View(Marking, [])), run)
    {
      hide Step;
      hide Exec;
      ghost var start := View(Marking, []);
      ghost var a := Advance(false, false);
      SwapSteps(start);
      calling := true;
      var functors := pending;
      pending := [];
      run := [a] + [a];
      assert functors[..0] == [] && functors[0..] == functors;
      for i := 0 to |functors|
        invariant calling && executed == old(executed) + functors[..i]
        invariant pending == Spawned(spawns, functors[..i])
        invariant View(Running, functors[i..]) == Exec(start, run)
      {
        assert functors[i..] == [functors[i]] + functors[i + 1..];
        ghost var more := Call(functors[i], functors[i + 1..]);
        ExecConcat(start, run, more);
        run := run + more;
        assert functors[..i + 1][..i] == functors[..i];
      }
      assert functors[..|functors|] == functors && functors[|functors|..] == [];
      ghost var s := View(Running, []);
      calling := false;
      ExecConcat(start, run, [a]);
      LastStep(s);
      run := run + [a];
    }
  }

  /** Marking and swapping. */
  lemma SwapSteps(s: State)
    requires s.phase.Marking? && s.me !in s.waking
    ensures Exec(s, [Advance(false, false)] + [Advance(false, false)]) ==
            s.(phase := Running, calling := true, batch := s.pending, pending := [])
  {
    var a := Advance(false, false);
    ThenAct(s, a, [a]);
    ThenAct(Step(s, a), a, []);
    assert [a] + [] == [a];
  }

  /** The end of the batch. */
  lemma LastStep(s: State)
    requires s.phase.Running? && s.batch == [] && s.me !in s.waking
    ensures Exec(s, [Advance(false, false)]) == s.(phase := Expiring, calling := false)
  {
    var a := Advance(false, false);
    assert [a][1..] == [];
  }
}
