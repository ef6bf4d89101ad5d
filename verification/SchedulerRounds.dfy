/**
 The scheduler's loop left to itself: it goes round, resumes and calls everything that
 waits, and ends when it has been stopped and only then.  A coroutine that is resumed gives
 control back; here it does so by finishing.
 */
module SchedulerRounds {
  import opened Basics
  import opened Scheduler

  /** Steps of the loop, and of the coroutine it has resumed. */
  predicate OwnSteps(run: seq<Action>) { forall i | 0 <= i < |run| :: run[i].Advance? || run[i].Finish? }

  function Own(s: State): Action { if s.active.Some? then Finish else Advance }

  /** Inside a round of the loop: neither at the test of running_ nor outside run(). */
  predicate InRound(p: Phase) { !p.Idle? && !p.Testing? && !p.Ended? }

  /** The round in which the queues are drained once more. */
  predicate Last(p: Phase) {
    match p
    case SwapPosts(last) => last
    case Posting(last) => last
    case SwapReady(last) => last
    case Resuming(last) => last
    case _ => false
  }

  function Rank(p: Phase): nat {
    match p
    case SwapPosts(_) => 5
    case Posting(_) => 4
    case SwapReady(_) => 3
    case Resuming(_) => 2
    case Polling => 1
    case _ => 0
  }

  function Count(o: Option<Item>): nat { if o.Some? then 1 else 0 }

  predicate Lower(s: State, r: State) {
    || Rank(r.phase) < Rank(s.phase)
    || (Rank(r.phase) == Rank(s.phase)
        && (|| |r.postBatch| < |s.postBatch|
            || (|r.postBatch| == |s.postBatch|
                && (|r.batch| < |s.batch| || (|r.batch| == |s.batch| && Count(r.active) < Count(s.active))))))
  }

  /** The posts, or the ready coroutines, are swapped out in the rest of this round. */
  predicate PostsAhead(p: Phase) { p.SwapPosts? }

  predicate ReadyAhead(p: Phase) { p.SwapPosts? || p.Posting? || p.SwapReady? }

  /** What stays behind when a round goes on from s to r. */
  predicate Leaves(s: State, r: State) {
    && r.running == s.running && r.posted == s.posted && r.enqueued == s.enqueued
    && (PostsAhead(s.phase) || s.posts == [] ==> PostsAhead(r.phase) || r.posts == [])
    && (ReadyAhead(s.phase) || s.ready == [] ==> ReadyAhead(r.phase) || r.ready == [])
  }

  /** A resume changes nothing but the coroutine and its record. */
  lemma ResumeFrame(s: State, item: Item)
    ensures var r := Resume(s, item);
            && r.phase == s.phase && r.running == s.running && r.ops == s.ops
            && r.batch == s.batch && r.ready == s.ready && r.posts == s.posts && r.postBatch == s.postBatch
            && r.posted == s.posted && r.enqueued == s.enqueued
  {
  }

  lemma Turn(s: State)
    requires Linked(s) && InRound(s.phase)
    ensures var r := Step(s, Own(s));
            && Lower(s, r) && Leaves(s, r)
            && if Last(s.phase) then r.phase.Ended? || (InRound(r.phase) && Last(r.phase))
               else r.phase.Testing? || (InRound(r.phase) && !Last(r.phase))
  {
    hide CoRight;
    hide OpRight;
    hide Resume;
    if s.batch != [] { ResumeFrame(s.(batch := s.batch[1..]), s.batch[0]); }
  }

  lemma First(s: State, a: Action, more: seq<Action>)
    ensures Exec(s, [a] + more) == Exec(Step(s, a), more)
  {
    hide Step;
    assert ([a] + more)[1..] == more;
  }

  /** A round comes to its end, and has then taken along whatever it had still to swap out. */
  lemma {:induction false} RoundEnds(s: State) returns (run: seq<Action>)
    requires Inv(s) && InRound(s.phase)
    ensures OwnSteps(run)
    ensures var r := Exec(s, run);
            Inv(r) && Leaves(s, r) && r.phase == if Last(s.phase) then Ended else Testing
    decreases Rank(s.phase), |s.postBatch|, |s.batch|, Count(s.active)
  {
    LinkedOnly(s);
    Turn(s);
    hide Inv;
    hide Step;
    var r := Step(s, Own(s));
    StepKeepsInv(s, Own(s));
    var more := [];
    if InRound(r.phase) { more := RoundEnds(r); }
    run := [Own(s)] + more;
    First(s, Own(s), more);
  }

  lemma LinkedOnly(s: State)
    requires Inv(s)
    ensures Linked(s)
  {
  }

  /** All that has been posted has been called, and all that has been enqueued has been resumed, in that order. */
  predicate AllServed(s: State) {
    s.called == s.posted && HandlesOf(s.resumed, ResumedHandle) == s.enqueued
  }

  lemma NothingWaits(s: State)
    requires InOrder(s) && (s.phase.Testing? || s.phase.Ended?) && s.posts == [] && s.ready == []
    ensures AllServed(s)
  {
    NoHandles();
    var a := HandlesOf(s.resumed, ResumedHandle);
    assert a + [] + [] == a && s.called + [] + [] == s.called;
  }

  lemma RoundServes(s: State) returns (run: seq<Action>)
    requires Inv(s) && s.phase.SwapPosts?
    ensures OwnSteps(run)
    ensures var r := Exec(s, run);
            Inv(r) && AllServed(r) && r.posted == s.posted && r.enqueued == s.enqueued
            && r.phase == if s.phase.last then Ended else Testing
  {
    run := RoundEnds(s);
    var r := Exec(s, run);
    OrderOnly(r);
    hide Inv;
    NothingWaits(r);
  }

  lemma OrderOnly(s: State)
    requires Inv(s)
    ensures InOrder(s)
  {
  }

  lemma TestStarts(s: State)
    requires Inv(s) && s.phase.Testing?
    ensures var r := Step(s, Advance);
            r.phase == SwapPosts(!s.running) && r.posted == s.posted && r.enqueued == s.enqueued && Inv(r)
            && r.running == s.running
  {
    StepKeepsInv(s, Advance);
    hide CoRight;
    hide OpRight;
    assert s.active.None?;
  }

  lemma OwnConcat(a: seq<Action>, b: seq<Action>)
    requires OwnSteps(a) && OwnSteps(b)
    ensures OwnSteps(a + b)
  {
  }

  lemma OneAdvance()
    ensures OwnSteps([Advance])
  {
  }

  /**
   Everything posted and enqueued so far is called and resumed by the loop's own steps, in
   order, unless the loop is already past its last swap of the posts: there LeftAtEnd says
   what stays behind.
   */
  lemma WaitingIsServed(s: State) returns (run: seq<Action>)
    requires Inv(s) && !s.phase.Idle? && !s.phase.Ended? && (Last(s.phase) ==> s.phase.SwapPosts?)
    ensures OwnSteps(run)
    ensures var r := Exec(s, run); AllServed(r) && r.posted == s.posted && r.enqueued == s.enqueued
  {
    if s.phase.SwapPosts? {
      run := RoundServes(s);
    } else {
      var first := [];
      if !s.phase.Testing? { first := RoundEnds(s); }
      hide *;
      NoSteps(s);
      var tested := Exec(s, first);
      LeavesMeans(s, tested);
      TestStarts(tested);
      var rest := RoundServes(Step(tested, Advance));
      OneAdvance();
      OwnConcat([Advance], rest);
      OwnConcat(first, [Advance] + rest);
      run := first + ([Advance] + rest);
      First(tested, Advance, rest);
      ExecConcat(s, first, [Advance] + rest);
    }
  }

  lemma NoSteps(s: State)
    ensures Exec(s, []) == s && OwnSteps([]) && Leaves(s, s)
  {
  }

  lemma LeavesMeans(s: State, r: State)
    requires Leaves(s, r)
    ensures r.running == s.running && r.posted == s.posted && r.enqueued == s.enqueued
  {
  }

  /** After stop, run() returns by its own steps, wherever it was. */
  lemma StopEnds(s: State) returns (run: seq<Action>)
    requires Inv(s) && !s.running && !s.phase.Idle?
    ensures OwnSteps(run) && Exec(s, run).phase.Ended?
  {
    if s.phase.Ended? {
      run := [];
    } else if Last(s.phase) {
      run := RoundEnds(s);
    } else {
      var first := [];
      if !s.phase.Testing? { first := RoundEnds(s); }
      hide *;
      NoSteps(s);
      var tested := Exec(s, first);
      LeavesMeans(s, tested);
      TestStarts(tested);
      var rest := RoundServes(Step(tested, Advance));
      OneAdvance();
      OwnConcat([Advance], rest);
      OwnConcat(first, [Advance] + rest);
      run := first + ([Advance] + rest);
      First(tested, Advance, rest);
      ExecConcat(s, first, [Advance] + rest);
    }
  }

  ghost predicate StopCalled(run: seq<Action>) { exists i | 0 <= i < |run| :: run[i].Stop? }

  /** Once the last round has begun, or run() has returned, the scheduler has been stopped. */
  predicate StoppedForEnd(s: State) { Last(s.phase) || s.phase.Ended? ==> !s.running }

  lemma StepStops(s: State, a: Action)
    requires StoppedForEnd(s)
    ensures var r := Step(s, a);
            && StoppedForEnd(r) && (r.phase.Idle? ==> s.phase.Idle?)
            && (s.running && !r.running ==> a.Stop?) && (!s.phase.Idle? && r.running ==> s.running)
            && (s.phase.Idle? && !r.phase.Idle? ==> r.running)
  {
    hide Resume;
    if s.batch != [] { ResumeFrame(s.(batch := s.batch[1..]), s.batch[0]); }
  }

  lemma {:induction false} EndNeedsStop(s: State, run: seq<Action>)
    requires StoppedForEnd(s) && (s.running || s.phase.Idle?)
    ensures Exec(s, run).phase.Ended? ==> StopCalled(run) && !Exec(s, run).running
    ensures StoppedForEnd(Exec(s, run))
    decreases |run|
  {
    hide Step;
    if run != [] {
      var r := Step(s, run[0]);
      StepStops(s, run[0]);
      if r.running || r.phase.Idle? {
        EndNeedsStop(r, run[1..]);
        if StopCalled(run[1..]) {
          var i :| 0 <= i < |run[1..]| && run[1..][i].Stop?;
          assert run[i + 1].Stop?;
        }
      } else {
        assert run[0].Stop?;
        StaysStopped(r, run[1..]);
      }
    }
  }

  lemma {:induction false} StaysStopped(s: State, run: seq<Action>)
    requires StoppedForEnd(s) && !s.running && !s.phase.Idle?
    ensures StoppedForEnd(Exec(s, run)) && !Exec(s, run).running
    decreases |run|
  {
    hide Step;
    if run != [] {
      StepStops(s, run[0]);
      StaysStopped(Step(s, run[0]), run[1..]);
    }
  }

  /** In every run: run() returns only because somebody has called stop. */
  lemma EndsOnlyOnStop(run: seq<Action>)
    ensures Exec(Init(), run).phase.Ended? ==> StopCalled(run) && !Exec(Init(), run).running
  {
    EndNeedsStop(Init(), run);
  }

  /** While it runs, the loop comes back to look for completions. */
  lemma ReachesPolling(s: State) returns (run: seq<Action>)
    requires Inv(s) && s.running && !s.phase.Idle? && !s.phase.Ended? && StoppedForEnd(s)
    ensures OwnSteps(run) && Exec(s, run).phase.Polling?
    decreases if s.phase.Testing? then 6 else Rank(s.phase), |s.postBatch|, |s.batch|, Count(s.active)
  {
    hide Exec;
    if s.phase.Polling? {
      run := [];
      NoSteps(s);
    } else {
      var a := Own(s);
      LinkedOnly(s);
      if s.phase.Testing? { TestStarts(s); } else { Turn(s); BeforePolling(s); }
      StepKeepsInv(s, a);
      var more := ReachesPolling(Step(s, a));
      run := [a] + more;
      First(s, a, more);
    }
  }

  lemma BeforePolling(s: State)
    requires Linked(s) && InRound(s.phase) && !s.phase.Polling? && !Last(s.phase)
    ensures var p := Step(s, Own(s)).phase; InRound(p) && !Last(p)
  {
    hide CoRight;
    hide OpRight;
    hide Resume;
    if s.batch != [] { ResumeFrame(s.(batch := s.batch[1..]), s.batch[0]); }
  }

  /** The result of a completion is the one the awaiting coroutine will see, whatever completes later. */
  lemma FirstResultIsKept(s: State, op: OpId, result: int, run: seq<Action>)
    requires Inv(s) && s.phase.Polling? && op in s.ops && !s.ops[op].completed
    ensures var r := Exec(Step(s, Complete(op, result)), run);
            && op in r.ops && r.ops[op] == Op(s.ops[op].continuation, true, result)
            && forall i | 0 <= i < |r.resumed| && r.resumed[i].op == Some(op) ::
                 r.resumed[i].handle == s.ops[op].continuation && r.resumed[i].value == result
  {
    StepKeepsInv(s, Complete(op, result));
    CompletedStays(Step(s, Complete(op, result)), op, run);
    ExecKeepsInv(Step(s, Complete(op, result)), run);
    var r := Exec(Step(s, Complete(op, result)), run);
    hide Exec;
    hide Step;
    forall i | 0 <= i < |r.resumed| && r.resumed[i].op == Some(op)
      ensures r.resumed[i].handle == s.ops[op].continuation && r.resumed[i].value == result
    {
      assert UsedRight(r, i);
    }
  }

  lemma {:induction false} CompletedStays(s: State, op: OpId, run: seq<Action>)
    requires op in s.ops && s.ops[op].completed
    ensures op in Exec(s, run).ops && Exec(s, run).ops[op] == s.ops[op]
    decreases |run|
  {
    if run != [] {
      StepKeepsCompleted(s, op, run[0]);
      hide Step;
      CompletedStays(Step(s, run[0]), op, run[1..]);
    }
  }

  lemma StepKeepsCompleted(s: State, op: OpId, a: Action)
    requires op in s.ops && s.ops[op].completed
    ensures op in Step(s, a).ops && Step(s, a).ops[op] == s.ops[op]
  {
    hide Resume;
    if s.batch != [] { ResumeFrame(s.(batch := s.batch[1..]), s.batch[0]); }
  }
}
