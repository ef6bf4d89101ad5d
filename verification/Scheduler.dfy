/**
 The coroutine scheduler: posted functions, a queue of coroutines ready to be resumed, and
 operations whose completions arrive from the kernel in any number and order.

 A coroutine stands for a whole chain of tasks that await each other directly.  Which
 operation it awaits next, and when it finishes, is an oracle.  Operations have fresh
 identities and their awaiters outlive every completion that names them.  Other threads may
 post functions and start coroutines at any time.
 */
module Scheduler {
  import opened Basics

  type Handle = nat
  type OpId = nat
  type Fn = nat

  datatype Op = Op(continuation: Handle, completed: bool, result: int)

  datatype Item = Item(handle: Handle, destroy: bool)

  /** What a coroutine is doing; resuming is defined only for the first two. */
  datatype Co = Started | Suspended(op: OpId) | Active | Finished

  datatype Resumed = Resumed(handle: Handle, op: Option<OpId>, value: int)

  /** Where run() stands; last means that the loop has ended and the queues are drained once more. */
  datatype Phase =
    | Idle | Testing
    | SwapPosts(last: bool) | Posting(last: bool)
    | SwapReady(last: bool) | Resuming(last: bool)
    | Polling | Ended

  /**
   The fields of the scheduler and the coroutines it runs.  broken is set when a coroutine
   is resumed that is not suspended.  From first on, history: the first result delivered
   for each operation, the handles in the order they were enqueued, the resumes, the posted
   functions and those run, the coroutines that have awaited, and those destroyed.
   */
  datatype State = State(phase: Phase, running: bool, ready: seq<Item>, batch: seq<Item>, posts: seq<Fn>,
                         postBatch: seq<Fn>, ops: map<OpId, Op>, coroutines: map<Handle, Co>, active: Option<Item>,
                         broken: bool, first: map<OpId, int>, enqueued: seq<Handle>, resumed: seq<Resumed>,
                         posted: seq<Fn>, called: seq<Fn>, awaited: set<Handle>, destroyed: set<Handle>)

  datatype Action =
    | Start(h: Handle)
    | Post(f: Fn)
    | Run
    | Stop
    | Advance
    | Await(op: OpId)
    | Finish
    | Complete(op: OpId, result: int)

  function Init(): State {
    State(Idle, false, [], [], [], [], map[], map[], None, false, map[], [], [], [], [], {}, {})
  }

  function Enqueue(s: State, h: Handle, destroy: bool): State {
    s.(ready := s.ready + [Item(h, destroy)], enqueued := s.enqueued + [h])
  }

  /** OperationBase::complete: only the first completion counts. */
  function CompleteOp(s: State, op: OpId, result: int): State
    requires op in s.ops
  {
    var s := s.(first := if op in s.first then s.first else s.first[op := result]);
    if s.ops[op].completed then s
    else Enqueue(s.(ops := s.ops[op := Op(s.ops[op].continuation, true, result)]), s.ops[op].continuation, false)
  }

  function Awaiting(s: State, h: Handle): Option<OpId> {
    if h in s.coroutines && s.coroutines[h].Suspended? then Some(s.coroutines[h].op) else None
  }

  /** resume_ready: the coroutine goes on with the result of the operation it awaited. */
  function Resume(s: State, item: Item): State {
    var h, op := item.handle, Awaiting(s, item.handle);
    if h in s.coroutines && (s.coroutines[h].Started? || s.coroutines[h].Suspended?) then
      var value := if op.Some? && op.value in s.ops then s.ops[op.value].result else 0;
      s.(coroutines := s.coroutines[h := Active], active := Some(item), resumed := s.resumed + [Resumed(h, op, value)])
    else s.(broken := true)
  }

  function LoopStep(s: State): State {
    match s.phase
    case Testing => s.(phase := SwapPosts(!s.running))
    case SwapPosts(last) => s.(phase := Posting(last), postBatch := s.posts, posts := [])
    case Posting(last) =>
      if s.postBatch == [] then s.(phase := SwapReady(last))
      else s.(postBatch := s.postBatch[1..], called := s.called + [s.postBatch[0]])
    case SwapReady(last) => s.(phase := Resuming(last), batch := s.ready, ready := [])
    case Resuming(last) =>
      if s.batch == [] then s.(phase := if last then Ended else Polling)
      else Resume(s.(batch := s.batch[1..]), s.batch[0])
    case Polling => s.(phase := Testing)
    case _ => s
  }

  function Step(s: State, a: Action): State {
    match a
    case Start(h) =>
      if h in s.coroutines then s else Enqueue(s.(coroutines := s.coroutines[h := Started]), h, true)
    case Post(f) => s.(posts := s.posts + [f], posted := s.posted + [f])
    case Run => if s.phase.Idle? then s.(phase := Testing, running := true) else s
    case Stop => s.(running := false)
    case Advance => if s.active.Some? then s else LoopStep(s)
    case Await(op) =>
      if s.active.Some? && op !in s.ops then
        var h := s.active.value.handle;
        s.(ops := s.ops[op := Op(h, false, 0)], coroutines := s.coroutines[h := Suspended(op)], active := None,
           awaited := s.awaited + {h})
      else s
    case Finish =>
      if s.active.Some? then
        var h := s.active.value.handle;
        s.(coroutines := s.coroutines[h := Finished], active := None,
           destroyed := if s.active.value.destroy then s.destroyed + {h} else s.destroyed)
      else s
    case Complete(op, result) => if s.phase.Polling? && op in s.ops then CompleteOp(s, op, result) else s
  }

  function Exec(s: State, run: seq<Action>): State
    decreases |run|
  {
    if run == [] then s else Exec(Step(s, run[0]), run[1..])
  }

  // ------------------------------------------------------------- the invariant

  /** All entries that will be resumed, in order. */
  function Queue(s: State): seq<Item> { s.batch + s.ready }

  predicate Distinct(q: seq<Item>) {
    forall i, j | 0 <= i < j < |q| :: q[i].handle != q[j].handle
  }

  predicate InQueue(q: seq<Item>, h: Handle) { exists i :: 0 <= i < |q| && q[i].handle == h }

  /** The coroutine has been started and not resumed, or its operation has completed. */
  predicate Due(s: State, h: Handle) {
    h in s.coroutines
    && (s.coroutines[h].Started?
        || (s.coroutines[h].Suspended? && s.coroutines[h].op in s.ops && s.ops[s.coroutines[h].op].completed))
  }

  /** A suspended coroutine is in exactly one place. */
  ghost predicate Placed(s: State) {
    && Distinct(Queue(s))
    && forall h :: InQueue(Queue(s), h) <==> Due(s, h)
  }

  /** A suspended coroutine and the operation it awaits name each other. */
  predicate CoRight(s: State, h: Handle)
    requires h in s.coroutines
  {
    && (s.coroutines[h].Suspended? ==> s.coroutines[h].op in s.ops && s.ops[s.coroutines[h].op].continuation == h)
    && (s.coroutines[h].Active? <==> s.active.Some? && s.active.value.handle == h)
  }

  predicate OpRight(s: State, op: OpId)
    requires op in s.ops
  {
    && s.ops[op].continuation in s.coroutines
    && (!s.ops[op].completed ==> s.coroutines[s.ops[op].continuation] == Suspended(op))
    && (op in s.first <==> s.ops[op].completed)
    && (s.ops[op].completed ==> s.first[op] == s.ops[op].result)
  }

  predicate Linked(s: State) {
    && !s.broken
    && (forall h | h in s.coroutines :: CoRight(s, h))
    && (forall op | op in s.ops :: OpRight(s, op))
    && (forall op | op in s.first :: op in s.ops)
    && (s.active.Some? ==> s.active.value.handle in s.coroutines)
    && (s.active.Some? ==> s.phase.Resuming?)
  }

  /** An operation that has been used up: its coroutine has gone on with the first result. */
  predicate UsedRight(s: State, i: nat)
    requires i < |s.resumed|
  {
    s.resumed[i].op.Some? ==>
      var op := s.resumed[i].op.value;
      && op in s.ops && s.ops[op].completed && s.ops[op].continuation == s.resumed[i].handle
      && s.resumed[i].value == s.ops[op].result
      && s.ops[op].continuation in s.coroutines && s.coroutines[s.ops[op].continuation] != Suspended(op)
  }

  predicate Once(s: State) {
    && (forall i | 0 <= i < |s.resumed| :: UsedRight(s, i))
    && (forall i, j | 0 <= i < j < |s.resumed| :: s.resumed[i].op.Some? ==> s.resumed[i].op != s.resumed[j].op)
  }

  function ItemHandle(item: Item): Handle { item.handle }

  function ResumedHandle(r: Resumed): Handle { r.handle }

  function HandlesOf<T>(q: seq<T>, handle: T -> Handle): (r: seq<Handle>)
    ensures |r| == |q| && forall i | 0 <= i < |q| :: r[i] == handle(q[i])
  {
    seq(|q|, i requires 0 <= i < |q| => handle(q[i]))
  }

  /** Resumes happen in the order of the enqueues, calls in the order of the posts; nothing is lost. */
  predicate InOrder(s: State) {
    && HandlesOf(s.resumed, ResumedHandle) + HandlesOf(s.batch, ItemHandle) + HandlesOf(s.ready, ItemHandle)
       == s.enqueued
    && s.called + s.postBatch + s.posts == s.posted
    && (s.phase.Resuming? || s.batch == [])
    && (s.phase.Posting? || s.postBatch == [])
  }

  /** The entry of a coroutine that has awaited no longer asks for destruction. */
  predicate ItemRight(s: State, item: Item) { item.destroy <==> item.handle !in s.awaited }

  ghost predicate Frames(s: State) {
    && (forall i | 0 <= i < |Queue(s)| :: ItemRight(s, Queue(s)[i]))
    && (s.active.Some? ==> ItemRight(s, s.active.value))
    && (forall h | h in s.awaited :: h in s.coroutines && !s.coroutines[h].Started?)
    && (forall h | h in s.coroutines && s.coroutines[h].Suspended? :: h in s.awaited)
    && (forall h :: h in s.destroyed <==> h in s.coroutines && s.coroutines[h].Finished? && h !in s.awaited)
  }

  ghost predicate Inv(s: State) { Placed(s) && Linked(s) && Once(s) && InOrder(s) && Frames(s) }

  // -------------------------------------------------------- appending an entry

  lemma QueueGrows(s: State, r: State, item: Item)
    requires r.batch == s.batch && r.ready == s.ready + [item]
    ensures Queue(r) == Queue(s) + [item]
    ensures forall h :: InQueue(Queue(r), h) <==> InQueue(Queue(s), h) || h == item.handle
  {
    var q, q' := Queue(s), Queue(r);
    assert q' == q + [item];
    forall h ensures InQueue(q', h) <==> InQueue(q, h) || h == item.handle {
      if InQueue(q, h) {
        var i :| 0 <= i < |q| && q[i].handle == h;
        assert q'[i].handle == h;
      }
      assert q'[|q|].handle == item.handle;
    }
  }

  lemma StaysDistinct(q: seq<Item>, item: Item)
    requires Distinct(q) && !InQueue(q, item.handle)
    ensures Distinct(q + [item])
  {
  }

  lemma OrderGrows(s: State, r: State, item: Item)
    requires InOrder(s) && r.ready == s.ready + [item] && r.enqueued == s.enqueued + [item.handle]
    requires r.batch == s.batch && r.resumed == s.resumed && r.called == s.called && r.postBatch == s.postBatch
    requires r.posts == s.posts && r.posted == s.posted && r.phase == s.phase
    ensures InOrder(r)
  {
    assert HandlesOf(r.ready, ItemHandle) == HandlesOf(s.ready, ItemHandle) + [item.handle];
    var a, b, c := HandlesOf(s.resumed, ResumedHandle), HandlesOf(s.batch, ItemHandle), HandlesOf(s.ready, ItemHandle);
    assert a + b + (c + [item.handle]) == (a + b + c) + [item.handle];
  }

  // ----------------------------------------------------------- starting a coroutine

  lemma StartKeepsPlaces(s: State, h: Handle)
    requires Placed(s) && h !in s.coroutines
    ensures Placed(Step(s, Start(h)))
  {
    hide Queue;
    var r := Step(s, Start(h));
    QueueGrows(s, r, Item(h, true));
    assert !Due(s, h);
    StaysDistinct(Queue(s), Item(h, true));
    hide InQueue;
    forall g ensures InQueue(Queue(r), g) <==> Due(r, g) {
      assert InQueue(Queue(s), g) <==> Due(s, g);
    }
  }

  lemma StartKeepsLinks(s: State, h: Handle)
    requires Linked(s) && h !in s.coroutines
    ensures Linked(Step(s, Start(h)))
  {
    var r := Step(s, Start(h));
    forall g | g in r.coroutines ensures CoRight(r, g) {
      if g != h { assert CoRight(s, g); }
    }
    forall op | op in r.ops ensures OpRight(r, op) { assert OpRight(s, op); }
  }

  lemma StartKeepsOnce(s: State, h: Handle)
    requires Once(s) && h !in s.coroutines
    ensures Once(Step(s, Start(h)))
  {
    var r := Step(s, Start(h));
    forall i | 0 <= i < |r.resumed| ensures UsedRight(r, i) { assert UsedRight(s, i); }
  }

  lemma StartKeepsFrames(s: State, h: Handle)
    requires Frames(s) && h !in s.coroutines
    ensures Frames(Step(s, Start(h)))
  {
    var r := Step(s, Start(h));
    QueueGrows(s, r, Item(h, true));
    forall i | 0 <= i < |Queue(r)| ensures ItemRight(r, Queue(r)[i]) {
      if i < |Queue(s)| { assert ItemRight(s, Queue(s)[i]); }
    }
  }

  lemma StartKeepsInv(s: State, h: Handle)
    requires Inv(s)
    ensures Inv(Step(s, Start(h)))
  {
    hide Placed;
    hide Linked;
    hide Once;
    hide InOrder;
    hide Frames;
    if h !in s.coroutines {
      StartKeepsPlaces(s, h);
      StartKeepsLinks(s, h);
      StartKeepsOnce(s, h);
      StartKeepsFrames(s, h);
      OrderGrows(s, Step(s, Start(h)), Item(h, true));
    }
  }

  // -------------------------------------------------------------- a completion

  /** The state after the first completion of an operation. */
  function Completed(s: State, op: OpId, result: int): State
    requires op in s.ops
  {
    var h := s.ops[op].continuation;
    s.(first := s.first[op := result], ops := s.ops[op := Op(h, true, result)], ready := s.ready + [Item(h, false)],
       enqueued := s.enqueued + [h])
  }

  lemma CompleteKeepsPlaces(s: State, op: OpId, result: int)
    requires Placed(s) && Linked(s) && op in s.ops && !s.ops[op].completed
    ensures Placed(Completed(s, op, result))
  {
    hide Queue;
    var r, h := Completed(s, op, result), s.ops[op].continuation;
    assert OpRight(s, op);
    QueueGrows(s, r, Item(h, false));
    assert !Due(s, h);
    StaysDistinct(Queue(s), Item(h, false));
    hide InQueue;
    forall g ensures InQueue(Queue(r), g) <==> Due(r, g) {
      assert InQueue(Queue(s), g) <==> Due(s, g);
      if g in s.coroutines && g != h { assert CoRight(s, g); }
    }
  }

  lemma CompleteKeepsLinks(s: State, op: OpId, result: int)
    requires Linked(s) && op in s.ops && !s.ops[op].completed
    ensures Linked(Completed(s, op, result))
  {
    var r := Completed(s, op, result);
    forall g | g in r.coroutines ensures CoRight(r, g) { assert CoRight(s, g); }
    forall o | o in r.ops ensures OpRight(r, o) { assert OpRight(s, o); }
  }

  lemma CompleteKeepsOnce(s: State, op: OpId, result: int)
    requires Once(s) && op in s.ops && !s.ops[op].completed
    ensures Once(Completed(s, op, result))
  {
    var r := Completed(s, op, result);
    forall i | 0 <= i < |r.resumed| ensures UsedRight(r, i) { assert UsedRight(s, i); }
  }

  lemma CompleteKeepsFrames(s: State, op: OpId, result: int)
    requires Frames(s) && Linked(s) && op in s.ops && !s.ops[op].completed
    ensures Frames(Completed(s, op, result))
  {
    var r, h := Completed(s, op, result), s.ops[op].continuation;
    assert OpRight(s, op);
    QueueGrows(s, r, Item(h, false));
    forall i | 0 <= i < |Queue(r)| ensures ItemRight(r, Queue(r)[i]) {
      if i < |Queue(s)| { assert ItemRight(s, Queue(s)[i]); }
    }
  }

  /** A completion that is not the first changes nothing. */
  lemma LaterCompletion(s: State, op: OpId, result: int)
    requires Linked(s) && op in s.ops
    ensures CompleteOp(s, op, result) == if s.ops[op].completed then s else Completed(s, op, result)
  {
    assert OpRight(s, op);
  }

  lemma CompleteKeepsInv(s: State, op: OpId, result: int)
    requires Inv(s) && op in s.ops
    ensures Inv(CompleteOp(s, op, result))
  {
    hide Placed;
    hide Linked;
    hide Once;
    hide InOrder;
    hide Frames;
    LaterCompletion(s, op, result);
    if !s.ops[op].completed {
      CompleteKeepsPlaces(s, op, result);
      CompleteKeepsLinks(s, op, result);
      CompleteKeepsOnce(s, op, result);
      CompleteKeepsFrames(s, op, result);
      OrderGrows(s, Completed(s, op, result), Item(s.ops[op].continuation, false));
    }
  }

  // ------------------------------------------------------------------- a resume

  /** The state after the first entry of the batch is resumed. */
  function ResumeFirst(s: State): State
    requires s.batch != []
  {
    Resume(s.(batch := s.batch[1..]), s.batch[0])
  }

  lemma FirstIsDue(s: State)
    requires Placed(s) && s.batch != []
    ensures Due(s, s.batch[0].handle)
  {
    assert Queue(s)[0].handle == s.batch[0].handle;
    assert InQueue(Queue(s), s.batch[0].handle);
  }

  lemma QueueShrinks(s: State, r: State)
    requires Distinct(Queue(s)) && s.batch != [] && r.batch == s.batch[1..] && r.ready == s.ready
    ensures Queue(r) == Queue(s)[1..] && Distinct(Queue(r))
    ensures forall h :: InQueue(Queue(r), h) <==> InQueue(Queue(s), h) && h != s.batch[0].handle
  {
    var q, q', first := Queue(s), Queue(r), s.batch[0].handle;
    assert q' == q[1..] && q[0].handle == first;
    forall h ensures InQueue(q', h) <==> InQueue(q, h) && h != first {
      if InQueue(q', h) {
        var i :| 0 <= i < |q'| && q'[i].handle == h;
        assert q[i + 1].handle == h;
      }
      if InQueue(q, h) && h != first {
        var i :| 0 <= i < |q| && q[i].handle == h;
        assert q'[i - 1].handle == h;
      }
    }
  }

  lemma ResumeKeepsPlaces(s: State)
    requires Placed(s) && s.batch != []
    ensures Placed(ResumeFirst(s))
  {
    hide Queue;
    var r, h := ResumeFirst(s), s.batch[0].handle;
    FirstIsDue(s);
    QueueShrinks(s, r);
    hide InQueue;
    hide Distinct;
    forall g ensures InQueue(Queue(r), g) <==> Due(r, g) {
      assert InQueue(Queue(s), g) <==> Due(s, g);
    }
  }

  lemma ResumeKeepsLinks(s: State)
    requires Linked(s) && s.batch != [] && Due(s, s.batch[0].handle) && s.active.None? && s.phase.Resuming?
    ensures Linked(ResumeFirst(s))
  {
    var r, h := ResumeFirst(s), s.batch[0].handle;
    forall g | g in r.coroutines ensures CoRight(r, g) { assert CoRight(s, g); }
    forall o | o in r.ops ensures OpRight(r, o) {
      assert OpRight(s, o);
    }
  }

  lemma ResumeKeepsOnce(s: State)
    requires Linked(s) && Once(s) && s.batch != [] && Due(s, s.batch[0].handle)
    ensures Once(ResumeFirst(s))
  {
    var r, h := ResumeFirst(s), s.batch[0].handle;
    assert CoRight(s, h);
    forall i | 0 <= i < |r.resumed| ensures UsedRight(r, i) {
      if i < |s.resumed| { assert UsedRight(s, i); }
    }
    forall i, j | 0 <= i < j < |r.resumed| ensures r.resumed[i].op.Some? ==> r.resumed[i].op != r.resumed[j].op {
      assert UsedRight(s, i);
    }
  }

  lemma Moves<T>(a: seq<T>, x: T, b: seq<T>, c: seq<T>)
    ensures (a + [x]) + b + c == a + ([x] + b) + c
  {
  }

  lemma ResumeFacts(s: State)
    requires s.batch != [] && Due(s, s.batch[0].handle)
    ensures var r := ResumeFirst(s);
            && r.batch == s.batch[1..] && |r.resumed| == |s.resumed| + 1 && r.resumed[..|s.resumed|] == s.resumed
            && r.resumed[|s.resumed|].handle == s.batch[0].handle
            && r.ready == s.ready && r.enqueued == s.enqueued && r.called == s.called && r.postBatch == s.postBatch
            && r.posts == s.posts && r.posted == s.posted && r.phase == s.phase
  {
  }

  lemma HandlesMove(s: State, r: State)
    requires s.batch != [] && r.batch == s.batch[1..]
    requires |r.resumed| == |s.resumed| + 1 && r.resumed[..|s.resumed|] == s.resumed
    requires r.resumed[|s.resumed|].handle == s.batch[0].handle
    ensures HandlesOf(r.resumed, ResumedHandle) == HandlesOf(s.resumed, ResumedHandle) + [s.batch[0].handle]
    ensures HandlesOf(s.batch, ItemHandle) == [s.batch[0].handle] + HandlesOf(r.batch, ItemHandle)
  {
  }

  lemma ResumeKeepsOrder(s: State)
    requires InOrder(s) && s.batch != [] && Due(s, s.batch[0].handle)
    ensures InOrder(ResumeFirst(s))
  {
    hide ResumeFirst;
    hide Due;
    hide HandlesOf;
    var r := ResumeFirst(s);
    ResumeFacts(s);
    HandlesMove(s, r);
    Moves(HandlesOf(s.resumed, ResumedHandle), s.batch[0].handle, HandlesOf(r.batch, ItemHandle),
          HandlesOf(s.ready, ItemHandle));
  }

  lemma ResumeKeepsFrames(s: State)
    requires Frames(s) && Placed(s) && s.batch != [] && Due(s, s.batch[0].handle)
    ensures Frames(ResumeFirst(s))
  {
    var r := ResumeFirst(s);
    QueueShrinks(s, r);
    assert Queue(s)[0] == s.batch[0] && ItemRight(s, Queue(s)[0]);
    forall i | 0 <= i < |Queue(r)| ensures ItemRight(r, Queue(r)[i]) { assert ItemRight(s, Queue(s)[i + 1]); }
  }

  lemma ResumeKeepsInv(s: State)
    requires Inv(s) && s.batch != [] && s.active.None? && s.phase.Resuming?
    ensures Inv(ResumeFirst(s))
  {
    hide Placed;
    hide Linked;
    hide Once;
    hide InOrder;
    hide Frames;
    hide ResumeFirst;
    FirstIsDue(s);
    ResumeKeepsPlaces(s);
    ResumeKeepsLinks(s);
    ResumeKeepsOnce(s);
    ResumeKeepsOrder(s);
    ResumeKeepsFrames(s);
  }

  // --------------------------------------------------- the active coroutine stops

  /** The active coroutine awaits a fresh operation. */
  lemma AwaitKeepsLinks(s: State, op: OpId)
    requires Linked(s) && s.active.Some? && op !in s.ops
    ensures Linked(Step(s, Await(op)))
  {
    var r, h := Step(s, Await(op)), s.active.value.handle;
    assert CoRight(s, h);
    forall g | g in r.coroutines ensures CoRight(r, g) { assert CoRight(s, g); }
    forall o | o in r.ops ensures OpRight(r, o) {
      if o != op { assert OpRight(s, o); }
    }
  }

  lemma AwaitKeepsPlaces(s: State, op: OpId)
    requires Placed(s) && Linked(s) && s.active.Some? && op !in s.ops
    ensures Placed(Step(s, Await(op)))
  {
    hide Distinct;
    hide InQueue;
    var r, h := Step(s, Await(op)), s.active.value.handle;
    assert CoRight(s, h);
    assert Queue(r) == Queue(s);
    forall g ensures InQueue(Queue(r), g) <==> Due(r, g) {
      assert InQueue(Queue(s), g) <==> Due(s, g);
      if g in s.coroutines { assert CoRight(s, g); }
    }
  }

  lemma AwaitKeepsOnce(s: State, op: OpId)
    requires Once(s) && s.active.Some? && op !in s.ops
    ensures Once(Step(s, Await(op)))
  {
    var r := Step(s, Await(op));
    forall i | 0 <= i < |r.resumed| ensures UsedRight(r, i) { assert UsedRight(s, i); }
  }

  lemma NotQueued(s: State, i: nat)
    requires Placed(s) && Linked(s) && s.active.Some? && i < |Queue(s)|
    ensures Queue(s)[i].handle != s.active.value.handle
  {
    var h := s.active.value.handle;
    assert CoRight(s, h);
    assert !Due(s, h);
    assert !InQueue(Queue(s), h);
  }

  lemma AwaitKeepsFrames(s: State, op: OpId)
    requires Frames(s) && Placed(s) && Linked(s) && s.active.Some? && op !in s.ops
    ensures Frames(Step(s, Await(op)))
  {
    hide Placed;
    var r, h := Step(s, Await(op)), s.active.value.handle;
    assert CoRight(s, h);
    assert Queue(r) == Queue(s);
    forall i | 0 <= i < |Queue(r)| ensures ItemRight(r, Queue(r)[i]) {
      assert ItemRight(s, Queue(s)[i]);
      NotQueued(s, i);
    }
  }

  /** Fields that order depends on. */
  lemma SameOrder(s: State, r: State)
    requires InOrder(s) && r.resumed == s.resumed && r.batch == s.batch
             && r.ready == s.ready && r.enqueued == s.enqueued
    requires r.called == s.called && r.postBatch == s.postBatch && r.posts == s.posts && r.posted == s.posted
    requires (r.phase.Resuming? || r.batch == []) && (r.phase.Posting? || r.postBatch == [])
    ensures InOrder(r)
  {
    hide HandlesOf;
  }

  lemma AwaitKeepsInv(s: State, op: OpId)
    requires Inv(s)
    ensures Inv(Step(s, Await(op)))
  {
    hide Placed;
    hide Linked;
    hide Once;
    hide Frames;
    if s.active.Some? && op !in s.ops {
      AwaitKeepsLinks(s, op);
      AwaitKeepsPlaces(s, op);
      AwaitKeepsOnce(s, op);
      AwaitKeepsFrames(s, op);
      SameOrder(s, Step(s, Await(op)));
    }
  }

  lemma FinishKeepsPlaces(s: State)
    requires Placed(s) && Linked(s) && s.active.Some?
    ensures Placed(Step(s, Finish)) && Linked(Step(s, Finish))
  {
    hide Distinct;
    hide InQueue;
    var r, h := Step(s, Finish), s.active.value.handle;
    assert CoRight(s, h);
    assert Queue(r) == Queue(s);
    forall g ensures InQueue(Queue(r), g) <==> Due(r, g) {
      assert InQueue(Queue(s), g) <==> Due(s, g);
    }
    forall g | g in r.coroutines ensures CoRight(r, g) { assert CoRight(s, g); }
    forall o | o in r.ops ensures OpRight(r, o) { assert OpRight(s, o); }
  }

  lemma FinishKeepsFrames(s: State)
    requires Frames(s) && Linked(s) && Once(s) && s.active.Some?
    ensures Frames(Step(s, Finish)) && Once(Step(s, Finish))
  {
    var r, h := Step(s, Finish), s.active.value.handle;
    assert CoRight(s, h) && ItemRight(s, s.active.value);
    assert Queue(r) == Queue(s);
    forall i | 0 <= i < |Queue(r)| ensures ItemRight(r, Queue(r)[i]) { assert ItemRight(s, Queue(s)[i]); }
    forall i | 0 <= i < |r.resumed| ensures UsedRight(r, i) { assert UsedRight(s, i); }
  }

  lemma FinishKeepsInv(s: State)
    requires Inv(s)
    ensures Inv(Step(s, Finish))
  {
    hide Placed;
    hide Linked;
    hide Once;
    hide Frames;
    if s.active.Some? {
      FinishKeepsPlaces(s);
      FinishKeepsFrames(s);
      SameOrder(s, Step(s, Finish));
    }
  }

  // ------------------------------------------------------------- the loop's steps

  /** Steps that leave coroutines, operations and the queue as a whole alone. */
  lemma QuietKeeps(s: State, r: State)
    requires Placed(s) && Linked(s) && Once(s) && Frames(s)
    requires Queue(r) == Queue(s) && r.ops == s.ops && r.coroutines == s.coroutines && r.active == s.active
    requires r.broken == s.broken && r.first == s.first && r.resumed == s.resumed
    requires r.awaited == s.awaited && r.destroyed == s.destroyed && (r.active.Some? ==> r.phase.Resuming?)
    ensures Placed(r) && Linked(r) && Once(r) && Frames(r)
  {
    hide Queue;
    hide Distinct;
    hide InQueue;
    forall g ensures InQueue(Queue(r), g) <==> Due(r, g) { assert InQueue(Queue(s), g) <==> Due(s, g); }
    forall g | g in r.coroutines ensures CoRight(r, g) { assert CoRight(s, g); }
    forall o | o in r.ops ensures OpRight(r, o) { assert OpRight(s, o); }
    forall i | 0 <= i < |r.resumed| ensures UsedRight(r, i) { assert UsedRight(s, i); }
    forall i | 0 <= i < |Queue(r)| ensures ItemRight(r, Queue(r)[i]) { assert ItemRight(s, Queue(s)[i]); }
  }

  lemma CallKeepsOrder(s: State, r: State)
    requires InOrder(s) && s.phase.Posting? && s.postBatch != []
    requires r == s.(postBatch := s.postBatch[1..], called := s.called + [s.postBatch[0]])
    ensures InOrder(r)
  {
    hide HandlesOf;
    assert s.postBatch == [s.postBatch[0]] + s.postBatch[1..];
    Moves(s.called, s.postBatch[0], s.postBatch[1..], s.posts);
  }

  lemma SwapPostsKeepsOrder(s: State, r: State)
    requires InOrder(s) && s.phase.SwapPosts? && r.phase.Posting?
             && r == s.(phase := r.phase, postBatch := s.posts, posts := [])
    ensures InOrder(r)
  {
    hide HandlesOf;
    assert s.called + s.posts + [] == s.called + [] + s.posts;
  }

  lemma SwapReadyKeepsOrder(s: State, r: State)
    requires InOrder(s) && s.phase.SwapReady? && r.phase.Resuming?
             && r == s.(phase := r.phase, batch := s.ready, ready := [])
    ensures InOrder(r) && Queue(r) == Queue(s)
  {
    NoHandles();
    hide HandlesOf;
    var a, b := HandlesOf(s.resumed, ResumedHandle), HandlesOf(s.ready, ItemHandle);
    assert a + b + [] == a + [] + b;
  }

  lemma NoHandles()
    ensures HandlesOf([], ItemHandle) == []
  {
  }

  lemma PhaseKeepsOrder(s: State, r: State)
    requires InOrder(s) && r == s.(phase := r.phase)
    requires (r.phase.Resuming? || s.batch == []) && (r.phase.Posting? || s.postBatch == [])
    ensures InOrder(r) && Queue(r) == Queue(s)
  {
    hide HandlesOf;
  }

  predicate Resumes(s: State) { s.phase.Resuming? && s.batch != [] }

  /** What a step of the loop that resumes nothing can do. */
  predicate LoopCase(s: State, r: State) {
    if s.phase.Posting? && s.postBatch != [] then
      r == s.(postBatch := s.postBatch[1..], called := s.called + [s.postBatch[0]])
    else if s.phase.SwapPosts? then r.phase.Posting? && r == s.(phase := r.phase, postBatch := s.posts, posts := [])
    else if s.phase.SwapReady? then r.phase.Resuming? && r == s.(phase := r.phase, batch := s.ready, ready := [])
    else
      && r == s.(phase := r.phase)
      && ((!r.phase.Posting? && !r.phase.Resuming?) || r.phase == s.phase)
  }

  lemma LoopIs(s: State)
    requires !Resumes(s)
    ensures LoopCase(s, LoopStep(s))
  {
    hide Resume;
    match s.phase
    case Testing => assert LoopStep(s) == s.(phase := SwapPosts(!s.running));
    case SwapPosts(last) => assert LoopStep(s) == s.(phase := Posting(last), postBatch := s.posts, posts := []);
    case SwapReady(last) => assert LoopStep(s) == s.(phase := Resuming(last), batch := s.ready, ready := []);
    case _ =>
  }

  lemma LoopKeepsOrder(s: State)
    requires InOrder(s) && !Resumes(s)
    ensures InOrder(LoopStep(s)) && Queue(LoopStep(s)) == Queue(s)
  {
    hide LoopStep;
    hide HandlesOf;
    hide Queue;
    var r := LoopStep(s);
    LoopIs(s);
    if s.phase.Posting? && s.postBatch != [] {
      CallKeepsOrder(s, r);
      SameQueue(s, r);
    } else if s.phase.SwapPosts? {
      SwapPostsKeepsOrder(s, r);
      SameQueue(s, r);
    } else if s.phase.SwapReady? {
      SwapReadyKeepsOrder(s, r);
    } else {
      PhaseKeepsOrder(s, r);
    }
  }

  lemma SameQueue(s: State, r: State)
    requires r.batch == s.batch && r.ready == s.ready
    ensures Queue(r) == Queue(s)
  {
  }

  lemma LoopFrame(s: State)
    requires !Resumes(s)
    ensures var r := LoopStep(s);
            && r.ops == s.ops && r.coroutines == s.coroutines && r.active == s.active
            && r.broken == s.broken && r.first == s.first && r.resumed == s.resumed
            && r.awaited == s.awaited && r.destroyed == s.destroyed
  {
    hide LoopStep;
    LoopIs(s);
  }

  lemma LoopKeepsInv(s: State)
    requires Inv(s) && s.active.None?
    ensures Inv(LoopStep(s))
  {
    hide Placed;
    hide Linked;
    hide Once;
    hide InOrder;
    hide Frames;
    hide LoopStep;
    if Resumes(s) {
      ResumeIsLoopStep(s);
      hide Inv;
      ResumeKeepsInv(s);
    } else {
      LoopFrame(s);
      LoopKeepsOrder(s);
      QuietKeeps(s, LoopStep(s));
    }
  }

  lemma ResumeIsLoopStep(s: State)
    requires Resumes(s)
    ensures LoopStep(s) == ResumeFirst(s)
  {
  }

  lemma OthersKeepInv(s: State, r: State)
    requires Inv(s)
    requires r == s.(running := r.running) || (s.phase.Idle? && r == s.(running := r.running, phase := Testing))
    ensures Inv(r)
  {
    hide Placed;
    hide Once;
    hide Frames;
    hide HandlesOf;
    SameOrder(s, r);
    assert Queue(r) == Queue(s);
    QuietKeeps(s, r);
  }

  lemma PostKeepsInv(s: State, f: Fn)
    requires Inv(s)
    ensures Inv(Step(s, Post(f)))
  {
    hide Placed;
    hide Once;
    hide Frames;
    hide HandlesOf;
    var r := Step(s, Post(f));
    assert s.called + s.postBatch + (s.posts + [f]) == (s.called + s.postBatch + s.posts) + [f];
    assert Queue(r) == Queue(s);
    QuietKeeps(s, r);
  }

  lemma StepKeepsInv(s: State, a: Action)
    requires Inv(s)
    ensures Inv(Step(s, a))
  {
    hide Inv;
    hide Enqueue;
    hide CompleteOp;
    hide LoopStep;
    match a
    case Start(h) => StartKeepsInv(s, h);
    case Await(op) => AwaitKeepsInv(s, op);
    case Finish => FinishKeepsInv(s);
    case Complete(op, result) => if op in s.ops { CompleteKeepsInv(s, op, result); }
    case Advance => if s.active.None? { LoopKeepsInv(s); }
    case Post(f) => PostKeepsInv(s, f);
    case _ =>
      assert Step(s, a) == s.(running := Step(s, a).running) || s.phase.Idle?;
      OthersKeepInv(s, Step(s, a));
  }

  lemma {:induction false} ExecKeepsInv(s: State, run: seq<Action>)
    requires Inv(s)
    ensures Inv(Exec(s, run))
    decreases |run|
  {
    hide Inv;
    if run != [] {
      StepKeepsInv(s, run[0]);
      ExecKeepsInv(Step(s, run[0]), run[1..]);
    }
  }

  lemma InitHasInv()
    ensures Inv(Init())
  {
  }

  lemma RunsKeepInv(run: seq<Action>)
    ensures Inv(Exec(Init(), run))
  {
    hide Inv;
    InitHasInv();
    ExecKeepsInv(Init(), run);
  }

  // ---------------------------------------------------------------- main results

  /**
   In every run, a coroutine that is not running is in exactly one place: it has finished,
   or it awaits one uncompleted operation that will enqueue it and has no entry, or it has
   exactly one entry.  No entry is ever resumed that is not suspended.
   */
  lemma OnePlaceEach(run: seq<Action>, h: Handle)
    requires h in Exec(Init(), run).coroutines
    ensures var s := Exec(Init(), run);
            && !s.broken && Distinct(Queue(s))
            && match s.coroutines[h]
               case Started => InQueue(Queue(s), h)
               case Suspended(op) =>
                 op in s.ops && s.ops[op].continuation == h && (InQueue(Queue(s), h) <==> s.ops[op].completed)
               case _ => !InQueue(Queue(s), h)
  {
    RunsKeepInv(run);
    var s := Exec(Init(), run);
    assert CoRight(s, h);
    assert InQueue(Queue(s), h) <==> Due(s, h);
  }

  /** However often an operation completes, it resumes its coroutine at most once, with the first result. */
  lemma ResumedOnceWithFirst(run: seq<Action>, i: nat, j: nat)
    requires i < |Exec(Init(), run).resumed| && j < |Exec(Init(), run).resumed|
    requires Exec(Init(), run).resumed[i].op.Some?
    ensures var s := Exec(Init(), run); var op := s.resumed[i].op.value;
            && op in s.first && s.resumed[i].value == s.first[op]
            && op in s.ops && s.resumed[i].handle == s.ops[op].continuation
            && (s.resumed[j].op == Some(op) ==> i == j)
  {
    RunsKeepInv(run);
    var s := Exec(Init(), run);
    assert UsedRight(s, i);
    assert OpRight(s, s.resumed[i].op.value);
  }

  /** Resumes follow the order of the enqueues, and posted functions the order of the posts. */
  lemma FirstInFirstOut(run: seq<Action>)
    ensures var s := Exec(Init(), run);
            && HandlesOf(s.resumed, ResumedHandle) + HandlesOf(Queue(s), ItemHandle) == s.enqueued
            && s.called + s.postBatch + s.posts == s.posted
  {
    RunsKeepInv(run);
    var s := Exec(Init(), run);
    assert HandlesOf(Queue(s), ItemHandle) == HandlesOf(s.batch, ItemHandle) + HandlesOf(s.ready, ItemHandle);
    assert HandlesOf(s.resumed, ResumedHandle) + HandlesOf(s.batch, ItemHandle) + HandlesOf(s.ready, ItemHandle)
        == HandlesOf(s.resumed, ResumedHandle) + (HandlesOf(s.batch, ItemHandle) + HandlesOf(s.ready, ItemHandle));
  }

  /**
   The scheduler destroys a finished coroutine if and only if it never awaited an
   operation: completions enqueue it without the request to destroy.
   */
  lemma DestroyedIffNeverAwaited(run: seq<Action>, h: Handle)
    requires h in Exec(Init(), run).coroutines && Exec(Init(), run).coroutines[h].Finished?
    ensures var s := Exec(Init(), run); h in s.destroyed <==> h !in s.awaited
  {
    RunsKeepInv(run);
  }

  /** Nothing but the ready queue has work, and the loop is at its test. */
  predicate Calm(s: State) {
    s.phase.Testing? && s.running && s.posts == s.postBatch == [] && s.batch == [] && s.active.None?
  }

  const ROUND: seq<Action> := [Advance, Advance, Advance, Advance, Advance]

  /** The loop goes once around until it resumes the only entry. */
  lemma RoundResumes(s: State, item: Item)
    requires Calm(s) && s.ready == [item]
    ensures Exec(s, ROUND) == Resume(s.(phase := Resuming(false), ready := []), item)
  {
    hide Resume;
    var s1 := s.(phase := SwapPosts(false));
    var s2 := s.(phase := Posting(false));
    var s3 := s.(phase := SwapReady(false));
    var s4 := s.(phase := Resuming(false), batch := [item], ready := []);
    assert Step(s, Advance) == s1;
    assert Step(s1, Advance) == s2;
    assert Step(s2, Advance) == s3;
    assert Step(s3, Advance) == s4;
    assert [item][1..] == [];
    assert s4.(batch := s4.batch[1..]) == s.(phase := Resuming(false), ready := []);
    assert Step(s4, Advance) == Resume(s4.(batch := s4.batch[1..]), item);
    hide Step;
    Five(s, s1, s2, s3, s4);
  }

  lemma Five(s: State, s1: State, s2: State, s3: State, s4: State)
    requires Step(s, Advance) == s1 && Step(s1, Advance) == s2 && Step(s2, Advance) == s3 && Step(s3, Advance) == s4
    ensures Exec(s, ROUND) == Step(s4, Advance)
  {
    hide Step;
    assert ROUND[1..][1..][1..][1..][1..] == [];
    assert Exec(s4, ROUND[1..][1..][1..][1..]) == Step(s4, Advance);
    assert Exec(s3, ROUND[1..][1..][1..]) == Step(s4, Advance);
    assert Exec(s2, ROUND[1..][1..]) == Step(s4, Advance);
  }

  lemma {:induction false} ExecConcat(s: State, a: seq<Action>, b: seq<Action>)
    ensures Exec(s, a + b) == Exec(Exec(s, a), b)
    decreases |a|
  {
    hide Step;
    if a == [] {
      assert a + b == b;
    } else {
      assert (a + b)[1..] == a[1..] + b;
      ExecConcat(Step(s, a[0]), a[1..], b);
    }
  }

  /** The run of a coroutine that awaits one operation, is resumed by its completion, and finishes. */
  function AwaitingRun(h: Handle, op: OpId, result: int): seq<Action> {
    [Start(h), Run] + ROUND + ([Await(op), Advance, Complete(op, result), Advance] + ROUND + [Finish])
  }

  /** It starts, is resumed for the first time, and awaits. */
  lemma FirstHalf(h: Handle) returns (s: State)
    ensures s == Exec(Init(), [Start(h), Run] + ROUND)
    ensures s.phase == Resuming(false) && s.running && s.active == Some(Item(h, true))
    ensures s.posts == s.postBatch == [] && s.ready == s.batch == [] && s.ops == map[]
    ensures s.coroutines == map[h := Active] && s.awaited == {} && s.destroyed == {}
  {
    var s0 := Init();
    var s1 := Step(s0, Start(h));
    var s2 := Step(s1, Run);
    assert Exec(s0, [Start(h), Run]) == s2 by {
      assert [Start(h), Run][1..][1..] == [];
      assert Exec(s1, [Start(h), Run][1..]) == s2;
    }
    assert s2.ready == [Item(h, true)];
    ExecConcat(s0, [Start(h), Run], ROUND);
    RoundResumes(s2, Item(h, true));
    s := Exec(s2, ROUND);
  }

  lemma FourSteps(s: State, a: Action, b: Action, c: Action, d: Action)
    ensures Exec(s, [a, b, c, d]) == Step(Step(Step(Step(s, a), b), c), d)
  {
    hide Step;
    var run := [a, b, c, d];
    assert run[1..][1..][1..][1..] == [];
    assert Exec(Step(Step(Step(s, a), b), c), run[1..][1..][1..]) == Step(Step(Step(Step(s, a), b), c), d);
    assert Exec(Step(Step(s, a), b), run[1..][1..]) == Step(Step(Step(Step(s, a), b), c), d);
  }

  /** It awaits, the completion enqueues it, and it is resumed with the result. */
  lemma SecondHalf(s: State, h: Handle, op: OpId, result: int) returns (r: State)
    requires s.phase == Resuming(false) && s.running && s.active == Some(Item(h, true)) && s.first == map[]
    requires s.posts == s.postBatch == [] && s.ready == s.batch == [] && s.ops == map[]
    requires s.coroutines == map[h := Active] && s.awaited == {} && s.destroyed == {}
    ensures r == Exec(s, [Await(op), Advance, Complete(op, result), Advance] + ROUND)
    ensures r.active == Some(Item(h, false)) && r.awaited == {h} && r.destroyed == {}
    ensures |r.resumed| == |s.resumed| + 1 && r.resumed[|s.resumed|] == Resumed(h, Some(op), result)
  {
    var s1 := Step(s, Await(op));
    assert s1.coroutines == map[h := Suspended(op)] && s1.ops == map[op := Op(h, false, 0)];
    var s2 := s1.(phase := Polling);
    assert Step(s1, Advance) == s2;
    var s3 := Step(s2, Complete(op, result));
    assert s3.ready == [Item(h, false)] && s3.ops[op] == Op(h, true, result);
    var s4 := s3.(phase := Testing);
    assert Step(s3, Advance) == s4;
    FourSteps(s, Await(op), Advance, Complete(op, result), Advance);
    ExecConcat(s, [Await(op), Advance, Complete(op, result), Advance], ROUND);
    RoundResumes(s4, Item(h, false));
    r := Exec(s4, ROUND);
  }

  /** A coroutine that awaits one operation goes on with its result, finishes, and is never destroyed. */
  lemma AwaitedIsNotDestroyed(h: Handle, op: OpId, result: int)
    ensures var s := Exec(Init(), AwaitingRun(h, op, result));
            && h in s.coroutines && s.coroutines[h].Finished? && h in s.awaited && h !in s.destroyed
            && s.resumed != [] && s.resumed[|s.resumed| - 1] == Resumed(h, Some(op), result)
  {
    var s := FirstHalf(h);
    NothingCompleted(h);
    var r := SecondHalf(s, h, op, result);
    var first, second := [Start(h), Run] + ROUND, [Await(op), Advance, Complete(op, result), Advance] + ROUND;
    ExecConcat(Init(), first, second + [Finish]);
    ExecConcat(s, second, [Finish]);
    assert [Finish][1..] == [];
    assert Exec(r, [Finish]) == Step(r, Finish);
  }

  lemma NothingCompleted(h: Handle)
    ensures Exec(Init(), [Start(h), Run] + ROUND).first == map[]
  {
    var s := FirstHalf(h);
    RunsKeepInv([Start(h), Run] + ROUND);
    assert forall op :: op !in s.first;
  }

  // ------------------------------------------------------------- after the end

  /** The ready queue has been swapped for the last time. */
  predicate PastLastSwap(p: Phase) { p == Resuming(true) || p.Ended? }

  /** What is enqueued after that are coroutines being started: completions come only while the loop polls. */
  predicate OnlyStarts(s: State) {
    PastLastSwap(s.phase) ==>
      forall i | 0 <= i < |s.ready| :: s.ready[i].handle in s.coroutines && s.coroutines[s.ready[i].handle].Started?
  }

  lemma ResumeKeepsStarts(s: State)
    requires OnlyStarts(s) && Placed(s) && s.phase == Resuming(true) && s.batch != []
    ensures OnlyStarts(ResumeFirst(s))
  {
    var r := ResumeFirst(s);
    assert Queue(s)[0] == s.batch[0];
    forall i | 0 <= i < |r.ready|
      ensures r.ready[i].handle in r.coroutines && r.coroutines[r.ready[i].handle].Started? {
      assert Queue(s)[|s.batch| + i] == s.ready[i];
    }
  }

  lemma LoopKeepsStarts(s: State)
    requires OnlyStarts(s) && Inv(s) && s.active.None?
    ensures OnlyStarts(LoopStep(s))
  {
    hide Linked;
    hide Once;
    hide InOrder;
    hide Frames;
    if Resumes(s) {
      ResumeIsLoopStep(s);
      if s.phase == Resuming(true) { ResumeKeepsStarts(s); } else { ResumeKeepsPhase(s); }
    } else {
      hide Placed;
      LoopIs(s);
      LoopFrame(s);
      EndPhases(s);
    }
  }

  lemma ResumeKeepsPhase(s: State)
    requires s.batch != []
    ensures ResumeFirst(s).phase == s.phase
  {
  }

  lemma EndPhases(s: State)
    requires !Resumes(s)
    ensures PastLastSwap(LoopStep(s).phase) ==> PastLastSwap(s.phase) || s.phase == SwapReady(true)
  {
    hide Resume;
    match s.phase
    case Testing => assert LoopStep(s).phase == SwapPosts(!s.running);
    case SwapPosts(last) => assert LoopStep(s).phase == Posting(last);
    case SwapReady(last) => assert LoopStep(s).phase == Resuming(last);
    case Polling => assert LoopStep(s).phase == Testing;
    case _ =>
  }

  lemma StepKeepsStarts(s: State, a: Action)
    requires OnlyStarts(s) && Inv(s)
    ensures OnlyStarts(Step(s, a))
  {
    hide LoopStep;
    hide CompleteOp;
    if a.Advance? {
      if s.active.None? { LoopKeepsStarts(s); }
    } else if a.Await? || a.Finish? {
      if s.active.Some? { ActiveKeepsStarts(s, a); }
    } else {
      hide Inv;
      if a.Complete? && a.op in s.ops { PhaseStays(s, a.op, a.result); }
    }
  }

  /** The active coroutine is not one that waits to be started. */
  lemma ActiveKeepsStarts(s: State, a: Action)
    requires OnlyStarts(s) && Linked(s) && s.active.Some? && (a.Await? || a.Finish?)
    ensures OnlyStarts(Step(s, a))
  {
    assert CoRight(s, s.active.value.handle);
  }

  lemma {:induction false} ExecKeepsStarts(s: State, run: seq<Action>)
    requires OnlyStarts(s) && Inv(s)
    ensures OnlyStarts(Exec(s, run))
    decreases |run|
  {
    hide OnlyStarts;
    hide Inv;
    if run != [] {
      StepKeepsStarts(s, run[0]);
      StepKeepsInv(s, run[0]);
      ExecKeepsStarts(Step(s, run[0]), run[1..]);
    }
  }

  /**
   What run() leaves when it returns: no entry of a swapped batch, no coroutine whose
   operation has completed, and none running.  Left are exactly the coroutines that await
   an uncompleted operation, and those started since the last swap, which stand in the
   ready queue, and the functions posted since the last swap.
   */
  lemma LeftAtEnd(run: seq<Action>, h: Handle)
    requires Exec(Init(), run).phase.Ended? && h in Exec(Init(), run).coroutines
    ensures var s := Exec(Init(), run);
            && s.batch == [] && s.postBatch == [] && s.called + s.posts == s.posted && s.active.None?
            && match s.coroutines[h]
               case Started => InQueue(s.ready, h)
               case Suspended(op) => op in s.ops && !s.ops[op].completed && !InQueue(s.ready, h)
               case Active => false
               case Finished => !InQueue(s.ready, h)
  {
    hide Once;
    hide Frames;
    hide Placed;
    hide Exec;
    var s := Exec(Init(), run);
    RunsKeepInv(run);
    RunsKeepStarts(run);
    OnePlaceEach(run, h);
    AtEndNothingSwapped(s);
    OnlyStartsQueued(s, h);
  }

  lemma RunsKeepStarts(run: seq<Action>)
    ensures OnlyStarts(Exec(Init(), run))
  {
    InitHasInv();
    ExecKeepsStarts(Init(), run);
  }

  lemma AtEndNothingSwapped(s: State)
    requires InOrder(s) && Linked(s) && s.phase.Ended?
    ensures s.batch == [] && s.postBatch == [] && Queue(s) == s.ready
            && s.called + s.posts == s.posted && s.active.None?
    ensures forall h | h in s.coroutines :: !s.coroutines[h].Active?
  {
    hide HandlesOf;
    forall h | h in s.coroutines ensures !s.coroutines[h].Active? { assert CoRight(s, h); }
  }

  lemma OnlyStartsQueued(s: State, h: Handle)
    requires OnlyStarts(s) && s.phase.Ended?
    ensures InQueue(s.ready, h) ==> h in s.coroutines && s.coroutines[h].Started?
  {
  }

  /** And it stays left: nothing is resumed, called or completed any more. */
  lemma {:induction false} EndIsFinal(s: State, run: seq<Action>)
    requires s.phase.Ended? && s.active.None?
    ensures var r := Exec(s, run);
            && r.phase.Ended? && r.resumed == s.resumed && r.called == s.called && r.ops == s.ops
            && (forall h | h in s.coroutines :: h in r.coroutines && r.coroutines[h] == s.coroutines[h])
    decreases |run|
  {
    if run != [] {
      EndedStep(s, run[0]);
      hide Step;
      EndIsFinal(Step(s, run[0]), run[1..]);
    }
  }

  lemma EndedStep(s: State, a: Action)
    requires s.phase.Ended? && s.active.None?
    ensures var r := Step(s, a);
            && r.phase.Ended? && r.active.None? && r.resumed == s.resumed && r.called == s.called && r.ops == s.ops
            && (forall h | h in s.coroutines :: h in r.coroutines && r.coroutines[h] == s.coroutines[h])
  {
    hide CompleteOp;
  }

  const LAST: seq<Action> := [Stop, Advance, Advance, Advance, Advance, Advance, Advance, Advance]

  /** Such a run: stop comes while a coroutine awaits, and it is never resumed. */
  lemma StopLeavesAwaiting(h: Handle, op: OpId, more: seq<Action>)
    ensures var s := Exec(Init(), [Start(h), Run] + ROUND + ([Await(op)] + LAST) + more);
            s.phase.Ended? && h in s.coroutines && s.coroutines[h] == Suspended(op)
  {
    var s := FirstHalf(h);
    var s1 := Step(s, Await(op));
    var end := EndsFrom(s1);
    ExecConcat(Init(), [Start(h), Run] + ROUND + ([Await(op)] + LAST), more);
    ExecConcat(Init(), [Start(h), Run] + ROUND, [Await(op)] + LAST);
    assert ([Await(op)] + LAST)[1..] == LAST;
    EndIsFinal(end, more);
  }

  /** From the end of a batch, with nothing queued, stop leads to the end. */
  lemma EndsFrom(s: State) returns (end: State)
    requires s.phase == Resuming(false) && s.batch == s.ready == [] && s.posts == s.postBatch == [] && s.active.None?
    ensures end == Exec(s, LAST) && end.phase.Ended? && end.active.None? && end.coroutines == s.coroutines
  {
    var s0 := Step(s, Stop);
    var s1, s2 := s0.(phase := Polling), s0.(phase := Testing);
    var s3, s4 := s0.(phase := SwapPosts(true)), s0.(phase := Posting(true));
    var s5, s6 := s0.(phase := SwapReady(true)), s0.(phase := Resuming(true));
    end := s0.(phase := Ended);
    assert Step(s0, Advance) == s1 && Step(s1, Advance) == s2 && Step(s2, Advance) == s3;
    assert Step(s3, Advance) == s4 && Step(s4, Advance) == s5 && Step(s5, Advance) == s6 && Step(s6, Advance) == end;
    hide Step;
    FourSteps(s, Stop, Advance, Advance, Advance);
    FourSteps(s3, Advance, Advance, Advance, Advance);
    ExecConcat(s, [Stop, Advance, Advance, Advance], [Advance, Advance, Advance, Advance]);
    assert LAST == [Stop, Advance, Advance, Advance] + [Advance, Advance, Advance, Advance];
  }

  // -------------------------------------------------- completions as a loop

  datatype Cqe = Cqe(op: OpId, result: int)

  function Completions(cqes: seq<Cqe>): (run: seq<Action>)
    ensures |run| == |cqes| && forall i | 0 <= i < |cqes| :: run[i] == Complete(cqes[i].op, cqes[i].result)
  {
    seq(|cqes|, i requires 0 <= i < |cqes| => Complete(cqes[i].op, cqes[i].result))
  }

  lemma {:induction false} OneMore(s: State, cqes: seq<Cqe>, n: nat)
    requires n < |cqes|
    ensures Exec(s, Completions(cqes[..n + 1])) ==
            Step(Exec(s, Completions(cqes[..n])), Complete(cqes[n].op, cqes[n].result))
    decreases n
  {
    hide Step;
    var a, b := Completions(cqes[..n + 1]), Completions(cqes[..n]);
    if n == 0 {
      assert a[1..] == [];
    } else {
      assert a[1..] == Completions(cqes[1..][..n]) && b[1..] == Completions(cqes[1..][..n - 1]);
      OneMore(Step(s, a[0]), cqes[1..], n - 1);
    }
  }

  class Uring {
    var ready: seq<Item>
    var ops: map<OpId, Op>
    /** The rest of the protocol state; only its history fields change here. */
    ghost var rest: State

    constructor ()
      ensures View() == Init()
    {
      ready, ops, rest := [], map[], Init();
    }

    ghost function View(): State
      reads this
    {
      rest.(ready := ready, ops := ops)
    }

    method AddReady(h: Handle, destroy: bool)
      modifies this`ready, this`rest
      ensures View() == Enqueue(old(View()), h, destroy)
    {
      ready := ready + [Item(h, destroy)];
      rest := rest.(enqueued := rest.enqueued + [h]);
    }

    /** OperationBase::complete: exchanges the flag, and only the first caller goes on. */
    method CompleteOne(op: OpId, result: int)
      requires op in ops
      modifies this
      ensures View() == CompleteOp(old(View()), op, result) && op in ops && ops[op].completed
    {
      rest := rest.(first := if op in rest.first then rest.first else rest.first[op := result]);
      var was := ops[op].completed;
      var h := ops[op].continuation;
      if was { return; }
      ops := ops[op := Op(h, true, result)];
      AddReady(h, false);
    }

    /** The loop over the completion queue in run(); an entry without an operation is skipped. */
    method HandleAll(cqes: seq<Cqe>)
      requires View().phase.Polling?
      modifies this
      ensures View() == Exec(old(View()), Completions(cqes)) && View().phase.Polling?
    {
      hide CompleteOp;
      ghost var s := View();
      for i := 0 to |cqes|
        invariant View() == Exec(s, Completions(cqes[..i])) && View().phase.Polling?
      {
        OneMore(s, cqes, i);
        if cqes[i].op in ops {
          PhaseStays(View(), cqes[i].op, cqes[i].result);
          CompleteOne(cqes[i].op, cqes[i].result);
        }
      }
      assert cqes[..|cqes|] == cqes;
    }
  }

  lemma PhaseStays(s: State, op: OpId, result: int)
    requires op in s.ops
    ensures CompleteOp(s, op, result).phase == s.phase
  {
  }
}
