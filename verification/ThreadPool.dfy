/**
 The thread pool: one lock, one condition variable, a ring of tasks, workers that sleep
 when there is nothing to do, and two ways of shutting down.

 A step is what one thread does under one hold of the lock, or the running of a task.
 pthread_cond_signal wakes one sleeper of the scheduler's choice, broadcast wakes all, and
 a sleeper may wake for no reason.  The pool's own calls on lock and condition succeed.
 */
module ThreadPool {
  import opened Basics
  import opened TaskRing

  datatype Shutdown = No | Immediate | Graceful

  /** Running carries the task's number in the order of acceptance. */
  datatype Worker = Ready | Asleep | Awake | Running(ticket: nat, task: Option<Task>) | Gone

  datatype Code = Accepted | QueueFull | ShutDown

  datatype Ran = Ran(ticket: nat, task: Option<Task>)

  /** Where a dequeued task is: with a worker, or at a place in the list of tasks run. */
  datatype Place = Held(worker: nat) | Done(at: nat)

  /**
   locked says that the lock is held for ever.  accepted, places and executed are history:
   the tasks accepted, for each dequeued one where it is, and the tasks run.
   */
  datatype Pool = Pool(ring: Ring, shutdown: Shutdown, started: int, workers: seq<Worker>,
                       locked: bool, joining: bool, freed: bool,
                       accepted: seq<Task>, places: seq<Place>, executed: seq<Ran>)

  datatype Action =
    | Add(task: Task, woken: nat)
    | Destroy(how: Shutdown)
    | Work(w: nat)
    | Spurious(w: nat)
    | JoinAll

  const MAX_THREADS := 1024
  const MAX_QUEUE := 65535

  /** threadpool_create: out-of-range arguments are replaced by 4 threads and 1024 slots. */
  function Create(threads: int, size: int): (s: Pool)
    ensures |s.workers| > 0 && |s.ring.slots| > 0
    ensures 0 < threads <= 1024 && 0 < size <= 65535 ==> |s.workers| == threads && |s.ring.slots| == size
    ensures !(0 < threads <= 1024 && 0 < size <= 65535) ==> |s.workers| == 4 && |s.ring.slots| == 1024
    ensures forall w | 0 <= w < |s.workers| :: s.workers[w] == Ready
  {
    var valid := 0 < threads <= MAX_THREADS && 0 < size <= MAX_QUEUE;
    var t: nat, n: nat := if valid then threads else 4, if valid then size else 1024;
    Pool(Ring(seq(n, _ => None), 0, 0, 0), No, t, seq(t, _ => Ready), false, false, false, [], [], [])
  }

  /** One sleeper is woken: the chosen one if it sleeps, and otherwise the first. */
  function Signal(ws: seq<Worker>, chosen: nat): (r: seq<Worker>)
    ensures |r| == |ws|
  {
    if chosen < |ws| && ws[chosen].Asleep? then ws[chosen := Awake] else WakeFirst(ws)
  }

  function WakeFirst(ws: seq<Worker>): (r: seq<Worker>)
    ensures |r| == |ws|
  {
    if ws == [] then [] else if ws[0].Asleep? then [Awake] + ws[1..] else [ws[0]] + WakeFirst(ws[1..])
  }

  function Broadcast(ws: seq<Worker>): (r: seq<Worker>)
    ensures |r| == |ws| && forall i | 0 <= i < |ws| :: r[i] == if ws[i].Asleep? then Awake else ws[i]
  {
    seq(|ws|, i requires 0 <= i < |ws| => if ws[i].Asleep? then Awake else ws[i])
  }

  /** What threadpool_add answers: a full queue is reported before a shutdown. */
  function AddCode(s: Pool): Code {
    if s.ring.count == |s.ring.slots| then QueueFull
    else if s.shutdown != No then ShutDown
    else Accepted
  }

  /** What a worker does with the lock in hand: sleep, leave, or take a task. */
  function Locked(s: Pool, w: nat): Pool
    requires w < |s.workers|
  {
    if s.ring.count == 0 && s.shutdown == No then s.(workers := s.workers[w := Asleep])
    else if s.shutdown == Immediate || (s.shutdown == Graceful && s.ring.count == 0) then
      s.(workers := s.workers[w := Gone], started := s.started - 1)
    else if s.ring.count > 0 && s.ring.head < |s.ring.slots| then
      var task := s.ring.slots[s.ring.head];
      s.(ring := Removed(s.ring), workers := s.workers[w := Running(|s.places|, task)], places := s.places + [Held(w)])
    else s
  }

  function Execute(s: Pool, w: nat): Pool
    requires w < |s.workers| && s.workers[w].Running?
  {
    var k := s.workers[w].ticket;
    s.(executed := s.executed + [Ran(k, s.workers[w].task)], workers := s.workers[w := Ready],
       places := if k < |s.places| then s.places[k := Done(|s.executed|)] else s.places)
  }

  predicate AllGone(s: Pool) { forall i | 0 <= i < |s.workers| :: s.workers[i].Gone? }

  function Step(s: Pool, a: Action): Pool {
    if s.freed then s
    else
      match a
      case Add(task, woken) =>
        if !s.locked && AddCode(s) == Accepted && s.ring.tail < |s.ring.slots| then
          s.(ring := Stored(s.ring, task), accepted := s.accepted + [task], workers := Signal(s.workers, woken))
        else s
      case Destroy(how) =>
        if s.locked || how == No then s
        else if s.shutdown != No then s.(locked := true)
        else s.(shutdown := how, workers := Broadcast(s.workers), joining := true)
      case Work(w) =>
        if w >= |s.workers| then s
        else if s.workers[w].Running? then Execute(s, w)
        else if (s.workers[w].Ready? || s.workers[w].Awake?) && !s.locked then Locked(s, w)
        else s
      case Spurious(w) =>
        if w < |s.workers| && s.workers[w].Asleep? then s.(workers := s.workers[w := Awake]) else s
      case JoinAll =>
        if s.joining && AllGone(s) && !s.locked then s.(joining := false, freed := s.started <= 0) else s
  }

  function Exec(s: Pool, run: seq<Action>): Pool
    decreases |run|
  {
    if run == [] then s else Exec(Step(s, run[0]), run[1..])
  }

  // ------------------------------------------------------------ the invariant

  function Live(ws: seq<Worker>): nat {
    if ws == [] then 0 else (if ws[0].Gone? then 0 else 1) + Live(ws[1..])
  }

  /** The queue holds the accepted tasks that have not been taken. */
  predicate QueueRight(s: Pool) { Holds(s.ring, |s.places|, s.accepted) }

  /** A worker at a task holds it, and it is the task accepted under that number. */
  predicate WorkerRight(s: Pool, w: nat)
    requires w < |s.workers|
  {
    s.workers[w].Running? ==>
      var k := s.workers[w].ticket;
      && k < |s.places| && k < |s.accepted| && s.places[k] == Held(w)
      && s.workers[w].task == Some(s.accepted[k])
  }

  predicate RanRight(s: Pool, p: nat)
    requires p < |s.executed|
  {
    var k := s.executed[p].ticket;
    k < |s.places| && k < |s.accepted| && s.places[k] == Done(p) && s.executed[p].task == Some(s.accepted[k])
  }

  predicate PlaceRight(s: Pool, k: nat)
    requires k < |s.places|
  {
    match s.places[k]
    case Held(w) => w < |s.workers| && s.workers[w].Running? && s.workers[w].ticket == k
    case Done(p) => p < |s.executed| && s.executed[p].ticket == k
  }

  predicate TasksRight(s: Pool) {
    && (forall w | 0 <= w < |s.workers| :: WorkerRight(s, w))
    && (forall p | 0 <= p < |s.executed| :: RanRight(s, p))
    && (forall k | 0 <= k < |s.places| :: PlaceRight(s, k))
  }

  predicate AllAsleep(ws: seq<Worker>) { forall i | 0 <= i < |ws| :: ws[i].Asleep? }

  predicate AnyAsleep(ws: seq<Worker>) { exists i :: 0 <= i < |ws| && ws[i].Asleep? }

  predicate AnyGone(ws: seq<Worker>) { exists i :: 0 <= i < |ws| && ws[i].Gone? }

  /** Nobody sleeps on work or on a shutdown. */
  predicate Awakened(s: Pool) {
    && (s.shutdown == No ==> !AnyGone(s.workers))
    && (s.shutdown == No && s.ring.count > 0 ==> !AllAsleep(s.workers))
    && (s.shutdown != No ==> !AnyAsleep(s.workers))
    && (s.shutdown == Graceful && AnyGone(s.workers) ==> s.ring.count == 0)
  }

  predicate Counted(s: Pool) {
    && |s.workers| > 0 && s.started == Live(s.workers)
    && (s.joining ==> s.shutdown != No)
    && (s.freed ==> s.shutdown != No && AllGone(s))
    && (s.locked ==> s.shutdown != No)
  }

  predicate Inv(s: Pool) { QueueRight(s) && TasksRight(s) && Awakened(s) && Counted(s) }

  lemma {:induction false} LiveUpdate(ws: seq<Worker>, i: nat, x: Worker)
    requires i < |ws|
    ensures Live(ws[i := x]) == Live(ws) - (if ws[i].Gone? then 0 else 1) + (if x.Gone? then 0 else 1)
  {
    if i == 0 {
      assert ws[i := x][1..] == ws[1..];
    } else {
      assert ws[i := x][1..] == ws[1..][i - 1 := x];
      LiveUpdate(ws[1..], i - 1, x);
    }
  }

  lemma {:induction false} LiveSame(ws: seq<Worker>, vs: seq<Worker>)
    requires |ws| == |vs| && forall i | 0 <= i < |ws| :: ws[i].Gone? == vs[i].Gone?
    ensures Live(ws) == Live(vs)
  {
    if ws != [] {
      assert ws[0].Gone? == vs[0].Gone?;
      LiveSame(ws[1..], vs[1..]);
    }
  }

  lemma {:induction false} AllGoneLive(ws: seq<Worker>)
    ensures (forall i | 0 <= i < |ws| :: ws[i].Gone?) <==> Live(ws) == 0
  {
    if ws != [] {
      AllGoneLive(ws[1..]);
      assert ws == [ws[0]] + ws[1..];
    }
  }

  /** Waking changes sleepers only, and wakes one if there is one. */
  lemma {:induction false} FirstWoken(ws: seq<Worker>)
    ensures forall i | 0 <= i < |ws| :: WakeFirst(ws)[i] == ws[i] || (ws[i].Asleep? && WakeFirst(ws)[i] == Awake)
    ensures AnyAsleep(ws) ==> exists i :: 0 <= i < |ws| && WakeFirst(ws)[i] == Awake
  {
    if ws != [] && !ws[0].Asleep? {
      FirstWoken(ws[1..]);
      var r := WakeFirst(ws);
      assert ws == [ws[0]] + ws[1..] && r == [ws[0]] + WakeFirst(ws[1..]);
      if AnyAsleep(ws) {
        var i :| 0 <= i < |ws| && ws[i].Asleep?;
        assert ws[1..][i - 1].Asleep?;
        var j :| 0 <= j < |ws| - 1 && WakeFirst(ws[1..])[j] == Awake;
        assert r[j + 1] == Awake;
      }
    } else if ws != [] {
      assert WakeFirst(ws)[0] == Awake;
    }
  }

  lemma SignalWakes(ws: seq<Worker>, chosen: nat)
    ensures forall i | 0 <= i < |ws| ::
              Signal(ws, chosen)[i] == ws[i] || (ws[i].Asleep? && Signal(ws, chosen)[i] == Awake)
    ensures ws != [] ==> !AllAsleep(Signal(ws, chosen))
  {
    FirstWoken(ws);
    var r := Signal(ws, chosen);
    if ws != [] {
      if chosen < |ws| && ws[chosen].Asleep? {
        assert r[chosen] == Awake;
      } else if AnyAsleep(ws) {
        var i :| 0 <= i < |ws| && WakeFirst(ws)[i] == Awake;
        assert !r[i].Asleep?;
      } else {
        assert !ws[0].Asleep? && r[0] == ws[0];
      }
    }
  }

  // ------------------------------------------------------- every step keeps it

  /** Only what sleeps is woken: tasks, places and counts of the living are unaffected. */
  lemma WakingKeepsTasks(s: Pool, r: Pool)
    requires TasksRight(s) && r.places == s.places && r.executed == s.executed && s.accepted <= r.accepted
    requires |r.workers| == |s.workers|
    requires forall i | 0 <= i < |s.workers| ::
               r.workers[i] == s.workers[i] || (s.workers[i].Asleep? && r.workers[i].Awake?)
    ensures TasksRight(r) && Live(r.workers) == Live(s.workers)
  {
    forall w | 0 <= w < |r.workers| ensures WorkerRight(r, w) { assert WorkerRight(s, w); }
    forall p | 0 <= p < |r.executed| ensures RanRight(r, p) { assert RanRight(s, p); }
    forall k | 0 <= k < |r.places| ensures PlaceRight(r, k) { assert PlaceRight(s, k); }
    LiveSame(s.workers, r.workers);
  }

  /** A worker that runs no task changes to another state without a task. */
  lemma IdleKeepsTasks(s: Pool, r: Pool, w: nat, x: Worker)
    requires TasksRight(s) && w < |s.workers| && !s.workers[w].Running? && !x.Running?
    requires r.workers == s.workers[w := x] && r.places == s.places
             && r.executed == s.executed && r.accepted == s.accepted
    ensures TasksRight(r)
  {
    forall v | 0 <= v < |r.workers| ensures WorkerRight(r, v) { assert WorkerRight(s, v); }
    forall p | 0 <= p < |r.executed| ensures RanRight(r, p) { assert RanRight(s, p); }
    forall k | 0 <= k < |r.places| ensures PlaceRight(r, k) { assert PlaceRight(s, k); }
  }

  lemma AddKeepsInv(s: Pool, task: Task, woken: nat)
    requires Inv(s)
    ensures Inv(Step(s, Add(task, woken)))
  {
    var r := Step(s, Add(task, woken));
    if r != s {
      hide Holds;
      hide WorkerRight;
      hide RanRight;
      hide PlaceRight;
      hide Signal;
      PutIsRight(s, task);
      SignalWakes(s.workers, woken);
      WakingKeepsTasks(s, r);
    }
  }

  lemma PutIsRight(s: Pool, task: Task)
    requires QueueRight(s) && s.ring.count != |s.ring.slots|
    ensures Holds(Stored(s.ring, task), |s.places|, s.accepted + [task])
  {
    PutHolds(s.ring, |s.places|, s.accepted, task);
  }

  lemma DestroyKeepsInv(s: Pool, how: Shutdown)
    requires Inv(s)
    ensures Inv(Step(s, Destroy(how)))
  {
    hide Holds;
    hide WorkerRight;
    hide RanRight;
    hide PlaceRight;
    var r := Step(s, Destroy(how));
    WakingKeepsTasks(s, r);
  }

  /** The lock in hand: the worker takes the oldest accepted task. */
  lemma TakeKeepsTasks(s: Pool, r: Pool, w: nat)
    requires TasksRight(s) && w < |s.workers| && !s.workers[w].Running? && |s.places| < |s.accepted|
    requires r.workers == s.workers[w := Running(|s.places|, Some(s.accepted[|s.places|]))]
    requires r.places == s.places + [Held(w)] && r.executed == s.executed && r.accepted == s.accepted
    ensures TasksRight(r)
  {
    forall v | 0 <= v < |r.workers| ensures WorkerRight(r, v) { assert WorkerRight(s, v); }
    forall p | 0 <= p < |r.executed| ensures RanRight(r, p) { assert RanRight(s, p); }
    forall k | 0 <= k < |r.places| ensures PlaceRight(r, k) {
      if k < |s.places| { assert PlaceRight(s, k); }
    }
  }

  lemma TakeIsRight(s: Pool)
    requires QueueRight(s) && s.ring.count > 0
    ensures |s.places| < |s.accepted| && s.ring.head < |s.ring.slots|
    ensures s.ring.slots[s.ring.head] == Some(s.accepted[|s.places|])
    ensures Holds(Removed(s.ring), |s.places| + 1, s.accepted)
  {
    TakeHolds(s.ring, |s.places|, s.accepted);
  }

  lemma SleepKeepsInv(s: Pool, w: nat)
    requires Inv(s) && w < |s.workers| && !s.workers[w].Running? && !s.workers[w].Gone?
    requires s.ring.count == 0 && s.shutdown == No
    ensures Inv(s.(workers := s.workers[w := Asleep]))
  {
    hide Holds;
    hide TasksRight;
    IdleKeepsTasks(s, s.(workers := s.workers[w := Asleep]), w, Asleep);
    LiveUpdate(s.workers, w, Asleep);
  }

  lemma LeaveKeepsInv(s: Pool, w: nat)
    requires Inv(s) && w < |s.workers| && !s.workers[w].Running? && !s.workers[w].Gone? && !s.freed
    requires s.shutdown == Immediate || (s.shutdown == Graceful && s.ring.count == 0)
    ensures Inv(s.(workers := s.workers[w := Gone], started := s.started - 1))
  {
    hide Holds;
    hide TasksRight;
    IdleKeepsTasks(s, s.(workers := s.workers[w := Gone], started := s.started - 1), w, Gone);
    LiveUpdate(s.workers, w, Gone);
  }

  lemma TakeKeepsInv(s: Pool, r: Pool, w: nat)
    requires Inv(s) && w < |s.workers| && !s.workers[w].Running? && !s.workers[w].Gone? && !s.freed
    requires s.ring.count > 0 && s.shutdown != Immediate
    requires s.ring.head < |s.ring.slots|
    requires r == s.(ring := Removed(s.ring), workers := s.workers[w := Running(|s.places|, s.ring.slots[s.ring.head])],
                     places := s.places + [Held(w)])
    ensures Inv(r)
  {
    hide Holds;
    hide TasksRight;
    TakeIsRight(s);
    TakeKeepsTasks(s, r, w);
    LiveUpdate(s.workers, w, r.workers[w]);
    assert !r.workers[w].Asleep?;
    assert AnyGone(r.workers) ==> AnyGone(s.workers);
    assert AnyAsleep(r.workers) ==> AnyAsleep(s.workers);
  }

  lemma LockedKeepsInv(s: Pool, w: nat)
    requires Inv(s) && w < |s.workers| && !s.workers[w].Running? && !s.workers[w].Gone? && !s.freed
    ensures Inv(Locked(s, w))
  {
    if s.ring.count == 0 && s.shutdown == No {
      SleepKeepsInv(s, w);
    } else if s.shutdown == Immediate || (s.shutdown == Graceful && s.ring.count == 0) {
      LeaveKeepsInv(s, w);
    } else {
      hide Inv;
      if s.ring.count > 0 && s.ring.head < |s.ring.slots| { TakeKeepsInv(s, Locked(s, w), w); }
    }
  }

  lemma ExecuteKeepsTasks(s: Pool, w: nat)
    requires TasksRight(s) && w < |s.workers| && s.workers[w].Running?
    ensures TasksRight(Execute(s, w)) && s.workers[w].ticket < |s.places|
  {
    var r, k := Execute(s, w), s.workers[w].ticket;
    assert WorkerRight(s, w);
    forall v | 0 <= v < |r.workers| ensures WorkerRight(r, v) { assert WorkerRight(s, v); }
    forall p | 0 <= p < |r.executed| ensures RanRight(r, p) {
      if p < |s.executed| { assert RanRight(s, p); }
    }
    forall j | 0 <= j < |r.places| ensures PlaceRight(r, j) { assert PlaceRight(s, j); }
  }

  lemma ExecuteKeepsInv(s: Pool, w: nat)
    requires Inv(s) && w < |s.workers| && s.workers[w].Running? && !s.freed
    ensures Inv(Execute(s, w))
  {
    hide Holds;
    hide TasksRight;
    ExecuteKeepsTasks(s, w);
    LiveUpdate(s.workers, w, Ready);
    var r := Execute(s, w);
    assert !r.workers[w].Asleep?;
    assert AnyGone(r.workers) ==> AnyGone(s.workers);
    assert AnyAsleep(r.workers) ==> AnyAsleep(s.workers);
  }

  lemma SpuriousKeepsInv(s: Pool, w: nat)
    requires Inv(s) && w < |s.workers| && s.workers[w].Asleep?
    ensures Inv(s.(workers := s.workers[w := Awake]))
  {
    hide Holds;
    hide TasksRight;
    var r := s.(workers := s.workers[w := Awake]);
    IdleKeepsTasks(s, r, w, Awake);
    LiveUpdate(s.workers, w, Awake);
    assert !r.workers[w].Asleep?;
    assert AnyGone(r.workers) ==> AnyGone(s.workers);
    assert AnyAsleep(r.workers) ==> AnyAsleep(s.workers);
  }

  lemma JoinKeepsInv(s: Pool)
    requires Inv(s)
    ensures Inv(Step(s, JoinAll))
  {
    hide Holds;
    hide Live;
    var r := Step(s, JoinAll);
    WakingKeepsTasks(s, r);
  }

  lemma StepKeepsInv(s: Pool, a: Action)
    requires Inv(s)
    ensures Inv(Step(s, a))
  {
    hide Inv;
    hide Locked;
    hide Execute;
    match a
    case Add(task, woken) => AddKeepsInv(s, task, woken);
    case Destroy(how) => DestroyKeepsInv(s, how);
    case Work(w) =>
      if !s.freed && w < |s.workers| {
        if s.workers[w].Running? { ExecuteKeepsInv(s, w); }
        else if !s.workers[w].Gone? { LockedKeepsInv(s, w); }
      }
    case Spurious(w) => if !s.freed && w < |s.workers| && s.workers[w].Asleep? { SpuriousKeepsInv(s, w); }
    case JoinAll => JoinKeepsInv(s);
  }

  lemma {:induction false} ExecKeepsInv(s: Pool, run: seq<Action>)
    requires Inv(s)
    ensures Inv(Exec(s, run))
    decreases |run|
  {
    hide Inv;
    if run != [] {
      StepKeepsInv(s, run[0]);
      ExecKeepsInv(Step(s, run[0]), run[1..]);
    }
  }

  lemma {:induction false} AllReady(n: nat)
    ensures Live(seq(n, _ => Ready)) == n
  {
    if n > 0 {
      assert seq(n, _ => Ready)[1..] == seq(n - 1, _ => Ready);
      AllReady(n - 1);
    }
  }

  lemma CreatedKeepsInv(threads: int, size: int)
    ensures Inv(Create(threads, size))
  {
    var s := Create(threads, size);
    AllReady(|s.workers|);
    assert s.workers == seq(|s.workers|, _ => Ready);
    assert !s.workers[0].Asleep?;
    var n := |s.ring.slots|;
    forall k | 0 <= k < n ensures s.ring.slots[k % n] == None { }
  }

  lemma RunsKeepInv(threads: int, size: int, run: seq<Action>)
    ensures Inv(Exec(Create(threads, size), run))
  {
    hide Inv;
    CreatedKeepsInv(threads, size);
    ExecKeepsInv(Create(threads, size), run);
  }

  // ---------------------------------------------------------------- main results

  /** While there is work or a shutdown, some living worker is not asleep, unless all have left. */
  lemma NobodySleepsOnWork(threads: int, size: int, run: seq<Action>)
    ensures var s := Exec(Create(threads, size), run);
            s.ring.count > 0 || s.shutdown != No ==>
              AllGone(s) || exists i :: 0 <= i < |s.workers| && !s.workers[i].Asleep? && !s.workers[i].Gone?
  {
    RunsKeepInv(threads, size, run);
  }

  /** The ring's indices agree in every run, and it never holds more than its size. */
  lemma RingIndicesAgree(threads: int, size: int, run: seq<Action>)
    ensures var r := Exec(Create(threads, size), run).ring;
            |r.slots| > 0 && r.count <= |r.slots| && r.tail == (r.head + r.count) % |r.slots|
  {
    RunsKeepInv(threads, size, run);
    var s := Exec(Create(threads, size), run);
    TailFollows(s.ring, |s.places|, s.accepted);
  }

  lemma StepKeepsSizes(s: Pool, a: Action)
    ensures |Step(s, a).workers| == |s.workers| && |Step(s, a).ring.slots| == |s.ring.slots|
  {
  }

  lemma {:induction false} ExecKeepsSizes(s: Pool, run: seq<Action>)
    ensures |Exec(s, run).workers| == |s.workers| && |Exec(s, run).ring.slots| == |s.ring.slots|
    decreases |run|
  {
    hide Step;
    if run != [] {
      StepKeepsSizes(s, run[0]);
      ExecKeepsSizes(Step(s, run[0]), run[1..]);
    }
  }

  /** In every run there are as many workers and slots as were asked for, if both numbers are in range. */
  lemma SizesAsAsked(threads: int, size: int, run: seq<Action>)
    ensures var s := Exec(Create(threads, size), run);
            if 0 < threads <= 1024 && 0 < size <= 65535 then |s.workers| == threads && |s.ring.slots| == size
            else |s.workers| == 4 && |s.ring.slots| == 1024
  {
    ExecKeepsSizes(Create(threads, size), run);
  }

  /** Tasks accepted and not yet taken. */
  function Waiting(s: Pool): int { |s.accepted| - |s.places| }

  /**
   What threadpool_add answers, while the lock is free: full exactly when as many accepted
   tasks wait as the queue was created for, whether or not the pool is shut down; otherwise
   it accepts exactly until a shutdown; and the task is queued exactly when the answer says so.
   */
  lemma AddAnswers(threads: int, size: int, run: seq<Action>, task: Task, woken: nat)
    requires var s := Exec(Create(threads, size), run); !s.locked && !s.freed
    ensures var s := Exec(Create(threads, size), run);
            var room := if 0 < threads <= 1024 && 0 < size <= 65535 then size else 1024;
            && 0 <= Waiting(s) <= room
            && (AddCode(s) == QueueFull <==> Waiting(s) == room)
            && (AddCode(s) == ShutDown <==> Waiting(s) < room && s.shutdown != No)
            && (AddCode(s) == Accepted <==> Waiting(s) < room && s.shutdown == No)
            && Step(s, Add(task, woken)).accepted == s.accepted + if AddCode(s) == Accepted then [task] else []
  {
    SizesAsAsked(threads, size, run);
    RunsKeepInv(threads, size, run);
    hide TasksRight;
    hide Awakened;
    hide Create;
  }

  /** The first destroy sets the mode it is asked for and wakes everybody. */
  lemma DestroySetsMode(s: Pool, how: Shutdown)
    requires how != No && s.shutdown == No && !s.locked && !s.freed
    ensures var r := Step(s, Destroy(how));
            && r.shutdown == how && r.joining && !r.locked
            && forall w | 0 <= w < |r.workers| :: !r.workers[w].Asleep?
  {
  }

  lemma ImmediateStep(s: Pool, a: Action)
    requires s.shutdown == Immediate
    ensures var r := Step(s, a); r.shutdown == Immediate && |r.places| == |s.places| && r.accepted == s.accepted
  {
  }

  /** From an immediate shutdown on, no task is taken or accepted any more, in any continuation. */
  lemma {:induction false} ImmediateTakesNothing(s: Pool, run: seq<Action>)
    requires s.shutdown == Immediate
    ensures var r := Exec(s, run); r.shutdown == Immediate && |r.places| == |s.places| && r.accepted == s.accepted
    decreases |run|
  {
    hide Step;
    if run != [] {
      ImmediateStep(s, run[0]);
      ImmediateTakesNothing(Step(s, run[0]), run[1..]);
    }
  }

  /** Task k was run at place p, with the task accepted under that number. */
  predicate RanAt(s: Pool, k: nat, p: nat) {
    k < |s.accepted| && p < |s.executed| && s.executed[p] == Ran(k, Some(s.accepted[k]))
  }

  predicate HasRun(s: Pool, k: nat) { exists p :: 0 <= p < |s.executed| && RanAt(s, k, p) }

  /** In every run, no task is run twice, and what is run was accepted. */
  lemma NothingTwice(threads: int, size: int, run: seq<Action>, p: nat, q: nat)
    requires p < |Exec(Create(threads, size), run).executed| && q < |Exec(Create(threads, size), run).executed|
    ensures var s := Exec(Create(threads, size), run);
            && RanAt(s, s.executed[p].ticket, p)
            && (s.executed[p].ticket == s.executed[q].ticket ==> p == q)
  {
    RunsKeepInv(threads, size, run);
    var s := Exec(Create(threads, size), run);
    assert RanRight(s, p) && RanRight(s, q);
  }

  /** When destroy has returned with success, exactly the tasks dequeued have been run, oldest first. */
  lemma DequeuedAreRun(s: Pool, k: nat)
    requires Inv(s) && s.freed && k < |s.places|
    ensures HasRun(s, k)
  {
    assert PlaceRight(s, k);
    assert s.places[k].Done?;
    var p := s.places[k].at;
    assert RanRight(s, p);
    assert RanAt(s, k, p);
  }

  /** After a graceful destroy that succeeds, every accepted task has been run. */
  lemma GracefulRunsAll(threads: int, size: int, run: seq<Action>)
    requires var s := Exec(Create(threads, size), run); s.freed && s.shutdown == Graceful
    ensures var s := Exec(Create(threads, size), run);
            s.ring.count == 0 && forall k: nat :: k < |s.accepted| ==> HasRun(s, k)
  {
    RunsKeepInv(threads, size, run);
    var s := Exec(Create(threads, size), run);
    assert s.workers[0].Gone?;
    assert |s.places| == |s.accepted|;
    forall k: nat | k < |s.accepted| ensures HasRun(s, k) { DequeuedAreRun(s, k); }
  }

  /** After an immediate one, the tasks run are exactly the oldest: those not left in the queue. */
  lemma ImmediateRunsOldest(threads: int, size: int, run: seq<Action>, k: nat)
    requires var s := Exec(Create(threads, size), run); s.freed && k < |s.accepted|
    ensures var s := Exec(Create(threads, size), run);
            HasRun(s, k) <==> k < |s.accepted| - s.ring.count
  {
    RunsKeepInv(threads, size, run);
    var s := Exec(Create(threads, size), run);
    if k < |s.places| { DequeuedAreRun(s, k); }
    if HasRun(s, k) {
      var p :| 0 <= p < |s.executed| && RanAt(s, k, p);
      assert RanRight(s, p);
    }
  }

  /** Tasks leave the queue in the order they were accepted. */
  lemma TakenInOrder(threads: int, size: int, run: seq<Action>, w: nat)
    ensures var s := Exec(Create(threads, size), run); var s' := Step(s, Work(w));
            w < |s.workers| && |s'.places| > |s.places| ==>
              |s.places| < |s.accepted| && s'.workers[w] == Running(|s.places|, Some(s.accepted[|s.places|]))
  {
    RunsKeepInv(threads, size, run);
    var s := Exec(Create(threads, size), run);
    hide Holds;
    hide TasksRight;
    if s.ring.count > 0 { TakeIsRight(s); }
  }

  /** A second destroy returns with the lock held: nothing is taken, accepted or freed any more. */
  lemma {:induction false} SecondDestroyHangs(s: Pool, run: seq<Action>)
    requires s.locked && !s.freed
    ensures var s' := Exec(s, run);
            s'.locked && !s'.freed && |s'.places| == |s.places|
            && s'.accepted == s.accepted && s'.ring == s.ring
    decreases |run|
  {
    if run != [] {
      LockedStep(s, run[0]);
      SecondDestroyHangs(Step(s, run[0]), run[1..]);
    }
  }

  lemma LockedStep(s: Pool, a: Action)
    requires s.locked && !s.freed
    ensures var s' := Step(s, a);
            s'.locked && !s'.freed && |s'.places| == |s.places| && s'.accepted == s.accepted && s'.ring == s.ring
  {
  }

  /** How often destroy is called in a run before the pool has been freed. */
  function Calls(s: Pool, run: seq<Action>): nat
    decreases |run|
  {
    if run == [] then 0
    else (if run[0].Destroy? && run[0].how != No && !s.freed then 1 else 0) + Calls(Step(s, run[0]), run[1..])
  }

  /** The calls that it takes to leave the lock held. */
  function CallsToLock(s: Pool): nat { if s.shutdown == No then 2 else 1 }

  lemma StepLocks(s: Pool, a: Action)
    ensures var r := Step(s, a);
            && (r.locked <==> s.locked || (a.Destroy? && a.how != No && !s.freed && s.shutdown != No))
            && (r.shutdown == No <==> s.shutdown == No && (a.Destroy? && a.how != No && !s.freed ==> s.locked))
            && (s.freed ==> r == s)
  {
    hide Locked;
    hide Execute;
    if a.Work? && a.w < |s.workers| {
      WorkFrame(s, a.w);
    }
  }

  lemma WorkFrame(s: Pool, w: nat)
    requires w < |s.workers|
    ensures Locked(s, w).locked == s.locked && Locked(s, w).shutdown == s.shutdown
    ensures s.workers[w].Running? ==> Execute(s, w).locked == s.locked && Execute(s, w).shutdown == s.shutdown
  {
  }

  /** The lock is left held if and only if destroy has been called often enough before the pool was freed. */
  lemma {:induction false} LockedIffCalled(s: Pool, run: seq<Action>)
    requires s.locked ==> s.shutdown != No
    ensures Exec(s, run).locked <==> s.locked || Calls(s, run) >= CallsToLock(s)
    decreases |run|
  {
    hide Step;
    if run != [] {
      StepLocks(s, run[0]);
      LockedIffCalled(Step(s, run[0]), run[1..]);
    }
  }

  /** From the creation of the pool: the lock is stuck if and only if destroy was called at least twice. */
  lemma LockStuckIffTwoDestroys(threads: int, size: int, run: seq<Action>)
    ensures Exec(Create(threads, size), run).locked <==> Calls(Create(threads, size), run) >= 2
  {
    LockedIffCalled(Create(threads, size), run);
  }

  /** A pool with a stuck lock has not been freed. */
  lemma {:induction false} StuckIsNotFreed(s: Pool, run: seq<Action>)
    requires !(s.locked && s.freed)
    ensures !(Exec(s, run).locked && Exec(s, run).freed)
    decreases |run|
  {
    if run != [] {
      if s.freed { assert Step(s, run[0]) == s; }
      OneStepStuck(s, run[0]);
      hide Step;
      StuckIsNotFreed(Step(s, run[0]), run[1..]);
    }
  }

  lemma OneStepStuck(s: Pool, a: Action)
    requires !(s.locked && s.freed)
    ensures !(Step(s, a).locked && Step(s, a).freed)
  {
    hide Locked;
    hide Execute;
    StepLocks(s, a);
    if a.Work? && a.w < |s.workers| { WorkNeverFrees(s, a.w); }
  }

  lemma WorkNeverFrees(s: Pool, w: nat)
    requires w < |s.workers|
    ensures Locked(s, w).freed == s.freed && (s.workers[w].Running? ==> Execute(s, w).freed == s.freed)
  {
  }

  /** After two calls, however the run goes on, nothing is accepted, taken or freed any more. */
  lemma TwoDestroysStopThePool(threads: int, size: int, run: seq<Action>, more: seq<Action>)
    requires Calls(Create(threads, size), run) >= 2
    ensures var s := Exec(Create(threads, size), run); var s' := Exec(s, more);
            s'.locked && !s'.freed && |s'.places| == |s.places| && s'.accepted == s.accepted && s'.ring == s.ring
  {
    LockStuckIffTwoDestroys(threads, size, run);
    StuckIsNotFreed(Create(threads, size), run);
    SecondDestroyHangs(Exec(Create(threads, size), run), more);
  }

  // --------------------------------------------------------------- work gets done

  function Effort(w: Worker): nat {
    match w
    case Running(_, _) => 2
    case Ready => 1
    case Awake => 1
    case _ => 0
  }

  function Efforts(ws: seq<Worker>): nat {
    if ws == [] then 0 else Effort(ws[0]) + Efforts(ws[1..])
  }

  lemma {:induction false} EffortUpdate(ws: seq<Worker>, i: nat, x: Worker)
    requires i < |ws|
    ensures Efforts(ws[i := x]) == Efforts(ws) - Effort(ws[i]) + Effort(x)
  {
    if i == 0 {
      assert ws[i := x][1..] == ws[1..];
    } else {
      assert ws[i := x][1..] == ws[1..][i - 1 := x];
      EffortUpdate(ws[1..], i - 1, x);
    }
  }

  lemma {:induction false} EffortOfOne(ws: seq<Worker>, i: nat)
    requires i < |ws|
    ensures Efforts(ws) >= Effort(ws[i])
  {
    if i > 0 { EffortOfOne(ws[1..], i - 1); }
  }

  predicate OnlyWork(run: seq<Action>) { forall i | 0 <= i < |run| :: run[i].Work? || run[i].JoinAll? }

  predicate Settled(s: Pool) {
    forall i | 0 <= i < |s.workers| :: s.workers[i].Asleep? || s.workers[i].Gone?
  }

  /** Work that is left: every step of a worker lowers it. */
  function Load(s: Pool): nat { 2 * s.ring.count + Efforts(s.workers) }

  lemma WorkLowersLoad(s: Pool, w: nat)
    requires Inv(s) && !s.freed && !s.locked
    requires w < |s.workers| && !s.workers[w].Asleep? && !s.workers[w].Gone?
    ensures var s' := Step(s, Work(w));
            && Load(s') < Load(s) && s'.accepted == s.accepted && s'.shutdown == s.shutdown
            && !s'.freed && !s'.locked && s'.joining == s.joining
  {
    hide Holds;
    hide TasksRight;
    hide Awakened;
    var s' := Step(s, Work(w));
    if s.ring.count > 0 { TakeIsRight(s); }
    EffortUpdate(s.workers, w, s'.workers[w]);
    EffortOfOne(s.workers, w);
    assert s'.workers == s.workers[w := s'.workers[w]];
  }

  /** From any state without a stuck lock, the workers alone come to rest. */
  lemma {:induction false} WorkersSettle(s: Pool) returns (run: seq<Action>)
    requires Inv(s) && !s.freed && !s.locked
    ensures OnlyWork(run)
    ensures var s' := Exec(s, run);
            Inv(s') && Settled(s') && !s'.freed && !s'.locked && s'.joining == s.joining
            && s'.accepted == s.accepted && s'.shutdown == s.shutdown
    decreases Load(s)
  {
    hide Inv;
    hide Load;
    if Settled(s) {
      run := [];
    } else {
      var w :| 0 <= w < |s.workers| && !(s.workers[w].Asleep? || s.workers[w].Gone?);
      WorkLowersLoad(s, w);
      StepKeepsInv(s, Work(w));
      hide Step;
      var more := WorkersSettle(Step(s, Work(w)));
      run := [Work(w)] + more;
      assert run[1..] == more;
    }
  }

  /** Whatever has happened, every accepted task can be run by steps of the workers alone, unless stopped at once. */
  lemma AcceptedWorkRuns(s: Pool) returns (run: seq<Action>)
    requires Inv(s) && !s.freed && !s.locked && s.shutdown != Immediate
    ensures OnlyWork(run)
    ensures var s' := Exec(s, run); s'.accepted == s.accepted && forall k: nat :: k < |s.accepted| ==> HasRun(s', k)
  {
    run := WorkersSettle(s);
    var s' := Exec(s, run);
    assert s'.ring.count == 0;
    assert |s'.places| == |s'.accepted|;
    forall k: nat | k < |s.accepted| ensures HasRun(s', k) {
      assert PlaceRight(s', k);
      var p := s'.places[k].at;
      assert RanRight(s', p);
      assert RanAt(s', k, p);
    }
  }

  lemma {:induction false} ExecConcat(s: Pool, a: seq<Action>, b: seq<Action>)
    ensures Exec(s, a + b) == Exec(Exec(s, a), b)
    decreases |a|
  {
    hide Step;
    if a == [] {
      assert a + b == b;
    } else {
      assert (a + b)[1..] == a[1..] + b;
      ExecConcat(Step(s, a[0]), a[1..], b);
    }
  }

  /** A first destroy can always come to its successful return. */
  lemma DestroyCanReturn(s: Pool) returns (run: seq<Action>)
    requires Inv(s) && s.joining && !s.freed && !s.locked
    ensures OnlyWork(run) && Exec(s, run).freed
  {
    var first := WorkersSettle(s);
    var s' := Exec(s, first);
    SettledIsGone(s');
    hide Inv;
    run := first + [JoinAll];
    ExecConcat(s, first, [JoinAll]);
    assert [JoinAll][1..] == [];
    assert Exec(s', [JoinAll]) == Step(s', JoinAll);
  }

  lemma SettledIsGone(s: Pool)
    requires Inv(s) && Settled(s) && s.joining
    ensures AllGone(s) && s.started == 0
  {
    hide Holds;
    hide TasksRight;
    forall i | 0 <= i < |s.workers| ensures s.workers[i].Gone? { }
    AllGoneLive(s.workers);
  }
}
