/**
 A log call left to itself: while the others stand still anywhere, it comes to its end by
 its own steps.  Its line goes to the queue at once if there is room, and is written
 directly after sixteen refusals if there is none.
 */
module LoggerAlone {
  import opened LogQueue
  import opened LogQueueAlone
  import opened Logger

  function Queues(t: Tid, k: nat): seq<Logger.Action> { seq(k, _ => Queue(t, false)) }

  function Copies(id: nat, k: nat): seq<nat> { seq(k, _ => id) }

  lemma First(s: System, a: Logger.Action, rest: seq<Logger.Action>)
    requires |s.q.c.slots| > 0
    ensures Logger.Exec(s, [a] + rest) == Logger.Exec(Logger.Step(s, a), rest)
  {
    hide Logger.Step;
    assert ([a] + rest)[1..] == rest;
  }

  lemma {:induction false} Both(s: System, a: seq<Logger.Action>, b: seq<Logger.Action>)
    requires |s.q.c.slots| > 0
    ensures |Logger.Exec(s, a).q.c.slots| > 0 && Logger.Exec(s, a + b) == Logger.Exec(Logger.Exec(s, a), b)
    decreases |a|
  {
    hide Logger.Step;
    if a == [] {
      assert a + b == b;
    } else {
      assert (a + b)[1..] == a[1..] + b;
      Both(Logger.Step(s, a[0]), a[1..], b);
    }
  }

  lemma TailGrowsByOne(q: LogQueue.State, t: Tid)
    requires |q.c.slots| > 0
    ensures var r := LogQueue.Step(q, Run(t, false));
            |r.c.slots| > 0 && (r.c.tail == q.c.tail || r.c.tail == q.c.tail + 1)
  {
    hide Index;
    hide Record;
  }

  lemma {:induction false} TailGrows(q: LogQueue.State, t: Tid, k: nat)
    requires |q.c.slots| > 0
    ensures LogQueue.Exec(q, Alone(t, k)).c.tail >= q.c.tail
    decreases k
  {
    OneMore(q, t, if k > 0 then k - 1 else 0);
    if k > 0 {
      TailGrowsByOne(q, t);
      TailGrows(LogQueue.Step(q, Run(t, false)), t, k - 1);
    }
  }

  /** Accesses of the queue by a producer at a log call: the queue moves, and tickets claimed are recorded. */
  lemma {:induction false} QueueSteps(s: System, t: Tid, k: nat)
    requires |s.q.c.slots| > 0 && t in s.jobs && s.jobs[t].Pushing?
    ensures var r := Logger.Exec(s, Queues(t, k)); var q := LogQueue.Exec(s.q, Alone(t, k));
            && q.c.tail >= s.q.c.tail && r.q == q && r.jobs == s.jobs && r.sink == s.sink && r.worker == s.worker
            && r.running == s.running && r.duty == s.duty && r.places == s.places
            && r.queued == s.queued + Copies(s.jobs[t].id, q.c.tail - s.q.c.tail)
            && (q.c.tail == s.q.c.tail ==> r.calls == s.calls)
    decreases k
  {
    OneMore(s.q, t, if k > 0 then k - 1 else 0);
    hide LogQueue.Step;
    if k > 0 {
      assert Queues(t, k) == [Queue(t, false)] + Queues(t, k - 1);
      First(s, Queue(t, false), Queues(t, k - 1));
      TailGrowsByOne(s.q, t);
      var q1 := LogQueue.Step(s.q, Run(t, false));
      TailGrows(q1, t, k - 1);
      var s1 := Logger.Step(s, Queue(t, false));
      OneQueueStep(s, t);
      hide Logger.Step;
      QueueSteps(s1, t, k - 1);
      var id, g := s.jobs[t].id, LogQueue.Exec(q1, Alone(t, k - 1)).c.tail - q1.c.tail;
      MoreCopies(s.queued, id, g);
    } else {
      assert s.queued + Copies(s.jobs[t].id, 0) == s.queued;
    }
  }

  lemma MoreCopies(queued: seq<nat>, id: nat, g: nat)
    ensures queued + [id] + Copies(id, g) == queued + Copies(id, g + 1)
  {
  }

  lemma OneQueueStep(s: System, t: Tid)
    requires |s.q.c.slots| > 0 && t in s.jobs && s.jobs[t].Pushing?
    ensures var r := Logger.Step(s, Queue(t, false)); var q := LogQueue.Step(s.q, Run(t, false));
            && r.q == q && r.jobs == s.jobs && r.sink == s.sink && r.worker == s.worker
            && r.running == s.running && r.duty == s.duty && r.places == s.places
            && r.queued == s.queued + (if q.c.tail > s.q.c.tail then [s.jobs[t].id] else [])
            && (q.c.tail <= s.q.c.tail ==> r.calls == s.calls)
  {
    hide LogQueue.Step;
    assert s.queued + [] == s.queued;
  }

  /** While there is room, a log call queues its line and returns. */
  lemma RoomQueuesAtOnce(s: System, t: Tid, line: string)
    requires Logger.Inv(s) && s.running && t in s.jobs && s.jobs[t].Ready? && Free(s.q)
    ensures |s.q.c.slots| > 0
    ensures var r := Logger.Exec(s, [Log(t, line)] + (Queues(t, 5) + [Return(t)]));
            && t in r.jobs && r.jobs[t] == Job.Ready && r.queued == s.queued + [|s.calls|] && r.sink == s.sink
            && r.q.h.pushed == s.q.h.pushed + [Line(line)]
  {
    hide *;
    ProducerRests(s, t);
    PushAlone(s.q, t, Line(line));
    First(s, Log(t, line), Queues(t, 5) + [Return(t)]);
    FirstCall(s.q, CallPush(t, Line(line)), t, 5);
    var s1 := Logger.Step(s, Log(t, line));
    LogCalls(s, t, line);
    Both(s1, Queues(t, 5), [Return(t)]);
    QueueSteps(s1, t, 5);
    var s2 := Logger.Exec(s1, Queues(t, 5));
    ReturnsAccepted(s2, t);
    OneCopy(|s.calls|);
  }

  lemma OneCopy(id: nat)
    ensures Copies(id, 1) == [id]
  {
  }

  lemma LogCalls(s: System, t: Tid, line: string)
    requires s.running && t in s.jobs && s.jobs[t].Ready? && |s.q.c.slots| > 0
    requires t in s.q.c.threads && AtRest(s.q.c.threads[t])
    ensures var r := Logger.Step(s, Log(t, line));
            && r.q == LogQueue.Step(s.q, CallPush(t, Line(line))) && r.q.c.tail == s.q.c.tail
            && t in r.jobs && r.jobs[t] == Pushing(|s.calls|, 0) && r.queued == s.queued && r.sink == s.sink
  {
  }

  lemma ReturnsAccepted(s: System, t: Tid)
    requires |s.q.c.slots| > 0 && t in s.jobs && s.jobs[t].Pushing?
    requires t in s.q.c.threads && s.q.c.threads[t] == PushReturn(true)
    ensures var r := Logger.Exec(s, [Return(t)]);
            t in r.jobs && r.jobs[t] == Job.Ready && r.queued == s.queued && r.sink == s.sink && r.q == s.q
  {
    First(s, Return(t), []);
    assert [Return(t)] + [] == [Return(t)];
  }

  lemma ProducerRests(s: System, t: Tid)
    requires Logger.Inv(s) && t in s.jobs && s.jobs[t].Ready?
    ensures LogQueue.Inv(s.q) && t in s.q.c.threads && AtRest(s.q.c.threads[t]) && |s.q.c.slots| > 0
  {
    WorkerIsThere(s);
    hide SoloInv;
    hide LogQueue.Inv;
    hide DutyOk;
    hide TicketsOk;
    hide SinkOk;
    assert t in s.q.c.threads.Keys;
    assert JobOk(s, t, s.jobs[t]);
  }

  // ------------------------------------------------------------ a queue that is full

  /** The system b with thread t at pc and its log call at job; m are the other threads. */
  function AtJob(b: System, m: map<Tid, Pc>, t: Tid, pc: Pc, job: Job): System {
    b.(q := With(b.q, m, t, pc), jobs := b.jobs[t := job])
  }

  /** One attempt: two accesses, and the return from push. */
  function Attempt(t: Tid): seq<Logger.Action> { Queues(t, 2) + [Return(t)] }

  function Attempts(t: Tid, n: nat): seq<Logger.Action> {
    if n == 0 then [] else Attempt(t) + Attempts(t, n - 1)
  }

  ghost predicate Refuses(b: System) {
    |b.q.c.slots| > 0 && SlotAt(b.q.c, b.q.c.tail).sequence < b.q.c.tail
  }

  /** An attempt that fails: another follows, up to the sixteenth. */
  lemma AttemptFails(b: System, m: map<Tid, Pc>, t: Tid, id: nat, line: string, k: nat)
    requires Refuses(b) && id < |b.calls| && b.calls[id].line == line && k < 16
    ensures Logger.Exec(AtJob(b, m, t, PushLoadTail(Line(line)), Pushing(id, k)), Attempt(t)) ==
            if k < 15 then AtJob(b, m, t, PushLoadTail(Line(line)), Pushing(id, k + 1))
            else AtJob(b, m, t, PushReturn(false), Direct(id))
  {
    hide Index;
    hide LogQueue.Step;
    hide LogQueue.Exec;
    var e := Line(line);
    var s0, s1 := AtJob(b, m, t, PushLoadTail(e), Pushing(id, k)), AtJob(b, m, t, PushReturn(false), Pushing(id, k));
    GivesUp(b.q, m, t, e);
    Both(s0, Queues(t, 2), [Return(t)]);
    QueueSteps(s0, t, 2);
    assert Copies(id, 0) == [] && s0.queued + [] == s0.queued;
    assert Logger.Exec(s0, Queues(t, 2)) == s1;
    First(s1, Return(t), []);
    assert [Return(t)] + [] == [Return(t)];
    hide Logger.Exec;
    ReturnsRefused(b, m, t, id, line, k);
  }

  lemma ReturnsRefused(b: System, m: map<Tid, Pc>, t: Tid, id: nat, line: string, k: nat)
    requires |b.q.c.slots| > 0 && id < |b.calls| && b.calls[id].line == line && k < 16
    ensures Logger.Step(AtJob(b, m, t, PushReturn(false), Pushing(id, k)), Return(t)) ==
            if k < 15 then AtJob(b, m, t, PushLoadTail(Line(line)), Pushing(id, k + 1))
            else AtJob(b, m, t, PushReturn(false), Direct(id))
  {
    hide Index;
    GoIsWith(b.q, m, t, PushReturn(false), PushLoadTail(Line(line)));
    SetJobTwice(b.jobs, t, Pushing(id, k), Pushing(id, k + 1));
    SetJobTwice(b.jobs, t, Pushing(id, k), Direct(id));
  }

  lemma SetJobTwice(m: map<Tid, Job>, t: Tid, a: Job, b: Job)
    ensures m[t := a][t := b] == m[t := b]
  {
  }

  lemma {:induction false} AttemptsFail(b: System, m: map<Tid, Pc>, t: Tid, id: nat, line: string, k: nat, n: nat)
    requires Refuses(b) && id < |b.calls| && b.calls[id].line == line && k + n <= 16
    ensures Logger.Exec(AtJob(b, m, t, PushLoadTail(Line(line)), Pushing(id, k)), Attempts(t, n)) ==
            if k + n < 16 || n == 0 then AtJob(b, m, t, PushLoadTail(Line(line)), Pushing(id, k + n))
            else AtJob(b, m, t, PushReturn(false), Direct(id))
    decreases n
  {
    hide Attempt;
    hide Logger.Step;
    if n > 0 {
      var s0 := AtJob(b, m, t, PushLoadTail(Line(line)), Pushing(id, k));
      AttemptFails(b, m, t, id, line, k);
      Both(s0, Attempt(t), Attempts(t, n - 1));
      if k < 15 { AttemptsFail(b, m, t, id, line, k + 1, n - 1); }
    }
  }

  /**
   While the queue is full and nobody makes room, a log call tries sixteen times, no more
   and no less, and then writes its line to the sink itself.
   */
  lemma FullQueueWritesDirectly(s: System, t: Tid, line: string)
    requires Logger.Inv(s) && s.running && t in s.jobs && s.jobs[t].Ready? && !Free(s.q)
    ensures |s.q.c.slots| > 0
    ensures var tried := Logger.Exec(s, [Log(t, line)] + Attempts(t, 15));
            t in tried.jobs && tried.jobs[t] == Pushing(|s.calls|, 15) && tried.sink == s.sink
    ensures var r := Logger.Exec(s, [Log(t, line)] + (Attempts(t, 16) + [WriteDirect(t)]));
            && t in r.jobs && r.jobs[t] == Job.Ready && r.sink == s.sink + [Entry(|s.calls|, line)]
            && r.queued == s.queued && r.q.h == s.q.h
  {
    ProducerRests(s, t);
    SequenceAtTail(s.q);
    hide Logger.Inv;
    hide LogQueue.Inv;
    hide Free;
    hide Index;
    var id, m, e := |s.calls|, s.q.c.threads, Line(line);
    var b := s.(calls := s.calls + [Call(t, line, Held)]);
    assert Refuses(b);
    assert Logger.Step(s, Log(t, line)) == AtJob(b, m, t, PushLoadTail(e), Pushing(id, 0));
    hide Logger.Step;
    First(s, Log(t, line), Attempts(t, 15));
    First(s, Log(t, line), Attempts(t, 16) + [WriteDirect(t)]);
    AttemptsFail(b, m, t, id, line, 0, 15);
    AttemptsFail(b, m, t, id, line, 0, 16);
    Both(AtJob(b, m, t, PushLoadTail(e), Pushing(id, 0)), Attempts(t, 16), [WriteDirect(t)]);
    hide Attempts;
    First(AtJob(b, m, t, PushReturn(false), Direct(id)), WriteDirect(t), []);
    assert [WriteDirect(t)] + [] == [WriteDirect(t)];
    hide Logger.Exec;
    Written(b, m, t, id);
  }

  lemma Written(b: System, m: map<Tid, Pc>, t: Tid, id: nat)
    requires id < |b.calls| && |b.q.c.slots| > 0
    ensures var s := AtJob(b, m, t, PushReturn(false), Direct(id)); var r := Logger.Step(s, WriteDirect(t));
            && t in r.jobs && r.jobs[t] == Job.Ready && r.sink == b.sink + [Entry(id, b.calls[id].line)]
            && r.queued == b.queued && r.q.h == b.q.h
            && Logger.Exec(r, []) == r
  {
  }

  // ------------------------------------------------------------- it always ends

  predicate InPush(pc: Pc) {
    pc.PushLoadTail? || pc.PushLoadSequence? || pc.PushClaim? || pc.PushStore? || pc.PushPublish?
  }

  /** How many accesses a push still needs at most, if nobody else moves. */
  function PushDistance(pc: Pc, tail: nat): nat {
    match pc
    case PushLoadSequence(_, pos) => if pos == tail then 4 else 7
    case PushClaim(_, pos) => if pos == tail then 3 else 6
    case PushLoadTail(_) => 5
    case PushStore(_, _) => 2
    case PushPublish(_) => 1
    case _ => 0
  }

  lemma PushAdvances(q: LogQueue.State, t: Tid)
    requires LogQueue.Inv(q) && t in q.c.threads && InPush(q.c.threads[t])
    ensures var r := LogQueue.Step(q, Run(t, false));
            && t in r.c.threads && (InPush(r.c.threads[t]) || r.c.threads[t].PushReturn?)
            && PushDistance(r.c.threads[t], r.c.tail) < PushDistance(q.c.threads[t], q.c.tail)
  {
    SequenceAtTail(q);
    assert LogQueue.ThreadOk(q, t, q.c.threads[t]);
    hide Index;
    hide LogQueue.Inv;
  }

  function TriesLeft(job: Job): nat {
    match job
    case Pushing(_, k) => if k < 16 then 17 - k else 1
    case _ => 0
  }

  /** Steps of the producer t. */
  predicate OfProducer(t: Tid, run: seq<Logger.Action>) {
    forall i | 0 <= i < |run| :: run[i] in {Queue(t, false), Return(t), WriteDirect(t)}
  }

  lemma ProducerAt(s: System, t: Tid)
    requires Logger.Inv(s) && t in s.jobs && s.jobs[t].Pushing?
    ensures LogQueue.Inv(s.q) && t in s.q.c.threads && |s.q.c.slots| > 0 && s.jobs[t].attempts < 16
    ensures InPush(s.q.c.threads[t]) || s.q.c.threads[t].PushReturn?
  {
    WorkerIsThere(s);
    hide SoloInv;
    hide LogQueue.Inv;
    hide DutyOk;
    hide TicketsOk;
    hide SinkOk;
    assert t in s.q.c.threads.Keys;
    assert JobOk(s, t, s.jobs[t]);
  }

  lemma AccessMoves(s: System, t: Tid)
    requires |s.q.c.slots| > 0 && t in s.jobs && s.jobs[t].Pushing?
    ensures var r := Logger.Step(s, Queue(t, false));
            r.q == LogQueue.Step(s.q, Run(t, false)) && r.jobs == s.jobs
  {
    hide LogQueue.Step;
  }

  lemma ReturnMoves(s: System, t: Tid)
    requires |s.q.c.slots| > 0 && t in s.jobs && s.jobs[t].Pushing? && s.jobs[t].attempts < 16
    requires t in s.q.c.threads && s.q.c.threads[t].PushReturn?
    ensures var r := Logger.Step(s, Return(t));
            t in r.jobs && (r.jobs[t].Pushing? || r.jobs[t].Direct? || r.jobs[t].Ready?)
            && TriesLeft(r.jobs[t]) < TriesLeft(s.jobs[t])
  {
    hide LogQueue.Step;
  }

  /** A log call never waits: from every reachable state its own steps end it, and its line is placed. */
  lemma {:induction false} LogReturns(s: System, t: Tid) returns (run: seq<Logger.Action>)
    requires Logger.Inv(s) && t in s.jobs
    ensures OfProducer(t, run) && |s.q.c.slots| > 0
    ensures var r := Logger.Exec(s, run); Logger.Inv(r) && t in r.jobs && r.jobs[t].Ready? && NoneHeld(r, t)
    decreases if s.jobs[t].Direct? then 1 else if s.jobs[t].Pushing? then 2 else 0, TriesLeft(s.jobs[t]),
              if t in s.q.c.threads then PushDistance(s.q.c.threads[t], s.q.c.tail) else 0
  {
    hide *;
    SlotsThere(s);
    if s.jobs[t].Ready? {
      run := [];
      Nothing(s);
      ReadyHoldsNone(s, t);
    } else {
      var a;
      if s.jobs[t].Direct? {
        a := WriteDirect(t);
        DirectMoves(s, t);
      } else {
        ProducerAt(s, t);
        if s.q.c.threads[t].PushReturn? {
          a := Return(t);
          ReturnMoves(s, t);
        } else {
          a := Queue(t, false);
          AccessMoves(s, t);
          PushAdvances(s.q, t);
        }
      }
      Logger.StepInv(s, a);
      var more := LogReturns(Logger.Step(s, a), t);
      run := [a] + more;
      First(s, a, more);
      OneMoreOf(t, a, more);
    }
  }

  /** Every line that t has logged is in the queue or in the sink, or has been. */
  predicate NoneHeld(s: System, t: Tid) {
    forall id: nat | id < |s.calls| && s.calls[id].producer == t :: s.calls[id].fate != Held
  }

  lemma ReadyHoldsNone(s: System, t: Tid)
    requires Logger.Inv(s) && t in s.jobs && s.jobs[t].Ready?
    ensures NoneHeld(s, t)
  {
    hide SoloInv;
    hide DutyOk;
    hide TicketsOk;
    hide SinkOk;
    forall id: nat | id < |s.calls| && s.calls[id].producer == t ensures s.calls[id].fate != Held {
      assert CallOk(s, id);
    }
  }

  lemma OneMoreOf(t: Tid, a: Logger.Action, more: seq<Logger.Action>)
    requires OfProducer(t, more) && a in {Queue(t, false), Return(t), WriteDirect(t)}
    ensures OfProducer(t, [a] + more)
  {
  }

  lemma Nothing(s: System)
    requires |s.q.c.slots| > 0
    ensures Logger.Exec(s, []) == s
    ensures forall t :: OfProducer(t, [])
  {
  }

  lemma SlotsThere(s: System)
    requires Logger.Inv(s)
    ensures |s.q.c.slots| > 0
  {
    hide LogInv;
  }

  lemma DirectMoves(s: System, t: Tid)
    requires |s.q.c.slots| > 0 && t in s.jobs && s.jobs[t].Direct?
    ensures var r := Logger.Step(s, WriteDirect(t)); t in r.jobs && r.jobs[t] == Job.Ready
  {
  }
}
