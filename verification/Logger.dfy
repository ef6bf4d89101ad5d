/**
 The logger built on the queue: producers that try to push a line sixteen times and then
 write it to the sink themselves, one worker that pops lines and writes them, and stop,
 which lets the worker drain the queue once more.

 The environment keeps to the documented use: every log call happens between start and
 stop, so Log is possible only while running and Stop only when no log call is under way.
 */
module Logger {
  import opened LogQueue

  const ATTEMPTS := 16

  /** A producer inside log: in queue_.push for the attempt-th time, or about to write directly. */
  datatype Job = Ready | Pushing(id: nat, attempts: nat) | Direct(id: nat)

  /** The worker: testing running_, inside queue_.pop, writing a line it popped, or returned. */
  datatype Duty = Testing | Popping(last: bool) | Saving(text: string, last: bool) | Finished

  /** What has become of a logged line. */
  datatype Fate = Held | Queued(ticket: nat) | Written(place: nat)

  datatype Call = Call(producer: Tid, line: string, fate: Fate)

  /** A line in the sink, with the number of the log call it comes from. */
  datatype Entry = Entry(id: nat, text: string)

  /**
   calls lists the log calls in the order they began, queued the calls whose lines were
   pushed, by ticket, and places where in the sink the worker put each ticket's line.
   These three are history: no step consults them.
   */
  datatype System = System(q: LogQueue.State, worker: Tid, running: bool, jobs: map<Tid, Job>, duty: Duty,
                         sink: seq<Entry>, calls: seq<Call>, queued: seq<nat>, places: seq<nat>)

  datatype Action =
    | Log(t: Tid, line: string)
    | Queue(t: Tid, spurious: bool)
    | Return(t: Tid)
    | WriteDirect(t: Tid)
    | Test
    | Popped
    | Save
    | Stop

  function Init(n: nat, producers: set<Tid>, worker: Tid): System {
    System(LogQueue.Init(n, producers + {worker}), worker, true,
           map t | t in producers :: Ready, Testing, [], [], [], [])
  }

  function SetFate(calls: seq<Call>, id: nat, fate: Fate): seq<Call> {
    if id < |calls| then calls[id := calls[id].(fate := fate)] else calls
  }

  function LineOf(calls: seq<Call>, id: nat): string {
    if id < |calls| then calls[id].line else ""
  }

  function Step(s: System, a: Action): (s': System)
    requires |s.q.c.slots| > 0
    ensures |s'.q.c.slots| == |s.q.c.slots| && s'.worker == s.worker
  {
    match a
    case Log(t, line) =>
      if s.running && t in s.jobs && s.jobs[t].Ready? then
        s.(q := LogQueue.Step(s.q, CallPush(t, Line(line))), jobs := s.jobs[t := Pushing(|s.calls|, 0)],
           calls := s.calls + [Call(t, line, Held)])
      else s
    case Queue(t, spurious) =>
      var q := LogQueue.Step(s.q, Run(t, spurious));
      if q.c.tail > s.q.c.tail && t in s.jobs && s.jobs[t].Pushing? then
        s.(q := q, queued := s.queued + [s.jobs[t].id], calls := SetFate(s.calls, s.jobs[t].id, Queued(s.q.c.tail)))
      else s.(q := q)
    case Return(t) =>
      if t in s.jobs && s.jobs[t].Pushing? && t in s.q.c.threads && s.q.c.threads[t].PushReturn? then
        var id, k := s.jobs[t].id, s.jobs[t].attempts + 1;
        if s.q.c.threads[t].ok then s.(jobs := s.jobs[t := Ready])
        else if k < ATTEMPTS then
          s.(q := LogQueue.Step(s.q, CallPush(t, Line(LineOf(s.calls, id)))), jobs := s.jobs[t := Pushing(id, k)])
        else s.(jobs := s.jobs[t := Direct(id)])
      else s
    case WriteDirect(t) =>
      if t in s.jobs && s.jobs[t].Direct? then
        var id := s.jobs[t].id;
        s.(sink := s.sink + [Entry(id, LineOf(s.calls, id))], calls := SetFate(s.calls, id, Written(|s.sink|)),
           jobs := s.jobs[t := Ready])
      else s
    case Test =>
      if s.duty.Testing? then s.(q := LogQueue.Step(s.q, CallPop(s.worker)), duty := Popping(!s.running)) else s
    case Popped =>
      if s.duty.Popping? && s.worker in s.q.c.threads && s.q.c.threads[s.worker].PopReturn? then
        match s.q.c.threads[s.worker]
        case PopReturn(true, Line(text)) => s.(duty := Saving(text, s.duty.last))
        case _ => s.(duty := if s.duty.last then Finished else Testing)
      else s
    case Save =>
      if s.duty.Saving? then
        var id := if |s.places| < |s.queued| then s.queued[|s.places|] else 0;
        s.(q := LogQueue.Step(s.q, CallPop(s.worker)), duty := Popping(s.duty.last),
           sink := s.sink + [Entry(id, s.duty.text)], places := s.places + [|s.sink|])
      else s
    case Stop =>
      if forall t | t in s.jobs :: s.jobs[t].Ready? then s.(running := false) else s
  }

  function Exec(s: System, run: seq<Action>): System
    requires |s.q.c.slots| > 0
    decreases |run|
  {
    if run == [] then s else Exec(Step(s, run[0]), run[1..])
  }

  // ------------------------------------------------------------ the invariant

  predicate Unclaimed(pc: Pc, e: Ptr) {
    pc == PushLoadTail(e) || (pc.PushLoadSequence? && pc.entry == e) || (pc.PushClaim? && pc.entry == e)
    || pc == PushReturn(false)
  }

  predicate Claimed(pc: Pc) { pc.PushStore? || pc.PushPublish? || pc == PushReturn(true) }

  /** A producer's place in push agrees with what happened to the line it is logging. */
  ghost predicate JobOk(s: System, t: Tid, job: Job)
    requires t in s.q.c.threads
  {
    var pc := s.q.c.threads[t];
    match job
    case Ready => AtRest(pc)
    case Direct(id) => AtRest(pc) && id < |s.calls| && s.calls[id].producer == t && s.calls[id].fate == Held
    case Pushing(id, k) =>
      && id < |s.calls| && s.calls[id].producer == t && k < ATTEMPTS
      && if s.calls[id].fate == Held then Unclaimed(pc, Line(s.calls[id].line))
         else s.calls[id].fate.Queued? && Claimed(pc)
  }

  /** The worker has written the first |places| tickets and holds at most one more. */
  ghost predicate DutyOk(s: System)
    requires s.worker in s.q.c.threads && |s.q.h.pushed| == s.q.c.tail >= s.q.c.head
  {
    var pc, w, c := s.q.c.threads[s.worker], |s.places|, s.q.c;
    match s.duty
    case Testing => AtRest(pc) && c.head == w
    case Popping(last) =>
      && (last ==> !s.running)
      && (pc.PopLoadHead? || pc.PopLoadSequence? || pc.PopClaim? || pc.PopTake? || pc.PopRecycle? || pc.PopReturn?)
      && (pc.PopTake? || pc.PopRecycle? || (pc.PopReturn? && pc.ok) ==> c.head == w + 1)
      && (pc.PopLoadHead? || pc.PopLoadSequence? || pc.PopClaim? || (pc.PopReturn? && !pc.ok) ==> c.head == w)
      && (pc.PopReturn? && pc.ok ==> pc.entry == s.q.h.pushed[w])
      && (last && pc.PopReturn? && !pc.ok ==> c.tail == w)
    case Saving(text, last) => AtRest(pc) && c.head == w + 1 && s.q.h.pushed[w] == Line(text) && (last ==> !s.running)
    case Finished => AtRest(pc) && c.head == c.tail == w && !s.running
  }

  ghost predicate CallOk(s: System, id: nat)
    requires id < |s.calls|
  {
    var call := s.calls[id];
    && call.producer in s.jobs
    && match call.fate
       case Held => !s.jobs[call.producer].Ready? && s.jobs[call.producer].id == id
       case Queued(p) => p < |s.queued| && s.queued[p] == id
       case Written(i) => i < |s.sink| && s.sink[i].id == id
  }

  ghost predicate TicketsOk(s: System)
    requires |s.q.h.pushed| == |s.q.h.pushers| == s.q.c.tail
  {
    && |s.queued| == s.q.c.tail
    && (forall p: nat | p < |s.queued| ::
          && s.queued[p] < |s.calls|
          && s.calls[s.queued[p]] == Call(s.q.h.pushers[p], s.calls[s.queued[p]].line, Queued(p))
          && s.q.h.pushed[p] == Line(s.calls[s.queued[p]].line))
    && (forall p: nat, r: nat | p < r < |s.queued| && s.q.h.pushers[p] == s.q.h.pushers[r] :: s.queued[p] < s.queued[r])
  }

  ghost predicate SinkOk(s: System) {
    && |s.places| <= |s.queued|
    && (forall i | 0 <= i < |s.sink| ::
          && s.sink[i].id < |s.calls| && s.sink[i].text == s.calls[s.sink[i].id].line
          && match s.calls[s.sink[i].id].fate
             case Held => false
             case Queued(p) => p < |s.places| && s.places[p] == i
             case Written(j) => j == i)
    && (forall p: nat | p < |s.places| :: s.places[p] < |s.sink| && s.sink[s.places[p]].id == s.queued[p])
    && (forall p: nat, r: nat | p < r < |s.places| :: s.places[p] < s.places[r])
  }

  /** The logger's own invariant; of the queue it only mentions program counters, tickets and entries. */
  ghost predicate LogInv(s: System) {
    && |s.q.h.pushed| == |s.q.h.pushers| == s.q.c.tail >= s.q.c.head
    && s.worker !in s.jobs && s.q.c.threads.Keys == s.jobs.Keys + {s.worker}
    && (forall t | t in s.jobs :: JobOk(s, t, s.jobs[t]))
    && (forall t, id: nat | t in s.jobs && !s.jobs[t].Ready? && id < |s.calls| && s.calls[id].producer == t ::
          id <= s.jobs[t].id)
    && (!s.running ==> forall t | t in s.jobs :: s.jobs[t].Ready?)
    && DutyOk(s)
    && TicketsOk(s)
    && (forall id: nat | id < |s.calls| :: CallOk(s, id))
    && SinkOk(s)
  }

  ghost predicate Inv(s: System) {
    SoloInv(s.q, s.worker) && LogInv(s)
  }

  lemma InitInv(n: nat, producers: set<Tid>, worker: Tid)
    requires n >= 2 && worker !in producers
    ensures Inv(Init(n, producers, worker))
  {
    LogQueue.InitInv(n, producers + {worker});
  }

  /** What one access by thread t can do to the queue, as far as the logger can see. */
  ghost predicate Moves(q: LogQueue.State, t: Tid, q': LogQueue.State) {
    t in q.c.threads && t in q'.c.threads &&
    var pc, pc' := q.c.threads[t], q'.c.threads[t];
    && q'.c.threads == q.c.threads[t := pc']
    && (|| (q'.c.tail == q.c.tail && q'.h.pushed == q.h.pushed && q'.h.pushers == q.h.pushers)
        || (pc.PushClaim? && pc' == PushStore(pc.entry, q.c.tail) && q'.c.tail == q.c.tail + 1
            && q'.h.pushed == q.h.pushed + [pc.entry] && q'.h.pushers == q.h.pushers + [t]))
    && (q'.c.head == q.c.head || (pc.PopClaim? && pc' == PopTake(q.c.head) && q'.c.head == q.c.head + 1))
    && (AtRest(pc) ==> pc' == pc)
    && (q'.c.tail == q.c.tail ==> forall e | Unclaimed(pc, e) :: Unclaimed(pc', e))
    && (Claimed(pc) ==> Claimed(pc'))
    && (pc.PopLoadHead? || pc.PopLoadSequence? || pc.PopClaim? ==>
          pc'.PopLoadHead? || pc'.PopLoadSequence? || pc'.PopClaim? || q'.c.head > q.c.head
          || (pc' == PopReturn(false, Null) && q'.c.head == q.c.head
              && pc.PopLoadSequence? && |q.c.slots| > 0 && SlotAt(q.c, pc.pos).sequence < pc.pos + 1))
    && (pc.PopTake? ==> pc'.PopRecycle? && q'.c.head == q.c.head)
    && (pc.PopRecycle? ==> pc' == PopReturn(pc.entry != Null, pc.entry) && q'.c.head == q.c.head)
  }

  lemma QueueMoves(q: LogQueue.State, t: Tid, spurious: bool)
    requires LogQueue.Inv(q) && t in q.c.threads
    ensures Moves(q, t, LogQueue.Step(q, Run(t, spurious)))
  {
    hide Moves;
    AccessMoves(q, t, spurious);
  }

  lemma AccessMoves(q: LogQueue.State, t: Tid, spurious: bool)
    requires |q.c.slots| > 0 && |q.h.status| == q.c.tail && t in q.c.threads
    ensures Moves(q, t, LogQueue.Step(q, Run(t, spurious)))
  {
    hide Index;
  }

  /** The records and the sink only depend on the tickets claimed so far. */
  lemma RecordsKept(s: System, s': System)
    requires |s.q.h.pushed| == |s.q.h.pushers| == s.q.c.tail
    requires TicketsOk(s) && SinkOk(s) && (forall id: nat | id < |s.calls| :: CallOk(s, id))
    requires s'.q.c.tail == s.q.c.tail && s'.q.h.pushed == s.q.h.pushed && s'.q.h.pushers == s.q.h.pushers
    requires s'.calls == s.calls && s'.queued == s.queued && s'.sink == s.sink && s'.places == s.places
    requires s'.jobs.Keys == s.jobs.Keys
    requires forall t | t in s.jobs && s'.jobs[t] != s.jobs[t] ::
               && s.jobs[t].Pushing? && s.jobs[t].id < |s.calls|
               && (s.calls[s.jobs[t].id].fate.Held? ==> !s'.jobs[t].Ready? && s'.jobs[t].id == s.jobs[t].id)
    ensures TicketsOk(s') && SinkOk(s') && forall id: nat | id < |s'.calls| :: CallOk(s', id)
  {
    forall id: nat | id < |s'.calls| ensures CallOk(s', id) { assert CallOk(s, id); }
  }

  /** A producer calls log. */
  lemma LogKeeps(s: System, t: Tid, line: string, s': System)
    requires LogInv(s) && s.running && t in s.jobs && s.jobs[t].Ready?
    requires s' == s.(q := s.q.(c := s.q.c.Go(t, PushLoadTail(Line(line)))), jobs := s.jobs[t := Pushing(|s.calls|, 0)],
                      calls := s.calls + [Call(t, line, Held)])
    ensures LogInv(s')
  {
    forall u | u in s'.jobs ensures JobOk(s', u, s'.jobs[u]) { assert JobOk(s, u, s.jobs[u]); }
    forall id: nat | id < |s'.calls| ensures CallOk(s', id) { assert id < |s.calls| ==> CallOk(s, id); }
  }

  /** push has returned: on failure try again, or go on to write directly after the last attempt. */
  lemma ReturnKeeps(s: System, t: Tid, s': System)
    requires LogInv(s) && t in s.jobs && s.jobs[t].Pushing? && s.q.c.threads[t].PushReturn?
    requires var job, pc := s.jobs[t], s.q.c.threads[t];
             || (pc.ok && s' == s.(jobs := s.jobs[t := Ready]))
             || (!pc.ok && s' == s.(jobs := s.jobs[t := Direct(job.id)]))
             || (!pc.ok && job.attempts + 1 < ATTEMPTS
                 && s' == s.(q := s.q.(c := s.q.c.Go(t, PushLoadTail(Line(LineOf(s.calls, job.id))))),
                             jobs := s.jobs[t := Pushing(job.id, job.attempts + 1)]))
    ensures LogInv(s')
  {
    assert JobOk(s, t, s.jobs[t]);
    RecordsKept(s, s');
    forall u | u in s'.jobs ensures JobOk(s', u, s'.jobs[u]) { assert JobOk(s, u, s.jobs[u]); }
  }

  lemma WriteDirectKeeps(s: System, t: Tid, s': System)
    requires LogInv(s) && t in s.jobs && s.jobs[t].Direct?
    requires var id := s.jobs[t].id;
             s' == s.(sink := s.sink + [Entry(id, LineOf(s.calls, id))],
                     calls := SetFate(s.calls, id, Written(|s.sink|)),
                      jobs := s.jobs[t := Ready])
    ensures LogInv(s')
  {
    hide SinkOk;
    hide TicketsOk;
    WrittenSink(s, t, s');
    assert JobOk(s, t, s.jobs[t]) && CallOk(s, s.jobs[t].id);
    forall u | u in s'.jobs ensures JobOk(s', u, s'.jobs[u]) { assert JobOk(s, u, s.jobs[u]); }
    forall id: nat | id < |s'.calls| ensures CallOk(s', id) { assert CallOk(s, id); }
  }

  lemma WrittenSink(s: System, t: Tid, s': System)
    requires LogInv(s) && t in s.jobs && s.jobs[t].Direct?
    requires var id := s.jobs[t].id;
             s' == s.(sink := s.sink + [Entry(id, LineOf(s.calls, id))],
                      calls := SetFate(s.calls, id, Written(|s.sink|)),
                      jobs := s.jobs[t := Ready])
    ensures SinkOk(s') && TicketsOk(s')
  {
    hide DutyOk;
    hide CallOk;
    assert JobOk(s, t, s.jobs[t]);
  }

  /** The worker starts a pop, having written what it held before. */
  lemma TestKeeps(s: System, s': System)
    requires LogInv(s) && s.duty.Testing?
    requires s' == s.(q := s.q.(c := s.q.c.Go(s.worker, PopLoadHead)), duty := Popping(!s.running))
    ensures LogInv(s')
  {
    RecordsKept(s, s');
    forall u | u in s'.jobs ensures JobOk(s', u, s'.jobs[u]) { assert JobOk(s, u, s.jobs[u]); }
  }

  lemma SaveKeeps(s: System, s': System)
    requires LogInv(s) && s.duty.Saving?
    requires |s.places| < |s.queued|
    requires s' == s.(q := s.q.(c := s.q.c.Go(s.worker, PopLoadHead)), duty := Popping(s.duty.last),
                      sink := s.sink + [Entry(s.queued[|s.places|], s.duty.text)], places := s.places + [|s.sink|])
    ensures LogInv(s')
  {
    forall u | u in s'.jobs ensures JobOk(s', u, s'.jobs[u]) { assert JobOk(s, u, s.jobs[u]); }
    forall id: nat | id < |s'.calls| ensures CallOk(s', id) { assert CallOk(s, id); }
  }

  lemma PoppedKeeps(s: System)
    requires LogInv(s) && |s.q.c.slots| > 0 && s.duty.Popping?
    ensures LogInv(Step(s, Popped))
  {
    var s' := Step(s, Popped);
    assert s' == s.(duty := s'.duty);
    RecordsKept(s, s');
    forall u | u in s'.jobs ensures JobOk(s', u, s'.jobs[u]) { assert JobOk(s, u, s.jobs[u]); }
    assert forall p: nat | p < s.q.c.tail :: s.q.h.pushed[p].Line?;
  }

  lemma StopKeeps(s: System)
    requires LogInv(s) && forall t | t in s.jobs :: s.jobs[t].Ready?
    ensures LogInv(s.(running := false))
  {
    var s' := s.(running := false);
    RecordsKept(s, s');
    forall u | u in s'.jobs ensures JobOk(s', u, s'.jobs[u]) { assert JobOk(s, u, s.jobs[u]); }
  }

  /** A producer's access that claims no ticket. */
  lemma ProducerMoves(s: System, t: Tid, s': System)
    requires LogInv(s) && t in s.jobs && s' == s.(q := s'.q) && Moves(s.q, t, s'.q)
    requires s'.q.c.tail == s.q.c.tail && s'.q.c.head == s.q.c.head
    ensures LogInv(s')
  {
    RecordsKept(s, s');
    forall u | u in s'.jobs ensures JobOk(s', u, s'.jobs[u]) { assert JobOk(s, u, s.jobs[u]); }
  }

  lemma ClaimedTickets(s: System, t: Tid, s': System)
    requires LogInv(s) && t in s.jobs && s.jobs[t].Pushing? && Moves(s.q, t, s'.q) && s'.q.c.head == s.q.c.head
    requires s.q.c.threads[t].PushClaim? && s'.q.c.tail == s.q.c.tail + 1
    requires s' == s.(q := s'.q, queued := s.queued + [s.jobs[t].id],
                      calls := SetFate(s.calls, s.jobs[t].id, Queued(s.q.c.tail)))
    ensures |s'.q.h.pushed| == |s'.q.h.pushers| == s'.q.c.tail && TicketsOk(s')
  {
    assert JobOk(s, t, s.jobs[t]);
  }

  lemma ClaimedSink(s: System, t: Tid, s': System)
    requires LogInv(s) && t in s.jobs && s.jobs[t].Pushing? && s.jobs[t].id < |s.calls| && CallOk(s, s.jobs[t].id)
    requires JobOk(s, t, s.jobs[t]) && s.q.c.threads[t].PushClaim?
    requires s' == s.(q := s'.q, queued := s.queued + [s.jobs[t].id],
                      calls := SetFate(s.calls, s.jobs[t].id, Queued(s.q.c.tail)))
    ensures SinkOk(s')
  {
    hide DutyOk;
  }

  /** A producer's access that claims a ticket: its line is in the queue from now on. */
  lemma ProducerClaims(s: System, t: Tid, s': System)
    requires LogInv(s) && t in s.jobs && s.jobs[t].Pushing? && Moves(s.q, t, s'.q) && s'.q.c.head == s.q.c.head
    requires s.q.c.threads[t].PushClaim? && s'.q.c.tail == s.q.c.tail + 1
    requires s' == s.(q := s'.q, queued := s.queued + [s.jobs[t].id],
                      calls := SetFate(s.calls, s.jobs[t].id, Queued(s.q.c.tail)))
    ensures LogInv(s')
  {
    hide TicketsOk;
    hide SinkOk;
    assert JobOk(s, t, s.jobs[t]);
    ClaimedTickets(s, t, s');
    ClaimedSink(s, t, s');
    forall u | u in s'.jobs ensures JobOk(s', u, s'.jobs[u]) { assert JobOk(s, u, s.jobs[u]); }
    forall id: nat | id < |s'.calls| ensures CallOk(s', id) { assert CallOk(s, id); }
  }

  lemma PushedAreLines(s: System)
    requires |s.q.h.pushed| == |s.q.h.pushers| == s.q.c.tail && TicketsOk(s)
    ensures forall p: nat | p < s.q.c.tail :: s.q.h.pushed[p].Line?
  {
  }

  /** The worker's access inside pop. */
  lemma WorkerMoves(s: System, s': System)
    requires LogInv(s) && s' == s.(q := s'.q) && Moves(s.q, s.worker, s'.q) && s'.q.c.head <= s'.q.c.tail
    requires s'.q.c.tail == s.q.c.tail
    requires var pc := s.q.c.threads[s.worker];
             && (pc.PopRecycle? ==> 0 <= s.q.c.head - 1 < s.q.c.tail && pc.entry == s.q.h.pushed[s.q.c.head - 1])
             && (s.duty.Popping? && s.duty.last && pc.PopLoadSequence? && |s.q.c.slots| > 0 ==>
                   (SlotAt(s.q.c, pc.pos).sequence < pc.pos + 1 ==> s.q.c.tail == s.q.c.head))
    ensures LogInv(s')
  {
    hide Index;
    hide SinkOk;
    hide TicketsOk;
    hide CallOk;
    RecordsKept(s, s');
    forall u | u in s'.jobs ensures JobOk(s', u, s'.jobs[u]) { assert JobOk(s, u, s.jobs[u]); }
    PushedAreLines(s);
  }

  /** Once stop has been called no push is under way, so a pop that finds nothing has emptied the queue. */
  lemma NothingLeft(s: System)
    requires Inv(s) && s.duty.Popping? && s.duty.last && s.q.c.threads[s.worker].PopLoadSequence?
    ensures var pos := s.q.c.threads[s.worker].pos;
            SlotAt(s.q.c, pos).sequence < pos + 1 ==> s.q.c.tail == s.q.c.head
  {
    var pos, h := s.q.c.threads[s.worker].pos, s.q.c.head;
    assert ThreadOk(s.q, s.worker, s.q.c.threads[s.worker]);
    if SlotAt(s.q.c, pos).sequence < pos + 1 && h < s.q.c.tail {
      PopFailure(s.q, pos);
    }
  }

  /** The logger's call of push or pop, and any access of the queue, keep the queue's invariant. */
  lemma QueueKept(s: System, a: Action)
    requires Inv(s)
    ensures SoloInv(Step(s, a).q, s.worker)
  {
    hide LogInv;
    hide SoloInv;
    match a
    case Log(t, line) => SoloStep(s.q, s.worker, CallPush(t, Line(line)));
    case Queue(t, spurious) => SoloStep(s.q, s.worker, Run(t, spurious));
    case Return(t) =>
      if t in s.jobs && s.jobs[t].Pushing? {
        SoloStep(s.q, s.worker, CallPush(t, Line(LineOf(s.calls, s.jobs[t].id))));
      }
    case Test => SoloStep(s.q, s.worker, CallPop(s.worker));
    case Save => SoloStep(s.q, s.worker, CallPop(s.worker));
    case _ =>
  }

  lemma ProducerAccess(s: System, t: Tid, spurious: bool)
    requires LogInv(s) && t in s.jobs && |s.q.c.slots| > 0
    requires Moves(s.q, t, LogQueue.Step(s.q, Run(t, spurious)))
    ensures LogInv(Step(s, Queue(t, spurious)))
  {
    hide LogQueue.Step;
    var s' := Step(s, Queue(t, spurious));
    assert JobOk(s, t, s.jobs[t]);
    if s'.q.c.tail > s.q.c.tail { ProducerClaims(s, t, s'); } else { ProducerMoves(s, t, s'); }
  }

  lemma WorkerAccess(s: System, spurious: bool, s': System)
    requires LogInv(s) && |s.q.c.slots| > 0 && s' == Step(s, Queue(s.worker, spurious))
    requires Moves(s.q, s.worker, s'.q) && s'.q.c.head <= s'.q.c.tail
    requires var pc := s.q.c.threads[s.worker];
             && (pc.PopRecycle? ==> 0 <= s.q.c.head - 1 < s.q.c.tail && pc.entry == s.q.h.pushed[s.q.c.head - 1])
             && (s.duty.Popping? && s.duty.last && pc.PopLoadSequence? ==>
                   (SlotAt(s.q.c, pc.pos).sequence < pc.pos + 1 ==> s.q.c.tail == s.q.c.head))
    ensures LogInv(s')
  {
    hide LogQueue.Step;
    hide Index;
    WorkerMoves(s, s');
  }

  lemma WorkerFacts(s: System)
    requires Inv(s)
    ensures var pc := s.q.c.threads[s.worker];
             && (pc.PopRecycle? ==> 0 <= s.q.c.head - 1 < s.q.c.tail && pc.entry == s.q.h.pushed[s.q.c.head - 1])
             && (s.duty.Popping? && s.duty.last && pc.PopLoadSequence? ==>
                   (SlotAt(s.q.c, pc.pos).sequence < pc.pos + 1 ==> s.q.c.tail == s.q.c.head))
  {
    var pc := s.q.c.threads[s.worker];
    assert ThreadOk(s.q, s.worker, pc);
    if pc.PopLoadSequence? && s.duty.Popping? && s.duty.last { NothingLeft(s); }
  }

  lemma AccessKeeps(s: System, t: Tid, spurious: bool)
    requires Inv(s)
    ensures LogInv(Step(s, Queue(t, spurious)))
  {
    if t !in s.q.c.threads {
      assert Step(s, Queue(t, spurious)) == s;
      return;
    }
    QueueMoves(s.q, t, spurious);
    QueueKept(s, Queue(t, spurious));
    if t == s.worker {
      WorkerFacts(s);
      WorkerAccess(s, spurious, Step(s, Queue(t, spurious)));
    } else {
      ProducerAccess(s, t, spurious);
    }
    hide LogInv;
    hide Moves;
  }

  /** The accesses of the queue apart, no action depends on the queue's own invariant. */
  lemma ActionKeeps(s: System, a: Action)
    requires LogInv(s) && |s.q.c.slots| > 0 && !a.Queue?
    ensures LogInv(Step(s, a))
  {
    var s' := Step(s, a);
    if s' != s {
      match a
      case Log(t, line) =>
        assert JobOk(s, t, s.jobs[t]);
        hide LogInv;
        LogKeeps(s, t, line, s');
      case Return(t) =>
        hide LogInv;
        ReturnKeeps(s, t, s');
      case WriteDirect(t) => WriteDirectKeeps(s, t, s');
      case Test => TestKeeps(s, s');
      case Popped => PoppedKeeps(s);
      case Save => SaveKeeps(s, s');
      case Stop => StopKeeps(s);
      case _ =>
    }
  }

  lemma StepInv(s: System, a: Action)
    requires Inv(s)
    ensures Inv(Step(s, a))
  {
    QueueKept(s, a);
    assert |s.q.c.slots| > 0;
    hide Step;
    hide SoloInv;
    hide LogInv;
    if a.Queue? { AccessKeeps(s, a.t, a.spurious); } else { ActionKeeps(s, a); }
  }

  lemma {:induction false} ExecInv(s: System, run: seq<Action>)
    requires Inv(s)
    ensures Inv(Exec(s, run))
    decreases |run|
  {
    if run != [] {
      StepInv(s, run[0]);
      ExecInv(Step(s, run[0]), run[1..]);
    }
  }

  // ------------------------------------------------------------- main results

  /** A log call is in the sink at place i. */
  ghost predicate SinkHolds(s: System, i: nat, id: nat) {
    i < |s.sink| && id < |s.calls| && s.sink[i] == Entry(id, s.calls[id].line)
  }

  /**
   Once the worker has returned after stop, the sink holds the line of every log call
   exactly once, and nothing else.
   */
  lemma EveryLineOnce(n: nat, producers: set<Tid>, worker: Tid, run: seq<Action>, id: nat)
    requires n >= 2 && worker !in producers
    requires var s := Exec(Init(n, producers, worker), run); s.duty.Finished? && id < |s.calls|
    ensures var s := Exec(Init(n, producers, worker), run);
            && (exists i :: SinkHolds(s, i, id))
            && (forall i, j | SinkHolds(s, i, id) && SinkHolds(s, j, id) :: i == j)
            && (forall i | 0 <= i < |s.sink| :: SinkHolds(s, i, s.sink[i].id))
  {
    InitInv(n, producers, worker);
    ExecInv(Init(n, producers, worker), run);
    var s := Exec(Init(n, producers, worker), run);
    assert CallOk(s, id);
    match s.calls[id].fate
    case Queued(p) => assert SinkHolds(s, s.places[p], id);
    case Written(i) => assert SinkHolds(s, i, id);
  }

  /** Lines of one producer that went through the queue stand in the sink in the order it logged them. */
  lemma QueueKeepsOrder(n: nat, producers: set<Tid>, worker: Tid, run: seq<Action>, i: nat, j: nat)
    requires n >= 2 && worker !in producers
    requires var s := Exec(Init(n, producers, worker), run);
             i < |s.sink| && j < |s.sink| && s.sink[i].id < |s.calls| && s.sink[j].id < |s.calls|
             && var a, b := s.calls[s.sink[i].id], s.calls[s.sink[j].id];
                a.producer == b.producer && a.fate.Queued? && b.fate.Queued?
    ensures var s := Exec(Init(n, producers, worker), run);
            i < j <==> s.sink[i].id < s.sink[j].id
  {
    InitInv(n, producers, worker);
    ExecInv(Init(n, producers, worker), run);
    var s := Exec(Init(n, producers, worker), run);
    var p, r := s.calls[s.sink[i].id].fate.ticket, s.calls[s.sink[j].id].fate.ticket;
    assert s.places[p] == i && s.places[r] == j;
    assert s.queued[p] == s.sink[i].id && s.queued[r] == s.sink[j].id;
  }

  /** Nothing is lost before stop either: a line is held by its producer, queued, or in the sink. */
  lemma NothingLost(n: nat, producers: set<Tid>, worker: Tid, run: seq<Action>, id: nat)
    requires n >= 2 && worker !in producers
    requires id < |Exec(Init(n, producers, worker), run).calls|
    ensures var s := Exec(Init(n, producers, worker), run);
            var call := s.calls[id];
            || (exists i :: SinkHolds(s, i, id))
            || (call.fate.Queued? && |s.places| <= call.fate.ticket < |s.q.h.pushed|
                && s.q.h.pushed[call.fate.ticket] == Line(call.line))
            || (call.producer in s.jobs && !s.jobs[call.producer].Ready? && s.jobs[call.producer].id == id)
  {
    InitInv(n, producers, worker);
    ExecInv(Init(n, producers, worker), run);
    var s := Exec(Init(n, producers, worker), run);
    assert CallOk(s, id);
    match s.calls[id].fate
    case Queued(p) => if p < |s.places| { assert SinkHolds(s, s.places[p], id); }
    case Written(i) => assert SinkHolds(s, i, id);
    case Held =>
  }

  // --------------------------------------------------------- the worker returns

  /** The worker's own next step; its compare-and-swap succeeds where it can. */
  function Own(s: System): Action {
    match s.duty
    case Testing => Test
    case Popping(_) =>
      if s.worker in s.q.c.threads && s.q.c.threads[s.worker].PopReturn? then Popped else Queue(s.worker, false)
    case Saving(_, _) => Save
    case Finished => Test
  }

  /** Whether a pass over the queue is still to come after this one. */
  function PassesLeft(s: System): nat {
    match s.duty
    case Testing => 1
    case Popping(last) => if last then 0 else 1
    case Saving(_, last) => if last then 0 else 1
    case Finished => 0
  }

  /** How far the worker is from claiming the next ticket or giving up. */
  function Distance(pc: Pc, head: nat): nat {
    match pc
    case PopTake(_) => 12
    case PopRecycle(_, _) => 11
    case PopReturn(ok, _) => if ok then 10 else 1
    case PopLoadSequence(pos) => if pos == head then 3 else 6
    case PopClaim(pos) => if pos == head then 2 else 5
    case PopLoadHead => 4
    case _ => 0
  }

  function Rank(s: System): nat {
    match s.duty
    case Popping(_) => if s.worker in s.q.c.threads then Distance(s.q.c.threads[s.worker], s.q.c.head) else 0
    case Saving(_, _) => 9
    case _ => 0
  }

  function Untaken(s: System): int { s.q.c.tail - s.q.c.head }

  predicate Lower(s: System, s': System) {
    || Untaken(s') < Untaken(s)
    || (Untaken(s') == Untaken(s)
        && (PassesLeft(s') < PassesLeft(s) || (PassesLeft(s') == PassesLeft(s) && Rank(s') < Rank(s))))
  }

  /** The slot at head is never ahead of what a pop waits for. */
  lemma HeadIsNotAhead(q: LogQueue.State)
    requires LogQueue.Inv(q)
    ensures SlotAt(q.c, q.c.head).sequence <= q.c.head + 1
  {
    var n, p := |q.c.slots|, q.c.head;
    IndexWraps(p, n);
    if p >= n { IndexWraps(p - n, n); }
    hide Index;
    hide LogQueue.ThreadOk;
    hide LogQueue.TicketOk;
  }

  /** One access of a pop by itself. */
  lemma PopAdvances(q: LogQueue.State, t: Tid)
    requires LogQueue.Inv(q) && t in q.c.threads
    requires var pc := q.c.threads[t]; InPop(pc)
    ensures var q' := LogQueue.Step(q, Run(t, false));
            && t in q'.c.threads && q'.c.tail == q.c.tail
            && (q'.c.head == q.c.head + 1
                || (q'.c.head == q.c.head && Distance(q'.c.threads[t], q.c.head) < Distance(q.c.threads[t], q.c.head)))
  {
    HeadIsNotAhead(q);
    hide Index;
    hide LogQueue.Inv;
  }

  /** A step inside pop. */
  lemma AccessLowers(s: System)
    requires LogQueue.Inv(s.q) && s.worker in s.q.c.threads && s.worker !in s.jobs
    requires s.duty.Popping? && InPop(s.q.c.threads[s.worker])
    ensures var s' := Step(s, Queue(s.worker, false)); Lower(s, s') && s'.running == s.running && s'.calls == s.calls
  {
    hide LogQueue.Inv;
    hide LogQueue.Step;
    hide Distance;
    PopAdvances(s.q, s.worker);
  }

  /** A step between two pops. */
  lemma DutyLowers(s: System)
    requires |s.q.c.slots| > 0 && s.worker in s.q.c.threads && !s.running && !s.duty.Finished?
    requires s.duty.Popping? ==> s.q.c.threads[s.worker].PopReturn?
    requires s.duty.Testing? || s.duty.Saving? ==> AtRest(s.q.c.threads[s.worker])
    ensures var s' := Step(s, Own(s)); Lower(s, s') && !s'.running && s'.calls == s.calls
  {
    hide Index;
  }

  lemma OwnStepLowers(s: System)
    requires Inv(s) && !s.running && !s.duty.Finished?
    ensures var s' := Step(s, Own(s));
            Inv(s') && !s'.running && Lower(s, s') && Untaken(s') >= 0 && s'.calls == s.calls
  {
    hide LogInv;
    hide SoloInv;
    hide Lower;
    hide LogQueue.Inv;
    WorkerIsThere(s);
    StepInv(s, Own(s));
    UntakenIsNat(Step(s, Own(s)));
    if Own(s).Queue? { AccessLowers(s); } else { DutyLowers(s); }
  }

  lemma UntakenIsNat(s: System)
    requires Inv(s)
    ensures Untaken(s) >= 0
  {
    hide DutyOk;
    hide TicketsOk;
    hide SinkOk;
  }

  lemma WorkerIsThere(s: System)
    requires Inv(s)
    ensures s.worker in s.q.c.threads && s.worker !in s.jobs && LogQueue.Inv(s.q)
    ensures s.duty.Popping? ==> InPop(s.q.c.threads[s.worker]) || s.q.c.threads[s.worker].PopReturn?
    ensures !s.duty.Popping? ==> AtRest(s.q.c.threads[s.worker])
    ensures |s.q.c.slots| > 0
  {
    hide TicketsOk;
    hide SinkOk;
  }

  predicate WorkersOwn(s: System, run: seq<Action>) {
    forall i | 0 <= i < |run| :: run[i] in {Test, Popped, Save, Queue(s.worker, false)}
  }

  /** Once stop has been called, the worker's own steps take it to its return, whatever it was doing. */
  lemma {:induction false} WorkerReturns(s: System) returns (run: seq<Action>)
    requires Inv(s) && !s.running
    ensures WorkersOwn(s, run) && |s.q.c.slots| > 0
    ensures Exec(s, run).duty.Finished? && Inv(Exec(s, run)) && Exec(s, run).calls == s.calls
    decreases Untaken(s), PassesLeft(s), Rank(s)
  {
    hide Inv;
    hide Step;
    hide Own;
    hide PassesLeft;
    hide Rank;
    hide LogQueue.Inv;
    WorkerIsThere(s);
    UntakenIsNat(s);
    if s.duty.Finished? {
      run := [];
    } else {
      OwnStepLowers(s);
      OwnIsOwn(s);
      var more := WorkerReturns(Step(s, Own(s)));
      run := [Own(s)] + more;
      assert run[1..] == more;
    }
  }

  lemma OwnIsOwn(s: System)
    ensures Own(s) in {Test, Popped, Save, Queue(s.worker, false)}
  {
  }

  /**
   So no line is lost: from every state the logger can reach, when no log call is under
   way, stop and the worker alone bring the line of every call so far to the sink.
   */
  lemma StopDeliversEverything(s: System) returns (more: seq<Action>)
    requires Inv(s) && forall t | t in s.jobs :: s.jobs[t].Ready?
    ensures |s.q.c.slots| > 0 && WorkersOwn(s, more)
    ensures var s' := Exec(s, [Stop] + more);
            s'.duty.Finished? && s'.calls == s.calls && forall id: nat | id < |s.calls| :: Reached(s', id)
  {
    hide Inv;
    hide Step;
    hide Reached;
    hide WorkersOwn;
    hide LogQueue.Inv;
    WorkerIsThere(s);
    StopIs(s);
    var stopped := Step(s, Stop);
    more := WorkerReturns(stopped);
    SameWorker(stopped, s, more);
    assert ([Stop] + more)[1..] == more;
    var s' := Exec(stopped, more);
    forall id: nat | id < |s.calls| ensures Reached(s', id) { FinishedReached(s', id); }
  }

  lemma StopIs(s: System)
    requires Inv(s) && forall t | t in s.jobs :: s.jobs[t].Ready?
    ensures |s.q.c.slots| > 0 && Step(s, Stop) == s.(running := false) && Inv(Step(s, Stop))
  {
    WorkerIsThere(s);
    StepInv(s, Stop);
    hide Inv;
    hide LogQueue.Inv;
  }

  lemma SameWorker(s: System, r: System, run: seq<Action>)
    requires WorkersOwn(s, run) && r.worker == s.worker
    ensures WorkersOwn(r, run)
  {
  }

  ghost predicate Reached(s: System, id: nat) { exists i :: SinkHolds(s, i, id) }

  lemma FinishedReached(s: System, id: nat)
    requires Inv(s) && s.duty.Finished? && id < |s.calls|
    ensures Reached(s, id)
  {
    assert CallOk(s, id);
    match s.calls[id].fate
    case Queued(p) => assert SinkHolds(s, s.places[p], id);
    case Written(i) => assert SinkHolds(s, i, id);
  }
}
