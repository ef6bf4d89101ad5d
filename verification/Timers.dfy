/**
 Connection timers: a priority queue of nodes with lazy deletion, and the connections that
 name their node by a weak pointer.  A node lives as long as it is in the queue; when it is
 destroyed while it still holds a connection, the connection is closed.

 Time is in milliseconds and never goes back.  The program reads it modulo ten million.
 Which connections become active and what their handlers find is an oracle; an event is
 delivered only for a connection that is still registered with the poller.
 */
module Timers {
  import opened Basics
  import opened Bits

  type NodeId = nat
  type ConnId = nat

  /** Seconds modulo 10000, in milliseconds. */
  const PERIOD: nat := 10_000_000

  const DEFAULT_EXPIRED_TIME: nat := 2000
  const DEFAULT_KEEP_ALIVE_TIME: nat := 300_000

  /** added and timeout are history: when the node was made and for how long. */
  datatype Node = Node(deleted: bool, expired: nat, conn: Option<ConnId>, added: nat, timeout: nat)

  /**
   timer is the weak pointer: it may name a node that no longer exists.  closings counts
   the calls of handleClose; deadline is history, the latest time asked for.
   */
  datatype Conn = Conn(timer: Option<NodeId>, registered: bool, closings: nat, deadline: nat)

  datatype State = State(now: nat, nodes: map<NodeId, Node>, unused: NodeId, conns: map<ConnId, Conn>)

  /** What handleConn finds. */
  datatype Situation = Situation(error: bool, connected: bool, disconnecting: bool,
                                 events: bool, writable: bool, keepAlive: bool)

  datatype Action =
    | Tick(ms: nat)
    | NewEvent(c: ConnId)
    | Reset(c: ConnId)
    | HandleConn(c: ConnId, what: Situation)
    | Pop(n: NodeId)

  function Init(): State { State(0, map[], 0, map[]) }

  /** TimerManager::addTimer: a new node for the connection, which then names it. */
  function AddTimer(s: State, c: ConnId, timeout: nat): State {
    if c !in s.conns then s
    else
      s.(nodes := s.nodes[s.unused := Node(false, s.now % PERIOD + timeout, Some(c), s.now, timeout)],
         unused := s.unused + 1,
         conns := s.conns[c := s.conns[c].(timer := Some(s.unused), deadline := s.now + timeout)])
  }

  /** seperateTimer: the node, if it still exists, lets go of the connection and counts as deleted. */
  function Separate(s: State, c: ConnId): State {
    if c !in s.conns || s.conns[c].timer.None? then s
    else
      var n := s.conns[c].timer.value;
      if n !in s.nodes then s
      else s.(nodes := s.nodes[n := s.nodes[n].(deleted := true, conn := None)],
              conns := s.conns[c := s.conns[c].(timer := None)])
  }

  /** handleClose. */
  function Close(s: State, c: ConnId): State {
    if c !in s.conns then s
    else s.(conns := s.conns[c := s.conns[c].(registered := false, closings := s.conns[c].closings + 1)])
  }

  datatype Decision = Rearm(timeout: nat) | Linger | Shut

  /** The branches of handleConn after the timer has been separated. */
  function Decide(w: Situation): Decision {
    if !w.error && w.connected then
      if w.events then Rearm(if w.keepAlive then DEFAULT_KEEP_ALIVE_TIME else DEFAULT_EXPIRED_TIME)
      else if w.keepAlive then Rearm(DEFAULT_KEEP_ALIVE_TIME)
      else Rearm(DEFAULT_KEEP_ALIVE_TIME / 2)
    else if !w.error && w.disconnecting && w.writable then Linger
    else Shut
  }

  predicate IsTop(s: State, n: NodeId) {
    n in s.nodes && forall m | m in s.nodes :: s.nodes[n].expired <= s.nodes[m].expired
  }

  /** TimerNode::isValid. */
  predicate StillValid(s: State, n: NodeId)
    requires n in s.nodes
  {
    s.now % PERIOD < s.nodes[n].expired
  }

  function Without(nodes: map<NodeId, Node>, n: NodeId): (r: map<NodeId, Node>)
    ensures forall m :: m in r <==> m in nodes && m != n
    ensures forall m | m in r :: r[m] == nodes[m]
  {
    map m | m in nodes && m != n :: nodes[m]
  }

  /** Removal from the queue destroys the node. */
  function Destroy(s: State, n: NodeId): State
    requires n in s.nodes
  {
    var r := s.(nodes := Without(s.nodes, n));
    if s.nodes[n].conn.Some? then Close(r, s.nodes[n].conn.value) else r
  }

  function Step(s: State, a: Action): State {
    match a
    case Tick(ms) => s.(now := s.now + ms)
    case NewEvent(c) =>
      if c in s.conns then s
      else AddTimer(s.(conns := s.conns[c := Conn(None, true, 0, 0)]), c, DEFAULT_EXPIRED_TIME)
    case Reset(c) => if c in s.conns && s.conns[c].registered then Separate(s, c) else s
    case HandleConn(c, what) =>
      if c in s.conns && s.conns[c].registered then
        match Decide(what)
        case Rearm(timeout) => AddTimer(Separate(s, c), c, timeout)
        case Linger => Separate(s, c)
        case Shut => Close(Separate(s, c), c)
      else s
    case Pop(n) =>
      if IsTop(s, n) && (s.nodes[n].deleted || !StillValid(s, n)) then Destroy(s, n) else s
  }

  function Exec(s: State, run: seq<Action>): State
    decreases |run|
  {
    if run == [] then s else Exec(Step(s, run[0]), run[1..])
  }

  // ------------------------------------------------------------- the invariant

  /** A node that has not been deleted is the one its connection names, and keeps its latest deadline. */
  predicate NodeRight(s: State, n: NodeId)
    requires n in s.nodes
  {
    var d := s.nodes[n];
    && n < s.unused && (d.deleted <==> d.conn.None?)
    && d.expired == d.added % PERIOD + d.timeout && d.added <= s.now
    && (d.conn.Some? ==>
          d.conn.value in s.conns
          && var c := s.conns[d.conn.value];
             c.timer == Some(n) && c.registered && c.deadline == d.added + d.timeout)
  }

  predicate ConnRight(s: State, c: ConnId)
    requires c in s.conns
  {
    && (s.conns[c].registered <==> s.conns[c].closings == 0) && s.conns[c].closings <= 1
    && (s.conns[c].timer.Some? ==> s.conns[c].timer.value < s.unused)
    && (s.conns[c].timer.Some? && s.conns[c].timer.value in s.nodes ==>
          s.nodes[s.conns[c].timer.value].conn == Some(c))
  }

  predicate Inv(s: State) {
    && (forall n | n in s.nodes :: NodeRight(s, n))
    && (forall c | c in s.conns :: ConnRight(s, c))
  }

  /** No node in the queue holds the connection any more. */
  predicate Free(s: State, c: ConnId) { forall n | n in s.nodes :: s.nodes[n].conn != Some(c) }

  lemma SeparateFrees(s: State, c: ConnId)
    requires Inv(s) && c in s.conns
    ensures var r := Separate(s, c);
            Inv(r) && Free(r, c) && c in r.conns && r.conns[c].(timer := None) == s.conns[c].(timer := None)
            && r.now == s.now
  {
    var r := Separate(s, c);
    forall n | n in r.nodes ensures NodeRight(r, n) && r.nodes[n].conn != Some(c) { assert NodeRight(s, n); }
    forall d | d in r.conns ensures ConnRight(r, d) { assert ConnRight(s, d); }
  }

  lemma AddTimerKeepsInv(s: State, c: ConnId, timeout: nat)
    requires Inv(s) && c in s.conns && s.conns[c].registered && Free(s, c)
    ensures Inv(AddTimer(s, c, timeout))
  {
    var r := AddTimer(s, c, timeout);
    forall n | n in r.nodes ensures NodeRight(r, n) {
      if n != s.unused { assert NodeRight(s, n); }
    }
    forall d | d in r.conns ensures ConnRight(r, d) { assert ConnRight(s, d); }
  }

  lemma CloseKeepsInv(s: State, c: ConnId)
    requires Inv(s) && c in s.conns && s.conns[c].registered && Free(s, c)
    ensures Inv(Close(s, c))
  {
    var r := Close(s, c);
    forall n | n in r.nodes ensures NodeRight(r, n) { assert NodeRight(s, n); }
    forall d | d in r.conns ensures ConnRight(r, d) { assert ConnRight(s, d); }
  }

  lemma DestroyKeepsInv(s: State, n: NodeId)
    requires Inv(s) && n in s.nodes
    ensures Inv(Destroy(s, n))
  {
    var r := s.(nodes := Without(s.nodes, n));
    assert NodeRight(s, n);
    forall m | m in r.nodes ensures NodeRight(r, m) { assert NodeRight(s, m); }
    forall d | d in r.conns ensures ConnRight(r, d) { assert ConnRight(s, d); }
    if s.nodes[n].conn.Some? {
      var c := s.nodes[n].conn.value;
      forall m | m in r.nodes ensures r.nodes[m].conn != Some(c) { assert NodeRight(s, m); }
      CloseKeepsInv(r, c);
    }
  }

  lemma NewKeepsInv(s: State, c: ConnId)
    requires Inv(s) && c !in s.conns
    ensures var r := s.(conns := s.conns[c := Conn(None, true, 0, 0)]); Inv(r) && Free(r, c)
  {
    var r := s.(conns := s.conns[c := Conn(None, true, 0, 0)]);
    forall m | m in r.nodes ensures NodeRight(r, m) && r.nodes[m].conn != Some(c) { assert NodeRight(s, m); }
    forall d | d in r.conns ensures ConnRight(r, d) { if d != c { assert ConnRight(s, d); } }
  }

  lemma TickKeepsInv(s: State, ms: nat)
    requires Inv(s)
    ensures Inv(s.(now := s.now + ms))
  {
    var r := s.(now := s.now + ms);
    forall n | n in r.nodes ensures NodeRight(r, n) { assert NodeRight(s, n); }
    forall d | d in r.conns ensures ConnRight(r, d) { assert ConnRight(s, d); }
  }

  lemma StepKeepsInv(s: State, a: Action)
    requires Inv(s)
    ensures Inv(Step(s, a))
  {
    hide Inv;
    hide Free;
    hide Separate;
    hide AddTimer;
    hide Close;
    hide Destroy;
    match a
    case Tick(ms) => TickKeepsInv(s, ms);
    case NewEvent(c) =>
      if c !in s.conns {
        NewKeepsInv(s, c);
        AddTimerKeepsInv(s.(conns := s.conns[c := Conn(None, true, 0, 0)]), c, DEFAULT_EXPIRED_TIME);
      }
    case Reset(c) => if c in s.conns { SeparateFrees(s, c); }
    case HandleConn(c, what) =>
      if c in s.conns && s.conns[c].registered {
        SeparateFrees(s, c);
        match Decide(what)
        case Rearm(timeout) => AddTimerKeepsInv(Separate(s, c), c, timeout);
        case Linger =>
        case Shut => CloseKeepsInv(Separate(s, c), c);
      }
    case Pop(n) => if n in s.nodes { DestroyKeepsInv(s, n); }
  }

  lemma {:induction false} ExecKeepsInv(s: State, run: seq<Action>)
    requires Inv(s)
    ensures Inv(Exec(s, run))
    decreases |run|
  {
    hide Inv;
    if run != [] {
      StepKeepsInv(s, run[0]);
      ExecKeepsInv(Step(s, run[0]), run[1..]);
    }
  }

  lemma RunsKeepInv(run: seq<Action>)
    ensures Inv(Exec(Init(), run))
  {
    ExecKeepsInv(Init(), run);
  }

  // ---------------------------------------------------------------- main results

  /** In every run, a connection is held by at most one undeleted node: the one its timer names. */
  lemma OneNodeEach(run: seq<Action>, n: NodeId, m: NodeId)
    requires var s := Exec(Init(), run);
             n in s.nodes && m in s.nodes && !s.nodes[n].deleted && !s.nodes[m].deleted
    ensures var s := Exec(Init(), run);
            && s.nodes[n].conn.Some? && s.nodes[n].conn.value in s.conns
            && s.conns[s.nodes[n].conn.value].timer == Some(n)
            && (s.nodes[n].conn == s.nodes[m].conn ==> n == m)
  {
    RunsKeepInv(run);
    var s := Exec(Init(), run);
    assert NodeRight(s, n) && NodeRight(s, m);
  }

  /** A connection is closed at most once, and is registered exactly until then. */
  lemma ClosedAtMostOnce(run: seq<Action>, c: ConnId)
    requires c in Exec(Init(), run).conns
    ensures var s := Exec(Init(), run);
            s.conns[c].closings <= 1 && (s.conns[c].registered <==> s.conns[c].closings == 0)
  {
    RunsKeepInv(run);
    var s := Exec(Init(), run);
    assert ConnRight(s, c);
  }

  /** Time that looks later within the period is later by at least as much. */
  lemma NotBefore(added: nat, now: nat, timeout: nat)
    requires added <= now && now % PERIOD >= added % PERIOD + timeout
    ensures now >= added + timeout
  {
    var p := PERIOD;
    var a, b := added / p, now / p;
    assert added == p * a + added % p && now == p * b + now % p;
    assert p * b - p * a == p * (b - a);
    Multiples(p, b - a);
  }

  /** A timer never closes a connection before the latest deadline asked for, not even when the clock wraps. */
  lemma NeverEarly(run: seq<Action>, n: NodeId, c: ConnId)
    requires var s := Exec(Init(), run);
             && c in s.conns && c in Step(s, Pop(n)).conns
             && Step(s, Pop(n)).conns[c].closings > s.conns[c].closings
    ensures var s := Exec(Init(), run); s.now >= s.conns[c].deadline
  {
    RunsKeepInv(run);
    var s := Exec(Init(), run);
    assert NodeRight(s, n);
    NotBefore(s.nodes[n].added, s.now, s.nodes[n].timeout);
  }

  /** Only time passes and the timer queue is worked off: the connection has no event. */
  predicate OnlyTime(run: seq<Action>) { forall i | 0 <= i < |run| :: run[i].Tick? || run[i].Pop? }

  /** A node that would run out behind the end of its period outlives every such step, and its connection too. */
  lemma LateNodeStays(s: State, n: NodeId, a: Action)
    requires Inv(s) && n in s.nodes && s.nodes[n].conn.Some? && s.nodes[n].expired >= PERIOD
    requires a.Tick? || a.Pop?
    ensures var c := s.nodes[n].conn.value; var r := Step(s, a);
            n in r.nodes && r.nodes[n] == s.nodes[n] && c in s.conns && c in r.conns && r.conns[c] == s.conns[c]
  {
    assert NodeRight(s, n);
    if a.Pop? && a.n in s.nodes { assert NodeRight(s, a.n); }
  }

  lemma {:induction false} LateNodeOutlives(s: State, n: NodeId, run: seq<Action>)
    requires Inv(s) && n in s.nodes && s.nodes[n].conn.Some? && s.nodes[n].expired >= PERIOD && OnlyTime(run)
    ensures var c := s.nodes[n].conn.value; var r := Exec(s, run);
            n in r.nodes && r.nodes[n] == s.nodes[n] && c in s.conns && c in r.conns && r.conns[c] == s.conns[c]
    decreases |run|
  {
    hide Inv;
    hide Step;
    if run != [] {
      LateNodeStays(s, n, run[0]);
      StepKeepsInv(s, run[0]);
      LateNodeOutlives(Step(s, run[0]), n, run[1..]);
    } else {
      NodeHasConn(s, n);
    }
  }

  lemma NodeHasConn(s: State, n: NodeId)
    requires Inv(s) && n in s.nodes && s.nodes[n].conn.Some?
    ensures s.nodes[n].conn.value in s.conns && s.conns[s.nodes[n].conn.value].registered
  {
    assert NodeRight(s, n);
  }

  predicate Closed(s: State, c: ConnId) { c in s.conns && s.conns[c].closings > 0 }

  /** Popping the top node closes the connection of n, or leaves n with it. */
  lemma PopTop(s: State, n: NodeId, top: NodeId)
    requires Inv(s) && n in s.nodes && s.nodes[n].conn.Some? && s.nodes[n].expired <= s.now % PERIOD && IsTop(s, top)
    ensures var r := Step(s, Pop(top)); var c := s.nodes[n].conn.value;
            && Inv(r) && r.now == s.now && |r.nodes| < |s.nodes|
            && if top == n then Closed(r, c) else n in r.nodes && r.nodes[n] == s.nodes[n]
  {
    assert NodeRight(s, n) && NodeRight(s, top);
    DestroyKeepsInv(s, top);
    Smaller(s.nodes, top);
  }

  /** Once the clock has passed the node's time, working off the queue closes its connection. */
  lemma {:induction false} PopsReachNode(s: State, n: NodeId) returns (run: seq<Action>)
    requires Inv(s) && n in s.nodes && s.nodes[n].conn.Some? && s.nodes[n].expired <= s.now % PERIOD
    ensures OnlyTime(run) && Closed(Exec(s, run), s.nodes[n].conn.value)
    decreases |s.nodes|
  {
    hide Inv;
    hide Step;
    MinExists(s);
    var top :| IsTop(s, top);
    PopTop(s, n, top);
    var r := Step(s, Pop(top));
    if top == n {
      run := [Pop(top)];
      assert run[1..] == [];
    } else {
      var more := PopsReachNode(r, n);
      run := [Pop(top)] + more;
      assert run[1..] == more;
    }
  }

  /** There is a time from now on whose reading is the last of a period. */
  lemma WaitForLastReading(now: nat) returns (ms: nat)
    ensures (now + ms) % PERIOD == PERIOD - 1
  {
    var p := PERIOD;
    ms := p - 1 - now % p;
    assert now + ms == p * (now / p) + (p - 1);
    Remainder(now + ms, p, now / p, p - 1);
  }

  lemma EarlyNodeFires(s: State, n: NodeId) returns (run: seq<Action>)
    requires Inv(s) && n in s.nodes && s.nodes[n].conn.Some? && s.nodes[n].expired < PERIOD
    ensures OnlyTime(run) && Closed(Exec(s, run), s.nodes[n].conn.value)
  {
    var ms := WaitForLastReading(s.now);
    var r := Step(s, Tick(ms));
    TickKeepsInv(s, ms);
    var more := PopsReachNode(r, n);
    run := [Tick(ms)] + more;
    assert run[1..] == more;
  }

  /**
   A timer works if and only if it runs out before the clock wraps: as long as a connection
   has no event, time and the timer queue can close it exactly when its node's time lies
   within the period.
   */
  lemma TimesOutIffBeforeWrap(s: State, n: NodeId)
    requires Inv(s) && n in s.nodes && s.nodes[n].conn.Some?
    ensures (exists run :: OnlyTime(run) && Closed(Exec(s, run), s.nodes[n].conn.value))
            <==> s.nodes[n].expired < PERIOD
  {
    var c := s.nodes[n].conn.value;
    if s.nodes[n].expired < PERIOD {
      var run := EarlyNodeFires(s, n);
      assert OnlyTime(run) && Closed(Exec(s, run), c);
    } else {
      OpenWhileHeld(s, n);
      forall run | OnlyTime(run) ensures !Closed(Exec(s, run), c) { LateNodeOutlives(s, n, run); }
    }
  }

  lemma OpenWhileHeld(s: State, n: NodeId)
    requires Inv(s) && n in s.nodes && s.nodes[n].conn.Some?
    ensures !Closed(s, s.nodes[n].conn.value)
  {
    assert NodeRight(s, n);
    assert ConnRight(s, s.nodes[n].conn.value);
  }

  /**
   A new connection whose peer stays silent is timed out if and only if it was accepted
   early enough before the end of a period: never in its last two seconds.
   */
  lemma NewConnectionTimesOutIffEarly(s: State, c: ConnId)
    requires Inv(s) && c !in s.conns
    ensures (exists run :: OnlyTime(run) && Closed(Exec(Step(s, NewEvent(c)), run), c))
            <==> s.now % PERIOD + DEFAULT_EXPIRED_TIME < PERIOD
  {
    var r := Step(s, NewEvent(c));
    StepKeepsInv(s, NewEvent(c));
    assert r.nodes[s.unused].conn == Some(c);
    assert r.nodes[s.unused].expired == s.now % PERIOD + DEFAULT_EXPIRED_TIME;
    TimesOutIffBeforeWrap(r, s.unused);
  }

  /** Such a connection can be there: accepted in the last millisecond of a period, it is never closed. */
  lemma LateConnectionStays(c: ConnId, run: seq<Action>)
    requires OnlyTime(run)
    ensures var s := Exec(Init(), [Tick(PERIOD - 1), NewEvent(c)]);
            && 0 in s.nodes && s.nodes[0].conn == Some(c) && s.nodes[0].expired >= PERIOD
            && c in s.conns && s.conns[c].registered && !Closed(Exec(s, run), c)
  {
    var late, accept := Tick(PERIOD - 1), NewEvent(c);
    var s1 := Step(Init(), late);
    var s := Step(s1, accept);
    assert [late, accept][1..][1..] == [];
    assert Exec(s1, [late, accept][1..]) == s;
    RunsKeepInv([late, accept]);
    LateNodeOutlives(s, 0, run);
    OpenWhileHeld(s, 0);
  }

  // ------------------------------------------------------- how long it is given

  /** The connection has a timer of its own that runs out after ms milliseconds. */
  predicate TimedFor(s: State, c: ConnId, ms: nat) {
    && c in s.conns && s.conns[c].registered && s.conns[c].deadline == s.now + ms
    && s.conns[c].timer.Some? && s.conns[c].timer.value in s.nodes
    && var node := s.nodes[s.conns[c].timer.value];
       node.conn == Some(c) && !node.deleted && node.expired == s.now % 10_000_000 + ms
  }

  lemma TimerIsSet(s: State, c: ConnId, ms: nat)
    requires c in s.conns && s.conns[c].registered
    ensures TimedFor(AddTimer(s, c, ms), c, ms)
  {
  }

  /** A connection that has just been accepted has two seconds. */
  lemma AcceptedHasTwoSeconds(s: State, c: ConnId)
    requires c !in s.conns
    ensures TimedFor(Step(s, NewEvent(c)), c, 2000) && Step(s, NewEvent(c)).conns[c].closings == 0
  {
    hide AddTimer;
    TimerIsSet(s.(conns := s.conns[c := Conn(None, true, 0, 0)]), c, 2000);
    AddTimerCloses(s.(conns := s.conns[c := Conn(None, true, 0, 0)]), c, 2000);
  }

  lemma AddTimerCloses(s: State, c: ConnId, ms: nat)
    requires c in s.conns
    ensures c in AddTimer(s, c, ms).conns && AddTimer(s, c, ms).conns[c].closings == s.conns[c].closings
  {
  }

  /**
   A connection in order is given time anew: five minutes with keep-alive, and without it
   two seconds while events are pending and two and a half minutes otherwise.
   */
  lemma ActiveIsGivenTime(s: State, c: ConnId, what: Situation)
    requires Inv(s) && c in s.conns && s.conns[c].registered && !what.error && what.connected
    ensures var r := Step(s, HandleConn(c, what));
            && TimedFor(r, c, if what.keepAlive then 300_000 else if what.events then 2000 else 150_000)
            && r.conns[c].closings == s.conns[c].closings
  {
    hide Inv;
    hide Separate;
    hide AddTimer;
    hide TimedFor;
    SeparateFrees(s, c);
    var ms := if what.keepAlive then 300_000 else if what.events then 2000 else 150_000;
    TimerIsSet(Separate(s, c), c, ms);
    AddTimerCloses(Separate(s, c), c, ms);
  }

  /** A connection that only has to finish writing keeps no timer and stays open. */
  lemma LingeringHasNoTimer(s: State, c: ConnId, what: Situation)
    requires Inv(s) && c in s.conns && s.conns[c].registered
    requires !what.error && !what.connected && what.disconnecting && what.writable
    ensures var r := Step(s, HandleConn(c, what));
            c in r.conns && r.conns[c].registered && r.conns[c].closings == s.conns[c].closings && Free(r, c)
  {
    hide Inv;
    hide Separate;
    SeparateFrees(s, c);
  }

  /** Every other connection is closed, at once and once. */
  lemma OtherwiseIsClosed(s: State, c: ConnId, what: Situation)
    requires Inv(s) && c in s.conns && s.conns[c].registered
    requires what.error || (!what.connected && !(what.disconnecting && what.writable))
    ensures var r := Step(s, HandleConn(c, what));
            && c in r.conns && !r.conns[c].registered && r.conns[c].closings == s.conns[c].closings + 1 && Free(r, c)
  {
    hide Inv;
    hide Separate;
    SeparateFrees(s, c);
  }

  /** A reset leaves the connection open and held by no node: no timer can close it until it is given a new one. */
  lemma ResetHasNoTimer(s: State, c: ConnId)
    requires Inv(s) && c in s.conns && s.conns[c].registered
    ensures var r := Step(s, Reset(c));
            c in r.conns && r.conns[c].registered && r.conns[c].closings == s.conns[c].closings && Free(r, c)
  {
    hide Inv;
    hide Separate;
    SeparateFrees(s, c);
  }

  /** The connection d, and the nodes that hold it, are the same. */
  predicate Untouched(s: State, r: State, d: ConnId) {
    && d in s.conns && d in r.conns && r.conns[d] == s.conns[d]
    && (forall n | n in s.nodes && s.nodes[n].conn == Some(d) :: n in r.nodes && r.nodes[n] == s.nodes[n])
    && (forall n | n in r.nodes && r.nodes[n].conn == Some(d) :: n in s.nodes && r.nodes[n] == s.nodes[n])
  }

  lemma SeparateTouchesOne(s: State, c: ConnId, d: ConnId)
    requires Inv(s) && c in s.conns && d in s.conns && c != d
    ensures Untouched(s, Separate(s, c), d)
  {
    assert ConnRight(s, c) && ConnRight(s, d);
  }

  /** What happens to one connection touches no other, nor its timer. */
  lemma OthersAreUntouched(s: State, a: Action, c: ConnId, d: ConnId)
    requires Inv(s) && d in s.conns && c != d
    requires a == NewEvent(c) || a == Reset(c) || (a.HandleConn? && a.c == c)
    ensures Untouched(s, Step(s, a), d)
  {
    if c in s.conns { SeparateTouchesOne(s, c, d); }
    hide Inv;
    hide Separate;
    UnusedIsFree(s);
  }

  lemma UnusedIsFree(s: State)
    requires Inv(s)
    ensures s.unused !in s.nodes
  {
    forall n | n in s.nodes ensures n != s.unused { assert NodeRight(s, n); }
  }

  /** Within one period, a node that looks valid has not reached its deadline. */
  lemma ValidBeforeDeadline(added: nat, now: nat, timeout: nat)
    requires added / PERIOD == now / PERIOD
    ensures now % PERIOD < added % PERIOD + timeout <==> now < added + timeout
  {
    var p := PERIOD;
    assert added == p * (added / p) + added % p && now == p * (now / p) + now % p;
  }

  // ------------------------------------------------------ the methods as written

  /** The fields of TimerManager and the timer part of HttpData, which share nodes and connections. */
  class TimedConnections {
    var now: nat
    var nodes: map<NodeId, Node>
    var unused: NodeId
    var conns: map<ConnId, Conn>

    constructor ()
      ensures View() == Init()
    {
      now, nodes, unused, conns := 0, map[], 0, map[];
    }

    ghost function View(): State
      reads this
    {
      State(now, nodes, unused, conns)
    }

    method NewTimer(c: ConnId, timeout: nat)
      requires c in conns
      modifies this
      ensures View() == AddTimer(old(View()), c, timeout)
    {
      nodes := nodes[unused := Node(false, now % PERIOD + timeout, Some(c), now, timeout)];
      conns := conns[c := conns[c].(timer := Some(unused), deadline := now + timeout)];
      unused := unused + 1;
    }

    method SeparateTimer(c: ConnId)
      requires c in conns
      modifies this`nodes, this`conns
      ensures View() == Separate(old(View()), c)
    {
      if conns[c].timer.Some? && conns[c].timer.value in nodes {
        var n := conns[c].timer.value;
        nodes := nodes[n := nodes[n].(deleted := true, conn := None)];
        conns := conns[c := conns[c].(timer := None)];
      }
    }

    method HandleClose(c: ConnId)
      requires c in conns
      modifies this`conns
      ensures View() == Close(old(View()), c)
    {
      conns := conns[c := conns[c].(registered := false, closings := conns[c].closings + 1)];
    }

    method HandleConnection(c: ConnId, what: Situation)
      requires c in conns && conns[c].registered
      modifies this
      ensures View() == Step(old(View()), HandleConn(c, what))
    {
      SeparateTimer(c);
      if !what.error && what.connected {
        if what.events {
          var timeout := DEFAULT_EXPIRED_TIME;
          if what.keepAlive { timeout := DEFAULT_KEEP_ALIVE_TIME; }
          NewTimer(c, timeout);
        } else if what.keepAlive {
          NewTimer(c, DEFAULT_KEEP_ALIVE_TIME);
        } else {
          NewTimer(c, DEFAULT_KEEP_ALIVE_TIME / 2);
        }
      } else if !what.error && what.disconnecting && what.writable {
      } else {
        HandleClose(c);
      }
    }

    method Remove(n: NodeId)
      requires n in nodes && (nodes[n].conn.Some? ==> nodes[n].conn.value in conns)
      modifies this`nodes, this`conns
      ensures View() == Destroy(old(View()), n)
    {
      var node := nodes[n];
      nodes := Without(nodes, n);
      if node.conn.Some? { HandleClose(node.conn.value); }
    }

    method Top() returns (n: NodeId)
      requires nodes != map[]
      ensures IsTop(View(), n)
    {
      MinExists(View());
      n :| n in nodes && forall m | m in nodes :: nodes[n].expired <= nodes[m].expired;
    }

    /**
     handleExpiredEvent: nodes leave in the order of their times while they are deleted or
     expired.  The clock advances between readings.  It is a run of pops, and every node
     left expires later than the last reading.
     */
    method HandleExpired(delay: nat -> nat) returns (ghost run: seq<Action>)
      requires Inv(View())
      modifies this
      ensures Inv(View()) && View() == Exec(old(View()), run)
      ensures forall a | a in run :: a.Pop? || a.Tick?
      ensures forall n | n in nodes :: now % PERIOD < nodes[n].expired
    {
      hide Inv;
      hide Step;
      hide Destroy;
      run := [];
      var count := 0;
      while nodes != map[]
        invariant Inv(View()) && View() == Exec(old(View()), run)
        invariant forall a | a in run :: a.Pop? || a.Tick?
        decreases |nodes|
      {
        var n := Top();
        ghost var s := View();
        TopNode(s, n);
        if nodes[n].deleted {
          Remove(n);
          OneMore(old(View()), run, Pop(n));
          run := run + [Pop(n)];
        } else {
          now := now + delay(count);
          TickIs(s, delay(count));
          OneMore(old(View()), run, Tick(delay(count)));
          run := run + [Tick(delay(count))];
          ghost var s1 := View();
          StepKeepsInv(s, Tick(delay(count)));
          count := count + 1;
          if now % PERIOD < nodes[n].expired {
            return;
          }
          TopNode(s1, n);
          Remove(n);
          OneMore(old(View()), run, Pop(n));
          run := run + [Pop(n)];
        }
      }
    }
  }

  lemma TickIs(s: State, ms: nat)
    ensures Step(s, Tick(ms)) == s.(now := s.now + ms)
  {
  }

  /** Removing the top node makes the queue smaller, and is a step when the node is due. */
  lemma TopNode(s: State, n: NodeId)
    requires Inv(s) && IsTop(s, n)
    ensures s.nodes[n].conn.Some? ==> s.nodes[n].conn.value in s.conns
    ensures |Destroy(s, n).nodes| < |s.nodes| && Inv(Destroy(s, n))
    ensures s.nodes[n].deleted || !StillValid(s, n) ==> Step(s, Pop(n)) == Destroy(s, n)
  {
    assert NodeRight(s, n);
    DestroyKeepsInv(s, n);
    Smaller(s.nodes, n);
  }

  lemma Smaller(nodes: map<NodeId, Node>, n: NodeId)
    requires n in nodes
    ensures |Without(nodes, n)| < |nodes|
  {
    var r := Without(nodes, n);
    assert r.Keys == nodes.Keys - {n};
    assert |r| == |r.Keys| && |nodes| == |nodes.Keys|;
  }

  lemma {:induction false} OneMore(s: State, run: seq<Action>, a: Action)
    ensures Exec(s, run + [a]) == Step(Exec(s, run), a)
    decreases |run|
  {
    hide Step;
    if run == [] {
      assert [a][1..] == [];
    } else {
      assert (run + [a])[1..] == run[1..] + [a];
      OneMore(Step(s, run[0]), run[1..], a);
    }
  }

  /** A queue that is not empty has a node with the least time. */
  lemma {:induction false} MinExists(s: State)
    requires s.nodes != map[]
    ensures exists n :: IsTop(s, n)
    decreases |s.nodes|
  {
    var k :| k in s.nodes;
    var rest := Without(s.nodes, k);
    Smaller(s.nodes, k);
    if rest == map[] {
      assert forall m | m in s.nodes :: m == k by {
        forall m | m in s.nodes ensures m == k { assert m != k ==> m in rest; }
      }
      assert IsTop(s, k);
    } else {
      MinExists(s.(nodes := rest));
      var n :| IsTop(s.(nodes := rest), n);
      if s.nodes[k].expired < s.nodes[n].expired { assert IsTop(s, k); } else { assert IsTop(s, n); }
    }
  }
}
