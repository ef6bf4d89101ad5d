/**
 Writing to a non-blocking socket in as many pieces as it takes.  The socket is an oracle:
 the list of what its writes return, after which it would block.
 */
module PartialWrite {

  datatype Written = Wrote(count: nat) | Interrupted | WouldBlock | Failed

  /** How many of n bytes are accepted before the socket would block; None on an error. */
  function Accepted(n: nat, outcomes: seq<Written>): (r: int)
    ensures -1 <= r <= n
    decreases |outcomes|
  {
    if n == 0 || outcomes == [] then 0
    else
      match outcomes[0]
      case Wrote(count) =>
        var w := if count < n then count else n;
        var more := Accepted(n - w, outcomes[1..]);
        if more < 0 then -1 else w + more
      case Interrupted => Accepted(n, outcomes[1..])
      case WouldBlock => 0
      case Failed => -1
  }

  /** Everything is accepted in the end if no write fails or blocks and together they take it all. */
  function Capacity(outcomes: seq<Written>): nat {
    if outcomes == [] then 0
    else (match outcomes[0] case Wrote(count) => count case _ => 0) + Capacity(outcomes[1..])
  }

  lemma {:induction false} AllAcceptedIffRoom(n: nat, outcomes: seq<Written>)
    requires forall i | 0 <= i < |outcomes| :: outcomes[i].Wrote? || outcomes[i].Interrupted?
    ensures Accepted(n, outcomes) == if Capacity(outcomes) < n then Capacity(outcomes) else n
    decreases |outcomes|
  {
    if n > 0 && outcomes != [] {
      match outcomes[0]
      case Wrote(count) => AllAcceptedIffRoom(n - (if count < n then count else n), outcomes[1..]);
      case Interrupted => AllAcceptedIffRoom(n, outcomes[1..]);
    }
  }

  /** Writes that go through, or are merely interrupted. */
  predicate GoThrough(outcomes: seq<Written>) {
    forall i | 0 <= i < |outcomes| :: outcomes[i].Wrote? || outcomes[i].Interrupted?
  }

  /**
   What ends the loop: all bytes taken, whatever comes later; a socket that would block,
   with what has been taken so far; or an error, which hides what has been taken.
   */
  lemma {:induction false} WhatEndsIt(n: nat, before: seq<Written>, end: Written, later: seq<Written>)
    requires GoThrough(before)
    ensures Capacity(before) >= n ==> Accepted(n, before + [end] + later) == n
    ensures Capacity(before) < n && end == WouldBlock ==> Accepted(n, before + [end] + later) == Capacity(before)
    ensures Capacity(before) < n && end == Failed ==> Accepted(n, before + [end] + later) == -1
    decreases |before|
  {
    var all := before + [end] + later;
    if before == [] {
      assert all[0] == end;
    } else if n > 0 {
      assert all[0] == before[0] && all[1..] == before[1..] + [end] + later;
      assert before[0].Wrote? || before[0].Interrupted?;
      var w := if before[0].Interrupted? then 0 else if before[0].count < n then before[0].count else n;
      WhatEndsIt(n - w, before[1..], end, later);
    }
  }

  class Socket {
    /** What the next writes return. */
    var outcomes: seq<Written>
    var sent: string

    constructor (outcomes: seq<Written>)
      ensures this.outcomes == outcomes && sent == ""
    {
      this.outcomes, sent := outcomes, "";
    }

    /** write(2): a prefix of the bytes is sent. */
    method Write(data: string) returns (w: Written)
      requires data != ""
      modifies this
      ensures old(outcomes) == [] ==> w == WouldBlock && outcomes == [] && sent == old(sent)
      ensures old(outcomes) != [] ==> outcomes == old(outcomes)[1..]
      ensures old(outcomes) != [] ==>
                match old(outcomes)[0]
                case Wrote(count) =>
                  w == Wrote(if count < |data| then count else |data|) && sent == old(sent) + data[..w.count]
                case o => w == o && sent == old(sent)
    {
      if outcomes == [] { return WouldBlock; }
      w := outcomes[0];
      outcomes := outcomes[1..];
      if w.Wrote? {
        w := Wrote(if w.count < |data| then w.count else |data|);
        sent := sent + data[..w.count];
      }
    }

    /** writen on a buffer: the bytes sent are a prefix, and the result is how many, or -1 on an error. */
    method WriteN(data: string) returns (sum: int)
      modifies this
      ensures sum == Accepted(|data|, old(outcomes))
      ensures exists k: nat :: k <= |data| && sent == old(sent) + data[..k] && (sum >= 0 ==> k == sum)
    {
      var ptr: nat := 0;
      sum := 0;
      assert sent == old(sent) + data[..0];
      while ptr < |data|
        invariant 0 <= sum == ptr <= |data| && sent == old(sent) + data[..ptr]
        invariant var more := Accepted(|data| - ptr, outcomes);
                  Accepted(|data|, old(outcomes)) == if more < 0 then -1 else ptr + more
        decreases |outcomes|, |data| - ptr
      {
        ghost var was := outcomes;
        var w := Write(data[ptr..]);
        if w.WouldBlock? {
          return;
        }
        if w.Failed? {
          sum := -1;
          return;
        }
        if w.Wrote? {
          assert data[..ptr + w.count] == data[..ptr] + data[ptr..][..w.count];
          sum := sum + w.count;
          ptr := ptr + w.count;
        }
      }
    }

    /**
     writen on a string: unless there is an error, what has been sent and what is left in
     the string together are what was to be sent; on an error the string is left whole.
     */
    method WriteString(sbuff: string) returns (sum: int, left: string)
      modifies this
      ensures sum == Accepted(|sbuff|, old(outcomes))
      ensures sum >= 0 ==> sent + left == old(sent) + sbuff && |left| == |sbuff| - sum
      ensures sum < 0 ==> left == sbuff
    {
      sum := WriteN(sbuff);
      if sum < 0 { return sum, sbuff; }
      if sum == |sbuff| { left := ""; } else { left := sbuff[sum..]; }
      assert sbuff == sbuff[..sum] + left;
    }
  }
}
