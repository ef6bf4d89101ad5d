/**
 A connection: bytes arrive in chunks, requests are cut off the front of the buffer, and
 each is answered by a text that the socket accepts in pieces.  The socket is an oracle:
 the chunks it delivers before it ends, and how much each send accepts.
 */
module HttpConnection {
  import opened Basics
  import opened Text
  import opened Decimal
  import opened HttpParse
  import opened HttpHead

  /** Whether the connection stays open after this request. */
  predicate KeepAlive(r: Request) {
    if "connection" in r.headers && FindFrom(ToLower(r.headers["connection"]), "close", 0).Some? then false
    else if "connection" in r.headers && FindFrom(ToLower(r.headers["connection"]), "keep-alive", 0).Some? then true
    else r.version == "HTTP/1.1"
  }

  // ------------------------------------------------------ what a stream contains

  datatype Served = Served(requests: seq<Request>, leftover: string)

  /** The requests of a byte stream that has arrived as a whole, and the bytes behind them. */
  function Drain(stream: string): Served
    decreases |stream|
  {
    var p := TryParse(stream);
    if p.None? || p.value.consumed == 0 || p.value.consumed > |stream| then Served([], stream)
    else
      var rest := Drain(stream[p.value.consumed..]);
      Served([p.value.request] + rest.requests, rest.leftover)
  }

  /** No head met on the way declares a body whose end exceeds 64 bits. */
  predicate HeadsFit(stream: string)
    decreases |stream|
  {
    Fits(stream)
    && var p := TryParse(stream);
       (p.Some? && 0 < p.value.consumed <= |stream| ==> HeadsFit(stream[p.value.consumed..]))
  }

  lemma EmptyStream()
    ensures TryParse("") == None && Fits("")
  {
  }

  lemma DrainOne(text: string, rest: string, r: Request)
    requires TryParse(text + rest) == Some(Parsed(r, |text|)) && 0 < |text| && Fits(text + rest) && HeadsFit(rest)
    ensures HeadsFit(text + rest)
    ensures Drain(text + rest) == Served([r] + Drain(rest).requests, Drain(rest).leftover)
  {
    hide TryParse;
    hide Fits;
    assert (text + rest)[|text|..] == rest;
  }

  /** The requests obtained by calling read_request until the stream ends. */
  function ReadAll(buffer: string, chunks: seq<string>): Served
    decreases |chunks|, |buffer|
  {
    var p := TryParse(buffer);
    if p.Some? && 0 < p.value.consumed <= |buffer| then
      var rest := ReadAll(buffer[p.value.consumed..], chunks);
      Served([p.value.request] + rest.requests, rest.leftover)
    else if chunks == [] then Served([], buffer)
    else ReadAll(buffer + chunks[0], chunks[1..])
  }

  /** A head that fits in the whole stream fits in every prefix of it. */
  lemma PrefixFits(buffer: string, more: string)
    requires Fits(buffer + more)
    ensures Fits(buffer)
  {
    hide ReadHead;
    if HasHead(buffer) {
      HeadNeedsBlankLine(buffer);
      HeadExtends(buffer, more);
    }
  }

  /** The requests do not depend on how the stream was cut into chunks. */
  lemma {:induction false} ChunkingIsIrrelevant(buffer: string, chunks: seq<string>)
    requires HeadsFit(buffer + Concat(chunks))
    ensures ReadAll(buffer, chunks) == Drain(buffer + Concat(chunks))
    decreases |chunks|, |buffer|
  {
    hide TryParse;
    hide Fits;
    var stream, p := buffer + Concat(chunks), TryParse(buffer);
    if p.Some? {
      PrefixFits(buffer, Concat(chunks));
      ParseIsStable(buffer, Concat(chunks));
      assert stream[p.value.consumed..] == buffer[p.value.consumed..] + Concat(chunks);
      ChunkingIsIrrelevant(buffer[p.value.consumed..], chunks);
    } else if chunks == [] {
      assert stream == buffer;
    } else {
      assert stream == (buffer + chunks[0]) + Concat(chunks[1..]);
      ChunkingIsIrrelevant(buffer + chunks[0], chunks[1..]);
    }
  }

  /** Any two ways of cutting the same stream give the same requests and the same leftover. */
  lemma AnyTwoChunkings(a: seq<string>, b: seq<string>)
    requires Concat(a) == Concat(b) && HeadsFit(Concat(a))
    ensures ReadAll("", a) == ReadAll("", b)
  {
    assert "" + Concat(a) == Concat(a);
    ChunkingIsIrrelevant("", a);
    ChunkingIsIrrelevant("", b);
  }

  /** The requests that are answered: up to and including the first that closes the connection. */
  function Answered(requests: seq<Request>): seq<Request> {
    if requests == [] then []
    else [requests[0]] + if KeepAlive(requests[0]) then Answered(requests[1..]) else []
  }

  function Replies(respond: Request -> string, requests: seq<Request>): string {
    if requests == [] then "" else respond(requests[0]) + Replies(respond, requests[1..])
  }

  // ------------------------------------------------------------- the connection

  datatype SendOutcome = Accepted(count: nat) | Nothing | Error

  /** What writing n bytes comes to from the i-th send on: bytes delivered, the next send, and whether one failed. */
  datatype Delivery = Delivery(count: nat, next: nat, failed: bool)

  function Deliver(accepts: nat -> SendOutcome, n: nat, i: nat): (d: Delivery)
    ensures d.count <= n
    decreases n
  {
    if n == 0 then Delivery(0, i, false)
    else
      match accepts(i)
      case Error => Delivery(0, i + 1, true)
      case Nothing => Delivery(0, i + 1, false)
      case Accepted(count) =>
        if count == 0 then Delivery(0, i + 1, false)
        else
          var w := Min(count, n);
          var d := Deliver(accepts, n - w, i + 1);
          Delivery(w + d.count, d.next, d.failed)
  }

  /** Every send that is made for n bytes from the i-th on accepts something. */
  predicate Delivers(accepts: nat -> SendOutcome, n: nat, i: nat)
    decreases n
  {
    n == 0 || (accepts(i).Accepted? && accepts(i).count > 0 && Delivers(accepts, n - Min(accepts(i).count, n), i + 1))
  }

  lemma {:induction false} DeliversAll(accepts: nat -> SendOutcome, n: nat, i: nat)
    ensures Delivers(accepts, n, i) <==> Deliver(accepts, n, i).count == n
    ensures Delivers(accepts, n, i) ==> !Deliver(accepts, n, i).failed
    decreases n
  {
    if n > 0 && accepts(i).Accepted? && accepts(i).count > 0 {
      DeliversAll(accepts, n - Min(accepts(i).count, n), i + 1);
    }
  }

  ghost predicate AlwaysAccepts(accepts: nat -> SendOutcome) {
    forall i: nat :: accepts(i).Accepted? && accepts(i).count > 0
  }

  ghost predicate NeverFails(accepts: nat -> SendOutcome) { forall i: nat :: !accepts(i).Error? }

  lemma {:induction false} AlwaysDelivers(accepts: nat -> SendOutcome, n: nat, i: nat)
    ensures AlwaysAccepts(accepts) ==> Delivers(accepts, n, i)
    ensures NeverFails(accepts) ==> !Deliver(accepts, n, i).failed
    decreases n
  {
    if n > 0 && accepts(i).Accepted? && accepts(i).count > 0 {
      AlwaysDelivers(accepts, n - Min(accepts(i).count, n), i + 1);
    }
  }

  /** What the sends from the i-th up to the j-th accept together. */
  function Total(accepts: nat -> SendOutcome, i: nat, j: nat): nat
    decreases j - i
  {
    if i >= j then 0 else (if accepts(i).Accepted? then accepts(i).count else 0) + Total(accepts, i + 1, j)
  }

  /**
   Sends add up as long as each accepts something: the first that fails, accepts nothing or
   completes the payload is the last, and only one that fails counts as a failure.
   */
  lemma {:induction false} DeliveredUntil(accepts: nat -> SendOutcome, n: nat, i: nat, j: nat)
    requires i <= j && forall k | i <= k < j :: accepts(k).Accepted? && accepts(k).count > 0
    requires Total(accepts, i, j) < n
    ensures accepts(j).Error? ==> Deliver(accepts, n, i) == Delivery(Total(accepts, i, j), j + 1, true)
    ensures accepts(j) == Nothing || accepts(j) == Accepted(0) ==>
              Deliver(accepts, n, i) == Delivery(Total(accepts, i, j), j + 1, false)
    ensures accepts(j).Accepted? && Total(accepts, i, j + 1) >= n ==>
              Deliver(accepts, n, i) == Delivery(n, j + 1, false)
    decreases j - i
  {
    if i < j {
      DeliveredUntil(accepts, n - accepts(i).count, i + 1, j);
    } else {
      assert Total(accepts, j + 1, j + 1) == 0 && Deliver(accepts, 0, j + 1) == Delivery(0, j + 1, false);
    }
  }

  /** The bytes that the peer receives for these requests, from the i-th send on. */
  function Conversation(accepts: nat -> SendOutcome, respond: Request -> string, requests: seq<Request>, i: nat): string
    decreases |requests|
  {
    if requests == [] then ""
    else
      var d := Deliver(accepts, |respond(requests[0])|, i);
      respond(requests[0])[..d.count] + if d.failed then "" else Conversation(accepts, respond, requests[1..], d.next)
  }

  /** Every send that is made for these replies accepts something. */
  predicate AllDelivered(accepts: nat -> SendOutcome, respond: Request -> string, requests: seq<Request>, i: nat)
    decreases |requests|
  {
    requests == []
    || (var n := |respond(requests[0])|;
        Delivers(accepts, n, i) && AllDelivered(accepts, respond, requests[1..], Deliver(accepts, n, i).next))
  }

  /** The peer receives the complete replies if and only if every send that is made accepts something. */
  lemma {:induction false} CompleteIffAllDelivered(accepts: nat -> SendOutcome, respond: Request -> string,
                                                   requests: seq<Request>, i: nat)
    ensures |Conversation(accepts, respond, requests, i)| <= |Replies(respond, requests)|
    ensures Conversation(accepts, respond, requests, i) == Replies(respond, requests)
            <==> AllDelivered(accepts, respond, requests, i)
    decreases |requests|
  {
    if requests != [] {
      var first := respond(requests[0]);
      var d := Deliver(accepts, |first|, i);
      DeliversAll(accepts, |first|, i);
      CompleteIffAllDelivered(accepts, respond, requests[1..], d.next);
      var sent, rest, all := Conversation(accepts, respond, requests, i),
          Conversation(accepts, respond, requests[1..], d.next), Replies(respond, requests[1..]);
      if d.count == |first| {
        assert first[..d.count] == first;
        assert sent == first + rest;
        assert (first + rest)[|first|..] == rest && (first + all)[|first|..] == all;
      }
    }
  }

  /** A send that fails ends the conversation: the peer gets what was accepted before it, and nothing more. */
  lemma NothingFollowsError(accepts: nat -> SendOutcome, respond: Request -> string, requests: seq<Request>,
                            i: nat, j: nat)
    requires requests != [] && i <= j && forall k | i <= k < j :: accepts(k).Accepted? && accepts(k).count > 0
    requires Total(accepts, i, j) < |respond(requests[0])| && accepts(j).Error?
    ensures Conversation(accepts, respond, requests, i) == respond(requests[0])[..Total(accepts, i, j)]
  {
    hide Deliver;
    DeliveredUntil(accepts, |respond(requests[0])|, i, j);
  }

  /** The second send accepts nothing; all others accept up to m bytes, the first one byte. */
  function SecondStalls(m: nat): nat -> SendOutcome {
    (i: nat) => if i == 0 then Accepted(1) else if i == 1 then Nothing else Accepted(m)
  }

  /** A reply can be cut short and the next one follow it: the first request kept the connection open. */
  lemma NextFollowsCutReply(respond: Request -> string, r: Request, next: Request)
    requires KeepAlive(r) && |respond(r)| >= 2 && respond(next) != ""
    ensures var accepts := SecondStalls(|respond(next)|);
            && Answered([r, next]) == [r, next]
            && Conversation(accepts, respond, [r, next], 0) == respond(r)[..1] + respond(next)
            && !AllDelivered(accepts, respond, [r, next], 0)
  {
    hide KeepAlive;
    var accepts, n, m := SecondStalls(|respond(next)|), |respond(r)|, |respond(next)|;
    assert [r, next][1..] == [next] && [next][1..] == [];
    assert accepts(0) == Accepted(1) && accepts(1) == Nothing && accepts(2) == Accepted(m);
    assert Deliver(accepts, n - 1, 1) == Delivery(0, 2, false);
    assert Deliver(accepts, n, 0) == Delivery(1, 2, false);
    assert Deliver(accepts, 0, 3) == Delivery(0, 3, false);
    assert Deliver(accepts, m, 2) == Delivery(m, 3, false);
    assert respond(next)[..m] == respond(next);
    assert Conversation(accepts, respond, [next], 2) == respond(next) + "" == respond(next);
    assert Conversation(accepts, respond, [r, next], 0) == respond(r)[..1] + Conversation(accepts, respond, [next], 2);
    assert !Delivers(accepts, n, 0);
    assert Answered([next]) == [next] + [] == [next];
    assert Answered([r, next]) == [r] + Answered([next]);
  }

  class Connection {
    var buffer: string
    /** Chunks still to be received, none empty; then the peer closes or the wait times out. */
    var incoming: seq<string>
    /** How many bytes the i-th send accepts at most. */
    const accepts: nat -> SendOutcome
    var sends: nat
    var sent: string

    constructor (incoming: seq<string>, accepts: nat -> SendOutcome)
      ensures this.incoming == incoming && this.accepts == accepts && buffer == sent == "" && sends == 0
    {
      this.incoming, this.accepts, sends, buffer, sent := incoming, accepts, 0, "", "";
    }

    /** Everything received or still to come. */
    function Stream(): string
      reads this
    {
      buffer + Concat(incoming)
    }

    /**
     read_request: it returns the first request of the stream, whatever the chunks, and
     leaves the rest of the stream; it gives up only when the stream holds no request.
     */
    method ReadRequest() returns (request: Option<Request>)
      requires HeadsFit(Stream())
      modifies this`buffer, this`incoming
      ensures var stream := old(Stream()); var p := TryParse(stream);
              if p.None? then request == None && Stream() == stream && incoming == []
              else request == Some(p.value.request) && 0 < p.value.consumed <= |stream|
                   && Stream() == stream[p.value.consumed..]
    {
      hide TryParse;
      hide Fits;
      ghost var stream := Stream();
      while true
        invariant Stream() == stream
        decreases |incoming|
      {
        var parsed := TryParseRequest(buffer);
        if parsed.Some? {
          PrefixFits(buffer, Concat(incoming));
          ParseIsStable(buffer, Concat(incoming));
          buffer := buffer[parsed.value.consumed..];
          return Some(parsed.value.request);
        }
        if incoming == [] {
          assert stream == buffer;
          return None;
        }
        buffer := buffer + incoming[0];
        incoming := incoming[1..];
      }
    }

    ghost predicate Progresses() { AlwaysAccepts(accepts) }

    /** No send fails outright. */
    ghost predicate Reliable() { NeverFails(accepts) }

    /** The loop of write_all: it delivers exactly what the sends from the next one on come to. */
    method SendLoop(payload: string) returns (failed: bool)
      modifies this`sends, this`sent
      ensures var d := Deliver(accepts, |payload|, old(sends));
              sent == old(sent) + payload[..d.count] && sends == d.next && failed == d.failed
    {
      ghost var all := Deliver(accepts, |payload|, sends);
      var offset := 0;
      while offset < |payload|
        invariant offset <= |payload| && sent == old(sent) + payload[..offset]
        invariant var d := Deliver(accepts, |payload| - offset, sends);
                  all == Delivery(offset + d.count, d.next, d.failed)
      {
        var outcome := accepts(sends);
        sends := sends + 1;
        match outcome
        case Error => return true;
        case Nothing => return false;
        case Accepted(count) =>
          var written := Min(count, |payload| - offset);
          sent := sent + payload[offset..offset + written];
          assert payload[..offset] + payload[offset..offset + written] == payload[..offset + written];
          offset := offset + written;
          if written == 0 { return false; }
      }
      failed := false;
    }

    /**
     write_all: sends what remains until all is sent or a send accepts nothing.  The whole
     payload is sent if and only if every send that is made for it accepts something.
     */
    method WriteAll(payload: string) returns (failed: bool)
      modifies this`sends, this`sent
      ensures var d := Deliver(accepts, |payload|, old(sends));
              sent == old(sent) + payload[..d.count] && sends == d.next && failed == d.failed
      ensures sent == old(sent) + payload <==> Delivers(accepts, |payload|, old(sends))
      ensures exists k: nat :: k <= |payload| && sent == old(sent) + payload[..k]
      ensures Progresses() ==> !failed && sent == old(sent) + payload
      ensures Reliable() ==> !failed
    {
      hide Delivers;
      hide Deliver;
      hide AlwaysAccepts;
      hide NeverFails;
      ghost var all := Deliver(accepts, |payload|, sends);
      DeliversAll(accepts, |payload|, sends);
      AlwaysDelivers(accepts, |payload|, sends);
      SameBehind(sent, payload[..all.count], payload);
      failed := SendLoop(payload);
    }

    /**
     handle_connection: it answers the requests of the stream in order, up to and including
     the first that closes the connection.  The peer receives exactly the concatenated
     replies if and only if every send that is made accepts something; in any case it
     receives of each reply, in order, the first bytes (as many as cuts says), and none is
     skipped unless a send fails.
     */
    method HandleConnection(respond: Request -> string) returns (ghost cuts: seq<nat>)
      requires HeadsFit(Stream())
      modifies this
      ensures var answered := Answered(Drain(old(Stream())).requests);
              && sent == old(sent) + Conversation(accepts, respond, answered, old(sends))
              && (sent == old(sent) + Replies(respond, answered)
                  <==> AllDelivered(accepts, respond, answered, old(sends)))
      ensures Progresses() ==>
                sent == old(sent) + Replies(respond, Answered(Drain(old(Stream())).requests))
      ensures var answered := Answered(Drain(old(Stream())).requests);
              && |cuts| <= |answered| && (Reliable() ==> |cuts| == |answered|)
              && sent == old(sent) + CutReplies(respond, answered[..|cuts|], cuts)
    {
      hide *;
      ghost var all, done: seq<Request> := Rest(Stream()), [];
      cuts := [];
      RestIs(Stream());
      ConversationEnds(accepts, respond, sends);
      NothingSent(respond);
      var more := true;
      while more
        invariant HeadsFit(Stream()) && |cuts| == |done|
        invariant if more then all == done + Rest(Stream()) else done <= all && (Reliable() ==> all == done)
        invariant sent == old(sent) + CutReplies(respond, done, cuts)
        invariant Progresses() ==> sent == old(sent) + Replies(respond, done)
        invariant old(sent) + Conversation(accepts, respond, all, old(sends)) ==
                  sent + if more then Conversation(accepts, respond, Rest(Stream()), sends) else ""
        decreases |Stream()| + if more then 1 else 0
      {
        ghost var stream, before := Stream(), sent;
        RestStep(stream);
        ghost var first := sends;
        ConversationEnds(accepts, respond, first);
        ghost var answered, k;
        more, answered, k := ServeNext(respond);
        if answered.Some? {
          CutSnoc(respond, done, cuts, answered.value, k);
          RepliesSnoc(respond, done, answered.value);
          ConversationTurn(accepts, respond, answered.value, Rest(Stream()), first, before);
          OneMoreDone(done, answered.value, if KeepAlive(answered.value) then Rest(Stream()) else []);
          Behind(old(sent), CutReplies(respond, done, cuts), respond(answered.value)[..k]);
          Behind(old(sent), Replies(respond, done), respond(answered.value)[..k]);
          cuts, done := cuts + [k], done + [answered.value];
        }
      }
      assert done == all[..|cuts|];
      ProgressIsReliable();
      CompleteIffAllDelivered(accepts, respond, all, old(sends));
      SameBehind(old(sent), Conversation(accepts, respond, all, old(sends)), Replies(respond, all));
    }

    lemma ProgressIsReliable()
      ensures Progresses() ==> Reliable()
    {
    }

    /** One turn of the loop: the next request is answered, if there is one. */
    method ServeNext(respond: Request -> string) returns (more: bool, ghost answered: Option<Request>, ghost k: nat)
      requires HeadsFit(Stream())
      modifies this
      ensures var stream := old(Stream()); var p := TryParse(stream);
              if p.None? then !more && answered == None && Stream() == stream && sent == old(sent)
              else
                && answered == Some(p.value.request) && 0 < p.value.consumed <= |stream|
                && Stream() == stream[p.value.consumed..]
                && k <= |respond(p.value.request)| && sent == old(sent) + respond(p.value.request)[..k]
                && (Progresses() ==> k == |respond(p.value.request)|)
                && k == Deliver(accepts, |respond(p.value.request)|, old(sends)).count
                && sends == Deliver(accepts, |respond(p.value.request)|, old(sends)).next
                && more == (!Deliver(accepts, |respond(p.value.request)|, old(sends)).failed
                            && KeepAlive(p.value.request))
                && (more ==> KeepAlive(p.value.request))
                && (Reliable() ==> more == KeepAlive(p.value.request))
    {
      hide TryParse;
      hide HeadsFit;
      hide KeepAlive;
      k := 0;
      ghost var before := sent;
      var request := ReadRequest();
      if request.None? { return false, None, 0; }
      var r := request.value;
      var failed := WriteAll(respond(r));
      k := Deliver(accepts, |respond(r)|, old(sends)).count;
      assert Progresses() ==> |sent| == |before| + |respond(r)|;
      more, answered := !failed && KeepAlive(r), Some(r);
    }
  }

  /** The requests of a stream that will be answered. */
  function Rest(stream: string): seq<Request> { Answered(Drain(stream).requests) }

  lemma RestIs(stream: string)
    ensures Rest(stream) == Answered(Drain(stream).requests)
  {
  }

  lemma RestStep(stream: string)
    requires HeadsFit(stream)
    ensures var p := TryParse(stream);
            if p.None? then Rest(stream) == []
            else 0 < p.value.consumed <= |stream| ==>
              && HeadsFit(stream[p.value.consumed..])
              && Rest(stream) ==
                 [p.value.request] + if KeepAlive(p.value.request) then Rest(stream[p.value.consumed..]) else []
  {
    hide TryParse;
    hide Fits;
    hide KeepAlive;
  }

  lemma SameBehind(before: string, a: string, b: string)
    ensures before + a == before + b <==> a == b
  {
    if before + a == before + b {
      assert a == (before + a)[|before|..] == (before + b)[|before|..] == b;
    }
  }

  lemma OneMoreDone<T>(done: seq<T>, r: T, rest: seq<T>)
    ensures done + ([r] + rest) == (done + [r]) + rest && done + [r] <= done + ([r] + rest)
    ensures rest == [] ==> done + ([r] + rest) == done + [r]
  {
  }

  lemma Behind<T>(before: seq<T>, a: seq<T>, b: seq<T>)
    ensures (before + a) + b == before + (a + b)
  {
  }

  lemma ConversationEnds(accepts: nat -> SendOutcome, respond: Request -> string, i: nat)
    ensures Conversation(accepts, respond, [], i) == ""
  {
  }

  /** One turn of the conversation, behind the bytes sent before. */
  lemma ConversationTurn(accepts: nat -> SendOutcome, respond: Request -> string, r: Request, rest: seq<Request>,
                         i: nat, before: string)
    ensures var d := Deliver(accepts, |respond(r)|, i);
            before + Conversation(accepts, respond, [r] + if KeepAlive(r) then rest else [], i) ==
               (before + respond(r)[..d.count])
               + if !d.failed && KeepAlive(r) then Conversation(accepts, respond, rest, d.next) else ""
  {
    hide KeepAlive;
    var tail := if KeepAlive(r) then rest else [];
    assert ([r] + tail)[1..] == tail;
  }

  lemma NothingSent(respond: Request -> string)
    ensures CutReplies(respond, [], []) == "" && Replies(respond, []) == ""
  {
  }

  lemma {:induction false} RepliesSnoc(respond: Request -> string, requests: seq<Request>, r: Request)
    ensures Replies(respond, requests + [r]) == Replies(respond, requests) + respond(r)
  {
    if requests == [] {
      assert [r][1..] == [] && requests + [r] == [r];
    } else {
      assert (requests + [r])[1..] == requests[1..] + [r];
      RepliesSnoc(respond, requests[1..], r);
    }
  }

  /** The first cuts[i] bytes of the i-th reply, one after the other. */
  function CutReplies(respond: Request -> string, requests: seq<Request>, cuts: seq<nat>): string
    requires |cuts| == |requests|
  {
    if cuts == [] then ""
    else
      var n := |cuts| - 1;
      CutReplies(respond, requests[..n], cuts[..n])
      + if cuts[n] <= |respond(requests[n])| then respond(requests[n])[..cuts[n]] else respond(requests[n])
  }

  lemma CutSnoc(respond: Request -> string, requests: seq<Request>, cuts: seq<nat>, r: Request, k: nat)
    requires |cuts| == |requests| && k <= |respond(r)|
    ensures CutReplies(respond, requests + [r], cuts + [k]) == CutReplies(respond, requests, cuts) + respond(r)[..k]
  {
    assert (requests + [r])[..|requests|] == requests && (cuts + [k])[..|cuts|] == cuts;
  }

  // -------------------------------------------------------------- a length that wraps

  /**
   When head and declared body add up to exactly 2^64, the parser reports success without
   taking a byte: the loop would answer the same request for ever.  The hypothesis that
   heads fit is what progress needs.
   */
  lemma WrapTakesNothing(buffer: string)
    requires HasHead(buffer) && MessageEnd(buffer) == WORD
    ensures TryParse(buffer).Some? && TryParse(buffer).value.consumed == 0
  {
    hide ReadHead;
  }

  /** Such a head exists: a Content-Length chosen so that the message would end at 2^64. */
  lemma WrapHappens()
    ensures var text := RequestText("GET", "/", "HTTP/1.1", [LengthField(WORD - 56)], "");
            HasHead(text) && MessageEnd(text) == WORD
  {
    hide NatText;
    hide Stoul;
    hide ReadHead;
    var n: nat := WORD - 56;
    var f := LengthField(n);
    LengthFieldReads(n);
    TwentyDigits(n);
    assert FieldMap(map[], [f]) == map["content-length" := f.value] by { assert [f][1..] == []; }
    assert Flat(FieldLines([f])) == FieldLine(f) + CRLF by { assert FieldLines([f])[1..] == []; }
    var text := RequestText("GET", "/", "HTTP/1.1", [f], "");
    assert text + "" == text;
    hide FieldMap;
    ReadHeadInverts("GET", "/", "HTTP/1.1", [f], "", "");
  }

  lemma TwentyDigits(n: nat)
    requires 1000_0000_0000_0000_0000 <= n < WORD
    ensures |NatText(n)| == 20
  {
    hide NatText;
    Pow10Of20();
    NatTextLength(n, 20);
    NatTextLengthAtLeast(n, 19);
  }

  lemma ProgressIffFits(buffer: string)
    requires TryParse(buffer).Some? && |buffer| < WORD
    ensures TryParse(buffer).value.consumed >= ReadHead(buffer).value.end + 4 <==> Fits(buffer)
  {
    hide ReadHead;
  }
}
