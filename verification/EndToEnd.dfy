/**
 The benchmark client against the server: the client writes the same request n times on
 one connection, the stream is cut into any chunks, and the client splits what comes back.
 */
module EndToEnd {
  import opened Basics
  import opened HttpParse
  import opened HttpConnection
  import opened HttpResponse
  import W = WebBench

  /** An HTTP/1.x request of the client that the server can read back. */
  predicate Sendable(c: W.Choice, url: string) {
    && W.ValidUrl(url) && W.PlainUrl(c, url)
    && c.version <= 2 && W.Version(c) > 0 && (c.proxy || |W.Host(url)| < W.MAX_HOST)
  }

  /** The request as the client writes it. */
  function Sent(c: W.Choice, url: string): string
    requires Sendable(c, url)
  {
    W.Printed(c, url)
  }

  /** The request as the server reads it. */
  function Received(c: W.Choice, url: string): Request
    requires Sendable(c, url)
  {
    Request(W.VerbText(c.verb), StripQuery(W.Target(c, url)), W.VersionText(W.Version(c)),
            W.ReadFields(c, W.Host(url)), "")
  }

  function Repeated(text: string, n: nat): string {
    if n == 0 then "" else text + Repeated(text, n - 1)
  }

  function Copies<T>(x: T, n: nat): (r: seq<T>)
    ensures |r| == n && forall i | 0 <= i < n :: r[i] == x
  {
    seq(n, _ => x)
  }

  lemma HeadFits(c: W.Choice, url: string, rest: string)
    requires Sendable(c, url)
    ensures Fits(Sent(c, url) + rest) && 0 < |Sent(c, url)|
  {
    hide ReadHead;
    W.ServerReadsHead(c, url, rest);
  }

  lemma NothingToRead(r: Request)
    ensures HeadsFit("") && Drain("") == Served(Copies(r, 0), "")
  {
    hide TryParse;
    hide Fits;
    EmptyStream();
  }

  lemma OneMoreCopy<T>(x: T, n: nat)
    ensures Copies(x, n + 1) == [x] + Copies(x, n)
  {
  }

  lemma RepeatedOnce(text: string, n: nat)
    ensures Repeated(text, n + 1) == text + Repeated(text, n) && Repeated(text, 0) == ""
  {
  }

  /** The stream of n requests contains exactly n copies of what was meant, and nothing else. */
  lemma {:induction false} StreamIsRead(c: W.Choice, url: string, n: nat)
    requires Sendable(c, url)
    ensures var stream := Repeated(Sent(c, url), n);
            HeadsFit(stream) && Drain(stream) == Served(Copies(Received(c, url), n), "")
    decreases n
  {
    hide *;
    if n == 0 {
      RepeatedOnce(Sent(c, url), 0);
      NothingToRead(Received(c, url));
    } else {
      var rest := Repeated(Sent(c, url), n - 1);
      RepeatedOnce(Sent(c, url), n - 1);
      ReadOne(c, url, rest);
      HeadFits(c, url, rest);
      StreamIsRead(c, url, n - 1);
      DrainOne(Sent(c, url), rest, Received(c, url));
      OneMoreCopy(Received(c, url), n - 1);
    }
  }

  lemma ReadOne(c: W.Choice, url: string, rest: string)
    requires Sendable(c, url)
    ensures TryParse(Sent(c, url) + rest) == Some(Parsed(Received(c, url), |Sent(c, url)|))
  {
    hide TryParse;
    W.ServerReadsRequest(c, url, rest);
  }

  /** All n are answered if the connection is kept, and otherwise only the first. */
  function AnsweredCount(c: W.Choice, n: nat): nat {
    if W.Version(c) == 2 && c.keep then n else if n == 0 then 0 else 1
  }

  lemma {:induction false} CopiesAnswered(r: Request, n: nat)
    ensures Answered(Copies(r, n)) == Copies(r, if KeepAlive(r) then n else if n == 0 then 0 else 1)
    decreases n
  {
    hide KeepAlive;
    if n > 0 {
      assert Copies(r, n)[1..] == Copies(r, n - 1);
      CopiesAnswered(r, n - 1);
    }
  }

  /**
   However the n requests are cut into chunks, the replies of a server whose client does not
   ask for HEAD split into one message per answered request, each with the body built for it.
   */
  lemma ClientGetsItsAnswers(c: W.Choice, url: string, n: nat, chunks: seq<string>, lookup: string -> Lookup)
    requires Sendable(c, url) && c.verb != W.Verb.Head && Servable(lookup)
    requires Concat(chunks) == Repeated(Sent(c, url), n)
    ensures var requests := ReadAll("", chunks).requests;
            && requests == Copies(Received(c, url), n)
            && SplitAll(Replies(Respond(lookup), Answered(requests)))
               == Messages(Copies(BuildResponse(Received(c, url), lookup), AnsweredCount(c, n)))
  {
    hide Sendable;
    hide KeepAlive;
    hide BuildResponse;
    hide Sent;
    var r, k := Received(c, url), AnsweredCount(c, n);
    StreamIsRead(c, url, n);
    assert "" + Concat(chunks) == Concat(chunks);
    ChunkingIsIrrelevant("", chunks);
    CopiesAnswered(r, n);
    ReceivedKeeps(c, url);
    NotHead(c, url);
    ClientReadsResponses(Copies(r, n), lookup);
    assert Responses(Copies(r, k), lookup) == Copies(BuildResponse(r, lookup), k);
  }

  /**
   The conversation itself: whatever the chunks, and however the sends split the replies,
   the client can split what it has received, if every send that was made accepted something.
   */
  method Converse(c: W.Choice, url: string, n: nat, chunks: seq<string>, accepts: nat -> SendOutcome,
                  lookup: string -> Lookup)
    returns (received: string)
    requires Sendable(c, url) && c.verb != W.Verb.Head && Servable(lookup)
    requires Concat(chunks) == Repeated(Sent(c, url), n)
    ensures AllDelivered(accepts, Respond(lookup), Copies(Received(c, url), AnsweredCount(c, n)), 0) ==>
              SplitAll(received) == Messages(Copies(BuildResponse(Received(c, url), lookup), AnsweredCount(c, n)))
  {
    hide Sendable;
    hide Servable;
    hide Sent;
    hide Received;
    hide AnsweredCount;
    hide Drain;
    hide HeadsFit;
    hide Answered;
    hide AllDelivered;
    hide Conversation;
    hide SplitAll;
    hide Replies;
    hide CutReplies;
    hide Copies;
    hide BuildResponse;
    hide Respond;
    hide Messages;
    var connection := new Connection(chunks, accepts);
    StreamIsRead(c, url, n);
    AnsweredCopies(c, url, n);
    assert connection.Stream() == Concat(chunks);
    ghost var cuts := connection.HandleConnection(Respond(lookup));
    received := connection.sent;
    NothingBefore(Replies(Respond(lookup), Answered(Copies(Received(c, url), n))));
    ClientGetsItsAnswers(c, url, n, chunks, lookup);
  }

  lemma NothingBefore(s: string)
    ensures "" + s == s
  {
  }

  lemma AnsweredCopies(c: W.Choice, url: string, n: nat)
    requires Sendable(c, url)
    ensures Answered(Copies(Received(c, url), n)) == Copies(Received(c, url), AnsweredCount(c, n))
  {
    hide KeepAlive;
    ReceivedKeeps(c, url);
    hide Sendable;
    hide Received;
    var r := Received(c, url);
    CopiesAnswered(r, n);
    var k := if KeepAlive(r) then n else if n == 0 then 0 else 1;
    assert k == AnsweredCount(c, n);
    assert Answered(Copies(r, n)) == Copies(r, k);
  }

  lemma ReceivedKeeps(c: W.Choice, url: string)
    requires Sendable(c, url)
    ensures KeepAlive(Received(c, url)) <==> W.Version(c) == 2 && c.keep
  {
    hide KeepAlive;
    W.KeepsOpen(c, W.Host(url), W.VerbText(c.verb), StripQuery(W.Target(c, url)));
  }

  lemma NotHead(c: W.Choice, url: string)
    requires Sendable(c, url) && c.verb != W.Verb.Head
    ensures Received(c, url).verb != "HEAD" && |Received(c, url).body| < WORD
  {
    assert |"HEAD"| == 4 && |"GET"| == 3 && |"OPTIONS"| == 7 && |"TRACE"| == 5;
  }
}
