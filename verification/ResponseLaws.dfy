/**
 What a client reads for each kind of request.  The laws are about the printed response:
 its first line, its media type, and the bytes behind its head.
 */
module ResponseLaws {
  import opened Basics
  import opened Text
  import opened Decimal
  import opened HttpParse
  import opened HttpHead
  import opened HttpConnection
  import opened HttpResponse

  /**
   The stream starts with one message: this first line, this media type, the server's name,
   this body; and behind it comes the rest.
   */
  predicate Reads(stream: string, line: string, media: string, body: string, rest: string) {
    && SplitFirst(stream).Some?
    && var m := SplitFirst(stream).value;
    && m.body == body && stream == m.head + body + rest && line + CRLF <= m.head
    && var fields := Headers(m.head[..|m.head| - 2], |line| + 2, map[]);
       Names(fields, "content-type", media) && Names(fields, "server", "CoroutineWebServer")
  }

  predicate Names(fields: map<string, string>, key: string, value: string) { key in fields && fields[key] == value }

  lemma Lowered()
    ensures ToLower("Server") == "server" && ToLower("Connection") == "connection"
    ensures ToLower("Content-Type") == "content-type"
    ensures |"server"| == 6 && |"connection"| == 10 && |"content-type"| == 12
  {
    hide ToLower;
    LowerIs("Server", "server");
    LowerIs("Connection", "connection");
    LowerIs("Content-Type", "content-type");
  }

  lemma FieldsName(request: Request, media: string, n: nat)
    ensures var fields := FieldMap(map[], Fields(request, media) + [LengthField(n)]);
            Names(fields, "content-type", media) && Names(fields, "server", "CoroutineWebServer")
  {
    hide ToLower;
    hide FieldMap;
    hide KeepAlive;
    hide LengthField;
    Lowered();
    var fields := Fields(request, media);
    assert fields + [LengthField(n)] == [] + [fields[0]] + (fields[1..] + [LengthField(n)]);
    FirstCounts(map[], [], fields[0], fields[1..] + [LengthField(n)], "server");
    assert fields + [LengthField(n)] == fields[..2] + [fields[2]] + [LengthField(n)];
    assert fields[..2] == [fields[0], fields[1]];
    FirstCounts(map[], fields[..2], fields[2], [LengthField(n)], "content-type");
  }

  /** A framed response with the server's fields is read as its parts. */
  lemma FramedReads(r: Response, request: Request, media: string, line: string, rest: string)
    requires Framed(r) && r.headers == Fields(request, media) && StatusLine(r) == line
    ensures Reads(ToWire(r) + rest, line, media, r.body, rest)
  {
    hide *;
    FirstSplits(r, rest);
    LengthPrinted(r);
    FieldsName(request, media, |r.body|);
    HeadReads(r, rest);
    ReadsIs(ToWire(r) + rest, line, media, r.body, rest, HeadText(r), FieldMap(map[], Printed(r)));
  }

  lemma LengthPrinted(r: Response)
    requires Framed(r)
    ensures Printed(r) == r.headers + [LengthField(|r.body|)]
  {
    hide IsLength;
  }

  lemma HeadReads(r: Response, rest: string)
    requires Framed(r)
    ensures var head, line := HeadText(r), StatusLine(r);
            && |head| >= 4 && ToWire(r) + rest == head + r.body + rest && line + CRLF <= head
            && Headers(head[..|head| - 2], |line| + 2, map[]) == FieldMap(map[], Printed(r))
  {
    hide FindFrom;
    hide Headers;
    hide FieldMap;
    hide Flat;
    hide LengthField;
    hide Stoul;
    LengthFieldReads(|r.body|);
    LengthPrinted(r);
    StatusLineIsClean(r);
    hide StatusLine;
    hide Printed;
    var fields, line := Printed(r), StatusLine(r);
    HeadInverts(line, fields, "");
    hide FieldLines;
    var text := line + CRLF + Flat(FieldLines(fields)) + CRLF + "";
    assert text == HeadText(r);
  }

  lemma ReadsIs(stream: string, line: string, media: string, body: string, rest: string, head: string,
                fields: map<string, string>)
    requires SplitFirst(stream) == Some(Message(head, body)) && stream == head + body + rest && line + CRLF <= head
    requires |head| >= 4 && Headers(head[..|head| - 2], |line| + 2, map[]) == fields
    requires Names(fields, "content-type", media) && Names(fields, "server", "CoroutineWebServer")
    ensures Reads(stream, line, media, body, rest)
  {
    hide SplitFirst;
    hide Headers;
    hide Names;
  }

  lemma StatusLines(r: Response)
    ensures r.status == 200 && r.reason == "OK" ==> StatusLine(r) == "HTTP/1.1 200 OK"
    ensures r.status == 400 && r.reason == "Bad Request" ==> StatusLine(r) == "HTTP/1.1 400 Bad Request"
    ensures r.status == 404 && r.reason == "Not Found" ==> StatusLine(r) == "HTTP/1.1 404 Not Found"
  {
    NumberTexts();
    hide NatText;
  }

  lemma NumberTexts()
    ensures NatText(200) == "200" && NatText(400) == "400" && NatText(404) == "404"
  {
    assert NatText(2) == "2" && NatText(4) == "4";
    assert NatText(20) == "20" && NatText(40) == "40";
  }

  /** An answer to a request that is no HEAD: what the wire must say, given how the response was built. */
  lemma AnswerReads(request: Request, lookup: string -> Lookup, media: string, line: string, rest: string)
    requires request.verb != "HEAD" && |request.body| < WORD && Servable(lookup)
    requires BuildResponse(request, lookup).headers == Fields(request, media)
    requires StatusLine(BuildResponse(request, lookup)) == line
    ensures Reads(ToWire(BuildResponse(request, lookup)) + rest, line, media, BuildResponse(request, lookup).body, rest)
  {
    hide *;
    BuildIsFramed(request, lookup);
    FramedReads(BuildResponse(request, lookup), request, media, line, rest);
  }

  /** POST: the body comes back. */
  lemma PostEchoes(request: Request, lookup: string -> Lookup, rest: string)
    requires request.verb == "POST" && |request.body| < WORD && Servable(lookup)
    ensures Reads(ToWire(BuildResponse(request, lookup)) + rest, "HTTP/1.1 200 OK", "text/plain; charset=utf-8",
                  request.body, rest)
  {
    hide Reads;
    hide StatusLine;
    hide ToWire;
    hide Fields;
    hide Servable;
    assert |"POST"| == 4 && "POST"[0] != "HEAD"[0];
    StatusLines(BuildResponse(request, lookup));
    AnswerReads(request, lookup, PLAIN, "HTTP/1.1 200 OK", rest);
  }

  /** The greeting has its own target. */
  lemma HelloGreets(request: Request, lookup: string -> Lookup, rest: string)
    requires request.verb != "POST" && request.verb != "HEAD" && request.target == "/hello"
    requires |request.body| < WORD && Servable(lookup)
    ensures Reads(ToWire(BuildResponse(request, lookup)) + rest, "HTTP/1.1 200 OK", "text/plain; charset=utf-8",
                  "Hello from CoroutineWebServer\n", rest)
  {
    hide Reads;
    hide StatusLine;
    hide ToWire;
    hide Fields;
    hide Servable;
    StatusLines(BuildResponse(request, lookup));
    AnswerReads(request, lookup, PLAIN, "HTTP/1.1 200 OK", rest);
  }

  /** A file that is found comes with its content and its media type. */
  lemma FileIsServed(request: Request, lookup: string -> Lookup, content: string, media: string, rest: string)
    requires request.verb != "POST" && request.verb != "HEAD" && request.target != "/hello"
    requires lookup(request.target) == File(content, media) && |request.body| < WORD && Servable(lookup)
    ensures Reads(ToWire(BuildResponse(request, lookup)) + rest, "HTTP/1.1 200 OK", media, content, rest)
  {
    hide Reads;
    hide StatusLine;
    hide ToWire;
    hide Fields;
    hide Servable;
    StatusLines(BuildResponse(request, lookup));
    AnswerReads(request, lookup, media, "HTTP/1.1 200 OK", rest);
  }

  /** A file that is missing is 404, except the icon that browsers ask for. */
  lemma MissingIsNotFound(request: Request, lookup: string -> Lookup, rest: string)
    requires request.verb != "POST" && request.verb != "HEAD" && request.target != "/hello"
    requires lookup(request.target) == Missing && |request.body| < WORD && Servable(lookup)
    ensures request.target != "/favicon.ico" ==>
              Reads(ToWire(BuildResponse(request, lookup)) + rest, "HTTP/1.1 404 Not Found",
                    "text/plain; charset=utf-8", "Not Found\n", rest)
    ensures request.target == "/favicon.ico" ==>
              Reads(ToWire(BuildResponse(request, lookup)) + rest, "HTTP/1.1 200 OK",
                    "text/plain; charset=utf-8", "favicon", rest)
  {
    hide Reads;
    hide StatusLine;
    hide ToWire;
    hide Fields;
    hide Servable;
    StatusLines(BuildResponse(request, lookup));
    if request.target == "/favicon.ico" {
      AnswerReads(request, lookup, PLAIN, "HTTP/1.1 200 OK", rest);
    } else {
      AnswerReads(request, lookup, PLAIN, "HTTP/1.1 404 Not Found", rest);
    }
  }

  /** A path that is refused is 400. */
  lemma RefusedIsBadRequest(request: Request, lookup: string -> Lookup, rest: string)
    requires request.verb != "POST" && request.verb != "HEAD" && request.target != "/hello"
    requires lookup(request.target) == Refused && |request.body| < WORD && Servable(lookup)
    ensures Reads(ToWire(BuildResponse(request, lookup)) + rest, "HTTP/1.1 400 Bad Request",
                  "text/plain; charset=utf-8", "Bad Request\n", rest)
  {
    hide Reads;
    hide StatusLine;
    hide ToWire;
    hide Fields;
    hide Servable;
    StatusLines(BuildResponse(request, lookup));
    AnswerReads(request, lookup, PLAIN, "HTTP/1.1 400 Bad Request", rest);
  }

  /** HEAD: the very head that GET would bring, and no body. */
  lemma HeadIsHeadOfGet(request: Request, lookup: string -> Lookup, rest: string)
    requires |request.body| < WORD && Servable(lookup)
    ensures var get, head := request.(verb := "GET"), request.(verb := "HEAD");
            var m := SplitFirst(ToWire(BuildResponse(get, lookup)) + rest);
            m.Some? && ToWire(BuildResponse(head, lookup)) == m.value.head
  {
    var get, head := request.(verb := "GET"), request.(verb := "HEAD");
    assert |"GET"| == 3 && |"HEAD"| == 4 && |"POST"| == 4 && "POST"[0] != "HEAD"[0];
    SameHead(request, lookup);
    BuildIsFramed(get, lookup);
    hide *;
    FirstSplits(BuildResponse(get, lookup), rest);
    HeadOnly(BuildResponse(get, lookup));
  }

  lemma SameHead(request: Request, lookup: string -> Lookup)
    ensures var get, head := request.(verb := "GET"), request.(verb := "HEAD");
            BuildResponse(head, lookup) == BuildResponse(get, lookup).(headOnly := true)
  {
    var get, head := request.(verb := "GET"), request.(verb := "HEAD");
    assert |"GET"| == 3 && |"HEAD"| == 4 && |"POST"| == 4 && "POST"[0] != "HEAD"[0];
    hide ToLower;
    hide FindFrom;
    assert KeepAlive(get) == KeepAlive(head);
    hide KeepAlive;
  }

  lemma HeadOnly(r: Response)
    ensures ToWire(r.(headOnly := true)) == HeadText(r)
  {
    hide IsLength;
    hide NatText;
  }

  /** A response that names its own length is printed with that; any other gets one line more, behind its fields. */
  lemma LengthOnlyIfMissing(r: Response)
    ensures (exists i :: 0 <= i < |r.headers| && ToLower(r.headers[i].name) == "content-length") ==>
              HeadText(r) == StatusLine(r) + "\r\n" + Flat(FieldLines(r.headers)) + "\r\n"
    ensures (forall i | 0 <= i < |r.headers| :: ToLower(r.headers[i].name) != "content-length") ==>
              HeadText(r) == StatusLine(r) + "\r\n" + Flat(FieldLines(r.headers))
                             + ("Content-Length: " + NatText(|r.body|) + "\r\n") + "\r\n"
  {
    hide ToLower;
    hide Flat;
    hide FieldLines;
    hide StatusLine;
    hide NatText;
    if forall i | 0 <= i < |r.headers| :: !IsLength(r.headers[i]) { LengthPrints(r); }
  }
}
