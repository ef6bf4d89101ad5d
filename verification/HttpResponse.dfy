/**
 Responses: how one is built for a request, how it is printed, and that a stream of
 printed responses can be split again.  The file system is a parameter.
 */
module HttpResponse {
  import opened Basics
  import opened Text
  import opened Decimal
  import opened HttpParse
  import opened HttpHead
  import opened HttpConnection

  datatype Response = Response(status: nat, reason: string, headers: seq<Field>, body: string, headOnly: bool)

  /** What a target stands for: a path that is refused, no such file, or a file and its media type. */
  datatype Lookup = Refused | Missing | File(content: string, media: string)

  const PLAIN := "text/plain; charset=utf-8"

  function Fields(request: Request, media: string): seq<Field> {
    [Field("Server", "CoroutineWebServer"),
     Field("Connection", if KeepAlive(request) then "keep-alive" else "close"),
     Field("Content-Type", media)]
  }

  /** build_response. */
  function BuildResponse(request: Request, lookup: string -> Lookup): Response {
    var headOnly := request.verb == "HEAD";
    if request.verb == "POST" then Response(200, "OK", Fields(request, PLAIN), request.body, headOnly)
    else if request.target == "/hello" then
      Response(200, "OK", Fields(request, PLAIN), "Hello from CoroutineWebServer\n", headOnly)
    else
      match lookup(request.target)
      case Refused => Response(400, "Bad Request", Fields(request, PLAIN), "Bad Request\n", headOnly)
      case Missing =>
        if request.target == "/favicon.ico" then Response(200, "OK", Fields(request, PLAIN), "favicon", headOnly)
        else Response(404, "Not Found", Fields(request, PLAIN), "Not Found\n", headOnly)
      case File(content, media) => Response(200, "OK", Fields(request, media), content, headOnly)
  }

  predicate IsLength(f: Field) { ToLower(f.name) == "content-length" }

  /** The fields that are printed: a Content-Length is added unless one is there. */
  function Printed(r: Response): seq<Field> {
    if exists i :: 0 <= i < |r.headers| && IsLength(r.headers[i]) then r.headers
    else r.headers + [LengthField(|r.body|)]
  }

  function StatusLine(r: Response): string {
    "HTTP/1.1 " + NatText(r.status) + " " + r.reason
  }

  function HeadText(r: Response): string {
    StatusLine(r) + CRLF + Flat(FieldLines(Printed(r))) + CRLF
  }

  /** to_wire. */
  function ToWire(r: Response): string {
    HeadText(r) + if r.headOnly then "" else r.body
  }

  lemma LengthPrints(r: Response)
    requires !exists j :: 0 <= j < |r.headers| && IsLength(r.headers[j])
    ensures Flat(FieldLines(Printed(r))) ==
            Flat(FieldLines(r.headers)) + ("Content-Length: " + NatText(|r.body|) + CRLF)
  {
    hide NatText;
    hide ToLower;
    FieldAppended(r.headers, LengthField(|r.body|));
  }

  /** The loop of to_wire: one pass over the headers that appends and looks for a length. */
  method PrintFields(fields: seq<Field>, first: string) returns (wire: string, hasLength: bool)
    ensures wire == first + Flat(FieldLines(fields))
    ensures hasLength == exists i :: 0 <= i < |fields| && IsLength(fields[i])
  {
    hide ToLower;
    hide Flat;
    hide FieldLines;
    wire, hasLength := first, false;
    NoFields();
    assert fields[..0] == [];
    for i := 0 to |fields|
      invariant wire == first + Flat(FieldLines(fields[..i]))
      invariant hasLength == exists j :: 0 <= j < i && IsLength(fields[j])
    {
      if ToLower(fields[i].name) == "content-length" { hasLength := true; }
      wire := wire + (fields[i].name + ": " + fields[i].value + CRLF);
      FieldAppended(fields[..i], fields[i]);
      assert fields[..i + 1] == fields[..i] + [fields[i]];
    }
    assert fields[..|fields|] == fields;
  }

  /** to_wire as written. */
  method ToWireLoop(r: Response) returns (wire: string)
    ensures wire == ToWire(r)
  {
    hide NatText;
    hide IsLength;
    hide Flat;
    hide FieldLines;
    var hasLength;
    wire := "HTTP/1.1 " + NatText(r.status) + " " + r.reason + CRLF;
    wire, hasLength := PrintFields(r.headers, wire);
    if !hasLength {
      wire := wire + ("Content-Length: " + NatText(|r.body|) + CRLF);
      LengthPrints(r);
    }
    wire := wire + CRLF;
    if !r.headOnly { wire := wire + r.body; }
  }

  // ------------------------------------------------------------------ splitting

  datatype Message = Message(head: string, body: string)

  /**
   A recipient's reading of section 6.3 of RFC 9112: the head ends with the first blank
   line, and the Content-Length field says how many bytes of body follow.
   */
  function SplitFirst(stream: string): (r: Option<Message>)
    ensures r.Some? ==> 0 < |r.value.head| && |r.value.head| + |r.value.body| <= |stream|
  {
    var end := FindFrom(stream, BLANK_LINE, 0);
    if end.None? then None
    else
      var head := stream[..end.value + 2];
      var first := FindFrom(head, CRLF, 0);
      if first.None? then None
      else
        var headers := Headers(head, first.value + 2, map[]);
        if "content-length" !in headers || Stoul(headers["content-length"]).None? then None
        else
          var begin, length := end.value + 4, Stoul(headers["content-length"]).value;
          if |stream| < begin + length then None
          else Some(Message(stream[..begin], stream[begin..begin + length]))
  }

  function SplitAll(stream: string): seq<Message>
    decreases |stream|
  {
    var m := SplitFirst(stream);
    if m.None? then []
    else [m.value] + SplitAll(stream[|m.value.head| + |m.value.body|..])
  }

  /** What build_response guarantees and framing needs: clean fields, none of them a length. */
  predicate Framed(r: Response) {
    && !r.headOnly && '\r' !in r.reason && CleanFields(r.headers) && |r.body| < WORD
    && forall i | 0 <= i < |r.headers| :: !IsLength(r.headers[i])
  }

  lemma {:induction false} LengthIsLast(headers: map<string, string>, fields: seq<Field>, n: nat)
    requires forall i | 0 <= i < |fields| :: !IsLength(fields[i])
    requires "content-length" !in headers && n < WORD
    ensures var m := FieldMap(headers, fields + [LengthField(n)]);
            "content-length" in m && m["content-length"] == NatText(n)
    decreases |fields|
  {
    hide NatText;
    LengthFieldReads(n);
    var all := fields + [LengthField(n)];
    if fields == [] {
      assert all[1..] == [];
    } else {
      assert !IsLength(fields[0]);
      assert all[1..] == fields[1..] + [LengthField(n)];
      var key := ToLower(fields[0].name);
      LengthIsLast(if key in headers then headers else headers[key := fields[0].value], fields[1..], n);
    }
  }

  /** The first response of a stream splits off exactly. */
  lemma FirstSplits(r: Response, rest: string)
    requires Framed(r)
    ensures SplitFirst(ToWire(r) + rest) == Some(Message(HeadText(r), r.body))
  {
    hide FindFrom;
    hide Headers;
    hide FieldMap;
    hide Stoul;
    hide NatText;
    hide Flat;
    hide ToLower;
    var fields, n := Printed(r), |r.body|;
    LengthFieldReads(n);
    LengthIsLast(map[], r.headers, n);
    StatusLineIsClean(r);
    HeadInverts(StatusLine(r), fields, r.body + rest);
    hide FieldLines;
    hide StatusLine;
    WireText(r, rest);
  }

  /** Where head and body stand in the stream. */
  lemma WireText(r: Response, rest: string)
    requires !r.headOnly
    ensures var text := ToWire(r) + rest; var begin := |HeadText(r)|;
            && text == StatusLine(r) + CRLF + Flat(FieldLines(Printed(r))) + CRLF + (r.body + rest)
            && begin + |r.body| <= |text|
            && text[..begin] == HeadText(r) && text[begin..begin + |r.body|] == r.body
  {
    hide Flat;
    hide FieldLines;
    hide StatusLine;
    hide Printed;
  }

  lemma StatusLineIsClean(r: Response)
    requires '\r' !in r.reason
    ensures Clean(StatusLine(r))
  {
    var n := NatText(r.status);
    assert AllDigits(n);
    hide NatText;
    assert '\r' !in n && '\r' !in "HTTP/1.1 " && '\r' !in " ";
  }

  function Wires(rs: seq<Response>): string {
    if rs == [] then "" else ToWire(rs[0]) + Wires(rs[1..])
  }

  function Messages(rs: seq<Response>): (ms: seq<Message>)
    ensures |ms| == |rs| && forall i | 0 <= i < |rs| :: ms[i] == Message(HeadText(rs[i]), rs[i].body)
  {
    seq(|rs|, i requires 0 <= i < |rs| => Message(HeadText(rs[i]), rs[i].body))
  }

  /** Response framing is self-delimiting: the stream splits into the very heads and bodies printed. */
  lemma {:induction false} WiresSplit(rs: seq<Response>)
    requires forall i | 0 <= i < |rs| :: Framed(rs[i])
    ensures SplitAll(Wires(rs)) == Messages(rs)
    decreases |rs|
  {
    hide SplitFirst;
    hide ToWire;
    hide HeadText;
    if rs == [] {
      EmptySplits();
    } else {
      assert Framed(rs[0]);
      hide Framed;
      FirstSplits(rs[0], Wires(rs[1..]));
      WireLength(rs[0]);
      assert Wires(rs)[|HeadText(rs[0])| + |rs[0].body|..] == Wires(rs[1..]);
      WiresSplit(rs[1..]);
      assert Messages(rs) == [Message(HeadText(rs[0]), rs[0].body)] + Messages(rs[1..]);
    }
  }

  lemma EmptySplits()
    ensures SplitFirst("") == None
  {
  }

  lemma WireLength(r: Response)
    requires Framed(r)
    ensures |ToWire(r)| == |HeadText(r)| + |r.body|
  {
  }

  // ---------------------------------------------------------------- end to end

  /** Media types that can be printed in a header, and files that fit in memory. */
  ghost predicate Servable(lookup: string -> Lookup) {
    forall t: string :: lookup(t).File? ==>
      '\r' !in lookup(t).media && Trimmed(lookup(t).media) && |lookup(t).content| < WORD
  }

  lemma BuildIsFramed(request: Request, lookup: string -> Lookup)
    requires request.verb != "HEAD" && |request.body| < WORD && Servable(lookup)
    ensures Framed(BuildResponse(request, lookup))
  {
    hide KeepAlive;
    hide Fields;
    hide CleanFields;
    var r := BuildResponse(request, lookup);
    var media := if request.verb != "POST" && request.target != "/hello" && lookup(request.target).File?
                 then lookup(request.target).media else PLAIN;
    assert '\r' !in PLAIN && Trimmed(PLAIN);
    assert r.headers == Fields(request, media);
    FieldsAreFramed(request, media);
  }

  lemma FieldsAreFramed(request: Request, media: string)
    requires '\r' !in media && Trimmed(media)
    ensures CleanFields(Fields(request, media))
    ensures forall i | 0 <= i < |Fields(request, media)| :: !IsLength(Fields(request, media)[i])
  {
    hide KeepAlive;
    hide IsLength;
    hide CleanField;
    hide CleanFields;
    var fields := Fields(request, media);
    FieldIsFramed("Server", "CoroutineWebServer");
    FieldIsFramed("Connection", if KeepAlive(request) then "keep-alive" else "close");
    FieldIsFramed("Content-Type", media);
    ThreeFramed(fields);
  }

  lemma ThreeFramed(fields: seq<Field>)
    requires |fields| == 3 && CleanField(fields[0]) && CleanField(fields[1]) && CleanField(fields[2])
    requires !IsLength(fields[0]) && !IsLength(fields[1]) && !IsLength(fields[2])
    ensures CleanFields(fields) && forall i | 0 <= i < |fields| :: !IsLength(fields[i])
  {
    hide CleanField;
    hide IsLength;
  }

  lemma FieldIsFramed(name: string, value: string)
    requires 0 < |name| < 14 && ':' !in name && '\r' !in name && Trimmed(name)
    requires '\r' !in value && Trimmed(value)
    ensures CleanField(Field(name, value)) && !IsLength(Field(name, value))
  {
    assert |ToLower(name)| < 14 && |"content-length"| == 14;
  }

  lemma LowerNames()
    ensures ToLower("Server") == "server" && ToLower("Connection") == "connection"
  {
    hide ToLower;
    LowerIs("Server", "server");
    LowerIs("Connection", "connection");
  }

  /**
   The response tells the recipient what the server is about to do: its Connection field
   reads keep-alive exactly when the server goes on reading, and close otherwise.
   */
  lemma ResponseSaysWhetherItCloses(request: Request, lookup: string -> Lookup)
    ensures var headers := FieldMap(map[], Printed(BuildResponse(request, lookup)));
            "connection" in headers
            && headers["connection"] == if KeepAlive(request) then "keep-alive" else "close"
  {
    hide KeepAlive;
    hide ToLower;
    hide IsLength;
    var r := BuildResponse(request, lookup);
    var fields := Printed(r);
    var value := if KeepAlive(request) then "keep-alive" else "close";
    assert fields[0] == Field("Server", "CoroutineWebServer") && fields[1] == Field("Connection", value);
    hide BuildResponse;
    hide Printed;
    LowerNames();
    assert |"server"| == 6 && |"connection"| == 10;
    var m := map["server" := "CoroutineWebServer"]["connection" := value];
    assert fields[1..][0] == fields[1] && fields[1..][1..] == fields[2..];
    assert FieldMap(map[], fields) == FieldMap(m, fields[2..]);
    KeyStays(m, fields[2..], "connection");
  }

  function Respond(lookup: string -> Lookup): Request -> string {
    (request: Request) => ToWire(BuildResponse(request, lookup))
  }

  function Responses(requests: seq<Request>, lookup: string -> Lookup): (rs: seq<Response>)
    ensures |rs| == |requests| && forall i | 0 <= i < |rs| :: rs[i] == BuildResponse(requests[i], lookup)
  {
    seq(|requests|, i requires 0 <= i < |requests| => BuildResponse(requests[i], lookup))
  }

  lemma {:induction false} RepliesAreWires(requests: seq<Request>, lookup: string -> Lookup)
    ensures Replies(Respond(lookup), requests) == Wires(Responses(requests, lookup))
  {
    hide BuildResponse;
    hide ToWire;
    if requests != [] {
      assert Responses(requests, lookup)[1..] == Responses(requests[1..], lookup);
      RepliesAreWires(requests[1..], lookup);
    }
  }

  /**
   What a client that sends no HEAD reads from the connection: one message per answered
   request, in order, each with the body built for that request.
   */
  lemma ClientReadsResponses(requests: seq<Request>, lookup: string -> Lookup)
    requires Servable(lookup)
    requires forall i | 0 <= i < |requests| :: requests[i].verb != "HEAD" && |requests[i].body| < WORD
    ensures SplitAll(Replies(Respond(lookup), Answered(requests))) == Messages(Responses(Answered(requests), lookup))
  {
    AnsweredArePrefix(requests);
    var answered := Answered(requests);
    RepliesAreWires(answered, lookup);
    var rs := Responses(answered, lookup);
    forall i | 0 <= i < |rs| ensures Framed(rs[i]) {
      assert answered[i] == requests[i];
      BuildIsFramed(answered[i], lookup);
    }
    hide Framed;
    hide BuildResponse;
    WiresSplit(rs);
  }

  /** Requests are answered in order without gaps, and only the last answered one may close. */
  lemma {:induction false} AnsweredArePrefix(requests: seq<Request>)
    ensures Answered(requests) <= requests
    ensures var k := |Answered(requests)|;
            && (forall i | 0 <= i < k - 1 :: KeepAlive(requests[i]))
            && (k < |requests| ==> k > 0 && !KeepAlive(requests[k - 1]))
  {
    hide KeepAlive;
    if requests != [] { AnsweredArePrefix(requests[1..]); }
  }
}
