/**
 What a message says, read off its text alone: how long the body is that a head declares,
 and whether the connection stays open.  The laws are about printed messages and do not
 mention the functions that decide.
 */
module HttpLaws {
  import opened Basics
  import opened Text
  import opened Decimal
  import opened HttpParse
  import opened HttpHead
  import opened HttpConnection

  // ------------------------------------------------------------------ the body

  predicate Words(verb: string, target: string, version: string) { Word(verb) && Word(target) && Word(version) }

  /** The request that the printed parts stand for. */
  function Meant(verb: string, target: string, version: string, fields: seq<Field>, body: string): Request {
    Request(verb, StripQuery(target), version, FieldMap(map[], fields), body)
  }

  predicate IsLengthName(name: string) { ToLower(name) == "content-length" }

  /** The first Content-Length decides: its value is what strtoul makes of it, and None is no request. */
  lemma FirstLengthDecides(verb: string, target: string, version: string, before: seq<Field>, f: Field,
                           after: seq<Field>, body: string, rest: string)
    requires Words(verb, target, version) && CleanFields(before + [f] + after)
    requires Lacks(before, "content-length") && IsLengthName(f.name)
    ensures var text := RequestText(verb, target, version, before + [f] + after, body);
            |text| >= |body| + 4
            && ReadHead(text + rest) ==
               if Stoul(f.value).None? then None
               else Some(Head(|text| - |body| - 4, Meant(verb, target, version, before + [f] + after, ""),
                              Stoul(f.value).value))
  {
    hide ReadHead;
    hide FieldMap;
    hide Stoul;
    hide RequestText;
    hide CleanFields;
    ReadHeadInverts(verb, target, version, before + [f] + after, body, rest);
    FirstCounts(map[], before, f, after, "content-length");
  }

  /** A body behind the Content-Length that counts its bytes is read, whatever else the head says. */
  lemma DeclaredBodyIsRead(verb: string, target: string, version: string, before: seq<Field>, after: seq<Field>,
                           body: string, rest: string)
    requires Words(verb, target, version) && CleanFields(before) && CleanFields(after)
    requires Lacks(before, "content-length")
    requires |RequestText(verb, target, version, before + [LengthField(|body|)] + after, body)| < WORD
    ensures var fields := before + [LengthField(|body|)] + after;
            var text := RequestText(verb, target, version, fields, body);
            TryParse(text + rest) == Some(Parsed(Meant(verb, target, version, fields, body), |text|))
  {
    hide ReadHead;
    hide FieldMap;
    hide Stoul;
    hide CleanField;
    hide LengthField;
    var f := LengthField(|body|);
    var fields := before + [f] + after;
    var text := RequestText(verb, target, version, fields, body);
    BodyIsShort(verb, target, version, fields, body);
    hide RequestText;
    LengthFieldReads(|body|);
    FirstLengthDecides(verb, target, version, before, f, after, body, rest);
    BodyStands(verb, target, version, fields, body, rest);
  }

  lemma BodyIsShort(verb: string, target: string, version: string, fields: seq<Field>, body: string)
    ensures |body| <= |RequestText(verb, target, version, fields, body)|
  {
  }

  lemma BodyStands(verb: string, target: string, version: string, fields: seq<Field>, body: string, rest: string)
    ensures var text := RequestText(verb, target, version, fields, body); var begin := |text| - |body|;
            begin >= 0 && (text + rest)[begin..begin + |body|] == body
  {
    var head := RequestText(verb, target, version, fields, "");
    var text := RequestText(verb, target, version, fields, body);
    hide Flat;
    hide FieldLines;
    assert text == head + body;
    hide RequestText;
    assert (text + rest)[|head|..|head| + |body|] == body;
  }

  /** A head without a Content-Length has no body: what follows is the next message. */
  lemma NoLengthNoBody(verb: string, target: string, version: string, fields: seq<Field>, rest: string)
    requires Words(verb, target, version) && CleanFields(fields) && Lacks(fields, "content-length")
    requires |RequestText(verb, target, version, fields, "")| < WORD
    ensures var text := RequestText(verb, target, version, fields, "");
            TryParse(text + rest) == Some(Parsed(Meant(verb, target, version, fields, ""), |text|))
  {
    hide ReadHead;
    hide FieldMap;
    hide RequestText;
    hide CleanFields;
    ReadHeadInverts(verb, target, version, fields, "", rest);
    AbsentStays(map[], fields, "content-length");
    BodyStands(verb, target, version, fields, "", rest);
  }

  /** No digit where a number should start, or a number that needs more than 64 bits. */
  predicate NoNumber(value: string) {
    var digits := if value != "" && value[0] in "+-" then value[1..] else value;
    digits == "" || digits[0] !in "0123456789"
  }

  ghost predicate TooLarge(value: string) {
    exists sign, digits, tail :: Cut(value, sign, digits, tail) && ReadNat(digits) >= 0x1_0000_0000_0000_0000
  }

  predicate Cut(value: string, sign: string, digits: string, tail: string) {
    value == sign + digits + tail && IsSign(sign) && digits != "" && AllDigits(digits) && NoDigit(tail)
  }

  /** A first Content-Length without a number, or beyond 64 bits, is refused, whatever follows. */
  lemma BadLengthIsRefused(verb: string, target: string, version: string, before: seq<Field>, f: Field,
                           after: seq<Field>, body: string, rest: string)
    requires Words(verb, target, version) && CleanFields(before + [f] + after)
    requires Lacks(before, "content-length") && IsLengthName(f.name)
    requires NoNumber(f.value) || TooLarge(f.value)
    ensures TryParse(RequestText(verb, target, version, before + [f] + after, body) + rest) == None
  {
    hide ReadHead;
    hide FieldMap;
    hide Stoul;
    hide RequestText;
    hide TooLarge;
    assert CleanField(f) by { assert (before + [f] + after)[|before|] == f; }
    if NoNumber(f.value) { NoNumberReads(f.value); } else { TooLargeReads(f.value); }
    FirstLengthDecides(verb, target, version, before, f, after, body, rest);
  }

  lemma NoNumberReads(value: string)
    requires Trimmed(value) && NoNumber(value)
    ensures Stoul(value) == None
  {
    hide Stoul;
    var sign := if value != "" && value[0] in "+-" then value[..1] else "";
    var tail := value[|sign|..];
    assert value == "" + sign + tail;
    DigitsAre(0);
    StoulNeedsDigit("", sign, tail);
  }

  lemma TooLargeReads(value: string)
    requires TooLarge(value)
    ensures Stoul(value) == None
  {
    hide Stoul;
    hide ReadNat;
    var sign, digits, tail :| Cut(value, sign, digits, tail) && ReadNat(digits) >= 0x1_0000_0000_0000_0000;
    assert value == "" + sign + digits + tail;
    StoulReadsParts("", sign, digits, tail);
  }

  // ------------------------------------------------------- lines of other shapes

  predicate AllBlank(s: string) { forall i | 0 <= i < |s| :: s[i] == ' ' }

  lemma PartsOfLine(a: string, b: string, c: string, d: string, e: string, f: string, more: string)
    ensures var s := a + b + c + d + e + f + more;
            var n1, n2, n3, n4, n5, n6 := |a|, |a + b|, |a + b + c|, |a + b + c + d|, |a + b + c + d + e|, |s| - |more|;
            && n1 <= n2 <= n3 <= n4 <= n5 <= n6 <= |s|
            && s[..n1] == a && s[n1..n2] == b && s[n2..n3] == c && s[n3..n4] == d && s[n4..n5] == e && s[n5..n6] == f
            && s[n6..] == more
  {
  }

  lemma BlankPart(s: string, i: nat, j: nat)
    requires i <= j <= |s| && AllBlank(s[i..j])
    ensures forall k | i <= k < j :: s[k] == ' '
  {
    forall k | i <= k < j ensures s[k] == ' ' { assert s[i..j][k - i] == ' '; }
  }

  /** Any blanks before and between three words, and anything behind a blank after them. */
  lemma ThreeWords(a: string, verb: string, b: string, target: string, c: string, version: string, more: string)
    requires AllBlank(a) && AllBlank(b) && AllBlank(c) && b != "" && c != ""
    requires verb != "" && target != "" && version != ""
    requires ' ' !in verb && ' ' !in target && ' ' !in version && (more != "" ==> more[0] == ' ')
    ensures RequestLine(a + verb + b + target + c + version + more) == Some((verb, target, version))
  {
    hide SkipBlanks;
    hide SkipToken;
    hide AllBlank;
    var s := a + verb + b + target + c + version + more;
    var n1, n2, n3 := |a|, |a + verb|, |a + verb + b|;
    var n4, n5, n6 := |a + verb + b + target|, |a + verb + b + target + c|, |s| - |more|;
    PartsOfLine(a, verb, b, target, c, version, more);
    BlankPart(s, 0, n1);
    BlankPart(s, n2, n3);
    BlankPart(s, n4, n5);
    NotIn(s, n1, n2);
    NotIn(s, n3, n4);
    NotIn(s, n5, n6);
    assert s[n2..n3][0] == s[n2] && s[n4..n5][0] == s[n4] && (more != "" ==> s[n6] == s[n6..][0]);
    NextWord(s, 0, n1, n2);
    NextWord(s, n2, n3, n4);
    NextWord(s, n4, n5, n6);
  }

  /** Fewer than three words are no request line. */
  lemma TwoWords(a: string, verb: string, b: string, target: string, c: string)
    requires AllBlank(a) && AllBlank(b) && AllBlank(c) && ' ' !in verb && ' ' !in target
    requires (verb == "" ==> b == "" && target == "") && (target != "" ==> b != "") && (target == "" ==> b == "")
    ensures RequestLine(a + verb + b + target + c) == None
  {
    hide SkipBlanks;
    hide SkipToken;
    hide AllBlank;
    var s := a + verb + b + target + c;
    var n1, n2, n3, n4 := |a|, |a + verb|, |a + verb + b|, |a + verb + b + target|;
    PartsOfLine(a, verb, b, target, c, "", "");
    assert s == a + verb + b + target + c + "" + "";
    BlankPart(s, 0, n1);
    BlankPart(s, n2, n3);
    BlankPart(s, n4, |s|);
    NotIn(s, n1, n2);
    NotIn(s, n3, n4);
    if verb != "" {
      assert n2 < |s| ==> s[n2] == ' ';
      NextWord(s, 0, n1, n2);
      if target != "" {
        assert s[n2..n3][0] == s[n2];
        NextWord(s, n2, n3, n4);
      }
    }
  }

  /** A header line may have white space around name and value; the first of equal names stays. */
  lemma HeaderLineReads(headers: map<string, string>, l: string, name: string, r: string, l': string, value: string,
                        r': string)
    requires AllSpace(l) && AllSpace(r) && AllSpace(l') && AllSpace(r')
    requires Trimmed(name) && Trimmed(value) && ':' !in name
    ensures AddHeader(headers, l + name + r + ":" + l' + value + r') ==
            if ToLower(name) in headers then headers else headers[ToLower(name) := value]
  {
    hide Trim;
    hide ToLower;
    hide Trimmed;
    var key, line := l + name + r, l + name + r + ":" + l' + value + r';
    assert line == key + ":" + (l' + value + r');
    NoColonInside(l, name, r);
    FirstColon(key, l' + value + r');
    TrimPadded(l, name, r);
    TrimPadded(l', value, r');
    assert line[..|key|] == key && line[|key| + 1..] == l' + value + r';
  }

  lemma NoColonInside(l: string, name: string, r: string)
    requires AllSpace(l) && AllSpace(r) && ':' !in name
    ensures ':' !in l + name + r
  {
  }

  lemma FirstColon(key: string, rest: string)
    requires ':' !in key
    ensures FindFrom(key + ":" + rest, ":", 0) == Some(|key|)
  {
    var line := key + ":" + rest;
    forall k: nat | k < |key| ensures !At(line, ":", k) {
      assert line[k..k + 1] == [key[k]] && key[k] in key;
    }
    assert line[|key|..|key| + 1] == ":";
    FindIs(line, ":", 0, |key|);
  }

  /** A line without a colon says nothing. */
  lemma LineWithoutColon(headers: map<string, string>, line: string)
    requires ':' !in line
    ensures AddHeader(headers, line) == headers
  {
    forall k: nat ensures !At(line, ":", k) {
      if k < |line| { assert line[k..k + 1] == [line[k]]; }
    }
  }

  // ------------------------------------------------------------- staying open

  /** The value contains these letters, in any case. */
  ghost predicate Holds(value: Option<string>, word: string) {
    value.Some? && exists k: nat :: At(ToLower(value.value), word, k)
  }

  /** "close" closes; otherwise "keep-alive" keeps open; otherwise the version decides. */
  ghost predicate StaysOpen(version: string, connection: Option<string>) {
    !Holds(connection, "close") && (Holds(connection, "keep-alive") || version == "HTTP/1.1")
  }

  function ConnectionOf(r: Request): Option<string> {
    if "connection" in r.headers then Some(r.headers["connection"]) else None
  }

  lemma FoundIffSomewhere(s: string, pat: string)
    ensures FindFrom(s, pat, 0).Some? <==> exists k: nat :: At(s, pat, k)
  {
  }

  lemma KeepAliveIffStaysOpen(r: Request)
    ensures KeepAlive(r) <==> StaysOpen(r.version, ConnectionOf(r))
  {
    hide FindFrom;
    hide ToLower;
    hide At;
    if "connection" in r.headers {
      FoundIffSomewhere(ToLower(r.headers["connection"]), "close");
      FoundIffSomewhere(ToLower(r.headers["connection"]), "keep-alive");
    }
  }

  /** Exactly the requests up to the first that does not stay open are answered. */
  lemma {:induction false} AnsweredUntilClose(requests: seq<Request>)
    ensures Answered(requests) <= requests
    ensures var k := |Answered(requests)|;
            && (forall i | 0 <= i < k - 1 :: StaysOpen(requests[i].version, ConnectionOf(requests[i])))
            && (k < |requests| ==> k > 0 && !StaysOpen(requests[k - 1].version, ConnectionOf(requests[k - 1])))
  {
    hide KeepAlive;
    hide StaysOpen;
    if requests != [] {
      KeepAliveIffStaysOpen(requests[0]);
      AnsweredUntilClose(requests[1..]);
    }
  }

  lemma TwoAnswered(a: Request, b: Request)
    ensures Answered([a, b]) == if StaysOpen(a.version, ConnectionOf(a)) then [a, b] else [a]
  {
    hide KeepAlive;
    hide StaysOpen;
    KeepAliveIffStaysOpen(a);
    assert [a, b][1..] == [b] && [b][1..] == [];
    assert Answered([b]) == [b];
  }

  lemma Inside(l: string, word: string, r: string)
    ensures At(l + word + r, word, |l|)
  {
    var s := l + word + r;
    assert s[|l|..|l| + |word|] == word;
  }

  /** Whatever the version and the rest of the value: "close" ends the connection behind its reply. */
  lemma CloseCloses(a: Request, b: Request, l: string, r: string)
    requires "connection" in a.headers && ToLower(a.headers["connection"]) == l + "close" + r
    ensures Answered([a, b]) == [a]
  {
    hide ToLower;
    hide At;
    Inside(l, "close", r);
    TwoAnswered(a, b);
  }

  /** Whatever the version: "keep-alive" without "close" keeps the connection open. */
  lemma KeepAliveKeeps(a: Request, b: Request, l: string, r: string)
    requires "connection" in a.headers && ToLower(a.headers["connection"]) == l + "keep-alive" + r
    requires forall k: nat :: !At(l + "keep-alive" + r, "close", k)
    ensures Answered([a, b]) == [a, b]
  {
    hide ToLower;
    hide At;
    Inside(l, "keep-alive", r);
    TwoAnswered(a, b);
  }

  /** Without either word the connection stays open exactly under HTTP/1.1. */
  lemma VersionDecides(a: Request, b: Request)
    requires "connection" in a.headers ==>
               forall k: nat :: !At(ToLower(a.headers["connection"]), "close", k)
                                && !At(ToLower(a.headers["connection"]), "keep-alive", k)
    ensures Answered([a, b]) == if a.version == "HTTP/1.1" then [a, b] else [a]
  {
    hide ToLower;
    hide At;
    TwoAnswered(a, b);
  }

  // ----------------------------------------------------------- two on one stream

  /** A request without a body, as it is printed. */
  datatype Bodiless = Bodiless(verb: string, target: string, version: string, fields: seq<Field>)

  function OnWire(m: Bodiless): string { RequestText(m.verb, m.target, m.version, m.fields, "") }

  function Read(m: Bodiless): Request { Meant(m.verb, m.target, m.version, m.fields, "") }

  predicate Readable(m: Bodiless) {
    && Words(m.verb, m.target, m.version) && CleanFields(m.fields) && Lacks(m.fields, "content-length")
    && |OnWire(m)| < WORD
  }

  predicate Stands(fields: seq<Field>, before: seq<Field>, f: Field, after: seq<Field>) {
    fields == before + [f] + after && Lacks(before, "connection") && ToLower(f.name) == "connection"
  }

  /** The value of the first Connection field, if there is one. */
  ghost predicate ConnectionIs(fields: seq<Field>, value: Option<string>) {
    match value
    case None => Lacks(fields, "connection")
    case Some(v) => exists before, f, after :: Stands(fields, before, f, after) && f.value == v
  }

  lemma ConnectionReads(m: Bodiless, value: Option<string>)
    requires ConnectionIs(m.fields, value)
    ensures ConnectionOf(Read(m)) == value
  {
    hide FieldMap;
    hide ToLower;
    match value
    case None => AbsentStays(map[], m.fields, "connection");
    case Some(v) =>
      var before, f, after :| Stands(m.fields, before, f, after) && f.value == v;
      FirstCounts(map[], before, f, after, "connection");
  }

  lemma BodilessIsRead(m: Bodiless, rest: string)
    requires Readable(m)
    ensures TryParse(OnWire(m) + rest) == Some(Parsed(Read(m), |OnWire(m)|))
    ensures Fits(OnWire(m) + rest) && 0 < |OnWire(m)|
  {
    hide TryParse;
    hide ReadHead;
    hide FieldMap;
    hide RequestText;
    hide CleanFields;
    NoLengthNoBody(m.verb, m.target, m.version, m.fields, rest);
    ReadHeadInverts(m.verb, m.target, m.version, m.fields, "", rest);
    AbsentStays(map[], m.fields, "content-length");
  }

  lemma TwoAreRead(a: Bodiless, b: Bodiless)
    requires Readable(a) && Readable(b)
    ensures HeadsFit(OnWire(a) + OnWire(b)) && Drain(OnWire(a) + OnWire(b)) == Served([Read(a), Read(b)], "")
  {
    hide *;
    BodilessIsRead(a, OnWire(b));
    BodilessIsRead(b, "");
    Nothing();
    assert OnWire(b) + "" == OnWire(b);
    DrainOne(OnWire(b), "", Read(b));
    DrainOne(OnWire(a), OnWire(b), Read(a));
  }

  lemma Nothing()
    ensures HeadsFit("") && Drain("") == Served([], "")
  {
    hide TryParse;
    hide Fits;
    EmptyStream();
  }

  lemma VersionRead(m: Bodiless)
    ensures Read(m).version == m.version
  {
  }

  lemma StreamIs(c: Connection)
    requires c.buffer == ""
    ensures c.Stream() == Concat(c.incoming)
  {
  }

  lemma RepliesOfTwo(respond: Request -> string, a: Request, b: Request)
    ensures "" + Replies(respond, [a, b]) == respond(a) + respond(b) && "" + Replies(respond, [a]) == respond(a)
  {
    assert [a, b][1..] == [b] && [a][1..] == [] && [b][1..] == [];
    assert Replies(respond, [b]) == respond(b) + "" && Replies(respond, [a]) == respond(a) + "";
  }

  /**
   Two pipelined requests, cut into any chunks: whether the second is answered is decided by
   the first one's Connection field and version as the wire says them.
   */
  method AnswerTwo(a: Bodiless, ghost connection: Option<string>, b: Bodiless, chunks: seq<string>,
                   accepts: nat -> SendOutcome, respond: Request -> string)
    returns (sent: string)
    requires Readable(a) && Readable(b) && ConnectionIs(a.fields, connection)
    requires Concat(chunks) == OnWire(a) + OnWire(b)
    ensures StaysOpen(a.version, connection) ==>
              (sent == respond(Read(a)) + respond(Read(b)) <==> AllDelivered(accepts, respond, [Read(a), Read(b)], 0))
    ensures !StaysOpen(a.version, connection) ==>
              (sent == respond(Read(a)) <==> AllDelivered(accepts, respond, [Read(a)], 0))
  {
    hide *;
    var server := new Connection(chunks, accepts);
    TwoAreRead(a, b);
    ConnectionReads(a, connection);
    TwoAnswered(Read(a), Read(b));
    VersionRead(a);
    StreamIs(server);
    ghost var cuts := server.HandleConnection(respond);
    sent := server.sent;
    RepliesOfTwo(respond, Read(a), Read(b));
  }
}
