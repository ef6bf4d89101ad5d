/**
 The request parser of the coroutine server: one call looks at the bytes received so far
 and either yields a request with the number of bytes it takes, or nothing.
 */
module HttpParse {
  import opened Basics
  import opened Text
  import opened Decimal

  datatype Request = Request(verb: string, target: string, version: string, headers: map<string, string>, body: string)

  datatype Parsed = Parsed(request: Request, consumed: nat)

  // ----------------------------------------------------------- the request line

  function SkipBlanks(s: string, i: nat): (b: nat)
    requires i <= |s|
    ensures i <= b <= |s| && (forall j | i <= j < b :: s[j] == ' ') && (b < |s| ==> s[b] != ' ')
    decreases |s| - i
  {
    if i < |s| && s[i] == ' ' then SkipBlanks(s, i + 1) else i
  }

  function SkipToken(s: string, i: nat): (e: nat)
    requires i <= |s|
    ensures i <= e <= |s| && (forall j | i <= j < e :: s[j] != ' ') && (e < |s| ==> s[e] == ' ')
    decreases |s| - i
  {
    if i < |s| && s[i] != ' ' then SkipToken(s, i + 1) else i
  }

  /** The text before the first question mark. */
  function StripQuery(target: string): (r: string)
    ensures r <= target && '?' !in r && (r != target ==> target[|r|] == '?')
  {
    var q := FindFrom(target, "?", 0);
    if q.Some? then
      assert forall j | 0 <= j < q.value :: !At(target, "?", j) ==> target[j] != '?' by {
        assert forall j | 0 <= j < q.value :: target[j..j + 1] == [target[j]];
      }
      assert target[q.value..q.value + 1] == [target[q.value]];
      target[..q.value]
    else
      assert forall j | 0 <= j < |target| :: !At(target, "?", j) && target[j..j + 1] == [target[j]];
      target
  }

  /** Method, target and version: the first three words, or nothing. */
  function RequestLine(line: string): Option<(string, string, string)> {
    var b1 := SkipBlanks(line, 0);
    var e1 := SkipToken(line, b1);
    var b2 := SkipBlanks(line, e1);
    var e2 := SkipToken(line, b2);
    var b3 := SkipBlanks(line, e2);
    var e3 := SkipToken(line, b3);
    if b1 == e1 || b2 == e2 || b3 == e3 then None
    else Some((line[b1..e1], line[b2..e2], line[b3..e3]))
  }

  // -------------------------------------------------------------- header lines

  /** A line without a colon is ignored; the first value of a repeated key wins. */
  function AddHeader(headers: map<string, string>, line: string): map<string, string> {
    var colon := FindFrom(line, ":", 0);
    if colon.None? then headers
    else
      var key := ToLower(Trim(line[..colon.value]));
      if key in headers then headers else headers[key := Trim(line[colon.value + 1..])]
  }

  /** The header lines of a head that ends with its last line break. */
  function Headers(head: string, begin: nat, headers: map<string, string>): map<string, string>
    decreases |head| - begin
  {
    if begin + 2 >= |head| then headers
    else
      var end := FindFrom(head, CRLF, begin);
      if end.None? || end.value == begin then headers
      else Headers(head, end.value + 2, AddHeader(headers, head[begin..end.value]))
  }

  /** Request line and headers of a complete head. */
  function ParseHead(head: string): Option<Request> {
    var first := FindFrom(head, CRLF, 0);
    if first.None? then None
    else
      var words := RequestLine(head[..first.value]);
      if words.None? then None
      else
        var (verb, target, version) := words.value;
        Some(Request(verb, StripQuery(target), version, Headers(head, first.value + 2, map[]), ""))
  }

  /** The declared length of the body; None if the header is there but is no number. */
  function BodyLength(headers: map<string, string>): (r: Option<nat>)
    ensures r.Some? ==> r.value < WORD
  {
    if "content-length" in headers then Stoul(headers["content-length"]) else Some(0)
  }

  function Min(a: nat, b: nat): nat { if a < b then a else b }

  /** The message whose body starts at begin; the sum of start and length is a 64-bit sum. */
  function TakeBody(buffer: string, head: Request, begin: nat, length: nat): Option<Parsed>
    requires begin <= |buffer|
  {
    var end := (begin + length) % WORD;
    if |buffer| < end then None
    else Some(Parsed(head.(body := buffer[begin..Min(begin + length, |buffer|)]), end))
  }

  datatype Head = Head(end: nat, request: Request, length: nat)

  /** The head of the message, once its blank line has arrived: where that is, and what it says. */
  function ReadHead(buffer: string): (r: Option<Head>)
    ensures r.Some? ==> r.value.end + 4 <= |buffer| && r.value.length < WORD
  {
    var end := FindFrom(buffer, BLANK_LINE, 0);
    if end.None? then None
    else
      var request := ParseHead(buffer[..end.value + 2]);
      if request.None? || BodyLength(request.value.headers).None? then None
      else Some(Head(end.value, request.value, BodyLength(request.value.headers).value))
  }

  /** One attempt on the bytes received so far. */
  function TryParse(buffer: string): Option<Parsed> {
    var head := ReadHead(buffer);
    if head.None? then None else TakeBody(buffer, head.value.request, head.value.end + 4, head.value.length)
  }

  // ------------------------------------------------------- the parser as written

  method NextToken(line: string, from: nat) returns (token: string, pos: nat)
    requires from <= |line|
    ensures var b := SkipBlanks(line, from); pos == SkipToken(line, b) && token == line[b..pos]
  {
    pos := from;
    while pos < |line| && line[pos] == ' '
      invariant pos <= |line| && SkipBlanks(line, pos) == SkipBlanks(line, from)
    {
      pos := pos + 1;
    }
    var begin := pos;
    while pos < |line| && line[pos] != ' '
      invariant begin <= pos <= |line| && SkipToken(line, pos) == SkipToken(line, begin)
    {
      pos := pos + 1;
    }
    token := line[begin..pos];
  }

  /** A line start that the header loop reaches: it follows a line break. */
  predicate AfterBreak(buffer: string, begin: nat) {
    begin >= 2 && At(buffer, CRLF, begin - 2)
  }

  lemma TwoBreaks(s: string, k: nat)
    ensures At(s, CRLF, k) && At(s, CRLF, k + 2) ==> At(s, BLANK_LINE, k)
  {
    if At(s, CRLF, k) && At(s, CRLF, k + 2) {
      assert s[k..k + 4] == s[k..k + 2] + s[k + 2..k + 4];
    }
  }

  /**
   Every line that the header loop looks at ends strictly behind its start and at or
   before the blank line, so neither of the two breaks inside the loop is ever taken.
   */
  lemma LineEndsInside(buffer: string, headerEnd: nat, begin: nat)
    requires FindFrom(buffer, BLANK_LINE, 0) == Some(headerEnd)
    requires AfterBreak(buffer, begin) && begin < headerEnd
    ensures FindFrom(buffer, CRLF, begin).Some?
    ensures begin < FindFrom(buffer, CRLF, begin).value <= headerEnd
    ensures FindFrom(buffer[..headerEnd + 2], CRLF, begin) == FindFrom(buffer, CRLF, begin)
  {
    assert buffer[headerEnd..headerEnd + 2] == buffer[headerEnd..headerEnd + 4][..2] == CRLF;
    assert At(buffer, CRLF, headerEnd);
    TwoBreaks(buffer, begin - 2);
    FindInPrefix(buffer, headerEnd + 2, CRLF, begin);
  }

  /** The body of the header loop; unordered_map::emplace keeps an existing entry. */
  method AddHeaderLine(headers: map<string, string>, line: string) returns (r: map<string, string>)
    ensures r == AddHeader(headers, line)
  {
    r := headers;
    var colon := FindFrom(line, ":", 0);
    if colon.Some? {
      var key := TrimLoop(line[..colon.value]);
      var value := TrimLoop(line[colon.value + 1..]);
      key := ToLower(key);
      if key !in headers { r := headers[key := value]; }
    }
  }

  /** The header loop of the source. */
  method HeaderLoop(buffer: string, headerEnd: nat, firstLineEnd: nat) returns (headers: map<string, string>)
    requires FindFrom(buffer, BLANK_LINE, 0) == Some(headerEnd)
    requires firstLineEnd <= headerEnd && At(buffer, CRLF, firstLineEnd)
    ensures headers == Headers(buffer[..headerEnd + 2], firstLineEnd + 2, map[])
  {
    hide FindFrom;
    hide At;
    hide AddHeader;
    headers := map[];
    var lineBegin := firstLineEnd + 2;
    ghost var head := buffer[..headerEnd + 2];
    while lineBegin < headerEnd
      invariant AfterBreak(buffer, lineBegin) && lineBegin <= headerEnd + 2
      invariant Headers(head, firstLineEnd + 2, map[]) == Headers(head, lineBegin, headers)
    {
      LineEndsInside(buffer, headerEnd, lineBegin);
      var found := FindFrom(buffer, CRLF, lineBegin);
      if found.None? || found.value > headerEnd { break; }
      var lineEnd := found.value;
      if lineEnd == lineBegin { break; }
      var line := buffer[lineBegin..lineEnd];
      assert head[lineBegin..lineEnd] == line;
      headers := AddHeaderLine(headers, line);
      lineBegin := lineEnd + 2;
    }
  }

  /** The three words of the request line, or nothing if one is missing. */
  method Words(line: string) returns (words: Option<(string, string, string)>)
    ensures words == RequestLine(line)
  {
    hide SkipBlanks;
    hide SkipToken;
    var verb, target, version, pos;
    verb, pos := NextToken(line, 0);
    target, pos := NextToken(line, pos);
    version, pos := NextToken(line, pos);
    if verb == "" || target == "" || version == "" { return None; }
    words := Some((verb, target, version));
  }

  /** try_parse_request. */
  method TryParseRequest(buffer: string) returns (parsed: Option<Parsed>)
    ensures parsed == TryParse(buffer)
  {
    hide FindFrom;
    hide Headers;
    hide RequestLine;
    hide StripQuery;
    hide BodyLength;
    hide TakeBody;
    var found := FindFrom(buffer, BLANK_LINE, 0);
    if found.None? { return None; }
    var headerEnd := found.value;
    var head := buffer[..headerEnd + 2];
    var first := FindFrom(head, CRLF, 0);
    if first.None? { return None; }
    var words := Words(head[..first.value]);
    if words.None? { return None; }
    var (verb, target, version) := words.value;
    assert buffer[first.value..first.value + 2] == head[first.value..first.value + 2];
    var headers := HeaderLoop(buffer, headerEnd, first.value);
    var length := BodyLength(headers);
    if length.None? { return None; }
    parsed := TakeBody(buffer, Request(verb, StripQuery(target), version, headers, ""), headerEnd + 4, length.value);
  }

  // ------------------------------------------------------------------- stability

  /** The head is complete and well formed. */
  predicate HasHead(buffer: string) { ReadHead(buffer).Some? }

  /** Where the message ends according to its head, without wrap-around. */
  function MessageEnd(buffer: string): nat
    requires HasHead(buffer)
  {
    ReadHead(buffer).value.end + 4 + ReadHead(buffer).value.length
  }

  /** The end of the message is a 64-bit number. */
  predicate Fits(buffer: string) {
    HasHead(buffer) ==> MessageEnd(buffer) < WORD
  }

  /** Appending bytes does not change what a complete head says. */
  lemma HeadExtends(buffer: string, more: string)
    requires FindFrom(buffer, BLANK_LINE, 0).Some?
    ensures ReadHead(buffer + more) == ReadHead(buffer)
  {
    hide FindFrom;
    hide ParseHead;
    hide BodyLength;
    hide At;
    FindExtends(buffer, more, BLANK_LINE, 0);
    var h := FindFrom(buffer, BLANK_LINE, 0).value;
    assert (buffer + more)[..h + 2] == buffer[..h + 2];
  }

  lemma HeadNeedsBlankLine(buffer: string)
    ensures HasHead(buffer) ==> FindFrom(buffer, BLANK_LINE, 0) == Some(ReadHead(buffer).value.end)
  {
  }

  lemma BodyIsStable(buffer: string, more: string, head: Request, begin: nat, length: nat)
    requires begin <= |buffer| && begin + length < WORD
    ensures TakeBody(buffer, head, begin, length).Some? ==>
              && TakeBody(buffer + more, head, begin, length) == TakeBody(buffer, head, begin, length)
              && TakeBody(buffer, head, begin, length).value.consumed == begin + length <= |buffer|
  {
    if begin + length <= |buffer| {
      assert (buffer + more)[begin..begin + length] == buffer[begin..begin + length];
    }
  }

  /**
   A request that has been parsed is parsed the same from every longer buffer, and takes
   its head and its whole body.
   */
  lemma ParseIsStable(buffer: string, more: string)
    requires TryParse(buffer).Some? && Fits(buffer)
    ensures TryParse(buffer + more) == TryParse(buffer)
    ensures 0 < ReadHead(buffer).value.end + 4 <= TryParse(buffer).value.consumed == MessageEnd(buffer) <= |buffer|
  {
    hide ReadHead;
    HeadNeedsBlankLine(buffer);
    HeadExtends(buffer, more);
    var head := ReadHead(buffer).value;
    BodyIsStable(buffer, more, head.request, head.end + 4, head.length);
  }

  /** A complete but malformed head stays unparsable whatever follows. */
  lemma MalformedStaysMalformed(buffer: string, more: string)
    requires FindFrom(buffer, BLANK_LINE, 0).Some? && !HasHead(buffer)
    ensures TryParse(buffer + more).None?
  {
    hide ReadHead;
    HeadExtends(buffer, more);
  }

  /** Once the head is there and well formed, only missing bytes of the body hold the request back. */
  lemma ParsesWhenComplete(buffer: string)
    requires HasHead(buffer) && Fits(buffer)
    ensures TryParse(buffer).Some? <==> MessageEnd(buffer) <= |buffer|
  {
    hide ReadHead;
  }

  /**
   Stability is exactly a matter of the 64-bit sum: when the declared length makes it
   wrap, the "body" is whatever has arrived, and one more byte changes the request.
   Strings are shorter than 2^63 bytes.
   */
  lemma StableIffFits(buffer: string)
    requires TryParse(buffer).Some? && |buffer| < 0x7fff_ffff_ffff_ffff
    ensures (forall more :: TryParse(buffer + more) == TryParse(buffer)) <==> Fits(buffer)
  {
    hide TryParse;
    hide Fits;
    if Fits(buffer) {
      forall more ensures TryParse(buffer + more) == TryParse(buffer) { ParseIsStable(buffer, more); }
    } else {
      WrappedBodyGrows(buffer, "x");
    }
  }

  lemma WrappedBodyGrows(buffer: string, more: string)
    requires TryParse(buffer).Some? && !Fits(buffer) && |buffer| + |more| < WORD && more != ""
    ensures TryParse(buffer + more) != TryParse(buffer)
  {
    hide ReadHead;
    HeadNeedsBlankLine(buffer);
    HeadExtends(buffer, more);
    var begin := ReadHead(buffer).value.end + 4;
    assert |TryParse(buffer).value.request.body| == |buffer| - begin;
    if TryParse(buffer + more).Some? {
      assert |TryParse(buffer + more).value.request.body| == |buffer| + |more| - begin;
    }
  }
}
