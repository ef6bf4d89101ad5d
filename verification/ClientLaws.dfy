/** What the benchmark client writes, letter by letter, for a URL given by its parts. */
module ClientLaws {
  import opened Text
  import opened HttpParse
  import opened HttpHead
  import opened WebBench

  /** Scheme, host, an optional port with its colon, and a path. */
  predicate Parts(scheme: string, host: string, port: string, path: string) {
    && |scheme| == 7 && ToLower(scheme) == "http://"
    && '/' !in host && ':' !in host && '/' !in port && (port != "" ==> port[0] == ':')
    && path != "" && path[0] == '/' && 7 + |host| + |port| + |path| <= 1500
  }

  lemma {:induction false} BeforeIs(a: string, c: char, rest: string)
    requires c !in a && (rest == "" || rest[0] == c)
    ensures BeforeChar(a + rest, c) == a
  {
    if a != "" {
      assert (a + rest)[0] == a[0] && (a + rest)[1..] == a[1..] + rest && a == [a[0]] + a[1..];
      BeforeIs(a[1..], c, rest);
    } else {
      assert a + rest == rest;
    }
  }

  /** Host and path are what the parts say; the port is in neither. */
  lemma UrlSplits(scheme: string, host: string, port: string, path: string)
    requires Parts(scheme, host, port, path)
    ensures var url := scheme + host + port + path; ValidUrl(url) && Host(url) == host && Path(url) == path
  {
    hide ToLower;
    hide BeforeChar;
    var url := scheme + host + port + path;
    assert url[..7] == scheme && url[7..] == (host + port) + path;
    assert path[0] in path && '/' in url[7..];
    BeforeIs(host + port, '/', path);
    BeforeIs(host, ':', port);
  }

  ghost predicate HasParts(url: string) {
    exists scheme, host, port, path :: Parts(scheme, host, port, path) && url == scheme + host + port + path
  }

  lemma ValidHasParts(url: string)
    requires ValidUrl(url)
    ensures var a, n := Authority(url), |Host(url)|;
            && n <= |a| && Parts(url[..7], Host(url), a[n..], Path(url))
            && url == url[..7] + Host(url) + a[n..] + Path(url)
  {
    hide ToLower;
    hide BeforeChar;
    var a, host, path := Authority(url), Host(url), Path(url);
    var port := a[|host|..];
    assert a == host + port;
    LacksBoth(host, port, '/');
    assert url == url[..7] + (host + port) + path;
    hide Authority;
    hide Host;
    hide Path;
    PortStarts(a, host, port);
    assert |url| == |url[..7] + (host + port) + path|;
  }

  lemma LacksBoth(a: string, b: string, c: char)
    requires c !in a + b
    ensures c !in a && c !in b
  {
    assert forall i | 0 <= i < |a| :: (a + b)[i] == a[i];
    assert forall i | 0 <= i < |b| :: (a + b)[|a| + i] == b[i];
  }

  lemma PortStarts(a: string, host: string, port: string)
    requires host == BeforeChar(a, ':') && a == host + port
    ensures port != "" ==> port[0] == ':'
  {
    hide BeforeChar;
    if port != "" { assert a[|host|] == port[0]; }
  }

  /** The URLs that are accepted are exactly those made of such parts. */
  lemma ValidIffParts(url: string)
    ensures ValidUrl(url) <==> HasParts(url)
  {
    hide ValidUrl;
    hide Parts;
    if ValidUrl(url) { ValidHasParts(url); }
    if HasParts(url) {
      var scheme, host, port, path :| Parts(scheme, host, port, path) && url == scheme + host + port + path;
      UrlSplits(scheme, host, port, path);
    }
  }

  /** A version that the verb and a forced reload through a proxy allow. */
  predicate Enough(c: Choice, version: nat) {
    && version >= c.version
    && (c.verb == Options || c.verb == Trace ==> version >= 2)
    && (c.verb == Verb.Head || (c.reload && c.proxy) ==> version >= 1)
  }

  /** The version is raised as far as needed, and no further. */
  lemma VersionIsLeast(c: Choice, version: nat)
    ensures Enough(c, Version(c)) && (Enough(c, version) ==> Version(c) <= version)
  {
  }

  lemma VerbWords()
    ensures VerbText(Get) == "GET" && VerbText(Verb.Head) == "HEAD"
    ensures VerbText(Options) == "OPTIONS" && VerbText(Trace) == "TRACE"
  {
  }

  /** An HTTP/0.9 request is one line. */
  lemma OldRequestText(c: Choice, scheme: string, host: string, port: string, path: string)
    requires Parts(scheme, host, port, path) && c.version == 0 && c.verb == Get && !(c.reload && c.proxy)
    ensures var url := scheme + host + port + path;
            ValidUrl(url) && Printed(c, url) == "GET " + (if c.proxy then url else path) + "\r\n"
  {
    hide ValidUrl;
    hide Host;
    hide Path;
    hide Parts;
    UrlSplits(scheme, host, port, path);
    assert "GET" + " " == "GET ";
  }

  /** The field lines as they stand on the wire. */
  function Lines(c: Choice, host: string, v: nat): string {
    "User-Agent: WebBench 1.5\r\n"
    + (if c.proxy then "" else "Host: " + host + "\r\n")
    + (if c.reload && c.proxy then "Pragma: no-cache\r\n" else "")
    + (if v < 2 then "" else if c.keep then "Connection: Keep-Alive\r\n" else "Connection: close\r\n")
  }

  lemma LineAppended(fields: seq<Field>, b: bool, f: Field, line: string)
    requires f.name + ": " + f.value + CRLF == line
    ensures Flat(FieldLines(fields + Maybe(b, f))) == Flat(FieldLines(fields)) + (if b then line else "")
  {
    hide Flat;
    hide FieldLines;
    FieldAppended(fields, f);
    if !b { assert fields + [] == fields; }
  }

  lemma FixedLines(host: string)
    ensures AGENT.name + ": " + AGENT.value + CRLF == "User-Agent: WebBench 1.5\r\n"
    ensures PRAGMA.name + ": " + PRAGMA.value + CRLF == "Pragma: no-cache\r\n"
    ensures "Host" + ": " + host + CRLF == "Host: " + host + "\r\n"
  {
    assert "Host" + ": " == "Host: ";
  }

  lemma ConnectionLine(keep: bool)
    ensures ConnectionField(keep).name + ": " + ConnectionField(keep).value + CRLF ==
            if keep then "Connection: Keep-Alive\r\n" else "Connection: close\r\n"
  {
  }

  lemma AgentLine()
    ensures Flat(FieldLines([AGENT])) == "User-Agent: WebBench 1.5\r\n"
  {
    hide Flat;
    hide FieldLines;
    NoFields();
    FixedLines("");
    FieldAppended([], AGENT);
    assert [] + [AGENT] == [AGENT];
    assert "" + "User-Agent: WebBench 1.5\r\n" == "User-Agent: WebBench 1.5\r\n";
  }

  lemma FieldLinesText(c: Choice, host: string)
    ensures Flat(FieldLines(Fields(c, host))) == Lines(c, host, Version(c))
  {
    hide *;
    var f0, v := [AGENT], Version(c);
    var f1 := f0 + Maybe(!c.proxy, Field("Host", host));
    var f2 := f1 + Maybe(c.reload && c.proxy, PRAGMA);
    AgentLine();
    FixedLines(host);
    ConnectionLine(c.keep);
    LineAppended(f0, !c.proxy, Field("Host", host), "Host: " + host + "\r\n");
    LineAppended(f1, c.reload && c.proxy, PRAGMA, "Pragma: no-cache\r\n");
    var connection := if c.keep then "Connection: Keep-Alive\r\n" else "Connection: close\r\n";
    LineAppended(f2, v > 1, ConnectionField(c.keep), connection);
    FieldsAre(c, host);
    LinesAre(c, host, v, connection);
  }

  lemma FieldsAre(c: Choice, host: string)
    ensures Fields(c, host) == [AGENT] + Maybe(!c.proxy, Field("Host", host)) + Maybe(c.reload && c.proxy, PRAGMA)
                               + Maybe(Version(c) > 1, ConnectionField(c.keep))
  {
  }

  lemma LinesAre(c: Choice, host: string, v: nat, connection: string)
    requires connection == if c.keep then "Connection: Keep-Alive\r\n" else "Connection: close\r\n"
    ensures Lines(c, host, v) == "User-Agent: WebBench 1.5\r\n" + (if !c.proxy then "Host: " + host + "\r\n" else "")
              + (if c.reload && c.proxy then "Pragma: no-cache\r\n" else "") + (if v > 1 then connection else "")
  {
  }

  /** An HTTP/1.x request, letter by letter. */
  lemma RequestOnWire(c: Choice, scheme: string, host: string, port: string, path: string, verb: string)
    requires Parts(scheme, host, port, path) && Version(c) > 0
    requires verb == match c.verb case Get => "GET" case Head => "HEAD" case Options => "OPTIONS" case Trace => "TRACE"
    ensures var url := scheme + host + port + path;
            ValidUrl(url) && Printed(c, url) ==
            verb + " " + (if c.proxy then url else path) + " " + (if Version(c) == 1 then "HTTP/1.0" else "HTTP/1.1")
            + "\r\n" + Lines(c, host, Version(c)) + "\r\n" + ""
  {
    hide ValidUrl;
    hide Host;
    hide Path;
    hide Parts;
    hide Flat;
    hide FieldLines;
    hide Lines;
    hide Fields;
    hide Version;
    UrlSplits(scheme, host, port, path);
    FieldLinesText(c, host);
    VerbWords();
  }
}
