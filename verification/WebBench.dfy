/**
 The benchmark client's request printer, and the proof that the server's parser inverts
 it.  Strings are the text before the terminating NUL of the C buffers.
 */
module WebBench {
  import opened Basics
  import opened Text
  import opened Decimal
  import opened HttpParse
  import opened HttpHead
  import opened HttpConnection

  datatype Verb = Get | Head | Options | Trace

  const MAX_HOST: nat := 64
  const REQUEST_SIZE: nat := 2048

  function VerbText(verb: Verb): string {
    match verb
    case Get => "GET"
    case Head => "HEAD"
    case Options => "OPTIONS"
    case Trace => "TRACE"
  }

  /** What the command line chose; version 0, 1 and 2 stand for HTTP/0.9, 1.0 and 1.1. */
  datatype Choice = Choice(verb: Verb, proxy: bool, reload: bool, keep: bool, version: nat)

  /** The version after the upgrades that verbs and a forced reload through a proxy need. */
  function Version(c: Choice): nat {
    if c.verb == Options || c.verb == Trace then (if c.version < 2 then 2 else c.version)
    else if c.version < 1 && (c.verb == Verb.Head || (c.reload && c.proxy)) then 1
    else c.version
  }

  function VersionText(version: nat): string {
    if version == 1 then "HTTP/1.0" else "HTTP/1.1"
  }

  // --------------------------------------------------------------------- URLs

  const SCHEME := "http://"

  /** An http URL of at most 1500 bytes with a slash behind the host. */
  predicate ValidUrl(url: string) {
    && 7 <= |url| <= 1500 && ToLower(url[..7]) == SCHEME
    && '/' in url[7..]
  }

  function BeforeChar(s: string, c: char): (r: string)
    ensures r <= s && c !in r && (c in s ==> |r| < |s| && s[|r|] == c) && (c !in s ==> r == s)
  {
    if s == "" || s[0] == c then "" else [s[0]] + BeforeChar(s[1..], c)
  }

  /** Host and port: all between the scheme and the next slash. */
  function Authority(url: string): string
    requires ValidUrl(url)
  {
    BeforeChar(url[7..], '/')
  }

  function Host(url: string): string
    requires ValidUrl(url)
  {
    BeforeChar(Authority(url), ':')
  }

  /** From the slash behind the authority to the end. */
  function Path(url: string): (p: string)
    requires ValidUrl(url)
    ensures p != "" && p[0] == '/' && url == url[..7] + Authority(url) + p
  {
    var a := |Authority(url)|;
    assert url[7..][a] == '/';
    url[7 + a..]
  }

  function Target(c: Choice, url: string): string
    requires ValidUrl(url)
  {
    if c.proxy then url else Path(url)
  }

  function Maybe(b: bool, f: Field): seq<Field> { if b then [f] else [] }

  const AGENT := Field("User-Agent", "WebBench 1.5")
  const PRAGMA := Field("Pragma", "no-cache")

  function ConnectionField(keep: bool): Field { Field("Connection", if keep then "Keep-Alive" else "close") }

  /** The header fields of an HTTP/1.x request. */
  function Fields(c: Choice, host: string): seq<Field> {
    [AGENT] + Maybe(!c.proxy, Field("Host", host)) + Maybe(c.reload && c.proxy, PRAGMA)
    + Maybe(Version(c) > 1, ConnectionField(c.keep))
  }

  /** The request text for a valid URL. */
  function Printed(c: Choice, url: string): string
    requires ValidUrl(url)
  {
    if Version(c) == 0 then VerbText(c.verb) + " " + Target(c, url) + CRLF
    else RequestText(VerbText(c.verb), Target(c, url), VersionText(Version(c)), Fields(c, Host(url)), "")
  }

  // --------------------------------------------------------- searching a URL

  lemma AtChar(s: string, c: char, i: nat)
    requires i < |s|
    ensures At(s, [c], i) == (s[i] == c)
  {
    assert s[i..i + 1] == [s[i]];
  }

  /** Searching for one character. */
  lemma FindChar(s: string, c: char, i: nat)
    requires i <= |s|
    ensures FindFrom(s, [c], i) == if c in s[i..] then Some(i + |BeforeChar(s[i..], c)|) else None
  {
    hide At;
    hide FindFrom;
    hide BeforeChar;
    forall k: nat | k < |s| ensures At(s, [c], k) == (s[k] == c) { AtChar(s, c, k); }
    var b := BeforeChar(s[i..], c);
    forall k: nat | i <= k < i + |b| ensures s[k] != c { assert b[k - i] == s[i..][k - i] == s[k] && b[k - i] in b; }
    if c in s[i..] {
      assert s[i..][|b|] == s[i + |b|];
      FindIs(s, [c], i, i + |b|);
    } else {
      assert i + |b| == |s|;
      forall k: nat | i <= k ensures !At(s, [c], k) { NoRoom(s, c, k); }
    }
  }

  lemma NoRoom(s: string, c: char, k: nat)
    ensures k >= |s| ==> !At(s, [c], k)
  {
  }

  lemma LowerAt(s: string, t: string, i: nat)
    requires i < |t| <= |s| && ToLower(s[..|t|]) == t
    ensures LowerChar(s[i]) == t[i]
  {
    assert ToLower(s[..|t|])[i] == LowerChar(s[i]);
  }

  lemma SchemeChars(url: string)
    requires 7 <= |url| && ToLower(url[..7]) == SCHEME
    ensures url[4] == ':' && url[5] == '/' && url[6] == '/'
    ensures url[0] != ':' && url[1] != ':' && url[2] != ':' && url[3] != ':'
  {
    hide ToLower;
    LowerAt(url, SCHEME, 0);
    LowerAt(url, SCHEME, 1);
    LowerAt(url, SCHEME, 2);
    LowerAt(url, SCHEME, 3);
    LowerAt(url, SCHEME, 4);
    LowerAt(url, SCHEME, 5);
    LowerAt(url, SCHEME, 6);
  }

  lemma FirstMark(url: string, pat: string)
    requires 7 <= |url| && |pat| == 3 && pat[0] == ':' && pat[1] == pat[2] == '/'
    requires url[4] == ':' && url[5] == '/' && url[6] == '/'
    requires url[0] != ':' && url[1] != ':' && url[2] != ':' && url[3] != ':'
    ensures FindFrom(url, pat, 0) == Some(4)
  {
    hide FindFrom;
    assert url[4..7] == pat;
    forall j: nat | 0 <= j < 4 ensures !At(url, pat, j) {
      AtChars(url, pat, j);
      assert url[j + 0] != ':';
    }
    FindIs(url, pat, 0, 4);
  }

  /** An http URL has its first "://" behind the four letters. */
  lemma SchemeEnds(url: string)
    requires 7 <= |url| && ToLower(url[..7]) == SCHEME
    ensures FindFrom(url, "://", 0) == Some(4)
  {
    hide FindFrom;
    SchemeChars(url);
    FirstMark(url, "://");
  }

  /** Whether the colon lies before the slash. */
  lemma {:induction false} ColonInAuthority(rest: string)
    requires '/' in rest
    ensures var a := BeforeChar(rest, '/');
            (':' in rest && |BeforeChar(rest, ':')| < |a|) == (':' in a)
            && (':' in a ==> BeforeChar(a, ':') == BeforeChar(rest, ':'))
  {
    if rest[0] != '/' && rest[0] != ':' {
      assert rest == [rest[0]] + rest[1..];
      ColonInAuthority(rest[1..]);
      assert BeforeChar(rest, '/')[1..] == BeforeChar(rest[1..], '/');
    }
  }

  // ------------------------------------------------------ the request as built

  class Client {
    const verb: Verb
    const proxy: bool
    const reload: bool
    const keep: bool
    /** HTTP version; raised by BuildRequest. */
    var version: nat
    var host: string
    var request: string

    constructor (c: Choice)
      ensures Chosen() == c && host == "" && request == ""
    {
      verb, proxy, reload, keep, version := c.verb, c.proxy, c.reload, c.keep, c.version;
      host, request := "", "";
    }

    function Chosen(): Choice
      reads this
    {
      Choice(verb, proxy, reload, keep, version)
    }

    /** The upgrades at the head of build_request. */
    method Upgrade()
      modifies this`version
      ensures version == Version(old(Chosen()))
    {
      if reload && proxy && version < 1 { version := 1; }
      if verb == Verb.Head && version < 1 { version := 1; }
      if verb == Options && version < 2 { version := 2; }
      if verb == Trace && version < 2 { version := 2; }
    }

    /** The checks on the URL: where the host starts, or None where the program exits. */
    method CheckUrl(url: string) returns (i: Option<nat>)
      ensures i == if ValidUrl(url) then Some(7) else None
    {
      hide FindFrom;
      hide ToLower;
      var mark := FindFrom(url, "://", 0);
      if 7 <= |url| && ToLower(url[..7]) == SCHEME { SchemeEnds(url); }
      if mark.None? { return None; }
      if |url| > 1500 { return None; }
      if |url| < 7 || ToLower(url[..7]) != SCHEME { return None; }
      FindChar(url, '/', mark.value + 3);
      if FindFrom(url, "/", mark.value + 3).None? { return None; }
      return Some(mark.value + 3);
    }

    /** Without a proxy, the host is cut out of the URL and the path is what follows. */
    method SplitUrl(url: string, i: nat) returns (path: string)
      requires ValidUrl(url) && i == 7
      modifies this`host
      ensures host == Host(url) && path == Path(url)
    {
      hide FindFrom;
      hide ToLower;
      hide BeforeChar;
      ghost var rest := url[i..];
      ColonInAuthority(rest);
      FindChar(url, ':', i);
      var colon := FindFrom(url, ":", i);
      FindChar(url, '/', i);
      var slash := FindFrom(url, "/", i);
      if colon.Some? && colon.value < slash.value {
        host := url[i..colon.value];
        SliceIs(url, i, BeforeChar(rest, ':'));
      } else {
        host := url[i..slash.value];
        SliceIs(url, i, BeforeChar(rest, '/'));
        NoColon(Authority(url));
      }
      path := url[slash.value..];
    }

    /** One header line, appended as name, colon and blank, value and line break. */
    method Append(f: Field, ghost first: string, ghost fields: seq<Field>)
      requires request == first + Flat(FieldLines(fields))
      modifies this`request
      ensures request == first + Flat(FieldLines(fields + [f]))
    {
      hide Flat;
      hide FieldLines;
      FieldAppended(fields, f);
      request := request + (f.name + ": " + f.value + CRLF);
    }

    method AppendFields(ghost c: Choice)
      requires c.(version := 0) == Chosen().(version := 0) && version == Version(c)
      modifies this`request
      ensures version > 0 ==> request == old(request) + Flat(FieldLines(Fields(c, host)))
      ensures version == 0 ==> request == old(request)
    {
      hide Flat;
      hide FieldLines;
      ghost var first, fields: seq<Field> := request, [];
      NoFields();
      if version > 0 {
        Append(AGENT, first, fields);
        fields := fields + [AGENT];
      }
      if !proxy && version > 0 {
        var f := Field("Host", host);
        Append(f, first, fields);
        fields := fields + [f];
      }
      if reload && proxy {
        Append(PRAGMA, first, fields);
        fields := fields + [PRAGMA];
      }
      if version > 1 {
        var f := ConnectionField(keep);
        Append(f, first, fields);
        fields := fields + [f];
      }
      assert version > 0 ==> fields == Fields(c, host);
    }

    method StartLine(target: string)
      requires version <= 2
      modifies this`request
      ensures request == VerbText(verb) + " " + target
                       + (if version == 0 then "" else " " + VersionText(version)) + CRLF
    {
      request := VerbText(verb) + " " + target;
      if version == 1 { request := request + " HTTP/1.0"; }
      else if version == 2 { request := request + " HTTP/1.1"; }
      request := request + CRLF;
    }

    /**
     build_request: it exits on a URL that is not valid, and otherwise leaves the
     printed request, which fits its buffer whenever the host fits its own.
     */
    method BuildRequest(url: string) returns (ok: bool)
      requires ValidUrl(url) && !proxy ==> |Host(url)| < 64
      requires version <= 2
      modifies this
      ensures version == Version(old(Chosen()))
      ensures ok == ValidUrl(url)
      ensures ok ==> request == Printed(old(Chosen()), url) && |request| < 2048
    {
      hide Flat;
      hide FieldLines;
      hide ValidUrl;
      hide Host;
      hide Fields;
      hide VerbText;
      hide VersionText;
      ghost var c := Chosen();
      host, request := "", "";
      Upgrade();
      var i := CheckUrl(url);
      if i.None? { return false; }
      var target := url;
      if !proxy { target := SplitUrl(url, i.value); }
      StartLine(target);
      AppendFields(c);
      FieldsNeedNoHost(c, host, Host(url));
      if version > 0 { request := request + CRLF; }
      PrintedIs(c, url, request);
      Sizes(c, url);
      ok := true;
    }
  }

  lemma SliceIs(s: string, i: nat, t: string)
    requires i <= |s| && t <= s[i..]
    ensures s[i..i + |t|] == t
  {
  }

  lemma NoColon(a: string)
    ensures ':' !in a ==> BeforeChar(a, ':') == a
  {
  }

  lemma PrintedIs(c: Choice, url: string, text: string)
    requires ValidUrl(url)
    requires Version(c) == 0 ==> text == VerbText(c.verb) + " " + Target(c, url) + "" + CRLF
    requires Version(c) > 0 ==>
      text == VerbText(c.verb) + " " + Target(c, url) + (" " + VersionText(Version(c))) + CRLF
              + Flat(FieldLines(Fields(c, Host(url)))) + CRLF
    ensures text == Printed(c, url)
  {
    hide Flat;
    hide FieldLines;
    hide ValidUrl;
    hide Host;
    hide Fields;
    hide VerbText;
    hide VersionText;
    assert Version(c) > 0 ==> text == text + "";
  }

  /** Through a proxy no Host field is printed. */
  lemma FieldsNeedNoHost(c: Choice, a: string, b: string)
    requires c.proxy || a == b
    ensures Fields(c, a) == Fields(c, b)
  {
  }

  function FieldsSize(fields: seq<Field>): nat { |Flat(FieldLines(fields))| }

  lemma MaybeSize(fields: seq<Field>, b: bool, f: Field)
    ensures FieldsSize(fields + Maybe(b, f)) <= FieldsSize(fields) + |f.name| + |f.value| + 4
  {
    hide Flat;
    hide FieldLines;
    FieldAppended(fields, f);
    assert fields + [] == fields;
  }

  lemma HeaderSize(c: Choice, host: string)
    ensures FieldsSize(Fields(c, host)) <= 26 + (|host| + 8) + 18 + 24
  {
    hide FieldsSize;
    NoFieldsSize();
    var f0 := [AGENT];
    var f1 := f0 + Maybe(!c.proxy, Field("Host", host));
    var f2 := f1 + Maybe(c.reload && c.proxy, PRAGMA);
    assert f0 == [] + Maybe(true, AGENT);
    MaybeSize([], true, AGENT);
    MaybeSize(f0, !c.proxy, Field("Host", host));
    MaybeSize(f1, c.reload && c.proxy, PRAGMA);
    MaybeSize(f2, Version(c) > 1, ConnectionField(c.keep));
  }

  lemma NoFieldsSize()
    ensures FieldsSize([]) == 0
  {
  }

  /** Whatever is chosen, the request fits the buffer of 2048 bytes. */
  lemma Sizes(c: Choice, url: string)
    requires ValidUrl(url) && c.version <= 2
    requires !c.proxy ==> |Host(url)| < 64
    ensures |Printed(c, url)| < 2048
  {
    hide Flat;
    hide FieldLines;
    hide Fields;
    hide Host;
    var host := if c.proxy then "" else Host(url);
    HeaderSize(c, host);
    FieldsNeedNoHost(c, host, Host(url));
    assert |Target(c, url)| <= 1500;
    assert |VerbText(c.verb)| <= 7;
  }

  // ------------------------------------------------------------- the round trip

  /** Nothing in the URL that ends a word or a line, and a host with nothing to trim. */
  predicate PlainUrl(c: Choice, url: string)
    requires ValidUrl(url)
  {
    ' ' !in url && '\r' !in url && (c.proxy || Trimmed(Host(url)))
  }

  /** What the server reads: the field names in lower case. */
  function ReadFields(c: Choice, host: string): map<string, string> {
    var agent := map["user-agent" := "WebBench 1.5"];
    var host := if c.proxy then agent else agent["host" := host];
    var pragma := if c.reload && c.proxy then host["pragma" := "no-cache"] else host;
    if Version(c) > 1 then pragma["connection" := if c.keep then "Keep-Alive" else "close"] else pragma
  }

  lemma {:induction false} FieldMapSplits(m: map<string, string>, a: seq<Field>, b: seq<Field>)
    ensures FieldMap(m, a + b) == FieldMap(FieldMap(m, a), b)
    decreases |a|
  {
    hide ToLower;
    if a == [] {
      assert a + b == b;
    } else {
      assert (a + b)[1..] == a[1..] + b;
      var key := ToLower(a[0].name);
      FieldMapSplits(if key in m then m else m[key := a[0].value], a[1..], b);
    }
  }

  lemma MaybeMap(m: map<string, string>, fields: seq<Field>, b: bool, f: Field, key: string)
    requires ToLower(f.name) == key && key !in FieldMap(m, fields)
    ensures FieldMap(m, fields + Maybe(b, f)) ==
            if b then FieldMap(m, fields)[key := f.value] else FieldMap(m, fields)
  {
    hide ToLower;
    FieldMapSplits(m, fields, Maybe(b, f));
    if b { assert [f][1..] == []; }
  }

  lemma Names()
    ensures ToLower("User-Agent") == "user-agent"
    ensures ToLower("Host") == "host"
    ensures ToLower("Pragma") == "pragma"
    ensures ToLower("Connection") == "connection"
  {
    hide ToLower;
    LowerIs("User-Agent", "user-agent");
    LowerIs("Host", "host");
    LowerIs("Pragma", "pragma");
    LowerIs("Connection", "connection");
  }

  /** The four names differ: they differ in length, or in their first letter. */
  lemma FieldsRead(c: Choice, host: string)
    ensures FieldMap(map[], Fields(c, host)) == ReadFields(c, host)
  {
    hide ToLower;
    hide FieldMap;
    Names();
    var f0 := [AGENT];
    var f1 := f0 + Maybe(!c.proxy, Field("Host", host));
    var f2 := f1 + Maybe(c.reload && c.proxy, PRAGMA);
    assert |"user-agent"| == 10 && |"connection"| == 10 && "user-agent"[0] != "connection"[0];
    assert |"host"| == 4 && |"pragma"| == 6;
    assert f0 == [] + Maybe(true, AGENT);
    EmptyMap(map[]);
    MaybeMap(map[], [], true, AGENT, "user-agent");
    MaybeMap(map[], f0, !c.proxy, Field("Host", host), "host");
    MaybeMap(map[], f1, c.reload && c.proxy, PRAGMA, "pragma");
    MaybeMap(map[], f2, Version(c) > 1, ConnectionField(c.keep), "connection");
  }

  lemma EmptyMap(m: map<string, string>)
    ensures FieldMap(m, []) == m
  {
  }

  lemma MaybeClean(fields: seq<Field>, b: bool, f: Field)
    requires CleanFields(fields) && (b ==> CleanField(f))
    ensures CleanFields(fields + Maybe(b, f))
  {
    hide CleanField;
  }

  lemma FieldsAreClean(c: Choice, host: string)
    requires c.proxy || ('\r' !in host && Trimmed(host))
    ensures CleanFields(Fields(c, host))
  {
    hide CleanField;
    hide Maybe;
    hide Trimmed;
    FixedFieldsAreClean(c.keep);
    if !c.proxy { HostFieldIsClean(host); }
    var f0 := [AGENT];
    var f1 := f0 + Maybe(!c.proxy, Field("Host", host));
    var f2 := f1 + Maybe(c.reload && c.proxy, PRAGMA);
    MaybeClean(f0, !c.proxy, Field("Host", host));
    MaybeClean(f1, c.reload && c.proxy, PRAGMA);
    MaybeClean(f2, Version(c) > 1, ConnectionField(c.keep));
  }

  lemma FixedFieldsAreClean(keep: bool)
    ensures CleanField(AGENT) && CleanField(PRAGMA) && CleanField(ConnectionField(keep))
  {
    hide CleanField;
    AgentIsClean();
    PragmaIsClean();
    FieldIsClean("Connection", if keep then "Keep-Alive" else "close");
  }

  lemma AgentIsClean()
    ensures CleanField(AGENT)
  {
    hide CleanField;
    FieldIsClean("User-Agent", "WebBench 1.5");
  }

  lemma PragmaIsClean()
    ensures CleanField(PRAGMA)
  {
    hide CleanField;
    FieldIsClean("Pragma", "no-cache");
  }

  lemma HostFieldIsClean(host: string)
    requires '\r' !in host && Trimmed(host)
    ensures CleanField(Field("Host", host))
  {
    hide CleanField;
    FieldIsClean("Host", host);
  }

  lemma FieldIsClean(name: string, value: string)
    requires name != "" && ':' !in name && '\r' !in name && Trimmed(name) && '\r' !in value && Trimmed(value)
    ensures CleanField(Field(name, value))
  {
  }

  lemma SubstringLacks(whole: string, i: nat, j: nat, x: char)
    requires i <= j <= |whole| && x !in whole
    ensures x !in whole[i..j]
  {
  }

  /**
   The server's parser inverts the client's printer, whatever follows on the connection:
   it finds the verb, the target up to its query, the version after the upgrades and
   exactly the printed fields, and takes exactly the printed bytes.
   */
  lemma ServerReadsRequest(c: Choice, url: string, rest: string)
    requires ValidUrl(url) && PlainUrl(c, url)
    requires c.version <= 2 && Version(c) > 0 && (c.proxy || |Host(url)| < MAX_HOST)
    ensures TryParse(Printed(c, url) + rest) ==
            Some(Parsed(Request(VerbText(c.verb), StripQuery(Target(c, url)), VersionText(Version(c)),
                                ReadFields(c, Host(url)), ""), |Printed(c, url)|))
  {
    hide TryParse;
    hide FieldMap;
    hide StripQuery;
    hide CleanFields;
    hide ToLower;
    hide BeforeChar;
    hide Fields;
    hide Flat;
    var host := Host(url);
    PartsAreClean(c, url);
    FieldsRead(c, host);
    NoLengthRead(c, host);
    Sizes(c, url);
    ParseInvertsPrint(VerbText(c.verb), Target(c, url), VersionText(Version(c)), Fields(c, host), "", rest);
  }

  lemma PartsAreClean(c: Choice, url: string)
    requires ValidUrl(url) && PlainUrl(c, url)
    ensures Word(VerbText(c.verb)) && Word(Target(c, url)) && Word(VersionText(Version(c)))
    ensures CleanFields(Fields(c, Host(url)))
  {
    hide ToLower;
    hide BeforeChar;
    HostInUrl(url);
    TargetIsWord(c, url);
    FieldsAreClean(c, Host(url));
    WordsOfClient(c);
  }

  /** The head is over where the printed text ends, and declares no body. */
  lemma ServerReadsHead(c: Choice, url: string, rest: string)
    requires ValidUrl(url) && PlainUrl(c, url)
    requires c.version <= 2 && Version(c) > 0 && (c.proxy || |Host(url)| < MAX_HOST)
    ensures var text := Printed(c, url);
            && 4 <= |text| < REQUEST_SIZE && ReadHead(text + rest).Some?
            && ReadHead(text + rest).value.end == |text| - 4 && ReadHead(text + rest).value.length == 0
  {
    hide ReadHead;
    hide FieldMap;
    hide StripQuery;
    hide CleanFields;
    hide ToLower;
    hide BeforeChar;
    hide Fields;
    hide Flat;
    var host := Host(url);
    PartsAreClean(c, url);
    FieldsRead(c, host);
    NoLengthRead(c, host);
    Sizes(c, url);
    ReadHeadInverts(VerbText(c.verb), Target(c, url), VersionText(Version(c)), Fields(c, host), "", rest);
  }

  lemma HostInUrl(url: string)
    requires ValidUrl(url)
    ensures var n := |Host(url)|; 7 + n <= |url| && Host(url) == url[7..7 + n]
    ensures '\r' !in url ==> '\r' !in Host(url)
  {
    hide ToLower;
    var n := |Host(url)|;
    assert Host(url) <= Authority(url) <= url[7..];
    assert url[7..7 + n] == url[7..][..n];
    if '\r' !in url { SubstringLacks(url, 7, 7 + n, '\r'); }
  }

  lemma TargetIsWord(c: Choice, url: string)
    requires ValidUrl(url) && ' ' !in url && '\r' !in url
    ensures Word(Target(c, url))
  {
    hide ToLower;
    var a := 7 + |Authority(url)|;
    SubstringLacks(url, a, |url|, ' ');
    SubstringLacks(url, a, |url|, '\r');
  }

  lemma NoLengthRead(c: Choice, host: string)
    ensures BodyLength(ReadFields(c, host)) == Some(0)
  {
    hide Stoul;
    assert |"content-length"| == 14 && |"user-agent"| == 10 && |"connection"| == 10;
    assert |"host"| == 4 && |"pragma"| == 6;
  }

  lemma WordsOfClient(c: Choice)
    ensures Word(VerbText(c.verb)) && Word(VersionText(Version(c)))
  {
  }

  lemma Whole(s: string)
    ensures FindFrom(s, s, 0) == Some(0)
  {
    assert s[0..0 + |s|] == s;
    FindIs(s, s, 0, 0);
  }

  lemma FirstCharMissing(s: string, pat: string)
    requires pat != "" && pat[0] !in s
    ensures FindFrom(s, pat, 0) == None
  {
    forall k: nat ensures !At(s, pat, k) { AtChars(s, pat, k); }
  }

  lemma AnswersOfServer()
    ensures FindFrom(ToLower("close"), "close", 0).Some?
    ensures FindFrom(ToLower("Keep-Alive"), "close", 0).None?
    ensures FindFrom(ToLower("Keep-Alive"), "keep-alive", 0).Some?
  {
    hide FindFrom;
    hide ToLower;
    LowerIs("close", "close");
    LowerIs("Keep-Alive", "keep-alive");
    Whole("close");
    Whole("keep-alive");
    FirstCharMissing("keep-alive", "close");
  }

  /** The server keeps the connection open exactly when the client asked for it under HTTP/1.1. */
  lemma KeepsOpen(c: Choice, host: string, verb: string, target: string)
    requires c.version <= 2 && Version(c) > 0
    ensures KeepAlive(Request(verb, target, VersionText(Version(c)), ReadFields(c, host), ""))
            <==> Version(c) == 2 && c.keep
  {
    hide FindFrom;
    hide ToLower;
    AnswersOfServer();
    assert |"connection"| == 10 && |"user-agent"| == 10 && "user-agent"[0] != "connection"[0];
    assert |"host"| == 4 && |"pragma"| == 6;
    assert "HTTP/1.0"[7] != "HTTP/1.1"[7];
  }

  lemma OneBreak(first: string)
    requires '\r' !in first
    ensures FindFrom(first + CRLF, BLANK_LINE, 0) == None
  {
    hide FindFrom;
    var text := first + CRLF;
    forall k: nat ensures !At(text, BLANK_LINE, k) {
      AtChars(text, BLANK_LINE, k);
      if k + 4 <= |text| { assert text[k + 0] == first[k] && first[k] in first; }
    }
  }

  /** An HTTP/0.9 request has no blank line: the server never takes it for a request. */
  lemma OldRequestIsNotRead(c: Choice, url: string)
    requires ValidUrl(url) && PlainUrl(c, url) && Version(c) == 0
    ensures TryParse(Printed(c, url)) == None
  {
    hide FindFrom;
    hide ToLower;
    hide BeforeChar;
    TargetIsWord(c, url);
    WordsOfClient(c);
    OneBreak(VerbText(c.verb) + " " + Target(c, url));
  }
}
