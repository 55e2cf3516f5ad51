/**
 HTTP requests and responses (Net/HTTP/http.cpp, HttpRequest and HttpResponse): what their first lines are
 made of, and that printing and parsing are inverse.
 */
module HttpMessages {
  import opened HttpGrammar
  import opened HttpLimits
  import opened HttpParser
  import opened HttpPrinter
  import HttpQuery
  import opened Options
  import opened StringPiece

  datatype Method = UNKNOWN | GET | POST | PUT | DELETE | HEAD

  function MethodToString(m: Method): string {
    match m
    case GET => "GET"
    case POST => "POST"
    case PUT => "PUT"
    case DELETE => "DELETE"
    case HEAD => "HEAD"
    case UNKNOWN => "UNKNOWN"
  }

  function StringToMethod(s: string): Method {
    if s == "GET" then GET
    else if s == "POST" then POST
    else if s == "PUT" then PUT
    else if s == "DELETE" then DELETE
    else if s == "HEAD" then HEAD
    else UNKNOWN
  }

  datatype RequestParts = RequestParts(verb: Method, target: string, version: string)
  datatype ResponseParts = ResponseParts(version: string, status: int, reason: string)

  function RequestLine(r: RequestParts): string {
    FirstLine(MethodToString(r.verb), r.target, r.version)
  }

  function ParseRequestLine(line: string): RequestParts {
    var afterVerb := AfterWord(line);
    RequestParts(StringToMethod(Word(line)), Word(afterVerb), Word(AfterWord(afterVerb)))
  }

  /** A status code is printed as a signed number. */
  function SignedDecimal(n: int): string {
    if n < 0 then ['-'] + Decimal(-n) else Decimal(n)
  }

  function ResponseLine(version: string, status: int, reason: string): string {
    FirstLine(version, SignedDecimal(status), reason)
  }

  /** `rest` is what follows the line in the buffer: the number is read from where the second word starts,
      without regard to where the line ends, and so from the next lines when there is no second word. */
  function ParseResponseLine(line: string, rest: string): ResponseParts {
    var afterVersion := AfterWord(line);
    ResponseParts(Word(line), Atoll(SkipSpace(afterVersion) + rest), Trim(AfterWord(afterVersion)))
  }

  /** The first line of a request, with its verb as a word. */
  lemma VerbPrinted(target: string, version: string)
    ensures RequestLine(RequestParts(GET, target, version)) == "GET " + CString(target) + " " + CString(version)
    ensures RequestLine(RequestParts(POST, target, version)) == "POST " + CString(target) + " " + CString(version)
    ensures RequestLine(RequestParts(PUT, target, version)) == "PUT " + CString(target) + " " + CString(version)
    ensures RequestLine(RequestParts(DELETE, target, version)) == "DELETE " + CString(target) + " " + CString(version)
    ensures RequestLine(RequestParts(HEAD, target, version)) == "HEAD " + CString(target) + " " + CString(version)
    ensures RequestLine(RequestParts(UNKNOWN, target, version)) == "UNKNOWN " + CString(target) + " " + CString(version)
  {
    hide CString, FirstLine;
    FirstWord("GET", "GET ", target, version);
    FirstWord("POST", "POST ", target, version);
    FirstWord("PUT", "PUT ", target, version);
    FirstWord("DELETE", "DELETE ", target, version);
    FirstWord("HEAD", "HEAD ", target, version);
    FirstWord("UNKNOWN", "UNKNOWN ", target, version);
  }

  lemma FirstWord(word: string, spaced: string, target: string, version: string)
    requires 0 as char !in word && spaced == word + " "
    ensures FirstLine(word, target, version) == spaced + CString(target) + " " + CString(version)
  {
    CStringSame(word);
  }

  /** A text without null characters is printed as it is, and any text up to the first one. */
  lemma {:induction false} CStringSame(s: string)
    ensures CString(s) <= s && (CString(s) == s <==> 0 as char !in s)
    ensures 0 as char !in CString(s) && (CString(s) == s || s[|CString(s)|] == 0 as char)
  {
    if s != [] {
      assert s == [s[0]] + s[1..];
      CStringSame(s[1..]);
    }
  }

  /** The parts of a request line: three words, the first of them the verb, UNKNOWN when it is none of these. */
  lemma RequestLineMeans(lead: string, word: string, gap: string, target: string, gap2: string, version: string, rest: string)
    requires AllWhite(lead) && AllWhite(gap) && AllWhite(gap2) && gap != [] && gap2 != []
    requires NoWhite(word) && NoWhite(target) && NoWhite(version) && word != [] && target != []
    requires (rest == [] || White(rest[0])) && (version == [] ==> rest == [])
    ensures var r := ParseRequestLine(lead + word + (gap + target + (gap2 + version + rest)));
      && (r.verb == GET <==> word == "GET") && (r.verb == POST <==> word == "POST") && (r.verb == PUT <==> word == "PUT")
      && (r.verb == DELETE <==> word == "DELETE") && (r.verb == HEAD <==> word == "HEAD")
      && (r.verb == UNKNOWN <==> word !in {"GET", "POST", "PUT", "DELETE", "HEAD"})
      && r.target == target && r.version == version
  {
    hide Word, AfterWord;
    WordIs(gap2, version, rest);
    WordIs(gap, target, gap2 + version + rest);
    WordIs(lead, word, gap + target + (gap2 + version + rest));
  }

  /** Whatever the line is, its verb is that of its first word. */
  lemma VerbMeans(lead: string, word: string, rest: string)
    requires AllWhite(lead) && NoWhite(word) && (rest == [] || White(rest[0])) && (word == [] ==> rest == [])
    ensures var verb := ParseRequestLine(lead + word + rest).verb;
      && (verb == GET <==> word == "GET") && (verb == POST <==> word == "POST") && (verb == PUT <==> word == "PUT")
      && (verb == DELETE <==> word == "DELETE") && (verb == HEAD <==> word == "HEAD")
      && (verb == UNKNOWN <==> word !in {"GET", "POST", "PUT", "DELETE", "HEAD"})
  {
    hide Word, AfterWord;
    WordIs(lead, word, rest);
  }

  /** The parts of a response line: a word, a number, and the rest without white space around it. */
  lemma ResponseLineMeans(lead: string, version: string, gap: string, sign: string, digits: string, gap2: string, reason: string,
                          trail: string, after: string)
    requires AllWhite(lead) && AllWhite(gap) && AllWhite(gap2) && AllWhite(trail) && gap != []
    requires NoWhite(version) && version != [] && sign in {"", "-", "+"} && AllDigits(digits) && digits != []
    requires reason == [] || (gap2 != [] && !White(reason[0]) && !White(reason[|reason| - 1]))
    requires gap2 + reason + trail == [] && after != [] ==> !(48 <= after[0] as int <= 57)
    ensures ParseResponseLine(lead + version + (gap + (sign + digits) + (gap2 + reason + trail)), after)
      == ResponseParts(version, if sign == "-" then 0 - NumberOf(digits) else NumberOf(digits), reason)
  {
    hide Word, AfterWord, SkipSpace, Trim, Atoll;
    var number, tail := sign + digits, gap2 + reason + trail;
    assert reason == [] ==> tail == gap2 + trail;
    assert tail == [] || White(tail[0]);
    NumberWord(sign, digits);
    WordIs(gap, number, tail);
    WordIs(lead, version, gap + number + tail);
    TrimIs(gap2, reason, trail);
    assert gap + number + tail == gap + (number + tail);
    SkipSpaceOf(gap, number + tail);
    assert number + tail + after == "" + (sign + digits + (tail + after));
    AtollOf("", sign, digits, tail + after);
  }

  lemma NumberWord(sign: string, digits: string)
    requires sign in {"", "-", "+"} && AllDigits(digits) && digits != []
    ensures NoWhite(sign + digits) && !White((sign + digits)[0])
  {
    var number := sign + digits;
    forall k | 0 <= k < |number|
      ensures !White(number[k])
    {
      assert k >= |sign| ==> number[k] == digits[k - |sign|];
    }
  }

  /** The first line of a response: version, number and reason. */
  lemma StatusPrinted(version: string, status: nat, reason: string) returns (digits: string)
    ensures DecimalOf(digits, status)
    ensures ResponseLine(version, status, reason) == CString(version) + " " + digits + " " + CString(reason)
    ensures status > 0 ==>
      ResponseLine(version, 0 - status, reason) == CString(version) + " " + ("-" + digits) + " " + CString(reason)
  {
    hide Decimal;
    digits := Decimal(status);
    DecimalIs(status);
    CStringSame(digits);
    CStringSame(['-'] + digits);
  }

  /** The fields in the order in which the map is walked. */
  function FieldsOf(headers: Headers, order: seq<string>): seq<Field>
    requires forall k :: 0 <= k < |order| ==> order[k] in headers
  {
    if order == [] then [] else [Field(order[0], headers[order[0]])] + FieldsOf(headers, order[1..])
  }

  lemma {:induction false} FieldsOfIs(headers: Headers, order: seq<string>)
    requires forall k :: 0 <= k < |order| ==> order[k] in headers
    ensures |FieldsOf(headers, order)| == |order|
    ensures forall k :: 0 <= k < |order| ==> FieldsOf(headers, order)[k] == Field(order[k], headers[order[k]])
  {
    if order != [] {
      FieldsOfIs(headers, order[1..]);
    }
  }

  class HttpRequest {
    const msg: HttpMsg
    var verb: Method
    var url: string
    var queryUrl: string
    var version: string
    var args: HttpQuery.Args

    constructor ()
      ensures fresh(msg) && msg.State() == EMPTY && args == map[]
    {
      msg := new HttpMsg();
      verb, url, queryUrl, version, args := UNKNOWN, [], [], "HTTP/1.1", map[];
    }

    /** Appends the printed request and returns its size. */
    method Encode(buf: string, order: seq<string>) returns (buf': string, size: nat)
      requires forall k :: 0 <= k < |order| ==> order[k] in msg.headers
      ensures buf' == buf + Printed(RequestLine(RequestParts(verb, if queryUrl == [] then url else queryUrl, version)),
                                    FieldsOf(msg.headers, order), msg.body)
      ensures size == |buf'| - |buf|
    {
      hide Lines, FieldLines;
      var line := RequestLine(RequestParts(verb, if queryUrl == [] then url else queryUrl, version));
      var tail := PrintRest(FieldsOf(msg.headers, order), msg.body);
      buf' := buf + (Clipped(line + CRLF) + tail);
      size := |buf'| - |buf|;
      PrintedIs(line, FieldsOf(msg.headers, order), msg.body, tail);
    }

    /** Parses what was received so far; the first line is taken apart once it is there. */
    method TryDecode(buf: string) returns (result: Result)
      modifies this, msg
      ensures (msg.State(), result) == (Decode(old(msg.State()), buf).0, Decode(old(msg.State()), buf).1)
      ensures var line1 := Decode(old(msg.State()), buf).2;
        if line1 != [] then
          && RequestParts(verb, queryUrl, version) == ParseRequestLine(line1) && url == HttpQuery.BeforeQuery(queryUrl)
          && args == HttpQuery.QueryArgs(HttpQuery.Behind(queryUrl, '?'), old(args))
        else
          verb == old(verb) && queryUrl == old(queryUrl) && version == old(version) && url == old(url) && args == old(args)
    {
      hide Decode, Word, AfterWord, StringToMethod, HttpQuery.QueryArgs, HttpQuery.Behind, HttpQuery.Until;
      var line1;
      result, line1 := msg.TryDecode(buf);
      if line1 != [] {
        var view := new StringPiece(line1, 0, |line1|);
        assert line1[0..|line1|] == line1;
        var verbView := view.EatWord();
        var urlView := view.EatWord();
        var versionView := view.EatWord();
        verb := StringToMethod(verbView);
        queryUrl := urlView;
        version := versionView;
        url, args := HttpQuery.ParseUrlParams(queryUrl, args);
      }
    }
  }

  class HttpResponse {
    const msg: HttpMsg
    var version: string
    var status: int
    var reason: string

    constructor ()
      ensures fresh(msg) && msg.State() == EMPTY
    {
      msg := new HttpMsg();
      version, status, reason := "HTTP/1.1", 200, "OK";
    }

    method Encode(buf: string, order: seq<string>) returns (buf': string, size: nat)
      requires forall k :: 0 <= k < |order| ==> order[k] in msg.headers
      ensures buf' == buf + Printed(ResponseLine(version, status, reason), FieldsOf(msg.headers, order), msg.body)
      ensures size == |buf'| - |buf|
    {
      hide Lines, FieldLines;
      var line := ResponseLine(version, status, reason);
      var tail := PrintRest(FieldsOf(msg.headers, order), msg.body);
      buf' := buf + (Clipped(line + CRLF) + tail);
      size := |buf'| - |buf|;
      PrintedIs(line, FieldsOf(msg.headers, order), msg.body, tail);
    }

    method TryDecode(buf: string) returns (result: Result)
      modifies this, msg
      ensures (msg.State(), result) == (Decode(old(msg.State()), buf).0, Decode(old(msg.State()), buf).1)
      ensures var line1 := Decode(old(msg.State()), buf).2;
        if line1 != [] then line1 <= buf && ResponseParts(version, status, reason) == ParseResponseLine(line1, buf[|line1|..])
        else version == old(version) && status == old(status) && reason == old(reason)
    {
      hide Decode, Word, AfterWord, SkipSpace, Atoll, Trim, ParseResponseLine;
      FirstLineInBuffer(msg.State(), buf);
      var line1;
      result, line1 := msg.TryDecode(buf);
      if line1 != [] {
        var view := new StringPiece(line1, 0, |line1|);
        assert line1[0..|line1|] == line1;
        version := view.EatWord();
        ghost var second := view.first;
        var statusView := view.EatWord();
        ParsedResponse(line1, buf[|line1|..], second, view.first, statusView);
        var at := view.first - |statusView|;
        status := Atoll(line1[at..] + buf[|line1|..]);
        view.TrimSpace();
        reason := view.View();
      }
    }
  }

  /** The first line that a call comes to is at the front of the buffer. */
  lemma FirstLineInBuffer(m: Msg, buf: string)
    ensures Decode(m, buf).2 <= buf
  {
    var found := FindEnd(buf, m.scanned);
    if found.Some? {
      TakeLinePrefix(buf[..found.value]);
      assert TakeLine(buf[..found.value]) <= buf[..found.value] <= buf;
    }
  }

  /** Where a word starts that was taken off the part of a line from b on. */
  lemma SecondWord(line: string, b: nat, word: string, view: string)
    requires b <= |line| && word == Word(line[b..]) && view == AfterWord(line[b..])
    ensures |word| + |view| <= |line| && line[|line| - |view| - |word|..] == SkipSpace(line[b..])
  {
    hide SkipSpace, TakeWord;
    SkipSpacePart(line[b..]);
    TakeWordPrefix(SkipSpace(line[b..]));
  }

  /** The parts of a response line, from where its second word starts and its third part. */
  lemma ParsedResponse(line: string, rest: string, second: nat, third: nat, word: string)
    requires second <= |line| && third <= |line| && AfterWord(line) == line[second..]
    requires word == Word(line[second..]) && AfterWord(line[second..]) == line[third..]
    ensures |word| <= third
    ensures ParseResponseLine(line, rest) == ResponseParts(Word(line), Atoll(line[third - |word|..] + rest), Trim(line[third..]))
  {
    hide Word, AfterWord, SkipSpace, Atoll, Trim;
    SecondWord(line, second, word, line[third..]);
  }

  lemma PrintedIs(line: string, fields: seq<Field>, body: string, tail: string)
    requires tail == Lines(FieldLines(fields + Added(|body|))) + CRLF + body
    ensures Clipped(line + CRLF) + tail == Printed(line, fields, body)
  {
  }

  // ---------------------------------------------------------------- the round trip

  ghost predicate NoNull(s: string) {
    forall k :: 0 <= k < |s| ==> s[k] != 0 as char
  }

  lemma {:induction false} CStringAll(s: string)
    requires NoNull(s)
    ensures CString(s) == s
  {
    if s != [] {
      CStringAll(s[1..]);
    }
  }

  lemma {:induction false} CStringPart(s: string)
    ensures CString(s) <= s && NoNull(CString(s)) && CString(CString(s)) == CString(s)
  {
    if s != [] && s[0] != 0 as char {
      CStringPart(s[1..]);
      assert s == [s[0]] + s[1..];
    }
  }

  /** Words, or nothing; there is no version without a target. */
  ghost predicate WordsOk(target: string, version: string) {
    NoSpace(target) && NoSpace(version) && (target == [] ==> version == [])
  }

  ghost predicate RequestOk(r: RequestParts) {
    && WordsOk(r.target, r.version) && NoNull(r.target) && NoNull(r.version)
    && |RequestLine(r)| + 2 <= 4095
  }

  lemma VerbToken(m: Method)
    ensures Token(MethodToString(m)) && NoNull(MethodToString(m)) && StringToMethod(MethodToString(m)) == m
  {
  }

  /** A line of two words and a rest, taken apart. */
  lemma WordsOf(a: string, b: string, c: string)
    requires Token(a) && Token(b)
    ensures var line := a + " " + b + " " + c;
      Word(line) == a && Word(AfterWord(line)) == b && AfterWord(AfterWord(line)) == [' '] + c
  {
    hide Word, AfterWord;
    var line := a + " " + b + " " + c;
    assert line == a + ([' '] + b + ([' '] + c));
    WordOf(a, [' '] + b + ([' '] + c));
    WordOf(b, [' '] + c);
  }

  /** The words of a line that may lack some. */
  lemma WordsOrNone(a: string, b: string, c: string)
    requires Token(a) && WordsOk(b, c)
    ensures var line := a + " " + b + " " + c;
      Word(line) == a && Word(AfterWord(line)) == b && Word(AfterWord(AfterWord(line))) == c
  {
    hide Word, AfterWord;
    NoWords();
    if b == [] {
      WordOf(a, "  ");
      assert a + " " + b + " " + c == a + "  ";
    } else {
      assert Token(b);
      WordsOf(a, b, c);
      if c != [] {
        assert Token(c);
        WordOf(c, []);
        assert [' '] + c + [] == [' '] + c;
      } else {
        assert [' '] + c == " ";
      }
    }
  }

  lemma NoWords()
    ensures Word([]) == [] && Word(" ") == [] && Word("  ") == [] && AfterWord("  ") == []
  {
    assert "  "[1..] == " " && " "[1..] == [];
  }

  lemma FirstLineIs(a: string, b: string, c: string)
    requires NoNull(a) && NoNull(b) && NoNull(c) && Plain(a) && Plain(b) && Plain(c)
    ensures FirstLine(a, b, c) == a + " " + b + " " + c && Plain(FirstLine(a, b, c))
  {
    CStringAll(a);
    CStringAll(b);
    CStringAll(c);
  }

  /** A first line, whatever its parts are as C strings. */
  lemma FirstLineCut(a: string, b: string, c: string)
    ensures FirstLine(a, b, c) == FirstLine(CString(a), CString(b), CString(c))
    ensures NoNull(CString(a)) && NoNull(CString(b)) && NoNull(CString(c))
    ensures CString(a) <= a && CString(b) <= b && CString(c) <= c
    ensures Plain(a) && Plain(b) && Plain(c) ==> Plain(FirstLine(a, b, c))
  {
    CStringPart(a);
    CStringPart(b);
    CStringPart(c);
  }

  lemma TokenPlain(s: string)
    requires NoSpace(s)
    ensures Plain(s)
  {
  }

  lemma TokenSpaceless(s: string)
    requires Token(s)
    ensures NoSpace(s) && s != []
  {
  }

  lemma RequestLineParts(r: RequestParts)
    requires WordsOk(r.target, r.version) && NoNull(r.target) && NoNull(r.version)
    ensures Plain(RequestLine(r)) && RequestLine(r) != [] && ParseRequestLine(RequestLine(r)) == r
  {
    hide StringToMethod, MethodToString, Word, AfterWord, Token, Plain, FirstLine, NoNull, NoSpace;
    VerbToken(r.verb);
    var verb := MethodToString(r.verb);
    TokenSpaceless(verb);
    TokenPlain(verb);
    TokenPlain(r.target);
    TokenPlain(r.version);
    FirstLineIs(verb, r.target, r.version);
    WordsOrNone(verb, r.target, r.version);
  }

  /** The parts of a request are those that its line is taken apart into only if they are words. */
  lemma RequestLineBack(r: RequestParts)
    requires NoSpace(r.target) && NoSpace(r.version) && ParseRequestLine(RequestLine(r)) == r
    ensures WordsOk(r.target, r.version) && NoNull(r.target) && NoNull(r.version)
  {
    hide StringToMethod, MethodToString, Word, AfterWord, FirstLine, NoNull, CString;
    var target, version, verb := CString(r.target), CString(r.version), MethodToString(r.verb);
    VerbToken(r.verb);
    CStringAll(verb);
    FirstLineCut(verb, r.target, r.version);
    if target == [] && version != [] {
      WordInstead(verb, version);
      EmptyCString(r.version);
      assert false;
    } else {
      RequestLineParts(RequestParts(r.verb, target, version));
    }
  }

  lemma EmptyCString(s: string)
    requires CString(s) != []
    ensures s != []
  {
  }

  /** Without a target, the version is taken for it. */
  lemma WordInstead(verb: string, version: string)
    requires Token(verb) && NoNull(verb) && NoSpace(version) && NoNull(version) && version != []
    ensures Word(AfterWord(FirstLine(verb, [], version))) == version
    ensures Word(AfterWord(AfterWord(FirstLine(verb, [], version)))) == []
  {
    hide Word, AfterWord;
    CStringAll(verb);
    CStringAll([]);
    CStringAll(version);
    var line := FirstLine(verb, [], version);
    assert line == verb + ([' '] + [' '] + version);
    WordOf(verb, [' '] + [' '] + version);
    assert [' '] + [' '] + version == [' '] + ([' '] + version);
    OneSpaceMore([' '] + version);
    assert [' '] + version + [] == [' '] + version;
    assert Token(version);
    WordOf(version, []);
    NoWords();
  }

  lemma OneSpaceMore(s: string)
    ensures Word([' '] + s) == Word(s) && AfterWord([' '] + s) == AfterWord(s)
  {
    assert ([' '] + s)[1..] == s;
  }

  /** What printing a request and parsing the bytes is to come to, whatever follows: the same request, exactly
      its bytes, and the headers in lower case under those that printing adds. */
  ghost predicate RequestRecovered(r: RequestParts, fields: seq<Field>, body: string, rest: string) {
    var (msg, result, line1) := Decode(EMPTY, Printed(RequestLine(r), fields, body) + rest);
    && result == Complete && msg.complete && ParseRequestLine(line1) == r && line1 != []
    && msg.scanned == |Printed(RequestLine(r), fields, body)| && msg.body == body
    && msg.headers == Collect(fields, map[])["connection" := "Keep-Alive"]["content-length" := Decimal(|body|)]
  }

  lemma RequestRoundTrip(r: RequestParts, fields: seq<Field>, body: string, rest: string)
    requires |body| <= MAX_SIZE && RequestOk(r) && forall k :: 0 <= k < |fields| ==> FieldOk(fields[k])
    ensures RequestRecovered(r, fields, body, rest)
  {
    hide Decode, Printed, Collect, RequestLine, ParseRequestLine;
    RequestLineParts(r);
    PrintedParses(RequestLine(r), fields, body, rest);
  }

  // ---------------------------------------------------------------- when it does not succeed

  /** What a complete message was read from. */
  lemma DecodeComplete(buf: string) returns (p: nat)
    requires Decode(EMPTY, buf).1 == Complete
    ensures 0 < p && FindEnd(buf, 0) == Some(p) && p <= |buf|
    ensures ParseLines(AfterLine(buf[..p]), map[]) == Parsed(true, Decode(EMPTY, buf).0.headers)
    ensures Decode(EMPTY, buf).2 == TakeLine(buf[..p])
  {
    hide ParseLines, AfterLine, TakeLine, FindEnd, ContentLength, Header;
    p := FindEnd(buf, 0).value;
  }

  lemma WordSpaceless(line: string)
    ensures NoSpace(Word(line))
  {
    TakeWordSpaceless(SkipSpace(line));
  }

  /** Whatever the first line is: if a printed message is read with the headers that were printed, with
      different names, then its fields are single trimmed lines; and if its first line is one line, it fits the
      printer's buffer and is read as it is. */
  lemma MessageBack(line: string, fields: seq<Field>, body: string, rest: string)
    requires |body| <= MAX_SIZE && DistinctNames(fields + Added(|body|))
    requires var (msg, result, line1) := Decode(EMPTY, Printed(line, fields, body) + rest);
      && result == Complete
      && msg.headers == Collect(fields, map[])["connection" := "Keep-Alive"]["content-length" := Decimal(|body|)]
    ensures forall k :: 0 <= k < |fields| ==> FieldOk(fields[k])
    ensures Plain(line) && line != [] ==>
      |line| + 2 <= 4095 && Decode(EMPTY, Printed(line, fields, body) + rest).2 == line
  {
    hide Decode, Collect, ParseLines, AfterLine, TakeLine, FindEnd, FieldOk, DistinctNames, Printed, Decimal, Plain;
    var buf, all := Printed(line, fields, body) + rest, fields + Added(|body|);
    var p := DecodeComplete(buf);
    CollectAdded(fields, map[], |body|);
    FieldsFromHeaders(all, AfterLine(buf[..p]));
    forall k | 0 <= k < |fields|
      ensures FieldOk(fields[k])
    {
      assert fields[k] == all[k];
    }
    if Plain(line) && line != [] {
      if |line| + 2 > 4095 {
        TooLong(line, all, body + rest);
        PrintedMisread(line, fields, body, rest, p);
        assert false;
      } else {
        PrintedParses(line, fields, body, rest);
      }
    }
  }

  lemma PrintedMisread(line: string, fields: seq<Field>, body: string, rest: string, p: nat)
    requires Misread(Clipped(line + CRLF), fields + Added(|body|), body + rest)
    requires FindEnd(Printed(line, fields, body) + rest, 0) == Some(p)
    ensures ParseLines(AfterLine((Printed(line, fields, body) + rest)[..p]), map[])
         != Parsed(true, Collect(fields + Added(|body|), map[]))
  {
    hide ParseLines, AfterLine, FindEnd, Collect, Clipped, Added, Lines, FieldLines;
    var start, lines := Clipped(line + CRLF), Lines(FieldLines(fields + Added(|body|)));
    assert start + lines + CRLF + (body + rest) == start + lines + CRLF + body + rest;
  }

  /** With field names that are different in lower case, a printed request is recovered exactly when its target
      and version are words that can be printed, its first line fits the printer's buffer, and its fields are
      single trimmed lines. */
  lemma RequestRoundTripExactly(r: RequestParts, fields: seq<Field>, body: string, rest: string)
    requires |body| <= MAX_SIZE && DistinctNames(fields + Added(|body|))
    ensures RequestRecovered(r, fields, body, rest) <==>
      RequestOk(r) && forall k :: 0 <= k < |fields| ==> FieldOk(fields[k])
  {
    if RequestOk(r) && forall k :: 0 <= k < |fields| ==> FieldOk(fields[k]) {
      RequestRoundTrip(r, fields, body, rest);
    } else if RequestRecovered(r, fields, body, rest) {
      RequestBack(r, fields, body, rest);
      assert false;
    }
  }

  lemma RequestBack(r: RequestParts, fields: seq<Field>, body: string, rest: string)
    requires |body| <= MAX_SIZE && DistinctNames(fields + Added(|body|)) && RequestRecovered(r, fields, body, rest)
    ensures RequestOk(r) && forall k :: 0 <= k < |fields| ==> FieldOk(fields[k])
  {
    hide Decode, Printed, Collect, FirstLine, MethodToString, StringToMethod, Word, AfterWord, FieldOk, NoNull, NoSpace, WordsOk;
    var line1 := Decode(EMPTY, Printed(RequestLine(r), fields, body) + rest).2;
    WordSpaceless(AfterWord(line1));
    WordSpaceless(AfterWord(AfterWord(line1)));
    RequestLinePlain(r);
    MessageBack(RequestLine(r), fields, body, rest);
    RequestLineBack(r);
  }

  lemma RequestLinePlain(r: RequestParts)
    requires NoSpace(r.target) && NoSpace(r.version)
    ensures Plain(RequestLine(r)) && RequestLine(r) != []
  {
    hide MethodToString, StringToMethod, CString, Plain, Token, NoSpace;
    VerbToken(r.verb);
    TokenSpaceless(MethodToString(r.verb));
    TokenPlain(MethodToString(r.verb));
    TokenPlain(r.target);
    TokenPlain(r.version);
    FirstLineCut(MethodToString(r.verb), r.target, r.version);
  }

  // ---------------------------------------------------------------- responses

  ghost predicate ResponseOk(version: string, status: int, reason: string) {
    && Token(version) && NoNull(version) && NoNull(reason) && (reason == [] || Trimmed(reason))
    && |ResponseLine(version, status, reason)| + 2 <= 4095
  }

  lemma SignedDecimalPlain(n: int)
    ensures NoNull(SignedDecimal(n)) && Token(SignedDecimal(n))
  {
    hide Decimal;
    DecimalDigits(if n < 0 then -n else n);
  }

  lemma ReasonTrim(reason: string)
    requires reason == [] || Trimmed(reason)
    ensures Trim([' '] + reason) == reason && Plain(reason)
  {
    if reason == [] {
      assert [' '][1..] == [] && SkipSpace([' ']) == [];
    } else {
      TrimOf(reason);
    }
  }

  lemma {:induction false} DigitsStop(s: string, t: string, acc: nat)
    requires t != [] && IsSpace(t[0])
    ensures Digits(s + t, acc) == Digits(s, acc)
  {
    if s != [] && '0' <= s[0] <= '9' {
      assert (s + t)[1..] == s[1..] + t;
      DigitsStop(s[1..], t, 10 * acc + (s[0] as nat - '0' as nat));
    }
  }

  /** Reading a number that starts with a word stops before white space. */
  lemma NumberStops(word: string, tail: string)
    requires word != [] && !IsSpace(word[0]) && tail != [] && IsSpace(tail[0])
    ensures Atoll(word + tail) == Atoll(word)
  {
    var text := word + tail;
    assert SkipSpace(text) == text && SkipSpace(word) == word;
    assert text[1..] == word[1..] + tail;
    DigitsStop(word, tail, 0);
    DigitsStop(word[1..], tail, 0);
  }

  lemma SignedDecimalValue(n: int)
    ensures Atoll(SignedDecimal(n)) == n
  {
    hide Decimal;
    var m := if n < 0 then -n else n;
    AtollDecimal(m);
    DecimalDigits(m);
    DecimalValue(m);
    assert (['-'] + Decimal(m))[1..] == Decimal(m);
  }

  /** The status of a line with a second word is the number that this starts with; without one, it is the
      number that the next lines start with. */
  lemma StatusFrom(line: string, rest: string)
    requires rest != [] && IsBreak(rest[0])
    ensures ParseResponseLine(line, rest).status
         == if Word(AfterWord(line)) != [] then Atoll(AfterWord(line)) else Atoll(rest)
  {
    hide Digits, TrimEnd;
    var view := AfterWord(line);
    var word := SkipSpace(view);
    SkipSpacePart(view);
    if word == [] {
      assert word + rest == rest;
    } else {
      NumberStops(word, rest);
      assert SkipSpace(word) == word;
    }
  }

  /** It is the number of the line itself, whatever lines follow, exactly when the line has a second word. */
  lemma StatusOfLine(line: string)
    ensures (forall rest: string :: rest != [] && IsBreak(rest[0]) ==> ParseResponseLine(line, rest).status == Atoll(AfterWord(line)))
      <==> Word(AfterWord(line)) != []
  {
    hide ParseResponseLine, Atoll;
    forall rest: string | rest != [] && IsBreak(rest[0])
      ensures ParseResponseLine(line, rest).status == if Word(AfterWord(line)) != [] then Atoll(AfterWord(line)) else Atoll(rest)
    {
      StatusFrom(line, rest);
    }
    if Word(AfterWord(line)) == [] {
      NoNumber(AfterWord(line));
      NumberOfNextLine();
    }
  }

  lemma NoNumber(view: string)
    requires Word(view) == []
    ensures Atoll(view) == 0
  {
    SkipSpacePart(view);
  }

  lemma NumberOfNextLine()
    ensures Atoll("\r7") == 7
  {
    assert "\r7"[1..] == "7" && SkipSpace("7") == "7" && "7"[1..] == [];
    assert Digits("7", 0) == Digits([], 7);
  }

  /** A whole response whose status is the name of its first field. */
  lemma StatusOfNextLine()
    ensures var buf := "HTTP/1.1\r\n404: x\r\n\r\n";
      var (msg, result, line1) := Decode(EMPTY, buf);
      && result == Complete && line1 == "HTTP/1.1" && line1 <= buf && msg.headers == map["404" := "x"]
      && ParseResponseLine(line1, buf[|line1|..]).status == 404
  {
    hide Decode, ParseResponseLine, Atoll;
    var buf := "HTTP/1.1\r\n404: x\r\n\r\n";
    NextLineDecoded();
    assert buf[8..] == "\r\n" + ("404" + ": x\r\n\r\n");
    OneWordLine();
    StatusFrom("HTTP/1.1", buf[8..]);
    NextLineNumber(": x\r\n\r\n");
  }

  lemma OneWordLine()
    ensures Word(AfterWord("HTTP/1.1")) == []
  {
    hide Word, AfterWord;
    assert Token("HTTP/1.1") && "HTTP/1.1" + [] == "HTTP/1.1";
    WordOf("HTTP/1.1", []);
    NoWords();
  }

  lemma NextLineNumber(tail: string)
    requires tail != [] && tail[0] == ':'
    ensures Atoll("\r\n" + ("404" + tail)) == 404
  {
    var text := "\r\n" + ("404" + tail);
    assert text[1..][1..] == "404" + tail && SkipSpace("404" + tail) == "404" + tail;
    assert SkipSpace(text) == SkipSpace(text[1..]) == SkipSpace(text[1..][1..]);
    assert ("404" + tail)[0] == '4' && ("04" + tail)[0] == '0' && ("4" + tail)[0] == '4';
    assert ("404" + tail)[1..] == "04" + tail && ("04" + tail)[1..] == "4" + tail && ("4" + tail)[1..] == tail;
    assert Digits("404" + tail, 0) == Digits("04" + tail, 4) == Digits("4" + tail, 40) == Digits(tail, 404) == 404;
  }

  lemma NextLineDecoded()
    ensures Decode(EMPTY, "HTTP/1.1\r\n404: x\r\n\r\n").1 == Complete
    ensures Decode(EMPTY, "HTTP/1.1\r\n404: x\r\n\r\n").2 == "HTTP/1.1"
    ensures Decode(EMPTY, "HTTP/1.1\r\n404: x\r\n\r\n").0.headers == map["404" := "x"]
  {
    hide FindEnd, ParseLines, AfterLine, TakeLine, Atoll;
    var f := Field("404", "x");
    var text := HeadParses("HTTP/1.1", [f], []);
    NextLineText(f);
    assert "HTTP/1.1\r\n404: x\r\n\r\n" == text + CRLF + [];
    assert (text + CRLF + [])[..|text| - 2] == text[..|text| - 2];
    NextLineFields(f);
    NoNumber([]);
  }

  lemma NextLineText(f: Field)
    requires f == Field("404", "x")
    ensures Lines(["HTTP/1.1"] + FieldLines([f])) == "HTTP/1.1\r\n404: x\r\n"
  {
    assert [f][1..] == [] && FieldLines([f]) == [FieldLine(f)] && FieldLine(f) == "404: x";
    LinesCons("HTTP/1.1", ["404: x"]);
    LinesCons("404: x", []);
    assert ["404: x"] + [] == ["404: x"];
  }

  lemma NextLineFields(f: Field)
    requires f == Field("404", "x")
    ensures Collect([f], map[]) == map["404" := "x"]
  {
    assert [f][1..] == [];
    LowerFixed("404");
    assert Collect([f], map[]) == Collect([], map[][Lower("404") := "x"]);
  }

  lemma ResponseLineParts(version: string, status: int, reason: string, rest: string)
    requires Token(version) && NoNull(version) && NoNull(reason) && (reason == [] || Trimmed(reason))
    ensures Plain(ResponseLine(version, status, reason)) && ResponseLine(version, status, reason) != []
    ensures ParseResponseLine(ResponseLine(version, status, reason), rest) == ResponseParts(version, status, reason)
  {
    hide SignedDecimal, Word, AfterWord, SkipSpace, Atoll, Token, Plain, FirstLine, NoNull, Trim, Trimmed, NoSpace;
    var number := SignedDecimal(status);
    SignedDecimalPlain(status);
    TokenSpaceless(number);
    TokenSpaceless(version);
    TokenPlain(number);
    TokenPlain(version);
    ReasonTrim(reason);
    FirstLineIs(version, number, reason);
    WordsOf(version, number, reason);
    WordOf(version, [' '] + number + [' '] + reason);
    assert ResponseLine(version, status, reason) == version + ([' '] + number + [' '] + reason);
    NumberFound(number, reason);
    assert number + [' '] + reason + rest == number + ([' '] + reason + rest);
    NumberInLine(number, [' '] + reason + rest);
    SignedDecimalValue(status);
  }

  lemma NumberInLine(number: string, tail: string)
    requires Token(number) && tail != [] && tail[0] == ' '
    ensures Atoll(number + tail) == Atoll(number)
  {
    NumberStops(number, tail);
  }

  /** The number behind a space is found. */
  lemma NumberFound(number: string, tail: string)
    requires Token(number)
    ensures SkipSpace([' '] + number + [' '] + tail) == number + [' '] + tail
  {
    var text := number + [' '] + tail;
    assert text[0] == number[0];
    assert ([' '] + number + [' '] + tail)[1..] == text;
  }

  /** The same for responses. */
  ghost predicate ResponseRecovered(version: string, status: int, reason: string, fields: seq<Field>, body: string, rest: string) {
    var buf := Printed(ResponseLine(version, status, reason), fields, body) + rest;
    var (msg, result, line1) := Decode(EMPTY, buf);
    && result == Complete && msg.complete && line1 != [] && line1 <= buf
    && ParseResponseLine(line1, buf[|line1|..]) == ResponseParts(version, status, reason)
    && msg.scanned == |Printed(ResponseLine(version, status, reason), fields, body)| && msg.body == body
    && msg.headers == Collect(fields, map[])["connection" := "Keep-Alive"]["content-length" := Decimal(|body|)]
  }

  lemma ResponseRoundTrip(version: string, status: int, reason: string, fields: seq<Field>, body: string, rest: string)
    requires |body| <= MAX_SIZE && ResponseOk(version, status, reason) && forall k :: 0 <= k < |fields| ==> FieldOk(fields[k])
    ensures ResponseRecovered(version, status, reason, fields, body, rest)
  {
    hide Decode, Printed, Collect, ResponseLine, ParseResponseLine;
    var buf := Printed(ResponseLine(version, status, reason), fields, body) + rest;
    FirstLineInBuffer(EMPTY, buf);
    var line1 := Decode(EMPTY, buf).2;
    ResponseLineParts(version, status, reason, buf[|line1|..]);
    PrintedParses(ResponseLine(version, status, reason), fields, body, rest);
  }

  /** The parts that a status line is taken apart into. */
  lemma ResponsePartsOk(line: string, rest: string)
    requires Plain(line)
    ensures var parts := ParseResponseLine(line, rest);
      NoSpace(parts.version) && (parts.reason == [] || Trimmed(parts.reason))
  {
    hide TakeWord, SkipSpace, Atoll, Trim, Trimmed;
    WordSpaceless(line);
    AfterWordPlain(line);
    AfterWordPlain(AfterWord(line));
    TrimPart(AfterWord(AfterWord(line)));
  }

  lemma ResponseLinePlain(version: string, status: int, reason: string)
    requires NoSpace(version) && Plain(reason)
    ensures Plain(ResponseLine(version, status, reason)) && ResponseLine(version, status, reason) != []
  {
    hide SignedDecimal, CString, Plain, Token, NoSpace;
    SignedDecimalPlain(status);
    TokenSpaceless(SignedDecimal(status));
    TokenPlain(SignedDecimal(status));
    TokenPlain(version);
    FirstLineCut(version, SignedDecimal(status), reason);
  }

  lemma ResponseLineBack(version: string, status: int, reason: string, rest: string)
    requires NoSpace(version) && (reason == [] || Trimmed(reason))
    requires ParseResponseLine(ResponseLine(version, status, reason), rest) == ResponseParts(version, status, reason)
    ensures Token(version) && NoNull(version) && NoNull(reason)
  {
    hide SignedDecimal, Word, AfterWord, SkipSpace, Atoll, FirstLine, NoNull, Trim, CString;
    var v, c, number := CString(version), CString(reason), SignedDecimal(status);
    SignedDecimalPlain(status);
    CStringAll(number);
    FirstLineCut(version, number, reason);
    if v == [] {
      NumberInstead(number, c);
      EmptyCString(number);
      TokenCString(number);
      assert false;
    } else {
      assert Token(v);
      ReasonBack(v, number, c);
    }
  }

  lemma TokenCString(s: string)
    requires NoNull(s) && s != []
    ensures CString(s) != []
  {
    CStringAll(s);
  }

  /** Without a version, the status is taken for it. */
  lemma NumberInstead(number: string, reason: string)
    requires Token(number) && NoNull(number) && NoNull(reason)
    ensures Word(FirstLine([], number, reason)) == number
  {
    hide Word, AfterWord;
    CStringAll([]);
    CStringAll(number);
    CStringAll(reason);
    assert FirstLine([], number, reason) == [' '] + number + ([' '] + reason);
    WordOf(number, [' '] + reason);
  }

  lemma ReasonBack(version: string, number: string, reason: string)
    requires Token(version) && Token(number) && NoNull(version) && NoNull(number) && NoNull(reason)
    ensures var line := FirstLine(version, number, reason);
      && Word(line) == version && NoNull(Trim(AfterWord(AfterWord(line))))
  {
    hide Word, AfterWord, Trim;
    CStringAll(version);
    CStringAll(number);
    CStringAll(reason);
    WordsOf(version, number, reason);
    TrimNoNull([' '] + reason);
  }

  lemma TrimNoNull(s: string)
    requires NoNull(s)
    ensures NoNull(Trim(s))
  {
    hide SkipSpace, TrimEnd;
    SkipSpacePart(s);
    var word := SkipSpace(s);
    TrimEndPart(word);
    forall k | 0 <= k < |Trim(s)|
      ensures Trim(s)[k] != 0 as char
    {
      assert Trim(s)[k] == word[k] && word[k] == s[|s| - |word| + k];
    }
  }

  lemma ResponseRoundTripExactly(version: string, status: int, reason: string, fields: seq<Field>, body: string, rest: string)
    requires |body| <= MAX_SIZE && DistinctNames(fields + Added(|body|))
    ensures ResponseRecovered(version, status, reason, fields, body, rest) <==>
      ResponseOk(version, status, reason) && forall k :: 0 <= k < |fields| ==> FieldOk(fields[k])
  {
    if ResponseOk(version, status, reason) && forall k :: 0 <= k < |fields| ==> FieldOk(fields[k]) {
      ResponseRoundTrip(version, status, reason, fields, body, rest);
    } else if ResponseRecovered(version, status, reason, fields, body, rest) {
      ResponseBack(version, status, reason, fields, body, rest);
      assert false;
    }
  }

  lemma ResponseBack(version: string, status: int, reason: string, fields: seq<Field>, body: string, rest: string)
    requires |body| <= MAX_SIZE && DistinctNames(fields + Added(|body|))
    requires ResponseRecovered(version, status, reason, fields, body, rest)
    ensures ResponseOk(version, status, reason) && forall k :: 0 <= k < |fields| ==> FieldOk(fields[k])
  {
    hide Decode, Printed, Collect, ResponseLine, ParseResponseLine, FieldOk, NoNull, NoSpace, Token, Trimmed, Plain, TakeLine;
    var buf := Printed(ResponseLine(version, status, reason), fields, body) + rest;
    var p := DecodeComplete(buf);
    var line1 := Decode(EMPTY, buf).2;
    TakeLinePlain(buf[..p]);
    ResponsePartsOk(line1, buf[|line1|..]);
    ReasonTrim(reason);
    ResponseLinePlain(version, status, reason);
    MessageBack(ResponseLine(version, status, reason), fields, body, rest);
    ResponseLineBack(version, status, reason, buf[|line1|..]);
  }
}
