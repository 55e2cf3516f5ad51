/**
 The incremental parser of HTTP messages (Net/HTTP/http.cpp, HttpMsg::tryDecode_): it is called again and
 again with all the bytes received so far, remembers how far it has scanned, and takes the body by its
 Content-Length, as sections 2.1 and 6.3 of RFC 9112 frame a message.

 Characters are those of one byte.  Sizes are words of 64 bits: a negative content length becomes a large
 one, and adding a position to it may wrap around.
 */
module HttpParser {
  import opened Options
  import opened StringPiece

  type Headers = map<string, string>

  /** What a call comes to; LengthError is the exception of a string that is to become too long. */
  datatype Result = Error | Complete | NotComplete | Continue100 | LengthError

  /** The part of a message that parsing changes. */
  datatype Msg = Msg(headers: Headers, contentLen: nat, scanned: nat, complete: bool, body: string)

  const EMPTY := Msg(map[], 0, 0, false, [])

  const END := "\r\n\r\n"

  const WORD := 0x1_0000_0000_0000_0000
  const MAX_SIZE := 0x7FFF_FFFF_FFFF_FFFF

  // ---------------------------------------------------------------- what is parsed, as functions

  /** Where the header section ends, from a position on. */
  function FindEnd(buf: string, from: nat): (at: Option<nat>)
    ensures at.Some? ==> from <= at.value && at.value + 4 <= |buf| && buf[at.value..at.value + 4] == END
    decreases |buf| - from
  {
    if from + 4 > |buf| then None
    else if buf[from..from + 4] == END then Some(from)
    else FindEnd(buf, from + 1)
  }

  function ToLower(c: char): char {
    if 'A' <= c <= 'Z' then c - 'A' + 'a' else c
  }

  function Lower(s: string): string {
    if s == [] then [] else [ToLower(s[0])] + Lower(s[1..])
  }

  datatype HeaderLine = Named(name: string, value: string) | Blank | Malformed

  /** What is made of the line after the first two characters: a field has a name that ends with a colon,
      white space, and a value. */
  function LineAt(s: string): (line: HeaderLine)
    requires s != []
    ensures line.Named? ==> |s| >= 2
  {
    if |s| == 1 then Malformed
    else
      var line := TakeLine(s[2..]);
      var key, value := Word(line), Trim(AfterWord(line));
      if key != [] && value != [] && key[|key| - 1] == ':' then Named(Lower(key[..|key| - 1]), value)
      else if key == [] && value == [] && AfterLine(s[2..]) == [] then Blank
      else Malformed
  }

  datatype Parsed = Parsed(ok: bool, headers: Headers)

  /** The header lines, each with the two characters before it.  Names are kept in lower case; a later line
      overrides an earlier one of the same name. */
  function ParseLines(s: string, headers: Headers): Parsed
    decreases |s|
  {
    if s == [] then Parsed(true, headers)
    else match LineAt(s)
      case Named(name, value) => ParseLines(AfterLine(s[2..]), headers[name := value])
      case Blank => Parsed(true, headers)
      case Malformed => Parsed(false, headers)
  }

  /** atoll of a text: white space, a sign, and digits up to the first other character. */
  function Digits(s: string, acc: nat): nat {
    if s != [] && '0' <= s[0] <= '9' then Digits(s[1..], 10 * acc + (s[0] as nat - '0' as nat)) else acc
  }

  function Atoll(s: string): int {
    var t := SkipSpace(s);
    if t == [] then 0
    else if t[0] == '-' then 0 - Digits(t[1..], 0)
    else if t[0] == '+' then Digits(t[1..], 0)
    else Digits(t, 0)
  }

  function Header(headers: Headers, name: string): string {
    if name in headers then headers[name] else []
  }

  /** A number as the C library makes it fit a signed word. */
  function Clamped(n: int): int {
    if n > MAX_SIZE then MAX_SIZE else if n < -MAX_SIZE - 1 then -MAX_SIZE - 1 else n
  }

  /** The content length, as an unsigned word. */
  function ContentLength(headers: Headers): (length: nat)
    ensures length < WORD
  {
    var n := Clamped(Atoll(Header(headers, "content-length")));
    if n >= 0 then n else n + WORD
  }

  /** Are there fewer bytes than a length and a position add up to, as unsigned words?  Buffers have at most
      MAX_SIZE bytes, so that the sum wraps around only with the length of a negative number. */
  predicate Short(buf: string, length: nat, position: nat) {
    if length <= MAX_SIZE then |buf| < length + position
    else length + position < WORD || |buf| < length + position - WORD
  }

  /** The body, once all of it seems to be there.  One of negative length is too long for a string. */
  function TakeBody(m: Msg, buf: string): (Msg, Result) {
    if m.complete || Short(buf, m.contentLen, m.scanned) then (m, NotComplete)
    else if m.contentLen > MAX_SIZE then (m, LengthError)
    else
      var end := m.scanned + m.contentLen;
      (m.(body := buf[m.scanned..end], complete := true, scanned := end), Complete)
  }

  /** The header section ends at p: the first line, which an exception does not let pass, and what becomes of
      the message. */
  function TakeHead(m: Msg, buf: string, p: nat): (Msg, Result, string)
    requires p + 4 <= |buf|
  {
    var slice := buf[..p];
    var line1 := TakeLine(slice);
    var parsed := ParseLines(AfterLine(slice), m.headers);
    if !parsed.ok then (m.(headers := parsed.headers, scanned := p), Error, line1)
    else
      var m' := m.(headers := parsed.headers, scanned := p + 4, contentLen := ContentLength(parsed.headers));
      if Short(buf, m'.contentLen, m'.scanned) && Header(m'.headers, "expect") != [] then (m', Continue100, line1)
      else
        var (m'', result) := TakeBody(m', buf);
        (m'', result, if result.LengthError? then [] else line1)
  }

  /** One call of tryDecode_: the message after it, its result, and the first line if it came to that. */
  function Decode(m: Msg, buf: string): (Msg, Result, string) {
    if m.complete then (m, Complete, [])
    else if m.contentLen == 0 then
      match FindEnd(buf, m.scanned)
      case None => (m.(scanned := if m.scanned + 4 <= |buf| then |buf| - 3 else m.scanned), NotComplete, [])
      case Some(p) => if p == 0 then (m.(scanned := 0), NotComplete, []) else TakeHead(m, buf, p)
    else
      var (m', result) := TakeBody(m, buf);
      (m', result, [])
  }

  // ---------------------------------------------------------------- the parser

  class HttpMsg {
    var headers: Headers
    var contentLen: nat
    var scanned: nat
    var complete: bool
    var body: string

    ghost function State(): Msg
      reads this
    {
      Msg(headers, contentLen, scanned, complete, body)
    }

    constructor ()
      ensures State() == EMPTY
    {
      headers, contentLen, scanned, complete, body := map[], 0, 0, false, [];
    }

    method LowerCase(s: string) returns (lower: string)
      ensures lower == Lower(s)
    {
      lower := [];
      var i := 0;
      while i < |s|
        invariant 0 <= i <= |s| && Lower(s) == lower + Lower(s[i..])
      {
        LowerStep(s, i, lower);
        lower := lower + [ToLower(s[i])];
        i := i + 1;
      }
    }

    /** Takes one header line. */
    method ParseLine(slice: StringPiece) returns (line: HeaderLine)
      requires slice.Valid() && slice.first < slice.end && slice.end + 4 <= |slice.text|
      modifies slice`first
      ensures slice.Valid() && line == LineAt(old(slice.View()))
      ensures line.Named? ==> slice.first <= slice.end && old(slice.first) < slice.first
      ensures line.Named? ==> |old(slice.View())| >= 2 && slice.View() == AfterLine(old(slice.View())[2..])
    {
      hide Word, AfterWord, Trim, TakeLine, Lower;
      NothingThere();
      ghost var view := slice.View();
      slice.Eat(2);
      assert slice.first <= slice.end ==> slice.View() == view[2..];
      var text := slice.EatLine();
      var field := new StringPiece(text, 0, |text|);
      assert text[0..|text|] == text;
      var key := field.EatWord();
      field.TrimSpace();
      var value := field.View();
      if key != [] && value != [] && key[|key| - 1] == ':' {
        var name := LowerCase(key[..|key| - 1]);
        return Named(name, value);
      }
      line := if key == [] && value == [] && !slice.NonEmpty() then Blank else Malformed;
    }

    /** The loop over the header lines. */
    method ParseHeaders(slice: StringPiece) returns (ok: bool)
      requires slice.Valid() && slice.first <= slice.end && slice.end + 4 <= |slice.text|
      modifies this`headers, slice`first
      ensures Parsed(ok, headers) == ParseLines(old(slice.View()), old(headers))
    {
      hide LineAt, AfterLine;
      while slice.NonEmpty()
        invariant slice.Valid() && slice.first <= slice.end
        invariant ParseLines(slice.View(), headers) == ParseLines(old(slice.View()), old(headers))
        decreases slice.end - slice.first
      {
        var line := ParseLine(slice);
        if line.Malformed? {
          return false;
        }
        if line.Blank? {
          return true;
        }
        headers := headers[line.name := line.value];
      }
      ok := true;
    }

    /** The search for the end of the header section. */
    method ScanHead(buf: string) returns (found: bool)
      modifies `scanned
      ensures match FindEnd(buf, old(scanned))
        case Some(p) => found && scanned == p
        case None => !found && scanned == if old(scanned) + 4 <= |buf| then |buf| - 3 else old(scanned)
    {
      while |buf| >= scanned + 4
        invariant FindEnd(buf, scanned) == FindEnd(buf, old(scanned))
        invariant scanned == old(scanned) || (old(scanned) + 4 <= |buf| && scanned <= |buf| - 3)
        decreases |buf| - scanned
      {
        if buf[scanned] == '\r' && buf[scanned..scanned + 4] == END {
          return true;
        }
        scanned := scanned + 1;
      }
      found := false;
    }

    /** The body, once all of it is there. */
    method ParseBody(buf: string) returns (result: Result)
      modifies `body, `complete, `scanned
      ensures if old(complete) then State() == old(State()) && result == Complete
              else (State(), result) == TakeBody(old(State()), buf)
    {
      if !complete && !Short(buf, contentLen, scanned) {
        if contentLen > MAX_SIZE {
          return LengthError;
        }
        body := buf[scanned..scanned + contentLen];
        complete := true;
        scanned := scanned + contentLen;
      }
      result := if complete then Complete else NotComplete;
    }

    /** The first line and the header lines, once the end of the header section is found. */
    method ParseHead(buf: string) returns (ok: bool, line1: string)
      requires scanned + 4 <= |buf|
      modifies `headers
      ensures line1 == TakeLine(buf[..scanned])
      ensures Parsed(ok, headers) == ParseLines(AfterLine(buf[..scanned]), old(headers))
    {
      hide TakeLine, AfterLine, ParseLines;
      var slice := new StringPiece(buf, 0, scanned);
      assert buf[0..scanned] == buf[..scanned];
      line1 := slice.EatLine();
      ok := ParseHeaders(slice);
    }

    /** tryDecode_. */
    method TryDecode(buf: string) returns (result: Result, line1: string)
      modifies this
      ensures (State(), result, line1) == Decode(old(State()), buf)
    {
      hide FindEnd, TakeLine, AfterLine, ParseLines, ContentLength, Header;
      line1 := [];
      if complete {
        return Complete, line1;
      }
      if contentLen == 0 {
        var found := ScanHead(buf);
        if !found || scanned == 0 {
          return NotComplete, line1;
        }
        var ok;
        ok, line1 := ParseHead(buf);
        if !ok {
          return Error, line1;
        }
        scanned := scanned + 4;
        contentLen := ContentLength(headers);
        if Short(buf, contentLen, scanned) && Header(headers, "expect") != [] {
          return Continue100, line1;
        }
      }
      result := ParseBody(buf);
      if result.LengthError? {
        line1 := [];
      }
    }
  }

  lemma NothingThere()
    ensures TakeLine([]) == [] && Word([]) == [] && AfterWord([]) == [] && Trim([]) == []
  {
  }

  lemma LowerFirst(s: string, i: nat)
    requires i < |s|
    ensures Lower(s[i..]) == [ToLower(s[i])] + Lower(s[i + 1..])
  {
    assert s[i..][1..] == s[i + 1..];
  }

  lemma LowerStep(s: string, i: nat, lower: string)
    requires i < |s| && Lower(s) == lower + Lower(s[i..])
    ensures Lower(s) == lower + [ToLower(s[i])] + Lower(s[i + 1..])
  {
    hide Lower;
    LowerFirst(s, i);
  }

  // ---------------------------------------------------------------- parsing in pieces

  /** Where the scan for the end of the header section stops when it does not find it. */
  function ScanStop(buf: string, from: nat): nat {
    if from + 4 <= |buf| then |buf| - 3 else from
  }

  /** More bytes do not change what was found, and what was scanned need not be scanned again. */
  lemma {:induction false} FindEndPrefix(b: string, b': string, from: nat)
    requires b <= b'
    ensures FindEnd(b, from).Some? ==> FindEnd(b', from) == FindEnd(b, from)
    ensures FindEnd(b, from).None? ==> FindEnd(b', from) == FindEnd(b', ScanStop(b, from))
    decreases |b| - from
  {
    if from + 4 <= |b| {
      assert b'[from..from + 4] == b[from..from + 4];
      if b[from..from + 4] != END {
        FindEndPrefix(b, b', from + 1);
      }
    }
  }

  /** The fields of the lines override what was there. */
  lemma {:induction false} ParseLinesAdds(s: string, headers: Headers)
    ensures ParseLines(s, headers).ok == ParseLines(s, map[]).ok
    ensures ParseLines(s, headers).headers == headers + ParseLines(s, map[]).headers
    decreases |s|
  {
    hide LineAt;
    if s != [] {
      var line := LineAt(s);
      if line.Named? {
        var rest := AfterLine(s[2..]);
        ParseLinesAdds(rest, headers[line.name := line.value]);
        ParseLinesAdds(rest, map[line.name := line.value]);
        assert headers[line.name := line.value] == headers + map[line.name := line.value];
        var more := ParseLines(rest, map[]).headers;
        assert headers + map[line.name := line.value] + more == headers + (map[line.name := line.value] + more);
      }
    }
  }

  lemma ParseLinesAgain(s: string, headers: Headers)
    ensures ParseLines(s, ParseLines(s, headers).headers) == ParseLines(s, headers)
  {
    hide ParseLines;
    ParseLinesAdds(s, headers);
    ParseLinesAdds(s, ParseLines(s, headers).headers);
  }

  lemma FindEndAt(b: string, p: nat)
    requires p + 4 <= |b| && b[p..p + 4] == END
    ensures FindEnd(b, p) == Some(p)
  {
  }

  /** A header section that was parsed from a part of the bytes is parsed from all of them alike. */
  lemma TakeHeadTwice(m: Msg, b: string, b': string, p: nat)
    requires b <= b' && 0 < p && p + 4 <= |b| && b[p..p + 4] == END && m.contentLen == 0 && !m.complete
    ensures Decode(TakeHead(m, b, p).0, b').0 == TakeHead(m, b', p).0
    ensures TakeHead(m, b, p).2 == TakeHead(m, b', p).2
    ensures Decode(TakeHead(m, b, p).0, b').2 == [] || Decode(TakeHead(m, b, p).0, b').2 == TakeHead(m, b', p).2
  {
    hide ParseLines, TakeLine, AfterLine, ContentLength, Header, FindEnd;
    assert b'[..p] == b[..p] && b'[p..p + 4] == b[p..p + 4];
    FindEndAt(b', p);
    var lines := AfterLine(b[..p]);
    var parsed := ParseLines(lines, m.headers);
    if !parsed.ok {
      ParseLinesAgain(lines, m.headers);
    } else {
      var length := ContentLength(parsed.headers);
      if |b| >= length + p + 4 {
        assert b'[p + 4..p + 4 + length] == b[p + 4..p + 4 + length];
      }
    }
  }

  /** How far the scan came before does not matter once the end is found. */
  lemma TakeHeadScanned(m: Msg, b: string, p: nat, scanned: nat)
    requires p + 4 <= |b|
    ensures TakeHead(m.(scanned := scanned), b, p) == TakeHead(m, b, p)
  {
  }

  /** A message with the first line that its calls came to; what a request or a response is made of. */
  datatype Reading = Reading(msg: Msg, line1: string)

  const NOTHING_READ := Reading(EMPTY, [])

  function Read(r: Reading, buf: string): Reading {
    var (msg, _, line1) := Decode(r.msg, buf);
    Reading(msg, if line1 != [] then line1 else r.line1)
  }

  /** A call with a part of the bytes before the call with all of them makes no difference. */
  lemma ReadTwice(b: string, b': string)
    requires b <= b'
    ensures Read(Read(NOTHING_READ, b), b') == Read(NOTHING_READ, b')
  {
    hide TakeHead;
    FindEndPrefix(b, b', 0);
    match FindEnd(b, 0) {
      case None =>
        match FindEnd(b', 0) {
          case None =>
          case Some(p) => TakeHeadScanned(EMPTY, b', p, ScanStop(b, 0));
        }
      case Some(p) =>
        if p > 0 {
          TakeHeadTwice(EMPTY, b, b', p);
        }
    }
  }

  /** What is read by calls with more and more bytes. */
  function Feed(r: Reading, buffers: seq<string>): Reading {
    if buffers == [] then r else Read(Feed(r, buffers[..|buffers| - 1]), buffers[|buffers| - 1])
  }

  ghost predicate Growing(buffers: seq<string>) {
    forall j, k :: 0 <= j < k < |buffers| ==> buffers[j] <= buffers[k]
  }

  /** However the bytes arrive, the first line, the message and how far it was scanned are those of one call
      with all of them. */
  lemma {:induction false} ChunksDoNotMatter(buffers: seq<string>)
    requires buffers != [] && Growing(buffers)
    ensures Feed(NOTHING_READ, buffers) == Read(NOTHING_READ, buffers[|buffers| - 1])
    decreases |buffers|
  {
    hide Read;
    var before := buffers[..|buffers| - 1];
    if before != [] {
      ChunksDoNotMatter(before);
      ReadTwice(before[|before| - 1], buffers[|buffers| - 1]);
    } else {
      assert Feed(NOTHING_READ, before) == NOTHING_READ;
    }
  }

  /** The bytes start with a whole message: a header section that ends and is well formed, and its body. */
  predicate HasMessage(buf: string) {
    match FindEnd(buf, 0)
    case None => false
    case Some(p) =>
      var parsed := ParseLines(AfterLine(buf[..p]), map[]);
      var size := ContentLength(parsed.headers) + p + 4;
      parsed.ok && size <= |buf| && ContentLength(parsed.headers) <= MAX_SIZE
  }

  /** A message that starts with the end of a header section is never read. */
  lemma NeverComplete(buffers: seq<string>)
    requires buffers != [] && Growing(buffers) && END <= buffers[|buffers| - 1]
    ensures Feed(NOTHING_READ, buffers) == NOTHING_READ
  {
    hide Feed, ParseLines, TakeLine;
    ChunksDoNotMatter(buffers);
    FindEndAt(buffers[|buffers| - 1], 0);
  }

  lemma CompleteWithoutEnd(buf: string)
    requires FindEnd(buf, 0) == None
    ensures !Decode(EMPTY, buf).0.complete && !HasMessage(buf)
  {
  }

  /** The end of a header section is where the bytes start exactly when it is found there; then nothing is read. */
  lemma StartsWithEnd(buf: string, p: nat)
    requires FindEnd(buf, 0) == Some(p)
    ensures p == 0 <==> END <= buf
    ensures p == 0 ==> !Decode(EMPTY, buf).0.complete
  {
    if END <= buf {
      FindEndAt(buf, 0);
    }
  }

  lemma DecodeHead(buf: string, p: nat)
    requires FindEnd(buf, 0) == Some(p) && p > 0
    ensures Decode(EMPTY, buf) == TakeHead(EMPTY, buf, p)
  {
    hide TakeHead;
  }

  /** Short, without the wrap-around: the message is complete with its header section exactly when the body
      is there. */
  lemma HeadComplete(buf: string, p: nat)
    requires FindEnd(buf, 0) == Some(p)
    ensures TakeHead(EMPTY, buf, p).0.complete <==> HasMessage(buf)
  {
    hide ParseLines, AfterLine, TakeLine, ContentLength, Header;
  }

  /** However the bytes arrive, a message is complete exactly when all of it is there, unless it starts with
      the end of a header section. */
  lemma CompleteExactly(buffers: seq<string>)
    requires buffers != [] && Growing(buffers)
    ensures var buf := buffers[|buffers| - 1];
      Feed(NOTHING_READ, buffers).msg.complete <==> HasMessage(buf) && !(END <= buf)
  {
    hide Feed, HasMessage, Decode, TakeHead;
    var buf := buffers[|buffers| - 1];
    ChunksDoNotMatter(buffers);
    match FindEnd(buf, 0) {
      case None => CompleteWithoutEnd(buf);
      case Some(p) =>
        StartsWithEnd(buf, p);
        if p > 0 {
          DecodeHead(buf, p);
          HeadComplete(buf, p);
        }
    }
  }

  lemma EmptyHeadIsMessage()
    ensures HasMessage(END)
  {
    FindEndAt(END, 0);
    assert END[..0] == [] && AfterLine([]) == [];
  }

  /** All of it is there, but it is never complete. */
  lemma EmptyHeadIsWhole(buffers: seq<string>)
    requires buffers != [] && Growing(buffers) && buffers[|buffers| - 1] == END
    ensures HasMessage(END) && !Feed(NOTHING_READ, buffers).msg.complete
  {
    hide HasMessage, Feed;
    EmptyHeadIsMessage();
    NeverComplete(buffers);
  }

  /** A negative content length: the exception comes exactly when the wrapped sum is not past the header
      section, whatever the bytes that follow. */
  lemma NegativeLength(buf: string, p: nat)
    requires FindEnd(buf, 0) == Some(p) && p > 0 && |buf| <= MAX_SIZE
    requires var parsed := ParseLines(AfterLine(buf[..p]), map[]);
      parsed.ok && Clamped(Atoll(Header(parsed.headers, "content-length"))) < 0
    ensures var n := Clamped(Atoll(Header(ParseLines(AfterLine(buf[..p]), map[]).headers, "content-length")));
      Decode(EMPTY, buf).1 == LengthError <==> -n <= p + 4
  {
    hide FindEnd, Decode, TakeHead, ParseLines, AfterLine, Header, Atoll, Clamped;
    DecodeHead(buf, p);
    var parsed := ParseLines(AfterLine(buf[..p]), map[]);
    NegativeHead(buf, p, parsed.headers, Clamped(Atoll(Header(parsed.headers, "content-length"))));
  }

  lemma NegativeHead(buf: string, p: nat, headers: Headers, n: int)
    requires p + 4 <= |buf| <= MAX_SIZE && ParseLines(AfterLine(buf[..p]), map[]) == Parsed(true, headers)
    requires n == Clamped(Atoll(Header(headers, "content-length"))) && n < 0
    ensures TakeHead(EMPTY, buf, p).1 == LengthError <==> -n <= p + 4
  {
    hide TakeHead, ParseLines, AfterLine, Header, Atoll, ContentLength, Clamped, Short;
    NegativeContentLength(headers);
    HeadTooLong(buf, p, headers);
    NegativeShort(buf, ContentLength(headers), n, p + 4);
  }

  lemma NegativeContentLength(headers: Headers)
    requires Clamped(Atoll(Header(headers, "content-length"))) < 0
    ensures ContentLength(headers) == Clamped(Atoll(Header(headers, "content-length"))) + WORD
    ensures Clamped(Atoll(Header(headers, "content-length"))) >= -MAX_SIZE - 1
  {
    hide Atoll, Header;
  }

  lemma HeadTooLong(buf: string, p: nat, headers: Headers)
    requires p + 4 <= |buf| && ParseLines(AfterLine(buf[..p]), map[]) == Parsed(true, headers)
    requires ContentLength(headers) > MAX_SIZE
    ensures TakeHead(EMPTY, buf, p).1 == LengthError <==> !Short(buf, ContentLength(headers), p + 4)
  {
    hide ParseLines, AfterLine, TakeLine, Header, ContentLength, Short;
  }

  lemma NegativeShort(buf: string, length: nat, n: int, position: nat)
    requires length == n + WORD && -MAX_SIZE - 1 <= n < 0 && position <= |buf| <= MAX_SIZE
    ensures !Short(buf, length, position) <==> -n <= position
  {
  }
}
