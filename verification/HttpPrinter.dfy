/**
 Printing HTTP requests and responses (Net/HTTP/http.cpp, encode), and why parsing what was printed gives
 the message back.

 Headers are printed in the order in which a sorted map is walked; any order will do, and it is a
 parameter here.
 */
module HttpPrinter {
  import opened HttpParser
  import opened Options
  import opened StringPiece

  datatype Field = Field(name: string, value: string)

  const CRLF := "\r\n"

  // ---------------------------------------------------------------- printing

  /** A text as a C string: up to the first null character. */
  function CString(s: string): string {
    if s == [] || s[0] == 0 as char then [] else [s[0]] + CString(s[1..])
  }

  /** What snprintf leaves in a buffer of 4096 characters. */
  function Clipped(s: string): string {
    if |s| > 4095 then s[..4095] else s
  }

  function Decimal(n: nat): string {
    if n < 10 then [(n + '0' as nat) as char] else Decimal(n / 10) + [(n % 10 + '0' as nat) as char]
  }

  function FirstLine(a: string, b: string, c: string): string {
    CString(a) + " " + CString(b) + " " + CString(c)
  }

  function FieldLine(f: Field): string {
    f.name + ": " + f.value
  }

  /** Lines, each with its line break. */
  function Lines(lines: seq<string>): string {
    if lines == [] then [] else lines[0] + CRLF + Lines(lines[1..])
  }

  function FieldLines(fields: seq<Field>): seq<string> {
    if fields == [] then [] else [FieldLine(fields[0])] + FieldLines(fields[1..])
  }

  function Added(size: nat): seq<Field> {
    [Field("Connection", "Keep-Alive"), Field("Content-Length", Decimal(size))]
  }

  /** A message: its first line, the fields, those that are added, an empty line and the body. */
  function Printed(line1: string, fields: seq<Field>, body: string): string {
    Clipped(line1 + CRLF) + Lines(FieldLines(fields + Added(|body|))) + CRLF + body
  }

  /** The common part of both encode functions, after the first line. */
  method PrintRest(fields: seq<Field>, body: string) returns (buf: string)
    ensures buf == Lines(FieldLines(fields + Added(|body|))) + CRLF + body
  {
    buf := [];
    var i := 0;
    while i < |fields|
      invariant 0 <= i <= |fields|
      invariant Lines(FieldLines(fields + Added(|body|))) == buf + Lines(FieldLines(fields[i..] + Added(|body|)))
    {
      PrintStep(buf, fields[i..], Added(|body|));
      buf := buf + fields[i].name + ": " + fields[i].value + CRLF;
      i := i + 1;
    }
    assert fields[i..] + Added(|body|) == Added(|body|);
    PrintAdded(|body|);
    buf := buf + "Connection: Keep-Alive\r\n";
    buf := buf + "Content-Length: " + Decimal(|body|) + "\r\n";
    buf := buf + "\r\n";
    buf := buf + body;
  }

  lemma PrintStep(buf: string, fields: seq<Field>, added: seq<Field>)
    requires fields != []
    ensures buf + Lines(FieldLines(fields + added))
      == buf + fields[0].name + ": " + fields[0].value + CRLF + Lines(FieldLines(fields[1..] + added))
  {
    assert (fields + added)[1..] == fields[1..] + added;
  }

  lemma PrintAdded(size: nat)
    ensures Lines(FieldLines(Added(size))) == "Connection: Keep-Alive\r\n" + ("Content-Length: " + Decimal(size) + "\r\n")
  {
    var a := Added(size);
    assert FieldLines(a[1..][1..]) == [];
    assert FieldLines(a[1..]) == [FieldLine(a[1])];
    assert FieldLines(a) == [FieldLine(a[0]), FieldLine(a[1])];
    assert Lines([FieldLine(a[1])]) == FieldLine(a[1]) + CRLF;
    assert FieldLine(a[0]) == "Connection: Keep-Alive";
    assert FieldLine(a[1]) == "Content-Length: " + Decimal(size);
  }

  // ---------------------------------------------------------------- texts without surprises

  /** Nothing that ends a line. */
  ghost predicate Plain(s: string) {
    forall k :: 0 <= k < |s| ==> !IsBreak(s[k])
  }

  /** A word: no white space. */
  ghost predicate Token(s: string) {
    s != [] && forall k :: 0 <= k < |s| ==> !IsSpace(s[k])
  }

  /** A value that trimming leaves as it is. */
  ghost predicate Trimmed(s: string) {
    s != [] && !IsSpace(s[0]) && !IsSpace(s[|s| - 1]) && Plain(s)
  }

  ghost predicate FieldOk(f: Field) {
    (forall k :: 0 <= k < |f.name| ==> !IsSpace(f.name[k])) && Trimmed(f.value)
  }

  lemma {:induction false} TakeWordOf(word: string, rest: string)
    requires (forall k :: 0 <= k < |word| ==> !IsSpace(word[k])) && (rest == [] || IsSpace(rest[0]))
    ensures TakeWord(word + rest) == word
  {
    if word != [] {
      assert (word + rest)[1..] == word[1..] + rest;
      TakeWordOf(word[1..], rest);
    } else {
      assert word + rest == rest;
    }
  }

  lemma {:induction false} TakeLineOf(line: string, rest: string)
    requires Plain(line) && (rest == [] || IsBreak(rest[0]))
    ensures TakeLine(line + rest) == line && AfterLine(line + rest) == rest
  {
    if line != [] {
      assert (line + rest)[1..] == line[1..] + rest;
      TakeLineOf(line[1..], rest);
    } else {
      assert line + rest == rest;
    }
  }

  /** The first word of a text that starts with it, and what follows. */
  lemma WordOf(word: string, rest: string)
    requires Token(word) && (rest == [] || IsSpace(rest[0]))
    ensures Word(word + rest) == word && AfterWord(word + rest) == rest
    ensures Word([' '] + word + rest) == word && AfterWord([' '] + word + rest) == rest
  {
    TakeWordOf(word, rest);
    assert (word + rest)[0] == word[0];
    assert SkipSpace(word + rest) == word + rest;
    var text := [' '] + word + rest;
    assert text[1..] == word + rest;
    assert SkipSpace(text) == SkipSpace(word + rest);
  }

  lemma TrimOf(value: string)
    requires Trimmed(value)
    ensures Trim([' '] + value) == value
  {
    assert ([' '] + value)[1..] == value;
    assert SkipSpace([' '] + value) == SkipSpace(value) == value;
  }

  // ---------------------------------------------------------------- numbers

  lemma {:induction false} DigitsAppend(a: string, c: char, acc: nat)
    requires (forall k :: 0 <= k < |a| ==> '0' <= a[k] <= '9') && '0' <= c <= '9'
    ensures Digits(a + [c], acc) == 10 * Digits(a, acc) + (c as nat - '0' as nat)
  {
    if a != [] {
      assert (a + [c])[1..] == a[1..] + [c];
      DigitsAppend(a[1..], c, 10 * acc + (a[0] as nat - '0' as nat));
    } else {
      assert a + [c] == [c] && [c][1..] == [];
    }
  }

  lemma {:induction false} DecimalDigits(n: nat)
    ensures Decimal(n) != [] && forall k :: 0 <= k < |Decimal(n)| ==> '0' <= Decimal(n)[k] <= '9'
  {
    if n >= 10 {
      DecimalDigits(n / 10);
    }
  }

  lemma {:induction false} DecimalValue(n: nat)
    ensures Digits(Decimal(n), 0) == n
  {
    if n >= 10 {
      DecimalValue(n / 10);
      DecimalDigits(n / 10);
      DigitsAppend(Decimal(n / 10), (n % 10 + '0' as nat) as char, 0);
    } else {
      var c := (n + '0' as nat) as char;
      assert Decimal(n) == [c] && [c][1..] == [];
    }
  }

  /** Reading a number that was printed. */
  lemma AtollDecimal(n: nat)
    ensures Atoll(Decimal(n)) == n && Trimmed(Decimal(n)) && Token(Decimal(n))
  {
    DecimalDigits(n);
    DecimalValue(n);
  }

  // ---------------------------------------------------------------- header lines

  /** The lines as the parser meets them, each behind its line break. */
  function Section(lines: seq<string>): string {
    if lines == [] then [] else CRLF + lines[0] + Section(lines[1..])
  }

  /** Printing puts the line breaks behind the lines, parsing before them. */
  lemma {:induction false} LinesSection(line: string, lines: seq<string>)
    ensures Lines([line] + lines) == line + Section(lines) + CRLF
    decreases |lines|
  {
    assert ([line] + lines)[1..] == lines;
    if lines != [] {
      LinesSection(lines[0], lines[1..]);
      assert [lines[0]] + lines[1..] == lines;
      Regrouped(line, CRLF, lines[0], Section(lines[1..]), CRLF);
    }
  }

  lemma Regrouped(a: string, b: string, c: string, d: string, e: string)
    ensures a + b + (c + d + e) == a + (b + c + d) + e
  {
  }

  /** The fields in lower case, later ones over earlier ones. */
  function Collect(fields: seq<Field>, headers: Headers): Headers {
    if fields == [] then headers else Collect(fields[1..], headers[Lower(fields[0].name) := fields[0].value])
  }

  lemma FieldLineAt(f: Field, rest: string)
    requires FieldOk(f) && (rest == [] || IsBreak(rest[0]))
    ensures LineAt(CRLF + FieldLine(f) + rest) == Named(Lower(f.name), f.value)
    ensures AfterLine((CRLF + FieldLine(f) + rest)[2..]) == rest
  {
    hide Lower;
    var line := FieldLine(f);
    var s := CRLF + line + rest;
    assert s[2..] == line + rest;
    FieldLinePlain(f);
    TakeLineOf(line, rest);
    var key := f.name + ":";
    assert line == key + ([' '] + f.value);
    WordOf(key, [' '] + f.value);
    TrimOf(f.value);
    assert key[..|key| - 1] == f.name;
  }

  lemma FieldLinePlain(f: Field)
    requires FieldOk(f)
    ensures Plain(FieldLine(f)) && FieldLine(f) != []
  {
    var line := FieldLine(f);
    forall k | 0 <= k < |line|
      ensures !IsBreak(line[k])
    {
      if k < |f.name| {
        assert line[k] == f.name[k];
      } else if k >= |f.name| + 2 {
        assert line[k] == f.value[k - |f.name| - 2];
      }
    }
  }

  /** The header lines that were printed are parsed into the fields. */
  lemma {:induction false} ParseSection(fields: seq<Field>, headers: Headers)
    requires forall k :: 0 <= k < |fields| ==> FieldOk(fields[k])
    ensures ParseLines(Section(FieldLines(fields)), headers) == Parsed(true, Collect(fields, headers))
    decreases |fields|
  {
    hide LineAt, AfterLine, Lower;
    if fields != [] {
      var rest := Section(FieldLines(fields[1..]));
      assert FieldLines(fields)[1..] == FieldLines(fields[1..]);
      assert rest == [] || rest[0] == '\r';
      FieldLineAt(fields[0], rest);
      ParseSection(fields[1..], headers[Lower(fields[0].name) := fields[0].value]);
    }
  }

  // ---------------------------------------------------------------- the end of the header section

  /** Two places after a carriage return there is never another one. */
  ghost predicate Spaced(s: string) {
    forall k :: 0 <= k < |s| - 2 && s[k] == '\r' ==> s[k + 2] != '\r'
  }

  lemma {:induction false} LinesSpaced(lines: seq<string>)
    requires forall k :: 0 <= k < |lines| ==> Plain(lines[k]) && lines[k] != []
    ensures Spaced(Lines(lines))
    ensures lines != [] ==> |Lines(lines)| >= 3 && Lines(lines)[0] != '\r' && Lines(lines)[|Lines(lines)| - 2..] == CRLF
    decreases |lines|
  {
    if lines != [] {
      LinesSpaced(lines[1..]);
      LineSpaced(lines[0], Lines(lines[1..]));
    }
  }

  lemma LineSpaced(line: string, rest: string)
    requires Plain(line) && line != [] && Spaced(rest)
    requires rest != [] ==> |rest| >= 3 && rest[0] != '\r' && rest[|rest| - 2..] == CRLF
    ensures Spaced(line + CRLF + rest)
    ensures var s := line + CRLF + rest; |s| >= 3 && s[0] != '\r' && s[|s| - 2..] == CRLF
  {
    var s := line + CRLF + rest;
    forall k | 0 <= k < |s| - 2
      ensures s[k] == '\r' ==> s[k + 2] != '\r'
    {
      if k < |line| {
        assert s[k] == line[k];
      } else if k >= |line| + 2 {
        var j := k - |line| - 2;
        assert s[k] == rest[j] && s[k + 2] == rest[j + 2];
      }
    }
    assert s[0] == line[0];
    if rest == [] {
      assert s[|s| - 2..] == CRLF;
    } else {
      assert s[|s| - 2..] == rest[|rest| - 2..];
    }
  }

  /** The scan does not stop before the lines are at their end. */
  lemma {:induction false} ScanLines(text: string, tail: string, from: nat)
    requires Spaced(text) && |text| >= 3 && text[|text| - 2..] == CRLF && from <= |text| - 2
    ensures FindEnd(text + CRLF + tail, from) == Some(|text| - 2)
    decreases |text| - from
  {
    var buf := text + CRLF + tail;
    if from == |text| - 2 {
      assert buf[from..from + 4] == text[|text| - 2..] + CRLF;
    } else {
      var window := buf[from..from + 4];
      assert window[0] == text[from] && window[2] == text[from + 2] && END[0] == END[2] == '\r';
      ScanLines(text, tail, from + 1);
    }
  }

  // ---------------------------------------------------------------- the round trip

  lemma AddedOk(size: nat)
    ensures FieldOk(Added(size)[0]) && FieldOk(Added(size)[1])
  {
    AtollDecimal(size);
  }

  lemma {:induction false} CollectAdded(fields: seq<Field>, headers: Headers, size: nat)
    ensures Collect(fields + Added(size), headers)
      == Collect(fields, headers)["connection" := "Keep-Alive"]["content-length" := Decimal(size)]
    decreases |fields|
  {
    hide Lower, Decimal;
    if fields == [] {
      assert fields + Added(size) == Added(size);
      LowerAdded();
      CollectTwo(Added(size)[0], Added(size)[1], headers);
    } else {
      assert (fields + Added(size))[1..] == fields[1..] + Added(size);
      CollectAdded(fields[1..], headers[Lower(fields[0].name) := fields[0].value], size);
    }
  }

  lemma CollectTwo(f: Field, g: Field, headers: Headers)
    ensures Collect([f, g], headers) == headers[Lower(f.name) := f.value][Lower(g.name) := g.value]
  {
    hide Lower;
    assert [f, g][1..] == [g] && [g][1..] == [];
    var first := headers[Lower(f.name) := f.value];
    assert Collect([f, g], headers) == Collect([g], first) == Collect([], first[Lower(g.name) := g.value]);
  }

  lemma {:induction false} LowerFixed(s: string)
    requires forall k :: 0 <= k < |s| ==> !('A' <= s[k] <= 'Z')
    ensures Lower(s) == s
  {
    if s != [] {
      LowerFixed(s[1..]);
    }
  }

  lemma LowerCapital(c: char, s: string)
    requires forall k :: 0 <= k < |s| ==> !('A' <= s[k] <= 'Z')
    ensures Lower([c] + s) == [ToLower(c)] + s
  {
    assert ([c] + s)[1..] == s;
    LowerFixed(s);
  }

  lemma LowerAdded()
    ensures Lower("Connection") == "connection" && Lower("Content-Length") == "content-length"
  {
    hide Lower;
    LowerCapital('C', "onnection");
    assert ['C'] + "onnection" == "Connection" && ['c'] + "onnection" == "connection";
    LowerCapital('C', "ontent-");
    LowerCapital('L', "ength");
    LowerCat(['C'] + "ontent-", ['L'] + "ength");
    assert ['C'] + "ontent-" + (['L'] + "ength") == "Content-Length";
    assert ['c'] + "ontent-" + (['l'] + "ength") == "content-length";
  }

  lemma {:induction false} LowerCat(a: string, b: string)
    ensures Lower(a + b) == Lower(a) + Lower(b)
  {
    if a != [] {
      assert (a + b)[1..] == a[1..] + b;
      LowerCat(a[1..], b);
    } else {
      assert a + b == b;
    }
  }

  /** The message that parsing a printed message leaves. */
  function Expected(line1: string, fields: seq<Field>, body: string): Msg {
    Msg(Collect(fields, map[])["connection" := "Keep-Alive"]["content-length" := Decimal(|body|)],
        |body|, |Printed(line1, fields, body)|, true, body)
  }

  /** A first line that is printed as it is. */
  ghost predicate LineOk(line: string) {
    Plain(line) && line != [] && |line| + 2 <= 4095
  }

  lemma {:induction false} FieldLinesPlain(fields: seq<Field>)
    requires forall k :: 0 <= k < |fields| ==> FieldOk(fields[k])
    ensures |FieldLines(fields)| == |fields|
    ensures forall k :: 0 <= k < |fields| ==> Plain(FieldLines(fields)[k]) && FieldLines(fields)[k] != []
    decreases |fields|
  {
    if fields != [] {
      FieldLinePlain(fields[0]);
      FieldLinesPlain(fields[1..]);
    }
  }

  /** A header section as the parser finds it: where it ends, its first line, and its fields. */
  lemma HeadParses(line1: string, fields: seq<Field>, tail: string) returns (text: string)
    requires Plain(line1) && line1 != [] && forall k :: 0 <= k < |fields| ==> FieldOk(fields[k])
    ensures text == Lines([line1] + FieldLines(fields)) && |text| >= 3
    ensures FindEnd(text + CRLF + tail, 0) == Some(|text| - 2)
    ensures TakeLine(text[..|text| - 2]) == line1
    ensures ParseLines(AfterLine(text[..|text| - 2]), map[]) == Parsed(true, Collect(fields, map[]))
  {
    hide FindEnd, TakeLine, AfterLine, ParseLines, Collect;
    var lines := FieldLines(fields);
    FieldLinesPlain(fields);
    text := Lines([line1] + lines);
    assert ([line1] + lines)[1..] == lines;
    LinesSpaced([line1] + lines);
    ScanLines(text, tail, 0);
    LinesSection(line1, lines);
    assert text[..|text| - 2] == line1 + Section(lines);
    SectionStart(lines);
    TakeLineOf(line1, Section(lines));
    ParseSection(fields, map[]);
  }

  /** A printed message is a header section and what follows. */
  lemma PrintedParts(line1: string, fields: seq<Field>, body: string, rest: string)
    requires LineOk(line1)
    ensures var text := Lines([line1] + FieldLines(fields + Added(|body|)));
      && Printed(line1, fields, body) + rest == text + CRLF + (body + rest)
      && |Printed(line1, fields, body)| == |text| + 2 + |body|
  {
    hide Decimal;
    var lines := FieldLines(fields + Added(|body|));
    assert ([line1] + lines)[1..] == lines;
    var text := Lines([line1] + lines);
    assert text + CRLF + (body + rest) == text + CRLF + body + rest;
  }

  /** A printed message is parsed from the front of any bytes that start with it: all of it is taken, and
      the first line, the fields and the body are those that were printed. */
  lemma PrintedParses(line1: string, fields: seq<Field>, body: string, rest: string)
    requires LineOk(line1) && forall k :: 0 <= k < |fields| ==> FieldOk(fields[k])
    requires |body| <= MAX_SIZE
    ensures Decode(EMPTY, Printed(line1, fields, body) + rest) == (Expected(line1, fields, body), Complete, line1)
  {
    hide FindEnd, ParseLines, TakeLine, AfterLine, Printed, Collect, Atoll, Decimal, FieldLines, Lines;
    var buf := Printed(line1, fields, body) + rest;
    AddedOk(|body|);
    PrintedParts(line1, fields, body, rest);
    var text := HeadParses(line1, fields + Added(|body|), body + rest);
    assert buf[..|text| - 2] == text[..|text| - 2];
    CollectAdded(fields, map[], |body|);
    AtollDecimal(|body|);
    assert buf[|text| + 2..|text| + 2 + |body|] == body;
  }

  lemma SectionStart(lines: seq<string>)
    ensures Section(lines) == [] || IsBreak(Section(lines)[0])
  {
  }
}
