/**
 What printing and parsing an HTTP message (Net/HTTP/http.cpp) cannot give back: fields that are not single
 trimmed lines with a name that is a word, and first lines that do not fit the printer's buffer.
 */
module HttpLimits {
  import opened HttpGrammar
  import opened HttpParser
  import opened HttpPrinter
  import opened Options
  import opened StringPiece

  // ---------------------------------------------------------------- fields

  ghost predicate NoSpace(s: string) {
    forall k :: 0 <= k < |s| ==> !IsSpace(s[k])
  }

  /** Names are words and values trimmed lines. */
  ghost predicate HeadersOk(headers: Headers) {
    forall name :: name in headers ==> NoSpace(name) && Trimmed(headers[name])
  }

  lemma {:induction false} TakeWordSpaceless(s: string)
    ensures NoSpace(TakeWord(s))
  {
    if s != [] && !IsSpace(s[0]) {
      TakeWordSpaceless(s[1..]);
    }
  }

  lemma {:induction false} TakeLinePlain(s: string)
    ensures Plain(TakeLine(s))
  {
    if s != [] && !IsBreak(s[0]) {
      TakeLinePlain(s[1..]);
    }
  }

  lemma {:induction false} SkipSpacePart(s: string)
    ensures SkipSpace(s) == [] || !IsSpace(SkipSpace(s)[0])
    ensures |SkipSpace(s)| <= |s| && SkipSpace(s) == s[|s| - |SkipSpace(s)|..]
  {
    if s != [] && IsSpace(s[0]) {
      SkipSpacePart(s[1..]);
    }
  }

  lemma {:induction false} TrimEndPart(s: string)
    ensures TrimEnd(s) == [] || !IsSpace(TrimEnd(s)[|TrimEnd(s)| - 1])
    ensures TrimEnd(s) <= s
  {
    if s != [] && IsSpace(s[|s| - 1]) {
      TrimEndPart(s[..|s| - 1]);
    }
  }

  /** What is left of a line after trimming. */
  lemma TrimPart(s: string)
    requires Plain(s)
    ensures |Trim(s)| <= |s| && (Trim(s) == [] || Trimmed(Trim(s)))
  {
    hide SkipSpace, TrimEnd;
    SkipSpacePart(s);
    TrimEndPart(SkipSpace(s));
    assert Plain(SkipSpace(s));
  }

  lemma AfterWordPlain(line: string)
    requires Plain(line)
    ensures Plain(AfterWord(line)) && |Word(line)| + |AfterWord(line)| <= |line|
  {
    SkipSpacePart(line);
    assert Plain(SkipSpace(line));
    TakeWordPrefix(SkipSpace(line));
  }

  lemma NoSpaceFirst(c: char, s: string)
    ensures NoSpace([c] + s) <==> !IsSpace(c) && NoSpace(s)
  {
    if NoSpace([c] + s) {
      forall k | 0 <= k < |s|
        ensures !IsSpace(s[k])
      {
        assert s[k] == ([c] + s)[k + 1];
      }
      assert c == ([c] + s)[0];
    }
  }

  lemma {:induction false} LowerSpaces(s: string)
    ensures |Lower(s)| == |s| && (NoSpace(Lower(s)) <==> NoSpace(s))
  {
    if s != [] {
      LowerSpaces(s[1..]);
      NoSpaceFirst(s[0], s[1..]);
      NoSpaceFirst(ToLower(s[0]), Lower(s[1..]));
      assert s == [s[0]] + s[1..];
    }
  }

  /** A field that is parsed has a name without white space and a trimmed value. */
  lemma NamedOk(s: string)
    requires s != [] && LineAt(s).Named?
    ensures NoSpace(LineAt(s).name) && Trimmed(LineAt(s).value)
    ensures |LineAt(s).name| + 1 + |LineAt(s).value| <= |TakeLine(s[2..])|
  {
    hide TakeLine, TakeWord, SkipSpace, Lower, Trim;
    var line := TakeLine(s[2..]);
    TakeLinePlain(s[2..]);
    var key := Word(line);
    TakeWordSpaceless(SkipSpace(line));
    AfterWordPlain(line);
    TrimPart(AfterWord(line));
    LowerSpaces(key[..|key| - 1]);
  }

  lemma {:induction false} ParsedHeaders(s: string, headers: Headers)
    requires HeadersOk(headers)
    ensures HeadersOk(ParseLines(s, headers).headers)
    decreases |s|
  {
    hide LineAt, AfterLine, Trimmed, NoSpace;
    if s != [] {
      var line := LineAt(s);
      if line.Named? {
        NamedOk(s);
        ParsedHeaders(AfterLine(s[2..]), headers[line.name := line.value]);
      }
    }
  }

  /** All names are different in lower case. */
  ghost predicate DistinctNames(fields: seq<Field>) {
    forall j, k :: 0 <= j < k < |fields| ==> Lower(fields[j].name) != Lower(fields[k].name)
  }

  /** Headers that were parsed are those of the fields only if the fields are single trimmed lines. */
  lemma FieldsFromHeaders(fields: seq<Field>, s: string)
    requires DistinctNames(fields) && ParseLines(s, map[]).headers == Collect(fields, map[])
    ensures forall k :: 0 <= k < |fields| ==> FieldOk(fields[k])
  {
    hide ParseLines, Collect, Lower, Trimmed;
    ParsedHeaders(s, map[]);
    forall k | 0 <= k < |fields|
      ensures FieldOk(fields[k])
    {
      LastField(fields, map[], k);
      LowerSpaces(fields[k].name);
    }
  }

  // ---------------------------------------------------------------- first lines that are too long

  /** The header section of what is printed with this start is not read as these fields. */
  ghost predicate Misread(start: string, fields: seq<Field>, tail: string) {
    var buf := start + Lines(FieldLines(fields)) + CRLF + tail;
    FindEnd(buf, 0).Some? && ParseLines(AfterLine(buf[..FindEnd(buf, 0).value]), map[]) != Parsed(true, Collect(fields, map[]))
  }

  /** It is read as these other fields. */
  ghost predicate ReadAs(start: string, fields: seq<Field>, tail: string, others: seq<Field>) {
    var buf := start + Lines(FieldLines(fields)) + CRLF + tail;
    FindEnd(buf, 0).Some? && ParseLines(AfterLine(buf[..FindEnd(buf, 0).value]), map[]) == Parsed(true, Collect(others, map[]))
  }

  function Shortened(f: Field): Field
    requires f.name != []
  {
    Field(f.name[1..], f.value)
  }

  /** A first line that does not fit the printer's buffer spoils the fields: the first one is missing, or only
      the first character of its name is when just the line feed does not fit. */
  lemma TooLong(line1: string, fields: seq<Field>, tail: string)
    requires Plain(line1) && |line1| + 2 > 4095 && fields != [] && DistinctNames(fields)
    requires forall k :: 0 <= k < |fields| ==> FieldOk(fields[k])
    ensures Misread(Clipped(line1 + CRLF), fields, tail)
    ensures |line1| > 4094 ==> ReadAs(Clipped(line1 + CRLF), fields, tail, fields[1..])
    ensures |line1| == 4094 && fields[0].name != [] ==>
      ReadAs(Clipped(line1 + CRLF), fields, tail, [Shortened(fields[0])] + fields[1..])
  {
    hide Misread, ReadAs, DistinctNames, FieldOk;
    if |line1| == 4094 {
      TooLongByOne(line1, fields, tail);
      if fields[0].name != [] {
        ShortenedByOne(line1, fields, tail);
      }
    } else {
      CutOff(line1[..4095], fields, tail);
      assert Clipped(line1 + CRLF) == line1[..4095];
    }
  }

  /** Without its line break, the first line swallows the first field. */
  lemma CutOff(cut: string, fields: seq<Field>, tail: string)
    requires Plain(cut) && cut != [] && fields != [] && DistinctNames(fields)
    requires forall k :: 0 <= k < |fields| ==> FieldOk(fields[k])
    ensures Misread(cut, fields, tail) && ReadAs(cut, fields, tail, fields[1..])
  {
    hide FindEnd, ParseLines, AfterLine, TakeLine, Collect, Lower, DistinctNames, Lines, FieldLines, FieldLine, FieldOk;
    FieldLinePlain(fields[0]);
    assert Plain(cut + FieldLine(fields[0]));
    var text := HeadParses(cut + FieldLine(fields[0]), fields[1..], tail);
    LinesFirst(cut, fields);
    HeadOf(text, tail);
    MissingField(fields);
  }

  lemma HeadOf(text: string, tail: string)
    requires |text| >= 3
    ensures (text + CRLF + tail)[..|text| - 2] == text[..|text| - 2]
  {
  }

  lemma LinesFirst(cut: string, fields: seq<Field>)
    requires fields != []
    ensures cut + Lines(FieldLines(fields)) == Lines([cut + FieldLine(fields[0])] + FieldLines(fields[1..]))
  {
    hide Lines, FieldLine;
    var line, rest := FieldLine(fields[0]), FieldLines(fields[1..]);
    assert FieldLines(fields) == [line] + rest;
    LinesCons(line, rest);
    LinesCons(cut + line, rest);
    assert cut + (line + CRLF + Lines(rest)) == cut + line + CRLF + Lines(rest);
  }

  lemma LinesCons(line: string, rest: seq<string>)
    ensures Lines([line] + rest) == line + CRLF + Lines(rest)
  {
    assert ([line] + rest)[1..] == rest;
  }

  lemma MissingField(fields: seq<Field>)
    requires fields != [] && DistinctNames(fields)
    ensures Lower(fields[0].name) !in Collect(fields[1..], map[]) && Lower(fields[0].name) in Collect(fields, map[])
    ensures Collect(fields, map[])[Lower(fields[0].name)] == fields[0].value
  {
    hide Lower, Collect;
    NoField(fields[1..], Lower(fields[0].name));
    LastField(fields, map[], 0);
  }

  /** When only the line feed is cut off, the first field loses its first character. */
  lemma TooLongByOne(line1: string, fields: seq<Field>, tail: string)
    requires Plain(line1) && |line1| == 4094 && fields != [] && DistinctNames(fields)
    requires forall k :: 0 <= k < |fields| ==> FieldOk(fields[k])
    ensures Misread(Clipped(line1 + CRLF), fields, tail)
  {
    hide FindEnd, ParseLines, AfterLine, TakeLine, Collect, Lower, DistinctNames, LineAt, Lines, FieldLines, FieldLine, FieldOk, Section;
    assert Clipped(line1 + CRLF) == line1 + "\r";
    ReturnHead(line1, fields, tail);
    var section := Section(FieldLines(fields[1..]));
    SectionStart(FieldLines(fields[1..]));
    TakeLineOf(line1, "\r" + FieldLine(fields[0]) + section);
    ParseSection(fields[1..], map[]);
    AfterLost(fields, section);
  }

  lemma ShortenedByOne(line1: string, fields: seq<Field>, tail: string)
    requires Plain(line1) && |line1| == 4094 && fields != [] && fields[0].name != []
    requires forall k :: 0 <= k < |fields| ==> FieldOk(fields[k])
    ensures ReadAs(Clipped(line1 + CRLF), fields, tail, [Shortened(fields[0])] + fields[1..])
  {
    hide FindEnd, ParseLines, AfterLine, TakeLine, Collect, Lines, FieldLines, FieldLine, FieldOk, Section, Plain, Shortened;
    assert Clipped(line1 + CRLF) == line1 + "\r";
    ReturnHead(line1, fields, tail);
    var section := Section(FieldLines(fields[1..]));
    TakeLineOf(line1, "\r" + FieldLine(fields[0]) + section);
    ShortenedSection(fields);
  }

  lemma ShortenedSection(fields: seq<Field>)
    requires fields != [] && fields[0].name != []
    requires forall k :: 0 <= k < |fields| ==> FieldOk(fields[k])
    ensures ParseLines("\r" + FieldLine(fields[0]) + Section(FieldLines(fields[1..])), map[])
         == Parsed(true, Collect([Shortened(fields[0])] + fields[1..], map[]))
  {
    hide ParseLines, Collect, FieldLine, FieldOk, Section;
    var first, section := Shortened(fields[0]), Section(FieldLines(fields[1..]));
    var others := [first] + fields[1..];
    ShortenedLine(fields[0]);
    forall k | 0 <= k < |others|
      ensures FieldOk(others[k])
    {
      assert k > 0 ==> others[k] == fields[k];
    }
    ParseSection(others, map[]);
    assert others[1..] == fields[1..];
    SectionCons(FieldLine(first), FieldLines(fields[1..]));
    assert ("\r" + FieldLine(fields[0]) + section)[2..] == (CRLF + FieldLine(first) + section)[2..];
    ParseFromThird("\r" + FieldLine(fields[0]) + section, CRLF + FieldLine(first) + section);
  }

  lemma SectionCons(line: string, lines: seq<string>)
    ensures Section([line] + lines) == CRLF + line + Section(lines)
  {
    assert ([line] + lines)[1..] == lines;
  }

  lemma ShortenedLine(f: Field)
    requires FieldOk(f) && f.name != []
    ensures FieldOk(Shortened(f)) && FieldLine(f) == [f.name[0]] + FieldLine(Shortened(f)) && |FieldLine(Shortened(f))| >= 2
  {
    hide Trimmed;
    assert f.name == [f.name[0]] + f.name[1..];
  }

  /** The two characters before a line make no difference. */
  lemma ParseFromThird(s: string, s': string)
    requires |s| == |s'| >= 2 && s[2..] == s'[2..]
    ensures ParseLines(s, map[]) == ParseLines(s', map[])
  {
    hide TakeLine, AfterLine, Word, AfterWord, Trim, Lower;
    assert LineAt(s) == LineAt(s');
  }

  lemma ReturnHead(line1: string, fields: seq<Field>, tail: string)
    requires Plain(line1) && fields != [] && forall k :: 0 <= k < |fields| ==> FieldOk(fields[k])
    ensures var buf := line1 + "\r" + Lines(FieldLines(fields)) + CRLF + tail;
      && FindEnd(buf, 0).Some?
      && buf[..FindEnd(buf, 0).value] == line1 + ("\r" + FieldLine(fields[0]) + Section(FieldLines(fields[1..])))
  {
    hide FindEnd, Lines, FieldLines, FieldLine, FieldOk, Section, Plain;
    FieldLinesLong(fields);
    ReturnSpaced(line1, FieldLines(fields));
    var text := line1 + "\r" + Lines(FieldLines(fields));
    ScanLines(text, tail, 0);
    HeadOf(text, tail);
    ReturnSection(line1, fields);
  }

  lemma FieldLinesLong(fields: seq<Field>)
    requires fields != [] && forall k :: 0 <= k < |fields| ==> FieldOk(fields[k])
    ensures FieldLines(fields) != []
    ensures forall k :: 0 <= k < |FieldLines(fields)| ==> Plain(FieldLines(fields)[k]) && |FieldLines(fields)[k]| >= 2
  {
    hide FieldLine, FieldOk;
    FieldLinesPlain(fields);
    forall k | 0 <= k < |fields|
      ensures |FieldLines(fields)[k]| >= 2
    {
      FieldLinesAt(fields, k);
    }
  }

  lemma {:induction false} FieldLinesAt(fields: seq<Field>, k: nat)
    requires k < |fields|
    ensures k < |FieldLines(fields)| && FieldLines(fields)[k] == FieldLine(fields[k]) && |FieldLine(fields[k])| >= 2
    decreases |fields|
  {
    if k > 0 {
      FieldLinesAt(fields[1..], k - 1);
    }
  }

  lemma ReturnSection(line1: string, fields: seq<Field>)
    requires fields != []
    ensures var text := line1 + "\r" + Lines(FieldLines(fields));
      |text| >= 3 && text[..|text| - 2] == line1 + ("\r" + FieldLine(fields[0]) + Section(FieldLines(fields[1..])))
  {
    hide Lines, Section, FieldLine;
    var first, others := FieldLine(fields[0]), FieldLines(fields[1..]);
    assert FieldLines(fields) == [first] + others;
    LinesSection(first, others);
    var section := Section(others);
    var text := line1 + "\r" + (first + section + CRLF);
    assert text == line1 + ("\r" + first + section) + CRLF;
  }

  /** The scan passes a lone carriage return. */
  lemma ReturnSpaced(line1: string, lines: seq<string>)
    requires Plain(line1) && lines != []
    requires forall k :: 0 <= k < |lines| ==> Plain(lines[k]) && |lines[k]| >= 2
    ensures var text := line1 + "\r" + Lines(lines);
      Spaced(text) && |text| >= 3 && text[|text| - 2..] == CRLF
  {
    LinesSpaced(lines);
    var text, rest := line1 + "\r" + Lines(lines), Lines(lines);
    assert rest[1] == lines[0][1];
    forall k | 0 <= k < |text| - 2
      ensures text[k] == '\r' ==> text[k + 2] != '\r'
    {
      if k < |line1| {
        assert text[k] == line1[k];
      } else if k > |line1| {
        var j := k - |line1| - 1;
        assert text[k] == rest[j] && text[k + 2] == rest[j + 2];
      }
    }
    assert text[|text| - 2..] == rest[|rest| - 2..];
  }

  /** The line without its first character is no field, or a shorter one. */
  lemma LostCharacter(f: Field, rest: string)
    requires FieldOk(f) && (rest == [] || IsBreak(rest[0]))
    ensures var s := "\r" + FieldLine(f) + rest;
      && AfterLine(s[2..]) == rest && !LineAt(s).Blank?
      && (LineAt(s).Named? ==> Lower(f.name) != LineAt(s).name || f.value != LineAt(s).value)
  {
    hide Lower, FieldOk, FieldLine, TakeLine, AfterLine, Word, AfterWord, Trim;
    FieldLinePlain(f);
    var line := FieldLine(f)[1..];
    var s := "\r" + FieldLine(f) + rest;
    assert Plain(line);
    assert s[2..] == line + rest;
    TakeLineOf(line, rest);
    LostWords(f);
  }

  lemma LostWords(f: Field)
    requires FieldOk(f)
    ensures var line := FieldLine(f)[1..];
      Word(line) != [] && (Trim(AfterWord(line)) != f.value || Lower(Word(line)[..|Word(line)| - 1]) != Lower(f.name))
  {
    hide Lower, Word, AfterWord, Trim, Trimmed;
    var line := FieldLine(f)[1..];
    if f.name == [] {
      LostColon(f.value);
      assert line == [' '] + f.value;
    } else {
      var key := f.name[1..] + ":";
      assert line == key + ([' '] + f.value);
      WordOf(key, [' '] + f.value);
      assert key[..|key| - 1] == f.name[1..];
      LowerSpaces(f.name);
      LowerSpaces(f.name[1..]);
    }
  }

  lemma LostColon(value: string)
    requires Trimmed(value)
    ensures Word([' '] + value) != [] && |Trim(AfterWord([' '] + value))| < |value|
  {
    assert ([' '] + value)[1..] == value;
    assert SkipSpace([' '] + value) == value;
    TakeWordPrefix(value);
    AfterWordPlain([' '] + value);
    TrimPart(AfterWord([' '] + value));
  }

  lemma AfterLost(fields: seq<Field>, section: string)
    requires fields != [] && DistinctNames(fields) && FieldOk(fields[0])
    requires section == [] || IsBreak(section[0])
    requires ParseLines(section, map[]) == Parsed(true, Collect(fields[1..], map[]))
    ensures ParseLines("\r" + FieldLine(fields[0]) + section, map[]) != Parsed(true, Collect(fields, map[]))
  {
    hide LineAt, AfterLine, Lower, Collect, DistinctNames;
    var s := "\r" + FieldLine(fields[0]) + section;
    LostCharacter(fields[0], section);
    MissingField(fields);
    var line := LineAt(s);
    if line.Named? {
      ParseLinesAdds(section, map[line.name := line.value]);
      assert map[][line.name := line.value] == map[line.name := line.value];
    }
  }
}
