/**
 Which bytes the HTTP parser (Net/HTTP/http.cpp) takes for a header section, and what a call with them comes
 to, said with characters and without the parser's own functions.
 */
module HttpGrammar {
  import opened HttpParser
  import opened HttpPrinter
  import opened Options
  import opened StringPiece

  // ---------------------------------------------------------------- characters

  /** isspace: the space and the characters from tab to carriage return. */
  predicate White(c: char) {
    c == ' ' || 9 <= c as int <= 13
  }

  predicate AllWhite(s: string) {
    forall k :: 0 <= k < |s| ==> White(s[k])
  }

  predicate NoWhite(s: string) {
    forall k :: 0 <= k < |s| ==> !White(s[k])
  }

  predicate OneLine(s: string) {
    forall k :: 0 <= k < |s| ==> s[k] != '\r' && s[k] != '\n'
  }

  predicate EndsLine(rest: string) {
    rest == [] || rest[0] == '\r' || rest[0] == '\n'
  }

  lemma SpaceIs()
    ensures forall c :: IsSpace(c) <==> White(c)
    ensures forall c :: IsBreak(c) <==> c == '\r' || c == '\n'
  {
  }

  // ---------------------------------------------------------------- words, lines and trimming

  lemma {:induction false} SkipSpaceOf(lead: string, rest: string)
    requires AllWhite(lead) && (rest == [] || !White(rest[0]))
    ensures SkipSpace(lead + rest) == rest
  {
    if lead != [] {
      assert White(lead[0]);
      assert (lead + rest)[1..] == lead[1..] + rest;
      SkipSpaceOf(lead[1..], rest);
    } else {
      assert lead + rest == rest;
    }
  }

  lemma {:induction false} SkipSpaceParts(s: string) returns (lead: string)
    ensures s == lead + SkipSpace(s) && AllWhite(lead) && (SkipSpace(s) == [] || !White(SkipSpace(s)[0]))
  {
    if s != [] && IsSpace(s[0]) {
      lead := SkipSpaceParts(s[1..]);
      lead := [s[0]] + lead;
    } else {
      lead := [];
    }
  }

  lemma {:induction false} TakeWordParts(s: string) returns (rest: string)
    ensures s == TakeWord(s) + rest && NoWhite(TakeWord(s)) && (rest == [] || White(rest[0]))
  {
    if s != [] && !IsSpace(s[0]) {
      rest := TakeWordParts(s[1..]);
    } else {
      rest := s;
    }
  }

  lemma {:induction false} TakeLineParts(s: string) returns (rest: string)
    ensures s == TakeLine(s) + rest && OneLine(TakeLine(s)) && EndsLine(rest) && AfterLine(s) == rest
  {
    if s != [] && !IsBreak(s[0]) {
      rest := TakeLineParts(s[1..]);
      assert s == [s[0]] + s[1..];
    } else {
      rest := s;
    }
  }

  lemma {:induction false} TrimEndOf(value: string, trail: string)
    requires AllWhite(trail) && (value == [] || !White(value[|value| - 1]))
    ensures TrimEnd(value + trail) == value
    decreases |trail|
  {
    if trail != [] {
      assert White(trail[|trail| - 1]);
      assert (value + trail)[..|value + trail| - 1] == value + trail[..|trail| - 1];
      TrimEndOf(value, trail[..|trail| - 1]);
    } else {
      assert value + trail == value;
    }
  }

  lemma {:induction false} TrimEndParts(s: string) returns (trail: string)
    ensures s == TrimEnd(s) + trail && AllWhite(trail) && (TrimEnd(s) == [] || !White(TrimEnd(s)[|TrimEnd(s)| - 1]))
    decreases |s|
  {
    if s != [] && IsSpace(s[|s| - 1]) {
      trail := TrimEndParts(s[..|s| - 1]);
      trail := trail + [s[|s| - 1]];
      assert s == s[..|s| - 1] + [s[|s| - 1]];
    } else {
      trail := [];
    }
  }

  /** The first word is what stands between white space. */
  lemma WordIs(lead: string, word: string, rest: string)
    requires AllWhite(lead) && NoWhite(word) && (rest == [] || White(rest[0])) && (word == [] ==> rest == [])
    ensures Word(lead + word + rest) == word && AfterWord(lead + word + rest) == rest
  {
    assert lead + word + rest == lead + (word + rest);
    SkipSpaceOf(lead, word + rest);
    SpaceIs();
    TakeWordOf(word, rest);
  }

  lemma WordParts(s: string) returns (lead: string)
    ensures s == lead + Word(s) + AfterWord(s) && AllWhite(lead) && NoWhite(Word(s))
    ensures (AfterWord(s) == [] || White(AfterWord(s)[0])) && (Word(s) == [] ==> AfterWord(s) == [])
  {
    hide SkipSpace, TakeWord, White;
    lead := SkipSpaceParts(s);
    var rest := TakeWordParts(SkipSpace(s));
    assert SkipSpace(s)[|Word(s)|..] == rest;
    assert AfterWord(s) == rest;
    assert lead + (Word(s) + rest) == lead + Word(s) + rest;
  }

  /** Trimming takes the white space off both ends. */
  lemma TrimIs(lead: string, value: string, trail: string)
    requires AllWhite(lead) && AllWhite(trail)
    requires value == [] || (!White(value[0]) && !White(value[|value| - 1]))
    ensures Trim(lead + value + trail) == value
  {
    if value == [] {
      assert lead + value + trail == (lead + trail) + [];
      SkipSpaceOf(lead + trail, []);
    } else {
      assert lead + value + trail == lead + (value + trail);
      SkipSpaceOf(lead, value + trail);
      TrimEndOf(value, trail);
    }
  }

  lemma TrimParts(s: string) returns (lead: string, trail: string)
    ensures s == lead + Trim(s) + trail && AllWhite(lead) && AllWhite(trail)
    ensures Trim(s) == [] || (!White(Trim(s)[0]) && !White(Trim(s)[|Trim(s)| - 1]))
  {
    lead := SkipSpaceParts(s);
    trail := TrimEndParts(SkipSpace(s));
  }

  // ---------------------------------------------------------------- header lines

  /** White space, a name without any that ends with a colon, white space, a value, and white space. */
  ghost predicate Spells(line: string, f: Field) {
    exists lead, gap, trail :: SpelledWith(line, f, lead, gap, trail)
  }

  predicate SpelledWith(line: string, f: Field, lead: string, gap: string, trail: string) {
    && line == lead + (f.name + ":") + (gap + f.value + trail)
    && AllWhite(lead) && AllWhite(gap) && AllWhite(trail) && gap != []
    && NoWhite(f.name) && f.value != [] && !White(f.value[0]) && !White(f.value[|f.value| - 1])
  }

  lemma FieldExactly(line: string, f: Field)
    ensures Spells(line, f) <==> Word(line) == f.name + ":" && Trim(AfterWord(line)) == f.value && f.value != []
  {
    if Spells(line, f) {
      var lead, gap, trail :| SpelledWith(line, f, lead, gap, trail);
      FieldWord(line, f, lead, gap, trail);
    }
    if Word(line) == f.name + ":" && Trim(AfterWord(line)) == f.value && f.value != [] {
      FieldFound(line, f);
    }
  }

  lemma FieldWord(line: string, f: Field, lead: string, gap: string, trail: string)
    requires SpelledWith(line, f, lead, gap, trail)
    ensures Word(line) == f.name + ":" && Trim(AfterWord(line)) == f.value
  {
    hide Word, AfterWord, Trim;
    var rest := gap + f.value + trail;
    assert rest[0] == gap[0];
    WordIs(lead, f.name + ":", rest);
    TrimIs(gap, f.value, trail);
  }

  lemma FieldFound(line: string, f: Field)
    requires Word(line) == f.name + ":" && Trim(AfterWord(line)) == f.value && f.value != []
    ensures Spells(line, f)
  {
    hide Word, AfterWord, Trim;
    var lead := WordParts(line);
    var gap, trail := TrimParts(AfterWord(line));
    forall k | 0 <= k < |f.name|
      ensures !White(f.name[k])
    {
      assert Word(line)[k] == f.name[k];
    }
    GapThere(AfterWord(line), gap, f.value, trail);
    assert SpelledWith(line, f, lead, gap, trail);
  }

  lemma GapThere(rest: string, gap: string, value: string, trail: string)
    requires rest == gap + value + trail && value != []
    ensures rest != [] && (gap == [] ==> rest[0] == value[0])
  {
    if gap == [] {
      assert rest == value + trail;
    }
  }

  /** A line and what follows it, behind any two characters. */
  predicate Parts(s: string, line: string, rest: string) {
    |s| >= 2 && s[2..] == line + rest && OneLine(line) && EndsLine(rest)
  }

  /** The header lines spell these fields: line after line, each behind two characters.  At the end there may be
      one more line that is white. */
  ghost predicate SpelledBy(s: string, fields: seq<Field>)
    decreases |fields|
  {
    if fields == [] then s == [] || (|s| >= 2 && AllWhite(s[2..]) && OneLine(s[2..]))
    else exists line, rest :: Parts(s, line, rest) && Spells(line, fields[0]) && SpelledBy(rest, fields[1..])
  }

  lemma LineIs(s: string, line: string, rest: string)
    requires Parts(s, line, rest)
    ensures TakeLine(s[2..]) == line && AfterLine(s[2..]) == rest
  {
    SpaceIs();
    TakeLineOf(line, rest);
  }

  lemma NamedIs(s: string, f: Field, rest: string)
    requires |s| >= 2 && Spells(TakeLine(s[2..]), f)
    ensures LineAt(s) == Named(Lower(f.name), f.value)
  {
    hide Word, AfterWord, Trim, TakeLine, Lower;
    FieldExactly(TakeLine(s[2..]), f);
    assert (f.name + ":")[..|f.name + ":"| - 1] == f.name;
  }

  lemma NamedMeans(s: string) returns (f: Field)
    requires s != [] && LineAt(s).Named?
    ensures |s| >= 2 && Spells(TakeLine(s[2..]), f) && LineAt(s) == Named(Lower(f.name), f.value)
  {
    hide Word, AfterWord, Trim, TakeLine, Lower;
    var line := TakeLine(s[2..]);
    var key := Word(line);
    f := Field(key[..|key| - 1], Trim(AfterWord(line)));
    assert key == key[..|key| - 1] + ":";
    FieldExactly(line, f);
  }

  lemma BlankIs(s: string)
    requires s != []
    ensures LineAt(s).Blank? <==> |s| >= 2 && AllWhite(s[2..]) && OneLine(s[2..])
  {
    if |s| >= 2 {
      BlankLine(s);
    }
  }

  lemma BlankLine(s: string)
    requires |s| >= 2
    ensures LineAt(s).Blank? <==> AllWhite(s[2..]) && OneLine(s[2..])
  {
    hide Word, AfterWord, Trim, TakeLine, AfterLine, Lower;
    var line := TakeLine(s[2..]);
    var rest := TakeLineParts(s[2..]);
    var lead := WordParts(line);
    var gap, trail := TrimParts(AfterWord(line));
    if AllWhite(s[2..]) && OneLine(s[2..]) {
      LineIs(s, s[2..], "");
      WordIs(s[2..], "", "");
      TrimIs("", "", "");
      assert s[2..] + "" + "" == s[2..];
    }
    if LineAt(s).Blank? {
      assert line == lead + "" + "" && s[2..] == line + "";
    }
  }

  /** Lines that spell fields are parsed into these. */
  lemma {:induction false} SpelledParses(s: string, fields: seq<Field>, headers: Headers)
    requires SpelledBy(s, fields)
    ensures ParseLines(s, headers) == Parsed(true, Collect(fields, headers))
    decreases |fields|
  {
    hide LineAt, AfterLine, TakeLine, Lower, Spells;
    if fields == [] {
      if s != [] {
        BlankIs(s);
      }
    } else {
      var line, rest :| Parts(s, line, rest) && Spells(line, fields[0]) && SpelledBy(rest, fields[1..]);
      LineIs(s, line, rest);
      NamedIs(s, fields[0], rest);
      SpelledParses(rest, fields[1..], headers[Lower(fields[0].name) := fields[0].value]);
    }
  }

  /** Lines that are parsed spell fields. */
  lemma {:induction false} ParsedSpells(s: string, headers: Headers) returns (fields: seq<Field>)
    requires ParseLines(s, headers).ok
    ensures SpelledBy(s, fields)
    decreases |s|
  {
    hide LineAt, AfterLine, TakeLine, Lower, Spells;
    fields := [];
    if s != [] {
      BlankIs(s);
      var line := LineAt(s);
      if line.Named? {
        var f := NamedMeans(s);
        var rest := TakeLineParts(s[2..]);
        fields := ParsedSpells(rest, headers[line.name := line.value]);
        fields := [f] + fields;
        assert fields[1..] == fields[1..] && Parts(s, TakeLine(s[2..]), rest);
      }
    }
  }

  /** Header lines are accepted exactly when they spell fields, and make the headers that these are. */
  lemma AcceptedExactly(s: string)
    ensures ParseLines(s, map[]).ok <==> exists fields :: SpelledBy(s, fields)
    ensures forall fields :: SpelledBy(s, fields) ==> ParseLines(s, map[]) == Parsed(true, Collect(fields, map[]))
  {
    hide ParseLines, SpelledBy, Collect;
    forall fields | SpelledBy(s, fields)
      ensures ParseLines(s, map[]) == Parsed(true, Collect(fields, map[]))
    {
      SpelledParses(s, fields, map[]);
    }
    if ParseLines(s, map[]).ok {
      var fields := ParsedSpells(s, map[]);
    }
  }

  // ---------------------------------------------------------------- the headers of fields

  /** Names are compared without regard to the case of the letters A to Z. */
  lemma {:induction false} LowerIs(s: string)
    ensures |Lower(s)| == |s|
    ensures forall k :: 0 <= k < |s| ==>
              Lower(s)[k] as int == s[k] as int + if 65 <= s[k] as int <= 90 then 32 else 0
  {
    if s != [] {
      LowerIs(s[1..]);
    }
  }

  /** A header has the value of the last field of its name. */
  lemma {:induction false} LastField(fields: seq<Field>, headers: Headers, k: nat)
    requires k < |fields| && forall j :: k < j < |fields| ==> Lower(fields[j].name) != Lower(fields[k].name)
    ensures Header(Collect(fields, headers), Lower(fields[k].name)) == fields[k].value
    ensures Lower(fields[k].name) in Collect(fields, headers)
    decreases |fields|
  {
    hide Lower;
    var headers' := headers[Lower(fields[0].name) := fields[0].value];
    if k > 0 {
      LastField(fields[1..], headers', k - 1);
    } else {
      OtherFields(fields[1..], headers', Lower(fields[0].name));
    }
  }

  lemma {:induction false} OtherFields(fields: seq<Field>, headers: Headers, name: string)
    requires forall j :: 0 <= j < |fields| ==> Lower(fields[j].name) != name
    ensures name in Collect(fields, headers) <==> name in headers
    ensures name in headers ==> Collect(fields, headers)[name] == headers[name]
    decreases |fields|
  {
    hide Lower;
    if fields != [] {
      OtherFields(fields[1..], headers[Lower(fields[0].name) := fields[0].value], name);
    }
  }

  /** And there is none without such a field. */
  lemma NoField(fields: seq<Field>, name: string)
    requires forall j :: 0 <= j < |fields| ==> Lower(fields[j].name) != name
    ensures name !in Collect(fields, map[]) && Header(Collect(fields, map[]), name) == []
  {
    OtherFields(fields, map[], name);
  }

  // ---------------------------------------------------------------- numbers

  predicate AllDigits(s: string) {
    forall k :: 0 <= k < |s| ==> 48 <= s[k] as int <= 57
  }

  /** The number that digits stand for. */
  function NumberOf(digits: string): nat
    requires AllDigits(digits)
  {
    if digits == [] then 0 else 10 * NumberOf(digits[..|digits| - 1]) + (digits[|digits| - 1] as nat - 48)
  }

  lemma {:induction false} DigitsOf(digits: string, rest: string)
    requires AllDigits(digits) && (rest == [] || !(48 <= rest[0] as int <= 57))
    ensures Digits(digits + rest, 0) == NumberOf(digits)
    decreases |digits|
  {
    DigitsStop(digits, rest, 0);
    DigitsNumber(digits);
  }

  lemma {:induction false} DigitsStop(digits: string, rest: string, acc: nat)
    requires AllDigits(digits) && (rest == [] || !(48 <= rest[0] as int <= 57))
    ensures Digits(digits + rest, acc) == Digits(digits, acc)
    decreases |digits|
  {
    if digits != [] {
      assert (digits + rest)[1..] == digits[1..] + rest;
      DigitsStop(digits[1..], rest, 10 * acc + (digits[0] as nat - '0' as nat));
    } else {
      assert digits + rest == rest;
    }
  }

  lemma {:induction false} DigitsNumber(digits: string)
    requires AllDigits(digits)
    ensures Digits(digits, 0) == NumberOf(digits)
    decreases |digits|
  {
    if digits != [] {
      var a, c := digits[..|digits| - 1], digits[|digits| - 1];
      assert digits == a + [c];
      DigitsNumber(a);
      DigitsAppend(a, c, 0);
    }
  }

  /** These digits, without a leading zero, stand for the number. */
  predicate DecimalOf(digits: string, n: nat) {
    AllDigits(digits) && digits != [] && NumberOf(digits) == n && (n > 0 ==> digits[0] != '0') && (n == 0 ==> digits == "0")
  }

  lemma {:induction false} DecimalIs(n: nat)
    ensures DecimalOf(Decimal(n), n)
  {
    if n >= 10 {
      DecimalIs(n / 10);
      var a, c := Decimal(n / 10), (n % 10 + '0' as nat) as char;
      assert Decimal(n) == a + [c] && (a + [c])[..|a + [c]| - 1] == a;
    } else {
      var c := (n + '0' as nat) as char;
      assert Decimal(n) == [c] && [c][..0] == [];
    }
  }

  /** atoll: white space, a sign, and digits up to the first other character. */
  lemma AtollOf(lead: string, sign: string, digits: string, rest: string)
    requires AllWhite(lead) && sign in {"", "-", "+"} && AllDigits(digits)
    requires rest == [] || !(48 <= rest[0] as int <= 57)
    requires sign == "" && digits == [] && rest != [] ==> !White(rest[0]) && rest[0] != '-' && rest[0] != '+'
    ensures Atoll(lead + (sign + digits + rest)) == if sign == "-" then 0 - NumberOf(digits) else NumberOf(digits)
  {
    hide Digits;
    var text := sign + digits + rest;
    SignFirst(sign, digits, rest);
    SkipSpaceOf(lead, text);
    DigitsOf(digits, rest);
    if text == [] {
      assert digits == [];
    } else if sign == "" {
      assert text == digits + rest;
    } else {
      assert text[1..] == digits + rest;
    }
    if text == digits + rest && text != [] && digits == [] {
      assert NumberOf(digits) == 0;
    }
  }

  lemma SignFirst(sign: string, digits: string, rest: string)
    requires sign in {"", "-", "+"} && AllDigits(digits)
    requires sign == "" && digits == [] && rest != [] ==> !White(rest[0]) && rest[0] != '-' && rest[0] != '+'
    ensures var text := sign + digits + rest;
      && (text == [] || !White(text[0]))
      && (text != [] ==> (text[0] == '-' <==> sign == "-") && (text[0] == '+' <==> sign == "+"))
  {
    var text := sign + digits + rest;
    if sign == "" && digits != [] {
      assert text[0] == digits[0];
    } else if sign == "" {
      assert text == rest;
    }
  }

  // ---------------------------------------------------------------- what is printed

  function FieldText(fields: seq<Field>): string {
    if fields == [] then "" else fields[0].name + ": " + fields[0].value + "\r\n" + FieldText(fields[1..])
  }

  lemma {:induction false} FieldTextIs(fields: seq<Field>, size: nat)
    ensures Lines(FieldLines(fields + Added(size)))
         == FieldText(fields) + ("Connection: Keep-Alive\r\n" + ("Content-Length: " + Decimal(size) + "\r\n"))
    decreases |fields|
  {
    hide Decimal;
    if fields == [] {
      assert fields + Added(size) == Added(size);
      PrintAdded(size);
    } else {
      FieldTextIs(fields[1..], size);
      PrintStep("", fields, Added(size));
      var name, value := fields[0].name, fields[0].value;
      FieldTextStep(name, value, FieldText(fields[1..]), "Connection: Keep-Alive\r\n" + ("Content-Length: " + Decimal(size) + "\r\n"));
    }
  }

  lemma FieldTextStep(name: string, value: string, text: string, added: string)
    ensures "" + name + ": " + value + CRLF + (text + added) == name + ": " + value + "\r\n" + text + added
  {
  }

  /** Character by character, what is printed; of the first line only as much as fits. */
  lemma PrintedText(line1: string, fields: seq<Field>, body: string) returns (digits: string)
    ensures DecimalOf(digits, |body|)
    ensures var first := if |line1| <= 4093 then line1 + "\r\n" else (line1 + "\r\n")[..4095];
      Printed(line1, fields, body)
      == first + FieldText(fields) + "Connection: Keep-Alive\r\n" + "Content-Length: " + digits + "\r\n\r\n" + body
  {
    hide Decimal, Lines, FieldLines;
    digits := Decimal(|body|);
    DecimalIs(|body|);
    FieldTextIs(fields, |body|);
    PrintedJoin(Clipped(line1 + CRLF), FieldText(fields), digits, body);
  }

  lemma PrintedJoin(first: string, text: string, digits: string, body: string)
    ensures first + (text + ("Connection: Keep-Alive\r\n" + ("Content-Length: " + digits + "\r\n"))) + CRLF + body
         == first + text + "Connection: Keep-Alive\r\n" + "Content-Length: " + digits + "\r\n\r\n" + body
  {
    var a, b, c := "Connection: Keep-Alive\r\n", "Content-Length: ", "\r\n";
    assert "\r\n\r\n" == c + CRLF;
    assert text + (a + (b + digits + c)) == text + a + b + digits + c;
    assert first + (text + a + b + digits + c) == first + text + a + b + digits + c;
    assert first + text + a + b + digits + c + CRLF == first + text + a + b + digits + (c + CRLF);
  }

  // ---------------------------------------------------------------- what a call comes to

  /** Here is the first end of a header section. */
  predicate EndsAt(buf: string, p: nat) {
    EndHere(buf, p) && forall q: nat :: q < p ==> !EndHere(buf, q)
  }

  predicate EndHere(buf: string, q: nat) {
    q + 4 <= |buf| && buf[q..q + 4] == "\r\n\r\n"
  }

  lemma {:induction false} FindEndIs(buf: string, from: nat, p: nat)
    requires from <= p && EndHere(buf, p) && forall q: nat :: from <= q < p ==> !EndHere(buf, q)
    ensures FindEnd(buf, from) == Some(p)
    decreases p - from
  {
    if from < p {
      assert !EndHere(buf, from);
      FindEndIs(buf, from + 1, p);
    }
  }

  lemma {:induction false} FindEndFirst(buf: string, from: nat)
    ensures FindEnd(buf, from).Some? ==> forall q: nat :: from <= q < FindEnd(buf, from).value ==> !EndHere(buf, q)
    ensures FindEnd(buf, from).None? ==> forall q: nat :: from <= q ==> !EndHere(buf, q)
    decreases |buf| - from
  {
    if from + 4 <= |buf| && buf[from..from + 4] != END {
      FindEndFirst(buf, from + 1);
    }
  }

  lemma EndExactly(buf: string)
    ensures forall p: nat :: EndsAt(buf, p) <==> FindEnd(buf, 0) == Some(p)
  {
    hide FindEnd;
    FindEndFirst(buf, 0);
    forall p: nat | EndsAt(buf, p)
      ensures FindEnd(buf, 0) == Some(p)
    {
      FindEndIs(buf, 0, p);
    }
  }

  /** The bytes up to the first end are a first line and header lines. */
  predicate HeadIs(buf: string, p: nat, line1: string, lines: string) {
    EndsAt(buf, p) && buf[..p] == line1 + lines && OneLine(line1) && EndsLine(lines)
  }

  /** Every such head has a first line and header lines. */
  lemma HeadParts(buf: string, p: nat) returns (line1: string, lines: string)
    requires EndsAt(buf, p)
    ensures HeadIs(buf, p, line1, lines)
  {
    line1 := TakeLine(buf[..p]);
    lines := TakeLineParts(buf[..p]);
  }

  lemma HeadFound(buf: string, p: nat, line1: string, lines: string)
    requires HeadIs(buf, p, line1, lines)
    ensures FindEnd(buf, 0) == Some(p) && TakeLine(buf[..p]) == line1 && AfterLine(buf[..p]) == lines
  {
    hide FindEnd, TakeLine;
    EndExactly(buf);
    SpaceIs();
    TakeLineOf(line1, lines);
  }

  /** No end of a header section, or one at the start: the call waits. */
  lemma FirstCallWaits(buf: string)
    requires (forall p: nat :: !EndsAt(buf, p)) || EndsAt(buf, 0)
    ensures Decode(EMPTY, buf).1 == NotComplete && Decode(EMPTY, buf).2 == [] && Decode(EMPTY, buf).0.headers == map[]
    ensures !Decode(EMPTY, buf).0.complete
  {
    hide EndsAt, TakeHead;
    EndExactly(buf);
    if FindEnd(buf, 0).Some? {
      assert EndsAt(buf, FindEnd(buf, 0).value);
    }
  }

  /** What a first call comes to with a first line and header lines that spell fields.  The length is what the
      field of that name says, 0 without one. */
  lemma FirstCall(buf: string, p: nat, line1: string, lines: string, fields: seq<Field>)
    requires HeadIs(buf, p, line1, lines) && p > 0 && SpelledBy(lines, fields) && |buf| <= MAX_SIZE
    ensures var headers := Collect(fields, map[]);
      var (msg, result, first) := Decode(EMPTY, buf);
      var n := Clamped(Atoll(Header(headers, "content-length")));
      && msg.headers == headers
      && result == (if n >= 0 && p + 4 + n <= |buf| then Complete
                    else if n < 0 && -n <= p + 4 then LengthError
                    else if Header(headers, "expect") != [] then Continue100
                    else NotComplete)
      && (result == Complete ==> msg.body == buf[p + 4..p + 4 + n] && msg.scanned == p + 4 + n)
      && (msg.complete <==> result == Complete)
      && first == (if result == LengthError then [] else line1)
  {
    hide FindEnd, ParseLines, SpelledBy, Decode, TakeHead, Atoll, Collect, HeadIs;
    HeadFound(buf, p, line1, lines);
    AcceptedExactly(lines);
    AcceptedHead(buf, p, line1, lines, Collect(fields, map[]));
    FoundHead(buf, p);
  }

  lemma FoundHead(buf: string, p: nat)
    requires FindEnd(buf, 0) == Some(p) && p > 0
    ensures Decode(EMPTY, buf) == TakeHead(EMPTY, buf, p)
  {
    hide TakeHead;
  }

  lemma AcceptedHead(buf: string, p: nat, line1: string, lines: string, headers: Headers)
    requires p + 4 <= |buf| <= MAX_SIZE && TakeLine(buf[..p]) == line1 && AfterLine(buf[..p]) == lines
    requires ParseLines(lines, map[]) == Parsed(true, headers)
    ensures var (msg, result, first) := TakeHead(EMPTY, buf, p);
      var n := Clamped(Atoll(Header(headers, "content-length")));
      && msg.headers == headers
      && result == (if n >= 0 && p + 4 + n <= |buf| then Complete
                    else if n < 0 && -n <= p + 4 then LengthError
                    else if Header(headers, "expect") != [] then Continue100
                    else NotComplete)
      && (result == Complete ==> msg.body == buf[p + 4..p + 4 + n] && msg.scanned == p + 4 + n)
      && (msg.complete <==> result == Complete)
      && first == (if result == LengthError then [] else line1)
  {
    hide ParseLines, TakeLine, AfterLine, Atoll, Header;
  }

  /** A first call says that the bytes are no message exactly when the header lines spell no fields. */
  lemma FirstCallError(buf: string, p: nat, line1: string, lines: string)
    requires HeadIs(buf, p, line1, lines) && p > 0
    ensures Decode(EMPTY, buf).1 == Error <==> forall fields :: !SpelledBy(lines, fields)
    ensures Decode(EMPTY, buf).1 == Error ==> Decode(EMPTY, buf).2 == line1 && !Decode(EMPTY, buf).0.complete
  {
    hide FindEnd, ParseLines, SpelledBy, Decode, HeadIs, TakeLine, AfterLine, ContentLength, Header, Short;
    HeadFound(buf, p, line1, lines);
    AcceptedExactly(lines);
    FoundHead(buf, p);
  }

  /** Such bytes are refused however they arrive, by every call that has the end of the header section. */
  lemma RefusedForGood(buffers: seq<string>, p: nat, line1: string, lines: string)
    requires buffers != [] && Growing(buffers) && HeadIs(buffers[|buffers| - 1], p, line1, lines) && p > 0
    requires forall fields :: !SpelledBy(lines, fields)
    ensures var before := Feed(NOTHING_READ, buffers[..|buffers| - 1]);
      Decode(before.msg, buffers[|buffers| - 1]).1 == Error
    ensures !Feed(NOTHING_READ, buffers).msg.complete
  {
    hide HeadIs, SpelledBy, Feed, Decode, Read;
    var buf, parts := buffers[|buffers| - 1], buffers[..|buffers| - 1];
    HeadFound(buf, p, line1, lines);
    AcceptedExactly(lines);
    ChunksDoNotMatter(buffers);
    FirstCallError(buf, p, line1, lines);
    ReadIs(buf);
    if parts == [] {
      FeedNothing();
      RefusedAgain([], buf, p);
      ReadEmpty();
    } else {
      ChunksDoNotMatter(parts);
      RefusedAgain(parts[|parts| - 1], buf, p);
    }
  }

  lemma FeedNothing()
    ensures Feed(NOTHING_READ, []) == NOTHING_READ
  {
  }

  lemma ReadEmpty()
    ensures Read(NOTHING_READ, []) == NOTHING_READ
  {
  }

  lemma ReadIs(buf: string)
    ensures Read(NOTHING_READ, buf).msg == Decode(EMPTY, buf).0
  {
    hide Decode;
  }

  lemma RefusedAgain(b: string, b': string, p: nat)
    requires b <= b' && FindEnd(b', 0) == Some(p) && p > 0 && !ParseLines(AfterLine(b'[..p]), map[]).ok
    ensures Decode(Read(NOTHING_READ, b).msg, b').1 == Error
  {
    hide ParseLines, TakeLine, AfterLine, ContentLength, Header, Short;
    FindEndPrefix(b, b', 0);
    ReadIs(b);
    if FindEnd(b, 0).Some? {
      assert b[..p] == b'[..p];
      FindEndAt(b', p);
      ParseLinesAgain(AfterLine(b[..p]), map[]);
    }
  }

  /** What the last of several calls comes to, each with more bytes than the one before, when the header lines spell
      fields: Continue100 only in the first call that has all of them. */
  lemma LastCall(buffers: seq<string>, p: nat, line1: string, lines: string, fields: seq<Field>)
    requires buffers != [] && Growing(buffers) && |buffers[|buffers| - 1]| <= MAX_SIZE
    requires HeadIs(buffers[|buffers| - 1], p, line1, lines) && p > 0 && SpelledBy(lines, fields)
    ensures var buf, parts := buffers[|buffers| - 1], buffers[..|buffers| - 1];
      var headers := Collect(fields, map[]);
      var n := Clamped(Atoll(Header(headers, "content-length")));
      var seen := parts != [] && EndsAt(parts[|parts| - 1], p);
      && Decode(Feed(NOTHING_READ, parts).msg, buf).1
         == (if n >= 0 && p + 4 + n <= |buf| then Complete
             else if n < 0 && -n <= p + 4 then LengthError
             else if !seen && Header(headers, "expect") != [] then Continue100
             else NotComplete)
      && Feed(NOTHING_READ, buffers).line1 == (if n < 0 && -n <= p + 4 then [] else line1)
      && Feed(NOTHING_READ, buffers).msg.headers == headers
  {
    hide HeadIs, SpelledBy, Feed, Decode, Read, Collect, Atoll, Header, EndsAt;
    var buf, parts := buffers[|buffers| - 1], buffers[..|buffers| - 1];
    HeadFound(buf, p, line1, lines);
    AcceptedExactly(lines);
    ChunksDoNotMatter(buffers);
    FirstCall(buf, p, line1, lines, fields);
    ReadOnce(buf);
    if parts == [] {
      FeedNothing();
    } else {
      var b := parts[|parts| - 1];
      ChunksDoNotMatter(parts);
      EndExactly(b);
      if FindEnd(b, 0) == Some(p) {
        AfterHead(b, buf, p, line1, lines, Collect(fields, map[]));
      } else {
        BeforeHead(b, buf, p);
      }
    }
  }

  lemma ReadOnce(buf: string)
    ensures Read(NOTHING_READ, buf) == Reading(Decode(EMPTY, buf).0, Decode(EMPTY, buf).2)
  {
    hide Decode;
  }

  /** A call before the end of the head has come changes nothing but how far was scanned. */
  lemma BeforeHead(b: string, b': string, p: nat)
    requires b <= b' && FindEnd(b', 0) == Some(p) && p > 0 && FindEnd(b, 0) != Some(p)
    ensures Decode(Read(NOTHING_READ, b).msg, b').1 == Decode(EMPTY, b').1
  {
    hide TakeHead;
    FindEndPrefix(b, b', 0);
    ReadIs(b);
    SameHead(b', p, ScanStop(b, 0));
  }

  lemma SameHead(b: string, p: nat, scanned: nat)
    requires p + 4 <= |b|
    ensures TakeHead(EMPTY.(scanned := scanned), b, p).1 == TakeHead(EMPTY, b, p).1
  {
    hide ParseLines, TakeLine, AfterLine, ContentLength, Header, Short;
  }

  /** A call after the head was taken only waits for the body. */
  lemma AfterHead(b: string, b': string, p: nat, line1: string, lines: string, headers: Headers)
    requires b <= b' && |b'| <= MAX_SIZE && FindEnd(b, 0) == Some(p) && p > 0 && ParseLines(lines, map[]) == Parsed(true, headers)
    requires TakeLine(b'[..p]) == line1 && AfterLine(b'[..p]) == lines
    ensures var n := Clamped(Atoll(Header(headers, "content-length")));
      Decode(Read(NOTHING_READ, b).msg, b').1
      == if n >= 0 && p + 4 + n <= |b'| then Complete else if n < 0 && -n <= p + 4 then LengthError else NotComplete
  {
    hide ParseLines, TakeLine, AfterLine, Atoll, Header, FindEnd, Decode, TakeHead;
    assert b[..p] == b'[..p];
    FoundHead(b, p);
    ReadIs(b);
    HeadTaken(b, p, line1, lines, headers);
    BodyCall(TakeHead(EMPTY, b, p).0, b', p, headers);
  }

  lemma HeadTaken(b: string, p: nat, line1: string, lines: string, headers: Headers)
    requires p + 4 <= |b| <= MAX_SIZE && TakeLine(b[..p]) == line1 && AfterLine(b[..p]) == lines
    requires ParseLines(lines, map[]) == Parsed(true, headers)
    ensures var m := TakeHead(EMPTY, b, p).0;
      var n := Clamped(Atoll(Header(headers, "content-length")));
      && m.contentLen == ContentLength(headers) && (m.complete <==> n >= 0 && p + 4 + n <= |b|)
      && (!m.complete ==> m.scanned == p + 4)
  {
    hide ParseLines, TakeLine, AfterLine, Atoll, Header;
  }

  lemma BodyCall(m: Msg, b: string, p: nat, headers: Headers)
    requires p + 4 <= |b| <= MAX_SIZE && m.contentLen == ContentLength(headers) && (!m.complete ==> m.scanned == p + 4)
    requires var n := Clamped(Atoll(Header(headers, "content-length")));
      && (m.complete ==> n >= 0 && p + 4 + n <= |b|) && (n == 0 ==> m.complete)
    ensures var n := Clamped(Atoll(Header(headers, "content-length")));
      Decode(m, b).1 == if n >= 0 && p + 4 + n <= |b| then Complete else if n < 0 && -n <= p + 4 then LengthError else NotComplete
  {
    hide Atoll, Header, FindEnd, TakeHead;
  }

  /** The bytes start with a whole message exactly when their header lines spell fields and the length that these
      say is there. */
  lemma WholeExactly(buf: string, p: nat, line1: string, lines: string)
    requires HeadIs(buf, p, line1, lines)
    ensures HasMessage(buf) <==>
      exists fields :: (SpelledBy(lines, fields) &&
        0 <= Clamped(Atoll(Header(Collect(fields, map[]), "content-length"))) <= |buf| - p - 4)
  {
    hide FindEnd, ParseLines, SpelledBy, HeadIs, TakeLine, AfterLine, Header, Atoll, Collect, Clamped;
    HeadFound(buf, p, line1, lines);
    AcceptedExactly(lines);
    ClampedBound(Atoll(Header(ParseLines(lines, map[]).headers, "content-length")));
  }

  lemma ClampedBound(n: int)
    ensures -MAX_SIZE - 1 <= Clamped(n) <= MAX_SIZE
  {
  }
}
