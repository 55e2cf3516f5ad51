/**
 A view of a part of a text whose ends move (Common/stringPiece.h), as far as the HTTP parser uses it, and
 what its operations mean for the text in view.
 */
module StringPiece {

  /** isspace in the C locale. */
  predicate IsSpace(c: char) {
    c == ' ' || c == '\t' || c == '\n' || c == '\r' || c == 11 as char || c == 12 as char
  }

  predicate IsBreak(c: char) {
    c == '\n' || c == '\r'
  }

  function SkipSpace(s: string): string {
    if s != [] && IsSpace(s[0]) then SkipSpace(s[1..]) else s
  }

  function TakeWord(s: string): string {
    if s != [] && !IsSpace(s[0]) then [s[0]] + TakeWord(s[1..]) else []
  }

  function TakeLine(s: string): string {
    if s != [] && !IsBreak(s[0]) then [s[0]] + TakeLine(s[1..]) else []
  }

  function TrimEnd(s: string): string {
    if s != [] && IsSpace(s[|s| - 1]) then TrimEnd(s[..|s| - 1]) else s
  }

  function Trim(s: string): string {
    TrimEnd(SkipSpace(s))
  }

  lemma SkipSpaceStep(text: string, first: nat, end: nat)
    requires first <= end <= |text|
    ensures SkipSpace(text[first..end])
         == if first < end && IsSpace(text[first]) then SkipSpace(text[first + 1..end]) else text[first..end]
  {
    if first < end {
      assert text[first..end][1..] == text[first + 1..end];
    }
  }

  lemma TrimEndStep(text: string, first: nat, end: nat)
    requires first <= end <= |text|
    ensures TrimEnd(text[first..end])
         == if first < end && IsSpace(text[end - 1]) then TrimEnd(text[first..end - 1]) else text[first..end]
  {
    if first < end {
      assert text[first..end][..end - 1 - first] == text[first..end - 1];
    }
  }

  lemma {:induction false} TakeWordPrefix(s: string)
    ensures TakeWord(s) <= s
  {
    if s != [] && !IsSpace(s[0]) {
      TakeWordPrefix(s[1..]);
      assert s == [s[0]] + s[1..];
    }
  }

  lemma {:induction false} TakeLinePrefix(s: string)
    ensures TakeLine(s) <= s
  {
    if s != [] && !IsBreak(s[0]) {
      TakeLinePrefix(s[1..]);
      assert s == [s[0]] + s[1..];
    }
  }

  /** The first word, and what follows it. */
  function Word(s: string): string {
    TakeWord(SkipSpace(s))
  }

  function AfterWord(s: string): string {
    TakeWordPrefix(SkipSpace(s));
    SkipSpace(s)[|Word(s)|..]
  }

  function AfterLine(s: string): (rest: string)
    ensures |rest| <= |s|
  {
    TakeLinePrefix(s);
    s[|TakeLine(s)|..]
  }

  lemma SkipStep(text: string, e: nat, end: nat)
    requires e < end <= |text| && IsSpace(text[e])
    ensures SkipSpace(text[e..end]) == SkipSpace(text[e + 1..end])
  {
    assert text[e..end][1..] == text[e + 1..end];
  }

  lemma WordStep(text: string, e: nat, end: nat)
    requires e < end <= |text| && !IsSpace(text[e])
    ensures TakeWord(text[e..end]) == [text[e]] + TakeWord(text[e + 1..end])
  {
    assert text[e..end][1..] == text[e + 1..end];
  }

  lemma LineStep(text: string, e: nat, end: nat)
    requires e < end <= |text| && !IsBreak(text[e])
    ensures TakeLine(text[e..end]) == [text[e]] + TakeLine(text[e + 1..end])
  {
    assert text[e..end][1..] == text[e + 1..end];
  }

  lemma Extend(text: string, b: nat, e: nat, tail: string)
    requires b <= e < |text|
    ensures text[b..e] + ([text[e]] + tail) == text[b..e + 1] + tail
  {
  }

  /** Where the loops of eatWord stop. */
  lemma WordEnd(view: string, text: string, b: nat, e: nat, end: nat)
    requires b <= e <= end <= |text| && (b < end ==> !IsSpace(text[b])) && (e < end ==> IsSpace(text[e]))
    requires SkipSpace(view) == SkipSpace(text[b..end])
    requires TakeWord(text[b..end]) == text[b..e] + TakeWord(text[e..end])
    ensures Word(view) == text[b..e] && AfterWord(view) == text[e..end]
  {
    assert SkipSpace(text[b..end]) == text[b..end];
    assert TakeWord(text[b..end]) == text[b..e];
    assert text[b..end][e - b..] == text[e..end];
  }

  class StringPiece {
    const text: string
    var first: nat
    var end: nat

    ghost predicate Valid()
      reads this
    {
      first <= |text| && end <= |text|
    }

    /** The text in view; nothing when `eat` took more than there was. */
    function View(): string
      reads this
      requires Valid()
    {
      if first <= end then text[first..end] else []
    }

    /** size() != 0, which is not the same when `eat` took more than there was. */
    predicate NonEmpty()
      reads this
    {
      first != end
    }

    constructor (text: string, first: nat, end: nat)
      requires first <= end <= |text|
      ensures Valid() && this.text == text && this.first == first && this.end == end
    {
      this.text, this.first, this.end := text, first, end;
    }

    method EatWord() returns (word: string)
      requires Valid() && first <= end
      modifies this`first
      ensures Valid() && first <= end
      ensures word == Word(old(View())) && View() == AfterWord(old(View()))
    {
      hide SkipSpace, TakeWord, Word, AfterWord;
      ghost var view := View();
      var b := first;
      while b < end && IsSpace(text[b])
        invariant b <= end <= |text| && SkipSpace(view) == SkipSpace(text[b..end])
      {
        SkipStep(text, b, end);
        b := b + 1;
      }
      var e := b;
      while e < end && !IsSpace(text[e])
        invariant b <= e <= end <= |text| && TakeWord(text[b..end]) == text[b..e] + TakeWord(text[e..end])
      {
        WordStep(text, e, end);
        Extend(text, b, e, TakeWord(text[e + 1..end]));
        e := e + 1;
      }
      WordEnd(view, text, b, e, end);
      first := e;
      word := text[b..e];
    }

    method EatLine() returns (line: string)
      requires Valid() && (first <= end || first == end + 1)
      modifies this`first
      ensures Valid() && line == TakeLine(old(View()))
      ensures if old(first) <= end then first <= end && View() == AfterLine(old(View())) else first == old(first)
    {
      var p := first;
      while first < end && !IsBreak(text[first])
        invariant first <= |text| && p <= first && (p <= end ==> first <= end) && (p > end ==> first == p)
        invariant p <= end ==> TakeLine(text[p..end]) == text[p..first] + TakeLine(text[first..end])
      {
        LineStep(text, first, end);
        Extend(text, p, first, TakeLine(text[first + 1..end]));
        first := first + 1;
      }
      line := text[p..first];
    }

    /** Takes n characters off the front, whether or not that many are in view. */
    method Eat(n: nat)
      requires Valid() && first + n <= |text|
      modifies this`first
      ensures Valid() && first == old(first) + n
    {
      first := first + n;
    }

    method TrimSpace()
      requires Valid() && first <= end
      modifies this`first, this`end
      ensures Valid() && first <= end && View() == Trim(old(View()))
    {
      hide SkipSpace, TrimEnd;
      ghost var view := View();
      while first < end && IsSpace(text[first])
        invariant first <= end <= |text| && end == old(end) && SkipSpace(view) == SkipSpace(text[first..end])
      {
        SkipSpaceStep(text, first, end);
        first := first + 1;
      }
      SkipSpaceStep(text, first, end);
      while first < end && IsSpace(text[end - 1])
        invariant first <= end <= |text| && Trim(view) == TrimEnd(text[first..end])
      {
        TrimEndStep(text, first, end);
        end := end - 1;
      }
      TrimEndStep(text, first, end);
    }
  }
}
