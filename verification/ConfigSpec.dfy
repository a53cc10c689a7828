/** The configuration file's syntax on values: how one line reads, and the stack of open sections that turns
    the lines into a tree. */
module ConfigSpec {
  import opened Wrappers

  datatype Value = Leaf(text: string) | Section(tree: map<string, Value>)

  type Tree = map<string, Value>

  // ---- one line ------------------------------------------------------------------------------------

  /** Go's unicode.IsSpace. */
  predicate IsSpace(c: char) {
    var n := c as int;
    || 9 <= n <= 13 || n == 32 || n == 0x85 || n == 0xA0 || n == 0x1680 || 0x2000 <= n <= 0x200A
    || n == 0x2028 || n == 0x2029 || n == 0x202F || n == 0x205F || n == 0x3000
  }

  function TrimLeft(s: string): string {
    if s != "" && IsSpace(s[0]) then TrimLeft(s[1..]) else s
  }

  function TrimRight(s: string): string {
    if s != "" && IsSpace(s[|s| - 1]) then TrimRight(s[..|s| - 1]) else s
  }

  function TrimSpace(s: string): string {
    TrimRight(TrimLeft(s))
  }

  predicate IsQuote(c: char) {
    c == '"' || c == '\''
  }

  /** The quotation mark that the text after c is inside of, if any. */
  function QuoteAfter(quote: Option<char>, c: char): Option<char> {
    if quote.Some? then (if c == quote.value then None else quote)
    else if IsQuote(c) then Some(c)
    else None
  }

  /** The text before a comment; quote is the quotation mark s starts inside of, if any. */
  function Strip(s: string, quote: Option<char>): string {
    if s == "" || (quote.None? && s[0] == '#') then "" else [s[0]] + Strip(s[1..], QuoteAfter(quote, s[0]))
  }

  function StripComment(s: string): string {
    Strip(s, None)
  }

  function LeadingSpaces(s: string): nat {
    if s != "" && s[0] == ' ' then 1 + LeadingSpaces(s[1..]) else 0
  }

  /** The place of the first colon. */
  function Colon(s: string): Option<nat> {
    if s == "" then None
    else if s[0] == ':' then Some(0)
    else if Colon(s[1..]).Some? then Some(Colon(s[1..]).value + 1)
    else None
  }

  function Unquote(s: string): string {
    if |s| >= 2 && s[0] == s[|s| - 1] && IsQuote(s[0]) then s[1..|s| - 1] else s
  }

  /** What a line says: nothing, a key with its value at an indent, or something else. */
  datatype Line = Blank | Entry(indent: nat, key: string, val: string) | Bad

  lemma ColonInside(s: string)
    ensures Colon(s).Some? ==> Colon(s).value < |s| && s[Colon(s).value] == ':'
  {
  }

  function ReadLine(raw: string): Line {
    var line := StripComment(raw);
    var trimmed := TrimSpace(line);
    if trimmed == "" then Blank
    else
      match Colon(trimmed)
      case None => Bad
      case Some(i) =>
        ColonInside(trimmed);
        Entry(LeadingSpaces(line), TrimSpace(trimmed[..i]), Unquote(TrimSpace(trimmed[i + 1..])))
  }

  // ---- a file's lines ----------------------------------------------------------------------------------

  /** Where the first line of a text ends. */
  function LineEnd(text: string): (i: nat)
    ensures i <= |text| && '\n' !in text[..i] && (i < |text| ==> text[i] == '\n')
  {
    if text == "" || text[0] == '\n' then 0 else 1 + LineEnd(text[1..])
  }

  function DropReturn(line: string): string {
    if line != "" && line[|line| - 1] == '\r' then line[..|line| - 1] else line
  }

  /** What the scanner hands out: the text between line breaks, each without a carriage return at its end, and
      no empty line after the last break. */
  function Lines(text: string): seq<string> {
    var i := LineEnd(text);
    if text == "" then []
    else if i == |text| then [DropReturn(text)]
    else [DropReturn(text[..i])] + Lines(text[i + 1..])
  }

  /** Lines written to a file, each followed by a line break of either kind. */
  function File(lines: seq<string>, crlf: bool): string {
    if lines == [] then ""
    else lines[0] + (if crlf then "\r\n" else "\n") + File(lines[1..], crlf)
  }

  /** A line a file can hold: no break inside, and no carriage return that the scanner would take for one. */
  predicate IsLine(line: string) {
    '\n' !in line && (line == "" || line[|line| - 1] != '\r')
  }

  lemma {:induction false} LineEndAt(line: string, rest: string)
    requires '\n' !in line
    ensures LineEnd(line + "\n" + rest) == |line|
  {
    var s := line + "\n" + rest;
    if line != "" {
      assert s[1..] == line[1..] + "\n" + rest;
      LineEndAt(line[1..], rest);
    }
  }

  lemma FirstLine(line: string, crlf: bool, rest: string)
    requires IsLine(line)
    ensures Lines(line + (if crlf then "\r\n" else "\n") + rest) == [line] + Lines(rest)
  {
    var head := if crlf then line + "\r" else line;
    LineEndAt(head, rest);
    assert line + (if crlf then "\r\n" else "\n") + rest == head + "\n" + rest;
    var s := head + "\n" + rest;
    assert s[..|head|] == head && s[|head| + 1..] == rest;
    assert DropReturn(head) == line;
  }

  /** What is written to a file line by line is read back line by line. */
  lemma {:induction false} LinesOfFile(lines: seq<string>, crlf: bool)
    requires forall i :: 0 <= i < |lines| ==> IsLine(lines[i])
    ensures Lines(File(lines, crlf)) == lines
  {
    if lines != [] {
      LinesOfFile(lines[1..], crlf);
      FirstLine(lines[0], crlf, File(lines[1..], crlf));
    }
  }

  // ---- the stack of open sections ------------------------------------------------------------------------

  /** An open section: the indent of its own line, its key in the section below, and what it holds so far
      apart from the section open above it. */
  datatype Frame = Frame(indent: int, key: string, tree: Tree)

  /** A stack is never empty: the root is at its bottom. */
  type Stack = s: seq<Frame> | |s| > 0 witness [Frame(-1, "", map[])]

  const START: Stack := [Frame(-1, "", map[])]

  function Top(s: Stack): Frame {
    s[|s| - 1]
  }

  function Add(s: Stack, key: string, v: Value): Stack {
    s[|s| - 1 := Top(s).(tree := Top(s).tree[key := v])]
  }

  /** The top section is complete and goes into the one below. */
  function Close(s: Stack): Stack
    requires |s| > 1
  {
    Add(s[..|s| - 1], Top(s).key, Section(Top(s).tree))
  }

  /** Closes every section that a line at this indent ends. */
  function PopTo(s: Stack, indent: int): (t: Stack)
    decreases |s|
  {
    if |s| > 1 && Top(s).indent >= indent then PopTo(Close(s), indent) else s
  }

  function Enter(s: Stack, indent: int, key: string, val: string): Stack {
    var t := PopTo(s, indent);
    if val == "" then t + [Frame(indent, key, map[])] else Add(t, key, Leaf(val))
  }

  /** The tree as it stands, with every open section in its place. */
  function Whole(s: Stack): Tree
    decreases |s|
  {
    if |s| == 1 then s[0].tree else Whole(Close(s))
  }

  /** Reading so far: the open sections, or the number of the line that could not be read. */
  datatype State = Reading(stack: Stack) | Failed(line: nat)

  function Step(st: State, raw: string, lineNo: nat): State {
    match st
    case Failed(_) => st
    case Reading(stack) =>
      match ReadLine(raw)
      case Blank => st
      case Bad => Failed(lineNo)
      case Entry(indent, key, val) => Reading(Enter(stack, indent, key, val))
  }

  /** Lines are numbered from 1. */
  function Run(st: State, lines: seq<string>): State {
    if lines == [] then st else Step(Run(st, lines[..|lines| - 1]), lines[|lines| - 1], |lines|)
  }

  datatype Result = Parsed(tree: Tree) | SyntaxError(line: nat)

  function Parse(lines: seq<string>): Result {
    match Run(Reading(START), lines)
    case Failed(n) => SyntaxError(n)
    case Reading(stack) => Parsed(Whole(stack))
  }

  // ---- what the stack keeps -------------------------------------------------------------------------------

  /** Indents grow strictly from the root up. */
  predicate Increasing(s: Stack) {
    s[0].indent == -1 && forall i, j :: 0 <= i < j < |s| ==> s[i].indent < s[j].indent
  }

  /** Popping ends at the nearest section still enclosing the line: its indent is smaller, and the sections
      popped had indents no smaller. */
  lemma {:induction false} PopsToEnclosing(s: Stack, indent: int)
    requires Increasing(s) && indent >= 0
    ensures var t := PopTo(s, indent);
      && Increasing(t) && |t| <= |s| && Top(t).indent < indent
      && (forall i :: 0 <= i < |t| ==> t[i].indent == s[i].indent && t[i].key == s[i].key)
      && (forall i :: |t| <= i < |s| ==> s[i].indent >= indent)
    decreases |s|
  {
    if |s| > 1 && Top(s).indent >= indent {
      PopsToEnclosing(Close(s), indent);
    }
  }

  lemma EnterIncreasing(s: Stack, indent: int, key: string, val: string)
    requires Increasing(s) && indent >= 0
    ensures Increasing(Enter(s, indent, key, val))
  {
    PopsToEnclosing(s, indent);
  }

  /** Throughout any file the open sections have strictly increasing indents, and a line's key goes into the
      nearest one that encloses it. */
  lemma {:induction false} RunIncreasing(lines: seq<string>)
    ensures Run(Reading(START), lines).Reading? ==> Increasing(Run(Reading(START), lines).stack)
  {
    if lines != [] {
      RunIncreasing(lines[..|lines| - 1]);
      var st := Run(Reading(START), lines[..|lines| - 1]);
      var line := ReadLine(lines[|lines| - 1]);
      if st.Reading? && line.Entry? {
        EnterIncreasing(st.stack, line.indent, line.key, line.val);
      }
    }
  }

  lemma {:induction false} PopKeepsWhole(s: Stack, indent: int)
    ensures Whole(PopTo(s, indent)) == Whole(s)
    decreases |s|
  {
    if |s| > 1 && Top(s).indent >= indent {
      PopKeepsWhole(Close(s), indent);
    }
  }

  /** Popping for an inner indent and then for an outer one is popping for the outer one. */
  lemma {:induction false} PopTwice(s: Stack, inner: int, outer: int)
    requires outer <= inner
    ensures PopTo(PopTo(s, inner), outer) == PopTo(s, outer)
    decreases |s|
  {
    if |s| > 1 && Top(s).indent >= inner {
      PopTwice(Close(s), inner, outer);
    }
  }

  /** None of the first n lines is without a colon. */
  predicate NoneBad(lines: seq<string>, n: nat)
    requires n <= |lines|
  {
    forall i :: 0 <= i < n ==> ReadLine(lines[i]) != Bad
  }

  /** Reading fails exactly when some line has something but no colon, and names the first such line. */
  lemma {:induction false} FailsAtFirstBad(lines: seq<string>)
    ensures match Run(Reading(START), lines)
      case Failed(n) => 1 <= n <= |lines| && ReadLine(lines[n - 1]) == Bad && NoneBad(lines, n - 1)
      case Reading(_) => NoneBad(lines, |lines|)
  {
    if lines != [] {
      var front, last := lines[..|lines| - 1], lines[|lines| - 1];
      FailsAtFirstBad(front);
      var st := Run(Reading(START), front);
      if st.Reading? {
        NoneBadLonger(lines, |front|);
        assert ReadLine(last) == Bad || NoneBad(lines, |lines|);
      } else {
        NoneBadLonger(lines, st.line - 1);
      }
    }
  }

  lemma NoneBadLonger(lines: seq<string>, n: nat)
    requires n < |lines| && NoneBad(lines[..|lines| - 1], n)
    ensures NoneBad(lines, n)
  {
    assert forall i :: 0 <= i < n ==> lines[..|lines| - 1][i] == lines[i];
  }
}
