/** What a configuration file says, read off its characters: what a line means, which line makes a file fail, and where
    in the tree each key lands, whatever the indents. */
module ConfigText {
  import opened Wrappers
  import opened ConfigSpec

  // ---- one line ---------------------------------------------------------------------------------------------

  predicate AllSpace(s: string) {
    forall i :: 0 <= i < |s| ==> IsSpace(s[i])
  }

  lemma {:induction false} TrimLeftIs(s: string)
    ensures |TrimLeft(s)| <= |s|
    ensures var k := |s| - |TrimLeft(s)|; TrimLeft(s) == s[k..] && AllSpace(s[..k])
    ensures TrimLeft(s) != "" ==> !IsSpace(TrimLeft(s)[0])
  {
    if s != "" && IsSpace(s[0]) {
      TrimLeftIs(s[1..]);
      var k := |s| - |TrimLeft(s)|;
      assert s[1..][..k - 1] == s[1..k] && s[..k] == [s[0]] + s[1..k];
    }
  }

  lemma {:induction false} TrimRightIs(s: string)
    ensures |TrimRight(s)| <= |s|
    ensures var k := |TrimRight(s)|; TrimRight(s) == s[..k] && AllSpace(s[k..])
    ensures TrimRight(s) != "" ==> !IsSpace(TrimRight(s)[|TrimRight(s)| - 1])
  {
    if s != "" && IsSpace(s[|s| - 1]) {
      TrimRightIs(s[..|s| - 1]);
      var k := |TrimRight(s)|;
      assert s[k..] == s[..|s| - 1][k..] + [s[|s| - 1]];
    }
  }

  /** Trimming takes the white space off both ends and nothing else. */
  lemma TrimSpaceIs(s: string) returns (before: string, after: string)
    ensures s == before + TrimSpace(s) + after && AllSpace(before) && AllSpace(after)
    ensures TrimSpace(s) != "" ==> !IsSpace(TrimSpace(s)[0]) && !IsSpace(TrimSpace(s)[|TrimSpace(s)| - 1])
  {
    var left := TrimLeft(s);
    TrimLeftIs(s);
    TrimRightIs(left);
    before, after := s[..|s| - |left|], left[|TrimRight(left)|..];
    assert left == TrimRight(left) + after && s == before + left;
    assert TrimRight(left) != "" ==> TrimRight(left)[0] == left[0];
  }

  lemma TrimsToNothing(s: string)
    ensures TrimSpace(s) == "" <==> AllSpace(s)
  {
    var before, after := TrimSpaceIs(s);
    var n := |before|;
    if TrimSpace(s) == "" {
      assert forall i :: 0 <= i < |s| ==> s[i] == if i < n then before[i] else after[i - n];
    } else {
      assert s[n] == TrimSpace(s)[0];
    }
  }

  lemma ColonSurvivesTrim(s: string)
    ensures ':' in TrimSpace(s) <==> ':' in s
  {
    var before, after := TrimSpaceIs(s);
    assert !IsSpace(':');
  }

  /** The quotation mark that the k-th character is inside of, if any. */
  function Quoting(s: string, k: nat): Option<char>
    requires k <= |s|
  {
    if k == 0 then None
    else
      match Quoting(s, k - 1)
      case Some(q) => if s[k - 1] == q then None else Some(q)
      case None => if s[k - 1] == '"' || s[k - 1] == '\'' then Some(s[k - 1]) else None
  }

  /** k is where the comment starts, or the end of a line without one. */
  predicate CommentAt(s: string, k: nat) {
    && k <= |s|
    && (k < |s| ==> s[k] == '#' && Quoting(s, k).None?)
    && (forall j :: 0 <= j < k && s[j] == '#' ==> Quoting(s, j).Some?)
  }

  lemma {:induction false} StripFrom(s: string, k: nat)
    requires k <= |s| && forall j :: 0 <= j < k && s[j] == '#' ==> Quoting(s, j).Some?
    ensures var t := s[..k] + Strip(s[k..], Quoting(s, k)); |t| <= |s| && t == s[..|t|] && CommentAt(s, |t|)
    decreases |s| - k
  {
    if k < |s| && !(s[k] == '#' && Quoting(s, k).None?) {
      StripFrom(s, k + 1);
      StripOne(s, k);
      hide *;
    }
  }

  lemma StripOne(s: string, k: nat)
    requires k < |s| && !(s[k] == '#' && Quoting(s, k).None?)
    ensures s[..k] + Strip(s[k..], Quoting(s, k)) == s[..k + 1] + Strip(s[k + 1..], Quoting(s, k + 1))
  {
    assert s[k..][1..] == s[k + 1..] && s[..k] + [s[k]] == s[..k + 1];
    assert QuoteAfter(Quoting(s, k), s[k]) == Quoting(s, k + 1);
  }

  /** Stripping keeps exactly the text before the first mark of a comment that is not inside quotes. */
  lemma StripCommentIs(s: string)
    ensures |StripComment(s)| <= |s| && StripComment(s) == s[..|StripComment(s)|] && CommentAt(s, |StripComment(s)|)
  {
    StripFrom(s, 0);
    assert s[0..] == s && s[..0] + Strip(s, None) == Strip(s, None);
  }

  lemma {:induction false} LeadingSpacesAre(s: string)
    ensures LeadingSpaces(s) <= |s| && forall i :: 0 <= i < LeadingSpaces(s) ==> s[i] == ' '
    ensures LeadingSpaces(s) < |s| ==> s[LeadingSpaces(s)] != ' '
  {
    if s != "" && s[0] == ' ' {
      LeadingSpacesAre(s[1..]);
      assert forall i :: 1 <= i < |s| ==> s[i] == s[1..][i - 1];
    }
  }

  lemma {:induction false} ColonIsFirst(s: string)
    ensures Colon(s).Some? <==> ':' in s
    ensures Colon(s).Some? ==> Colon(s).value < |s| && s[Colon(s).value] == ':' && ':' !in s[..Colon(s).value]
  {
    if s != "" && s[0] != ':' {
      ColonIsFirst(s[1..]);
      assert s == [s[0]] + s[1..];
      if Colon(s).Some? {
        var i := Colon(s).value;
        assert s[..i] == [s[0]] + s[1..][..i - 1];
      }
    }
  }

  /** Quotes come off only as a matching pair round the whole text. */
  lemma UnquoteIs(s: string)
    ensures Unquote(s) != s <==> exists q, t :: (q == '"' || q == '\'') && s == [q] + t + [q]
    ensures forall q, t :: (q == '"' || q == '\'') && s == [q] + t + [q] ==> Unquote(s) == t
  {
    if Unquote(s) != s {
      assert s == [s[0]] + Unquote(s) + [s[0]];
    }
    forall q, t | (q == '"' || q == '\'') && s == [q] + t + [q] ensures Unquote(s) == t {
      assert s[1..|s| - 1] == t;
    }
  }

  /** The line has text, but no colon. */
  predicate NoColon(raw: string) {
    !AllSpace(StripComment(raw)) && ':' !in StripComment(raw)
  }

  /** What a line says: nothing when all before its comment is white space; otherwise, when there is no colon before the
      comment, it is an error; otherwise a key before the first colon, and after it a value, each without the white
      space round it and the value without quotes, at the indent of the line's leading spaces. */
  lemma ReadLineIs(raw: string)
    ensures ReadLine(raw).Blank? <==> AllSpace(StripComment(raw))
    ensures ReadLine(raw).Bad? <==> NoColon(raw)
    ensures ReadLine(raw).Entry? ==>
              && ReadLine(raw).indent == LeadingSpaces(StripComment(raw))
              && exists key, val :: TrimSpace(StripComment(raw)) == key + ":" + val && ':' !in key
                   && ReadLine(raw) == Entry(ReadLine(raw).indent, TrimSpace(key), Unquote(TrimSpace(val)))
  {
    var line := StripComment(raw);
    var trimmed := TrimSpace(line);
    TrimsToNothing(line);
    ColonSurvivesTrim(line);
    ColonIsFirst(trimmed);
    if ReadLine(raw).Entry? {
      var i := Colon(trimmed).value;
      assert trimmed == trimmed[..i] + ":" + trimmed[i + 1..];
    }
  }

  /** A file fails to parse exactly at its first line with text and no colon, and parses when it has none. */
  lemma FailsExactlyAt(lines: seq<string>, n: nat)
    ensures Parse(lines) == SyntaxError(n)
       <==> 1 <= n <= |lines| && NoColon(lines[n - 1]) && forall i :: 0 <= i < n - 1 ==> !NoColon(lines[i])
    ensures Parse(lines).Parsed? <==> forall i :: 0 <= i < |lines| ==> !NoColon(lines[i])
  {
    hide ReadLine;
    hide NoColon;
    hide ConfigSpec.Run;
    FailsAtFirstBad(lines);
    forall i | 0 <= i < |lines| ensures ReadLine(lines[i]) == Bad <==> NoColon(lines[i]) {
      ReadLineIs(lines[i]);
    }
  }

  /** A last line without a break after it is a line too. */
  lemma {:induction false} LinesOfOpenFile(lines: seq<string>, crlf: bool, last: string)
    requires forall i :: 0 <= i < |lines| ==> IsLine(lines[i])
    requires last != "" && IsLine(last)
    ensures Lines(File(lines, crlf) + last) == lines + [last]
  {
    if lines == [] {
      OneLine(last);
      hide Lines;
      assert File(lines, crlf) + last == last && lines + [last] == [last];
    } else {
      LinesOfOpenFile(lines[1..], crlf, last);
      FileHead(lines, crlf, last);
      hide *;
      FirstLine(lines[0], crlf, File(lines[1..], crlf) + last);
      assert [lines[0]] + (lines[1..] + [last]) == lines + [last];
    }
  }

  lemma FileHead(lines: seq<string>, crlf: bool, last: string)
    requires lines != []
    ensures File(lines, crlf) + last
         == lines[0] + (if crlf then "\r\n" else "\n") + (File(lines[1..], crlf) + last)
  {
    var eol := if crlf then "\r\n" else "\n";
    var rest := File(lines[1..], crlf);
    assert lines[0] + eol + rest + last == lines[0] + eol + (rest + last);
  }

  lemma OneLine(line: string)
    requires line != "" && IsLine(line)
    ensures Lines(line) == [line]
  {
    assert LineEnd(line) == |line|;
  }

  // ---- the whole file -------------------------------------------------------------------------------------------

  /** An open section's line: its indent and its key. */
  datatype Heading = Heading(indent: int, key: string)

  /** The headings a line at this indent is under. */
  function Above(open: seq<Heading>, indent: int): seq<Heading> {
    if open == [] then []
    else if open[|open| - 1].indent >= indent then Above(open[..|open| - 1], indent)
    else open
  }

  /** The headings open after a line: those it is under, and itself if it has no value. */
  function OpenAfter(open: seq<Heading>, line: Line): seq<Heading> {
    if !line.Entry? then open
    else Above(open, line.indent) + if line.val == "" then [Heading(line.indent, line.key)] else []
  }

  function OpenAt(lines: seq<string>): seq<Heading> {
    if lines == [] then [] else OpenAfter(OpenAt(lines[..|lines| - 1]), ReadLine(lines[|lines| - 1]))
  }

  function Keys(open: seq<Heading>): seq<string> {
    seq(|open|, i requires 0 <= i < |open| => open[i].key)
  }

  /** The tree with the value at the path, in sections made on the way where there are none. */
  function SetAt(tree: Tree, path: seq<string>, v: Value): Tree
    requires path != []
    decreases |path|
  {
    if |path| == 1 then tree[path[0] := v]
    else
      var sub := if path[0] in tree && tree[path[0]].Section? then tree[path[0]].tree else map[];
      tree[path[0] := Section(SetAt(sub, path[1..], v))]
  }

  /** The tree line by line: every entry sets the path of its headings and its key, to its value or an empty section. */
  function Outline(lines: seq<string>): Tree {
    if lines == [] then map[]
    else
      var front, line := lines[..|lines| - 1], ReadLine(lines[|lines| - 1]);
      if !line.Entry? then Outline(front)
      else SetAt(Outline(front), Keys(Above(OpenAt(front), line.indent)) + [line.key],
                 if line.val == "" then Section(map[]) else Leaf(line.val))
  }

  /** The headings of the sections on a stack. */
  function Headings(s: Stack): seq<Heading> {
    seq(|s| - 1, i requires 0 <= i < |s| - 1 => Heading(s[i + 1].indent, s[i + 1].key))
  }

  lemma {:induction false} PopsToAbove(s: Stack, indent: int)
    ensures Headings(PopTo(s, indent)) == Above(Headings(s), indent)
    decreases |s|
  {
    if |s| > 1 {
      var h := Headings(s);
      assert h[..|h| - 1] == Headings(Close(s));
      if Top(s).indent >= indent {
        PopsToAbove(Close(s), indent);
      }
    }
  }

  /** Setting a path and then one below it is setting the path with that in place. */
  lemma {:induction false} SetBelow(tree: Tree, path: seq<string>, sub: Tree, key: string, v: Value)
    requires path != []
    ensures SetAt(SetAt(tree, path, Section(sub)), path + [key], v) == SetAt(tree, path, Section(sub[key := v]))
    decreases |path|
  {
    assert (path + [key])[1..] == path[1..] + [key];
    if |path| > 1 {
      var inner := if path[0] in tree && tree[path[0]].Section? then tree[path[0]].tree else map[];
      SetBelow(inner, path[1..], sub, key, v);
    }
  }

  /** Adding to the top section sets the path of its headings and the key in the whole tree. */
  lemma {:induction false} AddSetsPath(s: Stack, key: string, v: Value)
    ensures Whole(Add(s, key, v)) == SetAt(Whole(s), Keys(Headings(s)) + [key], v)
    decreases |s|
  {
    if |s| == 1 {
      assert Keys(Headings(s)) + [key] == [key];
    } else {
      var below, top := s[..|s| - 1], Top(s);
      var path := Keys(Headings(below)) + [top.key];
      assert Keys(Headings(s)) == path;
      assert Close(Add(s, key, v)) == Add(below, top.key, Section(top.tree[key := v]));
      AddSetsPath(below, top.key, Section(top.tree[key := v]));
      AddSetsPath(below, top.key, Section(top.tree));
      SetBelow(Whole(below), path, top.tree, key, v);
    }
  }

  lemma EnterSetsPath(s: Stack, indent: nat, key: string, val: string)
    ensures var v := if val == "" then Section(map[]) else Leaf(val);
      Whole(Enter(s, indent, key, val)) == SetAt(Whole(s), Keys(Above(Headings(s), indent)) + [key], v)
    ensures Headings(Enter(s, indent, key, val)) == OpenAfter(Headings(s), Entry(indent, key, val))
  {
    var t := PopTo(s, indent);
    PopsToAbove(s, indent);
    PopKeepsWhole(s, indent);
    if val == "" {
      var u := t + [Frame(indent, key, map[])];
      assert Close(u) == Add(t, key, Section(map[])) by { assert u[..|u| - 1] == t; }
      AddSetsPath(t, key, Section(map[]));
    } else {
      AddSetsPath(t, key, Leaf(val));
    }
  }

  lemma {:induction false} RunIsOutline(lines: seq<string>)
    ensures var st := Run(Reading(START), lines);
            st.Reading? ==> Headings(st.stack) == OpenAt(lines) && Whole(st.stack) == Outline(lines)
  {
    if lines != [] {
      var front, raw := lines[..|lines| - 1], lines[|lines| - 1];
      RunIsOutline(front);
      var st, line := Run(Reading(START), front), ReadLine(raw);
      if st.Reading? && line.Entry? {
        EnterSetsPath(st.stack, line.indent, line.key, line.val);
      }
    }
  }

  /** Whatever its indents, a file with no line that fails parses to the tree in which every key stands, in the order of
      the lines, under the nearest lines above it that are indented less and have no value. */
  lemma ParsesAsOutline(lines: seq<string>)
    requires forall i :: 0 <= i < |lines| ==> !NoColon(lines[i])
    ensures Parse(lines) == Parsed(Outline(lines))
  {
    FailsExactlyAt(lines, 0);
    RunIsOutline(lines);
  }
}
