/** The parser inverts printing: whatever tree of settings is written down in order, at any positive indent
    step, with comments and blank lines anywhere, is what the parser returns. */
module ConfigRoundTrip {
  import opened Wrappers
  import opened ConfigSpec

  /** How a leaf is written: bare, or between two of the same quotation mark. */
  datatype Style = Bare | Quoted(mark: char)

  /** A line to print, in order; tail is what follows it: spaces, and then a comment or nothing. */
  datatype Item =
    | Setting(key: string, text: string, style: Style, tail: string)
    | Group(key: string, items: seq<Item>, tail: string)

  // ---- what is printed ---------------------------------------------------------------------------------

  function Spaces(n: nat): string {
    if n == 0 then "" else " " + Spaces(n - 1)
  }

  function Write(text: string, style: Style): string {
    match style
    case Bare => text
    case Quoted(mark) => [mark] + text + [mark]
  }

  function PrintItem(item: Item, indent: nat, step: nat): seq<string>
    decreases item
  {
    match item
    case Setting(key, text, style, tail) => [Spaces(indent) + key + ": " + Write(text, style) + tail]
    case Group(key, items, tail) => [Spaces(indent) + key + ":" + tail] + Print(items, indent + step, step)
  }

  function Print(items: seq<Item>, indent: nat, step: nat): seq<string>
    decreases items
  {
    if items == [] then []
    else Print(items[..|items| - 1], indent, step) + PrintItem(items[|items| - 1], indent, step)
  }

  /** No mark that the parser reads. */
  predicate Unmarked(s: string) {
    forall i :: 0 <= i < |s| ==> s[i] != '#' && !IsQuote(s[i])
  }

  predicate Trimmed(s: string) {
    s == "" || (!IsSpace(s[0]) && !IsSpace(s[|s| - 1]))
  }

  predicate KeyOK(key: string) {
    Unmarked(key) && ':' !in key && '\n' !in key && Trimmed(key)
  }

  predicate TextOK(text: string, style: Style) {
    match style
    case Bare => Unmarked(text) && Trimmed(text) && text != "" && '\n' !in text
    case Quoted(mark) => IsQuote(mark) && mark !in text && '\n' !in text
  }

  /** Spaces and then a comment or nothing, within one line. */
  predicate TailOK(tail: string) {
    IsLine(tail) && (tail == "" || tail[0] == '#' || (tail[0] == ' ' && TailOK(tail[1..])))
  }

  /** Keys free of the parser's marks, leaves that are not empty and are quoted if they need to be. */
  predicate Printable(item: Item)
    decreases item
  {
    && KeyOK(item.key) && TailOK(item.tail)
    && match item
       case Setting(_, text, style, _) => text != "" && TextOK(text, style)
       case Group(_, items, _) => AllPrintable(items)
  }

  predicate AllPrintable(items: seq<Item>)
    decreases items
  {
    items == [] || (AllPrintable(items[..|items| - 1]) && Printable(items[|items| - 1]))
  }

  // ---- what it means --------------------------------------------------------------------------------------

  function ValueOf(item: Item): Value
    decreases item
  {
    match item
    case Setting(_, text, _, _) => Leaf(text)
    case Group(_, items, _) => Section(AddAll(map[], items))
  }

  function AddAll(tree: Tree, items: seq<Item>): Tree
    decreases items
  {
    if items == [] then tree
    else AddAll(tree, items[..|items| - 1])[items[|items| - 1].key := ValueOf(items[|items| - 1])]
  }

  function TreeOf(items: seq<Item>): Tree {
    AddAll(map[], items)
  }

  /** With distinct keys the tree holds exactly the items, each under its key, in whatever order they were
      printed. */
  lemma {:induction false} TreeHoldsItems(items: seq<Item>)
    requires forall i, j :: 0 <= i < j < |items| ==> items[i].key != items[j].key
    ensures forall i :: 0 <= i < |items| ==>
              items[i].key in TreeOf(items) && TreeOf(items)[items[i].key] == ValueOf(items[i])
    ensures forall k :: k in TreeOf(items) ==> exists i :: 0 <= i < |items| && items[i].key == k
    decreases |items|
  {
    if items != [] {
      var front := items[..|items| - 1];
      TreeHoldsItems(front);
      forall i | 0 <= i < |items|
        ensures items[i].key in TreeOf(items) && TreeOf(items)[items[i].key] == ValueOf(items[i])
      {
        if i < |front| { assert front[i] == items[i]; }
      }
      forall k | k in TreeOf(items) ensures exists i :: 0 <= i < |items| && items[i].key == k {
        if k == items[|items| - 1].key {
          assert items[|items| - 1].key == k;
        } else {
          assert k in TreeOf(front);
          var i :| 0 <= i < |front| && front[i].key == k;
          assert items[i].key == k;
        }
      }
    }
  }

  // ---- reading one printed line ------------------------------------------------------------------------------

  lemma {:induction false} StripOver(a: string, b: string)
    requires Unmarked(a)
    ensures Strip(a + b, None) == a + Strip(b, None)
  {
    if a == "" {
      assert a + b == b;
    } else {
      assert (a + b)[1..] == a[1..] + b;
      StripOver(a[1..], b);
    }
  }

  lemma {:induction false} StripInside(text: string, mark: char, rest: string)
    requires IsQuote(mark) && mark !in text
    ensures Strip(text + [mark] + rest, Some(mark)) == text + [mark] + Strip(rest, None)
  {
    var s := text + [mark] + rest;
    if text == "" {
      assert s[1..] == rest;
    } else {
      assert s[1..] == text[1..] + [mark] + rest;
      StripInside(text[1..], mark, rest);
    }
  }

  lemma StripWritten(text: string, style: Style, rest: string)
    requires TextOK(text, style)
    ensures Strip(Write(text, style) + rest, None) == Write(text, style) + Strip(rest, None)
  {
    match style
    case Bare => StripOver(text, rest);
    case Quoted(mark) =>
      var s := Write(text, style) + rest;
      assert s[1..] == text + [mark] + rest;
      StripInside(text, mark, rest);
  }

  function Padding(tail: string): nat {
    if tail != "" && tail[0] == ' ' then 1 + Padding(tail[1..]) else 0
  }

  lemma {:induction false} StripTail(tail: string)
    requires TailOK(tail)
    ensures Strip(tail, None) == Spaces(Padding(tail))
  {
    if tail != "" && tail[0] == ' ' {
      StripTail(tail[1..]);
    }
  }

  lemma {:induction false} SpacesAre(n: nat)
    ensures |Spaces(n)| == n && Unmarked(Spaces(n)) && forall i :: 0 <= i < n ==> Spaces(n)[i] == ' '
  {
    if n > 0 { SpacesAre(n - 1); }
  }

  lemma {:induction false} TrimLeftPadding(n: nat, s: string)
    requires s != "" && !IsSpace(s[0])
    ensures TrimLeft(Spaces(n) + s) == s && (s[0] != ' ' ==> LeadingSpaces(Spaces(n) + s) == n)
  {
    if n == 0 {
      assert Spaces(n) + s == s;
    } else {
      assert (Spaces(n) + s)[1..] == Spaces(n - 1) + s;
      TrimLeftPadding(n - 1, s);
    }
  }

  lemma {:induction false} TrimRightPadding(s: string, n: nat)
    requires s != "" && !IsSpace(s[|s| - 1])
    ensures TrimRight(s + Spaces(n)) == s
  {
    if n == 0 {
      assert s + Spaces(n) == s;
    } else {
      SpacesAre(n);
      SpacesAre(n - 1);
      assert Spaces(n)[..n - 1] == Spaces(n - 1);
      assert (s + Spaces(n))[..|s| + n - 1] == s + Spaces(n - 1);
      TrimRightPadding(s, n - 1);
    }
  }

  /** Text between spaces trims to itself, and its indent is the spaces before it. */
  lemma TrimPadded(n: nat, s: string, m: nat)
    requires s != "" && Trimmed(s)
    ensures TrimSpace(Spaces(n) + s + Spaces(m)) == s && LeadingSpaces(Spaces(n) + s + Spaces(m)) == n
  {
    assert Spaces(n) + s + Spaces(m) == Spaces(n) + (s + Spaces(m));
    TrimLeftPadding(n, s + Spaces(m));
    TrimRightPadding(s, m);
  }

  lemma TrimTrimmed(s: string)
    requires Trimmed(s)
    ensures TrimSpace(s) == s && TrimSpace(" " + s) == s
  {
    if s == "" {
      assert TrimLeft(" ") == TrimLeft("");
    } else {
      TrimPadded(0, s, 0);
      assert Spaces(0) + s + Spaces(0) == s;
      TrimPadded(1, s, 0);
      assert Spaces(1) + s + Spaces(0) == " " + s;
    }
  }

  lemma {:induction false} ColonAfter(key: string, rest: string)
    requires ':' !in key
    ensures Colon(key + ":" + rest) == Some(|key|)
  {
    var s := key + ":" + rest;
    if key != "" {
      assert s[1..] == key[1..] + ":" + rest;
      ColonAfter(key[1..], rest);
    }
  }

  /** A line made of an indent, a key, a colon and a rest that trims to w. */
  lemma ReadsAs(n: nat, key: string, rest: string, m: nat, w: string)
    requires KeyOK(key) && Trimmed(key + ":" + rest) && TrimSpace(rest) == w
    ensures var line := Spaces(n) + (key + ":" + rest) + Spaces(m);
            TrimSpace(line) == key + ":" + rest && LeadingSpaces(line) == n
    ensures var s := key + ":" + rest;
            Colon(s) == Some(|key|) && TrimSpace(s[..|key|]) == key && TrimSpace(s[|key| + 1..]) == w
  {
    var s := key + ":" + rest;
    TrimPadded(n, s, m);
    ColonAfter(key, rest);
    assert s[..|key|] == key && s[|key| + 1..] == rest;
    TrimTrimmed(key);
  }

  /** A line whose text, comment removed, is an indent, a key, a colon, a rest and spaces. */
  lemma ReadsLine(raw: string, n: nat, key: string, rest: string, m: nat, w: string)
    requires StripComment(raw) == Spaces(n) + (key + ":" + rest) + Spaces(m)
    requires KeyOK(key) && Trimmed(key + ":" + rest) && TrimSpace(rest) == w
    ensures ReadLine(raw) == Entry(n, key, Unquote(w))
  {
    ReadsAs(n, key, rest, m, w);
  }

  lemma StripGroup(key: string, tail: string, n: nat)
    requires KeyOK(key) && TailOK(tail)
    ensures StripComment(Spaces(n) + key + ":" + tail) == Spaces(n) + (key + ":" + "") + Spaces(Padding(tail))
  {
    var head := Spaces(n) + key + ":";
    SpacesAre(n);
    assert Unmarked(head);
    StripOver(head, tail);
    StripTail(tail);
    assert key + ":" + "" == key + ":";
    assert Spaces(n) + (key + ":") == head;
  }

  /** A printed section heading reads as its key with no value. */
  lemma ReadGroup(key: string, tail: string, n: nat)
    requires KeyOK(key) && TailOK(tail)
    ensures ReadLine(Spaces(n) + key + ":" + tail) == Entry(n, key, "")
  {
    StripGroup(key, tail, n);
    ReadsLine(Spaces(n) + key + ":" + tail, n, key, "", Padding(tail), "");
  }

  lemma WrittenTrimmed(text: string, style: Style)
    requires TextOK(text, style)
    ensures Write(text, style) != "" && Trimmed(Write(text, style)) && Unquote(Write(text, style)) == text
  {
    var w := Write(text, style);
    match style
    case Bare =>
    case Quoted(mark) => assert w[1..|w| - 1] == text;
  }

  lemma StripSetting(key: string, text: string, style: Style, tail: string, n: nat)
    requires KeyOK(key) && TextOK(text, style) && TailOK(tail)
    ensures StripComment(Spaces(n) + key + ": " + Write(text, style) + tail)
         == Spaces(n) + (key + ":" + (" " + Write(text, style))) + Spaces(Padding(tail))
  {
    var w := Write(text, style);
    var head := Spaces(n) + key + ": ";
    SpacesAre(n);
    assert Unmarked(head);
    StripOver(head, w + tail);
    assert head + w + tail == head + (w + tail);
    StripWritten(text, style, tail);
    StripTail(tail);
    Regroup(Spaces(n), key, w, Spaces(Padding(tail)));
  }

  lemma Regroup(a: string, key: string, w: string, b: string)
    ensures (a + key + ": ") + (w + b) == a + (key + ":" + (" " + w)) + b
  {
    assert a + key + ": " == a + (key + ":" + " ");
    assert key + ":" + " " + w == key + ":" + (" " + w);
  }

  lemma SettingTrimmed(key: string, w: string)
    requires KeyOK(key) && w != "" && Trimmed(w)
    ensures Trimmed(key + ":" + (" " + w)) && TrimSpace(" " + w) == w
  {
    var s := key + ":" + (" " + w);
    assert s[|s| - 1] == w[|w| - 1];
    TrimTrimmed(w);
  }

  /** A printed setting reads as its key and its text, quotes taken off. */
  lemma ReadSetting(key: string, text: string, style: Style, tail: string, n: nat)
    requires KeyOK(key) && TextOK(text, style) && TailOK(tail)
    ensures ReadLine(Spaces(n) + key + ": " + Write(text, style) + tail) == Entry(n, key, text)
  {
    var w := Write(text, style);
    StripSetting(key, text, style, tail, n);
    WrittenTrimmed(text, style);
    SettingTrimmed(key, w);
    ReadsLine(Spaces(n) + key + ": " + w + tail, n, key, " " + w, Padding(tail), w);
  }

  lemma ParseOne(raw: string, n: nat, key: string, text: string)
    requires ReadLine(raw) == Entry(n, key, text)
    ensures Parse([raw]) == Parsed(map[key := if text == "" then Section(map[]) else Leaf(text)])
  {
    assert [raw][..0] == [];
    assert Run(Reading(START), [raw]) == Reading(Enter(START, n, key, text));
    var none: Tree := map[];
    if text == "" {
      var s := Enter(START, n, key, text);
      assert s[..|s| - 1] == START;
      assert none[key := Section(map[])] == map[key := Section(map[])];
      assert Whole(s) == Whole(Close(s));
    } else {
      assert none[key := Leaf(text)] == map[key := Leaf(text)];
    }
  }

  /** A leaf comes back as itself exactly when it is not empty: an empty one, quoted, reads as a section. */
  lemma LeafComesBack(key: string, text: string, style: Style, tail: string, n: nat)
    requires KeyOK(key) && TextOK(text, style) && TailOK(tail)
    ensures var p := Parse([Spaces(n) + key + ": " + Write(text, style) + tail]);
            p.Parsed? && p.tree.Keys == {key} && (p.tree[key] == Leaf(text) <==> text != "")
  {
    ReadSetting(key, text, style, tail, n);
    ParseOne(Spaces(n) + key + ": " + Write(text, style) + tail, n, key, text);
  }

  /** A line of spaces and a comment says nothing. */
  lemma CommentIsBlank(n: nat, comment: string)
    ensures ReadLine(Spaces(n) + "#" + comment) == Blank
  {
    SpacesAre(n);
    assert Spaces(n) + "#" + comment == Spaces(n) + ("#" + comment);
    StripOver(Spaces(n), "#" + comment);
    assert Spaces(n) + "" == Spaces(n);
    TrimSpaces(n);
  }

  lemma {:induction false} TrimSpaces(n: nat)
    ensures TrimLeft(Spaces(n)) == ""
  {
    if n > 0 {
      assert Spaces(n)[1..] == Spaces(n - 1);
      TrimSpaces(n - 1);
    }
  }

  // ---- reading what was printed --------------------------------------------------------------------------------

  function Take(s: Stack, raw: string): Stack {
    match ReadLine(raw)
    case Entry(indent, key, val) => Enter(s, indent, key, val)
    case _ => s
  }

  function TakeAll(s: Stack, lines: seq<string>): Stack {
    if lines == [] then s else Take(TakeAll(s, lines[..|lines| - 1]), lines[|lines| - 1])
  }

  lemma {:induction false} TakeConcat(s: Stack, a: seq<string>, b: seq<string>)
    ensures TakeAll(s, a + b) == TakeAll(TakeAll(s, a), b)
    decreases |b|
  {
    if b == [] {
      assert a + b == a;
    } else {
      assert (a + b)[..|a + b| - 1] == a + b[..|b| - 1];
      TakeConcat(s, a, b[..|b| - 1]);
    }
  }

  /** The top section with items added to it. */
  function AddTo(s: Stack, items: seq<Item>): Stack {
    s[|s| - 1 := Top(s).(tree := AddAll(Top(s).tree, items))]
  }

  /** One printed item, once it is over, adds itself to the section it was printed in. */
  lemma {:induction false} TakePrinted(s: Stack, item: Item, indent: nat, step: nat)
    requires Printable(item) && Top(s).indent < indent && step > 0
    ensures PopTo(TakeAll(s, PrintItem(item, indent, step)), indent) == Add(s, item.key, ValueOf(item))
    decreases item
  {
    hide ConfigSpec.PopTo;
    hide TakeAll;
    hide AddTo;
    match item
    case Setting(_, _, _, _) => TakeSetting(s, item, indent, step);
    case Group(key, items, tail) =>
      TakeAllPrinted(Opened(s, indent, key), items, indent + step, step);
      TakeGroup(s, item, indent, step);
  }

  lemma TakeGroup(s: Stack, item: Item, indent: nat, step: nat)
    requires item.Group? && Printable(item) && Top(s).indent < indent
    requires var t := Opened(s, indent, item.key);
             PopTo(TakeAll(t, Print(item.items, indent + step, step)), indent + step) == AddTo(t, item.items)
    ensures PopTo(TakeAll(s, PrintItem(item, indent, step)), indent) == Add(s, item.key, ValueOf(item))
  {
    TakeHeading(s, item, indent, step);
    GroupCloses(s, indent, step, item.key, item.items);
  }

  lemma TakeSetting(s: Stack, item: Item, indent: nat, step: nat)
    requires item.Setting? && Printable(item) && Top(s).indent < indent
    ensures PopTo(TakeAll(s, PrintItem(item, indent, step)), indent) == Add(s, item.key, ValueOf(item))
  {
    ReadSetting(item.key, item.text, item.style, item.tail, indent);
    TakeOne(s, PrintItem(item, indent, step)[0]);
  }

  function Opened(s: Stack, indent: nat, key: string): Stack {
    s + [Frame(indent, key, map[])]
  }

  lemma TakeHeading(s: Stack, item: Item, indent: nat, step: nat)
    requires item.Group? && Printable(item) && Top(s).indent < indent
    ensures TakeAll(s, PrintItem(item, indent, step))
         == TakeAll(Opened(s, indent, item.key), Print(item.items, indent + step, step))
  {
    var head := Spaces(indent) + item.key + ":" + item.tail;
    ReadGroup(item.key, item.tail, indent);
    TakeOne(s, head);
    TakeConcat(s, [head], Print(item.items, indent + step, step));
  }

  lemma TakeOne(s: Stack, raw: string)
    ensures TakeAll(s, [raw]) == Take(s, raw)
  {
    assert [raw][..0] == [];
  }

  lemma GroupCloses(s: Stack, indent: nat, step: nat, key: string, items: seq<Item>)
    requires Top(s).indent < indent
    requires var t := Opened(s, indent, key);
             PopTo(TakeAll(t, Print(items, indent + step, step)), indent + step) == AddTo(t, items)
    ensures PopTo(TakeAll(Opened(s, indent, key), Print(items, indent + step, step)), indent)
         == Add(s, key, Section(AddAll(map[], items)))
  {
    hide TakeAll;
    hide Print;
    PopTwice(TakeAll(Opened(s, indent, key), Print(items, indent + step, step)), indent + step, indent);
    ClosesInto(s, indent, key, AddTo(Opened(s, indent, key), items));
  }

  lemma ClosesInto(s: Stack, indent: nat, key: string, v: Stack)
    requires Top(s).indent < indent && |v| == |s| + 1 && v[..|s|] == s && Top(v).indent == indent && Top(v).key == key
    ensures PopTo(v, indent) == Add(s, key, Section(Top(v).tree))
  {
    assert Close(v) == Add(s, key, Section(Top(v).tree));
  }

  /** So do items printed one after the other. */
  lemma {:induction false} TakeAllPrinted(s: Stack, items: seq<Item>, indent: nat, step: nat)
    requires AllPrintable(items) && Top(s).indent < indent && step > 0
    ensures PopTo(TakeAll(s, Print(items, indent, step)), indent) == AddTo(s, items)
    decreases items
  {
    if items != [] {
      var front, last := items[..|items| - 1], items[|items| - 1];
      TakeAllPrinted(s, front, indent, step);
      var u := TakeAll(s, Print(front, indent, step));
      TakeConcat(s, Print(front, indent, step), PrintItem(last, indent, step));
      PoppedFirst(u, last, indent, step);
      TakePrinted(PopTo(u, indent), last, indent, step);
    } else {
      assert AddTo(s, items) == s;
    }
  }

  /** An item at an indent closes what that indent ends, so popping first changes nothing. */
  lemma PoppedFirst(u: Stack, item: Item, indent: nat, step: nat)
    requires Printable(item)
    ensures TakeAll(u, PrintItem(item, indent, step)) == TakeAll(PopTo(u, indent), PrintItem(item, indent, step))
  {
    PopTwice(u, indent, indent);
    match item
    case Setting(key, text, style, tail) =>
      ReadSetting(key, text, style, tail, indent);
      TakeOne(u, PrintItem(item, indent, step)[0]);
      TakeOne(PopTo(u, indent), PrintItem(item, indent, step)[0]);
    case Group(key, items, tail) =>
      var head := Spaces(indent) + key + ":" + tail;
      ReadGroup(key, tail, indent);
      TakeOne(u, head);
      TakeOne(PopTo(u, indent), head);
      TakeConcat(u, [head], Print(items, indent + step, step));
      TakeConcat(PopTo(u, indent), [head], Print(items, indent + step, step));
  }

  // ---- the theorem -----------------------------------------------------------------------------------------------

  /** The lines that say something. */
  function Significant(lines: seq<string>): seq<string> {
    if lines == [] then []
    else if ReadLine(lines[|lines| - 1]).Blank? then Significant(lines[..|lines| - 1])
    else Significant(lines[..|lines| - 1]) + [lines[|lines| - 1]]
  }

  /** Blank and comment lines change nothing in what is read. */
  lemma {:induction false} BlanksInvisible(s: Stack, lines: seq<string>)
    ensures TakeAll(s, lines) == TakeAll(s, Significant(lines))
  {
    if lines != [] {
      var front, last := lines[..|lines| - 1], lines[|lines| - 1];
      BlanksInvisible(s, front);
      if !ReadLine(last).Blank? {
        TakeConcat(s, Significant(front), [last]);
        TakeOne(TakeAll(s, Significant(front)), last);
      }
    }
  }

  predicate AllRead(lines: seq<string>) {
    forall i :: 0 <= i < |lines| ==> ReadLine(lines[i]).Entry?
  }

  lemma {:induction false} RunTakes(lines: seq<string>)
    requires AllRead(Significant(lines))
    ensures Run(Reading(START), lines) == Reading(TakeAll(START, lines))
  {
    if lines != [] {
      var front, last := lines[..|lines| - 1], lines[|lines| - 1];
      var sig := Significant(lines);
      assert AllRead(Significant(front)) by {
        forall i | 0 <= i < |Significant(front)| ensures ReadLine(Significant(front)[i]).Entry? {
          assert sig[i] == Significant(front)[i];
        }
      }
      RunTakes(front);
      if !ReadLine(last).Blank? {
        assert sig[|sig| - 1] == last;
      }
    }
  }

  lemma {:induction false} PrintedAllRead(items: seq<Item>, indent: nat, step: nat)
    requires AllPrintable(items)
    ensures AllRead(Print(items, indent, step))
    decreases items
  {
    if items != [] {
      PrintedAllRead(items[..|items| - 1], indent, step);
      PrintedItemRead(items[|items| - 1], indent, step);
    }
  }

  lemma {:induction false} PrintedItemRead(item: Item, indent: nat, step: nat)
    requires Printable(item)
    ensures AllRead(PrintItem(item, indent, step))
    decreases item
  {
    match item
    case Setting(key, text, style, tail) => ReadSetting(key, text, style, tail, indent);
    case Group(key, items, tail) =>
      ReadGroup(key, tail, indent);
      PrintedAllRead(items, indent + step, step);
  }

  lemma PrintedSettingIsLine(key: string, text: string, style: Style, tail: string, n: nat)
    requires KeyOK(key) && TextOK(text, style) && TailOK(tail)
    ensures IsLine(Spaces(n) + key + ": " + Write(text, style) + tail)
  {
    SpacesAre(n);
    WrittenTrimmed(text, style);
    var head := Spaces(n) + key + ": " + Write(text, style);
    assert head[|head| - 1] == Write(text, style)[|Write(text, style)| - 1];
    assert head[|head| - 1] != '\r';
    JoinsLine(head, tail);
  }

  lemma JoinsLine(head: string, tail: string)
    requires IsLine(head) && IsLine(tail)
    ensures IsLine(head + tail)
  {
    if tail == "" { assert head + tail == head; }
  }

  predicate AllLines(lines: seq<string>) {
    forall i :: 0 <= i < |lines| ==> IsLine(lines[i])
  }

  /** What is printed are lines that a file can hold. */
  lemma {:induction false} PrintedAreLines(items: seq<Item>, indent: nat, step: nat)
    requires AllPrintable(items)
    ensures AllLines(Print(items, indent, step))
    decreases items
  {
    if items != [] {
      PrintedAreLines(items[..|items| - 1], indent, step);
      PrintedItemIsLines(items[|items| - 1], indent, step);
    }
  }

  lemma {:induction false} PrintedItemIsLines(item: Item, indent: nat, step: nat)
    requires Printable(item)
    ensures AllLines(PrintItem(item, indent, step))
    decreases item
  {
    match item
    case Setting(key, text, style, tail) => PrintedSettingIsLine(key, text, style, tail, indent);
    case Group(key, items, tail) =>
      SpacesAre(indent);
      JoinsLine(Spaces(indent) + key + ":", tail);
      PrintedAreLines(items, indent + step, step);
  }

  /** The parser inverts the printer: lines that are, but for blank and comment lines anywhere among them, a
      printing of some items at any indent and any positive step parse to exactly the items' tree. */
  lemma ParsesWhatWasPrinted(items: seq<Item>, lines: seq<string>, indent: nat, step: nat)
    requires AllPrintable(items) && step > 0 && Significant(lines) == Print(items, indent, step)
    ensures Parse(lines) == Parsed(TreeOf(items))
  {
    PrintedAllRead(items, indent, step);
    RunTakes(lines);
    BlanksInvisible(START, lines);
    TakeAllPrinted(START, items, indent, step);
    var u := TakeAll(START, lines);
    PopKeepsWhole(u, indent);
    assert Whole(AddTo(START, items)) == TreeOf(items);
  }

  // ---- every tree can be printed -------------------------------------------------------------------------------

  /** Keys free of the parser's marks; leaves not empty, free of at least one of the two quotation marks; no
      line breaks in either. */
  predicate Writable(v: Value)
    decreases v
  {
    match v
    case Leaf(text) => text != "" && '\n' !in text && ('"' !in text || '\'' !in text)
    case Section(tree) => forall k :: k in tree ==> KeyOK(k) && Writable(tree[k])
  }

  function Part(tree: Tree, keys: set<string>): Tree {
    map k | k in tree && k in keys :: tree[k]
  }

  lemma {:induction false} ListPart(v: Value, keys: set<string>) returns (items: seq<Item>)
    requires v.Section? && Writable(v) && keys <= v.tree.Keys
    ensures AllPrintable(items) && TreeOf(items) == Part(v.tree, keys)
    decreases v, |keys|
  {
    if keys == {} {
      items := [];
    } else {
      var k :| k in keys;
      var front := ListPart(v, keys - {k});
      var item := ListValue(k, v.tree[k], v);
      items := front + [item];
      assert items[..|items| - 1] == front;
      assert Part(v.tree, keys) == Part(v.tree, keys - {k})[k := v.tree[k]];
    }
  }

  lemma {:induction false} ListValue(key: string, v: Value, parent: Value) returns (item: Item)
    requires KeyOK(key) && Writable(v) && parent.Section? && key in parent.tree && parent.tree[key] == v
    ensures Printable(item) && item.key == key && ValueOf(item) == v
    decreases parent, 0
  {
    match v
    case Leaf(text) =>
      item := Setting(key, text, Quoted(if '"' !in text then '"' else '\''), "");
    case Section(tree) =>
      var items := ListPart(v, tree.Keys);
      assert Part(tree, tree.Keys) == tree;
      item := Group(key, items, "");
  }

  /** For every writable tree, indent and step there is a printing, and a file written with it, with line
      breaks of either kind, is read line by line and parses back to that tree. */
  lemma EveryTreeRoundTrips(tree: Tree, indent: nat, step: nat, crlf: bool) returns (items: seq<Item>)
    requires Writable(Section(tree)) && step > 0
    ensures AllPrintable(items) && TreeOf(items) == tree
    ensures Parse(Lines(File(Print(items, indent, step), crlf))) == Parsed(tree)
  {
    items := ListPart(Section(tree), tree.Keys);
    assert Part(tree, tree.Keys) == tree;
    PrintedAllRead(items, indent, step);
    AllSignificant(Print(items, indent, step));
    ParsesWhatWasPrinted(items, Print(items, indent, step), indent, step);
    PrintedAreLines(items, indent, step);
    LinesOfFile(Print(items, indent, step), crlf);
  }

  lemma {:induction false} AllSignificant(lines: seq<string>)
    requires AllRead(lines)
    ensures Significant(lines) == lines
  {
    hide ConfigSpec.ReadLine;
    if lines != [] {
      var front, last := lines[..|lines| - 1], lines[|lines| - 1];
      assert AllRead(front) by {
        assert forall i :: 0 <= i < |front| ==> front[i] == lines[i];
      }
      AllSignificant(front);
      assert ReadLine(last).Entry?;
      assert lines == front + [last];
    }
  }
}
