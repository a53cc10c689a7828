/** The configuration parser at work: nested maps that are filled in place through a stack of references to
    the open ones, and the loops that look at a line's characters. */
module Config {
  import opened Wrappers
  import opened ConfigSpec

  // ---- a line's characters ---------------------------------------------------------------------------

  method LeadingSpaces(s: string) returns (n: nat)
    ensures n == ConfigSpec.LeadingSpaces(s)
  {
    n := 0;
    while n < |s| && s[n] == ' '
      invariant n <= |s|
      invariant n + ConfigSpec.LeadingSpaces(s[n..]) == ConfigSpec.LeadingSpaces(s)
    {
      assert s[n..][1..] == s[n + 1..];
      n := n + 1;
    }
  }

  method StripComment(s: string) returns (t: string)
    ensures t == ConfigSpec.StripComment(s)
  {
    hide Strip;
    var inQuote, quoteChar := false, ' ';
    StripEnds(s);
    for i := 0 to |s|
      invariant Strip(s, None) == s[..i] + Strip(s[i..], if inQuote then Some(quoteChar) else None)
    {
      StripNext(s, i, if inQuote then Some(quoteChar) else None);
      if inQuote {
        if s[i] == quoteChar {
          inQuote := false;
        }
      } else if s[i] == '"' || s[i] == '\'' {
        inQuote, quoteChar := true, s[i];
      } else if s[i] == '#' {
        return s[..i];
      }
    }
    return s;
  }

  lemma StripEnds(s: string)
    ensures s[..0] + Strip(s[0..], None) == Strip(s, None)
    ensures forall quote :: s[..|s|] + Strip(s[|s|..], quote) == s
  {
    assert s[0..] == s && s[..|s|] == s;
  }

  /** One character on: the quotation mark inside of which the rest starts, or the comment that ends the text. */
  lemma StripNext(s: string, i: nat, quote: Option<char>)
    requires i < |s|
    ensures quote.None? && s[i] == '#' ==> s[..i] + Strip(s[i..], quote) == s[..i]
    ensures quote.Some? || s[i] != '#' ==>
              s[..i] + Strip(s[i..], quote) == s[..i + 1] + Strip(s[i + 1..], QuoteAfter(quote, s[i]))
  {
    assert s[i..][1..] == s[i + 1..] && s[..i] + [s[i]] == s[..i + 1];
  }

  /** One line read: what it says. */
  method Read(raw: string) returns (line: Line)
    ensures line == ReadLine(raw)
  {
    var stripped := StripComment(raw);
    var trimmed := TrimSpace(stripped);
    if trimmed == "" {
      return Blank;
    }
    var indent := LeadingSpaces(stripped);
    var colon := Colon(trimmed);
    if colon.None? {
      return Bad;
    }
    ColonInside(trimmed);
    return Entry(indent, TrimSpace(trimmed[..colon.value]), Unquote(TrimSpace(trimmed[colon.value + 1..])));
  }

  // ---- nested maps -------------------------------------------------------------------------------------

  datatype Field = Text(text: string) | Child(node: Node)

  class Node {
    var fields: map<string, Field>
    ghost var tree: Tree // what the fields hold, but for a section still open
    ghost var level: int // the node's place on the stack, or -1

    constructor (ghost level: int)
      ensures fields == map[] && tree == map[] && this.level == level
    {
      fields := map[];
      tree := map[];
      this.level := level;
    }
  }

  /** The field holds the value; a child is one of the given finished nodes. */
  ghost predicate FieldIs(f: Field, v: Value, done: set<Node>)
    reads done
  {
    if f.Text? then v == Leaf(f.text) else f.node in done && v == Section(f.node.tree)
  }

  /** The fields hold the tree, apart from the key of a section still open. */
  ghost predicate Holds(n: Node, but: Option<string>, done: set<Node>)
    reads n, done
  {
    SameKeys(n, but) && SameFields(n, but, done)
  }

  ghost predicate SameKeys(n: Node, but: Option<string>)
    reads n
  {
    forall k :: but != Some(k) ==> (k in n.fields <==> k in n.tree)
  }

  ghost predicate SameFields(n: Node, but: Option<string>, done: set<Node>)
    reads n, done
  {
    forall k :: but != Some(k) && k in n.fields && k in n.tree ==> FieldIs(n.fields[k], n.tree[k], done)
  }

  datatype Open = Open(indent: int, node: Node)

  /** What the parser's stack of references stands for, kept beside it. */
  class Sections {
    ghost var open: seq<Open> // the sections not yet counted as finished: the stack, until the end
    ghost var frames: Stack   // the same on values
    ghost var done: set<Node> // the finished nodes

    ghost function Nodes(): set<Node>
      reads this
    {
      set i | 0 <= i < |open| :: open[i].node
    }

    /** Every finished node holds its tree, its children among the finished. */
    ghost predicate Finished()
      reads this, done
    {
      forall n :: n in done ==> n.level == -1 && Holds(n, None, done)
    }

    /** The i-th open node is frame i of the stack on values: it holds that frame's tree, and under the next
        frame's key the next open node. */
    ghost predicate FrameAt(i: nat)
      requires |open| == |frames| && i < |open|
      reads this, Nodes(), done
    {
      && open[i].node in Nodes() && open[i].node.level == i
      && open[i].indent == frames[i].indent && open[i].node.tree == frames[i].tree
      && (i < |open| - 1 ==>
            && Holds(open[i].node, Some(frames[i + 1].key), done)
            && frames[i + 1].key in open[i].node.fields
            && open[i].node.fields[frames[i + 1].key] == Child(open[i + 1].node))
      && (i == |open| - 1 ==> Holds(open[i].node, None, done))
    }

    ghost predicate Valid()
      reads this, Nodes(), done
    {
      && |open| == |frames|
      && (forall i {:trigger open[i]} :: 0 <= i < |open| ==> FrameAt(i))
      && Finished()
    }

    constructor (root: Node)
      requires root.fields == map[] && root.tree == map[] && root.level == 0
      ensures Valid() && open == [Open(-1, root)] && frames == START && done == {}
    {
      open := [Open(-1, root)];
      frames := START;
      done := {};
      new;
      assert open[0].node in Nodes();
    }

    /** A finished node is as it was. */
    twostate predicate DoneSame()
      reads this, done
    {
      && old(done) <= done
      && forall c :: c in old(done) ==>
           c.fields == old(c.fields) && c.tree == old(c.tree) && c.level == old(c.level)
    }

    /** How many frames lie below both tops, the one before and the one now. */
    twostate function Shared(): int
      reads this
    {
      (if |open| < |old(open)| then |open| else |old(open)|) - 1
    }

    /** Those frames, and the nodes in them, are as they were. */
    twostate predicate LowerSame()
      reads this, Nodes()
    {
      var n := Shared();
      && |open| == |frames| && |old(open)| == |old(frames)| && 0 <= n
      && open[..n + 1] == old(open)[..n + 1] && frames[..n] == old(frames)[..n] && frames[n].key == old(frames)[n].key
      && forall i :: 0 <= i < n ==>
           && open[i].node.fields == old(open[i].node.fields) && open[i].node.tree == old(open[i].node.tree)
           && open[i].node.level == old(open[i].node.level)
    }

    twostate lemma FrameStill(i: int)
      requires LowerSame() && DoneSame() && 0 <= i < Shared() && old(FrameAt(i))
      ensures FrameAt(i)
    {
      var n := Shared();
      assert open[..n + 1][i] == open[i] && open[..n + 1][i + 1] == open[i + 1];
      assert frames[..n][i] == frames[i] && (i + 1 < n ==> frames[..n][i + 1] == frames[i + 1]);
      assert open[i].node in Nodes();
    }

    /** The finished nodes stay finished; a node that joins them must hold its tree. */
    twostate lemma FinishedStill()
      requires old(Finished()) && DoneSame()
      requires forall n :: n in done && n !in old(done) ==> n.level == -1 && Holds(n, None, done)
      ensures Finished()
    {
    }

    /** Valid again once the other frames have been seen to. */
    twostate lemma Settled()
      requires old(Valid()) && LowerSame() && DoneSame()
      requires forall c :: c in done && c !in old(done) ==> c.level == -1 && Holds(c, None, done)
      requires forall i {:trigger open[i]} :: Shared() <= i < |open| ==> FrameAt(i)
      ensures Valid()
    {
      FinishedStill();
      forall i | 0 <= i < |open| ensures FrameAt(i) {
        if i < Shared() {
          assert old(open)[i] == old(open)[..Shared() + 1][i];
          FrameStill(i);
        } else {
          assert open[i] == open[i];
        }
      }
    }

    /** The open nodes know their places; no other node is finished. */
    ghost predicate Placed()
      reads this, Nodes(), done
    {
      && (forall i {:trigger open[i]} :: 0 <= i < |open| ==> open[i].node in Nodes() && open[i].node.level == i)
      && (forall c :: c in done ==> c.level == -1)
    }

    lemma ValidPlaced()
      requires Valid()
      ensures Placed() && |open| > 0 && FrameAt(|open| - 1) && (|open| > 1 ==> FrameAt(|open| - 2))
    {
      assert forall i :: 0 <= i < |open| ==> FrameAt(i);
    }

    /** The top section is finished: it becomes part of the one below. */
    ghost method Close()
      requires Valid() && |open| > 1
      modifies this`open, this`frames, this`done, open[|open| - 2].node`tree, open[|open| - 1].node`level
      ensures Valid() && frames == ConfigSpec.Close(old(frames)) && open == old(open)[..|old(open)| - 1]
      ensures done == old(done) + {old(open)[|old(open)| - 1].node}
    {
      ValidPlaced();
      CloseTop();
      Settled();
    }

    ghost method CloseTop()
      requires |open| == |frames| && |open| > 1 && Placed() && FrameAt(|open| - 1) && FrameAt(|open| - 2)
      modifies this`open, this`frames, this`done, open[|open| - 2].node`tree, open[|open| - 1].node`level
      ensures frames == ConfigSpec.Close(old(frames)) && open == old(open)[..|old(open)| - 1]
      ensures done == old(done) + {old(open)[|old(open)| - 1].node}
      ensures LowerSame() && DoneSame() && FrameAt(|open| - 1)
      ensures forall c :: c in done && c !in old(done) ==> c.level == -1 && Holds(c, None, done)
    {
      hide Holds;
      var m := |open| - 1;
      var child := open[m].node;
      Complete(child, open[m - 1].node, frames[m].key, done);
      open := open[..m];
      frames := ConfigSpec.Close(frames);
      done := done + {child};
    }

    /** The child's tree becomes part of its parent's. */
    static ghost method Complete(child: Node, parent: Node, key: string, done: set<Node>)
      requires child != parent && child !in done && parent !in done
      requires Holds(child, None, done) && Holds(parent, Some(key), done)
      requires key in parent.fields && parent.fields[key] == Child(child)
      modifies parent`tree, child`level
      ensures parent.tree == old(parent.tree)[key := Section(child.tree)] && child.level == -1
      ensures Holds(child, None, done + {child}) && Holds(parent, None, done + {child})
    {
      parent.tree := parent.tree[key := Section(child.tree)];
      child.level := -1;
    }

    /** Every node the parser has made. */
    ghost function All(): set<Node>
      reads this
    {
      Nodes() + done
    }

    /** Leaves the sections that a line at this indent ends. */
    method PopTo(stack: seq<Open>, indent: int) returns (rest: seq<Open>)
      requires Valid() && stack == open
      modifies this, Nodes()`tree, Nodes()`level
      ensures Valid() && rest == open && frames == ConfigSpec.PopTo(old(frames), indent) && All() == old(All())
      ensures |rest| > 0 && rest[0] == stack[0]
    {
      var s := stack;
      ghost var was := frames;
      while |s| > 1 && s[|s| - 1].indent >= indent
        invariant Valid() && s == open && All() == old(All()) && Nodes() <= old(Nodes())
        invariant ConfigSpec.PopTo(frames, indent) == ConfigSpec.PopTo(was, indent)
        invariant |s| > 0 && s[0] == stack[0]
        decreases |s|
      {
        PopOne(indent);
        s := s[..|s| - 1];
      }
      assert |open| > 1 ==> FrameAt(|open| - 1);
      return s;
    }

    ghost method PopOne(indent: int)
      requires Valid() && |open| > 1 && open[|open| - 1].indent >= indent
      modifies this, open[|open| - 2].node`tree, open[|open| - 1].node`level
      ensures Valid() && open == old(open)[..|old(open)| - 1] && All() == old(All()) && Nodes() <= old(Nodes())
      ensures ConfigSpec.PopTo(frames, indent) == ConfigSpec.PopTo(old(frames), indent)
    {
      assert FrameAt(|open| - 1);
      Close();
      FewerNodes();
    }

    twostate lemma FewerNodes()
      requires |old(open)| > 0 && open == old(open)[..|old(open)| - 1]
      requires done == old(done) + {old(open)[|old(open)| - 1].node}
      ensures All() == old(All()) && Nodes() <= old(Nodes())
    {
      assert forall i :: 0 <= i < |open| ==> open[i] == old(open)[i];
    }

    /** A leaf in the innermost open section. */
    method Put(stack: seq<Open>, key: string, text: string)
      requires Valid() && stack == open
      modifies this`frames, Nodes()`fields, Nodes()`tree
      ensures Valid() && frames == Add(old(frames), key, Leaf(text))
    {
      ValidPlaced();
      PutTop(stack, key, text);
      Settled();
    }

    method PutTop(stack: seq<Open>, key: string, text: string)
      requires |open| == |frames| && Placed() && FrameAt(|open| - 1) && stack == open
      modifies this`frames, Nodes()`fields, Nodes()`tree
      ensures frames == Add(old(frames), key, Leaf(text))
      ensures LowerSame() && DoneSame() && FrameAt(|open| - 1)
    {
      var parent := stack[|stack| - 1].node;
      parent.fields := parent.fields[key := Text(text)];
      parent.tree := parent.tree[key := Leaf(text)];
      frames := Add(frames, key, Leaf(text));
    }

    /** A new section inside the innermost open one. */
    method Push(stack: seq<Open>, indent: int, key: string) returns (more: seq<Open>)
      requires Valid() && stack == open
      modifies this, Nodes()`fields
      ensures Valid() && more == open && frames == old(frames) + [Frame(indent, key, map[])]
      ensures fresh(All() - old(All())) && |more| == |stack| + 1 && more[..|stack|] == stack
    {
      hide FrameAt;
      hide Finished;
      hide LowerSame;
      hide DoneSame;
      ValidPlaced();
      more := PushTop(stack, indent, key);
      Settled();
    }

    /** An empty node becomes a child of the parent's; until it is finished, the tree does not count it. */
    static method Link(parent: Node, key: string, child: Node, ghost done: set<Node>)
      requires parent != child && parent !in done && child.fields == map[] && child.tree == map[]
      requires Holds(parent, None, done)
      modifies parent`fields
      ensures parent.fields == old(parent.fields)[key := Child(child)]
      ensures Holds(parent, Some(key), done) && Holds(child, None, done)
    {
      parent.fields := parent.fields[key := Child(child)];
    }

    method PushTop(stack: seq<Open>, indent: int, key: string) returns (more: seq<Open>)
      requires |open| == |frames| && Placed() && FrameAt(|open| - 1) && stack == open
      modifies this, Nodes()`fields
      ensures more == open && frames == old(frames) + [Frame(indent, key, map[])]
      ensures |open| == |stack| + 1 && more[..|stack|] == stack
      ensures fresh(All() - old(All())) && done == old(done)
      ensures LowerSame() && DoneSame() && FrameAt(|open| - 2) && FrameAt(|open| - 1)
    {
      hide Holds;
      var parent := stack[|stack| - 1].node;
      var child := new Node(|open|);
      Link(parent, key, child, done);
      more := stack + [Open(indent, child)];
      open := more;
      frames := frames + [Frame(indent, key, map[])];
      assert open[|open| - 1].node in Nodes() && open[|open| - 2].node in Nodes();
    }

    /** A line's key and value go where its indent says. */
    method Enter(stack: seq<Open>, indent: nat, key: string, val: string) returns (next: seq<Open>)
      requires Valid() && stack == open
      modifies this, All()
      ensures Valid() && next == open && frames == ConfigSpec.Enter(old(frames), indent, key, val)
      ensures fresh(All() - old(All())) && |next| > 0 && next[0] == stack[0]
    {
      hide FrameAt;
      hide Finished;
      next := PopTo(stack, indent);
      if val == "" {
        var popped := next;
        next := Push(popped, indent, key);
        assert next[..|popped|][0] == next[0];
      } else {
        Put(next, key, val);
      }
    }

    ghost method CloseOne()
      requires Valid() && |open| > 1
      modifies this, open[|open| - 2].node`tree, open[|open| - 1].node`level
      ensures Valid() && open == old(open)[..|old(open)| - 1] && All() == old(All()) && Nodes() <= old(Nodes())
      ensures Whole(frames) == Whole(old(frames))
    {
      Close();
      FewerNodes();
    }

    /** Once only the root is open, every node holds its tree. */
    ghost method Trees() returns (whole: map<Node, Tree>)
      requires Valid() && |open| == 1
      ensures Reflects(whole) && open[0].node in whole && whole[open[0].node] == frames[0].tree
    {
      assert FrameAt(0);
      whole := map n | n in All() :: n.tree;
      forall n | n in whole ensures Holds(n, None, done) {
        if n !in done {
          assert n == open[0].node;
        }
      }
    }

    /** At the end every section counts as finished. */
    ghost method Finish()
      requires Valid()
      modifies this, Nodes()`tree, Nodes()`level
      ensures Valid() && |open| == 1 && frames[0].tree == Whole(old(frames)) && All() == old(All())
      ensures open[0] == old(open)[0]
    {
      var was := frames;
      while |open| > 1
        invariant Valid() && |open| >= 1 && All() == old(All()) && Nodes() <= old(Nodes())
        invariant Whole(frames) == Whole(was) && open[0] == old(open)[0]
        decreases |open|
      {
        CloseOne();
      }
    }
  }

  // ---- the parser ------------------------------------------------------------------------------------------

  /** Every node's fields are, key for key, the tree given for it: texts as leaves and nodes as sections. */
  ghost predicate Reflects(whole: map<Node, Tree>)
    reads whole.Keys
  {
    forall n :: n in whole ==>
      && n.fields.Keys == whole[n].Keys
      && forall k :: k in n.fields ==>
           if n.fields[k].Text? then whole[n][k] == Leaf(n.fields[k].text)
           else n.fields[k].node in whole && whole[n][k] == Section(whole[n.fields[k].node])
  }

  /** Parses the lines into nested maps. On success the root's map, read through its children, is the tree the
      specification gives; on failure the line at fault is named and there is no root. */
  method ParseTree(lines: seq<string>) returns (root: Node?, errLine: nat, ghost whole: map<Node, Tree>)
    ensures Parse(lines).SyntaxError? ==> root == null && errLine == Parse(lines).line
    ensures Parse(lines).Parsed? ==>
      root != null && fresh(root) && root in whole && whole[root] == Parse(lines).tree && Reflects(whole)
  {
    hide Sections.Valid;
    hide ConfigSpec.ReadLine;
    hide ConfigSpec.Enter;
    var top := new Node(0);
    var stack := [Open(-1, top)];
    var sections := new Sections(top);
    assert lines[..0] == [];
    for i := 0 to |lines|
      invariant sections.Valid() && stack == sections.open && |stack| > 0 && stack[0].node == top
      invariant fresh(sections) && fresh(sections.All())
      invariant Run(Reading(START), lines[..i]) == Reading(sections.frames)
    {
      assert lines[..i + 1][..i] == lines[..i];
      var line := Read(lines[i]);
      if line.Bad? {
        FailsHere(lines, i);
        return null, i + 1, map[];
      }
      if line.Entry? {
        stack := sections.Enter(stack, line.indent, line.key, line.val);
      }
    }
    assert lines[..|lines|] == lines;
    sections.Finish();
    whole := sections.Trees();
    return top, 0, whole;
  }

  /** A failure stays one however the file goes on. */
  lemma {:induction false} FailsHere(lines: seq<string>, i: nat)
    requires i < |lines| && Run(Reading(START), lines[..i + 1]) == Failed(i + 1)
    ensures Run(Reading(START), lines) == Failed(i + 1)
    decreases |lines|
  {
    if i + 1 < |lines| {
      assert lines[..|lines| - 1][..i + 1] == lines[..i + 1];
      FailsHere(lines[..|lines| - 1], i);
    } else {
      assert lines[..i + 1] == lines;
    }
  }
}
