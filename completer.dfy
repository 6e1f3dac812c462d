/** The console's help tree (console/prefix_completer.go): command-completion
    nodes that carry a description and print themselves as an indented
    tree, skipping hidden nodes and drawing separators. */
module Completer {
  import opened Common

  const HelpSeparator := "~~~~~\n"

  /** A described completion node: its completion word, its help text, and
      whether it is a separator or is hidden from help. */
  datatype Node = Node(name: string, desc: string, separator: bool, nohelp: bool, children: seq<Node>)

  /** `DPCItem`: a completion word (followed by a space) with help text. */
  function DPCItem(name: string, desc: string, children: seq<Node>): (n: Node)
    ensures n.name == name + " " && n.desc == desc && n.children == children
    ensures !n.separator && !n.nohelp
  {
    Node(name + " ", desc, false, false, children)
  }

  /** `DPCItemNoHelp`: a completion word left out of the help. */
  function DPCItemNoHelp(name: string, children: seq<Node>): (n: Node)
    ensures n.name == name + " " && n.desc == "" && n.children == children
    ensures !n.separator && n.nohelp
  {
    Node(name + " ", "", false, true, children)
  }

  /** `DPCSeparator`: a blank-named separator line with no children. */
  function DPCSeparator(): (n: Node)
    ensures n.name == " " && n.desc == "" && n.children == []
    ensures n.separator && !n.nohelp
  {
    Node(" ", "", true, false, [])
  }

  /** A node prints a line of its own unless its name is all white space. */
  predicate Named(n: Node)
  {
    !AllSpace(n.name)
  }

  /** That is the test the help printer makes: the name, trimmed, is not
      empty. */
  lemma NamedIffTrimmed(n: Node)
    ensures Named(n) <==> TrimSpace(n.name) != ""
  {
    TrimSpaceEmptyIffBlank(n.name);
  }

  function Repeat(s: string, count: nat): (r: string)
    ensures |r| == |s| * count
  {
    if count == 0 then "" else s + Repeat(s, count - 1)
  }

  /** The tree branch drawn before a name below the top level. */
  function Branch(level: nat): string
  {
    if level > 0 then "├" + Repeat("─", level * 4 - 2) + " " else ""
  }

  /** Each level below the top indents a name by four more characters. */
  lemma BranchWidth(level: nat)
    ensures |Branch(level)| == 4 * level
  {
  }

  /** The help line of a named node. */
  function HeaderLine(n: Node, prefix: string, level: nat): string
  {
    prefix + Branch(level) + NameText(n)
  }

  /** The word and help text of a help line. */
  function NameText(n: Node): string
  {
    n.name + "  " + n.desc + "\n"
  }

  /** What `Print` appends for `n` at `level`: nothing, or text that starts
      with the prefix and ends with a line break. */
  function Render(n: Node, prefix: string, level: nat): (r: string)
    ensures r != "" ==> r[|r| - 1] == '\n'
    decreases n, 1
  {
    if n.nohelp then ""
    else if n.separator then prefix + HelpSeparator
    else if Named(n) then HeaderLine(n, prefix, level) + RenderAll(n.children, prefix, level + 1)
    else RenderAll(n.children, prefix, level)
  }

  /** The nodes rendered one after another. */
  function RenderAll(nodes: seq<Node>, prefix: string, level: nat): (r: string)
    ensures r != "" ==> r[|r| - 1] == '\n'
    decreases nodes, 0
  {
    if |nodes| == 0 then "" else Render(nodes[0], prefix, level) + RenderAll(nodes[1..], prefix, level)
  }

  lemma {:induction false} RenderAllAppend(a: seq<Node>, b: seq<Node>, prefix: string, level: nat)
    ensures RenderAll(a + b, prefix, level) == RenderAll(a, prefix, level) + RenderAll(b, prefix, level)
    decreases |a|
  {
    if |a| > 0 {
      assert (a + b)[0] == a[0];
      assert (a + b)[1..] == a[1..] + b;
      RenderAllAppend(a[1..], b, prefix, level);
    } else {
      assert a + b == b;
    }
  }

  /** Whatever a node prints starts with the prefix: every help block is
      indented by it. */
  lemma {:induction false} RenderStartsWithPrefix(n: Node, prefix: string, level: nat)
    ensures Render(n, prefix, level) != "" ==> prefix < Render(n, prefix, level)
    decreases n, 1
  {
    if !n.nohelp && !n.separator {
      if Named(n) {
        assert HeaderLine(n, prefix, level)[..|prefix|] == prefix;
      } else {
        RenderAllStartsWithPrefix(n.children, prefix, level);
      }
    }
  }

  lemma {:induction false} RenderAllStartsWithPrefix(nodes: seq<Node>, prefix: string, level: nat)
    ensures RenderAll(nodes, prefix, level) != "" ==> prefix < RenderAll(nodes, prefix, level)
    decreases nodes, 0
  {
    if |nodes| > 0 {
      var head := Render(nodes[0], prefix, level);
      var tail := RenderAll(nodes[1..], prefix, level);
      RenderStartsWithPrefix(nodes[0], prefix, level);
      RenderAllStartsWithPrefix(nodes[1..], prefix, level);
      if head != "" {
        assert (head + tail)[..|prefix|] == head[..|prefix|];
      } else {
        assert head + tail == tail;
      }
    }
  }

  /** Rendering one more node of a list appends that node's text to
      whatever was written before. */
  lemma RenderAllPrefixStep(written: string, nodes: seq<Node>, i: nat, prefix: string, level: nat)
    requires i < |nodes|
    ensures written + RenderAll(nodes[..i + 1], prefix, level)
         == (written + RenderAll(nodes[..i], prefix, level)) + Render(nodes[i], prefix, level)
  {
    RenderAllAppend(nodes[..i], [nodes[i]], prefix, level);
    assert RenderAll([nodes[i]], prefix, level) == Render(nodes[i], prefix, level) + RenderAll([], prefix, level);
    assert nodes[..i + 1] == nodes[..i] + [nodes[i]];
  }

  /** The help lines `n` contributes: none when hidden, one for a separator
      (whose children never print), one for a named node plus its children's,
      and only its children's for a blank-named node. */
  function VisibleLines(n: Node): nat
    decreases n, 1
  {
    if n.nohelp then 0
    else if n.separator then 1
    else if Named(n) then 1 + VisibleLinesAll(n.children)
    else VisibleLinesAll(n.children)
  }

  function VisibleLinesAll(nodes: seq<Node>): nat
    decreases nodes, 0
  {
    if |nodes| == 0 then 0 else VisibleLines(nodes[0]) + VisibleLinesAll(nodes[1..])
  }

  function CountNewlines(s: string): nat
  {
    if |s| == 0 then 0 else (if s[0] == '\n' then 1 else 0) + CountNewlines(s[1..])
  }

  lemma {:induction false} CountNewlinesAppend(a: string, b: string)
    ensures CountNewlines(a + b) == CountNewlines(a) + CountNewlines(b)
    decreases |a|
  {
    if |a| > 0 {
      assert (a + b)[0] == a[0];
      assert (a + b)[1..] == a[1..] + b;
      CountNewlinesAppend(a[1..], b);
    } else {
      assert a + b == b;
    }
  }

  lemma {:induction false} CountNewlinesNone(s: string)
    requires '\n' !in s
    ensures CountNewlines(s) == 0
    decreases |s|
  {
    if |s| > 0 {
      assert s[0] in s;
      assert forall c :: c in s[1..] ==> c in s;
      CountNewlinesNone(s[1..]);
    }
  }

  /** No name or help text in the tree holds a line break. */
  predicate SingleLineTexts(n: Node)
    decreases n
  {
    && '\n' !in n.name && '\n' !in n.desc
    && forall k :: 0 <= k < |n.children| ==> SingleLineTexts(n.children[k])
  }

  lemma BranchSingleLine(level: nat)
    ensures CountNewlines(Branch(level)) == 0
  {
    if level > 0 {
      var bar := Repeat("─", level * 4 - 2);
      RepeatSingleLine(level * 4 - 2);
      CountNewlinesAppend("├", bar);
      CountNewlinesAppend("├" + bar, " ");
    }
  }

  lemma {:induction false} RepeatSingleLine(count: nat)
    ensures CountNewlines(Repeat("─", count)) == 0
    decreases count
  {
    if count > 0 {
      RepeatSingleLine(count - 1);
      CountNewlinesAppend("─", Repeat("─", count - 1));
    }
  }

  /** With single-line texts and prefix, the help has exactly one line per
      visible node. */
  lemma {:induction false} RenderLineCount(n: Node, prefix: string, level: nat)
    requires SingleLineTexts(n) && '\n' !in prefix
    ensures CountNewlines(Render(n, prefix, level)) == VisibleLines(n)
    decreases n, 1
  {
    CountNewlinesNone(prefix);
    if n.nohelp {
    } else if n.separator {
      CountNewlinesAppend(prefix, HelpSeparator);
    } else if Named(n) {
      CountNewlinesNone(n.name);
      CountNewlinesNone(n.desc);
      BranchSingleLine(level);
      RenderAllLineCount(n.children, prefix, level + 1);
      CountNewlinesAppend(n.name, "  ");
      CountNewlinesAppend(n.name + "  ", n.desc);
      CountNewlinesAppend(n.name + "  " + n.desc, "\n");
      CountNewlinesAppend(prefix, Branch(level));
      CountNewlinesAppend(prefix + Branch(level), NameText(n));
      CountNewlinesAppend(HeaderLine(n, prefix, level), RenderAll(n.children, prefix, level + 1));
    } else {
      RenderAllLineCount(n.children, prefix, level);
    }
  }

  lemma {:induction false} RenderAllLineCount(nodes: seq<Node>, prefix: string, level: nat)
    requires forall k :: 0 <= k < |nodes| ==> SingleLineTexts(nodes[k])
    requires '\n' !in prefix
    ensures CountNewlines(RenderAll(nodes, prefix, level)) == VisibleLinesAll(nodes)
    decreases nodes, 0
  {
    if |nodes| > 0 {
      RenderLineCount(nodes[0], prefix, level);
      RenderAllLineCount(nodes[1..], prefix, level);
      CountNewlinesAppend(Render(nodes[0], prefix, level), RenderAll(nodes[1..], prefix, level));
    }
  }

  /** A described item whose word is not blank prints its word, three
      spaces (the space after the word and two more) and its help, then its
      children one level deeper. */
  lemma DPCItemRender(name: string, desc: string, children: seq<Node>, prefix: string, level: nat)
    requires !AllSpace(name)
    ensures Render(DPCItem(name, desc, children), prefix, level) ==
              prefix + Branch(level) + (name + "   " + desc + "\n") + RenderAll(children, prefix, level + 1)
  {
    var n := DPCItem(name, desc, children);
    var k :| 0 <= k < |name| && !IsSpace(name[k]);
    assert n.name[k] == name[k];
    assert n.name + "  " == name + "   ";
    assert NameText(n) == name + "   " + desc + "\n";
  }

  /** A described item with a blank word (as `DPCItem("", ...)`) prints no
      line and passes its own level on to its children. */
  lemma BlankDPCItemRender(name: string, desc: string, children: seq<Node>, prefix: string, level: nat)
    requires AllSpace(name)
    ensures Render(DPCItem(name, desc, children), prefix, level) == RenderAll(children, prefix, level)
  {
    var n := DPCItem(name, desc, children);
    assert forall k :: 0 <= k < |n.name| ==> IsSpace(n.name[k]) by {
      forall k | 0 <= k < |n.name| ensures IsSpace(n.name[k]) {
        if k < |name| {
          assert n.name[k] == name[k];
        }
      }
    }
    TrimSpaceEmptyIffBlank(n.name);
  }

  /** A hidden item prints nothing, its children included; a separator
      prints only the separator line. */
  lemma HiddenAndSeparatorRender(name: string, children: seq<Node>, prefix: string, level: nat)
    ensures Render(DPCItemNoHelp(name, children), prefix, level) == ""
    ensures Render(DPCSeparator(), prefix, level) == prefix + "~~~~~\n"
  {
  }

  /** The growing text `Print` writes into. */
  class Buffer {
    var contents: string

    constructor ()
      ensures contents == ""
    {
      contents := "";
    }

    method WriteString(s: string)
      modifies this
      ensures contents == old(contents) + s
    {
      contents := contents + s;
    }
  }

  /** Appends the line of a named node. */
  method PrintLine(n: Node, prefix: string, level: nat, buf: Buffer)
    modifies buf
    ensures buf.contents == old(buf.contents) + HeaderLine(n, prefix, level)
  {
    ghost var start := buf.contents;
    buf.WriteString(prefix);
    if level > 0 {
      ghost var written := buf.contents;
      buf.WriteString("├");
      buf.WriteString(Repeat("─", level * 4 - 2));
      buf.WriteString(" ");
      assert buf.contents == written + Branch(level);
    }
    buf.WriteString(n.name + "  " + n.desc + "\n");
    HeaderLineAfter(start, n, prefix, level);
  }

  /** Writing the prefix, the branch and the name text in turn after
      `written` leaves `written` followed by the whole header line. */
  lemma HeaderLineAfter(written: string, n: Node, prefix: string, level: nat)
    ensures ((written + prefix) + Branch(level)) + (n.name + "  " + n.desc + "\n")
         == written + HeaderLine(n, prefix, level)
  {
  }

  /** Appends the help of `n` and its subtree to `buf`. */
  method Print(n: Node, prefix: string, level: nat, buf: Buffer)
    modifies buf
    ensures buf.contents == old(buf.contents) + Render(n, prefix, level)
    decreases n, 1
  {
    if n.nohelp {
    } else if n.separator {
      buf.WriteString(prefix);
      buf.WriteString(HelpSeparator);
    } else if TrimSpace(n.name) != "" {
      NamedIffTrimmed(n);
      PrintNamed(n, prefix, level, buf);
    } else {
      NamedIffTrimmed(n);
      PrintChildren(n.children, prefix, level, buf);
    }
  }

  /** Appends the line of a named node, then its children one level deeper. */
  method PrintNamed(n: Node, prefix: string, level: nat, buf: Buffer)
    requires !n.nohelp && !n.separator && Named(n)
    modifies buf
    ensures buf.contents == old(buf.contents) + Render(n, prefix, level)
    decreases n, 0
  {
    PrintLine(n, prefix, level, buf);
    PrintChildren(n.children, prefix, level + 1, buf);
  }

  /** Appends the help of each node in turn. */
  method PrintChildren(nodes: seq<Node>, prefix: string, level: nat, buf: Buffer)
    modifies buf
    ensures buf.contents == old(buf.contents) + RenderAll(nodes, prefix, level)
    decreases nodes, 2
  {
    ghost var start := buf.contents;
    var i := 0;
    while i < |nodes|
      invariant 0 <= i <= |nodes|
      invariant buf.contents == start + RenderAll(nodes[..i], prefix, level)
    {
      Print(nodes[i], prefix, level, buf);
      RenderAllPrefixStep(start, nodes, i, prefix, level);
      i := i + 1;
    }
    assert nodes[..i] == nodes;
  }
}
