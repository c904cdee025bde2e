// The recursion of _print_section in helion/_compile_time.py as a function of the recorded
// sections, over an arbitrary hierarchy: names may repeat and parents may be their own
// descendants.
module TimingReport {
  import opened FiniteSets

  datatype Line = Line(name: string, elapsed: real, calls: nat, indent: nat)

  /** What the recursion mutates: the set of printed names and the output so far. */
  datatype Output = Output(printed: set<string>, lines: seq<Line>)

  datatype Book = Book(timings: map<string, real>, calls: map<string, nat>, children: map<string, seq<string>>)

  predicate ValidBook(b: Book) {
    b.timings.Keys == b.calls.Keys
  }

  function Children(b: Book, name: string): seq<string> {
    if name in b.children then b.children[name] else []
  }

  function LineFor(b: Book, name: string, indent: nat): Line
    requires ValidBook(b) && name in b.timings
  {
    Line(name, b.timings[name], b.calls[name], indent)
  }

  lemma Shrinks(all: set<string>, less: set<string>, more: set<string>)
    requires less <= more
    ensures |all - more| <= |all - less|
    ensures (exists x :: x in all && x in more && x !in less) ==> |all - more| < |all - less|
  {
    SubsetSize(all - more, all - less);
    if exists x :: x in all && x in more && x !in less {
      var x :| x in all && x in more && x !in less;
      SubsetSize(all - more, (all - less) - {x});
    }
  }

  /** _print_section. */
  function Section(b: Book, name: string, indent: nat, o: Output): (q: Output)
    requires ValidBook(b)
    ensures o.printed <= q.printed
    decreases |b.timings.Keys - o.printed|, 0
  {
    if name in o.printed || name !in b.timings then o
    else
      var marked := Output(o.printed + {name}, o.lines + [LineFor(b, name, indent)]);
      Shrinks(b.timings.Keys, o.printed, marked.printed);
      Sections(b, Children(b, name), indent + 1, marked)
  }

  /** The loops over children and over the top-level names. */
  function Sections(b: Book, names: seq<string>, indent: nat, o: Output): (q: Output)
    requires ValidBook(b)
    ensures o.printed <= q.printed
    decreases |b.timings.Keys - o.printed|, |names|
  {
    if names == [] then o
    else
      var first := Section(b, names[0], indent, o);
      Shrinks(b.timings.Keys, o.printed, first.printed);
      Sections(b, names[1..], indent, first)
  }

  /** One line for every printed name and no other, carrying its time and call count. */
  ghost predicate OneLineEach(b: Book, printed: set<string>, lines: seq<Line>) {
    && (forall i, j :: 0 <= i < j < |lines| ==> lines[i].name != lines[j].name)
    && (forall i :: 0 <= i < |lines| ==>
          && lines[i].name in printed && lines[i].name in b.timings && lines[i].name in b.calls
          && lines[i].elapsed == b.timings[lines[i].name] && lines[i].calls == b.calls[lines[i].name])
    && (forall name :: name in printed ==> exists i :: 0 <= i < |lines| && lines[i].name == name)
  }

  lemma NewLine(b: Book, printed: set<string>, lines: seq<Line>, name: string, indent: nat)
    requires ValidBook(b) && name in b.timings && name !in printed
    requires OneLineEach(b, printed, lines)
    ensures OneLineEach(b, printed + {name}, lines + [LineFor(b, name, indent)])
  {
    var after := lines + [LineFor(b, name, indent)];
    forall other | other in printed + {name}
      ensures exists i :: 0 <= i < |after| && after[i].name == other
    {
      if other == name {
        assert after[|lines|].name == other;
      } else {
        var i :| 0 <= i < |lines| && lines[i].name == other;
        assert after[i].name == other;
      }
    }
  }

  lemma {:induction false} SectionPrintsOnce(b: Book, name: string, indent: nat, o: Output)
    requires ValidBook(b) && OneLineEach(b, o.printed, o.lines)
    ensures var q := Section(b, name, indent, o); OneLineEach(b, q.printed, q.lines)
    decreases |b.timings.Keys - o.printed|, 0
  {
    hide OneLineEach;
    if name !in o.printed && name in b.timings {
      NewLine(b, o.printed, o.lines, name, indent);
      Shrinks(b.timings.Keys, o.printed, o.printed + {name});
      SectionsPrintOnce(b, Children(b, name), indent + 1,
                        Output(o.printed + {name}, o.lines + [LineFor(b, name, indent)]));
    }
  }

  lemma {:induction false} SectionsPrintOnce(b: Book, names: seq<string>, indent: nat, o: Output)
    requires ValidBook(b) && OneLineEach(b, o.printed, o.lines)
    ensures var q := Sections(b, names, indent, o); OneLineEach(b, q.printed, q.lines)
    decreases |b.timings.Keys - o.printed|, |names|
  {
    hide OneLineEach;
    if names != [] {
      SectionPrintsOnce(b, names[0], indent, o);
      Shrinks(b.timings.Keys, o.printed, Section(b, names[0], indent, o).printed);
      SectionsPrintOnce(b, names[1..], indent, Section(b, names[0], indent, o));
    }
  }

  // Which sections the tree shows.

  /** Every recorded child of a name added since `before` is in `after`. */
  ghost predicate ChildrenIn(b: Book, before: set<string>, after: set<string>) {
    forall name, c :: name in after && name !in before && c in Children(b, name) && c in b.timings ==> c in after
  }

  lemma {:induction false} SectionShowsChildren(b: Book, name: string, indent: nat, o: Output)
    requires ValidBook(b)
    ensures var q := Section(b, name, indent, o);
            (name in b.timings ==> name in q.printed) && ChildrenIn(b, o.printed, q.printed)
    decreases |b.timings.Keys - o.printed|, 0
  {
    if name !in o.printed && name in b.timings {
      var marked := Output(o.printed + {name}, o.lines + [LineFor(b, name, indent)]);
      Shrinks(b.timings.Keys, o.printed, marked.printed);
      SectionsShowChildren(b, Children(b, name), indent + 1, marked);
    }
  }

  lemma {:induction false} SectionsShowChildren(b: Book, names: seq<string>, indent: nat, o: Output)
    requires ValidBook(b)
    ensures var q := Sections(b, names, indent, o);
            && (forall name :: name in names && name in b.timings ==> name in q.printed)
            && ChildrenIn(b, o.printed, q.printed)
    decreases |b.timings.Keys - o.printed|, |names|
  {
    if names != [] {
      var first := Section(b, names[0], indent, o);
      SectionShowsChildren(b, names[0], indent, o);
      Shrinks(b.timings.Keys, o.printed, first.printed);
      SectionsShowChildren(b, names[1..], indent, first);
    }
  }

  /** A set that holds the recorded children of its members. */
  ghost predicate IsClosed(b: Book, names: set<string>) {
    ChildrenIn(b, {}, names)
  }

  lemma {:induction false} SectionStaysInside(b: Book, name: string, indent: nat, o: Output, bound: set<string>)
    requires ValidBook(b) && IsClosed(b, bound) && o.printed <= bound && (name in b.timings ==> name in bound)
    ensures Section(b, name, indent, o).printed <= bound
    decreases |b.timings.Keys - o.printed|, 0
  {
    if name !in o.printed && name in b.timings {
      var marked := Output(o.printed + {name}, o.lines + [LineFor(b, name, indent)]);
      Shrinks(b.timings.Keys, o.printed, marked.printed);
      SectionsStayInside(b, Children(b, name), indent + 1, marked, bound);
    }
  }

  lemma {:induction false} SectionsStayInside(b: Book, names: seq<string>, indent: nat, o: Output, bound: set<string>)
    requires ValidBook(b) && IsClosed(b, bound) && o.printed <= bound
    requires forall name :: name in names && name in b.timings ==> name in bound
    ensures Sections(b, names, indent, o).printed <= bound
    decreases |b.timings.Keys - o.printed|, |names|
  {
    hide IsClosed;
    if names != [] {
      SectionStaysInside(b, names[0], indent, o, bound);
      Shrinks(b.timings.Keys, o.printed, Section(b, names[0], indent, o).printed);
      SectionsStayInside(b, names[1..], indent, Section(b, names[0], indent, o), bound);
    }
  }

  const NOTHING := Output({}, [])

  /** The tree part of the report. */
  function Tree(b: Book, topLevel: seq<string>): Output
    requires ValidBook(b)
  {
    Sections(b, topLevel, 0, NOTHING)
  }

  /**
   * The tree shows the recorded sections that can be reached from recorded top-level names
   * through recorded sections, and no others: the least set that holds the recorded top-level
   * names and the recorded children of its members.
   */
  lemma TreeIsLeastClosed(b: Book, topLevel: seq<string>, bound: set<string>)
    requires ValidBook(b)
    ensures var shown := Tree(b, topLevel).printed;
            && IsClosed(b, shown)
            && (forall name :: name in topLevel && name in b.timings ==> name in shown)
            && (IsClosed(b, bound) && (forall name :: name in topLevel && name in b.timings ==> name in bound)
                ==> shown <= bound)
  {
    SectionsShowChildren(b, topLevel, 0, NOTHING);
    if IsClosed(b, bound) && forall name :: name in topLevel && name in b.timings ==> name in bound {
      SectionsStayInside(b, topLevel, 0, NOTHING, bound);
    }
  }

  // Where the tree shows them.

  ghost predicate Shows(lines: seq<Line>, name: string) {
    exists i :: 0 <= i < |lines| && lines[i].name == name
  }

  /** Names that may stand at an indent: the top-level names at the margin, or the children of a line one step outside. */
  ghost predicate AreSiblings(b: Book, topLevel: seq<string>, lines: seq<Line>, siblings: seq<string>, indent: nat) {
    || (indent == 0 && siblings == topLevel)
    || exists p :: 0 <= p < |lines| && lines[p].indent + 1 == indent && siblings == Children(b, lines[p].name)
  }

  /** The recorded ones among the first y siblings have their lines. */
  ghost predicate EarlierShown(b: Book, lines: seq<Line>, siblings: seq<string>, y: nat)
    requires y <= |siblings|
  {
    forall x :: 0 <= x < y && siblings[x] in b.timings ==> Shows(lines, siblings[x])
  }

  /** Name number y of some siblings may be printed now. */
  ghost predicate FitsAs(b: Book, topLevel: seq<string>, lines: seq<Line>, siblings: seq<string>, y: nat, indent: nat) {
    AreSiblings(b, topLevel, lines, siblings, indent) && y < |siblings| && EarlierShown(b, lines, siblings, y)
  }

  ghost predicate Fits(b: Book, topLevel: seq<string>, lines: seq<Line>, name: string, indent: nat) {
    exists siblings, y: nat :: FitsAs(b, topLevel, lines, siblings, y, indent) && siblings[y] == name
  }

  ghost predicate Placed(b: Book, topLevel: seq<string>, lines: seq<Line>) {
    forall i :: 0 <= i < |lines| ==> Fits(b, topLevel, lines[..i], lines[i].name, lines[i].indent)
  }

  lemma ShowsLater(lines: seq<Line>, more: seq<Line>, name: string)
    requires Shows(lines, name) && lines <= more
    ensures Shows(more, name)
  {
    var i :| 0 <= i < |lines| && lines[i].name == name;
    assert more[i] == lines[i];
  }

  lemma SiblingsLater(b: Book, topLevel: seq<string>, lines: seq<Line>, more: seq<Line>, siblings: seq<string>, y: nat, indent: nat)
    requires AreSiblings(b, topLevel, lines, siblings, indent) && y <= |siblings| && EarlierShown(b, lines, siblings, y)
    requires lines <= more
    ensures AreSiblings(b, topLevel, more, siblings, indent) && EarlierShown(b, more, siblings, y)
  {
    if !(indent == 0 && siblings == topLevel) {
      var p :| 0 <= p < |lines| && lines[p].indent + 1 == indent && siblings == Children(b, lines[p].name);
      assert more[p] == lines[p];
    }
    forall x | 0 <= x < y && siblings[x] in b.timings
      ensures Shows(more, siblings[x])
    {
      ShowsLater(lines, more, siblings[x]);
    }
  }

  lemma PlaceLine(b: Book, topLevel: seq<string>, lines: seq<Line>, line: Line, siblings: seq<string>, y: nat)
    requires Placed(b, topLevel, lines) && FitsAs(b, topLevel, lines, siblings, y, line.indent) && siblings[y] == line.name
    ensures Placed(b, topLevel, lines + [line])
    ensures AreSiblings(b, topLevel, lines + [line], Children(b, line.name), line.indent + 1)
    ensures Shows(lines + [line], line.name)
  {
    hide FitsAs;
    var after := lines + [line];
    assert after[|lines|] == line;
    assert lines[..|lines|] == lines;
    forall i | 0 <= i < |after|
      ensures Fits(b, topLevel, after[..i], after[i].name, after[i].indent)
    {
      assert after[..i] == lines[..i];
    }
  }

  /** Every printed name has its line. */
  ghost predicate PrintedIsShown(o: Output) {
    forall name :: name in o.printed ==> Shows(o.lines, name)
  }

  lemma PrintedShows(o: Output, name: string)
    requires PrintedIsShown(o) && name in o.printed
    ensures Shows(o.lines, name)
  {
  }

  lemma MarkIsShown(o: Output, line: Line)
    requires PrintedIsShown(o)
    ensures PrintedIsShown(Output(o.printed + {line.name}, o.lines + [line]))
  {
    var lines := o.lines + [line];
    assert lines[|o.lines|] == line;
    forall name | name in o.printed
      ensures Shows(lines, name)
    {
      ShowsLater(o.lines, lines, name);
    }
  }

  lemma LineNames(b: Book, name: string, indent: nat)
    requires ValidBook(b) && name in b.timings
    ensures LineFor(b, name, indent).name == name && LineFor(b, name, indent).indent == indent
  {
  }

  lemma NoneEarlier(b: Book, lines: seq<Line>, siblings: seq<string>)
    ensures EarlierShown(b, lines, siblings, 0)
  {
  }

  lemma OneMoreShown(b: Book, topLevel: seq<string>, lines: seq<Line>, siblings: seq<string>, y: nat, indent: nat)
    requires AreSiblings(b, topLevel, lines, siblings, indent) && y < |siblings| && EarlierShown(b, lines, siblings, y)
    ensures FitsAs(b, topLevel, lines, siblings, y, indent)
    ensures (siblings[y] in b.timings ==> Shows(lines, siblings[y])) ==> EarlierShown(b, lines, siblings, y + 1)
  {
  }

  /** The order of the tree: siblings in their order, each before its own children. */
  lemma {:induction false} SectionIsPlaced(b: Book, topLevel: seq<string>, siblings: seq<string>, y: nat, indent: nat, o: Output)
    requires ValidBook(b) && Placed(b, topLevel, o.lines) && PrintedIsShown(o)
    requires y < |siblings| && FitsAs(b, topLevel, o.lines, siblings, y, indent)
    ensures var q := Section(b, siblings[y], indent, o);
            o.lines <= q.lines && Placed(b, topLevel, q.lines) && PrintedIsShown(q)
            && (siblings[y] in b.timings ==> Shows(q.lines, siblings[y]))
    decreases |b.timings.Keys - o.printed|, 0
  {
    hide Placed, FitsAs, AreSiblings, EarlierShown, PrintedIsShown, Shows, Children, LineFor;
    var name := siblings[y];
    if name in o.printed {
      PrintedShows(o, name);
    } else if name in b.timings {
      var line := LineFor(b, name, indent);
      var marked := Output(o.printed + {name}, o.lines + [line]);
      LineNames(b, name, indent);
      PlaceLine(b, topLevel, o.lines, line, siblings, y);
      MarkIsShown(o, line);
      Shrinks(b.timings.Keys, o.printed, marked.printed);
      NoneEarlier(b, marked.lines, Children(b, name));
      SectionsArePlaced(b, topLevel, Children(b, name), 0, indent + 1, marked);
      assert Children(b, name)[0..] == Children(b, name);
      ShowsLater(marked.lines, Section(b, name, indent, o).lines, name);
    }
  }

  lemma {:induction false} SectionsArePlaced(b: Book, topLevel: seq<string>, siblings: seq<string>, y: nat, indent: nat, o: Output)
    requires ValidBook(b) && Placed(b, topLevel, o.lines) && PrintedIsShown(o)
    requires AreSiblings(b, topLevel, o.lines, siblings, indent) && y <= |siblings| && EarlierShown(b, o.lines, siblings, y)
    ensures var q := Sections(b, siblings[y..], indent, o);
            o.lines <= q.lines && Placed(b, topLevel, q.lines) && PrintedIsShown(q)
    decreases |b.timings.Keys - o.printed|, 1 + |siblings| - y
  {
    hide Placed, FitsAs, AreSiblings, EarlierShown, PrintedIsShown, Shows;
    if y < |siblings| {
      var first := Section(b, siblings[y], indent, o);
      OneMoreShown(b, topLevel, o.lines, siblings, y, indent);
      SectionIsPlaced(b, topLevel, siblings, y, indent, o);
      SiblingsLater(b, topLevel, o.lines, first.lines, siblings, y, indent);
      OneMoreShown(b, topLevel, first.lines, siblings, y, indent);
      Shrinks(b.timings.Keys, o.printed, first.printed);
      assert siblings[y..][0] == siblings[y] && siblings[y..][1..] == siblings[y + 1..];
      SectionsArePlaced(b, topLevel, siblings, y + 1, indent, first);
    }
  }

  /**
   * Every line of the tree stands one step inside an earlier line of one of its parents, or at the margin
   * for a top-level name, and after the lines of all its recorded earlier siblings.
   */
  lemma TreeIsPlaced(b: Book, topLevel: seq<string>)
    requires ValidBook(b)
    ensures Placed(b, topLevel, Tree(b, topLevel).lines)
  {
    SectionsArePlaced(b, topLevel, topLevel, 0, 0, NOTHING);
    assert topLevel[0..] == topLevel;
  }

  lemma TreePrintsOnce(b: Book, topLevel: seq<string>)
    requires ValidBook(b)
    ensures OneLineEach(b, Tree(b, topLevel).printed, Tree(b, topLevel).lines)
  {
    SectionsPrintOnce(b, topLevel, 0, NOTHING);
  }
}
