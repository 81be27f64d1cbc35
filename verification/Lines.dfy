/** config_build.go: the lines of a printed configuration. */
module PrintedLines {
  import opened Text
  import opened ConfigTree
  import opened ConfigBuild
  import opened WordRoundTrip
  import opened PrintedTree
  import PrintedLayout
  import StrayWords

  /** A line: the number of blocks around it, and what it says behind its margin. */
  datatype Line = Line(depth: nat, text: string)

  function Blanks(n: int): string { seq(if n < 0 then 0 else n, _ => ' ') }

  function Shown(padding: int, l: Line): string { Blanks(padding * l.depth) + l.text }

  /** The lines one under the other. */
  function Page(padding: int, lines: seq<Line>): string {
    if lines == [] then ""
    else
      var n := |lines| - 1;
      (if n == 0 then "" else Page(padding, lines[..n]) + "\n") + Shown(padding, lines[n])
  }

  /** The lines with a text behind the last one. */
  function Extended(lines: seq<Line>, text: string): seq<Line> {
    if lines == [] then [Line(0, text)]
    else lines[..|lines| - 1] + [Line(lines[|lines| - 1].depth, lines[|lines| - 1].text + text)]
  }

  /** The words, each behind a space. */
  function Spaced(words: seq<string>): string {
    if words == [] then "" else " " + words[0] + Spaced(words[1..])
  }

  /** Joined words are separated by one space. */
  lemma {:induction false} JoinIsSpaced(words: seq<string>)
    ensures words == [] ==> Join(words) == ""
    ensures words != [] ==> " " + Join(words) == Spaced(words)
    decreases |words|
  {
    if |words| == 1 {
      assert Spaced(words[1..]) == "";
    } else if words != [] {
      JoinIsSpaced(words[1..]);
      assert Join(words) == words[0] + (" " + Join(words[1..]));
    }
  }

  lemma {:induction false} EnquotedEach(st: Style, args: seq<string>)
    ensures |EnquotedAll(st, args)| == |args|
    ensures forall i :: 0 <= i < |args| ==> EnquotedAll(st, args)[i] == Enquoted(st, args[i])
    decreases |args|
  {
    if args != [] {
      EnquotedEach(st, args[1..]);
    }
  }

  /** A head is the directive and its arguments, each printed as a word, with one space between them. */
  lemma HeadIsSpaced(st: Style, stmt: Stmt) returns (words: seq<string>)
    requires stmt.directive != "if"
    ensures |words| == |stmt.args| && forall i :: 0 <= i < |words| ==> words[i] == Enquoted(st, stmt.args[i])
    ensures HeadText(st, stmt) == Enquoted(st, stmt.directive) + Spaced(words)
  {
    words := EnquotedAll(st, stmt.args);
    EnquotedEach(st, stmt.args);
    EnquotedIs(st, stmt.directive, "if");
    JoinIsSpaced(words);
    var d := Enquoted(st, stmt.directive);
    if words == [] {
      assert d + Spaced(words) == d;
    } else {
      Assoc(d, " ", Join(words));
    }
  }

  /** A statement inside `depth` blocks: one line, or its head, the lines of its block and a brace. */
  function StmtLines(st: Style, stmt: Stmt, depth: nat): seq<Line>
    decreases stmt
  {
    if IsRemark(stmt) then [Line(depth, " #" + stmt.comment)]
    else match stmt.body
      case NoBlock => [Line(depth, HeadText(st, stmt) + ";")]
      case Braces(inner) =>
        BlockLines(st, [Line(depth, HeadText(st, stmt) + " {")], inner, depth + 1, stmt.line) + [Line(depth, "}")]
  }

  /** `lines` with those of a block; a comment of the line before goes behind it. */
  function BlockLines(st: Style, lines: seq<Line>, block: seq<Stmt>, depth: nat, lastLine: int): seq<Line>
    decreases block
  {
    if block == [] then lines
    else if IsRemark(block[0]) && block[0].line == lastLine then
      BlockLines(st, Extended(lines, " #" + block[0].comment), block[1..], depth, lastLine)
    else BlockLines(st, lines + StmtLines(st, block[0], depth), block[1..], depth, block[0].line)
  }

  /** No directive has a printer of its own, and comments are on one line. */
  predicate Ordinary(st: Style, block: seq<Stmt>)
    decreases block
  {
    block != [] ==> OrdinaryStmt(st, block[0]) && Ordinary(st, block[1..])
  }

  predicate OrdinaryStmt(st: Style, stmt: Stmt)
    decreases stmt
  {
    if IsRemark(stmt) then '\n' !in stmt.comment
    else Enquoted(st, stmt.directive) !in st.custom && (stmt.body.Braces? ==> Ordinary(st, stmt.body.stmts))
  }

  /** A line begins with a rune that is no space; comments and `if` have one space more. */
  predicate Begins(text: string) { text != "" && (text[0] != ' ' || " #" <= text || " if" <= text) }

  predicate AllBegin(lines: seq<Line>) { forall l <- lines :: Begins(l.text) }

  // ---- Pages ----

  lemma BlanksAreSpaces(n: int)
    ensures Spaces(n) == Blanks(n)
  {
    SpacesAre(n);
    assert forall i :: 0 <= i < |Spaces(n)| ==> Spaces(n)[i] in Spaces(n);
  }

  /** The page, ready for another line. */
  function Before(padding: int, lines: seq<Line>): string {
    if lines == [] then "" else Page(padding, lines) + "\n"
  }

  lemma PageOneMore(padding: int, lines: seq<Line>, l: Line)
    ensures Page(padding, lines + [l]) == Before(padding, lines) + Shown(padding, l)
  {
    assert (lines + [l])[..|lines|] == lines;
  }

  lemma PageOne(padding: int, l: Line)
    ensures Page(padding, [l]) == Shown(padding, l)
  {
    PageOneMore(padding, [], l);
    assert [] + [l] == [l];
  }

  lemma PageExtended(padding: int, lines: seq<Line>, text: string)
    ensures Page(padding, Extended(lines, text)) == Page(padding, lines) + text
  {
    if lines == [] {
      PageOne(padding, Line(0, text));
    } else {
      var n := |lines| - 1;
      var front, l := lines[..n], lines[n];
      assert lines == front + [l];
      PageOneMore(padding, front, l);
      PageOneMore(padding, front, Line(l.depth, l.text + text));
      Assoc(Blanks(padding * l.depth), l.text, text);
      Assoc(Before(padding, front), Shown(padding, l), text);
    }
  }

  lemma {:induction false} PageAppend(padding: int, a: seq<Line>, b: seq<Line>)
    requires b != []
    ensures Page(padding, a + b) == Before(padding, a) + Page(padding, b)
    decreases |b|, 0
  {
    var front, l := b[..|b| - 1], b[|b| - 1];
    assert b == front + [l];
    Assoc(a, front, [l]);
    PageOneMore(padding, a + front, l);
    PageOneMore(padding, front, l);
    BeforeAppend(padding, a, front);
    Assoc(Before(padding, a), Before(padding, front), Shown(padding, l));
  }

  lemma BeforeAppend(padding: int, a: seq<Line>, b: seq<Line>)
    ensures Before(padding, a + b) == Before(padding, a) + Before(padding, b)
    decreases |b|, 1
  {
    if b == [] {
      assert a + b == a;
    } else {
      PageAppend(padding, a, b);
      Assoc(Before(padding, a), Page(padding, b), "\n");
    }
  }

  lemma {:induction false} PageNotEmpty(padding: int, lines: seq<Line>)
    requires AllBegin(lines)
    ensures Page(padding, lines) == "" <==> lines == []
  {
    if lines != [] {
      assert lines[|lines| - 1] in lines;
    }
  }

  // ---- The printer against the lines ----

  /** A text before the output of a block comes before the whole. */
  lemma {:induction false} Shifted(st: Style, m: string, out: string, block: seq<Stmt>, padding: int, depth: nat,
                                  last: int)
    requires out != ""
    ensures BlockText(st, m + out, block, padding, depth, last) == m + BlockText(st, out, block, padding, depth, last)
    decreases block
  {
    if block != [] {
      EnquotedIsHash(st, block[0]);
      var next := NextOutput(st, out, block[0], padding, depth, last);
      NextShifted(st, m, out, block[0], padding, depth, last);
      Shifted(st, m, next, block[1..], padding, depth, block[0].line);
    }
  }

  lemma NextShifted(st: Style, m: string, out: string, stmt: Stmt, padding: int, depth: nat, last: int)
    requires out != ""
    ensures NextOutput(st, m + out, stmt, padding, depth, last) == m + NextOutput(st, out, stmt, padding, depth, last)
    ensures NextOutput(st, out, stmt, padding, depth, last) != ""
  {
    if Enquoted(st, stmt.directive) == "#" && stmt.line == last {
      assert m + out + " #" + stmt.comment == m + (out + " #" + stmt.comment);
    } else {
      var a, b := Spaces(padding * depth), StmtText(st, stmt, padding, depth);
      assert m + out + "\n" + a + b == m + (out + "\n" + a + b);
    }
  }

  lemma HeadBegins(st: Style, stmt: Stmt, more: string)
    requires !IsRemark(stmt)
    ensures Begins(HeadText(st, stmt) + more)
  {
    var d := Enquoted(st, stmt.directive);
    StrayWords.PrintedStarts(st, stmt.directive);
    if d != "if" {
      assert HeadText(st, stmt)[0] == d[0];
    }
  }

  lemma StmtLinesAre(st: Style, stmt: Stmt, padding: int, depth: nat)
    requires OrdinaryStmt(st, stmt)
    ensures Page(padding, StmtLines(st, stmt, depth)) == Spaces(padding * depth) + StmtText(st, stmt, padding, depth)
    ensures StmtLines(st, stmt, depth) != [] && AllBegin(StmtLines(st, stmt, depth))
    decreases stmt, 1
  {
    EnquotedIsHash(st, stmt);
    BlanksAreSpaces(padding * depth);
    if IsRemark(stmt) {
      PageOne(padding, Line(depth, " #" + stmt.comment));
    } else if stmt.body.NoBlock? {
      HeadBegins(st, stmt, ";");
      PageOne(padding, Line(depth, HeadText(st, stmt) + ";"));
    } else {
      BracesLinesAre(st, stmt, padding, depth);
    }
  }

  lemma BracesLinesAre(st: Style, stmt: Stmt, padding: int, depth: nat)
    requires OrdinaryStmt(st, stmt) && !IsRemark(stmt) && stmt.body.Braces?
    ensures Page(padding, StmtLines(st, stmt, depth)) == Spaces(padding * depth) + StmtText(st, stmt, padding, depth)
    ensures AllBegin(StmtLines(st, stmt, depth))
    decreases stmt, 0
  {
    var m, head, inner := Spaces(padding * depth), HeadText(st, stmt) + " {", stmt.body.stmts;
    var first, close := [Line(depth, head)], Line(depth, "}");
    EnquotedIsHash(st, stmt);
    BlanksAreSpaces(padding * depth);
    HeadBegins(st, stmt, " {");
    PageOne(padding, first[0]);
    BlockLinesAre(st, first, m + head, inner, padding, depth + 1, stmt.line);
    Shifted(st, m, head, inner, padding, depth + 1, stmt.line);
    var lines, text := BlockLines(st, first, inner, depth + 1, stmt.line),
                       BlockText(st, head, inner, padding, depth + 1, stmt.line);
    PageOneMore(padding, lines, close);
    Closed(m, text);
  }

  lemma Closed(m: string, text: string)
    ensures m + text + "\n" + (m + "}") == m + (text + "\n" + m + "}")
  {
  }

  lemma BlockLinesAre(st: Style, lines: seq<Line>, out: string, block: seq<Stmt>, padding: int, depth: nat, last: int)
    requires Ordinary(st, block) && AllBegin(lines) && out == Page(padding, lines)
    ensures BlockText(st, out, block, padding, depth, last)
         == Page(padding, BlockLines(st, lines, block, depth, last))
    ensures AllBegin(BlockLines(st, lines, block, depth, last))
    ensures lines != [] ==> BlockLines(st, lines, block, depth, last) != []
    decreases block
  {
    if block != [] {
      EnquotedIsHash(st, block[0]);
      var next, longer := NextLinesAre(st, lines, out, block[0], padding, depth, last);
      BlockLinesAre(st, longer, next, block[1..], padding, depth, block[0].line);
    }
  }

  lemma NextLinesAre(st: Style, lines: seq<Line>, out: string, stmt: Stmt, padding: int, depth: nat, last: int)
    returns (next: string, longer: seq<Line>)
    requires OrdinaryStmt(st, stmt) && AllBegin(lines) && out == Page(padding, lines)
    ensures next == NextOutput(st, out, stmt, padding, depth, last) == Page(padding, longer) && AllBegin(longer)
    ensures longer == if IsRemark(stmt) && stmt.line == last then Extended(lines, " #" + stmt.comment)
                      else lines + StmtLines(st, stmt, depth)
    ensures longer != []
    decreases stmt, 2
  {
    EnquotedIsHash(st, stmt);
    next := NextOutput(st, out, stmt, padding, depth, last);
    if IsRemark(stmt) && stmt.line == last {
      longer := Extended(lines, " #" + stmt.comment);
      PageExtended(padding, lines, " #" + stmt.comment);
      assert out + " #" + stmt.comment == out + (" #" + stmt.comment);
      ExtendedBegins(lines, stmt.comment);
    } else {
      var own := StmtLines(st, stmt, depth);
      longer := lines + own;
      StmtLinesAre(st, stmt, padding, depth);
      FreshLines(padding, lines, own, out, Spaces(padding * depth), StmtText(st, stmt, padding, depth));
    }
  }

  lemma FreshLines(padding: int, lines: seq<Line>, own: seq<Line>, out: string, m: string, text: string)
    requires AllBegin(lines) && out == Page(padding, lines) && own != [] && Page(padding, own) == m + text
    ensures Page(padding, lines + own) == out + (if out != "" then "\n" else "") + m + text
  {
    PageAppend(padding, lines, own);
    PageNotEmpty(padding, lines);
    var before := out + if out != "" then "\n" else "";
    assert Before(padding, lines) == before;
    Assoc(before, m, text);
  }

  lemma ExtendedBegins(lines: seq<Line>, comment: string)
    requires AllBegin(lines)
    ensures AllBegin(Extended(lines, " #" + comment))
  {
    if lines != [] {
      var l := lines[|lines| - 1];
      assert l in lines;
      assert " #" <= l.text ==> " #" <= l.text + " #" + comment;
      assert forall k <- lines[..|lines| - 1] :: k in lines;
    }
  }

  lemma FirstShifted(st: Style, head: string, stmt: Stmt, indent: int) returns (first: string)
    requires head != "" && OrdinaryStmt(st, stmt) && !(IsRemark(stmt) && stmt.line == 0)
    ensures first == NextOutput(st, "", stmt, indent, 0, 0) != ""
    ensures NextOutput(st, head, stmt, indent, 0, 0) == head + "\n" + first
  {
    var m, text := Spaces(indent * 0), StmtText(st, stmt, indent, 0);
    EnquotedIsHash(st, stmt);
    StmtLinesAre(st, stmt, indent, 0);
    PageNotEmpty(indent, StmtLines(st, stmt, 0));
    first := m + text;
    assert "" + "" + m + text == first;
    Assoc(head + "\n", m, text);
  }

  lemma BlockAbove(st: Style, head: string, block: seq<Stmt>, indent: int)
    requires head != "" && block != [] && OrdinaryStmt(st, block[0]) && !(IsRemark(block[0]) && block[0].line == 0)
    ensures BlockText(st, head, block, indent, 0, 0) == head + "\n" + BlockText(st, "", block, indent, 0, 0)
  {
    EnquotedIsHash(st, block[0]);
    var first := FirstShifted(st, head, block[0], indent);
    Shifted(st, head + "\n", first, block[1..], indent, 0, block[0].line);
  }

  /** The header stands on lines of its own above the text. */
  lemma HeaderIsAbove(st: Style, block: seq<Stmt>, indent: int)
    requires block != [] && OrdinaryStmt(st, block[0]) && !(IsRemark(block[0]) && block[0].line == 0)
    ensures Built(st, block, indent, true) == HEADER + "\n" + Built(st, block, indent, false)
  {
    BlockAbove(st, HEADER, block, indent);
  }

  // ---- The lines of the text ----

  /** A text cut at its newlines. */
  function Cut(text: string): seq<string> {
    var k := NextNewline(text, 0);
    if k == |text| then [text] else [text[..k]] + Cut(text[k + 1..])
  }

  function NextNewline(text: string, i: nat): (k: nat)
    requires i <= |text|
    ensures i <= k <= |text| && (k < |text| ==> text[k] == '\n') && forall j :: i <= j < k ==> text[j] != '\n'
    decreases |text| - i
  {
    if i == |text| || text[i] == '\n' then i else NextNewline(text, i + 1)
  }

  lemma CutOne(text: string)
    requires '\n' !in text
    ensures Cut(text) == [text]
  {
  }

  lemma SameNewline(a: string, text: string, k: nat)
    requires k == NextNewline(a, 0) && a + "\n" <= text
    ensures NextNewline(text, 0) == k && text[..k] == a[..k]
  {
    var j := NextNewline(text, 0);
    assert forall i :: 0 <= i < |a| ==> text[i] == a[i];
    assert text[|a|] == '\n';
  }

  lemma RestBehind(a: string, more: string, k: nat)
    requires k < |a|
    ensures (a + more)[k + 1..] == a[k + 1..] + more
  {
  }

  lemma CutAt(text: string, k: nat)
    requires k == NextNewline(text, 0) < |text|
    ensures Cut(text) == [text[..k]] + Cut(text[k + 1..])
  {
  }

  lemma {:induction false} CutOneMore(a: string, b: string, text: string)
    requires '\n' !in b && text == a + ("\n" + b)
    ensures Cut(text) == Cut(a) + [b]
    decreases |a|
  {
    var k := NextNewline(a, 0);
    SameNewline(a, text, k);
    CutAt(text, k);
    if k == |a| {
      assert text[k + 1..] == b;
      CutOne(b);
    } else {
      RestBehind(a, "\n" + b, k);
      CutAt(a, k);
      CutOneMore(a[k + 1..], b, text[k + 1..]);
      Assoc([a[..k]], Cut(a[k + 1..]), [b]);
    }
  }

  predicate OneLine(l: Line) { '\n' !in l.text }

  function ShownAll(padding: int, lines: seq<Line>): seq<string> {
    seq(|lines|, i requires 0 <= i < |lines| => Shown(padding, lines[i]))
  }

  lemma ShownOnOneLine(padding: int, l: Line)
    requires OneLine(l)
    ensures '\n' !in Shown(padding, l)
  {
    assert forall c <- Blanks(padding * l.depth) :: c == ' ';
  }

  lemma PageLast(padding: int, front: seq<Line>, l: Line)
    requires front != []
    ensures Page(padding, front + [l]) == Page(padding, front) + ("\n" + Shown(padding, l))
    ensures ShownAll(padding, front + [l]) == ShownAll(padding, front) + [Shown(padding, l)]
  {
    PageOneMore(padding, front, l);
    Assoc(Page(padding, front), "\n", Shown(padding, l));
  }

  lemma {:induction false} CutPage(padding: int, lines: seq<Line>) returns (page: string)
    requires lines != [] && forall l <- lines :: OneLine(l)
    ensures page == Page(padding, lines) && Cut(page) == ShownAll(padding, lines)
    decreases |lines|
  {
    var front, l := lines[..|lines| - 1], lines[|lines| - 1];
    assert lines == front + [l];
    ShownOnOneLine(padding, l);
    if front == [] {
      page := Shown(padding, l);
      PageOne(padding, l);
      CutOne(page);
    } else {
      var above := CutPage(padding, front);
      PageLast(padding, front, l);
      page := above + ("\n" + Shown(padding, l));
      CutOneMore(above, Shown(padding, l), page);
    }
  }

  lemma HeadOnOneLine(st: Style, stmt: Stmt)
    requires !st.isPrint('\n')
    ensures '\n' !in HeadText(st, stmt)
  {
    PrintedLayout.EnquotedOneLine(st, stmt.directive);
    PrintedLayout.JoinOneLine(st, stmt.args);
  }

  lemma StmtOnLines(st: Style, stmt: Stmt, depth: nat)
    requires OrdinaryStmt(st, stmt) && !st.isPrint('\n')
    ensures forall l <- StmtLines(st, stmt, depth) :: OneLine(l)
    decreases stmt
  {
    HeadOnOneLine(st, stmt);
    if !IsRemark(stmt) && stmt.body.Braces? {
      BlockOnLines(st, [Line(depth, HeadText(st, stmt) + " {")], stmt.body.stmts, depth + 1, stmt.line);
    }
  }

  lemma BlockOnLines(st: Style, lines: seq<Line>, block: seq<Stmt>, depth: nat, last: int)
    requires Ordinary(st, block) && !st.isPrint('\n') && forall l <- lines :: OneLine(l)
    ensures forall l <- BlockLines(st, lines, block, depth, last) :: OneLine(l)
    decreases block
  {
    if block != [] {
      if IsRemark(block[0]) && block[0].line == last {
        ExtendedOnLines(lines, block[0].comment);
        BlockOnLines(st, Extended(lines, " #" + block[0].comment), block[1..], depth, last);
      } else {
        StmtOnLines(st, block[0], depth);
        BlockOnLines(st, lines + StmtLines(st, block[0], depth), block[1..], depth, block[0].line);
      }
    }
  }

  lemma ExtendedOnLines(lines: seq<Line>, comment: string)
    requires (forall l <- lines :: OneLine(l)) && '\n' !in comment
    ensures forall l <- Extended(lines, " #" + comment) :: OneLine(l)
  {
    if lines != [] {
      assert lines[|lines| - 1] in lines;
      assert forall l <- lines[..|lines| - 1] :: l in lines;
    }
  }

  /**
    * The printed text, cut at its newlines, is the lines of its statements and closing braces, each
    * behind exactly `indent` spaces for every block around it, and beginning with another rune.
    */
  lemma EachLineIsIndented(st: Style, block: seq<Stmt>, indent: int)
    requires Ordinary(st, block) && !st.isPrint('\n') && block != []
    ensures var lines := BlockLines(st, [], block, 0, 0);
      && lines != [] && AllBegin(lines)
      && Cut(Built(st, block, indent, false)) == ShownAll(indent, lines)
  {
    var lines := BlockLines(st, [], block, 0, 0);
    BlockLinesAre(st, [], "", block, indent, 0, 0);
    BlockOnLines(st, [], block, 0, 0);
    var next, longer := NextLinesAre(st, [], "", block[0], indent, 0, 0);
    BlockLinesAre(st, longer, next, block[1..], indent, 0, block[0].line);
    var page := CutPage(indent, lines);
  }
}
