/** The printer undone by the lexer: whole configurations. */
module PrintedTree {
  import opened Text
  import opened ConfigLex
  import opened ConfigTree
  import opened ConfigBuild
  import opened WordRoundTrip

  predicate IsRemark(stmt: Stmt) { stmt.directive == "#" }

  /** The statements the printer means to write: see the README for what this leaves out. */
  predicate Sayable(st: Style, stmt: Stmt)
    decreases stmt
  {
    if IsRemark(stmt) then stmt.args == [] && stmt.body == NoBlock && '\n' !in stmt.comment
    else
      && Faithful(st, stmt.directive) && stmt.directive != "if" && stmt.comment == ""
      && stmt.directive !in st.custom && Enquoted(st, stmt.directive) !in st.custom
      && (forall a <- stmt.args :: Faithful(st, a))
      && (stmt.body.Braces? ==> AllSayable(st, stmt.body.stmts))
  }

  predicate AllSayable(st: Style, block: seq<Stmt>)
    decreases block
  {
    block != [] ==> Sayable(st, block[0]) && AllSayable(st, block[1..])
  }

  /** What Sayable asks of a statement besides its words. */
  predicate Shaped(st: Style, stmt: Stmt)
    decreases stmt
  {
    if IsRemark(stmt) then stmt.args == [] && stmt.body == NoBlock && '\n' !in stmt.comment
    else
      && stmt.comment == "" && stmt.directive !in st.custom && Enquoted(st, stmt.directive) !in st.custom
      && (stmt.body.Braces? ==> AllShaped(st, stmt.body.stmts))
  }

  predicate AllShaped(st: Style, block: seq<Stmt>)
    decreases block
  {
    block != [] ==> Shaped(st, block[0]) && AllShaped(st, block[1..])
  }

  /** The words of a statement that the printer and the lexer agree on. */
  predicate Spoken(st: Style, stmt: Stmt)
    decreases stmt
  {
    || IsRemark(stmt)
    || (&& stmt.directive != "if" && Faithful(st, stmt.directive) && (forall a <- stmt.args :: Faithful(st, a))
        && (stmt.body.Braces? ==> AllSpoken(st, stmt.body.stmts)))
  }

  /** No statement is an `if`, and all directives and arguments are faithful, at all depths. */
  predicate AllSpoken(st: Style, block: seq<Stmt>)
    decreases block
  {
    block != [] ==> Spoken(st, block[0]) && AllSpoken(st, block[1..])
  }

  lemma {:induction false} SayableIs(st: Style, block: seq<Stmt>)
    ensures AllSayable(st, block) <==> AllShaped(st, block) && AllSpoken(st, block)
    decreases block
  {
    if block != [] {
      if block[0].body.Braces? {
        SayableIs(st, block[0].body.stmts);
      }
      SayableIs(st, block[1..]);
    }
  }

  /** Two comments that the printer would put on one line. */
  predicate Collide(a: Stmt, b: Stmt) { IsRemark(a) && IsRemark(b) && a.line == b.line }

  /** No two neighbouring comments share a line, at any depth. */
  predicate Separate(block: seq<Stmt>)
    decreases block
  {
    block != [] ==>
      && (block[0].body.Braces? ==> Separate(block[0].body.stmts))
      && (|block| > 1 ==> !Collide(block[0], block[1]))
      && Separate(block[1..])
  }

  predicate EndsInRemark(block: seq<Stmt>) { block != [] && IsRemark(block[|block| - 1]) }

  const OPEN_BRACE: Word := Word("{", false)
  const CLOSE_BRACE: Word := Word("}", false)

  function PrintedAll(args: seq<string>): seq<Word> {
    seq(|args|, i requires 0 <= i < |args| => Printed(args[i]))
  }

  function RemarkWord(stmt: Stmt): Word { Word("#" + stmt.comment, false) }

  function StmtWords(stmt: Stmt): seq<Word>
    decreases stmt
  {
    if IsRemark(stmt) then [RemarkWord(stmt)]
    else if stmt.body.NoBlock? then PrintedAll([stmt.directive] + stmt.args) + [SEMICOLON]
    else
      PrintedAll([stmt.directive] + stmt.args) + [OPEN_BRACE] + BlockWords(stmt.body.stmts) + [CLOSE_BRACE]
  }

  /** The words a block is printed as. */
  function BlockWords(block: seq<Stmt>): seq<Word>
    decreases block
  {
    if block == [] then [] else StmtWords(block[0]) + BlockWords(block[1..])
  }

  // ---- Lexing a statement ----

  lemma {:induction false} ReadSpaces(s: Lx, n: int)
    requires Idle(s)
    ensures Ended(s, Run(s, Spaces(n)), [])
    decreases n
  {
    if n > 0 {
      ReadSpaces(s, n - 1);
      RunAppend(s, Spaces(n - 1), " ");
      RunOne(Run(s, Spaces(n - 1)), ' ');
      IdleSpace(Run(s, Spaces(n - 1)), ' ');
    }
  }

  lemma PrintedCons(a: string, rest: seq<string>)
    ensures PrintedAll([a] + rest) == [Printed(a)] + PrintedAll(rest)
  {
  }

  /** Words joined by spaces and followed by one. */
  lemma {:induction false} ReadWordsThenSpace(st: Style, s: Lx, ws: seq<string>)
    requires Idle(s) && ws != [] && (forall w <- ws :: Faithful(st, w))
    requires !(s.directive && ws[0] in s.custom)
    ensures Ended(s, Run(s, Join(EnquotedAll(st, ws)) + " "), PrintedAll(ws))
    decreases |ws|
  {
    var e := Enquoted(st, ws[0]);
    ReadThenSpace(st, s, ws[0]);
    assert ws == [ws[0]] + ws[1..];
    PrintedCons(ws[0], ws[1..]);
    if |ws| == 1 {
      assert EnquotedAll(st, ws[1..]) == [];
    } else {
      var t := Run(s, e + " ");
      var rest := Join(EnquotedAll(st, ws[1..]));
      ReadWordsThenSpace(st, t, ws[1..]);
      JoinCons(st, ws);
      assert Join(EnquotedAll(st, ws)) + " " == (e + " ") + (rest + " ");
      RunAppend(s, e + " ", rest + " ");
    }
  }

  lemma JoinCons(st: Style, ws: seq<string>)
    requires |ws| > 1
    ensures Join(EnquotedAll(st, ws)) == Enquoted(st, ws[0]) + " " + Join(EnquotedAll(st, ws[1..]))
  {
    var tail := EnquotedAll(st, ws[1..]);
    assert EnquotedAll(st, ws)[1..] == tail && tail != [];
  }

  lemma {:induction false} ReadWordsThenSemicolon(st: Style, s: Lx, ws: seq<string>)
    requires Idle(s) && ws != [] && (forall w <- ws :: Faithful(st, w))
    requires !(s.directive && ws[0] in s.custom)
    ensures Ended(s, Run(s, Join(EnquotedAll(st, ws)) + ";"), PrintedAll(ws) + [SEMICOLON])
    decreases |ws|
  {
    var e := Enquoted(st, ws[0]);
    assert ws == [ws[0]] + ws[1..];
    PrintedCons(ws[0], ws[1..]);
    if |ws| == 1 {
      ReadThenSemicolon(st, s, ws[0]);
      assert EnquotedAll(st, ws[1..]) == [];
      assert PrintedAll(ws) + [SEMICOLON] == [Printed(ws[0]), SEMICOLON];
    } else {
      ReadThenSpace(st, s, ws[0]);
      var t := Run(s, e + " ");
      var rest := Join(EnquotedAll(st, ws[1..]));
      ReadWordsThenSemicolon(st, t, ws[1..]);
      JoinCons(st, ws);
      assert Join(EnquotedAll(st, ws)) + ";" == (e + " ") + (rest + ";");
      RunAppend(s, e + " ", rest + ";");
      Assoc([Printed(ws[0])], PrintedAll(ws[1..]), [SEMICOLON]);
    }
  }

  /** Quoting does not turn a word into another one that needs no quotes. */
  lemma EnquotedIs(st: Style, w: string, v: string)
    requires v != "" && v[0] != '"' && w != v
    ensures Enquoted(st, w) != v
  {
    assert NeedsQuote(w) ==> Enquoted(st, w)[0] == '"';
  }

  /** The head of a statement is its directive and arguments joined. */
  lemma HeadIsJoin(st: Style, stmt: Stmt)
    requires stmt.directive != "if"
    ensures HeadText(st, stmt) == Join(EnquotedAll(st, [stmt.directive] + stmt.args))
  {
    var ws := [stmt.directive] + stmt.args;
    assert ws[1..] == stmt.args;
    EnquotedIs(st, stmt.directive, "if");
    if stmt.args == [] {
      assert EnquotedAll(st, ws) == [Enquoted(st, stmt.directive)];
    } else {
      JoinCons(st, ws);
    }
  }

  /** A statement's directive and arguments, up to and with its opening brace. */
  lemma ReadHead(st: Style, s: Lx, stmt: Stmt)
    requires Idle(s) && s.custom == st.custom && !IsRemark(stmt) && Sayable(st, stmt)
    ensures Ended(s, Run(s, HeadText(st, stmt) + " {"), PrintedAll([stmt.directive] + stmt.args) + [OPEN_BRACE])
  {
    var ws := [stmt.directive] + stmt.args;
    HeadIsJoin(st, stmt);
    ReadWordsThenSpace(st, s, ws);
    var h := HeadText(st, stmt) + " ";
    assert HeadText(st, stmt) + " {" == h + ['{'];
    RunAppend(s, h, ['{']);
    RunOne(Run(s, h), '{');
    IdlePunct(Run(s, h), '{');
  }

  lemma ReadSimple(st: Style, s: Lx, stmt: Stmt)
    requires Idle(s) && s.custom == st.custom && !IsRemark(stmt) && Sayable(st, stmt)
    ensures Ended(s, Run(s, HeadText(st, stmt) + ";"), PrintedAll([stmt.directive] + stmt.args) + [SEMICOLON])
  {
    HeadIsJoin(st, stmt);
    ReadWordsThenSemicolon(st, s, [stmt.directive] + stmt.args);
  }

  // ---- Lexing a block ----

  /** All words of `ws` are read; the last may be a comment still waiting for its newline. */
  predicate Settled(s: Lx, ws: seq<Word>) {
    || (Idle(s) && Strip(s.tokens) == ws)
    || (s.mode.Comment? && Strip(s.tokens) + [Word(s.token, false)] == ws)
  }

  lemma Newline(s: Lx, ws: seq<Word>)
    requires Settled(s, ws)
    ensures var t := Feed(s, '\n'); Idle(t) && Strip(t.tokens) == ws && t.custom == s.custom
  {
    if s.mode.Comment? {
      StripEmit(s.tokens, Token(s.token, s.mode.from, false));
    }
  }

  lemma NewlineAndMargin(s: Lx, ws: seq<Word>, n: int)
    requires Settled(s, ws)
    ensures var t := Run(s, "\n" + Spaces(n)); Idle(t) && Strip(t.tokens) == ws && t.custom == s.custom
  {
    RunCons(s, '\n', Spaces(n));
    Newline(s, ws);
    ReadSpaces(Feed(s, '\n'), n);
  }

  /** A printed comment is pending until its newline. */
  lemma ReadRemark(s: Lx, comment: string)
    requires Idle(s) && '\n' !in comment
    ensures var t := Run(s, " #" + comment);
      && t.mode.Comment? && t.custom == s.custom
      && Settled(t, Strip(s.tokens) + [Word("#" + comment, false)])
  {
    assert " #" + comment == [' '] + (['#'] + comment);
    RunCons(s, ' ', ['#'] + comment);
    IdleSpace(s, ' ');
    var a := Feed(s, ' ');
    RunCons(a, '#', comment);
    StartRemark(a);
    ReadComment(Feed(a, '#'), comment);
  }

  lemma StartRemark(s: Lx)
    requires Idle(s)
    ensures Feed(s, '#').mode.Comment? && Pushed(s, Feed(s, '#'), "#") && Feed(s, '#').token == "#"
  {
  }

  /** The statement's words, or its comment, are read. */
  ghost predicate Reads(st: Style, s: Lx, text: string, ws: seq<Word>, pending: bool) {
    var t := Run(s, text);
    Settled(t, ws) && t.custom == s.custom && (t.mode.Comment? <==> pending)
  }

  lemma ReadStmt(st: Style, s: Lx, stmt: Stmt, padding: int, depth: nat)
    requires Idle(s) && s.custom == st.custom && Sayable(st, stmt)
    requires stmt.body.Braces? ==> Separate(stmt.body.stmts)
    ensures Reads(st, s, StmtText(st, stmt, padding, depth), Strip(s.tokens) + StmtWords(stmt), IsRemark(stmt))
    decreases stmt
  {
    if IsRemark(stmt) {
      assert Enquoted(st, "#") == "#" by { BareHash(); }
      ReadRemark(s, stmt.comment);
    } else {
      EnquotedIs(st, stmt.directive, "#");
      if stmt.body.NoBlock? {
        ReadSimple(st, s, stmt);
      } else {
        ReadBraces(st, s, stmt, padding, depth);
      }
    }
  }

  lemma BareHash()
    ensures !NeedsQuote("#")
  {
    EscapeFromPlain('\0', "#");
  }

  lemma ReadBraces(st: Style, s: Lx, stmt: Stmt, padding: int, depth: nat)
    requires Idle(s) && s.custom == st.custom && Sayable(st, stmt) && !IsRemark(stmt)
    requires stmt.body.Braces? && Separate(stmt.body.stmts) && Enquoted(st, stmt.directive) != "#"
    ensures Reads(st, s, StmtText(st, stmt, padding, depth), Strip(s.tokens) + StmtWords(stmt), false)
    decreases stmt, 0
  {
    var inner, head := stmt.body.stmts, HeadText(st, stmt) + " {";
    var before := Strip(s.tokens) + (PrintedAll([stmt.directive] + stmt.args) + [OPEN_BRACE]);
    ReadHead(st, s, stmt);
    ReadBlock(st, s, head, inner, padding, depth + 1, stmt.line, before);
    var text := BlockText(st, head, inner, padding, depth + 1, stmt.line);
    CloseBlock(st, s, text, before + BlockWords(inner), padding * depth);
    AssocText(text, Spaces(padding * depth));
    AssocWords(Strip(s.tokens), PrintedAll([stmt.directive] + stmt.args), BlockWords(inner));
  }

  lemma AssocText(text: string, margin: string)
    ensures text + (("\n" + margin) + "}") == text + "\n" + margin + "}"
  {
  }

  lemma AssocWords(ws: seq<Word>, head: seq<Word>, inner: seq<Word>)
    ensures ws + (head + [OPEN_BRACE]) + inner + [CLOSE_BRACE] == ws + (head + [OPEN_BRACE] + inner + [CLOSE_BRACE])
  {
  }

  lemma CloseBlock(st: Style, s: Lx, text: string, ws: seq<Word>, n: int)
    requires Settled(Run(s, text), ws) && Run(s, text).custom == s.custom
    ensures Reads(st, s, text + (("\n" + Spaces(n)) + "}"), ws + [CLOSE_BRACE], false)
  {
    var t, m := Run(s, text), "\n" + Spaces(n);
    RunAppend(s, text, m + "}");
    NewlineAndMargin(t, ws, n);
    RunAppend(t, m, "}");
    RunOne(Run(t, m), '}');
    IdlePunct(Run(t, m), '}');
  }

  /** Printing a block behind `output` adds its words to those of `output`. */
  lemma ReadBlock(st: Style, s: Lx, output: string, block: seq<Stmt>, padding: int, depth: nat,
                  lastLine: int, ws: seq<Word>)
    requires Settled(Run(s, output), ws) && Run(s, output).custom == st.custom && s.custom == st.custom
    requires AllSayable(st, block) && Separate(block)
    requires output == "" ==> Idle(s)
    requires Run(s, output).mode.Comment? && block != [] ==> !(IsRemark(block[0]) && block[0].line == lastLine)
    ensures Reads(st, s, BlockText(st, output, block, padding, depth, lastLine), ws + BlockWords(block),
                  if block == [] then Run(s, output).mode.Comment? else EndsInRemark(block))
    decreases block
  {
    if block == [] {
      assert ws + BlockWords(block) == ws;
    } else {
      var stmt := block[0];
      var next := NextOutput(st, output, stmt, padding, depth, lastLine);
      ReadNext(st, s, output, block, padding, depth, lastLine, ws);
      BareHash();
      assert block[1..] != [] ==> block[1] == block[1..][0];
      assert Separate(block[1..]);
      ReadBlock(st, s, next, block[1..], padding, depth, stmt.line, ws + StmtWords(stmt));
      Assoc(ws, StmtWords(stmt), BlockWords(block[1..]));
    }
  }

  /** The output after one more statement. */
  function NextOutput(st: Style, output: string, stmt: Stmt, padding: int, depth: nat, lastLine: int): string {
    if Enquoted(st, stmt.directive) == "#" && stmt.line == lastLine then output + " #" + stmt.comment
    else output + (if output != "" then "\n" else "") + Spaces(padding * depth) + StmtText(st, stmt, padding, depth)
  }

  lemma ReadNext(st: Style, s: Lx, output: string, block: seq<Stmt>, padding: int, depth: nat,
                 lastLine: int, ws: seq<Word>)
    requires block != [] && Settled(Run(s, output), ws) && Run(s, output).custom == st.custom
    requires s.custom == st.custom && AllSayable(st, block) && Separate(block)
    requires output == "" ==> Idle(s)
    requires Run(s, output).mode.Comment? ==> !(IsRemark(block[0]) && block[0].line == lastLine)
    ensures Reads(st, s, NextOutput(st, output, block[0], padding, depth, lastLine),
                  ws + StmtWords(block[0]), IsRemark(block[0]))
    decreases block, 0
  {
    var stmt, t := block[0], Run(s, output);
    EnquotedIsHash(st, stmt);
    if IsRemark(stmt) && stmt.line == lastLine {
      ReadRemark(t, stmt.comment);
      assert output + " #" + stmt.comment == output + (" #" + stmt.comment);
      RunAppend(s, output, " #" + stmt.comment);
    } else {
      var before := output + (if output != "" then "\n" else "") + Spaces(padding * depth);
      var text := StmtText(st, stmt, padding, depth);
      Indent(s, output, ws, padding * depth);
      ReadStmt(st, Run(s, before), stmt, padding, depth);
      RunAppend(s, before, text);
    }
  }

  /** A fresh line, indented; at the very start of the output there is no newline. */
  lemma Indent(s: Lx, output: string, ws: seq<Word>, n: int)
    requires Settled(Run(s, output), ws) && (output == "" ==> Idle(s))
    ensures var t := Run(s, output + (if output != "" then "\n" else "") + Spaces(n));
      Idle(t) && Strip(t.tokens) == ws && t.custom == Run(s, output).custom
  {
    if output != "" {
      Assoc(output, "\n", Spaces(n));
      RunAppend(s, output, "\n" + Spaces(n));
      NewlineAndMargin(Run(s, output), ws, n);
    } else {
      assert output + "" + Spaces(n) == Spaces(n);
      ReadSpaces(s, n);
    }
  }

  lemma EnquotedIsHash(st: Style, stmt: Stmt)
    ensures Enquoted(st, stmt.directive) == "#" <==> IsRemark(stmt)
  {
    BareHash();
    if !IsRemark(stmt) {
      EnquotedIs(st, stmt.directive, "#");
    }
  }
}
