/** The lines of a printed configuration, and formatting it again. */
module PrintedLayout {
  import opened Text
  import opened ConfigLex
  import opened ConfigTree
  import opened ConfigBuild
  import opened ConfigParse
  import opened WordRoundTrip
  import opened PrintedTree
  import opened FormatRoundTrip

  // ---- The line of the next token ----

  lemma FeedLines(s: Lx, c: char)
    requires s.line <= s.at
    ensures Feed(s, c).at == s.at + (if c == '\n' then 1 else 0) && Feed(s, c).line <= Feed(s, c).at
  {
  }

  /** The line reached counts the newlines read. */
  lemma {:induction false} RunLines(s: Lx, text: string)
    requires s.line <= s.at
    ensures Run(s, text).at == s.at + Newlines(text) && Run(s, text).line <= Run(s, text).at
    decreases |text|
  {
    if text != "" {
      FeedLines(s, text[0]);
      RunLines(Feed(s, text[0]), text[1..]);
    }
  }

  /** Token `n` is emitted with the given line, or is pending and will be. */
  predicate Due(s: Lx, n: nat, line: nat) {
    if |s.tokens| > n then s.tokens[n].line == line
    else
      && |s.tokens| == n
      && match s.mode
         case Comment(from) => from == line
         case Quote(_) => s.line == line
         case QuoteEscape(_) => s.line == line
         case Lua => false
         case Skip => false
         case _ => s.token != "" && s.line == line
  }

  lemma DueStep(s: Lx, c: char, n: nat, line: nat)
    requires Due(s, n, line)
    ensures Due(Feed(s, c), n, line)
  {
    if |s.tokens| > n {
      TokensGrow(s, c);
      assert Feed(s, c).tokens[n] == s.tokens[n];
    } else {
      PendingStep(s, c, n, line);
    }
  }

  lemma PendingStep(s: Lx, c: char, n: nat, line: nat)
    requires Due(s, n, line) && |s.tokens| == n
    ensures Due(Feed(s, c), n, line)
  {
  }

  lemma {:induction false} DueRun(s: Lx, text: string, n: nat, line: nat)
    requires Due(s, n, line)
    ensures Due(Run(s, text), n, line)
    decreases |text|
  {
    if text != "" {
      DueStep(s, text[0], n, line);
      DueRun(Feed(s, text[0]), text[1..], n, line);
    }
  }

  lemma DueFirst(s: Lx, c: char)
    requires Idle(s) && !IsSpace(c) && !IsPunct(c)
    ensures Due(Feed(s, c), |s.tokens|, if c == '\\' then s.line else s.at)
  {
  }

  /** The next token of a text that begins with a word. */
  lemma WordLine(s: Lx, text: string)
    requires Idle(s) && text != "" && !IsSpace(text[0]) && !IsPunct(text[0])
    ensures Due(Run(s, text), |s.tokens|, if text[0] == '\\' then s.line else s.at)
  {
    DueFirst(s, text[0]);
    assert text == [text[0]] + text[1..];
    RunCons(s, text[0], text[1..]);
    DueRun(Feed(s, text[0]), text[1..], |s.tokens|, if text[0] == '\\' then s.line else s.at);
  }

  lemma SpaceKeeps(s: Lx, c: char)
    requires Idle(s) && IsSpace(c)
    ensures Idle(Feed(s, c)) && Feed(s, c).tokens == s.tokens && Feed(s, c).line == s.line
    ensures Feed(s, c).at == s.at + if c == '\n' then 1 else 0
  {
  }

  /** The next token of a printed comment. */
  lemma RemarkLine(s: Lx, comment: string, rest: string)
    requires Idle(s)
    ensures Due(Run(s, " #" + comment + rest), |s.tokens|, s.at)
  {
    assert " #" + comment + rest == [' '] + ("#" + comment + rest);
    RunCons(s, ' ', "#" + comment + rest);
    SpaceKeeps(s, ' ');
    WordLine(Feed(s, ' '), "#" + comment + rest);
  }

  lemma {:induction false} SpacesKeep(s: Lx, n: int)
    requires Idle(s)
    ensures var t := Run(s, Spaces(n)); Idle(t) && t.line == s.line && t.at == s.at
    decreases n
  {
    if n > 0 {
      SpacesKeep(s, n - 1);
      RunAppend(s, Spaces(n - 1), " ");
      RunOne(Run(s, Spaces(n - 1)), ' ');
      SpaceKeeps(Run(s, Spaces(n - 1)), ' ');
    }
  }

  lemma NewlineKeeps(s: Lx, ws: seq<Word>)
    requires Settled(s, ws)
    ensures Feed(s, '\n').line == s.line && Feed(s, '\n').at == s.at + 1
  {
  }

  /** A fresh line, indented: it is one further, and no token has begun on it. */
  lemma FreshLine(s: Lx, output: string, ws: seq<Word>, n: int)
    requires Settled(Run(s, output), ws) && (output == "" ==> Idle(s))
    ensures var t, u := Run(s, output), Run(s, output + (if output != "" then "\n" else "") + Spaces(n));
      && Idle(u) && Strip(u.tokens) == ws && u.custom == t.custom && u.line == t.line
      && u.at == t.at + if output != "" then 1 else 0
  {
    Indent(s, output, ws, n);
    if output != "" {
      var t := Run(s, output);
      Assoc(output, "\n", Spaces(n));
      RunAppend(s, output, "\n" + Spaces(n));
      RunCons(t, '\n', Spaces(n));
      NewlineKeeps(t, ws);
      Newline(t, ws);
      SpacesKeep(Feed(t, '\n'), n);
    } else {
      assert output + "" + Spaces(n) == Spaces(n);
      SpacesKeep(s, n);
    }
  }

  // ---- One line for the head of a statement ----

  /** The source records the line of a statement, unless it begins with a bare backslash. */
  predicate Anchored(stmt: Stmt) { NeedsQuote(stmt.directive) || stmt.directive[0] != '\\' }

  lemma {:induction false} HexOneLine(n: nat, k: nat)
    ensures '\n' !in HexDigits(n, k)
  {
    if k != 0 {
      HexOneLine(n / 16, k - 1);
      assert "0123456789abcdef"[n % 16] != '\n';
    }
  }

  lemma QuoteRuneOneLine(st: Style, c: char)
    requires !st.isPrint('\n')
    ensures '\n' !in QuoteRune(st, c)
  {
    HexOneLine(c as int, 2);
    HexOneLine(c as int, 4);
    HexOneLine(c as int, 8);
  }

  lemma {:induction false} QuoteRunesOneLine(st: Style, w: string)
    requires !st.isPrint('\n')
    ensures '\n' !in QuoteRunes(st, w)
    decreases |w|
  {
    if w != "" {
      QuoteRuneOneLine(st, w[0]);
      QuoteRunesOneLine(st, w[1..]);
    }
  }

  lemma EnquotedOneLine(st: Style, w: string)
    requires !st.isPrint('\n')
    ensures '\n' !in Enquoted(st, w)
  {
    if NeedsQuote(w) {
      QuoteRunesOneLine(st, Squeezed(w));
    } else {
      BareWhenUnquoted(w);
      assert forall i :: 0 <= i < |w| ==> !Special(w[i]);
    }
  }

  lemma {:induction false} JoinOneLine(st: Style, args: seq<string>)
    requires !st.isPrint('\n')
    ensures '\n' !in Join(EnquotedAll(st, args))
    decreases |args|
  {
    if args != [] {
      EnquotedOneLine(st, args[0]);
      JoinOneLine(st, args[1..]);
      assert EnquotedAll(st, args)[1..] == EnquotedAll(st, args[1..]);
    }
  }

  lemma HeadOneLine(st: Style, stmt: Stmt)
    requires !st.isPrint('\n') && Sayable(st, stmt) && !IsRemark(stmt)
    ensures Newlines(HeadText(st, stmt)) == 0
    ensures var h := HeadText(st, stmt);
      h != "" && !IsSpace(h[0]) && !IsPunct(h[0]) && (h[0] == '\\' <==> !Anchored(stmt))
  {
    var d := Enquoted(st, stmt.directive);
    HeadIsJoin(st, stmt);
    JoinOneLine(st, [stmt.directive] + stmt.args);
    NoNewlines(HeadText(st, stmt));
    if !NeedsQuote(stmt.directive) {
      BareWhenUnquoted(stmt.directive);
      assert !Special(d[0]);
    }
    assert d != "" && HeadText(st, stmt)[0] == d[0] by { HeadStarts(st, stmt); }
  }

  lemma HeadStarts(st: Style, stmt: Stmt)
    requires Sayable(st, stmt) && !IsRemark(stmt)
    ensures Enquoted(st, stmt.directive) != "" && Enquoted(st, stmt.directive) <= HeadText(st, stmt)
  {
    EnquotedIs(st, stmt.directive, "if");
    if !NeedsQuote(stmt.directive) {
      BareWhenUnquoted(stmt.directive);
    }
  }

  // ---- Where a printed statement stands ----

  /** What is printed behind `output` for a block. */
  lemma {:induction false} TextTail(st: Style, output: string, block: seq<Stmt>, padding: int, depth: nat, last: int)
    returns (more: string)
    ensures BlockText(st, output, block, padding, depth, last) == output + more
    decreases block
  {
    more := "";
    if block != [] {
      EnquotedIsHash(st, block[0]);
      var next := NextOutput(st, output, block[0], padding, depth, last);
      var tail := TextTail(st, next, block[1..], padding, depth, block[0].line);
      assert output <= next;
      more := next[|output|..] + tail;
      assert next == output + next[|output|..];
      Assoc(output, next[|output|..], tail);
    }
  }

  /** A comment behind the output, on its line. */
  lemma InlineStands(s: Lx, output: string, comment: string, ws: seq<Word>, rest: string)
    requires Idle(Run(s, output)) && Strip(Run(s, output).tokens) == ws && s.line <= s.at && '\n' !in comment
    ensures Due(Run(s, output + " #" + comment + rest), |ws|, Run(s, output).at)
    ensures Run(s, output + " #" + comment).at == Run(s, output).at
  {
    var t := Run(s, output);
    assert output + " #" + comment + rest == output + (" #" + comment + rest);
    assert output + " #" + comment == output + (" #" + comment);
    RunAppend(s, output, " #" + comment + rest);
    RunAppend(s, output, " #" + comment);
    RemarkLine(t, comment, rest);
    RunLines(s, output);
    RunLines(t, " #" + comment);
    NoNewlines(" #" + comment);
  }

  /** A statement on a fresh line: the line it is recorded with, and the line it ends on. */
  lemma StmtStands(st: Style, u: Lx, stmt: Stmt, padding: int, depth: nat, rest: string) returns (line: nat)
    requires Idle(u) && u.line < u.at && Sayable(st, stmt) && !st.isPrint('\n')
    ensures Due(Run(u, StmtText(st, stmt, padding, depth) + rest), |u.tokens|, line)
    ensures line <= u.at && (line == u.at <==> IsRemark(stmt) || Anchored(stmt))
    ensures var after := Run(u, StmtText(st, stmt, padding, depth)).at;
      if stmt.body.Braces? then after > u.at else after == u.at
  {
    var text := StmtText(st, stmt, padding, depth);
    EnquotedIsHash(st, stmt);
    RunLines(u, text);
    if IsRemark(stmt) {
      line := u.at;
      assert text == " #" + stmt.comment;
      RemarkLine(u, stmt.comment, rest);
      NoNewlines(text);
    } else {
      var h := HeadText(st, stmt);
      HeadOneLine(st, stmt);
      line := if h[0] == '\\' then u.line else u.at;
      StmtTextIs(st, stmt, padding, depth);
      WordLine(u, text + rest);
    }
  }

  lemma StmtTextIs(st: Style, stmt: Stmt, padding: int, depth: nat)
    requires Sayable(st, stmt) && !IsRemark(stmt) && !st.isPrint('\n')
    ensures HeadText(st, stmt) <= StmtText(st, stmt, padding, depth)
    ensures Newlines(StmtText(st, stmt, padding, depth)) > 0 <==> stmt.body.Braces?
  {
    var h := HeadText(st, stmt);
    EnquotedIsHash(st, stmt);
    HeadOneLine(st, stmt);
    if stmt.body.NoBlock? {
      NewlinesAppend(h, ";");
      NoNewlines(";");
    } else {
      var more := TextTail(st, h + " {", stmt.body.stmts, padding, depth + 1, stmt.line);
      var text, close := h + " {" + more, "\n" + Spaces(padding * depth) + "}";
      assert StmtText(st, stmt, padding, depth) == text + close;
      NewlinesAppend(text, close);
      assert h <= text + close;
    }
  }

  // ---- A block against itself with the lines of its text ----

  /** A comment may follow `stmt` on its line and be read on that line. */
  predicate Holds(stmt: Stmt) { IsRemark(stmt) || (stmt.body.NoBlock? && Anchored(stmt)) }

  /**
    * `b` is `a` with the lines of its printed text. A comment is on its predecessor's line there if
    * and only if it was in `a` and the predecessor, `steady`, was read with the line it ends on. At
    * the very beginning of a text, `first`, nothing comes before.
    */
  predicate Relined(a: seq<Stmt>, b: seq<Stmt>, la: int, lb: int, steady: bool, first: bool)
    decreases a
  {
    && |a| == |b|
    && (a != [] ==>
          && (IsRemark(a[0]) && !first ==> (b[0].line == lb <==> a[0].line == la && steady))
          && (a[0].body.Braces? ==>
                b[0].body.Braces?
                && Relined(a[0].body.stmts, b[0].body.stmts, a[0].line, b[0].line, Anchored(a[0]), false))
          && Relined(a[1..], b[1..], a[0].line, b[0].line, Holds(a[0]), false))
  }

  /** The printer has got as far as `output`, all words of which are read. */
  ghost predicate Midway(st: Style, s: Lx, output: string, block: seq<Stmt>, lastLine: int, ws: seq<Word>) {
    && Settled(Run(s, output), ws) && Run(s, output).custom == st.custom && s.custom == st.custom
    && AllSayable(st, block) && Separate(block) && s.line <= s.at
    && (output == "" ==> Idle(s) && s.line < s.at)
    && (Run(s, output).mode.Comment? && block != [] ==> !(IsRemark(block[0]) && block[0].line == lastLine))
  }

  /** The line reached by the output, and whether the statement before was recorded with it. */
  predicate At(t: Lx, output: string, lb: int, steady: bool) {
    output != "" ==> lb <= t.at && (lb == t.at <==> steady)
  }

  lemma MidwayNext(st: Style, s: Lx, output: string, block: seq<Stmt>, padding: int, depth: nat, lastLine: int,
                   ws: seq<Word>, next: string)
    requires block != [] && Midway(st, s, output, block, lastLine, ws)
    requires next == NextOutput(st, output, block[0], padding, depth, lastLine)
    ensures next != "" && Midway(st, s, next, block[1..], block[0].line, ws + StmtWords(block[0]))
    ensures BlockText(st, output, block, padding, depth, lastLine)
         == BlockText(st, next, block[1..], padding, depth, block[0].line)
  {
    var stmt := block[0];
    EnquotedIsHash(st, stmt);
    ReadNext(st, s, output, block, padding, depth, lastLine, ws);
    assert block[1..] != [] ==> block[1] == block[1..][0];
    NextNotEmpty(st, output, stmt, padding, depth, lastLine);
  }

  lemma NextNotEmpty(st: Style, output: string, stmt: Stmt, padding: int, depth: nat, lastLine: int)
    requires Sayable(st, stmt)
    ensures NextOutput(st, output, stmt, padding, depth, lastLine) != ""
  {
    EnquotedIsHash(st, stmt);
    if !IsRemark(stmt) {
      HeadStarts(st, stmt);
      if stmt.body.Braces? {
        var more := TextTail(st, HeadText(st, stmt) + " {", stmt.body.stmts, padding, depth + 1, stmt.line);
      }
      assert StmtText(st, stmt, padding, depth) != "";
    }
  }

  /** The line the next statement is recorded with, and the line it ends on. */
  lemma NextLine(st: Style, s: Lx, output: string, block: seq<Stmt>, padding: int, depth: nat, lastLine: int,
                 ws: seq<Word>, next: string, rest: string) returns (line: nat)
    requires block != [] && Midway(st, s, output, block, lastLine, ws) && !st.isPrint('\n')
    requires next == NextOutput(st, output, block[0], padding, depth, lastLine)
    ensures Due(Run(s, next + rest), |ws|, line)
    ensures var inline := IsRemark(block[0]) && block[0].line == lastLine;
      var base := Run(s, output).at + if inline || output == "" then 0 else 1;
      && line <= base && (line == base <==> IsRemark(block[0]) || Anchored(block[0]))
      && (if block[0].body.Braces? then Run(s, next).at > base else Run(s, next).at == base)
  {
    var stmt, t := block[0], Run(s, output);
    assert Sayable(st, stmt);
    EnquotedIsHash(st, stmt);
    if IsRemark(stmt) && stmt.line == lastLine {
      InlineStands(s, output, stmt.comment, ws, rest);
      line := t.at;
    } else {
      var before := output + (if output != "" then "\n" else "") + Spaces(padding * depth);
      var text, u := StmtText(st, stmt, padding, depth), Run(s, before);
      FreshLine(s, output, ws, padding * depth);
      RunLines(s, output);
      line := StmtStands(st, u, stmt, padding, depth, rest);
      assert next == before + text;
      Assoc(before, text, rest);
      RunAppend(s, before, text + rest);
      RunAppend(s, before, text);
    }
  }

  lemma RelinedCons(a: seq<Stmt>, b: seq<Stmt>, la: int, lb: int, steady: bool, first: bool)
    requires a != [] && |a| == |b|
    requires IsRemark(a[0]) && !first ==> (b[0].line == lb <==> a[0].line == la && steady)
    requires a[0].body.Braces? ==>
      b[0].body.Braces? && Relined(a[0].body.stmts, b[0].body.stmts, a[0].line, b[0].line, Anchored(a[0]), false)
    requires Relined(a[1..], b[1..], a[0].line, b[0].line, Holds(a[0]), false)
    ensures Relined(a, b, la, lb, steady, first)
  {
  }

  /** One statement of the block: the line of its first token, and where the output stands then. */
  lemma StepLaidOut(st: Style, s: Lx, output: string, block: seq<Stmt>, padding: int, depth: nat, lastLine: int,
                    ws: seq<Word>, i: nat, rest: string, all: seq<Token>)
    returns (next: string, more: string, line: nat)
    requires Midway(st, s, output, block, lastLine, ws) && !st.isPrint('\n') && i == |ws| && block != []
    requires all == Run(s, BlockText(st, output, block, padding, depth, lastLine) + rest).tokens
    requires i + |BlockWords(block)| <= |all|
    ensures next == NextOutput(st, output, block[0], padding, depth, lastLine) && next != ""
    ensures Midway(st, s, next, block[1..], block[0].line, ws + StmtWords(block[0]))
    ensures all == Run(s, BlockText(st, next, block[1..], padding, depth, block[0].line) + rest).tokens
    ensures all == Run(s, next + (more + rest)).tokens && i < |all| && all[i].line == line
    ensures At(Run(s, next), next, line, Holds(block[0])) && (block[0].body.Braces? ==> !IsRemark(block[0]))
    ensures var inline := IsRemark(block[0]) && block[0].line == lastLine;
      var base := Run(s, output).at + if inline || output == "" then 0 else 1;
      line <= base && (line == base <==> IsRemark(block[0]) || Anchored(block[0]))
  {
    var stmt := block[0];
    next := NextOutput(st, output, stmt, padding, depth, lastLine);
    MidwayNext(st, s, output, block, padding, depth, lastLine, ws, next);
    more := TextTail(st, next, block[1..], padding, depth, stmt.line);
    Assoc(next, more, rest);
    line := NextLine(st, s, output, block, padding, depth, lastLine, ws, next, more + rest);
    assert Sayable(st, stmt) && |StmtWords(stmt)| > 0;
  }

  /** `b`, the block as read from the tokens, has the lines of the printed text. */
  lemma LaidOut(st: Style, s: Lx, output: string, block: seq<Stmt>, padding: int, depth: nat, lastLine: int,
                ws: seq<Word>, i: nat, b: seq<Stmt>, rest: string, all: seq<Token>, lb: int, steady: bool)
    requires Midway(st, s, output, block, lastLine, ws) && !st.isPrint('\n') && i == |ws|
    requires all == Run(s, BlockText(st, output, block, padding, depth, lastLine) + rest).tokens
    requires i + |BlockWords(block)| <= |all| && At(Run(s, output), output, lb, steady) && b == Lined(all, i, block)
    ensures Relined(block, b, lastLine, lb, steady, output == "")
    decreases block
  {
    if block != [] {
      var stmt, j := block[0], i + |StmtWords(block[0])|;
      var next, more, line := StepLaidOut(st, s, output, block, padding, depth, lastLine, ws, i, rest, all);
      LinedParts(all, i, j, block);
      LaidOut(st, s, next, block[1..], padding, depth, stmt.line, ws + StmtWords(stmt), j, b[1..], rest, all,
              line, Holds(stmt));
      if stmt.body.Braces? {
        var k := i + 2 + |stmt.args|;
        LinedBody(all, i, k, stmt);
        BodyLaidOut(st, s, output, block, padding, depth, lastLine, ws, i, k, b[0].body.stmts, more + rest, all, line);
      }
      RelinedCons(block, b, lastLine, lb, steady, output == "");
    }
  }

  lemma BodyLaidOut(st: Style, s: Lx, output: string, block: seq<Stmt>, padding: int, depth: nat, lastLine: int,
                    ws: seq<Word>, i: nat, k: nat, b: seq<Stmt>, rest: string, all: seq<Token>, line: int)
    requires block != [] && Midway(st, s, output, block, lastLine, ws) && !st.isPrint('\n') && i == |ws|
    requires all == Run(s, NextOutput(st, output, block[0], padding, depth, lastLine) + rest).tokens
    requires i + |StmtWords(block[0])| <= |all| && block[0].body.Braces?
    requires k == i + 2 + |block[0].args| && b == Lined(all, k, block[0].body.stmts)
    requires var base := Run(s, output).at + if output == "" then 0 else 1;
      line <= base && (line == base <==> IsRemark(block[0]) || Anchored(block[0]))
    ensures Relined(block[0].body.stmts, b, block[0].line, line, Anchored(block[0]), false)
    decreases block, 0
  {
    var stmt := block[0];
    assert Sayable(st, stmt) && Separate(stmt.body.stmts);
    EnquotedIsHash(st, stmt);
    var before := output + (if output != "" then "\n" else "") + Spaces(padding * depth);
    FreshLine(s, output, ws, padding * depth);
    RunLines(s, before);
    BracesLaidOut(st, s, before, stmt, padding, depth, ws, i, k, b, rest, all, line);
  }

  lemma BracesLaidOut(st: Style, s: Lx, before: string, stmt: Stmt, padding: int, depth: nat, ws: seq<Word>, i: nat,
                      k: nat, b: seq<Stmt>, rest: string, all: seq<Token>, line: int)
    requires var u := Run(s, before);
      && Idle(u) && Strip(u.tokens) == ws && u.custom == st.custom && u.line <= u.at
      && line <= u.at && (line == u.at <==> Anchored(stmt))
    requires Sayable(st, stmt) && !IsRemark(stmt) && stmt.body.Braces? && Separate(stmt.body.stmts)
    requires !st.isPrint('\n') && i == |ws| && all == Run(s, before + StmtText(st, stmt, padding, depth) + rest).tokens
    requires i + |StmtWords(stmt)| <= |all|
    requires k == i + 2 + |stmt.args| && b == Lined(all, k, stmt.body.stmts)
    ensures Relined(stmt.body.stmts, b, stmt.line, line, Anchored(stmt), false)
    decreases stmt, 1
  {
    var head, inner, u := HeadText(st, stmt) + " {", stmt.body.stmts, Run(s, before);
    EnquotedIsHash(st, stmt);
    ReadHead(st, u, stmt);
    HeadLine(st, u, stmt);
    var words := ws + (PrintedAll([stmt.directive] + stmt.args) + [OPEN_BRACE]);
    var close := "\n" + Spaces(padding * depth) + "}";
    var text := BlockText(st, head, inner, padding, depth + 1, stmt.line);
    StmtWordsSplit(stmt);
    assert text + close == StmtText(st, stmt, padding, depth);
    SameTokens(s, before, text, close, rest, all);
    LaidOut(st, u, head, inner, padding, depth + 1, stmt.line, words, k, b, close + rest, all, line, Anchored(stmt));
  }

  lemma SameTokens(s: Lx, before: string, text: string, close: string, rest: string, all: seq<Token>)
    requires all == Run(s, before + (text + close) + rest).tokens
    ensures all == Run(Run(s, before), text + (close + rest)).tokens
  {
    assert before + (text + close) + rest == before + (text + (close + rest));
    RunAppend(s, before, text + (close + rest));
  }

  lemma HeadLine(st: Style, u: Lx, stmt: Stmt)
    requires u.line <= u.at && Sayable(st, stmt) && !IsRemark(stmt) && !st.isPrint('\n')
    ensures Run(u, HeadText(st, stmt) + " {").at == u.at
  {
    HeadOneLine(st, stmt);
    RunLines(u, HeadText(st, stmt) + " {");
    NewlinesAppend(HeadText(st, stmt), " {");
    NoNewlines(" {");
  }

  // ---- Printing the block with its new lines ----

  /**
    * No comment shares the line of a statement with a block right before it, nor of a statement
    * that begins with a bare backslash; `last` is the line before, `steady` and `first` as above.
    */
  predicate SteadyFrom(block: seq<Stmt>, last: int, steady: bool, first: bool)
    decreases block
  {
    block != [] ==>
      && (IsRemark(block[0]) && block[0].line == last && !first ==> steady)
      && (block[0].body.Braces? ==> SteadyFrom(block[0].body.stmts, block[0].line, Anchored(block[0]), false))
      && SteadyFrom(block[1..], block[0].line, Holds(block[0]), false)
  }

  predicate Steady(block: seq<Stmt>) { SteadyFrom(block, 0, false, true) }

  /** A steady block prints as before. */
  lemma {:induction false} RelinedSame(st: Style, out: string, a: seq<Stmt>, b: seq<Stmt>, padding: int, depth: nat,
                                       la: int, lb: int, steady: bool, first: bool)
    requires Relined(a, b, la, lb, steady, first) && Erased(a) == Erased(b) && SteadyFrom(a, la, steady, first)
    requires first ==> out == "" && depth == 0
    ensures BlockText(st, out, a, padding, depth, la) == BlockText(st, out, b, padding, depth, lb)
    decreases a
  {
    if a != [] {
      ErasedParts(a, b);
      EnquotedIsHash(st, a[0]);
      EnquotedIsHash(st, b[0]);
      if a[0].body.Braces? {
        RelinedSame(st, HeadText(st, a[0]) + " {", a[0].body.stmts, b[0].body.stmts, padding, depth + 1,
                    a[0].line, b[0].line, Anchored(a[0]), false);
      }
      StmtSame(st, a[0], b[0], padding, depth);
      var next := NextOutput(st, out, a[0], padding, depth, la);
      if first {
        FirstOutput(st, a[0], padding, la);
        FirstOutput(st, b[0], padding, lb);
      }
      assert next == NextOutput(st, out, b[0], padding, depth, lb);
      RelinedSame(st, next, a[1..], b[1..], padding, depth, a[0].line, b[0].line, Holds(a[0]), false);
    }
  }

  /** The text of a statement is told by its head and its block's text. */
  lemma StmtSame(st: Style, a: Stmt, b: Stmt, padding: int, depth: nat)
    requires a.directive == b.directive && a.args == b.args && a.comment == b.comment
    requires a.body.Braces? == b.body.Braces?
    requires a.body.Braces? ==>
      BlockText(st, HeadText(st, a) + " {", a.body.stmts, padding, depth + 1, a.line)
      == BlockText(st, HeadText(st, a) + " {", b.body.stmts, padding, depth + 1, b.line)
    ensures StmtText(st, a, padding, depth) == StmtText(st, b, padding, depth)
  {
    assert HeadText(st, a) == HeadText(st, b) && LuaText(a) == LuaText(b);
  }

  /** At the very beginning it does not matter whether a comment is inline. */
  lemma FirstOutput(st: Style, stmt: Stmt, padding: int, last: int)
    ensures NextOutput(st, "", stmt, padding, 0, last) == StmtText(st, stmt, padding, 0)
  {
    EnquotedIsHash(st, stmt);
    assert padding * 0 == 0 && Spaces(padding * 0) == "";
    assert "" + "" + "" + StmtText(st, stmt, padding, 0) == StmtText(st, stmt, padding, 0);
    assert "" + " #" + stmt.comment == " #" + stmt.comment;
  }

  lemma {:induction false} SpacesOneLine(n: int)
    ensures Newlines(Spaces(n)) == 0
    decreases n
  {
    if n > 0 {
      SpacesOneLine(n - 1);
      NewlinesAppend(Spaces(n - 1), " ");
      NoNewlines(" ");
    }
  }

  /** How many newlines a statement adds. */
  lemma NextNewlines(st: Style, out: string, stmt: Stmt, padding: int, depth: nat, last: int)
    ensures Newlines(NextOutput(st, out, stmt, padding, depth, last))
         == Newlines(out) + Newlines(StmtText(st, stmt, padding, depth))
            + if out == "" || (IsRemark(stmt) && stmt.line == last) then 0 else 1
  {
    var text := StmtText(st, stmt, padding, depth);
    EnquotedIsHash(st, stmt);
    if IsRemark(stmt) && stmt.line == last {
      assert out + " #" + stmt.comment == out + text;
      NewlinesAppend(out, text);
    } else {
      var nl := if out != "" then "\n" else "";
      NewlinesAppend(out, nl);
      NewlinesAppend(out + nl, Spaces(padding * depth));
      SpacesOneLine(padding * depth);
      NewlinesAppend(out + nl + Spaces(padding * depth), text);
      assert Newlines("\n") == 1 by { assert "\n"[1..] == ""; }
    }
  }

  /** Any other block prints with more lines than before. */
  lemma {:induction false} RelinedTaller(st: Style, oa: string, ob: string, a: seq<Stmt>, b: seq<Stmt>, padding: int,
                                         depth: nat, la: int, lb: int, steady: bool, first: bool)
    requires Relined(a, b, la, lb, steady, first) && Erased(a) == Erased(b) && AllSayable(st, a)
    requires (oa == "" <==> first) && (ob == "" <==> first)
    ensures Newlines(BlockText(st, ob, b, padding, depth, lb)) + Newlines(oa)
         >= Newlines(BlockText(st, oa, a, padding, depth, la)) + Newlines(ob)
            + if SteadyFrom(a, la, steady, first) then 0 else 1
    decreases a
  {
    if a != [] {
      ErasedParts(a, b);
      EnquotedIsHash(st, a[0]);
      EnquotedIsHash(st, b[0]);
      var na, nb := NextOutput(st, oa, a[0], padding, depth, la), NextOutput(st, ob, b[0], padding, depth, lb);
      NextNewlines(st, oa, a[0], padding, depth, la);
      NextNewlines(st, ob, b[0], padding, depth, lb);
      StmtTaller(st, a[0], b[0], padding, depth);
      NextNotEmpty(st, oa, a[0], padding, depth, la);
      assert nb != "" by { NextSameEmpty(st, ob, a[0], b[0], padding, depth, lb); }
      RelinedTaller(st, na, nb, a[1..], b[1..], padding, depth, a[0].line, b[0].line, Holds(a[0]), false);
    }
  }

  lemma NextSameEmpty(st: Style, out: string, a: Stmt, b: Stmt, padding: int, depth: nat, last: int)
    requires Sayable(st, a) && a.directive == b.directive && a.args == b.args && a.body.Braces? == b.body.Braces?
    ensures NextOutput(st, out, b, padding, depth, last) != ""
  {
    EnquotedIsHash(st, b);
    if !IsRemark(b) {
      HeadStarts(st, a);
      assert HeadText(st, a) == HeadText(st, b);
      if b.body.Braces? {
        var more := TextTail(st, HeadText(st, b) + " {", b.body.stmts, padding, depth + 1, b.line);
      }
      assert StmtText(st, b, padding, depth) != "";
    }
  }

  lemma StmtTaller(st: Style, a: Stmt, b: Stmt, padding: int, depth: nat)
    requires Sayable(st, a) && a.directive == b.directive && a.args == b.args && a.comment == b.comment
    requires a.body.Braces? == b.body.Braces?
    requires a.body.Braces? ==>
      && Relined(a.body.stmts, b.body.stmts, a.line, b.line, Anchored(a), false)
      && Erased(a.body.stmts) == Erased(b.body.stmts)
    ensures Newlines(StmtText(st, b, padding, depth)) >= Newlines(StmtText(st, a, padding, depth))
      + if a.body.Braces? && !SteadyFrom(a.body.stmts, a.line, Anchored(a), false) then 1 else 0
    decreases a
  {
    EnquotedIsHash(st, a);
    EnquotedIsHash(st, b);
    if a.body.Braces? {
      assert AllSayable(st, a.body.stmts) && HeadText(st, a) == HeadText(st, b);
      var head, close := HeadText(st, a) + " {", "\n" + Spaces(padding * depth) + "}";
      RelinedTaller(st, head, head, a.body.stmts, b.body.stmts, padding, depth + 1, a.line, b.line, Anchored(a), false);
      BracesNewlines(st, a, padding, depth, close);
      BracesNewlines(st, b, padding, depth, close);
    }
  }

  lemma BracesNewlines(st: Style, s: Stmt, padding: int, depth: nat, close: string)
    requires !IsRemark(s) && s.body.Braces? && Enquoted(st, s.directive) !in st.custom
    requires close == "\n" + Spaces(padding * depth) + "}"
    ensures Newlines(StmtText(st, s, padding, depth))
         == Newlines(BlockText(st, HeadText(st, s) + " {", s.body.stmts, padding, depth + 1, s.line)) + Newlines(close)
  {
    var text := BlockText(st, HeadText(st, s) + " {", s.body.stmts, padding, depth + 1, s.line);
    EnquotedIsHash(st, s);
    assert StmtText(st, s, padding, depth) == text + close;
    NewlinesAppend(text, close);
  }

  /** The block with its new lines is steady. */
  lemma {:induction false} RelinedSteady(a: seq<Stmt>, b: seq<Stmt>, la: int, lb: int, steady: bool, first: bool)
    requires Relined(a, b, la, lb, steady, first) && Erased(a) == Erased(b)
    ensures SteadyFrom(b, lb, steady, first)
    decreases a
  {
    if a != [] {
      ErasedParts(a, b);
      if a[0].body.Braces? {
        RelinedSteady(a[0].body.stmts, b[0].body.stmts, a[0].line, b[0].line, Anchored(a[0]), false);
      }
      RelinedSteady(a[1..], b[1..], a[0].line, b[0].line, Holds(a[0]), false);
    } else {
      assert b == [];
    }
  }

  /** Merging comments does not change whether a block is steady. */
  lemma {:induction false} SteadyMerged(st: Style, block: seq<Stmt>, last: int, steady: bool, first: bool)
    requires AllSayable(st, block)
    ensures SteadyFrom(Merged(block), last, steady, first) == SteadyFrom(block, last, steady, first)
    decreases block
  {
    if block != [] {
      var rest, m := Merged(block[1..]), Merged(block);
      if block[0].body.Braces? {
        SteadyMerged(st, block[0].body.stmts, block[0].line, Anchored(block[0]), false);
      }
      SteadyMerged(st, block[1..], block[0].line, Holds(block[0]), false);
      if rest != [] && Collide(block[0], rest[0]) {
        MergedKeeps(st, block[1..]);
        assert Sayable(st, rest[0]) && Sayable(st, block[0]);
        assert m[1..] == rest[1..] && m[0].line == block[0].line == rest[0].line;
      } else {
        assert m[1..] == rest;
      }
    } else {
      assert Merged(block) == [];
    }
  }

  // ---- Formatting again ----

  lemma {:induction false} FiledText(st: Style, out: string, a: seq<Stmt>, b: seq<Stmt>, padding: int, depth: nat,
                                     last: int)
    requires Filed(a) == Filed(b)
    ensures BlockText(st, out, a, padding, depth, last) == BlockText(st, out, b, padding, depth, last)
    decreases a
  {
    if a != [] {
      FiledParts(a, b);
      if a[0].body.Braces? {
        FiledText(st, HeadText(st, a[0]) + " {", a[0].body.stmts, b[0].body.stmts, padding, depth + 1, a[0].line);
      }
      assert StmtText(st, a[0], padding, depth) == StmtText(st, b[0], padding, depth);
      EnquotedIsHash(st, a[0]);
      FiledText(st, NextOutput(st, out, a[0], padding, depth, last), a[1..], b[1..], padding, depth, a[0].line);
    } else {
      assert b == [];
    }
  }

  lemma FiledParts(a: seq<Stmt>, b: seq<Stmt>)
    requires Filed(a) == Filed(b) && a != []
    ensures b != [] && |a| == |b| && Filed(a[1..]) == Filed(b[1..]) && a[0].line == b[0].line
    ensures a[0].directive == b[0].directive && a[0].args == b[0].args && a[0].comment == b[0].comment
    ensures a[0].body.Braces? == b[0].body.Braces?
    ensures a[0].body.Braces? ==> Filed(a[0].body.stmts) == Filed(b[0].body.stmts)
  {
    assert Filed(a)[0] == Filed(b)[0] && Filed(a)[1..] == Filed(a[1..]) && Filed(b)[1..] == Filed(b[1..]);
    FiledLength(a);
    FiledLength(b);
  }

  lemma {:induction false} FiledLength(a: seq<Stmt>)
    ensures |Filed(a)| == |a|
    decreases |a|
  {
    if a != [] {
      FiledLength(a[1..]);
    }
  }

  /** What the theorems ask of a block does not depend on files and include indices. */
  lemma {:induction false} FiledKeeps(st: Style, a: seq<Stmt>, b: seq<Stmt>, last: int, steady: bool, first: bool)
    requires Filed(a) == Filed(b) && AllSayable(st, a) && SteadyFrom(a, last, steady, first)
    ensures AllSayable(st, b) && SteadyFrom(b, last, steady, first) && EndsInRemark(a) == EndsInRemark(b)
    ensures IncludesNameFiles(a) ==> IncludesNameFiles(b)
    decreases a
  {
    if a != [] {
      FiledParts(a, b);
      if a[0].body.Braces? {
        FiledKeeps(st, a[0].body.stmts, b[0].body.stmts, a[0].line, Anchored(a[0]), false);
      }
      FiledKeeps(st, a[1..], b[1..], a[0].line, Holds(a[0]), false);
      assert |a| > 1 ==> a[1..][|a| - 2] == a[|a| - 1] && b[1..][|b| - 2] == b[|b| - 1];
    } else {
      assert b == [];
    }
  }

  lemma {:induction false} EndsErased(a: seq<Stmt>, b: seq<Stmt>)
    requires Erased(a) == Erased(b)
    ensures EndsInRemark(a) == EndsInRemark(b) && |a| == |b|
    decreases a
  {
    if a != [] {
      ErasedParts(a, b);
      EndsErased(a[1..], b[1..]);
      assert |a| > 1 ==> a[1..][|a| - 2] == a[|a| - 1] && b[1..][|b| - 2] == b[|b| - 1];
    } else {
      assert b == [];
    }
  }

  /**
    * What is asked of a configuration to be formatted again: that it can be printed and read back,
    * with its comments if it has any. `st.isPrint` is false of newlines in Go.
    */
  ghost predicate Formats(st: Style, e: Env, block: seq<Stmt>) {
    && AllSayable(st, block) && PlainRun(e, block) && (e.comments || NoRemarks(block)) && !EndsInRemark(block)
    && !st.isPrint('\n')
  }

  /** The tokens of a printed block and the block with their lines. */
  lemma TextLines(st: Style, block: seq<Stmt>, indent: int, tokens: seq<Token>) returns (lined: seq<Stmt>)
    requires AllSayable(st, block) && !st.isPrint('\n')
    requires Lex(st.custom, Built(st, block, indent, false)) == Lexed(tokens)
    requires Strip(tokens) == BlockWords(Merged(block))
    ensures lined == Lined(tokens, 0, Merged(block)) && Relined(Merged(block), lined, 0, 0, false, true)
    ensures Erased(lined) == Erased(Merged(block)) && AllSayable(st, lined)
  {
    var m := Merged(block);
    MergedKeeps(st, block);
    MergedText(st, "", block, indent, 0, 0);
    lined := Lined(tokens, 0, m);
    LinedErased(tokens, 0, m);
    LinedWords(st, tokens, 0, m);
    LaidOutFromStart(st, m, indent, tokens, lined);
  }

  lemma LaidOutFromStart(st: Style, m: seq<Stmt>, indent: int, tokens: seq<Token>, lined: seq<Stmt>)
    requires AllSayable(st, m) && Separate(m) && !st.isPrint('\n')
    requires tokens == Run(Start(st.custom), BlockText(st, "", m, indent, 0, 0)).tokens
    requires |tokens| == |BlockWords(m)| && lined == Lined(tokens, 0, m)
    ensures Relined(m, lined, 0, 0, false, true)
  {
    var s, text := Start(st.custom), BlockText(st, "", m, indent, 0, 0);
    assert Strip(s.tokens) == [] && Run(s, "") == s && Idle(s);
    assert text + "" == text;
    LaidOut(st, s, "", m, indent, 0, 0, [], 0, lined, "", tokens, 0, false);
  }

  /** The parsed block, and its texts compared with those of the block with the new lines. */
  lemma ParsedIsLined(st: Style, e: Env, block: seq<Stmt>, indent: int, ctx: seq<string>, inc: nat)
    returns (parsed: Outcome, lined: seq<Stmt>)
    requires Formats(st, e, block)
    ensures Lex(st.custom, Built(st, block, indent, false)).Lexed?
    ensures WellNested(Lex(st.custom, Built(st, block, indent, false)).tokens)
    ensures parsed == Block(e, Lex(st.custom, Built(st, block, indent, false)).tokens, 0, ctx, false, inc)
    ensures parsed.Done?
    ensures Filed(parsed.stmts) == Filed(lined) && Relined(Merged(block), lined, 0, 0, false, true)
    ensures Erased(lined) == Erased(Merged(block)) && AllSayable(st, lined)
  {
    var r := Lex(st.custom, Built(st, block, indent, false));
    RoundTrip(st, e, block, indent, ctx, inc);
    lined := TextLines(st, block, indent, r.tokens);
    if e.comments {
      KeptAll(lined);
    } else {
      NoRemarksKept(false, block);
      NoRemarksErased(Merged(block), lined);
      NoRemarksKept(false, lined);
    }
    parsed := Block(e, r.tokens, 0, ctx, false, inc);
  }

  /**
    * Formatting a formatted configuration, comments kept and includes followed: the text is the same
    * if and only if no comment shares the line of a statement with a block right before it, nor of
    * a statement that begins with a bare backslash.
    */
  lemma FormatTwice(st: Style, e: Env, block: seq<Stmt>, indent: int, ctx: seq<string>, inc: nat)
    requires Formats(st, e, block)
    ensures var r := Lex(st.custom, Built(st, block, indent, false));
      && r.Lexed? && WellNested(r.tokens)
      && var parsed := Block(e, r.tokens, 0, ctx, false, inc);
      && parsed.Done?
      && forall i: int :: Built(st, parsed.stmts, i, false) == Built(st, block, i, false) <==> Steady(block)
  {
    var parsed, lined := ParsedIsLined(st, e, block, indent, ctx, inc);
    forall i: int
      ensures Built(st, parsed.stmts, i, false) == Built(st, block, i, false) <==> Steady(block)
    {
      FiledText(st, "", parsed.stmts, lined, i, 0, 0);
      SameTextIffSteady(st, block, lined, i);
    }
  }

  lemma SameTextIffSteady(st: Style, block: seq<Stmt>, lined: seq<Stmt>, i: int)
    requires AllSayable(st, block) && Relined(Merged(block), lined, 0, 0, false, true)
    requires Erased(lined) == Erased(Merged(block))
    ensures Built(st, lined, i, false) == Built(st, block, i, false) <==> Steady(block)
  {
    var m := Merged(block);
    MergedKeeps(st, block);
    MergedText(st, "", block, i, 0, 0);
    SteadyMerged(st, block, 0, false, true);
    if Steady(block) {
      RelinedSame(st, "", m, lined, i, 0, 0, 0, false, true);
    } else {
      RelinedTaller(st, "", "", m, lined, i, 0, 0, 0, false, true);
    }
  }

  /** Formatting a third time never changes the text again. */
  lemma FormatThrice(st: Style, e: Env, block: seq<Stmt>, indent: int, ctx: seq<string>, inc: nat)
    requires Formats(st, e, block)
    ensures var r := Lex(st.custom, Built(st, block, indent, false));
      && r.Lexed?
      && var once := Block(e, r.tokens, 0, ctx, false, inc);
      && once.Done?
      && var q := Lex(st.custom, Built(st, once.stmts, indent, false));
      && q.Lexed?
      && var twice := Block(e, q.tokens, 0, ctx, false, inc);
      && twice.Done?
      && forall i: int :: Built(st, twice.stmts, i, false) == Built(st, once.stmts, i, false)
  {
    var once, lined := ParsedIsLined(st, e, block, indent, ctx, inc);
    MergedKeeps(st, block);
    RelinedSteady(Merged(block), lined, 0, 0, false, true);
    FiledKeeps(st, lined, once.stmts, 0, false, true);
    EndsErased(lined, Merged(block));
    ErasedFiled(once.stmts, lined);
    if !e.comments {
      NoRemarksKept(false, block);
      NoRemarksErased(block, once.stmts);
    }
    IncludesErased(lined, Merged(block));
    if !e.single {
      MergedIncludes(block);
    }
    FormatTwice(st, e, once.stmts, indent, ctx, inc);
  }

  /** `a { }` with a comment on its line, then `b`: the comment moves to a line of its own. */
  lemma CommentMoves(st: Style, e: Env, indent: int, ctx: seq<string>, inc: nat)
    requires {"a", "b"} !! st.custom && (forall d :: !e.ignore(d)) && e.comments && !st.isPrint('\n')
    ensures var block := [
        Stmt("a", "", 1, [], "", [], Braces([])), Stmt("#", "", 1, [], "c", [], NoBlock),
        Stmt("b", "", 2, [], "", [], NoBlock)];
      var r := Lex(st.custom, Built(st, block, indent, false));
      && r.Lexed?
      && var parsed := Block(e, r.tokens, 0, ctx, false, inc);
      parsed.Done? && Built(st, parsed.stmts, indent, false) != Built(st, block, indent, false)
  {
    var a, c := Stmt("a", "", 1, [], "", [], Braces([])), Stmt("#", "", 1, [], "c", [], NoBlock);
    var b := Stmt("b", "", 2, [], "", [], NoBlock);
    LetterFaithful(st, 'a');
    LetterFaithful(st, 'b');
    assert AllSayable(st, []) && Sayable(st, a) && Sayable(st, b) && Sayable(st, c);
    ThreeStatements(st, a, c, b);
    FormatTwice(st, e, [a, c, b], indent, ctx, inc);
  }

  lemma LetterFaithful(st: Style, c: char)
    requires 'a' <= c <= 'z'
    ensures Faithful(st, [c]) && Enquoted(st, [c]) == [c]
  {
    EscapeFromPlain('\0', [c]);
    assert [c][1..] == "";
    assert !NeedsQuote([c]) && !OpenEscape(false, [c]);
  }

  /** A statement with a block, a comment on its line and another statement. */
  lemma ThreeStatements(st: Style, a: Stmt, c: Stmt, b: Stmt)
    requires Sayable(st, a) && Sayable(st, b) && Sayable(st, c) && a.body == Braces([]) && b.body == NoBlock
    requires IsRemark(c) && c.line == a.line && !IsRemark(a) && !IsRemark(b)
    requires a.directive != "include" && b.directive != "include"
    ensures AllSayable(st, [a, c, b]) && IncludesNameFiles([a, c, b]) && !EndsInRemark([a, c, b]) && !Steady([a, c, b])
  {
    assert [a, c, b][1..] == [c, b] && [c, b][1..] == [b] && [b][1..] == [];
    assert AllSayable(st, []) && AllSayable(st, [b]) && AllSayable(st, [c, b]);
    assert IncludesNameFiles([]) && IncludesNameFiles([b]) && IncludesNameFiles([c, b]);
    assert !SteadyFrom([c, b], a.line, false, false);
  }
}
