/** Printing, lexing and parsing a configuration, and formatting it twice. */
module FormatRoundTrip {
  import opened Text
  import opened ConfigLex
  import opened ConfigTree
  import opened ConfigBuild
  import opened ConfigParse
  import opened WordRoundTrip
  import opened PrintedTree

  // ---- What the parser can be expected to give back ----

  /** A statement without its file and its include indices. */
  function Filed(block: seq<Stmt>): seq<Stmt>
    decreases block
  {
    if block == [] then []
    else
      var s := block[0].(filename := "", includes := []);
      [if s.body.Braces? then s.(body := Braces(Filed(block[0].body.stmts))) else s] + Filed(block[1..])
  }

  /** A statement without what printing does not show: its line, its file and its include indices. */
  function Erased(block: seq<Stmt>): seq<Stmt>
    decreases block
  {
    if block == [] then []
    else
      var s := block[0].(line := 0, filename := "", includes := []);
      [if s.body.Braces? then s.(body := Braces(Erased(block[0].body.stmts))) else s] + Erased(block[1..])
  }

  /** Without the comments, unless they are kept. */
  function Kept(comments: bool, block: seq<Stmt>): seq<Stmt>
    decreases block
  {
    if block == [] then []
    else if IsRemark(block[0]) then (if comments then [block[0]] else []) + Kept(comments, block[1..])
    else if block[0].body.Braces? then
      [block[0].(body := Braces(Kept(comments, block[0].body.stmts)))] + Kept(comments, block[1..])
    else [block[0]] + Kept(comments, block[1..])
  }

  predicate IncludesNameFiles(block: seq<Stmt>)
    decreases block
  {
    block != [] ==>
      && (block[0].directive == "include" ==> block[0].args != [])
      && (block[0].body.Braces? ==> IncludesNameFiles(block[0].body.stmts))
      && IncludesNameFiles(block[1..])
  }

  /** Nothing is ignored, and includes, where they are followed, have an argument. */
  ghost predicate PlainRun(e: Env, block: seq<Stmt>) {
    (forall d :: !e.ignore(d)) && (e.single || IncludesNameFiles(block))
  }

  // ---- Parsing the words of a block ----

  predicate IsWord(t: Token, w: Word) { t.text == w.text && t.quote == w.quote }

  /** The tokens from `i` are the words `ws`. */
  predicate WordsAt(tokens: seq<Token>, i: nat, ws: seq<Word>) {
    i + |ws| <= |tokens| && forall k :: 0 <= k < |ws| ==> IsWord(tokens[i + k], ws[k])
  }

  lemma WordsAtSplit(tokens: seq<Token>, i: nat, a: seq<Word>, b: seq<Word>)
    requires WordsAt(tokens, i, a + b)
    ensures WordsAt(tokens, i, a) && WordsAt(tokens, i + |a|, b)
  {
    forall k | 0 <= k < |a|
      ensures IsWord(tokens[i + k], a[k])
    {
      assert (a + b)[k] == a[k];
    }
    forall k | 0 <= k < |b|
      ensures IsWord(tokens[i + |a| + k], b[k])
    {
      assert (a + b)[|a| + k] == b[k];
    }
  }

  /** A printed word is neither a terminator nor a comment. */
  lemma PrintedIsArg(st: Style, t: Token, w: string)
    requires Faithful(st, w) && IsWord(t, Printed(w))
    ensures InDirArgs(t) && !IsComment(t) && !IsClose(t) && !IsOpen(t) && t.text == w
  {
    if !t.quote {
      BareWhenUnquoted(w);
      assert !Special(w[0]);
    }
  }

  lemma {:induction false} ScanPrinted(st: Style, tokens: seq<Token>, i: nat, args: seq<string>)
    requires WordsAt(tokens, i, PrintedAll(args)) && (forall a <- args :: Faithful(st, a))
    requires i + |args| < |tokens| && !InDirArgs(tokens[i + |args|])
    ensures ScanArgs(tokens, i) == Args(args, [], i + |args|)
    decreases |args|
  {
    if args != [] {
      assert args == [args[0]] + args[1..];
      PrintedCons(args[0], args[1..]);
      WordsAtSplit(tokens, i, [Printed(args[0])], PrintedAll(args[1..]));
      assert IsWord(tokens[i + 0], [Printed(args[0])][0]);
      PrintedIsArg(st, tokens[i], args[0]);
      ScanPrinted(st, tokens, i + 1, args[1..]);
    }
  }

  /** The statements of the block have the lines of the tokens they begin with, from `i` on. */
  predicate LinesAt(tokens: seq<Token>, i: nat, block: seq<Stmt>)
    decreases block
  {
    block != [] ==>
      && i < |tokens| && block[0].line == tokens[i].line
      && (block[0].body.Braces? ==> LinesAt(tokens, i + 2 + |block[0].args|, block[0].body.stmts))
      && LinesAt(tokens, i + |StmtWords(block[0])|, block[1..])
  }

  /** The outcome of parsing what a block was printed as. */
  ghost predicate GivesBack(e: Env, r: Outcome, block: seq<Stmt>, next: nat) {
    r.Done? && r.next == next && Filed(r.stmts) == Filed(Kept(e.comments, block))
  }

  /** The head of a printed statement keeps its directive and arguments. */
  lemma HeadGivesBack(e: Env, stmt: Stmt, t: Token, term: Token, ctx: seq<string>, inc: nat)
    requires t.text == stmt.directive != "if" && (e.single || (stmt.directive == "include" ==> stmt.args != []))
    ensures var h := Head(e, t, stmt.args, term, ctx, inc);
      && h.HeadDone? && h.stmt.directive == stmt.directive && h.stmt.args == stmt.args && h.stmt.comment == ""
      && h.stmt.body == NoBlock && h.stmt.line == t.line
  {
  }

  lemma {:induction false} FiledAppend(a: seq<Stmt>, b: seq<Stmt>)
    ensures Filed(a + b) == Filed(a) + Filed(b)
    decreases |a|
  {
    if a == [] {
      assert a + b == b;
    } else {
      FiledAppend(a[1..], b);
      assert (a + b)[1..] == a[1..] + b;
    }
  }

  lemma KeptCons(comments: bool, block: seq<Stmt>)
    requires block != []
    ensures Kept(comments, block) == Kept(comments, block[..1]) + Kept(comments, block[1..])
  {
    assert block[..1][1..] == [];
    assert Kept(comments, []) == [];
  }

  /** One printed statement, parsed. */
  lemma ParseOne(st: Style, e: Env, tokens: seq<Token>, i: nat, ctx: seq<string>, inc: nat, block: seq<Stmt>)
    requires block != [] && AllSayable(st, block) && PlainRun(e, block)
    requires WordsAt(tokens, i, StmtWords(block[0])) && LinesAt(tokens, i, block)
    ensures i < |tokens| && !IsClose(tokens[i])
    ensures GivesBack(e, Turn(e, tokens, i, ctx, false, inc), block[..1], i + |StmtWords(block[0])|)
    decreases block, 0
  {
    var stmt, one := block[0], block[..1];
    assert one[0] == stmt && one[1..] == [] && Kept(e.comments, []) == [] && Filed([]) == [];
    if IsRemark(stmt) {
      assert IsWord(tokens[i + 0], StmtWords(stmt)[0]);
      assert tokens[i].text[0] == '#' && tokens[i].text[1..] == stmt.comment;
      assert Kept(e.comments, one) == if e.comments then one else [];
    } else {
      ParseStmtBack(st, e, tokens, i, ctx, inc, block);
    }
  }

  lemma ParseStmtBack(st: Style, e: Env, tokens: seq<Token>, i: nat, ctx: seq<string>, inc: nat, block: seq<Stmt>)
    requires block != [] && AllSayable(st, block) && PlainRun(e, block) && !IsRemark(block[0])
    requires WordsAt(tokens, i, StmtWords(block[0])) && LinesAt(tokens, i, block)
    ensures i < |tokens| && !IsClose(tokens[i])
    ensures GivesBack(e, Turn(e, tokens, i, ctx, false, inc), block[..1], i + |StmtWords(block[0])|)
    decreases block, 0, 0
  {
    var stmt := block[0];
    var end, open := i + 1 + |stmt.args|, i + 2 + |stmt.args|;
    assert stmt.body.Braces? ==> LinesAt(tokens, open, stmt.body.stmts);
    StmtWordsSplit(stmt);
    HeadTokens(st, tokens, i, stmt);
    HeadGivesBack(e, stmt, tokens[i], tokens[end], ctx, inc);
    var more := inc + |Head(e, tokens[i], stmt.args, tokens[end], ctx, inc).queued|;
    if stmt.body.Braces? {
      ParseBraces(st, e, tokens, end, open, EnterBlock(stmt.directive, ctx), more, stmt);
    }
    StatementBack(e, tokens, end, open, tokens[i], ctx, inc, more, stmt);
    TurnIsStatement(e, tokens, i, ctx, inc, stmt.args, end);
    assert block[..1] == [stmt];
  }

  lemma TurnIsStatement(e: Env, tokens: seq<Token>, i: nat, ctx: seq<string>, inc: nat, args: seq<string>, end: nat)
    requires i < |tokens| && !IsClose(tokens[i]) && !IsComment(tokens[i]) && !e.ignore(tokens[i].text)
    requires ScanArgs(tokens, i + 1) == Args(args, [], end)
    ensures Turn(e, tokens, i, ctx, false, inc)
         == Statement(e, tokens, end + 1, tokens[i], tokens[end], args, [], ctx, inc)
  {
  }

  /** The words behind the arguments. */
  function Tail(stmt: Stmt): seq<Word> {
    if stmt.body.NoBlock? then [SEMICOLON] else [OPEN_BRACE] + BlockWords(stmt.body.stmts) + [CLOSE_BRACE]
  }

  lemma StmtWordsSplit(stmt: Stmt)
    requires !IsRemark(stmt)
    ensures StmtWords(stmt) == PrintedAll([stmt.directive] + stmt.args) + Tail(stmt)
    ensures |StmtWords(stmt)| == 1 + |stmt.args| + |Tail(stmt)|
  {
  }

  /** The tokens of a printed head. */
  lemma HeadTokens(st: Style, tokens: seq<Token>, i: nat, stmt: Stmt)
    requires Sayable(st, stmt) && !IsRemark(stmt)
    requires WordsAt(tokens, i, PrintedAll([stmt.directive] + stmt.args) + Tail(stmt))
    ensures var end := i + 1 + |stmt.args|;
      && end < |tokens| && WordsAt(tokens, end, Tail(stmt))
      && IsWord(tokens[end], if stmt.body.NoBlock? then SEMICOLON else OPEN_BRACE)
      && tokens[i].text == stmt.directive
      && !IsClose(tokens[i]) && !IsComment(tokens[i])
      && ScanArgs(tokens, i + 1) == Args(stmt.args, [], end)
  {
    var words, tail := [stmt.directive] + stmt.args, Tail(stmt);
    WordsAtSplit(tokens, i, PrintedAll(words), tail);
    PrintedCons(stmt.directive, stmt.args);
    WordsAtSplit(tokens, i, [Printed(stmt.directive)], PrintedAll(stmt.args));
    assert IsWord(tokens[i + 0], [Printed(stmt.directive)][0]);
    PrintedIsArg(st, tokens[i], stmt.directive);
    assert IsWord(tokens[i + 1 + |stmt.args| + 0], tail[0]);
    ScanPrinted(st, tokens, i + 1, stmt.args);
  }

  lemma ParseBraces(st: Style, e: Env, tokens: seq<Token>, end: nat, open: nat, ctx: seq<string>, inc: nat, stmt: Stmt)
    requires open == end + 1
    requires stmt.body.Braces? && AllSayable(st, stmt.body.stmts) && PlainRun(e, stmt.body.stmts)
    requires WordsAt(tokens, end, Tail(stmt)) && LinesAt(tokens, open, stmt.body.stmts)
    ensures end < |tokens|
    ensures GivesBack(e, Block(e, tokens, open, ctx, false, inc), stmt.body.stmts,
                      end + 2 + |BlockWords(stmt.body.stmts)|)
    decreases stmt, 1
  {
    var ws := BlockWords(stmt.body.stmts);
    WordsAtSplit(tokens, end, [OPEN_BRACE] + ws, [CLOSE_BRACE]);
    WordsAtSplit(tokens, end, [OPEN_BRACE], ws);
    assert IsWord(tokens[end + 1 + |ws| + 0], [CLOSE_BRACE][0]);
    ParseBlockBack(st, e, tokens, open, ctx, inc, stmt.body.stmts, end + 1 + |ws|);
  }

  /** A turn at a printed statement, its block parsed back. */
  lemma StatementBack(e: Env, tokens: seq<Token>, end: nat, open: nat, t: Token, ctx: seq<string>, inc: nat, more: nat,
                      stmt: Stmt)
    requires end < |tokens| && open == end + 1
    requires t.text == stmt.directive != "if" && !IsRemark(stmt) && stmt.comment == ""
    requires (e.single || (stmt.directive == "include" ==> stmt.args != [])) && stmt.line == t.line
    requires IsOpen(tokens[end]) <==> stmt.body.Braces?
    requires Head(e, t, stmt.args, tokens[end], ctx, inc).HeadDone?
    requires more == inc + |Head(e, t, stmt.args, tokens[end], ctx, inc).queued|
    requires stmt.body.Braces? ==>
      GivesBack(e, Block(e, tokens, open, EnterBlock(stmt.directive, ctx), false, more), stmt.body.stmts,
                end + 2 + |BlockWords(stmt.body.stmts)|)
    ensures GivesBack(e, Statement(e, tokens, end + 1, t, tokens[end], stmt.args, [], ctx, inc), [stmt],
                      end + 1 + if stmt.body.Braces? then 1 + |BlockWords(stmt.body.stmts)| else 0)
  {
    var ctx2 := EnterBlock(stmt.directive, ctx);
    HeadGivesBack(e, stmt, t, tokens[end], ctx, inc);
    var h := Head(e, t, stmt.args, tokens[end], ctx, inc);
    var body := BodyOf(e, tokens, open, tokens[end], ctx2, false, more);
    StatementIs(e, tokens, open, t, tokens[end], stmt.args, [], ctx, inc, more, h, body);
    assert CommentStmts(e, t.line, []) == [];
    AssembledBack(e, h, body, stmt);
  }

  lemma AssembledBack(e: Env, h: HeadOutcome, body: Outcome, stmt: Stmt)
    requires h.HeadDone? && body.Done? && !IsRemark(stmt)
    requires h.stmt.directive == stmt.directive && h.stmt.args == stmt.args && h.stmt.comment == stmt.comment
    requires h.stmt.body == NoBlock && h.stmt.line == stmt.line
    requires stmt.body.Braces? ==> Filed(body.stmts) == Filed(Kept(e.comments, stmt.body.stmts))
    ensures GivesBack(e, Assembled(h, stmt.body.Braces?, body, []), [stmt], body.next)
  {
    OneBack(e, stmt, if stmt.body.Braces? then h.stmt.(body := Braces(body.stmts)) else h.stmt);
  }

  lemma OneBack(e: Env, stmt: Stmt, back: Stmt)
    requires back.directive == stmt.directive && back.args == stmt.args && back.comment == stmt.comment
    requires back.line == stmt.line
    requires !IsRemark(stmt) && (back.body.Braces? <==> stmt.body.Braces?)
    requires stmt.body.Braces? ==> Filed(back.body.stmts) == Filed(Kept(e.comments, stmt.body.stmts))
    ensures Filed([back]) == Filed(Kept(e.comments, [stmt]))
  {
    assert [stmt][1..] == [] && [back][1..] == [] && Kept(e.comments, []) == [] && Filed([]) == [];
    var k := Kept(e.comments, [stmt]);
    assert k == [k[0]] && k[1..] == [];
  }

  lemma WordsOfFirst(tokens: seq<Token>, i: nat, block: seq<Stmt>) returns (mid: nat)
    requires block != [] && WordsAt(tokens, i, BlockWords(block))
    ensures mid == i + |StmtWords(block[0])| && mid + |BlockWords(block[1..])| == i + |BlockWords(block)|
    ensures WordsAt(tokens, i, StmtWords(block[0])) && WordsAt(tokens, mid, BlockWords(block[1..]))
  {
    mid := i + |StmtWords(block[0])|;
    WordsAtSplit(tokens, i, StmtWords(block[0]), BlockWords(block[1..]));
  }

  lemma ParseBlockBack(st: Style, e: Env, tokens: seq<Token>, i: nat, ctx: seq<string>, inc: nat, block: seq<Stmt>,
                       end: nat)
    requires AllSayable(st, block) && PlainRun(e, block) && WordsAt(tokens, i, BlockWords(block))
    requires end == i + |BlockWords(block)| && (end == |tokens| || IsClose(tokens[end])) && LinesAt(tokens, i, block)
    ensures GivesBack(e, Block(e, tokens, i, ctx, false, inc), block, if end == |tokens| then end else end + 1)
    decreases block
  {
    if block != [] {
      var mid := WordsOfFirst(tokens, i, block);
      ParseOne(st, e, tokens, i, ctx, inc, block);
      var more := inc + |Turn(e, tokens, i, ctx, false, inc).queued|;
      ParseBlockBack(st, e, tokens, mid, ctx, more, block[1..], end);
      BlockBack(e, tokens, i, ctx, inc, more, block, mid, if end == |tokens| then end else end + 1);
    }
  }

  lemma BlockBack(e: Env, tokens: seq<Token>, i: nat, ctx: seq<string>, inc: nat, more: nat, block: seq<Stmt>,
                  mid: nat, next: nat)
    requires block != [] && i < |tokens| && !IsClose(tokens[i]) && mid <= |tokens|
    requires GivesBack(e, Turn(e, tokens, i, ctx, false, inc), block[..1], mid)
    requires more == inc + |Turn(e, tokens, i, ctx, false, inc).queued|
    requires GivesBack(e, Block(e, tokens, mid, ctx, false, more), block[1..], next)
    ensures GivesBack(e, Block(e, tokens, i, ctx, false, inc), block, next)
  {
    var turn, rest := Turn(e, tokens, i, ctx, false, inc), Block(e, tokens, mid, ctx, false, more);
    BlockIs(e, tokens, i, ctx, false, inc, turn, more, rest);
    BackThen(e, turn, rest, block, mid, next);
  }

  lemma BackThen(e: Env, turn: Outcome, rest: Outcome, block: seq<Stmt>, mid: nat, next: nat)
    requires block != [] && GivesBack(e, turn, block[..1], mid) && GivesBack(e, rest, block[1..], next)
    ensures GivesBack(e, turn.Then(rest), block, next)
  {
    FiledAppend(turn.stmts, rest.stmts);
    KeptCons(e.comments, block);
    FiledAppend(Kept(e.comments, block[..1]), Kept(e.comments, block[1..]));
  }

  // ---- Braces ----

  lemma {:induction false} DepthAppend(a: seq<Token>, b: seq<Token>)
    ensures Depth(a + b) == Depth(a) + Depth(b)
    decreases |b|
  {
    if b == [] {
      assert a + b == a;
    } else {
      assert (a + b)[..|a + b| - 1] == a + b[..|b| - 1];
      DepthAppend(a, b[..|b| - 1]);
    }
  }

  lemma NestedAppend(a: seq<Token>, b: seq<Token>)
    requires WellNested(a) && WellNested(b)
    ensures WellNested(a + b)
  {
    DepthAppend(a, b);
    forall k | 0 <= k <= |a + b|
      ensures Depth((a + b)[..k]) >= 0
    {
      if k <= |a| {
        assert (a + b)[..k] == a[..k];
      } else {
        assert (a + b)[..k] == a + b[..k - |a|];
        DepthAppend(a, b[..k - |a|]);
      }
    }
  }

  lemma NestedBraces(open: Token, a: seq<Token>, close: Token)
    requires WellNested(a) && IsOpen(open) && IsClose(close)
    ensures WellNested([open] + a + [close])
  {
    var all := [open] + a + [close];
    DepthAppend([open], a);
    DepthAppend([open] + a, [close]);
    OneDepth(open);
    OneDepth(close);
    forall k | 0 <= k <= |all|
      ensures Depth(all[..k]) >= 0
    {
      if k == |all| {
        assert all[..k] == all;
      } else if k > 0 {
        assert all[..k] == [open] + a[..k - 1];
        DepthAppend([open], a[..k - 1]);
      }
    }
  }

  lemma OneDepth(t: Token)
    ensures Depth([t]) == if IsOpen(t) then 1 else if IsClose(t) then -1 else 0
  {
    assert [t][..0] == [];
  }

  lemma {:induction false} NestedFlat(tokens: seq<Token>)
    requires forall t <- tokens :: !IsOpen(t) && !IsClose(t)
    ensures WellNested(tokens)
    decreases |tokens|
  {
    if tokens != [] {
      var init, last := tokens[..|tokens| - 1], tokens[|tokens| - 1];
      NestedFlat(init);
      OneDepth(last);
      assert tokens == init + [last];
      assert WellNested([last]) by { assert [last][..0] == [] && [last][..1] == [last]; }
      NestedAppend(init, [last]);
    }
  }

  /** The tokens of a printed block are well nested. */
  lemma BlockNested(st: Style, tokens: seq<Token>, block: seq<Stmt>)
    requires AllSayable(st, block) && Strip(tokens) == BlockWords(block)
    ensures WellNested(tokens)
    decreases block
  {
    if block == [] {
      NestedFlat(tokens);
    } else {
      var n := |StmtWords(block[0])|;
      StripSplit(tokens, StmtWords(block[0]), BlockWords(block[1..]));
      StmtNested(st, tokens[..n], block[0]);
      BlockNested(st, tokens[n..], block[1..]);
      assert tokens == tokens[..n] + tokens[n..];
      NestedAppend(tokens[..n], tokens[n..]);
    }
  }

  lemma StripSplit(tokens: seq<Token>, a: seq<Word>, b: seq<Word>)
    requires Strip(tokens) == a + b
    ensures |a| <= |tokens| && Strip(tokens[..|a|]) == a && Strip(tokens[|a|..]) == b
  {
    assert a == (a + b)[..|a|] && b == (a + b)[|a|..];
  }

  lemma StmtNested(st: Style, tokens: seq<Token>, stmt: Stmt)
    requires Sayable(st, stmt) && Strip(tokens) == StmtWords(stmt)
    ensures WellNested(tokens)
    decreases stmt
  {
    if IsRemark(stmt) {
      assert |tokens| == 1 && tokens[0].text == Strip(tokens)[0].text && tokens[0].text[0] == '#';
      NestedFlat(tokens);
    } else {
      StmtWordsSplit(stmt);
      var n := 1 + |stmt.args|;
      HeadFlat(st, tokens, stmt);
      NestedFlat(tokens[..n]);
      TailNested(st, tokens[n..], stmt);
      assert tokens == tokens[..n] + tokens[n..];
      NestedAppend(tokens[..n], tokens[n..]);
    }
  }

  lemma HeadFlat(st: Style, tokens: seq<Token>, stmt: Stmt)
    requires Sayable(st, stmt) && !IsRemark(stmt)
    requires Strip(tokens) == PrintedAll([stmt.directive] + stmt.args) + Tail(stmt)
    ensures |tokens| == 1 + |stmt.args| + |Tail(stmt)|
    ensures forall t <- tokens[..1 + |stmt.args|] :: !IsOpen(t) && !IsClose(t)
    ensures Strip(tokens[1 + |stmt.args|..]) == Tail(stmt)
  {
    var words, n := [stmt.directive] + stmt.args, 1 + |stmt.args|;
    forall k | 0 <= k < n
      ensures !IsOpen(tokens[k]) && !IsClose(tokens[k])
    {
      assert Strip(tokens)[k] == Printed(words[k]);
      PrintedIsArg(st, tokens[k], words[k]);
    }
    StripSplit(tokens, PrintedAll(words), Tail(stmt));
  }

  lemma TailNested(st: Style, tokens: seq<Token>, stmt: Stmt)
    requires Sayable(st, stmt) && !IsRemark(stmt) && Strip(tokens) == Tail(stmt)
    ensures WellNested(tokens)
    decreases stmt, 0
  {
    if stmt.body.NoBlock? {
      assert IsWord(tokens[0], Strip(tokens)[0]);
      NestedFlat(tokens);
    } else {
      var n := |tokens| - 1;
      assert IsWord(tokens[0], Strip(tokens)[0]) && IsWord(tokens[n], Strip(tokens)[n]);
      StripSplit(tokens, [OPEN_BRACE] + BlockWords(stmt.body.stmts), [CLOSE_BRACE]);
      StripSplit(tokens[..n], [OPEN_BRACE], BlockWords(stmt.body.stmts));
      assert tokens[..n][1..] == tokens[1..n];
      BlockNested(st, tokens[1..n], stmt.body.stmts);
      NestedBraces(tokens[0], tokens[1..n], tokens[n]);
      assert tokens == [tokens[0]] + tokens[1..n] + [tokens[n]];
    }
  }

  // ---- Comments that end up on one line ----

  /** Neighbouring comments of one line run together. */
  function Merged(block: seq<Stmt>): seq<Stmt>
    decreases block
  {
    if block == [] then []
    else
      var head := if block[0].body.Braces?
        then block[0].(body := Braces(Merged(block[0].body.stmts))) else block[0];
      var rest := Merged(block[1..]);
      if rest != [] && Collide(head, rest[0])
      then [head.(comment := head.comment + " #" + rest[0].comment)] + rest[1..]
      else [head] + rest
  }

  lemma MergedParts(block: seq<Stmt>)
    requires block != []
    ensures var m, rest := Merged(block), Merged(block[1..]);
      && m != [] && m[0].(comment := "", body := NoBlock) == block[0].(comment := "", body := NoBlock)
      && m[0].body == (if block[0].body.Braces? then Braces(Merged(block[0].body.stmts)) else NoBlock)
      && if rest != [] && Collide(block[0], rest[0])
         then m[1..] == rest[1..] && m[0].comment == block[0].comment + " #" + rest[0].comment
         else m[1..] == rest && m[0].comment == block[0].comment
  {
  }

  lemma {:induction false} MergedSeparate(block: seq<Stmt>)
    ensures Separate(Merged(block))
    decreases block
  {
    if block != [] {
      MergedParts(block);
      if block[0].body.Braces? {
        MergedSeparate(block[0].body.stmts);
      }
      MergedSeparate(block[1..]);
      var rest, m := Merged(block[1..]), Merged(block);
      assert |m| > 1 ==> m[1] == m[1..][0];
      if rest != [] && Collide(block[0], rest[0]) {
        assert |rest| > 1 ==> !Collide(rest[0], rest[1]);
      }
    }
  }

  lemma {:induction false} MergedEnds(block: seq<Stmt>)
    ensures (Merged(block) == [] <==> block == []) && EndsInRemark(Merged(block)) == EndsInRemark(block)
    decreases block
  {
    if block != [] {
      MergedParts(block);
      MergedEnds(block[1..]);
      var rest, m := Merged(block[1..]), Merged(block);
      assert |block| > 1 ==> block[1..][|block| - 2] == block[|block| - 1];
      assert |m| > 1 ==> m[1..][|m| - 2] == m[|m| - 1];
    }
  }

  lemma {:induction false} MergedSayable(st: Style, block: seq<Stmt>)
    requires AllSayable(st, block)
    ensures AllSayable(st, Merged(block))
    decreases block
  {
    if block != [] {
      MergedParts(block);
      if block[0].body.Braces? {
        MergedSayable(st, block[0].body.stmts);
      }
      MergedSayable(st, block[1..]);
      var rest, m := Merged(block[1..]), Merged(block);
      assert rest != [] ==> Sayable(st, rest[0]) && AllSayable(st, rest[1..]);
      assert Sayable(st, block[0]);
    }
  }

  lemma MergedKeeps(st: Style, block: seq<Stmt>)
    requires AllSayable(st, block)
    ensures AllSayable(st, Merged(block)) && Separate(Merged(block))
    ensures (Merged(block) == [] <==> block == []) && EndsInRemark(Merged(block)) == EndsInRemark(block)
  {
    MergedSayable(st, block);
    MergedSeparate(block);
    MergedEnds(block);
  }

  lemma {:induction false} MergedIncludes(block: seq<Stmt>)
    requires IncludesNameFiles(block)
    ensures IncludesNameFiles(Merged(block))
    decreases block
  {
    if block != [] {
      if block[0].body.Braces? {
        MergedIncludes(block[0].body.stmts);
      }
      MergedIncludes(block[1..]);
      var rest, m := Merged(block[1..]), Merged(block);
      assert m[1..] == if rest != [] && Collide(block[0], rest[0]) then rest[1..] else rest;
    }
  }

  /** The printer cannot tell a block from its merged form. */
  lemma {:induction false} MergedText(st: Style, out: string, block: seq<Stmt>, padding: int, depth: nat, last: int)
    ensures BlockText(st, out, block, padding, depth, last) == BlockText(st, out, Merged(block), padding, depth, last)
    decreases block
  {
    if block != [] {
      var b, rest, m := block[0], Merged(block[1..]), Merged(block);
      EnquotedIsHash(st, b);
      var next := NextOutput(st, out, b, padding, depth, last);
      MergedText(st, next, block[1..], padding, depth, b.line);
      var head := if b.body.Braces? then b.(body := Braces(Merged(b.body.stmts))) else b;
      MergedStmt(st, b, head, padding, depth);
      if rest != [] && Collide(head, rest[0]) {
        EnquotedIsHash(st, rest[0]);
        assert m[1..] == rest[1..];
        MergeTwo(st, out, b, rest[0].comment, padding, depth, last);
      } else {
        assert m[1..] == rest;
      }
    }
  }

  lemma MergedStmt(st: Style, b: Stmt, head: Stmt, padding: int, depth: nat)
    requires head == if b.body.Braces? then b.(body := Braces(Merged(b.body.stmts))) else b
    ensures StmtText(st, head, padding, depth) == StmtText(st, b, padding, depth)
    decreases b
  {
    EnquotedIsHash(st, b);
    if b.body.Braces? {
      MergedText(st, HeadText(st, b) + " {", b.body.stmts, padding, depth + 1, b.line);
    }
  }

  lemma MergeTwo(st: Style, out: string, b: Stmt, comment: string, padding: int, depth: nat, last: int)
    requires IsRemark(b)
    ensures NextOutput(st, out, b.(comment := b.comment + " #" + comment), padding, depth, last)
         == NextOutput(st, out, b, padding, depth, last) + " #" + comment
  {
    BareHash();
  }

  function Count(block: seq<Stmt>): nat
    decreases block
  {
    if block == [] then 0
    else 1 + (if block[0].body.Braces? then Count(block[0].body.stmts) else 0) + Count(block[1..])
  }

  lemma {:induction false} ErasedCount(block: seq<Stmt>)
    ensures Count(Erased(block)) == Count(block)
    decreases block
  {
    if block != [] {
      if block[0].body.Braces? {
        ErasedCount(block[0].body.stmts);
      }
      ErasedCount(block[1..]);
      assert Erased(block)[1..] == Erased(block[1..]);
    }
  }

  /** Merging loses a statement exactly when two comments collide. */
  lemma {:induction false} MergedCount(st: Style, block: seq<Stmt>)
    requires AllSayable(st, block)
    ensures Separate(block) ==> Merged(block) == block
    ensures !Separate(block) ==> Count(Merged(block)) < Count(block)
    decreases block
  {
    if block != [] {
      if block[0].body.Braces? {
        MergedCount(st, block[0].body.stmts);
      }
      MergedCount(st, block[1..]);
      var rest, m := Merged(block[1..]), Merged(block);
      assert rest != [] && Collide(block[0], rest[0]) ==> m[1..] == rest[1..];
      assert !(rest != [] && Collide(block[0], rest[0])) ==> m[1..] == rest;
      if |block| > 1 {
        assert block[1..][0] == block[1];
        assert Collide(block[0], block[1]) <==> Collide(block[0], rest[0]);
      }
    }
  }

  // ---- The theorems ----

  function LinedStmt(tokens: seq<Token>, i: nat, stmt: Stmt): Stmt
    decreases stmt
  {
    var s := stmt.(line := if i < |tokens| then tokens[i].line else 0);
    if s.body.Braces? then s.(body := Braces(Lined(tokens, i + 2 + |stmt.args|, stmt.body.stmts))) else s
  }

  /** The block with the lines of the tokens it was read as, from `i` on. */
  function Lined(tokens: seq<Token>, i: nat, block: seq<Stmt>): seq<Stmt>
    decreases block
  {
    if block == [] then []
    else [LinedStmt(tokens, i, block[0])] + Lined(tokens, i + |StmtWords(block[0])|, block[1..])
  }

  lemma LinedParts(tokens: seq<Token>, i: nat, j: nat, block: seq<Stmt>)
    requires block != [] && j == i + |StmtWords(block[0])|
    ensures var b := Lined(tokens, i, block);
      b != [] && |b| == |block| && b[0] == LinedStmt(tokens, i, block[0]) && b[1..] == Lined(tokens, j, block[1..])
  {
    LinedLength(tokens, i, block);
  }

  lemma {:induction false} LinedLength(tokens: seq<Token>, i: nat, block: seq<Stmt>)
    ensures |Lined(tokens, i, block)| == |block|
    decreases |block|
  {
    if block != [] {
      LinedLength(tokens, i + |StmtWords(block[0])|, block[1..]);
    }
  }

  lemma LinedBody(tokens: seq<Token>, i: nat, k: nat, stmt: Stmt)
    requires stmt.body.Braces? && k == i + 2 + |stmt.args|
    ensures LinedStmt(tokens, i, stmt).body == Braces(Lined(tokens, k, stmt.body.stmts))
  {
  }

  /** New lines do not change the words of a block. */
  lemma {:induction false} LinedWords(st: Style, tokens: seq<Token>, i: nat, block: seq<Stmt>)
    requires AllSayable(st, block)
    ensures AllSayable(st, Lined(tokens, i, block)) && BlockWords(Lined(tokens, i, block)) == BlockWords(block)
    decreases block
  {
    if block != [] {
      var j := i + |StmtWords(block[0])|;
      LinedParts(tokens, i, j, block);
      StmtLinedWords(st, tokens, i, block[0]);
      LinedWords(st, tokens, j, block[1..]);
    }
  }

  lemma {:induction false} StmtLinedWords(st: Style, tokens: seq<Token>, i: nat, stmt: Stmt)
    requires Sayable(st, stmt)
    ensures Sayable(st, LinedStmt(tokens, i, stmt)) && StmtWords(LinedStmt(tokens, i, stmt)) == StmtWords(stmt)
    decreases stmt
  {
    if stmt.body.Braces? {
      var k := i + 2 + |stmt.args|;
      LinedBody(tokens, i, k, stmt);
      LinedWords(st, tokens, k, stmt.body.stmts);
    }
  }

  lemma {:induction false} LinedErased(tokens: seq<Token>, i: nat, block: seq<Stmt>)
    ensures Erased(Lined(tokens, i, block)) == Erased(block)
    decreases block
  {
    if block != [] {
      var j, k := i + |StmtWords(block[0])|, i + 2 + |block[0].args|;
      LinedParts(tokens, i, j, block);
      if block[0].body.Braces? {
        LinedBody(tokens, i, k, block[0]);
        LinedErased(tokens, k, block[0].body.stmts);
      }
      LinedErased(tokens, j, block[1..]);
    }
  }

  /** `a` and `b` agree in all but lines, files and indices. */
  lemma ErasedParts(a: seq<Stmt>, b: seq<Stmt>)
    requires Erased(a) == Erased(b) && a != []
    ensures b != [] && Erased(a[1..]) == Erased(b[1..])
    ensures a[0].directive == b[0].directive && a[0].args == b[0].args && a[0].comment == b[0].comment
    ensures a[0].body.Braces? == b[0].body.Braces?
    ensures a[0].body.Braces? ==> Erased(a[0].body.stmts) == Erased(b[0].body.stmts)
  {
    assert Erased(a)[0] == Erased(b)[0] && Erased(a)[1..] == Erased(a[1..]) && Erased(b)[1..] == Erased(b[1..]);
  }

  lemma {:induction false} IncludesErased(a: seq<Stmt>, b: seq<Stmt>)
    requires Erased(a) == Erased(b)
    ensures IncludesNameFiles(a) == IncludesNameFiles(b)
    decreases a
  {
    if a != [] {
      ErasedParts(a, b);
      if a[0].body.Braces? {
        IncludesErased(a[0].body.stmts, b[0].body.stmts);
      }
      IncludesErased(a[1..], b[1..]);
    } else {
      assert b == [];
    }
  }

  lemma {:induction false} LinedLines(st: Style, tokens: seq<Token>, i: nat, block: seq<Stmt>)
    requires AllSayable(st, block) && i + |BlockWords(block)| <= |tokens|
    ensures LinesAt(tokens, i, Lined(tokens, i, block))
    decreases block
  {
    if block != [] {
      var j, k := i + |StmtWords(block[0])|, i + 2 + |block[0].args|;
      LinedParts(tokens, i, j, block);
      StmtLinedWords(st, tokens, i, block[0]);
      assert |BlockWords(block)| == |StmtWords(block[0])| + |BlockWords(block[1..])|;
      if block[0].body.Braces? {
        StmtWordsSplit(block[0]);
        LinedBody(tokens, i, k, block[0]);
        LinedLines(st, tokens, k, block[0].body.stmts);
      }
      LinedLines(st, tokens, j, block[1..]);
      LinesCons(tokens, i, j, k, Lined(tokens, i, block));
    }
  }

  lemma LinesCons(tokens: seq<Token>, i: nat, j: nat, k: nat, block: seq<Stmt>)
    requires block != [] && i < |tokens| && block[0].line == tokens[i].line
    requires j == i + |StmtWords(block[0])| && k == i + 2 + |block[0].args|
    requires LinesAt(tokens, j, block[1..]) && (block[0].body.Braces? ==> LinesAt(tokens, k, block[0].body.stmts))
    ensures LinesAt(tokens, i, block)
  {
  }

  /**
    * Printing a block and reading it back: the lexer returns if and only if the block does not end
    * in a comment, the braces balance, and parsing gives back the block, comments of one line
    * merged, with the lines of the printed text, and without comments when the parser drops them.
    */
  lemma RoundTrip(st: Style, e: Env, block: seq<Stmt>, indent: int, ctx: seq<string>, inc: nat)
    requires AllSayable(st, block) && PlainRun(e, block)
    ensures var r := Lex(st.custom, Built(st, block, indent, false));
      && (if EndsInRemark(block) then r.Unterminated? else r.Lexed?)
      && (r.Lexed? ==> WellNested(r.tokens)
                       && Strip(r.tokens) == BlockWords(Merged(block))
                       && GivesBack(e, Block(e, r.tokens, 0, ctx, false, inc), Lined(r.tokens, 0, Merged(block)),
                                    |r.tokens|))
  {
    var r := Lex(st.custom, Built(st, block, indent, false));
    LexBuilt(st, block, indent);
    MergedKeeps(st, block);
    if r.Lexed? {
      if !e.single {
        MergedIncludes(block);
      }
      BlockNested(st, r.tokens, Merged(block));
      ParsePrinted(st, e, r.tokens, ctx, inc, Merged(block));
    }
  }

  lemma LexBuilt(st: Style, block: seq<Stmt>, indent: int)
    requires AllSayable(st, block)
    ensures var r := Lex(st.custom, Built(st, block, indent, false));
      && (if EndsInRemark(block) then r.Unterminated? else r.Lexed?)
      && (r.Lexed? ==> Strip(r.tokens) == BlockWords(Merged(block)))
  {
    var m, s := Merged(block), Start(st.custom);
    MergedKeeps(st, block);
    MergedText(st, "", block, indent, 0, 0);
    assert Strip(s.tokens) == [];
    ReadBlock(st, s, "", m, indent, 0, 0, []);
    assert [] + BlockWords(m) == BlockWords(m);
  }

  lemma ParsePrinted(st: Style, e: Env, tokens: seq<Token>, ctx: seq<string>, inc: nat, block: seq<Stmt>)
    requires AllSayable(st, block) && PlainRun(e, block) && Strip(tokens) == BlockWords(block)
    ensures GivesBack(e, Block(e, tokens, 0, ctx, false, inc), Lined(tokens, 0, block), |tokens|)
  {
    assert |tokens| == |BlockWords(block)|;
    forall k | 0 <= k < |tokens|
      ensures IsWord(tokens[0 + k], BlockWords(block)[k])
    {
      assert IsWord(tokens[k], Strip(tokens)[k]);
    }
    LinedWords(st, tokens, 0, block);
    LinedErased(tokens, 0, block);
    IncludesErased(Lined(tokens, 0, block), block);
    LinedLines(st, tokens, 0, block);
    ParseBlockBack(st, e, tokens, 0, ctx, inc, Lined(tokens, 0, block), |tokens|);
  }

  /** With comments kept, exactly the blocks without colliding comments come back unchanged. */
  lemma RoundTripIffSeparate(st: Style, e: Env, block: seq<Stmt>, indent: int, ctx: seq<string>, inc: nat)
    requires AllSayable(st, block) && PlainRun(e, block) && e.comments && !EndsInRemark(block)
    ensures var r := Lex(st.custom, Built(st, block, indent, false));
      && r.Lexed?
      && var parsed := Block(e, r.tokens, 0, ctx, false, inc);
      parsed.Done? && (Erased(parsed.stmts) == Erased(block) <==> Separate(block))
  {
    RoundTrip(st, e, block, indent, ctx, inc);
    MergedKeeps(st, block);
    var tokens := Lex(st.custom, Built(st, block, indent, false)).tokens;
    var lined := Lined(tokens, 0, Merged(block));
    LinedErased(tokens, 0, Merged(block));
    KeptAll(lined);
    ErasedFiled(Block(e, tokens, 0, ctx, false, inc).stmts, lined);
    MergedCount(st, block);
    ErasedCount(block);
    ErasedCount(Merged(block));
  }

  lemma {:induction false} ErasedFiled(a: seq<Stmt>, b: seq<Stmt>)
    requires Filed(a) == Filed(b)
    ensures Erased(a) == Erased(b)
    decreases a
  {
    if a != [] {
      assert Filed(a)[0] == Filed(b)[0] && Filed(a)[1..] == Filed(a[1..]) && Filed(b)[1..] == Filed(b[1..]);
      if a[0].body.Braces? {
        ErasedFiled(a[0].body.stmts, b[0].body.stmts);
      }
      ErasedFiled(a[1..], b[1..]);
    }
  }

  predicate NoRemarks(block: seq<Stmt>)
    decreases block
  {
    block != [] ==>
      && !IsRemark(block[0])
      && (block[0].body.Braces? ==> NoRemarks(block[0].body.stmts))
      && NoRemarks(block[1..])
  }

  lemma {:induction false} NoRemarksKept(comments: bool, block: seq<Stmt>)
    requires NoRemarks(block)
    ensures Kept(comments, block) == block && Merged(block) == block
    decreases block
  {
    if block != [] {
      if block[0].body.Braces? {
        NoRemarksKept(comments, block[0].body.stmts);
      }
      NoRemarksKept(comments, block[1..]);
      assert block == [block[0]] + block[1..];
    }
  }

  lemma {:induction false} NoRemarksErased(a: seq<Stmt>, b: seq<Stmt>)
    requires Erased(a) == Erased(b) && NoRemarks(a)
    ensures NoRemarks(b)
    decreases a
  {
    if a != [] {
      ErasedParts(a, b);
      if a[0].body.Braces? {
        NoRemarksErased(a[0].body.stmts, b[0].body.stmts);
      }
      NoRemarksErased(a[1..], b[1..]);
    } else {
      assert b == [];
    }
  }

  lemma {:induction false} KeptAll(block: seq<Stmt>)
    ensures Kept(true, block) == block
    decreases block
  {
    if block != [] {
      if block[0].body.Braces? {
        KeptAll(block[0].body.stmts);
      }
      KeptAll(block[1..]);
      assert block == [block[0]] + block[1..];
    }
  }
}
