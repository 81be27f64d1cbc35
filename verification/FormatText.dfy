/** Formatting from the text: what a parsed configuration is like, and formatting it again. */
module FormattedText {
  import opened Text
  import opened ConfigLex
  import opened ConfigTree
  import opened ConfigBuild
  import opened ConfigParse
  import opened WordRoundTrip
  import opened PrintedTree
  import opened FormatRoundTrip
  import opened PrintedLayout
  import opened StrayWords

  // ---- Comment tokens stay on one line ----

  predicate Tidy(t: Token) { IsComment(t) ==> '\n' !in t.text }

  predicate AllTidy(tokens: seq<Token>) { forall i :: 0 <= i < |tokens| ==> Tidy(tokens[i]) }

  /** Only a comment begins with `#`, and it ends at the newline. */
  predicate TidyPending(s: Lx) {
    match s.mode
    case Comment(_) => s.token != "" && '\n' !in s.token
    case Escape => s.token != "" && s.token[0] != '#'
    case Variable => s.token != "" && s.token[0] != '#'
    case Top => s.token != "" ==> s.token[0] != '#'
    case Skip => s.token == ""
    case _ => true
  }

  /** What a rune emits: nothing, the pending token, a punctuation mark, or both. */
  predicate Emits(s: Lx, c: char, t: Lx) {
    var a := Token(s.token, if s.mode.Comment? then s.mode.from else s.line, s.mode.Quote?);
    var p := Token([c], s.at, false);
    || t.tokens == s.tokens
    || ((s.token != "" || s.mode.Quote?) && t.tokens == s.tokens + [a])
    || (IsPunct(c) && t.tokens == s.tokens + [p])
    || (IsPunct(c) && s.token != "" && !s.mode.Comment? && t.tokens == s.tokens + [a] + [p])
  }

  lemma FeedEmits(s: Lx, c: char)
    requires TidyPending(s)
    ensures Emits(s, c, Feed(s, c))
  {
  }

  lemma EmittedTidy(s: Lx, c: char, t: Lx)
    requires TidyPending(s) && AllTidy(s.tokens) && Emits(s, c, t) && !s.mode.Lua? && !s.mode.QuoteEscape?
    ensures AllTidy(t.tokens)
  {
  }

  lemma FeedPending(s: Lx, c: char)
    requires TidyPending(s)
    ensures TidyPending(Feed(s, c)) && (s.mode.Lua? || s.mode.QuoteEscape? ==> Feed(s, c).tokens == s.tokens)
  {
    if s.mode.Top? || s.mode.Skip? {
      TopPending(s, c);
    }
  }

  lemma TopPending(s: Lx, c: char)
    requires TidyPending(s) && (s.mode.Top? || s.mode.Skip?)
    ensures TidyPending(Feed(s, c))
  {
  }

  lemma FeedTidy(s: Lx, c: char)
    requires TidyPending(s) && AllTidy(s.tokens)
    ensures TidyPending(Feed(s, c)) && AllTidy(Feed(s, c).tokens)
  {
    FeedPending(s, c);
    if !s.mode.Lua? && !s.mode.QuoteEscape? {
      FeedEmits(s, c);
      EmittedTidy(s, c, Feed(s, c));
    }
  }

  lemma {:induction false} RunTidy(s: Lx, text: string)
    requires TidyPending(s) && AllTidy(s.tokens)
    ensures AllTidy(Run(s, text).tokens)
    decreases |text|
  {
    if text != "" {
      FeedTidy(s, text[0]);
      RunTidy(Feed(s, text[0]), text[1..]);
    }
  }

  /** No comment token of a lexed text holds a newline. */
  lemma LexedIsTidy(custom: set<string>, text: string)
    requires Lex(custom, text).Lexed?
    ensures AllTidy(Lex(custom, text).tokens)
  {
    RunTidy(Start(custom), text);
  }

  // ---- The shape of a parsed block ----

  /** Comments are on one line, and only comments have one. */
  predicate Commented(block: seq<Stmt>)
    decreases block
  {
    block != [] ==>
      && '\n' !in block[0].comment && (!IsRemark(block[0]) ==> block[0].comment == "")
      && (block[0].body.Braces? ==> Commented(block[0].body.stmts))
      && Commented(block[1..])
  }

  /** What parsing makes of tidy tokens. */
  predicate Neat(e: Env, block: seq<Stmt>) { Commented(block) && (e.single || IncludesNameFiles(block)) }

  lemma {:induction false} NeatAppend(e: Env, a: seq<Stmt>, b: seq<Stmt>)
    requires Neat(e, a) && Neat(e, b)
    ensures Neat(e, a + b)
    decreases |a|
  {
    if a == [] {
      assert a + b == b;
    } else {
      assert (a + b)[1..] == a[1..] + b;
      NeatAppend(e, a[1..], b);
    }
  }

  predicate OneLiners(comments: seq<string>) { forall i :: 0 <= i < |comments| ==> '\n' !in comments[i] }

  lemma {:induction false} CommentsNeat(e: Env, remarks: seq<Stmt>)
    requires forall i :: 0 <= i < |remarks| ==>
      remarks[i].directive == "#" && remarks[i].body == NoBlock && '\n' !in remarks[i].comment
    ensures Neat(e, remarks)
    decreases |remarks|
  {
    if remarks != [] {
      CommentsNeat(e, remarks[1..]);
    }
  }

  lemma {:induction false} ArgComments(tokens: seq<Token>, i: nat)
    requires i <= |tokens| && AllTidy(tokens)
    ensures var a := ScanArgs(tokens, i); a.Args? ==> OneLiners(a.comments)
    decreases |tokens| - i
  {
    if i < |tokens| && InDirArgs(tokens[i]) {
      ArgComments(tokens, i + 1);
      assert Tidy(tokens[i]);
    }
  }

  lemma AssembledNeat(e: Env, h: HeadOutcome, open: bool, body: Outcome, remarks: seq<Stmt>)
    requires h.HeadDone? && body.Done? && h.stmt.body == NoBlock && h.stmt.comment == ""
    requires e.single || (h.stmt.directive == "include" ==> h.stmt.args != [])
    requires (open ==> Neat(e, body.stmts)) && Neat(e, remarks)
    ensures Neat(e, Assembled(h, open, body, remarks).stmts)
  {
    var stmt := if open then h.stmt.(body := Braces(body.stmts)) else h.stmt;
    assert [stmt][1..] == [] && Neat(e, []);
    NeatAppend(e, [stmt], remarks);
  }

  lemma HeadIs(e: Env, t: Token, args: seq<string>, term: Token, ctx: seq<string>, inc: nat)
    requires Head(e, t, args, term, ctx, inc).HeadDone?
    ensures var h := Head(e, t, args, term, ctx, inc);
      && h.stmt.directive == t.text && h.stmt.body == NoBlock && h.stmt.comment == ""
      && (e.single || (t.text == "include" ==> h.stmt.args != []))
  {
  }

  lemma StatementNeat(e: Env, tokens: seq<Token>, i: nat, t: Token, term: Token, a: Args, ctx: seq<string>, inc: nat)
    returns (r: Outcome)
    requires AllTidy(tokens) && i <= |tokens| && a.Args? && OneLiners(a.comments)
    requires Statement(e, tokens, i, t, term, a.args, a.comments, ctx, inc).Done?
    ensures r == Statement(e, tokens, i, t, term, a.args, a.comments, ctx, inc) && Neat(e, r.stmts)
    decreases |tokens| - i, 3
  {
    var h, body, more := StatementParts(e, tokens, i, t, term, a.args, a.comments, ctx, inc);
    var remarks := CommentStmts(e, t.line, a.comments);
    if IsOpen(term) {
      body := BlockNeat(e, tokens, i, EnterBlock(t.text, ctx), false, more);
    }
    HeadIs(e, t, a.args, term, ctx, inc);
    CommentsNeat(e, remarks);
    r := Assembled(h, IsOpen(term), body, remarks);
    AssembledNeat(e, h, IsOpen(term), body, remarks);
  }

  lemma TurnNeat(e: Env, tokens: seq<Token>, i: nat, ctx: seq<string>, consume: bool, inc: nat) returns (r: Outcome)
    requires AllTidy(tokens) && i < |tokens| && !IsClose(tokens[i]) && Turn(e, tokens, i, ctx, consume, inc).Done?
    ensures r == Turn(e, tokens, i, ctx, consume, inc) && Neat(e, r.stmts)
    decreases |tokens| - i, 0
  {
    r := Turn(e, tokens, i, ctx, consume, inc);
    var t := tokens[i];
    if consume && IsOpen(t) {
    } else if IsComment(t) {
      assert Tidy(t);
      CommentsNeat(e, r.stmts);
    } else {
      var a := ScanArgs(tokens, i + 1);
      ArgComments(tokens, i + 1);
      if !e.ignore(t.text) {
        r := StatementNeat(e, tokens, a.end + 1, t, tokens[a.end], a, ctx, inc);
      }
    }
  }

  /** In a parsed block comments are on one line, and includes, where they are followed, name files. */
  lemma BlockNeat(e: Env, tokens: seq<Token>, i: nat, ctx: seq<string>, consume: bool, inc: nat) returns (r: Outcome)
    requires AllTidy(tokens) && i <= |tokens| && Block(e, tokens, i, ctx, consume, inc).Done?
    ensures r == Block(e, tokens, i, ctx, consume, inc) && Neat(e, r.stmts)
    decreases |tokens| - i, 1
  {
    if i == |tokens| || IsClose(tokens[i]) {
      r := Block(e, tokens, i, ctx, consume, inc);
    } else {
      var turn, rest, more := BlockParts(e, tokens, i, ctx, consume, inc);
      var _ := TurnNeat(e, tokens, i, ctx, consume, inc);
      var _ := BlockNeat(e, tokens, turn.next, ctx, consume, more);
      NeatAppend(e, turn.stmts, rest.stmts);
      r := turn.Then(rest);
    }
  }

  /**
    * No statement headed by a quoted `#`, which prints as a comment, has arguments or a block, and no
    * directive has a printer of its own.
    */
  predicate Usual(st: Style, block: seq<Stmt>)
    decreases block
  {
    block != [] ==>
      && (if IsRemark(block[0]) then block[0].args == [] && block[0].body == NoBlock
          else
            && block[0].directive !in st.custom && Enquoted(st, block[0].directive) !in st.custom
            && (block[0].body.Braces? ==> Usual(st, block[0].body.stmts)))
      && Usual(st, block[1..])
  }

  lemma {:induction false} ShapedIffUsual(st: Style, block: seq<Stmt>)
    requires Commented(block)
    ensures AllShaped(st, block) <==> Usual(st, block)
    decreases block
  {
    if block != [] {
      if block[0].body.Braces? {
        ShapedIffUsual(st, block[0].body.stmts);
      }
      ShapedIffUsual(st, block[1..]);
    }
  }

  /** A quoted `#` makes a statement that prints as a comment, whatever its arguments. */
  lemma QuotedHashPrintsAsComment(st: Style, e: Env, ctx: seq<string>, inc: nat)
    requires forall d :: !e.ignore(d)
    ensures var tokens := [Token("#", 1, true), Token("a", 1, false), Token(";", 1, false)];
      var r := Block(e, tokens, 0, ctx, false, inc);
      && r.Done? && |r.stmts| == 1 && r.stmts[0].args == ["a"] && !Usual(st, r.stmts)
      && StmtText(st, r.stmts[0], 0, 0) == " #"
  {
    var tokens := [Token("#", 1, true), Token("a", 1, false), Token(";", 1, false)];
    assert ScanArgs(tokens, 2) == Args([], [], 2) && ScanArgs(tokens, 1) == Args(["a"], [], 2);
    var turn := Turn(e, tokens, 0, ctx, false, inc);
    assert CommentStmts(e, 1, []) == [];
    assert turn.Done? && turn.next == 3;
    var more := inc + |turn.queued|;
    BlockIs(e, tokens, 0, ctx, false, inc, turn, more, Block(e, tokens, 3, ctx, false, more));
    BareHash();
  }

  // ---- Formatting a text ----

  /** The text is lexed and parsed to `block`, with comments kept and nothing ignored. */
  ghost predicate ParsedAs(st: Style, e: Env, text: string, ctx: seq<string>, inc: nat, block: seq<Stmt>) {
    && e.comments && (forall d :: !e.ignore(d)) && Lex(st.custom, text).Lexed?
    && var r := Block(e, Lex(st.custom, text).tokens, 0, ctx, false, inc);
    r.Done? && block == r.stmts
  }

  /** What is parsed from a text is shaped if and only if it is usual. */
  lemma ParsedIsShapedIff(st: Style, e: Env, text: string, ctx: seq<string>, inc: nat, block: seq<Stmt>)
    requires ParsedAs(st, e, text, ctx, inc, block)
    ensures PlainRun(e, block) && (AllShaped(st, block) <==> Usual(st, block))
  {
    LexedIsTidy(st.custom, text);
    var r := BlockNeat(e, Lex(st.custom, text).tokens, 0, ctx, false, inc);
    ShapedIffUsual(st, block);
  }

  /**
    * A formatted text is lexed to the words that were parsed if and only if no statement is an `if`,
    * all strings are faithful, and no comment comes last.
    */
  lemma FormattedIsReadIff(st: Style, e: Env, text: string, indent: int, ctx: seq<string>, inc: nat, block: seq<Stmt>)
    requires ParsedAs(st, e, text, ctx, inc, block) && Usual(st, block)
    ensures var r := Lex(st.custom, Built(st, block, indent, false));
      r.Lexed? && Strip(r.tokens) == BlockWords(Merged(block)) <==> AllSpoken(st, block) && !EndsInRemark(block)
  {
    ParsedIsShapedIff(st, e, text, ctx, inc, block);
    ReadBackIffSpoken(st, block, indent);
  }

  /** Where it is, formatting again gives the same text if and only if the text was steady. */
  lemma FormatTextTwice(st: Style, e: Env, text: string, indent: int, ctx: seq<string>, inc: nat, block: seq<Stmt>)
    requires ParsedAs(st, e, text, ctx, inc, block) && Usual(st, block) && !st.isPrint('\n')
    requires AllSpoken(st, block) && !EndsInRemark(block)
    ensures var r := Lex(st.custom, Built(st, block, indent, false));
      && r.Lexed? && WellNested(r.tokens)
      && var again := Block(e, r.tokens, 0, ctx, false, inc);
      again.Done? && (Built(st, again.stmts, indent, false) == Built(st, block, indent, false) <==> Steady(block))
  {
    ParsedIsShapedIff(st, e, text, ctx, inc, block);
    SayableIs(st, block);
    FormatTwice(st, e, block, indent, ctx, inc);
  }
}
