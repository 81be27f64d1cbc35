/** The words that are not read back: `if`, and the strings on which printer and lexer disagree. */
module StrayWords {
  import opened Text
  import opened ConfigLex
  import opened ConfigTree
  import opened ConfigBuild
  import opened WordRoundTrip
  import opened PrintedTree
  import opened FormatRoundTrip

  // ---- A token that has gone astray ----

  /** Whatever is still read, token `n` does not become the word `w`, or the run ends in a Lua block. */
  predicate Astray(s: Lx, n: nat, w: Word) {
    || s.mode.Lua?
    || (if |s.tokens| > n then Word(s.tokens[n].text, s.tokens[n].quote) != w
        else
          && |s.tokens| == n && w.text < s.token
          && (s.mode.Top? || s.mode.Escape? || s.mode.Variable? || s.mode.Comment?))
  }

  /** A pending word or comment takes the rune, or is emitted first. */
  lemma WordGoesOn(s: Lx, c: char)
    requires s.token != "" && (s.mode.Top? || s.mode.Escape? || s.mode.Variable? || s.mode.Comment?)
    ensures var t, n := Feed(s, c), |s.tokens|;
      || t.mode.Lua?
      || (|t.tokens| > n && t.tokens[n].text == s.token)
      || (|t.tokens| == n && t.token == s.token + [c]
          && (t.mode.Top? || t.mode.Escape? || t.mode.Variable? || t.mode.Comment?))
  {
  }

  lemma AstrayStep(s: Lx, c: char, n: nat, w: Word)
    requires Astray(s, n, w)
    ensures Astray(Feed(s, c), n, w)
  {
    if !s.mode.Lua? {
      if |s.tokens| > n {
        TokensGrow(s, c);
        assert Feed(s, c).tokens[n] == s.tokens[n];
      } else {
        WordGoesOn(s, c);
      }
    }
  }

  lemma {:induction false} RunAstray(s: Lx, text: string, n: nat, w: Word)
    requires Astray(s, n, w)
    ensures Astray(Run(s, text), n, w)
    decreases |text|
  {
    if text != "" {
      AstrayStep(s, text[0], n, w);
      RunAstray(Feed(s, text[0]), text[1..], n, w);
    }
  }

  lemma {:induction false} TokensStay(s: Lx, text: string)
    ensures s.tokens <= Run(s, text).tokens
    decreases |text|
  {
    if text != "" {
      TokensGrow(s, text[0]);
      TokensStay(Feed(s, text[0]), text[1..]);
    }
  }

  // ---- One word ----

  /** A word that is not faithful, printed and followed by a space or a semicolon. */
  lemma WordStrays(st: Style, s: Lx, w: string, c: char)
    requires Idle(s) && !Faithful(st, w) && (c == ' ' || c == ';')
    ensures Astray(Run(s, Enquoted(st, w) + [c]), |s.tokens|, Printed(w))
  {
    var t := Run(s, Enquoted(st, w));
    RunAppend(s, Enquoted(st, w), [c]);
    if NeedsQuote(w) {
      ReadQuoted(st, s, w);
      ImageIsSelf(st, w);
      QuotedStrays(s, t, Images(st, Squeezed(w)), w);
      RunAstray(t, [c], |s.tokens|, Printed(w));
    } else {
      BareWhenUnquoted(w);
      BareStrays(s, w, c);
    }
  }

  lemma QuotedStrays(s: Lx, t: Lx, image: string, w: string)
    requires SaidQuoted(s, t, image) && image != w
    ensures Astray(t, |s.tokens|, Word(w, true))
  {
    if !t.mode.Lua? {
      var n := |s.tokens|;
      assert Strip(t.tokens)[n] == Word(image, true);
    }
  }

  lemma BareStrays(s: Lx, w: string, c: char)
    requires Idle(s) && w != "" && Bare(w) && (w[0] == '#' || OpenEscape(false, w)) && (c == ' ' || c == ';')
    ensures Astray(Run(Run(s, w), [c]), |s.tokens|, Word(w, false))
  {
    var t := Run(s, w);
    RunOne(t, c);
    if w[0] == '#' {
      HashStarts(s, w);
    } else {
      ReadWord(s, w);
    }
    assert w < w + [c];
  }

  lemma HashStarts(s: Lx, w: string)
    requires Idle(s) && w != "" && Bare(w) && w[0] == '#'
    ensures var t := Run(s, w); t.mode.Comment? && t.token == w && t.tokens == s.tokens
  {
    assert forall i :: 0 <= i < |w| ==> !Special(w[i]);
    StartRemark(s);
    ReadComment(Feed(s, '#'), w[1..]);
    assert w == ['#'] + w[1..];
    RunCons(s, '#', w[1..]);
  }

  lemma BareIf()
    ensures !NeedsQuote("if")
  {
    EscapeFromPlain('\0', "if");
  }

  lemma PrintedStarts(st: Style, a: string)
    ensures Enquoted(st, a) != "" && !IsSpace(Enquoted(st, a)[0]) && !IsPunct(Enquoted(st, a)[0])
  {
    if !NeedsQuote(a) {
      BareWhenUnquoted(a);
    }
  }

  /** What follows the letters of `if` in a printed statement goes on with the word. */
  lemma IfHead(st: Style, stmt: Stmt) returns (c: char)
    requires stmt.directive == "if"
    ensures !IsSpace(c) && !IsPunct(c) && " if" + [c] <= HeadText(st, stmt) && !NeedsQuote("if")
  {
    BareIf();
    var args := EnquotedAll(st, stmt.args);
    if args == [] {
      c := ')';
    } else {
      PrintedStarts(st, stmt.args[0]);
      c := args[0][0];
      assert Join(args)[0] == c;
    }
  }

  lemma IfStrays(s: Lx, c: char)
    requires Idle(s) && !IsSpace(c) && !IsPunct(c)
    ensures Astray(Run(s, " if" + [c]), |s.tokens|, Word("if", false))
  {
    var a := Feed(s, ' ');
    var b := Feed(a, 'i');
    var d := Feed(b, 'f');
    assert d.token == "if" && d.mode.Top? && d.tokens == s.tokens;
    assert " if" + [c] == [' '] + (['i'] + (['f'] + [c]));
    RunCons(s, ' ', ['i'] + (['f'] + [c]));
    RunCons(a, 'i', ['f'] + [c]);
    RunCons(b, 'f', [c]);
    RunOne(d, c);
    assert Feed(d, c).token == "if" + [c] && "if" < "if" + [c];
  }

  // ---- The head of a statement ----

  /** Reading `q`, the beginning of a text, gives `ws` and the first `n` of `words`, but not the next. */
  ghost predicate LostAt(s: Lx, text: string, ws: seq<Word>, words: seq<Word>, q: string, n: nat) {
    && q <= text && n < |words| && Astray(Run(s, q), |ws| + n, words[n])
    && ws + words[..n] <= Strip(Run(s, q).tokens)
  }

  lemma LostLonger(s: Lx, text: string, longer: string, ws: seq<Word>, words: seq<Word>, q: string, n: nat)
    requires LostAt(s, text, ws, words, q, n) && text <= longer
    ensures LostAt(s, longer, ws, words, q, n)
  {
  }

  lemma LostFirst(s: Lx, text: string, ws: seq<Word>, a: seq<Word>, b: seq<Word>, q: string, n: nat)
    requires LostAt(s, text, ws, a, q, n)
    ensures LostAt(s, text, ws, a + b, q, n)
  {
    assert (a + b)[n] == a[n] && (a + b)[..n] == a[..n];
  }

  lemma LostLater(s: Lx, text: string, ws: seq<Word>, a: seq<Word>, b: seq<Word>, q: string, k: nat) returns (n: nat)
    requires LostAt(s, text, ws + a, b, q, k)
    ensures LostAt(s, text, ws, a + b, q, n)
  {
    n := |a| + k;
    assert (a + b)[n] == b[k] && (a + b)[..n] == a + b[..k] && ws + (a + b[..k]) == ws + a + b[..k];
    assert |ws + a| + k == |ws| + n;
  }

  lemma LostBehind(s: Lx, before: string, text: string, ws: seq<Word>, words: seq<Word>, r: string, n: nat)
    requires LostAt(Run(s, before), text, ws, words, r, n)
    ensures LostAt(s, before + text, ws, words, before + r, n)
  {
    RunAppend(s, before, r);
  }

  predicate AllFaithful(st: Style, words: seq<string>) {
    words != [] ==> Faithful(st, words[0]) && AllFaithful(st, words[1..])
  }

  lemma {:induction false} AllFaithfulIs(st: Style, words: seq<string>)
    ensures AllFaithful(st, words) <==> forall w <- words :: Faithful(st, w)
    decreases |words|
  {
    if words != [] {
      AllFaithfulIs(st, words[1..]);
      assert words == [words[0]] + words[1..];
    }
  }

  /** Words joined by spaces, one of them not faithful. */
  lemma {:induction false} WordsStray(st: Style, s: Lx, words: seq<string>, tail: string) returns (q: string, n: nat)
    requires Idle(s) && !AllFaithful(st, words) && tail != "" && (tail[0] == ' ' || tail[0] == ';')
    requires !(s.directive && words[0] in s.custom)
    ensures LostAt(s, Join(EnquotedAll(st, words)) + tail, Strip(s.tokens), PrintedAll(words), q, n)
    decreases |words|
  {
    if !Faithful(st, words[0]) {
      q := FirstStrays(st, s, words, tail);
      n := 0;
    } else {
      q, n := LaterStrays(st, s, words, tail);
    }
  }

  lemma FirstStrays(st: Style, s: Lx, words: seq<string>, tail: string) returns (q: string)
    requires Idle(s) && words != [] && !Faithful(st, words[0]) && tail != "" && (tail[0] == ' ' || tail[0] == ';')
    ensures LostAt(s, Join(EnquotedAll(st, words)) + tail, Strip(s.tokens), PrintedAll(words), q, 0)
  {
    var c := if |words| == 1 then tail[0] else ' ';
    q := Enquoted(st, words[0]) + [c];
    WordStrays(st, s, words[0], c);
    HeadPrefix(st, words, tail, c);
    TokensStay(s, q);
    StripPrefix(s.tokens, Run(s, q).tokens);
    assert Strip(s.tokens) + PrintedAll(words)[..0] == Strip(s.tokens);
  }

  lemma {:induction false} LaterStrays(st: Style, s: Lx, words: seq<string>, tail: string) returns (q: string, n: nat)
    requires Idle(s) && words != [] && Faithful(st, words[0]) && !AllFaithful(st, words)
    requires tail != "" && (tail[0] == ' ' || tail[0] == ';') && !(s.directive && words[0] in s.custom)
    ensures LostAt(s, Join(EnquotedAll(st, words)) + tail, Strip(s.tokens), PrintedAll(words), q, n)
    decreases |words|, 0
  {
    var e, rest := Enquoted(st, words[0]) + [' '], words[1..];
    var first, text := [Printed(words[0])], Join(EnquotedAll(st, rest)) + tail;
    WordsBehind(st, words, tail);
    ReadThenSpace(st, s, words[0]);
    var t := Run(s, e);
    var r, k := WordsStray(st, t, rest, tail);
    n := LostLater(t, text, Strip(s.tokens), first, PrintedAll(rest), r, k);
    LostBehind(s, e, text, Strip(s.tokens), first + PrintedAll(rest), r, n);
    q := e + r;
  }

  /** All but the first of the words. */
  lemma WordsBehind(st: Style, words: seq<string>, tail: string)
    requires |words| > 1
    ensures PrintedAll(words) == [Printed(words[0])] + PrintedAll(words[1..])
    ensures Join(EnquotedAll(st, words)) + tail
         == Enquoted(st, words[0]) + [' '] + (Join(EnquotedAll(st, words[1..])) + tail)
  {
    assert words == [words[0]] + words[1..];
    PrintedCons(words[0], words[1..]);
    JoinCons(st, words);
    AssocFour(Enquoted(st, words[0]), " ", Join(EnquotedAll(st, words[1..])), tail);
  }

  lemma AssocFour(a: string, b: string, c: string, d: string)
    ensures a + b + c + d == a + b + (c + d)
  {
  }

  lemma HeadPrefix(st: Style, words: seq<string>, tail: string, c: char)
    requires words != [] && tail != "" && c == if |words| == 1 then tail[0] else ' '
    ensures Enquoted(st, words[0]) + [c] <= Join(EnquotedAll(st, words)) + tail
  {
    if |words| == 1 {
      assert EnquotedAll(st, words[1..]) == [];
    } else {
      JoinCons(st, words);
    }
  }

  lemma StripPrefix(a: seq<Token>, b: seq<Token>)
    requires a <= b
    ensures Strip(a) <= Strip(b)
  {
  }

  // ---- Up to the first stray word ----

  /** The first word that goes astray is in the head of the statement. */
  predicate StrayHead(st: Style, stmt: Stmt) {
    && !IsRemark(stmt) && stmt.directive !in st.custom && Enquoted(st, stmt.directive) !in st.custom
    && (stmt.directive == "if" || !AllFaithful(st, [stmt.directive] + stmt.args))
  }

  /** The block holds a stray word, at any depth, and what comes before the first one is sayable. */
  predicate HoldsStray(st: Style, block: seq<Stmt>)
    decreases block
  {
    && block != []
    && (|| StrayHead(st, block[0])
        || (Sayable(st, block[0].(body := NoBlock)) && !IsRemark(block[0]) && block[0].body.Braces?
            && HoldsStray(st, block[0].body.stmts))
        || (Sayable(st, block[0]) && HoldsStray(st, block[1..])))
  }

  lemma {:induction false} HoldsStrayMerged(st: Style, block: seq<Stmt>)
    requires HoldsStray(st, block)
    ensures HoldsStray(st, Merged(block))
    decreases block
  {
    MergedParts(block);
    var b, rest, m := block[0], Merged(block[1..]), Merged(block);
    if StrayHead(st, b) {
      assert StrayHead(st, m[0]);
    } else if !IsRemark(b) && b.body.Braces? && Sayable(st, b.(body := NoBlock)) && HoldsStray(st, b.body.stmts) {
      HoldsStrayMerged(st, b.body.stmts);
      assert m[0].(body := NoBlock) == b.(body := NoBlock);
    } else {
      HoldsStrayMerged(st, block[1..]);
      MergedSayableOne(st, b, m[0]);
    }
  }

  lemma MergedSayableOne(st: Style, b: Stmt, m: Stmt)
    requires Sayable(st, b) && m.(comment := "", body := NoBlock) == b.(comment := "", body := NoBlock)
    requires m.body == if b.body.Braces? then Braces(Merged(b.body.stmts)) else NoBlock
    requires !IsRemark(b) ==> m.comment == b.comment
    requires '\n' in m.comment ==> '\n' in b.comment
    ensures Sayable(st, m)
  {
    if b.body.Braces? {
      MergedSayable(st, b.body.stmts);
    }
  }

  /** A shaped block whose words are not all spoken holds a stray word. */
  lemma {:induction false} UnspokenStrays(st: Style, block: seq<Stmt>)
    requires AllShaped(st, block) && !AllSpoken(st, block)
    ensures HoldsStray(st, block)
    decreases block
  {
    var b := block[0];
    if Spoken(st, b) {
      UnspokenStrays(st, block[1..]);
      SayableOne(st, b);
    } else if !StrayHead(st, b) {
      AllFaithfulIs(st, [b.directive] + b.args);
      assert b.directive in [b.directive] + b.args && forall a <- b.args :: a in [b.directive] + b.args;
      UnspokenStrays(st, b.body.stmts);
    }
  }

  lemma SayableOne(st: Style, b: Stmt)
    requires Shaped(st, b) && Spoken(st, b)
    ensures Sayable(st, b)
  {
    if b.body.Braces? {
      SayableIs(st, b.body.stmts);
    }
  }

  lemma {:induction false} ReadUpToStray(st: Style, s: Lx, output: string, block: seq<Stmt>, padding: int, depth: nat,
                                         lastLine: int, ws: seq<Word>) returns (q: string, n: nat)
    requires Settled(Run(s, output), ws) && Run(s, output).custom == st.custom && s.custom == st.custom
    requires HoldsStray(st, block) && Separate(block) && (output == "" ==> Idle(s))
    requires Run(s, output).mode.Comment? ==> !(IsRemark(block[0]) && block[0].line == lastLine)
    ensures LostAt(s, BlockText(st, output, block, padding, depth, lastLine), ws, BlockWords(block), q, n)
    decreases block
  {
    var stmt := block[0];
    var next := NextOutput(st, output, stmt, padding, depth, lastLine);
    var text := BlockText(st, output, block, padding, depth, lastLine);
    NextIs(st, output, block, padding, depth, lastLine, next);
    if Sayable(st, stmt) && HoldsStray(st, block[1..]) {
      SayableFirst(st, s, output, block, padding, depth, lastLine, ws, next);
      q, n := ReadUpToStray(st, s, next, block[1..], padding, depth, stmt.line, ws + StmtWords(stmt));
      n := LostLater(s, text, ws, StmtWords(stmt), BlockWords(block[1..]), q, n);
    } else {
      if StrayHead(st, stmt) {
        q, n := StrayHere(st, s, output, stmt, padding, depth, lastLine, ws);
      } else {
        q, n := StrayInside(st, s, output, block, padding, depth, lastLine, ws);
      }
      LostLonger(s, next, text, ws, StmtWords(stmt), q, n);
      LostFirst(s, text, ws, StmtWords(stmt), BlockWords(block[1..]), q, n);
    }
  }

  lemma NextIs(st: Style, output: string, block: seq<Stmt>, padding: int, depth: nat, lastLine: int, next: string)
    requires block != [] && next == NextOutput(st, output, block[0], padding, depth, lastLine)
    ensures BlockText(st, output, block, padding, depth, lastLine)
         == BlockText(st, next, block[1..], padding, depth, block[0].line)
    ensures next <= BlockText(st, output, block, padding, depth, lastLine)
  {
    EnquotedIsHash(st, block[0]);
    TextExtends(st, next, block[1..], padding, depth, block[0].line);
  }

  lemma {:induction false} TextExtends(st: Style, out: string, block: seq<Stmt>, padding: int, depth: nat, last: int)
    ensures out <= BlockText(st, out, block, padding, depth, last)
    decreases block
  {
    if block != [] {
      EnquotedIsHash(st, block[0]);
      TextExtends(st, NextOutput(st, out, block[0], padding, depth, last), block[1..], padding, depth, block[0].line);
    }
  }

  /** On the fresh line of a statement with a stray word in its head. */
  lemma StrayHere(st: Style, s: Lx, output: string, stmt: Stmt, padding: int, depth: nat, lastLine: int, ws: seq<Word>)
    returns (q: string, n: nat)
    requires Settled(Run(s, output), ws) && (output == "" ==> Idle(s)) && Run(s, output).custom == st.custom
    requires StrayHead(st, stmt)
    ensures LostAt(s, NextOutput(st, output, stmt, padding, depth, lastLine), ws, StmtWords(stmt), q, n)
  {
    EnquotedIsHash(st, stmt);
    var before := output + (if output != "" then "\n" else "") + Spaces(padding * depth);
    var u, text := Run(s, before), StmtText(st, stmt, padding, depth);
    Indent(s, output, ws, padding * depth);
    var r;
    if stmt.directive == "if" {
      r, n := IfHere(st, u, stmt, padding, depth);
    } else {
      r, n := WordsHere(st, u, stmt, padding, depth);
    }
    q := before + r;
    LostBehind(s, before, text, ws, StmtWords(stmt), r, n);
  }

  lemma IfHere(st: Style, u: Lx, stmt: Stmt, padding: int, depth: nat) returns (q: string, n: nat)
    requires Idle(u) && StrayHead(st, stmt) && stmt.directive == "if"
    ensures LostAt(u, StmtText(st, stmt, padding, depth), Strip(u.tokens), StmtWords(stmt), q, n)
  {
    var c := IfHead(st, stmt);
    q, n := " if" + [c], 0;
    EnquotedIsHash(st, stmt);
    if stmt.body.Braces? {
      TextExtends(st, HeadText(st, stmt) + " {", stmt.body.stmts, padding, depth + 1, stmt.line);
    }
    assert q <= StmtText(st, stmt, padding, depth);
    assert PrintedAll([stmt.directive] + stmt.args)[0] == Word("if", false);
    IfStrays(u, c);
    TokensStay(u, q);
    StripPrefix(u.tokens, Run(u, q).tokens);
    assert Strip(u.tokens) + StmtWords(stmt)[..0] == Strip(u.tokens);
  }

  lemma WordsHere(st: Style, u: Lx, stmt: Stmt, padding: int, depth: nat) returns (q: string, n: nat)
    requires Idle(u) && StrayHead(st, stmt) && stmt.directive != "if" && u.custom == st.custom
    ensures LostAt(u, StmtText(st, stmt, padding, depth), Strip(u.tokens), StmtWords(stmt), q, n)
  {
    var words := [stmt.directive] + stmt.args;
    var tail := if stmt.body.NoBlock? then ";" else " {";
    EnquotedIsHash(st, stmt);
    HeadIsJoin(st, stmt);
    q, n := WordsStray(st, u, words, tail);
    if stmt.body.Braces? {
      TextExtends(st, HeadText(st, stmt) + " {", stmt.body.stmts, padding, depth + 1, stmt.line);
    }
    var text := StmtText(st, stmt, padding, depth);
    LostLonger(u, HeadText(st, stmt) + tail, text, Strip(u.tokens), PrintedAll(words), q, n);
    StmtWordsSplit(stmt);
    LostFirst(u, text, Strip(u.tokens), PrintedAll(words), Tail(stmt), q, n);
  }

  lemma SayableFirst(st: Style, s: Lx, output: string, block: seq<Stmt>, padding: int, depth: nat, lastLine: int,
                     ws: seq<Word>, next: string)
    requires Settled(Run(s, output), ws) && Run(s, output).custom == st.custom && s.custom == st.custom
    requires |block| > 1 && Sayable(st, block[0]) && Separate(block) && (output == "" ==> Idle(s))
    requires Run(s, output).mode.Comment? ==> !(IsRemark(block[0]) && block[0].line == lastLine)
    requires next == NextOutput(st, output, block[0], padding, depth, lastLine)
    ensures Settled(Run(s, next), ws + StmtWords(block[0])) && Run(s, next).custom == st.custom && next != ""
    ensures Separate(block[1..])
    ensures Run(s, next).mode.Comment? ==> !(IsRemark(block[1..][0]) && block[1..][0].line == block[0].line)
  {
    var one := [block[0]];
    assert one[1..] == [] && AllSayable(st, []) && Separate([]) && AllSayable(st, one) && Separate(one);
    ReadNext(st, s, output, one, padding, depth, lastLine, ws);
    assert block[1..][0] == block[1];
    EnquotedIsHash(st, block[0]);
  }

  /** The stray word is in the block of the first statement. */
  lemma {:induction false} StrayInside(st: Style, s: Lx, output: string, block: seq<Stmt>, padding: int, depth: nat,
                                       lastLine: int, ws: seq<Word>) returns (q: string, n: nat)
    requires Settled(Run(s, output), ws) && Run(s, output).custom == st.custom && s.custom == st.custom
    requires block != [] && Sayable(st, block[0].(body := NoBlock)) && !IsRemark(block[0]) && block[0].body.Braces?
    requires HoldsStray(st, block[0].body.stmts) && Separate(block) && (output == "" ==> Idle(s))
    ensures LostAt(s, NextOutput(st, output, block[0], padding, depth, lastLine), ws, StmtWords(block[0]), q, n)
    decreases block, 0
  {
    var stmt := block[0];
    EnquotedIsHash(st, stmt);
    var before := output + (if output != "" then "\n" else "") + Spaces(padding * depth);
    Indent(s, output, ws, padding * depth);
    var r;
    r, n := StrayWithin(st, Run(s, before), stmt, padding, depth);
    LostBehind(s, before, StmtText(st, stmt, padding, depth), ws, StmtWords(stmt), r, n);
    q := before + r;
  }

  lemma {:induction false} StrayWithin(st: Style, u: Lx, stmt: Stmt, padding: int, depth: nat)
    returns (q: string, n: nat)
    requires Idle(u) && u.custom == st.custom && Sayable(st, stmt.(body := NoBlock)) && !IsRemark(stmt)
    requires stmt.body.Braces? && HoldsStray(st, stmt.body.stmts) && Separate(stmt.body.stmts)
    ensures LostAt(u, StmtText(st, stmt, padding, depth), Strip(u.tokens), StmtWords(stmt), q, n)
    decreases stmt, 1
  {
    var inner, head, ws := stmt.body.stmts, HeadText(st, stmt) + " {", Strip(u.tokens);
    var bare := stmt.(body := NoBlock);
    assert HeadText(st, bare) == HeadText(st, stmt);
    ReadHead(st, u, bare);
    var a := PrintedAll([stmt.directive] + stmt.args) + [OPEN_BRACE];
    var k;
    q, k := ReadUpToStray(st, u, head, inner, padding, depth + 1, stmt.line, ws + a);
    EnquotedIsHash(st, stmt);
    var close := "\n" + Spaces(padding * depth) + "}";
    var text := BlockText(st, head, inner, padding, depth + 1, stmt.line);
    assert StmtText(st, stmt, padding, depth) == text + close;
    n := LostInside(u, text, close, ws, a, BlockWords(inner), q, k);
  }

  lemma LostInside(u: Lx, text: string, close: string, ws: seq<Word>, a: seq<Word>, b: seq<Word>, q: string, k: nat)
    returns (n: nat)
    requires LostAt(u, text, ws + a, b, q, k)
    ensures LostAt(u, text + close, ws, a + b + [CLOSE_BRACE], q, n)
  {
    n := LostLater(u, text, ws, a, b, q, k);
    LostFirst(u, text, ws, a + b, [CLOSE_BRACE], q, n);
    LostLonger(u, text, text + close, ws, a + b + [CLOSE_BRACE], q, n);
  }

  // ---- The theorems ----

  /**
    * A configuration with a stray word, an `if` or a string that is not faithful, and something
    * sayable before the first one: the words before it are read back, and it is not.
    */
  lemma StrayIsNotReadBack(st: Style, block: seq<Stmt>, indent: int) returns (n: nat)
    requires HoldsStray(st, block)
    ensures var words, r := BlockWords(Merged(block)), Lex(st.custom, Built(st, block, indent, false));
      && n < |words|
      && (r.Lexed? ==>
            && words[..n] <= Strip(r.tokens) && (n < |r.tokens| ==> Strip(r.tokens)[n] != words[n])
            && Strip(r.tokens) != words)
  {
    var m, s, text := Merged(block), Start(st.custom), Built(st, block, indent, false);
    HoldsStrayMerged(st, block);
    MergedSeparate(block);
    MergedText(st, "", block, indent, 0, 0);
    assert Run(s, "") == s && Strip(s.tokens) == [];
    var q;
    q, n := ReadUpToStray(st, s, "", m, indent, 0, 0, []);
    LostForGood(s, text, BlockWords(m), q, n);
  }

  lemma LostForGood(s: Lx, text: string, words: seq<Word>, q: string, n: nat)
    requires LostAt(s, text, [], words, q, n)
    ensures var r := Finish(Run(s, text));
      r.Lexed? ==>
        && words[..n] <= Strip(r.tokens) && (n < |r.tokens| ==> Strip(r.tokens)[n] != words[n])
        && Strip(r.tokens) != words
  {
    var a, rest := Run(s, q), text[|q|..];
    assert text == q + rest && [] + words[..n] == words[..n];
    RunAppend(s, q, rest);
    RunAstray(a, rest, n, words[n]);
    TokensStay(a, rest);
    StripPrefix(a.tokens, Run(a, rest).tokens);
  }

  /**
    * Of a shaped configuration the printed text is lexed to its words if and only if no statement is
    * an `if`, all its strings are faithful, and it does not end in a comment.
    */
  lemma ReadBackIffSpoken(st: Style, block: seq<Stmt>, indent: int)
    requires AllShaped(st, block)
    ensures var r := Lex(st.custom, Built(st, block, indent, false));
      r.Lexed? && Strip(r.tokens) == BlockWords(Merged(block)) <==> AllSpoken(st, block) && !EndsInRemark(block)
  {
    if AllSpoken(st, block) {
      SayableIs(st, block);
      LexBuilt(st, block, indent);
    } else {
      UnspokenStrays(st, block);
      var n := StrayIsNotReadBack(st, block, indent);
    }
  }
}
