/** config_lex.go: the lexer, without the Lua block lexers it can hand over to. */
module ConfigLex {
  import opened Text

  datatype Token = Token(text: string, line: nat, quote: bool)

  /**
    * What `lex` comes to. The source has no result for a text that ends inside a comment, a
    * quoted string or an unclosed `${`: it reads the end-of-input rune forever. `LuaBlock` is
    * the point where it hands its input to a Lua block lexer.
    */
  datatype LexResult = Lexed(tokens: seq<Token>) | Unterminated | LuaBlock

  // ---- The reference: a transducer that reads one rune at a time ----

  /** Which read of the source's nested loops comes next. */
  datatype Mode =
    | Top | Skip | Comment(from: nat) | Escape | Variable | Quote(mark: char)
    | QuoteEscape(mark: char) | Lua

  /**
    * `line` is where the pending token began, `at` the line reached by the input, and `custom` the
    * directives with a lexer of their own.
    */
  datatype Lx = Lx(mode: Mode, token: string, tokens: seq<Token>, line: nat, directive: bool, at: nat,
                   custom: set<string>)
  {
    function Push(c: char): Lx { this.(token := token + [c]) }

    function Emit(from: nat, quote: bool): Lx {
      this.(token := "", tokens := tokens + [Token(token, from, quote)])
    }

    /** Emits the pending token as a word that may name a directive with its own lexer. */
    function EmitWord(quote: bool): Lx {
      if directive && token in custom then Emit(line, quote).(mode := Lua)
      else Emit(line, quote).(directive := false)
    }
  }

  /** Between tokens. */
  predicate Idle(s: Lx) { s.token == "" && (s.mode.Top? || s.mode.Skip?) }

  function Start(custom: set<string>): Lx { Lx(Top, "", [], 0, false, 1, custom) }

  function Feed(s: Lx, c: char): Lx {
    var s := if c == '\n' then s.(at := s.at + 1) else s;
    match s.mode
    case Lua => s
    case Top =>
      if !IsSpace(c) then FeedWord(s, c)
      else if s.token == "" then s.(mode := Skip)
      else var t := s.EmitWord(false); if t.mode.Lua? then t else t.(mode := Skip)
    case Skip => if IsSpace(c) then s else FeedWord(s.(mode := Top), c)
    case Comment(from) => if c == '\n' then s.Emit(from, false).(mode := Top) else s.Push(c)
    case Escape => s.Push(c).(mode := Top)
    case Variable => if !EndsWith(s.token, '}') && !IsSpace(c) then s.Push(c) else FeedRest(s.(mode := Top), c)
    case Quote(mark) =>
      if c == mark then s.(mode := Top).EmitWord(true)
      else if c == '\\' then s.(mode := QuoteEscape(mark))
      else s.Push(c)
    case QuoteEscape(mark) =>
      (if c == mark then s.Push(mark) else s.Push('\\').Push(c)).(mode := Quote(mark))
  }

  /** A rune that does not continue a run of white space. */
  function FeedWord(s: Lx, c: char): Lx {
    if s.token == "" && c == '#' then s.Push(c).(mode := Comment(s.at))
    else if c == '\\' then s.Push(c).(mode := Escape)
    else
      var t := if s.token == "" then s.(line := s.at) else s;
      if EndsWith(t.token, '$') && c == '{' then t.Push(c).(mode := Variable, directive := false)
      else FeedRest(t, c)
  }

  function FeedRest(s: Lx, c: char): Lx {
    if IsQuote(c) then if s.token != "" then s.Push(c) else s.(mode := Quote(c))
    else if IsPunct(c) then
      var t := if s.token != "" then s.Emit(s.line, false) else s;
      t.(tokens := t.tokens + [Token([c], s.at, false)], directive := true)
    else s.Push(c)
  }

  function Run(s: Lx, text: string): Lx { Fold(Feed, s, text) }

  /** What the source does when the input ends here. */
  function Finish(s: Lx): LexResult {
    match s.mode
    case Lua => LuaBlock
    case Comment(_) => Unterminated
    case Quote(_) => Unterminated
    case QuoteEscape(_) => Unterminated
    case Variable => if EndsWith(s.token, '}') then Lexed(s.tokens) else Unterminated
    case _ => Lexed(s.tokens)
  }

  function Lex(custom: set<string>, text: string): LexResult { Finish(Run(Start(custom), text)) }

  lemma RunAppend(s: Lx, a: string, b: string)
    ensures Run(s, a + b) == Run(Run(s, a), b)
  {
    FoldAppend(Feed, s, a, b);
  }

  lemma RunOne(s: Lx, c: char)
    ensures Run(s, [c]) == Feed(s, c)
  {
    FoldOne(Feed, s, c);
  }

  lemma RunCons(s: Lx, c: char, rest: string)
    ensures Run(s, [c] + rest) == Run(Feed(s, c), rest)
  {
    RunAppend(s, [c], rest);
    RunOne(s, c);
  }

  /** Emitted tokens stay. */
  lemma TokensGrow(s: Lx, c: char)
    ensures s.tokens <= Feed(s, c).tokens
  {
  }

  /** Nothing read after a Lua block begins changes the result. */
  lemma {:induction false} LuaIsFinal(custom: set<string>, text: string, k: nat)
    requires k <= |text| && Run(Start(custom), text[..k]).mode == Lua
    ensures Lex(custom, text) == LuaBlock
    decreases |text| - k
  {
    if k == |text| {
      assert text[..k] == text;
    } else {
      assert text[..k + 1] == text[..k] + [text[k]];
      FoldAppend(Feed, Start(custom), text[..k], [text[k]]);
      LuaIsFinal(custom, text, k + 1);
    }
  }

  // ---- The source's own form ----

  class LineCounter {
    const text: string
    var idx: nat
    var line: nat

    constructor (text: string)
      ensures this.text == text && idx == 0 && line == 1
    {
      this.text := text;
      idx, line := 0, 1;
    }

    ghost predicate Valid()
      reads this
    {
      idx <= |text| && line == LineOf(text, idx)
    }

    method Next() returns (ch: char, ln: nat, eof: bool)
      requires Valid()
      modifies this
      ensures Valid()
      ensures eof == (old(idx) == |text|)
      ensures eof ==> ch == '\0' && ln == 0 && idx == old(idx) && line == old(line)
      ensures !eof ==> idx == old(idx) + 1 && ch == text[old(idx)] && ln == line
      ensures !eof ==> line == old(line) + if ch == '\n' then 1 else 0
    {
      if idx == |text| {
        return '\0', 0, true;
      }
      ch := text[idx];
      if ch == '\n' {
        line := line + 1;
      }
      idx := idx + 1;
      return ch, line, false;
    }
  }

  class Lexer {
    var token: string
    var tokens: seq<Token>
    var line: nat
    var nextTokenIsDirective: bool
    const iter: LineCounter
    const externalLexer: set<string>

    constructor (text: string, custom: set<string>)
      ensures externalLexer == custom
      ensures token == "" && tokens == [] && line == 0 && !nextTokenIsDirective
      ensures fresh(iter) && iter.text == text && iter.idx == 0 && iter.line == 1
    {
      token, tokens, line, nextTokenIsDirective, externalLexer := "", [], 0, false, custom;
      iter := new LineCounter(text);
    }

    /** The fields as a state of the transducer. */
    ghost function State(mode: Mode): Lx
      reads this, iter
    {
      Lx(mode, token, tokens, line, nextTokenIsDirective, iter.line, externalLexer)
    }

    /** The transducer's state on what has been read. */
    ghost function Read(): Lx
      reads iter
      requires iter.Valid()
    {
      Run(Start(externalLexer), iter.text[..iter.idx])
    }

    /** The input has ended, and with it the run, whatever is left in `token`. */
    ghost predicate Ended()
      reads this, iter
    {
      iter.Valid() && iter.idx == |iter.text| && Lex(externalLexer, iter.text) == Lexed(tokens)
    }

    method Next() returns (ch: char, ln: nat, eof: bool)
      requires iter.Valid()
      modifies iter
      ensures iter.Valid()
      ensures eof == (old(iter.idx) == |iter.text|)
      ensures eof ==> ch == '\0' && ln == 0 && iter.idx == old(iter.idx) && iter.line == old(iter.line)
      ensures eof ==> iter.idx == |iter.text| && Lex(externalLexer, iter.text) == Finish(old(Read()))
      ensures !eof ==> iter.idx == old(iter.idx) + 1 && ln == iter.line
      ensures !eof ==> iter.line == old(iter.line) + if ch == '\n' then 1 else 0
      ensures !eof ==> Read() == Feed(old(Read()), ch)
    {
      ghost var done := iter.text[..iter.idx];
      ch, ln, eof := iter.Next();
      if eof {
        assert done == iter.text;
      } else {
        assert iter.text[..iter.idx] == done + [ch];
        FoldAppend(Feed, Start(externalLexer), done, [ch]);
      }
    }

    /** Reads past white space. The input may end there. */
    method SkipSpace(ch0: char, ln0: nat) returns (ch: char, ln: nat, eof: bool)
      requires iter.Valid() && IsSpace(ch0) && token == "" && Read() == State(Skip)
      modifies iter
      ensures iter.Valid() && old(iter.idx) <= iter.idx
      ensures eof ==> ch == '\0' && Ended()
      ensures !eof ==> !IsSpace(ch) && ln == iter.line && Read() == FeedWord(State(Top), ch)
    {
      ch, ln, eof := ch0, ln0, false;
      while IsSpace(ch)
        invariant iter.Valid() && old(iter.idx) <= iter.idx
        invariant eof ==> ch == '\0' && Ended()
        invariant IsSpace(ch) ==> !eof && Read() == State(Skip)
        invariant !IsSpace(ch) && !eof ==> ln == iter.line && Read() == FeedWord(State(Top), ch)
        decreases |iter.text| - iter.idx, IsSpace(ch)
      {
        ch, ln, eof := Next();
      }
    }

    /** A comment runs to the end of its line; `closed` is false when the source never returns. */
    method ScanComment(ln: nat) returns (closed: bool)
      requires iter.Valid() && token == "" && Read() == State(Comment(ln)).Push('#')
      modifies this, iter
      ensures iter.Valid() && old(iter.idx) <= iter.idx
      ensures closed ==> Read() == State(Top)
      ensures !closed ==> Lex(externalLexer, iter.text) == Unterminated
    {
      var ch, eof := '#', false;
      var l := ln;
      while ch != '\n'
        invariant iter.Valid() && old(iter.idx) <= iter.idx
        invariant ch != '\n' ==> Read() == State(Comment(ln)).Push(ch)
        invariant ch == '\n' ==> Read() == State(Comment(ln)).Emit(ln, false).(mode := Top)
        decreases |iter.text| - iter.idx, ch != '\n'
      {
        token := token + [ch];
        ch, l, eof := Next();
        if eof {
          return false;
        }
      }
      tokens := tokens + [Token(token, ln, false)];
      token := "";
      return true;
    }

    /** The inner loop over `${`; it may end on the end of the input when `}` was its last rune. */
    method ScanVariable() returns (ch: char, ln: nat, eof: bool, closed: bool)
      requires iter.Valid() && EndsWith(token, '$') && Read() == State(Variable).Push('{')
      modifies this`token, iter
      ensures iter.Valid() && old(iter.idx) <= iter.idx && token != ""
      ensures !closed ==> Lex(externalLexer, iter.text) == Unterminated
      ensures closed && eof ==> ch == '\0' && Ended()
      ensures closed && !eof ==> ln == iter.line && Read() == FeedRest(State(Top), ch)
    {
      ch, ln, eof, closed := '{', 0, false, true;
      while !EndsWith(token, '}') && !IsSpace(ch)
        invariant iter.Valid() && old(iter.idx) <= iter.idx && token != ""
        invariant !EndsWith(token, '}') && !IsSpace(ch) ==> !eof && Read() == State(Variable).Push(ch)
        invariant eof ==> ch == '\0' && EndsWith(token, '}') && Ended()
        invariant (EndsWith(token, '}') || IsSpace(ch)) && !eof ==>
          ln == iter.line && Read() == FeedRest(State(Top), ch)
        decreases |iter.text| - iter.idx, !EndsWith(token, '}') && !IsSpace(ch)
      {
        token := token + [ch];
        ch, ln, eof := Next();
        if eof && !EndsWith(token, '}') {
          closed := false;
          return;
        }
      }
    }

    /** The rune after a backslash inside quotes. */
    method ScanEscape(quote: char) returns (eof: bool)
      requires iter.Valid() && Read() == State(QuoteEscape(quote))
      modifies this`token, iter
      ensures iter.Valid() && old(iter.idx) <= iter.idx
      ensures eof ==> Lex(externalLexer, iter.text) == Unterminated
      ensures !eof ==> Read() == State(Quote(quote))
    {
      var ch, ln;
      ch, ln, eof := Next();
      if ch == quote {
        token := token + [quote];
      } else {
        token := token + ['\\'] + [ch];
      }
    }

    /** Inside quotes, `ch` has been read and not yet dealt with. */
    ghost predicate InQuote(quote: char, ch: char, eof: bool)
      reads this, iter
    {
      iter.Valid() &&
      if eof then Lex(externalLexer, iter.text) == Unterminated && ch == '\0'
      else if ch == quote then Read() == State(Top).EmitWord(true)
      else if ch == '\\' then Read() == State(QuoteEscape(quote))
      else Read() == State(Quote(quote)).Push(ch)
    }

    method NextInQuote(quote: char) returns (ch: char, eof: bool)
      requires iter.Valid() && Read() == State(Quote(quote))
      modifies iter
      ensures InQuote(quote, ch, eof) && old(iter.idx) <= iter.idx
      ensures !eof ==> old(iter.idx) < iter.idx
    {
      var ln;
      ch, ln, eof := Next();
    }

    /** A quoted string up to its closing mark. */
    method ScanQuote(quote: char) returns (closed: bool)
      requires iter.Valid() && token == "" && IsQuote(quote) && Read() == State(Quote(quote))
      modifies this`token, iter
      ensures iter.Valid() && old(iter.idx) <= iter.idx
      ensures closed ==> Read() == State(Top).EmitWord(true)
      ensures !closed ==> Lex(externalLexer, iter.text) == Unterminated
    {
      var ch, eof := NextInQuote(quote);
      while ch != quote
        invariant InQuote(quote, ch, eof) && old(iter.idx) <= iter.idx
        decreases |iter.text| - iter.idx, !eof
      {
        if eof {
          return false;
        }
        if ch == '\\' {
          eof := ScanEscape(quote);
          if eof {
            return false;
          }
        } else {
          token := token + [ch];
        }
        ch, eof := NextInQuote(quote);
      }
      return true;
    }

    /** Where one turn of the main loop may leave things: going on, or with a result. */
    ghost predicate After(stop: bool, r: LexResult)
      reads this, iter
    {
      iter.Valid() &&
      if !stop then Read() == State(Top) || Ended()
      else if r.Unterminated? then Lex(externalLexer, iter.text) == r
      else r.LuaBlock? && Read().mode == Lua
    }

    /** The part of a turn after white space has been read. */
    method ScanWord(ch0: char, ln0: nat, eof0: bool) returns (stop: bool, r: LexResult)
      requires iter.Valid()
      requires if eof0 then ch0 == '\0' && Ended()
               else Read() == FeedWord(State(Top), ch0) && ln0 == iter.line
      modifies this, iter
      ensures After(stop, r) && old(iter.idx) <= iter.idx
    {
      var ch, ln, eof := ch0, ln0, eof0;
      if token == "" && ch == '#' {
        var closed := ScanComment(ln);
        return !closed, Unterminated;
      }
      if ch == '\\' {
        token := token + [ch];
        ch, ln, eof := Next();
        token := token + [ch];
        return false, Unterminated;
      }
      if token == "" {
        line := ln;
      }
      if EndsWith(token, '$') && ch == '{' {
        nextTokenIsDirective := false;
        var closed;
        ch, ln, eof, closed := ScanVariable();
        if !closed {
          return true, Unterminated;
        }
      }
      stop, r := ScanRest(ch, ln, eof);
    }

    /** The part of a turn that ends or extends the pending token. */
    method ScanRest(ch: char, ln: nat, eof: bool) returns (stop: bool, r: LexResult)
      requires iter.Valid()
      requires if eof then ch == '\0' && Ended()
               else Read() == FeedRest(State(Top), ch) && ln == iter.line
      modifies this, iter
      ensures After(stop, r) && old(iter.idx) <= iter.idx
    {
      stop, r := false, LuaBlock;
      if IsQuote(ch) {
        if token != "" {
          token := token + [ch];
          return;
        }
        var closed := ScanQuote(ch);
        if !closed {
          return true, Unterminated;
        }
        tokens := tokens + [Token(token, line, true)];
        if nextTokenIsDirective && token in externalLexer {
          stop := true;
          return;
        }
        nextTokenIsDirective := false;
        token := "";
      } else if IsPunct(ch) {
        if token != "" {
          tokens := tokens + [Token(token, line, false)];
          token := "";
        }
        tokens := tokens + [Token([ch], ln, false)];
        nextTokenIsDirective := true;
      } else {
        token := token + [ch];
      }
    }

    /**
      * The nested loops compute what the transducer computes. A run that ends on its own has read
      * the whole input; one that stops at a Lua block stops where the transducer does.
      */
    method Scan() returns (r: LexResult)
      requires token == "" && tokens == [] && line == 0 && !nextTokenIsDirective
      requires iter.idx == 0 && iter.line == 1
      modifies this, iter
      ensures r == Lex(externalLexer, iter.text)
      ensures r.Lexed? ==> r.tokens == tokens && iter.idx == |iter.text|
    {
      assert iter.text[..0] == "";
      while true
        invariant iter.Valid()
        invariant Read() == State(Top) || Ended()
        decreases |iter.text| - iter.idx
      {
        var ch, ln, eof := Next();
        if eof {
          return Lexed(tokens);
        }
        if IsSpace(ch) {
          if token != "" {
            tokens := tokens + [Token(token, line, false)];
            if nextTokenIsDirective && token in externalLexer {
              LuaIsFinal(externalLexer, iter.text, iter.idx);
              return LuaBlock;
            }
            nextTokenIsDirective := false;
            token := "";
          }
          ch, ln, eof := SkipSpace(ch, ln);
        }
        var stop;
        stop, r := ScanWord(ch, ln, eof);
        if stop {
          if r.LuaBlock? {
            LuaIsFinal(externalLexer, iter.text, iter.idx);
          }
          return;
        }
      }
    }
  }

  // ---- Balanced braces ----

  predicate IsOpen(t: Token) { t.text == "{" && !t.quote }

  predicate IsClose(t: Token) { t.text == "}" && !t.quote }

  /** Opening less closing braces among the tokens. */
  function Depth(tokens: seq<Token>): int {
    if tokens == [] then 0
    else
      var t := tokens[|tokens| - 1];
      Depth(tokens[..|tokens| - 1]) + if IsOpen(t) then 1 else if IsClose(t) then -1 else 0
  }

  predicate NeverBelow(tokens: seq<Token>, n: nat)
    requires n <= |tokens|
  {
    forall k :: 0 <= k <= n ==> Depth(tokens[..k]) >= 0
  }

  predicate WellNested(tokens: seq<Token>) { NeverBelow(tokens, |tokens|) && Depth(tokens) == 0 }

  datatype Balance = Balanced | UnexpectedClose(line: nat) | UnexpectedEnd(line: nat)

  /** Accepts exactly the balanced lists; otherwise blames the first closing brace too many, or the end. */
  method BalanceBraces(tokens: seq<Token>) returns (r: Balance)
    ensures r.Balanced? <==> WellNested(tokens)
    ensures r.UnexpectedEnd? <==> NeverBelow(tokens, |tokens|) && Depth(tokens) > 0
    ensures r.UnexpectedEnd? ==> tokens != [] && r.line == tokens[|tokens| - 1].line
    ensures r.UnexpectedClose? ==>
      exists k :: 0 <= k < |tokens| && NeverBelow(tokens, k) && Depth(tokens[..k + 1]) < 0
                  && IsClose(tokens[k]) && r.line == tokens[k].line
  {
    var depth, line := 0, 0;
    for i := 0 to |tokens|
      invariant depth == Depth(tokens[..i]) && NeverBelow(tokens, i)
      invariant i > 0 ==> line == tokens[i - 1].line
    {
      var t := tokens[i];
      line := t.line;
      assert tokens[..i + 1][..i] == tokens[..i];
      if t.text == "}" && !t.quote {
        depth := depth - 1;
      } else if t.text == "{" && !t.quote {
        depth := depth + 1;
      }
      if depth < 0 {
        return UnexpectedClose(t.line);
      }
    }
    assert tokens[..|tokens|] == tokens;
    return if depth > 0 then UnexpectedEnd(line) else Balanced;
  }
}
