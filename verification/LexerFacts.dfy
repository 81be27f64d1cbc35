/** What config_lex.go promises over every text: when it returns, and where its tokens stand. */
module LexerFacts {
  import opened Text
  import opened ConfigLex

  // ---- When the lexer returns ----

  /** Inside quotes the mark is a quotation mark; between words no token is pending. */
  predicate Sound(s: Lx) {
    match s.mode
    case Quote(m) => IsQuote(m)
    case QuoteEscape(m) => IsQuote(m)
    case Skip => s.token == ""
    case Variable => s.token != ""
    case _ => true
  }

  lemma FeedSound(s: Lx, c: char)
    requires Sound(s)
    ensures Sound(Feed(s, c))
  {
  }

  lemma {:induction false} RunSound(s: Lx, text: string)
    requires Sound(s)
    ensures Sound(Run(s, text))
    decreases |text|
  {
    if text != "" {
      FeedSound(s, text[0]);
      RunSound(Feed(s, text[0]), text[1..]);
    }
  }

  lemma {:induction false} LuaStays(s: Lx, text: string)
    requires s.mode.Lua?
    ensures Run(s, text).mode.Lua?
    decreases |text|
  {
    if text != "" {
      LuaStays(Feed(s, text[0]), text[1..]);
    }
  }

  lemma {:induction false} StuckForever(s: Lx, n: nat)
    requires Sound(s) && Finish(s).Unterminated?
    ensures Finish(Run(s, Nuls(n))).Unterminated?
    decreases n
  {
    if n != 0 {
      assert Nuls(n)[1..] == Nuls(n - 1);
      assert Sound(Feed(s, '\0')) && Finish(Feed(s, '\0')).Unterminated?;
      StuckForever(Feed(s, '\0'), n - 1);
    }
  }

  /**
    * At the end of the input the source's inner loops go on reading NUL, and only the main loop
    * looks for the end. The lexer returns exactly when some number of NULs leads back to it.
    */
  lemma ReturnsIffBackAtTop(custom: set<string>, text: string)
    ensures Lex(custom, text).Lexed? <==> exists n: nat :: Run(Start(custom), text + Nuls(n)).mode == Top
  {
    var s := Run(Start(custom), text);
    RunSound(Start(custom), text);
    if Lex(custom, text).Lexed? {
      var n := if s.mode == Top then 0 else 1;
      RunAppend(Start(custom), text, Nuls(n));
      if n == 1 {
        assert Nuls(1) == ['\0'] && Nuls(1)[1..] == [];
        assert Run(s, Nuls(1)) == Feed(s, '\0');
      }
      assert Run(Start(custom), text + Nuls(n)).mode == Top;
    } else {
      forall n: nat
        ensures Run(Start(custom), text + Nuls(n)).mode != Top
      {
        RunAppend(Start(custom), text, Nuls(n));
        if s.mode.Lua? {
          LuaStays(s, Nuls(n));
        } else {
          StuckForever(s, n);
        }
      }
    }
  }

  /** The part of the lexer's state that decides whether it returns: nine shapes. */
  datatype Shape =
    | Gap | Word | Dollar | Backslash | InComment | OpenVariable | ClosedVariable
    | Quoted(mark: char) | QuotedBackslash(mark: char)

  function WordStep(c: char): Shape {
    if IsSpace(c) || IsPunct(c) then Gap
    else if c == '\\' then Backslash
    else if c == '$' then Dollar
    else Word
  }

  function Step(p: Shape, c: char): Shape {
    match p
    case Gap => if c == '#' then InComment else if IsQuote(c) then Quoted(c) else WordStep(c)
    case Word => WordStep(c)
    case Dollar => if c == '{' then OpenVariable else WordStep(c)
    case Backslash => if c == '$' then Dollar else Word
    case InComment => if c == '\n' then Gap else InComment
    case OpenVariable => if c == '}' then ClosedVariable else if IsSpace(c) then Word else OpenVariable
    case ClosedVariable => if IsPunct(c) then Gap else if c == '$' then Dollar else Word
    case Quoted(m) => if c == m then Gap else if c == '\\' then QuotedBackslash(m) else p
    case QuotedBackslash(m) => Quoted(m)
  }

  /** Some comment lacks its newline, some quote its closing mark, or some `${` its `}`. */
  predicate LeftOpen(text: string) {
    var p := Fold(Step, Gap, text);
    p.InComment? || p.OpenVariable? || p.Quoted? || p.QuotedBackslash?
  }

  function ShapeOf(s: Lx): Shape {
    match s.mode
    case Comment(_) => InComment
    case Escape => Backslash
    case Variable => if EndsWith(s.token, '}') then ClosedVariable else OpenVariable
    case Quote(m) => Quoted(m)
    case QuoteEscape(m) => QuotedBackslash(m)
    case _ => if s.token == "" then Gap else if EndsWith(s.token, '$') then Dollar else Word
  }

  lemma ShapeRest(s: Lx, c: char)
    requires s.mode.Top? && s.token != ""
    ensures ShapeOf(FeedRest(s, c)) == if IsPunct(c) then Gap else if c == '$' then Dollar else Word
  {
  }

  lemma ShapeStep(s: Lx, c: char)
    requires Sound(s) && !s.mode.Lua? && !Feed(s, c).mode.Lua?
    ensures ShapeOf(Feed(s, c)) == Step(ShapeOf(s), c)
  {
    if s.mode.Variable? {
      assert EndsWith(s.token + [c], '}') <==> c == '}';
      ShapeRest(s.(mode := Top), c);
    } else if s.mode.Top? || s.mode.Skip? {
      TopShape(s, c);
    }
  }

  lemma TopShape(s: Lx, c: char)
    requires Sound(s) && (s.mode.Top? || s.mode.Skip?) && !Feed(s, c).mode.Lua?
    ensures ShapeOf(Feed(s, c)) == Step(ShapeOf(s), c)
  {
    if s.token != "" && !IsSpace(c) {
      ShapeRest(s, c);
    }
  }

  lemma {:induction false} ShapeRun(s: Lx, text: string)
    requires Sound(s) && !s.mode.Lua? && !Run(s, text).mode.Lua?
    ensures ShapeOf(Run(s, text)) == Fold(Step, ShapeOf(s), text)
    decreases |text|
  {
    if text != "" {
      var t := Feed(s, text[0]);
      if t.mode.Lua? {
        LuaStays(t, text[1..]);
      } else {
        RunSound(s, text[..1]);
        ShapeStep(s, text[0]);
        assert Sound(t);
        ShapeRun(t, text[1..]);
      }
    }
  }

  /** Without Lua blocks, the lexer returns if and only if nothing is left open. */
  lemma ReturnsIffClosed(custom: set<string>, text: string)
    requires Lex(custom, text) != LuaBlock
    ensures Lex(custom, text).Lexed? <==> !LeftOpen(text)
  {
    RunSound(Start(custom), text);
    ShapeRun(Start(custom), text);
  }

  // ---- When no Lua block begins ----

  predicate OccursAt(name: string, text: string, k: nat) { k + |name| <= |text| && text[k..k + |name|] == name }

  predicate Occurs(name: string, text: string) { exists k :: 0 <= k <= |text| && OccursAt(name, text, k) }

  /** Free of quotation marks and backslashes, as the names of Lua directives are. */
  predicate PlainName(w: string) { forall c <- w :: !IsQuote(c) && c != '\\' }

  predicate Ends(token: string, read: string) { |token| <= |read| && read[|read| - |token|..] == token }

  /** With `read` behind it, the pending token is what was read last, unless it holds a mark or a backslash. */
  predicate Tracks(s: Lx, read: string) {
    match s.mode
    case Quote(_) => PlainName(s.token) ==> Ends(s.token, read)
    case QuoteEscape(_) => PlainName(s.token) ==> Ends(s.token + ['\\'], read)
    case Lua => true
    case Skip => s.token == ""
    case _ => Ends(s.token, read)
  }

  lemma EndsPush(token: string, read: string, c: char)
    requires Ends(token, read)
    ensures Ends(token + [c], read + [c])
  {
    assert (read + [c])[|read| - |token|..] == read[|read| - |token|..] + [c];
  }

  lemma PlainPush(token: string, c: char)
    ensures PlainName(token + [c]) <==> PlainName(token) && !IsQuote(c) && c != '\\'
  {
    if PlainName(token + [c]) {
      assert forall x :: x in token ==> x in token + [c];
      assert c in token + [c];
    }
  }

  /** What a rune does to the pending token, outside quotes and inside. */
  predicate Advanced(s: Lx, t: Lx, c: char) {
    if t.mode.Lua? then s.token in s.custom && !s.mode.QuoteEscape?
    else match s.mode
      case Quote(_) =>
        || (t.token == "" && t.mode.Top?)
        || (t.token == s.token && t.mode.QuoteEscape? && c == '\\')
        || (t.token == s.token + [c] && t.mode.Quote?)
      case QuoteEscape(m) => t.mode.Quote? && t.token == if c == m then s.token + [m] else s.token + ['\\'] + [c]
      case _ =>
        && !t.mode.QuoteEscape?
        && (t.token == "" || (t.token == s.token + [c] && !t.mode.Skip? && !t.mode.Quote?))
  }

  lemma FeedAdvances(s: Lx, c: char)
    requires Sound(s) && !s.mode.Lua?
    ensures Advanced(s, Feed(s, c), c) && Feed(s, c).custom == s.custom
  {
    if s.mode.Quote? || s.mode.QuoteEscape? {
      QuoteAdvances(s, c);
    } else {
      WordAdvances(s, c);
    }
  }

  lemma QuoteAdvances(s: Lx, c: char)
    requires s.mode.Quote? || s.mode.QuoteEscape?
    ensures Advanced(s, Feed(s, c), c) && Feed(s, c).custom == s.custom
  {
  }

  lemma WordAdvances(s: Lx, c: char)
    requires Sound(s) && !s.mode.Lua? && !s.mode.Quote? && !s.mode.QuoteEscape?
    ensures Advanced(s, Feed(s, c), c) && Feed(s, c).custom == s.custom
  {
  }

  lemma AdvancedTracks(s: Lx, t: Lx, read: string, c: char)
    requires Tracks(s, read) && Sound(s) && Advanced(s, t, c) && !s.mode.Lua? && !t.mode.Lua?
    ensures Tracks(t, read + [c])
  {
    PlainPush(s.token, c);
    PlainPush(s.token, '\\');
    PlainPush(s.token + ['\\'], c);
    assert (read + [c])[|read| + 1..] == "";
    if Ends(s.token, read) {
      EndsPush(s.token, read, c);
    }
  }

  lemma OccursWithin(name: string, read: string, text: string)
    requires Ends(name, read) && read <= text
    ensures Occurs(name, text)
  {
    var k := |read| - |name|;
    assert text[k..k + |name|] == read[k..];
    assert OccursAt(name, text, k);
  }

  lemma NoLuaNext(s: Lx, t: Lx, read: string, c: char, text: string)
    requires Tracks(s, read) && Sound(s) && Advanced(s, t, c) && !s.mode.Lua? && !s.mode.QuoteEscape? && read <= text
    requires forall name <- s.custom :: PlainName(name) && !Occurs(name, text)
    ensures !t.mode.Lua?
  {
    if PlainName(s.token) && Ends(s.token, read) {
      OccursWithin(s.token, read, text);
    }
  }

  lemma {:induction false} NoLuaFrom(s: Lx, read: string, rest: string, text: string)
    requires Tracks(s, read) && Sound(s) && !s.mode.Lua? && text == read + rest
    requires forall name <- s.custom :: PlainName(name) && !Occurs(name, text)
    ensures !Run(s, rest).mode.Lua?
    decreases |rest|
  {
    if rest != "" {
      var c, t := rest[0], Feed(s, rest[0]);
      FeedAdvances(s, c);
      FeedSound(s, c);
      if !s.mode.QuoteEscape? {
        NoLuaNext(s, t, read, c, text);
      }
      AdvancedTracks(s, t, read, c);
      assert text == read + [c] + rest[1..];
      NoLuaFrom(t, read + [c], rest[1..], text);
    }
  }

  /** If no name of a directive with its own lexer occurs in the text, none is handed over to. */
  lemma NoNameNoLua(custom: set<string>, text: string)
    requires forall name <- custom :: PlainName(name) && !Occurs(name, text)
    ensures Lex(custom, text) != LuaBlock
  {
    assert text == "" + text;
    NoLuaFrom(Start(custom), "", text, text);
  }

  /** So in such a text the lexer returns if and only if nothing is left open. */
  lemma ReturnsIffClosedWithoutNames(custom: set<string>, text: string)
    requires forall name <- custom :: PlainName(name) && !Occurs(name, text)
    ensures Lex(custom, text).Lexed? <==> !LeftOpen(text)
  {
    NoNameNoLua(custom, text);
    ReturnsIffClosed(custom, text);
  }

  // ---- Where the tokens stand ----

  /**
    * The token `t` stands at offset `k`: a word or a comment is the very slice of the text found
    * there, a quoted string has its opening mark there. Its line is that of `k`, except that the
    * source does not record the line of a word that begins with a backslash.
    */
  predicate StandsAt(text: string, k: nat, t: Token) {
    && k < |text|
    && (t.quote ==> IsQuote(text[k]))
    && (!t.quote ==> t.text != "" && k + |t.text| <= |text| && text[k..k + |t.text|] == t.text)
    && (t.quote || text[k] != '\\' ==> t.line == LineOf(text, k))
  }

  /** With `n` runes read, the word pending in `s` is what has been read since `from`. */
  predicate WordAt(text: string, n: nat, s: Lx, from: nat) {
    && from < n <= |text|
    && text[from..n] == s.token
    && (text[from] != '\\' ==> s.line == LineOf(text, from))
  }

  /** The pending token, if any, stands at `from`. */
  predicate Pending(text: string, n: nat, s: Lx, from: nat) {
    && from <= n <= |text|
    && match s.mode
       case Comment(ln) => from < n && text[from..n] == s.token && ln == LineOf(text, from)
       case Quote(_) => from < n && IsQuote(text[from]) && s.line == LineOf(text, from)
       case QuoteEscape(_) => from < n && IsQuote(text[from]) && s.line == LineOf(text, from)
       case Escape => WordAt(text, n, s, from)
       case Variable => WordAt(text, n, s, from)
       case Top => s.token == "" || WordAt(text, n, s, from)
       case Skip => s.token == ""
       case Lua => true
  }

  /**
    * `t` has read one rune more than `n`, from a state with the tokens `before` whose pending
    * token, if it was not idle, stood at `from`.
    */
  predicate Grown(text: string, n: nat, before: seq<Token>, idle: bool, from: nat, t: Lx)
    requires n < |text|
  {
    var m, k := |before|, if idle then n else from;
    && m <= |t.tokens| <= m + (if idle then 1 else 2)
    && t.tokens[..m] == before
    && (|t.tokens| > m ==> StandsAt(text, k, t.tokens[m]))
    && (|t.tokens| > m + 1 ==> StandsAt(text, n, t.tokens[m + 1]))
    && (t.mode.Lua? || t.at == LineOf(text, n + 1))
    && Pending(text, n + 1, t, if |t.tokens| > m then n + 1 else k)
  }

  lemma EmitGrown(text: string, n: nat, before: seq<Token>, idle: bool, k: nat, a: Token, t: Lx)
    requires n < |text| && (idle ==> k == n) && StandsAt(text, k, a)
    requires t.tokens == before + [a] && Idle(t) && t.at == LineOf(text, n + 1)
    ensures Grown(text, n, before, idle, k, t)
  {
  }

  lemma PushGrown(text: string, n: nat, s: Lx, from: nat, t: Lx)
    requires n < |text| && s.token != "" && WordAt(text, n, s, from)
    requires t.token == s.token + [text[n]] && t.tokens == s.tokens && t.line == s.line
    requires t.mode.Top? || t.mode.Escape? || t.mode.Variable?
    requires t.at == LineOf(text, n + 1)
    ensures Grown(text, n, s.tokens, false, from, t)
  {
    assert text[from..n + 1] == text[from..n] + [text[n]];
  }

  lemma RestGrown(text: string, n: nat, s: Lx, from: nat)
    requires n < |text| && s.mode.Top? && s.at == LineOf(text, n + 1)
    requires s.token != "" && WordAt(text, n, s, from)
    ensures Grown(text, n, s.tokens, false, from, FeedRest(s, text[n]))
  {
    if !IsPunct(text[n]) {
      PushGrown(text, n, s, from, s.Push(text[n]));
    }
  }

  lemma StartGrown(text: string, n: nat, before: seq<Token>, t: Lx)
    requires n < |text| && t.tokens == before && t.at == LineOf(text, n + 1) && !t.mode.Lua?
    requires Pending(text, n + 1, t, n)
    ensures Grown(text, n, before, true, n, t)
  {
  }

  lemma FirstGrown(text: string, n: nat, s: Lx)
    requires n < |text| && s.mode.Top? && s.token == "" && !IsSpace(text[n])
    requires s.at == LineOf(text, n)
    ensures Grown(text, n, s.tokens, true, n, FeedWord(s, text[n]))
  {
    var t, c := FeedWord(s, text[n]), text[n];
    assert text[n..n + 1] == [c];
    if IsPunct(c) {
      assert t == s.(line := s.at, tokens := s.tokens + [Token([c], s.at, false)], directive := true);
      EmitGrown(text, n, s.tokens, true, n, Token([c], s.at, false), t);
    } else {
      FirstRunePending(text, n, s);
      StartGrown(text, n, s.tokens, t);
    }
  }

  lemma FirstRunePending(text: string, n: nat, s: Lx)
    requires n < |text| && s.mode.Top? && s.token == "" && !IsSpace(text[n]) && !IsPunct(text[n])
    requires s.at == LineOf(text, n)
    ensures var t := FeedWord(s, text[n]);
      t.tokens == s.tokens && t.at == LineOf(text, n + 1) && !t.mode.Lua? && Pending(text, n + 1, t, n)
  {
    var t, c := FeedWord(s, text[n]), text[n];
    assert text[n..n + 1] == [c];
    if c == '#' {
      assert t == s.(mode := Comment(s.at), token := [c]);
    } else if IsQuote(c) {
      assert t == s.(mode := Quote(c), line := s.at);
    } else {
      assert t.token == [c] && t.tokens == s.tokens;
    }
  }

  lemma WordGrown(text: string, n: nat, s: Lx, from: nat)
    requires n < |text| && s.mode.Top? && !IsSpace(text[n]) && s.at == LineOf(text, n)
    requires s.token != "" && WordAt(text, n, s, from)
    ensures Grown(text, n, s.tokens, false, from, FeedWord(s, text[n]))
  {
    if text[n] == '\\' || (EndsWith(s.token, '$') && text[n] == '{') {
      PushGrown(text, n, s, from, FeedWord(s, text[n]));
    } else {
      RestGrown(text, n, s, from);
    }
  }

  lemma CommentGrown(text: string, n: nat, s: Lx, from: nat)
    requires n < |text| && s.mode.Comment?
    requires s.at == LineOf(text, n) && Pending(text, n, s, from)
    ensures Grown(text, n, s.tokens, false, from, Feed(s, text[n]))
  {
    var k := |s.token|;
    assert k == n - from && text[from..from + k] == s.token;
    if text[n] == '\n' {
      EmitGrown(text, n, s.tokens, false, from, Token(s.token, s.mode.from, false), Feed(s, '\n'));
    } else {
      assert text[from..n + 1] == text[from..n] + [text[n]];
    }
  }

  lemma QuoteGrown(text: string, n: nat, s: Lx, from: nat)
    requires n < |text| && (s.mode.Quote? || s.mode.QuoteEscape?)
    requires s.at == LineOf(text, n) && Pending(text, n, s, from)
    ensures Grown(text, n, s.tokens, false, from, Feed(s, text[n]))
  {
  }

  lemma SpaceGrown(text: string, n: nat, s: Lx, from: nat)
    requires n < |text| && (s.mode.Top? || s.mode.Skip?) && IsSpace(text[n])
    requires s.at == LineOf(text, n) && Pending(text, n, s, from)
    ensures Grown(text, n, s.tokens, Idle(s), from, Feed(s, text[n]))
  {
  }

  lemma FeedGrown(text: string, n: nat, s: Lx, from: nat)
    requires n < |text| && !s.mode.Lua? && s.at == LineOf(text, n) && Pending(text, n, s, from)
    ensures Grown(text, n, s.tokens, Idle(s), from, Feed(s, text[n]))
  {
    var t := if text[n] == '\n' then s.(at := s.at + 1) else s;
    if s.mode.Comment? {
      CommentGrown(text, n, s, from);
    } else if s.mode.Quote? || s.mode.QuoteEscape? {
      QuoteGrown(text, n, s, from);
    } else if s.mode.Variable? && (EndsWith(s.token, '}') || IsSpace(text[n])) {
      RestGrown(text, n, t.(mode := Top), from);
    } else if s.mode.Escape? || s.mode.Variable? {
      PushGrown(text, n, s, from, Feed(s, text[n]));
    } else if IsSpace(text[n]) {
      SpaceGrown(text, n, s, from);
    } else if s.token == "" {
      FirstGrown(text, n, t.(mode := Top));
    } else {
      WordGrown(text, n, t, from);
    }
  }

  /** The tokens emitted by `n` runes stand at `starts`, the pending one, if any, at `from`. */
  ghost predicate Placed(text: string, n: nat, s: Lx, starts: seq<nat>, from: nat) {
    && n <= |text|
    && |starts| == |s.tokens|
    && (forall i, j :: 0 <= i < j < |starts| ==> starts[i] < starts[j])
    && (forall i :: 0 <= i < |starts| ==> StandsAt(text, starts[i], s.tokens[i]) && starts[i] < from)
    && (s.mode.Lua? || s.at == LineOf(text, n))
    && Pending(text, n, s, from)
  }

  lemma PlacedStep(text: string, n: nat, s: Lx, before: seq<nat>, k: nat, t: Lx)
    returns (starts: seq<nat>, from: nat)
    requires n < |text| && !s.mode.Lua?
    requires Placed(text, n, s, before, k) && Grown(text, n, s.tokens, Idle(s), k, t)
    ensures Placed(text, n + 1, t, starts, from)
  {
    var m, at := |s.tokens|, if Idle(s) then n else k;
    assert !Idle(s) ==> k < n;
    starts := before + [at][..if |t.tokens| > m then 1 else 0];
    starts := starts + [n][..if |t.tokens| > m + 1 then 1 else 0];
    from := if |t.tokens| > m then n + 1 else at;
    forall i | 0 <= i < m
      ensures t.tokens[i] == s.tokens[i]
    {
      assert t.tokens[i] == t.tokens[..m][i];
    }
  }

  /** Whatever has been read, every token emitted stands at an offset of its own. */
  lemma {:induction false} TokensArePlaced(custom: set<string>, text: string, n: nat)
    returns (starts: seq<nat>, from: nat)
    requires n <= |text|
    ensures Placed(text, n, Run(Start(custom), text[..n]), starts, from)
  {
    if n == 0 {
      return [], 0;
    }
    starts, from := TokensArePlaced(custom, text, n - 1);
    var s := Run(Start(custom), text[..n - 1]);
    assert text[..n] == text[..n - 1] + [text[n - 1]];
    RunAppend(Start(custom), text[..n - 1], [text[n - 1]]);
    RunOne(s, text[n - 1]);
    if !s.mode.Lua? {
      FeedGrown(text, n - 1, s, from);
      starts, from := PlacedStep(text, n - 1, s, starts, from, Feed(s, text[n - 1]));
    }
  }

  /** The tokens of a lexed text stand in order at distinct offsets and carry the line of those. */
  lemma TokenLines(custom: set<string>, text: string) returns (starts: seq<nat>)
    requires Lex(custom, text).Lexed?
    ensures |starts| == |Lex(custom, text).tokens|
    ensures forall i, j :: 0 <= i < j < |starts| ==> starts[i] < starts[j]
    ensures forall i :: 0 <= i < |starts| ==> StandsAt(text, starts[i], Lex(custom, text).tokens[i])
  {
    var from;
    starts, from := TokensArePlaced(custom, text, |text|);
    assert text[..|text|] == text;
  }
}
