/** config_lex.go: what the lexer makes of a text that is written down piece by piece. */
module WrittenTokens {
  import opened Text
  import opened ConfigLex

  // ---- Pieces ----

  /** The white space of Go's unicode.IsSpace, rune by rune. */
  predicate Blank(c: char) {
    || c == '\t' || c == '\n' || c == '\U{B}' || c == '\U{C}' || c == '\r' || c == ' ' || c == '\U{85}'
    || c == '\U{A0}' || c == '\U{1680}' || c == '\U{2000}' || c == '\U{2001}' || c == '\U{2002}' || c == '\U{2003}'
    || c == '\U{2004}' || c == '\U{2005}' || c == '\U{2006}' || c == '\U{2007}' || c == '\U{2008}'
    || c == '\U{2009}' || c == '\U{200A}' || c == '\U{2028}' || c == '\U{2029}' || c == '\U{202F}'
    || c == '\U{205F}' || c == '\U{3000}'
  }

  lemma BlankIff(c: char)
    ensures IsSpace(c) <==> Blank(c)
  {
  }

  /** A rune of a word, by itself or behind a backslash. */
  datatype Unit = Rune(c: char) | Escaped(c: char)

  function UnitText(u: Unit): string { if u.Escaped? then ['\\', u.c] else [u.c] }

  function Spelled(units: seq<Unit>): string {
    if units == [] then "" else UnitText(units[0]) + Spelled(units[1..])
  }

  /** Behind a backslash, only the mark of the string loses it. */
  function UnitMeant(mark: char, u: Unit): string { if u.Escaped? && u.c != mark then ['\\', u.c] else [u.c] }

  /** What a quoted string stands for. */
  function Meant(mark: char, units: seq<Unit>): string {
    if units == [] then "" else UnitMeant(mark, units[0]) + Meant(mark, units[1..])
  }

  datatype Piece =
    | Space(runes: string)
    | Mark(c: char)
    | Plain(units: seq<Unit>)
    | Quoted(mark: char, units: seq<Unit>)
    | Note(text: string)

  function TextOf(p: Piece): string {
    match p
    case Space(runes) => runes
    case Mark(c) => [c]
    case Plain(units) => Spelled(units)
    case Quoted(mark, units) => [mark] + Spelled(units) + [mark]
    case Note(text) => "#" + text + "\n"
  }

  function Written(pieces: seq<Piece>): string {
    if pieces == [] then "" else TextOf(pieces[0]) + Written(pieces[1..])
  }

  predicate PlainUnit(u: Unit) { u.Rune? ==> !Blank(u.c) && u.c !in "{};\\" }

  predicate QuotedUnit(mark: char, u: Unit) { u.Rune? ==> u.c != mark && u.c != '\\' }

  predicate Fits(p: Piece) {
    match p
    case Space(runes) => runes != "" && forall c <- runes :: Blank(c)
    case Mark(c) => c in "{};"
    case Plain(units) => units != [] && units[0].Rune? && units[0].c !in "\"'#" && forall u <- units :: PlainUnit(u)
    case Quoted(mark, units) => mark in "\"'" && forall u <- units :: QuotedUnit(mark, u)
    case Note(text) => '\n' !in text
  }

  /** What may follow a plain word: white space, or a mark that does not make `${` of it. */
  predicate MayFollow(units: seq<Unit>, next: Piece) {
    next.Space? || (next.Mark? && !(next.c == '{' && units != [] && units[|units| - 1].c == '$'))
  }

  predicate Laid(pieces: seq<Piece>) {
    pieces != [] ==>
      && Fits(pieces[0]) && Laid(pieces[1..])
      && (pieces[0].Plain? && |pieces| > 1 ==> MayFollow(pieces[0].units, pieces[1]))
  }

  /** The token of a piece that begins on `line`. */
  function Own(p: Piece, line: nat): seq<Token> {
    match p
    case Space(_) => []
    case Mark(c) => [Token([c], line, false)]
    case Plain(units) => [Token(Spelled(units), line, false)]
    case Quoted(mark, units) => [Token(Meant(mark, units), line, true)]
    case Note(text) => [Token("#" + text, line, false)]
  }

  /** The tokens, each with the line its piece begins on; a plain word at the very end is lost. */
  function Tokens(pieces: seq<Piece>, line: nat): seq<Token> {
    if pieces == [] || (|pieces| == 1 && pieces[0].Plain?) then []
    else Own(pieces[0], line) + Tokens(pieces[1..], line + Newlines(TextOf(pieces[0])))
  }

  /** No directive is written that has a lexer of its own; `first` if a directive is due. */
  predicate NoCustom(custom: set<string>, first: bool, pieces: seq<Piece>)
    decreases |pieces|
  {
    pieces != [] ==> !HandsOver(custom, first, pieces) && NoCustom(custom, Due(first, pieces[0]), pieces[1..])
  }

  /** The first piece is such a directive; a plain word that a mark or the text ends is not looked up. */
  predicate HandsOver(custom: set<string>, first: bool, pieces: seq<Piece>)
    requires pieces != []
  {
    first && match pieces[0]
      case Plain(units) => Spelled(units) in custom && |pieces| > 1 && pieces[1].Space?
      case Quoted(mark, units) => Meant(mark, units) in custom
      case _ => false
  }

  /** Whether a directive is due behind a piece. */
  predicate Due(first: bool, p: Piece) { p.Mark? || (first && !p.Plain? && !p.Quoted?) }

  // ---- States ----

  /** Between tokens. */
  predicate Rests(s: Lx, tokens: seq<Token>, first: bool, at: nat, custom: set<string>) {
    Idle(s) && s.tokens == tokens && s.directive == first && s.at == at && s.custom == custom
  }

  /** With the word `word`, begun on line `from`, not yet ended. */
  predicate Waits(s: Lx, word: string, from: nat, tokens: seq<Token>, first: bool, at: nat, custom: set<string>) {
    && s.mode.Top? && s.token == word != "" && s.line == from
    && s.tokens == tokens && s.directive == first && s.at == at && s.custom == custom
  }

  /** In a quoted string of which `text` has been read. */
  predicate Quotes(s: Lx, mark: char, text: string, from: nat, tokens: seq<Token>, first: bool, at: nat,
                   custom: set<string>)
  {
    && s.mode == Quote(mark) && s.token == text && s.line == from
    && s.tokens == tokens && s.directive == first && s.at == at && s.custom == custom
  }

  function Ended(c: char, at: nat): nat { if c == '\n' then at + 1 else at }

  lemma RestOnBlank(s: Lx, c: char)
    requires Idle(s) && Blank(c)
    ensures Rests(Feed(s, c), s.tokens, s.directive, Ended(c, s.at), s.custom)
  {
    BlankIff(c);
  }

  lemma RestOnMark(s: Lx, c: char)
    requires Idle(s) && c in "{};"
    ensures Rests(Feed(s, c), s.tokens + [Token([c], s.at, false)], true, s.at, s.custom)
  {
    BlankIff(c);
  }

  lemma RestOnRune(s: Lx, c: char)
    requires Idle(s) && !Blank(c) && c !in "{};\\" && c !in "\"'#"
    ensures Waits(Feed(s, c), [c], s.at, s.tokens, s.directive, s.at, s.custom)
  {
    BlankIff(c);
  }

  lemma RestOnQuote(s: Lx, mark: char)
    requires Idle(s) && mark in "\"'"
    ensures Quotes(Feed(s, mark), mark, "", s.at, s.tokens, s.directive, s.at, s.custom)
  {
    BlankIff(mark);
  }

  function Fed(s: Lx, u: Unit): Lx { if u.Escaped? then Feed(Feed(s, '\\'), u.c) else Feed(s, u.c) }

  lemma WaitOnUnit(s: Lx, u: Unit)
    requires s.mode.Top? && s.token != "" && PlainUnit(u)
    ensures Waits(Fed(s, u), s.token + UnitText(u), s.line, s.tokens, s.directive, Ended(u.c, s.at), s.custom)
  {
    BlankIff(u.c);
    BlankIff('\\');
    if u.Escaped? {
      assert s.token + ['\\'] + [u.c] == s.token + ['\\', u.c];
    }
  }

  lemma WaitOnBlank(s: Lx, c: char)
    requires s.mode.Top? && s.token != "" && Blank(c)
    ensures if s.directive && s.token in s.custom then Feed(s, c).mode.Lua?
            else Rests(Feed(s, c), s.tokens + [Token(s.token, s.line, false)], false, Ended(c, s.at), s.custom)
  {
    BlankIff(c);
  }

  lemma WaitOnMark(s: Lx, c: char)
    requires s.mode.Top? && s.token != "" && c in "{};" && !(c == '{' && EndsWith(s.token, '$'))
    ensures Rests(Feed(s, c), s.tokens + [Token(s.token, s.line, false), Token([c], s.at, false)], true, s.at, s.custom)
  {
    BlankIff(c);
  }

  lemma QuoteOnUnit(s: Lx, mark: char, u: Unit)
    requires s.mode == Quote(mark) && mark in "\"'" && QuotedUnit(mark, u)
    ensures Quotes(Fed(s, u), mark, s.token + UnitMeant(mark, u), s.line, s.tokens, s.directive, Ended(u.c, s.at),
                   s.custom)
  {
    if u.Escaped? && u.c != mark {
      assert s.token + ['\\'] + [u.c] == s.token + ['\\', u.c];
    }
  }

  lemma QuoteOnMark(s: Lx, mark: char)
    requires s.mode == Quote(mark) && mark in "\"'"
    ensures if s.directive && s.token in s.custom then Feed(s, mark).mode.Lua?
            else Rests(Feed(s, mark), s.tokens + [Token(s.token, s.line, true)], false, s.at, s.custom)
  {
  }

  // ---- Runs ----

  lemma {:induction false} LuaStays(s: Lx, text: string)
    requires s.mode.Lua?
    ensures Run(s, text).mode.Lua?
    decreases |text|
  {
    if text != "" {
      LuaStays(Feed(s, text[0]), text[1..]);
    }
  }

  lemma {:induction false} RunBlanks(s: Lx, runes: string)
    requires Idle(s) && forall c <- runes :: Blank(c)
    ensures Rests(Run(s, runes), s.tokens, s.directive, s.at + Newlines(runes), s.custom)
    decreases |runes|
  {
    if runes != "" {
      RestOnBlank(s, runes[0]);
      RunBlanks(Feed(s, runes[0]), runes[1..]);
    }
  }

  lemma RunUnit(s: Lx, u: Unit, rest: string)
    ensures Run(s, UnitText(u) + rest) == Run(Fed(s, u), rest)
  {
    if u.Escaped? {
      assert ['\\', u.c] + rest == ['\\'] + ([u.c] + rest);
      RunCons(s, '\\', [u.c] + rest);
      RunCons(Feed(s, '\\'), u.c, rest);
    } else {
      RunCons(s, u.c, rest);
    }
  }

  lemma UnitNewlines(u: Unit, rest: string)
    ensures Newlines(UnitText(u) + rest) == (if u.c == '\n' then 1 else 0) + Newlines(rest)
  {
    if u.Escaped? {
      assert (['\\', u.c] + rest)[1..] == [u.c] + rest;
    }
    assert ([u.c] + rest)[1..] == rest;
  }

  lemma {:induction false} RunPlain(s: Lx, units: seq<Unit>)
    requires s.mode.Top? && s.token != "" && forall u <- units :: PlainUnit(u)
    ensures Waits(Run(s, Spelled(units)), s.token + Spelled(units), s.line, s.tokens, s.directive,
                  s.at + Newlines(Spelled(units)), s.custom)
    decreases |units|
  {
    if units != [] {
      var u, rest := units[0], Spelled(units[1..]);
      WaitOnUnit(s, u);
      RunUnit(s, u, rest);
      UnitNewlines(u, rest);
      RunPlain(Fed(s, u), units[1..]);
      Assoc(s.token, UnitText(u), rest);
    }
  }

  lemma {:induction false} RunQuoted(s: Lx, mark: char, units: seq<Unit>)
    requires s.mode == Quote(mark) && mark in "\"'" && forall u <- units :: QuotedUnit(mark, u)
    ensures Quotes(Run(s, Spelled(units)), mark, s.token + Meant(mark, units), s.line, s.tokens, s.directive,
                   s.at + Newlines(Spelled(units)), s.custom)
    decreases |units|
  {
    if units != [] {
      var u, rest := units[0], Spelled(units[1..]);
      QuoteOnUnit(s, mark, u);
      RunUnit(s, u, rest);
      UnitNewlines(u, rest);
      RunQuoted(Fed(s, u), mark, units[1..]);
      Assoc(s.token, UnitMeant(mark, u), Meant(mark, units[1..]));
    }
  }

  lemma {:induction false} RunNote(s: Lx, text: string)
    requires s.mode.Comment? && '\n' !in text
    ensures Run(s, text) == s.(token := s.token + text)
    decreases |text|
  {
    if text != "" {
      RunNote(Feed(s, text[0]), text[1..]);
      assert text == [text[0]] + text[1..];
      Assoc(s.token, [text[0]], text[1..]);
    }
  }

  lemma NewlinesThree(a: char, b: string, c: char)
    requires a != '\n'
    ensures Newlines([a] + b + [c]) == Newlines(b) + if c == '\n' then 1 else 0
  {
    assert ([a] + b + [c])[1..] == b + [c] && [c][1..] == "";
    NewlinesAppend(b, [c]);
  }

  lemma RunThree(s: Lx, a: char, b: string, c: char)
    ensures Run(s, [a] + b + [c]) == Feed(Run(Feed(s, a), b), c)
  {
    RunAppend(s, [a] + b, [c]);
    RunCons(s, a, b);
    RunOne(Run(Feed(s, a), b), c);
  }

  /** A quoted string between tokens. */
  lemma RestOnQuoted(s: Lx, mark: char, units: seq<Unit>)
    requires Idle(s) && Fits(Quoted(mark, units))
    ensures var p, t := Quoted(mark, units), Run(s, TextOf(Quoted(mark, units)));
      if s.directive && Meant(mark, units) in s.custom then t.mode.Lua?
      else Rests(t, s.tokens + Own(p, s.at), false, s.at + Newlines(TextOf(p)), s.custom)
  {
    RunThree(s, mark, Spelled(units), mark);
    NewlinesThree(mark, Spelled(units), mark);
    RestOnQuote(s, mark);
    var t := Feed(s, mark);
    RunQuoted(t, mark, units);
    assert "" + Meant(mark, units) == Meant(mark, units);
    QuoteOnMark(Run(t, Spelled(units)), mark);
  }

  /** A comment between tokens. */
  lemma RestOnNote(s: Lx, text: string)
    requires Idle(s) && '\n' !in text
    ensures var p := Note(text);
      Rests(Run(s, TextOf(p)), s.tokens + Own(p, s.at), s.directive, s.at + Newlines(TextOf(p)), s.custom)
  {
    RunThree(s, '#', text, '\n');
    NewlinesThree('#', text, '\n');
    NoNewlines(text);
    NoteBegins(s);
    var t := Feed(s, '#');
    RunNote(t, text);
    NoteEnds(Run(t, text));
  }

  lemma NoteBegins(s: Lx)
    requires Idle(s)
    ensures var t := Feed(s, '#');
      && t.mode == Comment(s.at) && t.token == "#" && t.tokens == s.tokens && t.directive == s.directive
      && t.at == s.at && t.custom == s.custom
  {
  }

  lemma NoteEnds(s: Lx)
    requires s.mode.Comment?
    ensures Rests(Feed(s, '\n'), s.tokens + [Token(s.token, s.mode.from, false)], s.directive, s.at + 1, s.custom)
  {
  }

  /** A piece other than a plain word, between tokens. */
  lemma RestOnPiece(s: Lx, p: Piece)
    requires Idle(s) && Fits(p) && !p.Plain?
    ensures var t := Run(s, TextOf(p));
      if HandsOver(s.custom, s.directive, [p]) then t.mode.Lua?
      else Rests(t, s.tokens + Own(p, s.at), Due(s.directive, p), s.at + Newlines(TextOf(p)), s.custom)
  {
    match p {
      case Space(runes) => RunBlanks(s, runes);
      case Mark(c) =>
        RestOnMark(s, c);
        RunOne(s, c);
        assert [c][1..] == "";
      case Quoted(mark, units) => RestOnQuoted(s, mark, units);
      case Note(text) => RestOnNote(s, text);
    }
  }

  /** A plain word between tokens. */
  lemma RestOnPlain(s: Lx, units: seq<Unit>)
    requires Idle(s) && Fits(Plain(units))
    ensures var text := Spelled(units);
      text != "" && Waits(Run(s, text), text, s.at, s.tokens, s.directive, s.at + Newlines(text), s.custom)
  {
    var c, rest := units[0].c, units[1..];
    assert units[0] in units && forall u <- rest :: u in units;
    RestOnRune(s, c);
    RunPlain(Feed(s, c), rest);
    RunCons(s, c, Spelled(rest));
    UnitNewlines(units[0], Spelled(rest));
  }

  lemma {:induction false} LastRune(units: seq<Unit>)
    requires units != []
    ensures Spelled(units) != "" && (EndsWith(Spelled(units), '$') <==> units[|units| - 1].c == '$')
    decreases |units|
  {
    if |units| > 1 {
      LastRune(units[1..]);
    } else {
      assert Spelled(units[1..]) == "";
    }
  }

  /** What ends a plain word. */
  lemma WaitOnPiece(s: Lx, units: seq<Unit>, from: nat, next: Piece)
    requires units != [] && s.mode.Top? && s.token == Spelled(units) != "" && s.line == from
    requires Fits(next) && MayFollow(units, next)
    ensures var t := Run(s, TextOf(next));
      if next.Space? && s.directive && s.token in s.custom then t.mode.Lua?
      else Rests(t, s.tokens + (Own(Plain(units), from) + Own(next, s.at)), next.Mark?,
                 s.at + Newlines(TextOf(next)), s.custom)
  {
    LastRune(units);
    if next.Mark? {
      WaitOnMark(s, next.c);
      RunOne(s, next.c);
      assert [next.c][1..] == "";
    } else {
      var c, rest := next.runes[0], next.runes[1..];
      assert next.runes == [c] + rest;
      WaitOnBlank(s, c);
      RunCons(s, c, rest);
      if s.directive && s.token in s.custom {
        LuaStays(Feed(s, c), rest);
      } else {
        RunBlanks(Feed(s, c), rest);
      }
    }
  }

  // ---- Whole texts ----

  lemma WrittenSplit(s: Lx, pieces: seq<Piece>)
    requires pieces != []
    ensures Run(s, Written(pieces)) == Run(Run(s, TextOf(pieces[0])), Written(pieces[1..]))
  {
    RunAppend(s, TextOf(pieces[0]), Written(pieces[1..]));
  }

  /** From between tokens, the text of the pieces is read as their tokens, or handed over. */
  predicate ReadAs(s: Lx, pieces: seq<Piece>) {
    Finish(Run(s, Written(pieces)))
    == if NoCustom(s.custom, s.directive, pieces) then Lexed(s.tokens + Tokens(pieces, s.at)) else LuaBlock
  }

  lemma {:induction false} PiecesAreRead(s: Lx, pieces: seq<Piece>)
    requires Idle(s) && Laid(pieces)
    ensures ReadAs(s, pieces)
    decreases |pieces|
  {
    if pieces == [] {
    } else if pieces[0].Plain? {
      PlainIsRead(s, pieces);
    } else {
      var t := Run(s, TextOf(pieces[0]));
      RestOnPiece(s, pieces[0]);
      if HandsOver(s.custom, s.directive, pieces) {
        WrittenSplit(s, pieces);
        LuaStays(t, Written(pieces[1..]));
      } else {
        PiecesAreRead(t, pieces[1..]);
        OneIsRead(s, pieces, t);
      }
    }
  }

  lemma OneIsRead(s: Lx, pieces: seq<Piece>, t: Lx)
    requires pieces != [] && !pieces[0].Plain? && t == Run(s, TextOf(pieces[0])) && ReadAs(t, pieces[1..])
    requires !HandsOver(s.custom, s.directive, pieces)
    requires Rests(t, s.tokens + Own(pieces[0], s.at), Due(s.directive, pieces[0]),
                   s.at + Newlines(TextOf(pieces[0])), s.custom)
    ensures ReadAs(s, pieces)
  {
    WrittenSplit(s, pieces);
    TokensOne(pieces, s.at, t.at);
    Assoc(s.tokens, Own(pieces[0], s.at), Tokens(pieces[1..], t.at));
  }

  lemma PlainIsRead(s: Lx, pieces: seq<Piece>)
    requires Idle(s) && Laid(pieces) && pieces != [] && pieces[0].Plain?
    ensures ReadAs(s, pieces)
    decreases |pieces|, 0
  {
    RestOnPlain(s, pieces[0].units);
    WrittenSplit(s, pieces);
    if |pieces| > 1 {
      var next, more := pieces[1], pieces[2..];
      var t := Run(s, TextOf(pieces[0]));
      var u := Run(t, TextOf(next));
      assert pieces[1..][1..] == more;
      WrittenSplit(t, pieces[1..]);
      WaitOnPiece(t, pieces[0].units, s.at, next);
      NoCustomTwo(s.custom, s.directive, pieces, more);
      if HandsOver(s.custom, s.directive, pieces) {
        LuaStays(u, Written(more));
      } else {
        PiecesAreRead(u, more);
        TokensTwo(s.tokens, pieces, more, s.at, t.at, u.at);
      }
    }
  }

  lemma NoCustomTwo(custom: set<string>, first: bool, pieces: seq<Piece>, more: seq<Piece>)
    requires |pieces| > 1 && pieces[0].Plain? && (pieces[1].Space? || pieces[1].Mark?) && more == pieces[2..]
    ensures NoCustom(custom, first, pieces)
       <==> !HandsOver(custom, first, pieces) && NoCustom(custom, pieces[1].Mark?, more)
  {
    assert pieces[1..][1..] == more;
  }

  lemma TokensOne(pieces: seq<Piece>, line: nat, a: nat)
    requires pieces != [] && (pieces[0].Plain? ==> |pieces| > 1) && a == line + Newlines(TextOf(pieces[0]))
    ensures Tokens(pieces, line) == Own(pieces[0], line) + Tokens(pieces[1..], a)
  {
  }

  lemma AssocFour<T>(a: seq<T>, b: seq<T>, c: seq<T>, d: seq<T>)
    ensures a + (b + c) + d == a + (b + (c + d))
  {
  }

  lemma TokensTwo(before: seq<Token>, pieces: seq<Piece>, more: seq<Piece>, line: nat, a: nat, b: nat)
    requires |pieces| > 1 && !pieces[1].Plain? && more == pieces[2..]
    requires a == line + Newlines(TextOf(pieces[0])) && b == a + Newlines(TextOf(pieces[1]))
    ensures before + (Own(pieces[0], line) + Own(pieces[1], a)) + Tokens(more, b) == before + Tokens(pieces, line)
  {
    var rest := pieces[1..];
    assert rest[1..] == more;
    TokensOne(pieces, line, a);
    TokensOne(rest, a, b);
    AssocFour(before, Own(pieces[0], line), Own(pieces[1], a), Tokens(more, b));
  }

  /**
    * A text of words, quoted strings, comments and marks, with white space around them where it is
    * needed, is lexed to those words, strings, comments and marks, each with its line. It is handed
    * over if and only if a directive is written that has a lexer of its own.
    */
  lemma WrittenIsLexed(custom: set<string>, pieces: seq<Piece>)
    requires Laid(pieces)
    ensures Lex(custom, Written(pieces))
         == if NoCustom(custom, false, pieces) then Lexed(Tokens(pieces, 1)) else LuaBlock
  {
    PiecesAreRead(Start(custom), pieces);
  }

  // ---- Behind a variable in braces ----

  lemma {:induction false} RunVariable(s: Lx, name: string)
    requires s.mode.Variable? && s.token != "" && !EndsWith(s.token, '}')
    requires forall c <- name :: !Blank(c) && c != '}'
    ensures Run(s, name) == s.(token := s.token + name) && !EndsWith(s.token + name, '}')
    decreases |name|
  {
    if name != "" {
      var c, rest := name[0], name[1..];
      BlankIff(c);
      assert !Blank(c) && c != '}' && c != '\n';
      assert Feed(s, c) == s.(token := s.token + [c]);
      RunVariable(Feed(s, c), rest);
      assert name == [c] + rest;
      Assoc(s.token, [c], rest);
    }
  }

  lemma VariableBegins(s: Lx)
    requires Idle(s)
    ensures var t := Feed(Feed(s, '$'), '{');
      t.mode.Variable? && t.token == "${" && t.tokens == s.tokens && t.line == s.at && t.at == s.at
  {
    BlankIff('$');
    BlankIff('{');
  }

  /** The rune behind the closing brace is taken into the word, unless it is a mark. */
  lemma VariableEnds(s: Lx, c: char)
    requires s.mode.Variable? && s.token != "" && !EndsWith(s.token, '}') && c !in "{};"
    ensures var t := Feed(Feed(s, '}'), c);
      t.mode.Top? && t.token == s.token + ['}', c] && t.tokens == s.tokens && t.line == s.line && t.at == Ended(c, s.at)
  {
    BlankIff('}');
    assert s.token + ['}'] + [c] == s.token + ['}', c];
  }

  /**
    * White space right behind `${name}` does not end the word: the word goes on with it, up to the
    * next white space or mark.
    */
  lemma VariableTakesSpace(custom: set<string>, name: string, c: char)
    requires (forall d <- name :: !Blank(d) && d != '}') && Blank(c) && c != '\n'
    ensures Lex(custom, "${" + name + ['}', c] + ";")
         == Lexed([Token("${" + name + ['}', c], 1, false), Token(";", 1, false)])
  {
    var s, text := Start(custom), "${" + name + ['}', c] + ";";
    var t := Feed(Feed(s, '$'), '{');
    assert text == ['$'] + (['{'] + (name + (['}'] + ([c] + [';']))));
    RunCons(s, '$', ['{'] + (name + (['}'] + ([c] + [';']))));
    RunCons(Feed(s, '$'), '{', name + (['}'] + ([c] + [';'])));
    VariableBegins(s);
    RunAppend(t, name, ['}'] + ([c] + [';']));
    RunVariable(t, name);
    var u := Run(t, name);
    RunCons(u, '}', [c] + [';']);
    RunCons(Feed(u, '}'), c, [';']);
    VariableEnds(u, c);
    var v := Feed(Feed(u, '}'), c);
    RunOne(v, ';');
    BlankIff(';');
    WaitOnMark(v, ';');
  }
}
