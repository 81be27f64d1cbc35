/** The printer undone by the lexer, word by word. */
module WordRoundTrip {
  import opened Text
  import opened ConfigLex
  import opened ConfigBuild

  /** A token without its line. */
  datatype Word = Word(text: string, quote: bool)

  function Strip(tokens: seq<Token>): seq<Word> {
    seq(|tokens|, i requires 0 <= i < |tokens| => Word(tokens[i].text, tokens[i].quote))
  }

  /** Whether a backslash is still waiting for its rune after `s`. */
  predicate OpenEscape(open: bool, s: string)
    decreases |s|
  {
    if s == "" then open else OpenEscape(!open && s[0] == '\\', s[1..])
  }

  /** In quotes, runes must print and backslashes come in fours. */
  predicate Survives(st: Style, s: string) {
    if s == "" then true
    else if FOUR_BACKSLASHES <= s then Survives(st, s[4..])
    else s[0] != '\\' && (s[0] == '"' || st.isPrint(s[0])) && Survives(st, s[1..])
  }

  /** The strings that are read back as they were printed. */
  predicate Faithful(st: Style, s: string) {
    if NeedsQuote(s) then Survives(st, s) else s[0] != '#' && !OpenEscape(false, s)
  }

  // ---- Bare words ----

  predicate Bare(s: string) { forall i :: 0 <= i < |s| ==> !Special(s[i]) }

  /** `t` is `s` with the runes `w` added to its pending token. */
  predicate Pushed(s: Lx, t: Lx, w: string) {
    && t.token == s.token + w && t.tokens == s.tokens && t.directive == s.directive
    && t.custom == s.custom
  }

  lemma {:induction false} ReadBare(s: Lx, w: string)
    requires (s.mode.Top? && s.token != "") || s.mode.Escape?
    requires Bare(w)
    ensures Pushed(s, Run(s, w), w)
    ensures Run(s, w).mode == if OpenEscape(s.mode.Escape?, w) then Escape else Top
    decreases |w|
  {
    if w != "" {
      assert !Special(w[0]);
      var t := Feed(s, w[0]);
      assert Pushed(s, t, [w[0]]);
      ReadBare(t, w[1..]);
      assert w == [w[0]] + w[1..];
      Assoc(s.token, [w[0]], w[1..]);
    }
  }

  /** From between tokens, a bare word that does not begin a comment becomes the pending token. */
  lemma ReadWord(s: Lx, w: string)
    requires Idle(s) && w != "" && Bare(w) && w[0] != '#'
    ensures Pushed(s, Run(s, w), w) && Run(s, w).token == w
    ensures Run(s, w).mode == if OpenEscape(false, w) then Escape else Top
  {
    FirstRune(s, w[0]);
    ReadBare(Feed(s, w[0]), w[1..]);
    assert w == [w[0]] + w[1..];
    RunCons(s, w[0], w[1..]);
  }

  lemma FirstRune(s: Lx, c: char)
    requires Idle(s) && !Special(c) && c != '#'
    ensures Pushed(s, Feed(s, c), [c]) && Feed(s, c).token == [c]
    ensures Feed(s, c).mode == if c == '\\' then Escape else Top
  {
  }

  /** A bare word that begins a comment takes the rest of the line with it. */
  lemma {:induction false} ReadComment(s: Lx, w: string)
    requires s.mode.Comment? && '\n' !in w
    ensures Pushed(s, Run(s, w), w) && Run(s, w).mode == s.mode
    decreases |w|
  {
    if w != "" {
      ReadComment(Feed(s, w[0]), w[1..]);
      assert w == [w[0]] + w[1..];
      Assoc(s.token, [w[0]], w[1..]);
    }
  }

  // ---- Quoted words ----

  /** What the lexer makes of a rune as printed inside quotes. */
  function Image(st: Style, c: char): string {
    if c == '"' then [c] else if c == '\\' then [c, c] else if st.isPrint(c) then [c] else Control(c)
  }

  function Images(st: Style, s: string): string {
    if s == "" then "" else Image(st, s[0]) + Images(st, s[1..])
  }

  /** Runes that stand for themselves inside double quotes. */
  predicate Inert(w: string) { '"' !in w && '\\' !in w }

  lemma {:induction false} ReadInert(s: Lx, w: string)
    requires s.mode == Quote('"') && Inert(w)
    ensures Pushed(s, Run(s, w), w) && Run(s, w).mode == s.mode
    decreases |w|
  {
    if w != "" {
      ReadInert(Feed(s, w[0]), w[1..]);
      assert w == [w[0]] + w[1..];
      Assoc(s.token, [w[0]], w[1..]);
    }
  }

  lemma {:induction false} HexInert(n: nat, k: nat)
    ensures Inert(HexDigits(n, k))
  {
    if k != 0 {
      HexInert(n / 16, k - 1);
    }
  }

  /** The escape of a rune is a backslash and at least one inert rune. */
  lemma ControlShape(c: char)
    ensures |Control(c)| >= 2 && Control(c)[0] == '\\' && Inert(Control(c)[1..])
  {
    HexInert(c as int, 2);
    HexInert(c as int, 4);
    HexInert(c as int, 8);
  }

  lemma EscapeStep(s: Lx, c: char)
    requires s.mode == Quote('"')
    ensures var t := Feed(Feed(s, '\\'), c);
      t.mode == s.mode && Pushed(s, t, if c == '"' then [c] else ['\\', c])
  {
  }

  /** A backslash and the rune behind it. */
  lemma ReadEscape(s: Lx, c: char, w: string)
    requires s.mode == Quote('"') && Inert(w)
    ensures var t := Run(s, ['\\', c] + w);
      && t.mode == s.mode
      && Pushed(s, t, if c == '"' then [c] + w else ['\\', c] + w)
  {
    assert ['\\', c] + w == ['\\'] + ([c] + w);
    RunCons(s, '\\', [c] + w);
    RunCons(Feed(s, '\\'), c, w);
    EscapeStep(s, c);
    var e := if c == '"' then [c] else ['\\', c];
    ReadInert(Feed(Feed(s, '\\'), c), w);
    Assoc(s.token, e, w);
  }

  lemma ReadQuoteRune(st: Style, s: Lx, c: char)
    requires s.mode == Quote('"')
    ensures var t := Run(s, QuoteRune(st, c)); t.mode == s.mode && Pushed(s, t, Image(st, c))
  {
    if c == '"' || c == '\\' {
      ReadEscape(s, c, "");
      assert ['\\', c] + "" == QuoteRune(st, c);
    } else if st.isPrint(c) {
      ReadInert(s, [c]);
    } else {
      ControlShape(c);
      var e := Control(c);
      assert e == ['\\', e[1]] + e[2..] && e[1..][0] == e[1];
      ReadEscape(s, e[1], e[2..]);
    }
  }

  lemma {:induction false} ReadQuoteRunes(st: Style, s: Lx, w: string)
    requires s.mode == Quote('"')
    ensures var t := Run(s, QuoteRunes(st, w)); t.mode == s.mode && Pushed(s, t, Images(st, w))
    decreases |w|
  {
    if w != "" {
      var t := Run(s, QuoteRune(st, w[0]));
      ReadQuoteRune(st, s, w[0]);
      ReadQuoteRunes(st, t, w[1..]);
      RunAppend(s, QuoteRune(st, w[0]), QuoteRunes(st, w[1..]));
      Assoc(s.token, Image(st, w[0]), Images(st, w[1..]));
    }
  }

  /** `t` is `s` with one more word emitted, and none that starts a Lua block. */
  predicate Said(s: Lx, t: Lx, w: Word) {
    Idle(t) && Strip(t.tokens) == Strip(s.tokens) + [w] && !t.directive && t.custom == s.custom
  }

  lemma StripEmit(tokens: seq<Token>, t: Token)
    ensures Strip(tokens + [t]) == Strip(tokens) + [Word(t.text, t.quote)]
  {
  }

  /** What reading a string between double quotes makes of a state. */
  predicate SaidQuoted(s: Lx, t: Lx, image: string) {
    if s.directive && image in s.custom then t.mode.Lua? else Said(s, t, Word(image, true))
  }

  lemma ReadBetweenQuotes(s: Lx, q: string, image: string)
    requires Idle(s)
    requires forall a :: a == Feed(s, '"') ==> Run(a, q).mode == a.mode && Pushed(a, Run(a, q), image)
    ensures SaidQuoted(s, Run(s, ['"'] + (q + ['"'])), image)
  {
    var a := Feed(s, '"');
    OpenQuote(s);
    var b := Run(a, q);
    assert b.token == image;
    RunCons(s, '"', q + ['"']);
    RunAppend(a, q, ['"']);
    RunOne(b, '"');
    CloseQuote(b);
  }

  /** Printed in quotes, a string comes back as its image under squeezing and escaping. */
  lemma ReadQuoted(st: Style, s: Lx, w: string)
    requires Idle(s) && NeedsQuote(w)
    ensures SaidQuoted(s, Run(s, Enquoted(st, w)), Images(st, Squeezed(w)))
  {
    var q := QuoteRunes(st, Squeezed(w));
    OpenQuote(s);
    ReadQuoteRunes(st, Feed(s, '"'), Squeezed(w));
    assert Enquoted(st, w) == ['"'] + (q + ['"']);
    ReadBetweenQuotes(s, q, Images(st, Squeezed(w)));
  }

  lemma OpenQuote(s: Lx)
    requires Idle(s)
    ensures Feed(s, '"').mode == Quote('"') && Pushed(s, Feed(s, '"'), "")
  {
  }

  lemma CloseQuote(b: Lx)
    requires b.mode == Quote('"')
    ensures var t := Feed(b, '"');
      if b.directive && b.token in b.custom then t.mode.Lua? else Said(b, t, Word(b.token, true))
  {
    StripEmit(b.tokens, Token(b.token, b.line, true));
  }

  /** The image of a string is never shorter, and is the string itself exactly when it survives. */
  lemma {:induction false} ImageIsSelf(st: Style, w: string)
    ensures |Images(st, Squeezed(w))| >= |w|
    ensures Images(st, Squeezed(w)) == w <==> Survives(st, w)
    decreases |w|
  {
    if w == "" {
    } else if FOUR_BACKSLASHES <= w {
      ImageIsSelf(st, w[4..]);
      ImagesOfPair(st, Squeezed(w[4..]));
      assert w == FOUR_BACKSLASHES + w[4..];
      SamePrefix(FOUR_BACKSLASHES, Images(st, Squeezed(w[4..])), w[4..]);
    } else {
      ImageIsSelf(st, w[1..]);
      ImagesCons(st, w[0], Squeezed(w[1..]));
      OneImage(st, w, Images(st, Squeezed(w[1..])));
    }
  }

  lemma ImagesCons(st: Style, c: char, rest: string)
    ensures Images(st, [c] + rest) == Image(st, c) + Images(st, rest)
  {
    assert ([c] + rest)[1..] == rest;
  }

  lemma ImagesOfPair(st: Style, rest: string)
    ensures Images(st, "\\\\" + rest) == FOUR_BACKSLASHES + Images(st, rest)
  {
    assert "\\\\" + rest == ['\\'] + (['\\'] + rest);
    ImagesCons(st, '\\', ['\\'] + rest);
    ImagesCons(st, '\\', rest);
  }

  lemma OneImage(st: Style, w: string, rest: string)
    requires w != "" && |rest| >= |w| - 1
    ensures |Image(st, w[0]) + rest| >= |w|
    ensures Image(st, w[0]) + rest == w <==>
      w[0] != '\\' && (w[0] == '"' || st.isPrint(w[0])) && rest == w[1..]
  {
    ControlShape(w[0]);
    assert w == [w[0]] + w[1..];
    SamePrefix([w[0]], rest, w[1..]);
  }

  lemma SamePrefix(p: string, a: string, b: string)
    ensures p + a == p + b <==> a == b
  {
    assert (p + a)[|p|..] == a && (p + b)[|p|..] == b;
  }

  /** How a string is printed, as a word. */
  function Printed(w: string): Word { Word(w, NeedsQuote(w)) }

  const SEMICOLON: Word := Word(";", false)

  lemma BareWhenUnquoted(w: string)
    requires !NeedsQuote(w)
    ensures w != "" && Bare(w)
  {
  }

  /** A pending word ends at a space. */
  lemma EndAtSpace(s: Lx)
    requires s.mode.Top? && s.token != "" && !(s.directive && s.token in s.custom)
    ensures Said(s, Feed(s, ' '), Word(s.token, false))
  {
    StripEmit(s.tokens, Token(s.token, s.line, false));
  }

  /** `t` is `s` at a statement's end, the words `ws` later. */
  predicate Ended(s: Lx, t: Lx, ws: seq<Word>) {
    Idle(t) && Strip(t.tokens) == Strip(s.tokens) + ws && t.custom == s.custom
  }

  lemma EndAtPunct(s: Lx, c: char)
    requires s.mode.Top? && s.token != "" && IsPunct(c) && !(EndsWith(s.token, '$') && c == '{')
    ensures Ended(s, Feed(s, c), [Word(s.token, false), Word([c], false)])
  {
    var t := s.tokens + [Token(s.token, s.line, false)];
    StripEmit(s.tokens, Token(s.token, s.line, false));
    StripEmit(t, Token([c], s.at, false));
  }

  lemma IdlePunct(s: Lx, c: char)
    requires Idle(s) && IsPunct(c)
    ensures Ended(s, Feed(s, c), [Word([c], false)])
  {
    StripEmit(s.tokens, Token([c], s.at, false));
  }

  /** A faithful string, printed and followed by a space, is read back as itself. */
  lemma ReadThenSpace(st: Style, s: Lx, w: string)
    requires Idle(s) && Faithful(st, w) && !(s.directive && w in s.custom)
    ensures Said(s, Run(s, Enquoted(st, w) + [' ']), Printed(w))
  {
    RunAppend(s, Enquoted(st, w), [' ']);
    var t := Run(s, Enquoted(st, w));
    RunOne(t, ' ');
    if NeedsQuote(w) {
      ReadQuoted(st, s, w);
      ImageIsSelf(st, w);
      IdleSpace(t, ' ');
    } else {
      BareWhenUnquoted(w);
      ReadWord(s, w);
      EndAtSpace(t);
    }
  }

  lemma IdleSpace(s: Lx, c: char)
    requires Idle(s) && IsSpace(c)
    ensures Idle(Feed(s, c)) && Pushed(s, Feed(s, c), "")
  {
  }

  lemma ReadThenSemicolon(st: Style, s: Lx, w: string)
    requires Idle(s) && Faithful(st, w) && !(s.directive && w in s.custom)
    ensures Ended(s, Run(s, Enquoted(st, w) + [';']), [Printed(w), SEMICOLON])
  {
    RunAppend(s, Enquoted(st, w), [';']);
    var t := Run(s, Enquoted(st, w));
    RunOne(t, ';');
    if NeedsQuote(w) {
      ReadQuoted(st, s, w);
      ImageIsSelf(st, w);
      IdlePunct(t, ';');
    } else {
      BareWhenUnquoted(w);
      ReadWord(s, w);
      EndAtPunct(t, ';');
    }
  }

  /**
    * Which strings the printer and the lexer agree on: printed, ended and lexed, a string gives
    * back itself, quoted as printed, if and only if it is faithful.
    */
  lemma StringRoundTrip(st: Style, custom: set<string>, w: string)
    ensures Faithful(st, w) <==>
      var r := Lex(custom, Enquoted(st, w) + ";");
      r.Lexed? && Strip(r.tokens) == [Printed(w), SEMICOLON]
  {
    var s := Start(custom);
    var r := Lex(custom, Enquoted(st, w) + ";");
    if Faithful(st, w) {
      ReadThenSemicolon(st, s, w);
      assert Strip(s.tokens) == [];
    } else {
      RunAppend(s, Enquoted(st, w), [';']);
      var t := Run(s, Enquoted(st, w));
      RunOne(t, ';');
      if NeedsQuote(w) {
        ReadQuoted(st, s, w);
        ImageIsSelf(st, w);
        IdlePunct(t, ';');
        assert Strip(r.tokens)[0] == Word(Images(st, Squeezed(w)), true);
      } else {
        BareWhenUnquoted(w);
        NotFaithfulBare(custom, w);
      }
    }
  }

  lemma NotFaithfulBare(custom: set<string>, w: string)
    requires w != "" && Bare(w) && (w[0] == '#' || OpenEscape(false, w))
    ensures var r := Lex(custom, w + ";"); r.Lexed? ==> r.tokens == []
  {
    var s := Start(custom);
    RunAppend(s, w, [';']);
    RunOne(Run(s, w), ';');
    if w[0] == '#' {
      forall c | c in w
        ensures c != '\n'
      {
        var i :| 0 <= i < |w| && w[i] == c;
        assert !Special(w[i]);
      }
      ReadComment(Feed(s, '#'), w[1..]);
    } else {
      ReadWord(s, w);
    }
  }
}
