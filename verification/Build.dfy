/** The statements of a configuration: `Stmt` of config_parse.go. */
module ConfigTree {
  /** `Blocks`, which the source distinguishes from nil even when empty. */
  datatype Body = NoBlock | Braces(stmts: seq<Stmt>)

  datatype Stmt = Stmt(directive: string, filename: string, line: int, args: seq<string>,
                       comment: string, includes: seq<nat>, body: Body)
}

/** config_build.go: the printer. */
module ConfigBuild {
  import opened Text
  import opened ConfigTree

  /** The table behind strconv.IsPrint, and the directives with a printer of their own. */
  datatype Style = Style(isPrint: char -> bool, custom: set<string>)

  // ---- Escaping and quoting ----

  /** The runes that escaping copies only when the next one is known. */
  predicate Held(c: char) { c == '\\' || c == '$' }

  /** What escaping adds on reading `c` after `prev`. */
  function EscapeRune(prev: char, c: char): string {
    if prev == '\\' || (c == '{' && prev == '$') then [prev, c]
    else (if prev == '$' then [prev] else "") + (if Held(c) then "" else [c])
  }

  function EscapeFrom(prev: char, s: string): string
    decreases |s|
  {
    if s == "" then if Held(prev) then [prev] else ""
    else EscapeRune(prev, s[0]) + EscapeFrom(s[0], s[1..])
  }

  function Escaped(s: string): string { EscapeFrom('\0', s) }

  method Escape(src: string) returns (buf: string)
    ensures buf == Escaped(src)
  {
    buf := "";
    var prev, ch := '\0', '\0';
    for i := 0 to |src|
      invariant Escaped(src) == buf + EscapeFrom(prev, src[i..]) && ch == prev
    {
      ch := src[i];
      assert src[i..][0] == ch && src[i..][1..] == src[i + 1..];
      ghost var grown := buf + EscapeRune(prev, ch);
      Assoc(buf, EscapeRune(prev, ch), EscapeFrom(ch, src[i + 1..]));
      if prev == '\\' || (ch == '{' && prev == '$') {
        buf := buf + [prev];
        buf := buf + [ch];
        prev := ch;
        assert buf == grown;
        continue;
      }
      if prev == '$' {
        buf := buf + [prev];
      }
      if ch != '\\' && ch != '$' {
        buf := buf + [ch];
      }
      prev := ch;
      assert buf == grown;
    }
    if ch == '\\' || ch == '$' {
      buf := buf + [ch];
    }
  }

  /** A rune that a bare word may not hold. */
  predicate Special(c: char) { IsSpace(c) || IsPunct(c) || IsQuote(c) }

  predicate DoubleDollar(e: string, k: nat) { k + 1 < |e| && e[k] == '$' && e[k + 1] == '$' }

  /** When an argument is printed in quotes. */
  predicate NeedsQuote(s: string) {
    || s == ""
    || (exists i :: 0 <= i < |s| && Special(s[i]))
    || (exists k :: 1 <= k < |Escaped(s)| && DoubleDollar(Escaped(s), k))
  }

  /** Escaping drops no rune, adds no other rune, and keeps the first one first. */
  lemma {:induction false} EscapeFromKeeps(prev: char, s: string)
    ensures forall c :: c in EscapeFrom(prev, s) <==> c in s || (c == prev && Held(prev))
    ensures Held(prev) ==> EscapeFrom(prev, s) != "" && EscapeFrom(prev, s)[0] == prev
    decreases |s|
  {
    if s != "" {
      var tail := EscapeFrom(s[0], s[1..]);
      EscapeFromKeeps(s[0], s[1..]);
      assert forall c :: c in s <==> c == s[0] || c in s[1..];
      assert forall c :: c in EscapeFrom(prev, s) <==>
        c in tail || (c == s[0] && (prev == '\\' || !Held(s[0]))) || (c == prev && Held(prev));
    }
  }

  /** On a string without backslashes escaping is the identity. */
  lemma {:induction false} EscapeFromPlain(prev: char, s: string)
    requires prev != '\\' && '\\' !in s
    ensures EscapeFrom(prev, s) == (if prev == '$' then [prev] else "") + s
    decreases |s|
  {
    if s != "" {
      EscapeFromPlain(s[0], s[1..]);
      assert s == [s[0]] + s[1..];
      var p := if prev == '$' then [prev] else "";
      assert EscapeRune(prev, s[0]) + (if s[0] == '$' then [s[0]] else "") == p + [s[0]];
      Assoc(EscapeRune(prev, s[0]), if s[0] == '$' then [s[0]] else "", s[1..]);
      Assoc(p, [s[0]], s[1..]);
    }
  }

  class RuneIter {
    const v: string
    var idx: nat

    constructor (v: string)
      ensures this.v == v && idx == 0
    {
      this.v, idx := v, 0;
    }

    method Next() returns (ch: char, eof: bool)
      modifies this
      ensures eof == (old(idx) >= |v|)
      ensures if eof then ch == '\0' && idx == old(idx) else ch == v[old(idx)] && idx == old(idx) + 1
    {
      if idx < |v| {
        idx := idx + 1;
        return v[idx - 1], false;
      }
      return '\0', true;
    }

    function Peek(): char
      reads this
    {
      if idx < |v| then v[idx] else '\0'
    }
  }

  predicate Check01(ch: char) { Special(ch) }

  predicate Check002(it: RuneIter, ch: char, expanding: bool)
    reads it
  {
    if expanding then ch == '$' && it.Peek() == '$' else ch == '}'
  }

  predicate Check003(it: RuneIter, ch: char, expanding: bool)
    reads it
  {
    if expanding then ch == '}' else ch == '$' && it.Peek() == '$'
  }

  lemma EscapedKeeps(s: string)
    requires s != ""
    ensures forall c :: c in Escaped(s) <==> c in s
    ensures Escaped(s) != "" && Escaped(s)[0] == s[0]
    ensures (exists i :: 0 <= i < |s| && Special(s[i])) <==>
            (exists i :: 0 <= i < |Escaped(s)| && Special(Escaped(s)[i]))
  {
    var e := Escaped(s);
    EscapeFromKeeps('\0', s);
    EscapeFromKeeps(s[0], s[1..]);
    forall i | 0 <= i < |s| && Special(s[i])
      ensures exists j :: 0 <= j < |e| && Special(e[j])
    {
      assert s[i] in e;
    }
    forall i | 0 <= i < |e| && Special(e[i])
      ensures exists j :: 0 <= j < |s| && Special(s[j])
    {
      assert e[i] in s;
    }
  }

  method NeedsQuoteScan(s: string) returns (r: bool)
    ensures r == NeedsQuote(s)
  {
    if s == "" {
      return true;
    }
    var e := Escape(s);
    EscapedKeeps(s);
    var it := new RuneIter(e);
    var ch, eof := it.Next();
    if eof {
      return false;
    }
    if IsSpace(ch) || IsPunct(ch) || IsQuote(ch) {
      return true;
    }
    if ch == '$' && it.Peek() == '{' {
      assert Special(e[1]);
      return true;
    }
    ch, eof := it.Next();
    var expanding := false;
    while !eof
      invariant it.v == e && 1 <= it.idx <= |e|
      invariant !eof ==> 2 <= it.idx && ch == e[it.idx - 1]
      invariant eof ==> it.idx == |e| && ch == '\0'
      invariant forall k :: 0 <= k < it.idx - (if eof then 0 else 1) ==> !Special(e[k])
      invariant expanding <==> exists k :: 1 <= k < it.idx - (if eof then 0 else 1) && DoubleDollar(e, k)
      decreases |e| - it.idx, !eof
    {
      assert ch == '$' && it.Peek() == '$' <==> DoubleDollar(e, it.idx - 1);
      if Check01(ch) {
        assert Special(e[it.idx - 1]);
        return true;
      } else if Check002(it, ch, expanding) {
        return true;
      } else if Check003(it, ch, expanding) {
        expanding := !expanding;
      }
      ch, eof := it.Next();
    }
    return if ch == '\\' || ch == '$' then true else expanding;
  }

  // ---- strings.Replace and strconv.Quote ----

  const FOUR_BACKSLASHES: string := "\\\\\\\\"

  /** Every four backslashes, from the left, become two. */
  function Squeezed(s: string): string {
    if s == "" then ""
    else if FOUR_BACKSLASHES <= s then "\\\\" + Squeezed(s[4..])
    else [s[0]] + Squeezed(s[1..])
  }

  function HexDigits(n: nat, k: nat): string {
    if k == 0 then "" else HexDigits(n / 16, k - 1) + ["0123456789abcdef"[n % 16]]
  }

  /** The escape strconv.Quote writes for a rune that does not print. */
  function Control(c: char): string {
    var n := c as int;
    if n == 7 then "\\a" else if n == 8 then "\\b" else if n == 9 then "\\t"
    else if n == 10 then "\\n" else if n == 11 then "\\v" else if n == 12 then "\\f"
    else if n == 13 then "\\r" else if n < 0x20 then "\\x" + HexDigits(n, 2)
    else if n < 0x10000 then "\\u" + HexDigits(n, 4)
    else "\\U" + HexDigits(n, 8)
  }

  function QuoteRune(st: Style, c: char): string {
    if c == '"' || c == '\\' then ['\\', c] else if st.isPrint(c) then [c] else Control(c)
  }

  function QuoteRunes(st: Style, s: string): string {
    if s == "" then "" else QuoteRune(st, s[0]) + QuoteRunes(st, s[1..])
  }

  function Enquoted(st: Style, arg: string): string {
    if NeedsQuote(arg) then "\"" + QuoteRunes(st, Squeezed(arg)) + "\"" else arg
  }

  // ---- Statements ----

  function Spaces(n: int): string
    decreases n
  {
    if n <= 0 then "" else Spaces(n - 1) + " "
  }

  lemma {:induction false} SpacesAre(n: int)
    ensures |Spaces(n)| == (if n < 0 then 0 else n) && forall c <- Spaces(n) :: c == ' '
    decreases n
  {
    if n > 0 {
      SpacesAre(n - 1);
    }
  }

  method Margin(padding: int, depth: int) returns (o: string)
    ensures o == Spaces(padding * depth)
    ensures |o| == (if padding * depth < 0 then 0 else padding * depth) && forall c <- o :: c == ' '
  {
    var x := padding * depth;
    SpacesAre(x);
    o := "";
    var i := 0;
    while i < x
      invariant 0 <= i && (i <= x || i == 0) && o == Spaces(i)
    {
      o := o + " ";
      i := i + 1;
    }
  }

  function Join(parts: seq<string>): string {
    if parts == [] then "" else if |parts| == 1 then parts[0] else parts[0] + " " + Join(parts[1..])
  }

  function EnquotedAll(st: Style, args: seq<string>): seq<string> {
    if args == [] then [] else [Enquoted(st, args[0])] + EnquotedAll(st, args[1..])
  }

  /** luaLexer.build */
  function LuaText(stmt: Stmt): string {
    stmt.directive +
    if stmt.directive == "set_by_lua_block" then
      (if |stmt.args| > 0 then " " + stmt.args[0] else "")
      + (if |stmt.args| > 1 then " {" + stmt.args[1] + "}" else "")
    else if |stmt.args| > 0 then " {" + stmt.args[0] + "}" else ""
  }

  /** The directive and its arguments. */
  function HeadText(st: Style, stmt: Stmt): string {
    var directive, args := Enquoted(st, stmt.directive), EnquotedAll(st, stmt.args);
    if directive == "if" then " if" + Join(args) + ")"
    else if args != [] then directive + " " + Join(args)
    else directive
  }

  function StmtText(st: Style, stmt: Stmt, padding: int, depth: nat): string
    decreases stmt
  {
    if Enquoted(st, stmt.directive) == "#" then " #" + stmt.comment
    else if Enquoted(st, stmt.directive) in st.custom then LuaText(stmt)
    else match stmt.body
      case NoBlock => HeadText(st, stmt) + ";"
      case Braces(inner) =>
        BlockText(st, HeadText(st, stmt) + " {", inner, padding, depth + 1, stmt.line)
        + "\n" + Spaces(padding * depth) + "}"
  }

  /** `output` with the statements of a block printed behind it. */
  function BlockText(st: Style, output: string, block: seq<Stmt>, padding: int, depth: nat, lastLine: int): string
    decreases block
  {
    if block == [] then output
    else if Enquoted(st, block[0].directive) == "#" && block[0].line == lastLine then
      BlockText(st, output + " #" + block[0].comment, block[1..], padding, depth, lastLine)
    else
      BlockText(st, output + (if output != "" then "\n" else "") + Spaces(padding * depth)
                    + StmtText(st, block[0], padding, depth),
                block[1..], padding, depth, block[0].line)
  }

  method Enquote(st: Style, arg: string) returns (r: string)
    ensures r == Enquoted(st, arg)
  {
    var quote := NeedsQuoteScan(arg);
    return if quote then "\"" + QuoteRunes(st, Squeezed(arg)) + "\"" else arg;
  }

  method EnquoteAll(st: Style, args: seq<string>) returns (r: seq<string>)
    ensures r == EnquotedAll(st, args)
  {
    r := [];
    for i := 0 to |args|
      invariant EnquotedAll(st, args) == r + EnquotedAll(st, args[i..])
    {
      var a := Enquote(st, args[i]);
      assert args[i..][1..] == args[i + 1..];
      Assoc(r, [a], EnquotedAll(st, args[i + 1..]));
      r := r + [a];
    }
  }

  method BuildHead(st: Style, directive: string, stmt: Stmt) returns (built: string)
    requires directive == Enquoted(st, stmt.directive)
    ensures built == HeadText(st, stmt)
  {
    var args := EnquoteAll(st, stmt.args);
    if directive == "if" {
      built := " if" + Join(args) + ")";
    } else if args != [] {
      built := directive + " " + Join(args);
    } else {
      built := directive;
    }
  }

  /** What a statement adds to the text of a block. */
  lemma BlockTextStep(st: Style, output: string, block: seq<Stmt>, i: nat, padding: int, depth: nat, lastLine: int)
    requires i < |block|
    ensures var stmt := block[i];
      BlockText(st, output, block[i..], padding, depth, lastLine)
      == if Enquoted(st, stmt.directive) == "#" && stmt.line == lastLine then
           BlockText(st, output + " #" + stmt.comment, block[i + 1..], padding, depth, lastLine)
         else
           BlockText(st, output + (if output != "" then "\n" else "") + Spaces(padding * depth)
                         + StmtText(st, stmt, padding, depth),
                     block[i + 1..], padding, depth, stmt.line)
  {
    assert block[i..][0] == block[i] && block[i..][1..] == block[i + 1..];
  }

  method BuildStmt(st: Style, directive: string, stmt: Stmt, padding: int, depth: nat, m: string)
    returns (built: string)
    requires directive == Enquoted(st, stmt.directive) && m == Spaces(padding * depth)
    ensures built == StmtText(st, stmt, padding, depth)
    decreases stmt
  {
    if directive == "#" {
      built := " #" + stmt.comment;
    } else if directive in st.custom {
      built := LuaText(stmt);
    } else {
      built := BuildHead(st, directive, stmt);
      if stmt.body.Braces? {
        built := built + " {";
        built := BuildBlock(st, built, stmt.body.stmts, padding, depth + 1, stmt.line);
        built := built + "\n" + m + "}";
      } else {
        built := built + ";";
      }
    }
  }

  method BuildBlock(st: Style, out: string, block: seq<Stmt>, padding: int, depth: nat, last: int)
    returns (output: string)
    ensures output == BlockText(st, out, block, padding, depth, last)
    decreases block
  {
    var m := Margin(padding, depth);
    output := out;
    var lastLine := last;
    for i := 0 to |block|
      invariant BlockText(st, out, block, padding, depth, last)
             == BlockText(st, output, block[i..], padding, depth, lastLine)
    {
      var stmt := block[i];
      BlockTextStep(st, output, block, i, padding, depth, lastLine);
      var directive := Enquote(st, stmt.directive);
      if directive == "#" && stmt.line == lastLine {
        output := output + " #" + stmt.comment;
        continue;
      }
      var built := BuildStmt(st, directive, stmt, padding, depth, m);
      if |output| > 0 {
        output := output + "\n";
      }
      output := output + m + built;
      lastLine := stmt.line;
    }
    assert block[|block|..] == [];
  }

  const HEADER: string :=
    "# This config was built from JSON using NGINX crossplane.\n" +
    "\t\t# If you encounter any bugs please report them here:\n" +
    "\t\t# https://github.com/nginxinc/crossplane/issues\n\t\t"

  function Built(st: Style, block: seq<Stmt>, indent: int, header: bool): string {
    BlockText(st, if header then HEADER else "", block, indent, 0, 0)
  }

  method Build(st: Style, block: seq<Stmt>, indent: int, header: bool) returns (r: string)
    ensures r == Built(st, block, indent, header)
  {
    var o := "";
    if header {
      o := HEADER;
    }
    r := BuildBlock(st, o, block, indent, 0, 0);
  }
}
