/** The statements and comments of a parsed block, told from the list of its tokens. */
module DocumentOrder {
  import opened Common
  import opened Text
  import opened ConfigLex
  import opened ConfigTree
  import opened ConfigParse
  import opened ParsedBlocks
  import IfArguments

  // ---- The arguments of a statement ----

  /** The first terminator from `i` on, or the end. */
  function EndOf(tokens: seq<Token>, i: nat): (j: nat)
    requires i <= |tokens|
    ensures i <= j <= |tokens| && (j < |tokens| ==> !InDirArgs(tokens[j]))
    ensures forall k :: i <= k < j ==> InDirArgs(tokens[k])
    decreases |tokens| - i
  {
    if i == |tokens| || !InDirArgs(tokens[i]) then i else EndOf(tokens, i + 1)
  }

  /** The texts of the tokens that are no comments. */
  function Words(tokens: seq<Token>): seq<string> {
    if tokens == [] then []
    else (if IsComment(tokens[0]) then [] else [tokens[0].text]) + Words(tokens[1..])
  }

  /** The texts of the comments, behind their `#`. */
  function Remarks(tokens: seq<Token>): seq<string> {
    if tokens == [] then []
    else (if IsComment(tokens[0]) then [tokens[0].text[1..]] else []) + Remarks(tokens[1..])
  }

  lemma {:induction false} ArgsAre(tokens: seq<Token>, i: nat)
    requires i <= |tokens|
    ensures var j := EndOf(tokens, i);
      ScanArgs(tokens, i) == if j == |tokens| then RanOut else Args(Words(tokens[i..j]), Remarks(tokens[i..j]), j)
    decreases |tokens| - i
  {
    var j := EndOf(tokens, i);
    if i < j {
      ArgsAre(tokens, i + 1);
      assert tokens[i..j][1..] == tokens[i + 1..j] && tokens[i..j][0] == tokens[i];
    } else {
      assert tokens[i..j] == [];
    }
  }

  // ---- A flat reading of the tokens ----

  /** A statement without its block. */
  datatype Said = Said(directive: string, filename: string, line: int, args: seq<string>)

  /** A comment. */
  datatype Note = Note(filename: string, line: int, text: string)

  function FileOf(e: Env): string { if e.combine then e.file else "" }

  /** The arguments as they are kept. */
  function Kept(directive: string, args: seq<string>): seq<string> {
    if directive == "if" then IfArguments.Unwrapped(args) else args
  }

  /** The statement headed by a token, unless it is named `#`. */
  function Own(e: Env, t: Token, args: seq<string>): seq<Said> {
    if t.text == "#" then [] else [Said(t.text, FileOf(e), t.line, Kept(t.text, args))]
  }

  /** One statement behind the other, whatever the braces; those named `#` left out. */
  function Heads(e: Env, tokens: seq<Token>, i: nat): seq<Said>
    requires i <= |tokens|
    decreases |tokens| - i
  {
    if i == |tokens| then []
    else if IsClose(tokens[i]) || IsComment(tokens[i]) then Heads(e, tokens, i + 1)
    else
      var t, j := tokens[i], EndOf(tokens, i + 1);
      if j == |tokens| then []
      else Own(e, t, Words(tokens[i + 1..j])) + Heads(e, tokens, j + 1)
  }

  function NotesOf(filename: string, line: int, texts: seq<string>): multiset<Note> {
    if texts == [] then multiset{}
    else (if texts[0] == "" then multiset{} else multiset{Note(filename, line, texts[0])})
         + NotesOf(filename, line, texts[1..])
  }

  /** The comments that are not empty; one among arguments has the line of its statement and no file. */
  function Notes(e: Env, tokens: seq<Token>, i: nat): multiset<Note>
    requires i <= |tokens|
    decreases |tokens| - i
  {
    if i == |tokens| then multiset{}
    else if IsClose(tokens[i]) then Notes(e, tokens, i + 1)
    else if IsComment(tokens[i]) then
      (if e.comments then NotesOf(FileOf(e), tokens[i].line, [tokens[i].text[1..]]) else multiset{})
      + Notes(e, tokens, i + 1)
    else
      var j := EndOf(tokens, i + 1);
      if j == |tokens| then multiset{}
      else NotesOf("", tokens[i].line, Remarks(tokens[i + 1..j])) + Notes(e, tokens, j + 1)
  }

  // ---- The same of a tree ----

  function StmtSaid(s: Stmt): seq<Said>
    decreases s
  {
    (if s.directive == "#" then [] else [Said(s.directive, s.filename, s.line, s.args)])
    + if s.body.Braces? then AllSaid(s.body.stmts) else []
  }

  /** The statements of a block in document order, comments aside. */
  function AllSaid(block: seq<Stmt>): seq<Said>
    decreases block
  {
    if block == [] then [] else StmtSaid(block[0]) + AllSaid(block[1..])
  }

  function StmtNoted(s: Stmt): multiset<Note>
    decreases s
  {
    (if s.directive == "#" && s.comment != "" then multiset{Note(s.filename, s.line, s.comment)} else multiset{})
    + if s.body.Braces? then AllNoted(s.body.stmts) else multiset{}
  }

  function AllNoted(block: seq<Stmt>): multiset<Note>
    decreases block
  {
    if block == [] then multiset{} else StmtNoted(block[0]) + AllNoted(block[1..])
  }

  lemma {:induction false} AllAppend(a: seq<Stmt>, b: seq<Stmt>)
    ensures AllSaid(a + b) == AllSaid(a) + AllSaid(b)
    ensures AllNoted(a + b) == AllNoted(a) + AllNoted(b)
    decreases |a|
  {
    if a == [] {
      assert a + b == b;
    } else {
      assert (a + b)[1..] == a[1..] + b;
      AllAppend(a[1..], b);
      Assoc(StmtSaid(a[0]), AllSaid(a[1..]), AllSaid(b));
    }
  }

  lemma AllOne(s: Stmt)
    ensures AllSaid([s]) == StmtSaid(s) && AllNoted([s]) == StmtNoted(s)
  {
    assert [s][1..] == [];
    assert AllSaid([]) == [] && AllNoted([]) == multiset{};
  }

  lemma {:induction false} CommentsTold(e: Env, line: int, texts: seq<string>)
    ensures AllSaid(CommentStmts(e, line, texts)) == []
    ensures AllNoted(CommentStmts(e, line, texts)) == NotesOf("", line, texts)
    decreases |texts|
  {
    if texts != [] {
      assert CommentStmts(e, line, texts)[1..] == CommentStmts(e, line, texts[1..]);
      CommentsTold(e, line, texts[1..]);
    }
  }

  // ---- The recursive parser against the flat reading ----

  /** What was parsed from `i` on, and what is ahead, are what the tokens from `i` on say. */
  ghost predicate Tells(e: Env, tokens: seq<Token>, i: nat, r: Outcome) {
    && i <= |tokens| && r.Done? && r.next <= |tokens|
    && Heads(e, tokens, i) == AllSaid(r.stmts) + Heads(e, tokens, r.next)
    && Notes(e, tokens, i) == AllNoted(r.stmts) + Notes(e, tokens, r.next)
  }

  lemma TellsThen(e: Env, tokens: seq<Token>, i: nat, a: Outcome, b: Outcome)
    requires Tells(e, tokens, i, a) && Tells(e, tokens, a.next, b)
    ensures Tells(e, tokens, i, a.Then(b))
  {
    AllAppend(a.stmts, b.stmts);
    Assoc(AllSaid(a.stmts), AllSaid(b.stmts), Heads(e, tokens, b.next));
  }

  lemma HeadTold(e: Env, t: Token, args: seq<string>, term: Token, ctx: seq<string>, inc: nat)
    requires Head(e, t, args, term, ctx, inc).HeadDone?
    ensures var s := Head(e, t, args, term, ctx, inc).stmt;
      && s.directive == t.text && s.filename == FileOf(e) && s.line == t.line && s.args == Kept(t.text, args)
      && s.comment == "" && s.body == NoBlock
  {
  }

  /** What a statement with its block and comments adds to what the block says. */
  lemma AssembledTold(h: HeadOutcome, open: bool, body: Outcome, remarks: seq<Stmt>)
    requires h.HeadDone? && body.Done? && h.stmt.body == NoBlock && h.stmt.comment == "" && AllSaid(remarks) == []
    requires open || body.stmts == []
    ensures var r := Assembled(h, open, body, remarks).stmts;
      && AllSaid(r) == StmtSaid(h.stmt) + AllSaid(body.stmts)
      && AllNoted(r) == AllNoted(body.stmts) + AllNoted(remarks)
  {
    var s := if open then h.stmt.(body := Braces(body.stmts)) else h.stmt;
    AllAppend([s], remarks);
    AllOne(s);
    assert AllSaid([]) == [] && AllNoted([]) == multiset{};
  }

  /** The tokens from `i` on, and those behind the arguments of the statement there. */
  lemma StatementSplit(e: Env, tokens: seq<Token>, i: nat, a: Args)
    requires i < |tokens| && !IsClose(tokens[i]) && !IsComment(tokens[i]) && a == ScanArgs(tokens, i + 1) && a.Args?
    ensures Heads(e, tokens, i) == Own(e, tokens[i], a.args) + Heads(e, tokens, a.end + 1)
    ensures Notes(e, tokens, i) == NotesOf("", tokens[i].line, a.comments) + Notes(e, tokens, a.end + 1)
  {
    var j, words, remarks := ArgsFound(tokens, i + 1, a);
    HeadsAt(e, tokens, i, j, words);
    NotesAt(e, tokens, i, j, remarks);
  }

  lemma ArgsFound(tokens: seq<Token>, i: nat, a: Args) returns (j: nat, words: seq<string>, remarks: seq<string>)
    requires i <= |tokens| && a == ScanArgs(tokens, i) && a.Args?
    ensures a == Args(words, remarks, j) && j == EndOf(tokens, i) < |tokens|
    ensures words == Words(tokens[i..j]) && remarks == Remarks(tokens[i..j])
  {
    ArgsAre(tokens, i);
    j, words, remarks := a.end, a.args, a.comments;
  }

  lemma HeadsAt(e: Env, tokens: seq<Token>, i: nat, j: nat, words: seq<string>)
    requires i < |tokens| && !IsClose(tokens[i]) && !IsComment(tokens[i])
    requires j == EndOf(tokens, i + 1) < |tokens| && words == Words(tokens[i + 1..j])
    ensures Heads(e, tokens, i) == Own(e, tokens[i], words) + Heads(e, tokens, j + 1)
  {
  }

  lemma NotesAt(e: Env, tokens: seq<Token>, i: nat, j: nat, remarks: seq<string>)
    requires i < |tokens| && !IsClose(tokens[i]) && !IsComment(tokens[i])
    requires j == EndOf(tokens, i + 1) < |tokens| && remarks == Remarks(tokens[i + 1..j])
    ensures Notes(e, tokens, i) == NotesOf("", tokens[i].line, remarks) + Notes(e, tokens, j + 1)
  {
  }

  lemma StatementTells(e: Env, tokens: seq<Token>, i: nat, a: Args, ctx: seq<string>, inc: nat) returns (r: Outcome)
    requires Plain(e) && i < |tokens| && !IsClose(tokens[i]) && !IsComment(tokens[i])
    requires a == ScanArgs(tokens, i + 1) && a.Args?
    requires Statement(e, tokens, a.end + 1, tokens[i], tokens[a.end], a.args, a.comments, ctx, inc).Done?
    ensures r == Statement(e, tokens, a.end + 1, tokens[i], tokens[a.end], a.args, a.comments, ctx, inc)
    ensures Tells(e, tokens, i, r)
    decreases |tokens| - i, 0
  {
    var t, term, from := tokens[i], tokens[a.end], a.end + 1;
    var h, body, more := StatementParts(e, tokens, from, t, term, a.args, a.comments, ctx, inc);
    var open, remarks := IsOpen(term), CommentStmts(e, t.line, a.comments);
    if open {
      body := BlockTells(e, tokens, from, EnterBlock(t.text, ctx), more);
    } else {
      NothingTells(e, tokens, from, body);
    }
    HeadTold(e, t, a.args, term, ctx, inc);
    CommentsTold(e, t.line, a.comments);
    AssembledTold(h, open, body, remarks);
    r := Assembled(h, open, body, remarks);
    StatementTold(e, tokens, i, a, body, r);
  }

  lemma NothingTells(e: Env, tokens: seq<Token>, i: nat, r: Outcome)
    requires i <= |tokens| && r == Done([], i, [], [])
    ensures Tells(e, tokens, i, r)
  {
  }

  lemma StatementTold(e: Env, tokens: seq<Token>, i: nat, a: Args, body: Outcome, r: Outcome)
    requires i < |tokens| && !IsClose(tokens[i]) && !IsComment(tokens[i]) && a == ScanArgs(tokens, i + 1) && a.Args?
    requires Tells(e, tokens, a.end + 1, body) && r.Done? && r.next == body.next
    requires AllSaid(r.stmts) == Own(e, tokens[i], a.args) + AllSaid(body.stmts)
    requires AllNoted(r.stmts) == AllNoted(body.stmts) + NotesOf("", tokens[i].line, a.comments)
    ensures Tells(e, tokens, i, r)
  {
    StatementSplit(e, tokens, i, a);
    Assoc(Own(e, tokens[i], a.args), AllSaid(body.stmts), Heads(e, tokens, r.next));
  }

  lemma CommentTells(e: Env, tokens: seq<Token>, i: nat, r: Outcome)
    requires i < |tokens| && IsComment(tokens[i]) && !IsClose(tokens[i])
    requires r == Done(if e.comments then [CommentStmt(e, tokens[i].line, tokens[i].text[1..], true)] else [],
                       i + 1, [], [])
    ensures Tells(e, tokens, i, r)
  {
    var text := tokens[i].text[1..];
    var s := CommentStmt(e, tokens[i].line, text, true);
    AllOne(s);
    assert [text][1..] == [];
    assert NotesOf(FileOf(e), tokens[i].line, []) == multiset{};
  }

  lemma TurnTells(e: Env, tokens: seq<Token>, i: nat, ctx: seq<string>, inc: nat) returns (r: Outcome)
    requires Plain(e) && i < |tokens| && !IsClose(tokens[i]) && Turn(e, tokens, i, ctx, false, inc).Done?
    ensures r == Turn(e, tokens, i, ctx, false, inc) && Tells(e, tokens, i, r)
    decreases |tokens| - i, 1
  {
    if IsComment(tokens[i]) {
      r := Turn(e, tokens, i, ctx, false, inc);
      CommentTells(e, tokens, i, r);
    } else {
      var a := TurnIsStatement(e, tokens, i, ctx, inc);
      r := StatementTells(e, tokens, i, a, ctx, inc);
    }
  }

  lemma TurnIsStatement(e: Env, tokens: seq<Token>, i: nat, ctx: seq<string>, inc: nat) returns (a: Args)
    requires Plain(e) && i < |tokens| && !IsClose(tokens[i]) && !IsComment(tokens[i])
    requires Turn(e, tokens, i, ctx, false, inc).Done?
    ensures a == ScanArgs(tokens, i + 1) && a.Args?
    ensures Turn(e, tokens, i, ctx, false, inc)
         == Statement(e, tokens, a.end + 1, tokens[i], tokens[a.end], a.args, a.comments, ctx, inc)
  {
    a := ScanArgs(tokens, i + 1);
  }

  lemma BlockTells(e: Env, tokens: seq<Token>, i: nat, ctx: seq<string>, inc: nat) returns (r: Outcome)
    requires Plain(e) && i <= |tokens| && Block(e, tokens, i, ctx, false, inc).Done?
    ensures r == Block(e, tokens, i, ctx, false, inc) && Tells(e, tokens, i, r)
    decreases |tokens| - i, 2
  {
    if i == |tokens| || IsClose(tokens[i]) {
      r := Block(e, tokens, i, ctx, false, inc);
      assert r.stmts == [];
    } else {
      var turn, rest, more := BlockParts(e, tokens, i, ctx, false, inc);
      var _ := TurnTells(e, tokens, i, ctx, inc);
      var _ := BlockTells(e, tokens, turn.next, ctx, more);
      TellsThen(e, tokens, i, turn, rest);
      r := turn.Then(rest);
    }
  }
}
