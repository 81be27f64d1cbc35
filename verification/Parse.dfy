/** config_parse.go: from tokens to statements. */
module ConfigParse {
  import opened Common
  import opened Text
  import opened ConfigLex
  import opened ConfigTree
  import IfArguments

  /** The options of a run and the file being parsed. `resolve` stands for opening and globbing. */
  datatype Env = Env(file: string, single: bool, comments: bool, combine: bool,
                     ignore: string -> bool, resolve: string -> Option<seq<string>>)

  datatype FileCtx = FileCtx(name: string, ctx: seq<string>)

  /** What the parser reports on: a call of `analyze`, or an include that cannot be resolved. */
  datatype Event =
    | Check(directive: string, args: seq<string>, line: int, term: string, ctx: seq<string>)
    | Unresolved(line: int)

  /**
    * The statements parsed, the cursor afterwards, the files queued and the events reported, all
    * in order. `Panic` is the source's nil dereference or index out of range.
    */
  datatype Outcome =
    | Done(stmts: seq<Stmt>, next: nat, queued: seq<FileCtx>, log: seq<Event>)
    | Panic
  {
    function Then(rest: Outcome): Outcome {
      if this.Panic? || rest.Panic? then Panic
      else Done(stmts + rest.stmts, rest.next, queued + rest.queued, log + rest.log)
    }
  }

  lemma ThenAssoc(a: Outcome, b: Outcome, c: Outcome)
    ensures a.Then(b.Then(c)) == a.Then(b).Then(c)
  {
  }

  lemma ThenNothing(a: Outcome, next: nat)
    requires a.Done?
    ensures a.Then(Done([], next, [], [])) == a.(next := next)
  {
  }

  predicate IsComment(t: Token) { |t.text| > 0 && t.text[0] == '#' && !t.quote }

  predicate CheckTerminal(text: string) { text == "{" || text == ";" || text == "}" }

  predicate InDirArgs(t: Token) { !CheckTerminal(t.text) || t.quote }

  /** Arguments and the comments among them, up to the terminator at `end`. */
  datatype Args = Args(args: seq<string>, comments: seq<string>, end: nat) | RanOut

  function ScanArgs(tokens: seq<Token>, i: nat): (r: Args)
    requires i <= |tokens|
    ensures r.Args? ==> i <= r.end < |tokens| && !InDirArgs(tokens[r.end])
    decreases |tokens| - i
  {
    if i == |tokens| then RanOut
    else if !InDirArgs(tokens[i]) then Args([], [], i)
    else match ScanArgs(tokens, i + 1)
      case RanOut => RanOut
      case Args(args, comments, end) =>
        if IsComment(tokens[i]) then Args(args, [tokens[i].text[1..]] + comments, end)
        else Args([tokens[i].text] + args, comments, end)
  }

  /** Arguments and comments found before the rest. */
  function Behind(args: seq<string>, comments: seq<string>, rest: Args): Args {
    if rest.RanOut? then RanOut else Args(args + rest.args, comments + rest.comments, rest.end)
  }

  lemma BehindStep(tokens: seq<Token>, i: nat, args: seq<string>, comments: seq<string>)
    requires i < |tokens| && InDirArgs(tokens[i])
    ensures var t, rest := tokens[i], ScanArgs(tokens, i + 1);
      Behind(args, comments, ScanArgs(tokens, i))
      == if IsComment(t) then Behind(args, comments + [t.text[1..]], rest)
         else Behind(args + [t.text], comments, rest)
  {
  }

  function EnterBlock(directive: string, ctx: seq<string>): seq<string> {
    if |ctx| > 0 && ctx[0] == "http" && directive == "location" then ["http", "location"]
    else ctx + [directive]
  }

  function CommentStmt(e: Env, line: int, comment: string, filed: bool): Stmt {
    Stmt("#", if filed && e.combine then e.file else "", line, [], comment, [], NoBlock)
  }

  function CommentStmts(e: Env, line: int, comments: seq<string>): seq<Stmt> {
    seq(|comments|, i requires 0 <= i < |comments| => CommentStmt(e, line, comments[i], false))
  }

  function Indices(from: nat, n: nat): seq<nat> { seq(n, i => from + i) }

  function Queue(names: seq<string>, ctx: seq<string>): seq<FileCtx> {
    seq(|names|, i requires 0 <= i < |names| => FileCtx(names[i], ctx))
  }

  predicate SameNames(a: seq<FileCtx>, b: seq<FileCtx>) {
    |a| == |b| && forall i :: 0 <= i < |a| ==> a[i].name == b[i].name
  }

  predicate Includes(e: Env, directive: string) { !e.single && directive == "include" }

  datatype HeadOutcome = HeadDone(stmt: Stmt, queued: seq<FileCtx>, log: seq<Event>) | HeadPanic

  /** The statement headed by token `t`, before its block is parsed, with what it queues and reports. */
  function Head(e: Env, t: Token, args0: seq<string>, term: Token, ctx: seq<string>, inc: nat): HeadOutcome {
    var args := if t.text == "if" then IfArguments.Unwrapped(args0) else args0;
    var stmt := Stmt(t.text, if e.combine then e.file else "", t.line, args, "", [], NoBlock);
    var check := Check(t.text, args, t.line, term.text, ctx);
    if !Includes(e, t.text) then HeadDone(stmt, [], [check])
    else if args == [] then HeadPanic
    else match e.resolve(args[0])
      case None => HeadDone(stmt, [], [check, Unresolved(t.line)])
      case Some(names) => HeadDone(stmt.(includes := Indices(inc, |names|)), Queue(names, ctx), [check])
  }

  /**
    * One turn of the loop of parseInternal, at a token that does not close the block. `inc` is the
    * number of files queued so far.
    */
  function Turn(e: Env, tokens: seq<Token>, i: nat, ctx: seq<string>, consume: bool, inc: nat): (r: Outcome)
    requires i < |tokens| && !IsClose(tokens[i])
    ensures r.Done? ==> i < r.next <= |tokens|
    decreases |tokens| - i, 0
  {
    var t := tokens[i];
    if consume && IsOpen(t) then Discard(Block(e, tokens, i + 1, [], true, inc))
    else if IsComment(t) then
      Done(if e.comments then [CommentStmt(e, t.line, t.text[1..], true)] else [], i + 1, [], [])
    else match ScanArgs(tokens, i + 1)
      case RanOut => Panic
      case Args(args, comments, end) =>
        var term := tokens[end];
        if e.ignore(t.text) then Discard(BodyOf(e, tokens, end + 1, term, [], true, inc))
        else Statement(e, tokens, end + 1, t, term, args, comments, ctx, inc)
  }

  /** A statement that is not ignored, its terminator just read. */
  function Statement(e: Env, tokens: seq<Token>, i: nat, t: Token, term: Token, args: seq<string>,
                     comments: seq<string>, ctx: seq<string>, inc: nat): (r: Outcome)
    requires i <= |tokens|
    ensures r.Done? ==> i <= r.next <= |tokens|
    decreases |tokens| - i, 3
  {
    var head := Head(e, t, args, term, ctx, inc);
    if head.HeadPanic? then Panic
    else
      Assembled(head, IsOpen(term), BodyOf(e, tokens, i, term, EnterBlock(t.text, ctx), false, inc + |head.queued|),
                CommentStmts(e, t.line, comments))
  }

  /** The block behind an opening brace; nothing behind another terminator. */
  function BodyOf(e: Env, tokens: seq<Token>, i: nat, term: Token, ctx: seq<string>, consume: bool,
                  inc: nat): (r: Outcome)
    requires i <= |tokens|
    ensures r.Done? ==> i <= r.next <= |tokens|
    decreases |tokens| - i, 2
  {
    if IsOpen(term) then Block(e, tokens, i, ctx, consume, inc) else Done([], i, [], [])
  }

  /** A statement with its block, if it has one, and the comments found among its arguments. */
  function Assembled(head: HeadOutcome, open: bool, body: Outcome, comments: seq<Stmt>): Outcome
    requires head.HeadDone?
  {
    if body.Panic? then Panic
    else
      Done([if open then head.stmt.(body := Braces(body.stmts)) else head.stmt] + comments, body.next,
           head.queued + body.queued, head.log + body.log)
  }

  /** A block parsed for its cursor only; what it queued and reported stays. */
  function Discard(r: Outcome): Outcome { if r.Panic? then Panic else r.(stmts := []) }

  /** parseInternal */
  function Block(e: Env, tokens: seq<Token>, i: nat, ctx: seq<string>, consume: bool, inc: nat): (r: Outcome)
    requires i <= |tokens|
    ensures r.Done? ==> i <= r.next <= |tokens|
    decreases |tokens| - i, 1
  {
    if i == |tokens| then Done([], i, [], [])
    else if IsClose(tokens[i]) then Done([], i + 1, [], [])
    else
      var turn := Turn(e, tokens, i, ctx, consume, inc);
      if turn.Panic? then Panic
      else turn.Then(Block(e, tokens, turn.next, ctx, consume, inc + |turn.queued|))
  }

  /** A block that is parsed in full: its first turn, then the rest. */
  lemma BlockParts(e: Env, tokens: seq<Token>, i: nat, ctx: seq<string>, consume: bool, inc: nat)
    returns (turn: Outcome, rest: Outcome, more: nat)
    requires i < |tokens| && !IsClose(tokens[i]) && Block(e, tokens, i, ctx, consume, inc).Done?
    ensures turn == Turn(e, tokens, i, ctx, consume, inc) && turn.Done? && i < turn.next <= |tokens|
    ensures more == inc + |turn.queued| && rest == Block(e, tokens, turn.next, ctx, consume, more) && rest.Done?
    ensures Block(e, tokens, i, ctx, consume, inc) == turn.Then(rest)
  {
    turn := Turn(e, tokens, i, ctx, consume, inc);
    more := inc + |turn.queued|;
    rest := Block(e, tokens, turn.next, ctx, consume, more);
  }

  lemma BlockIs(e: Env, tokens: seq<Token>, i: nat, ctx: seq<string>, consume: bool, inc: nat,
                turn: Outcome, more: nat, rest: Outcome)
    requires i < |tokens| && !IsClose(tokens[i])
    requires turn == Turn(e, tokens, i, ctx, consume, inc) && turn.Done? && more == inc + |turn.queued|
    requires rest == Block(e, tokens, turn.next, ctx, consume, more)
    ensures Block(e, tokens, i, ctx, consume, inc) == turn.Then(rest)
  {
  }

  /** What a turn makes of a statement, ignored or not. */
  function Handled(e: Env, tokens: seq<Token>, i: nat, t: Token, term: Token, a: Args, ctx: seq<string>,
                   inc: nat): Outcome
    requires i <= |tokens| && a.Args?
  {
    if e.ignore(t.text) then Discard(BodyOf(e, tokens, i, term, [], true, inc))
    else Statement(e, tokens, i, t, term, a.args, a.comments, ctx, inc)
  }

  /** A turn at a statement. */
  lemma TurnParts(e: Env, tokens: seq<Token>, i: nat, ctx: seq<string>, consume: bool, inc: nat) returns (a: Args)
    requires i < |tokens| && !IsClose(tokens[i]) && !IsOpen(tokens[i]) && !IsComment(tokens[i])
    requires Turn(e, tokens, i, ctx, consume, inc).Done?
    ensures a == ScanArgs(tokens, i + 1) && a.Args? && i < a.end < |tokens| && !InDirArgs(tokens[a.end])
    ensures Turn(e, tokens, i, ctx, consume, inc)
         == Handled(e, tokens, a.end + 1, tokens[i], tokens[a.end], a, ctx, inc)
  {
    a := ScanArgs(tokens, i + 1);
    TurnIs(e, tokens, i, ctx, consume, inc, a);
  }

  lemma TurnIs(e: Env, tokens: seq<Token>, i: nat, ctx: seq<string>, consume: bool, inc: nat, a: Args)
    requires i < |tokens| && !IsClose(tokens[i]) && !IsOpen(tokens[i]) && !IsComment(tokens[i])
    requires a == ScanArgs(tokens, i + 1) && a.Args?
    ensures Turn(e, tokens, i, ctx, consume, inc)
         == Handled(e, tokens, a.end + 1, tokens[i], tokens[a.end], a, ctx, inc)
  {
  }

  lemma StatementParts(e: Env, tokens: seq<Token>, i: nat, t: Token, term: Token, args: seq<string>,
                       comments: seq<string>, ctx: seq<string>, inc: nat)
    returns (head: HeadOutcome, body: Outcome, more: nat)
    requires i <= |tokens| && Statement(e, tokens, i, t, term, args, comments, ctx, inc).Done?
    ensures head == Head(e, t, args, term, ctx, inc) && head.HeadDone? && more == inc + |head.queued|
    ensures body == BodyOf(e, tokens, i, term, EnterBlock(t.text, ctx), false, more) && body.Done?
    ensures Statement(e, tokens, i, t, term, args, comments, ctx, inc)
         == Assembled(head, IsOpen(term), body, CommentStmts(e, t.line, comments))
  {
    head := Head(e, t, args, term, ctx, inc);
    more := inc + |head.queued|;
    body := BodyOf(e, tokens, i, term, EnterBlock(t.text, ctx), false, more);
  }

  lemma StatementIs(e: Env, tokens: seq<Token>, i: nat, t: Token, term: Token, args: seq<string>,
                    comments: seq<string>, ctx: seq<string>, inc: nat, more: nat, head: HeadOutcome, body: Outcome)
    requires i <= |tokens| && head == Head(e, t, args, term, ctx, inc) && head.HeadDone?
    requires more == inc + |head.queued| && body == BodyOf(e, tokens, i, term, EnterBlock(t.text, ctx), false, more)
    ensures Statement(e, tokens, i, t, term, args, comments, ctx, inc)
         == Assembled(head, IsOpen(term), body, CommentStmts(e, t.line, comments))
  {
  }

  /** A block parsed in part: `whole` is `sofar`, then the block from the cursor on. */
  ghost predicate Split(e: Env, tokens: seq<Token>, ctx: seq<string>, consume: bool, inc: nat,
                        sofar: Outcome, whole: Outcome)
  {
    && sofar.Done? && sofar.next <= |tokens|
    && whole == sofar.Then(Block(e, tokens, sofar.next, ctx, consume, inc))
  }

  lemma BlockStep(e: Env, tokens: seq<Token>, ctx: seq<string>, consume: bool, inc: nat,
                  sofar: Outcome, whole: Outcome)
    requires Split(e, tokens, ctx, consume, inc, sofar, whole)
    ensures sofar.next == |tokens| ==> whole == sofar
    ensures sofar.next < |tokens| && IsClose(tokens[sofar.next]) ==> whole == sofar.(next := sofar.next + 1)
    ensures sofar.next < |tokens| && !IsClose(tokens[sofar.next]) ==>
      var turn := Turn(e, tokens, sofar.next, ctx, consume, inc);
      if turn.Panic? then whole.Panic?
      else Split(e, tokens, ctx, consume, inc + |turn.queued|, sofar.Then(turn), whole)
  {
    var i := sofar.next;
    if i == |tokens| || IsClose(tokens[i]) {
      ThenNothing(sofar, if i == |tokens| then i else i + 1);
    } else {
      var turn := Turn(e, tokens, i, ctx, consume, inc);
      if turn.Done? {
        ThenAssoc(sofar, turn, Block(e, tokens, turn.next, ctx, consume, inc + |turn.queued|));
      }
    }
  }

  // ---- The source's own form ----

  class TokenIter {
    const tokens: seq<Token>
    var idx: nat

    constructor (tokens: seq<Token>)
      ensures this.tokens == tokens && idx == 0
    {
      this.tokens, idx := tokens, 0;
    }

    /** The next token, or none at the end. */
    method Next() returns (t: Option<Token>)
      modifies this
      ensures old(idx) < |tokens| ==> t == Some(tokens[old(idx)]) && idx == old(idx) + 1
      ensures old(idx) >= |tokens| ==> t == None && idx == old(idx)
    {
      if idx < |tokens| {
        idx := idx + 1;
        return Some(tokens[idx - 1]);
      }
      return None;
    }
  }

  /** The state that parsing a file changes: the queue of files to parse and what was reported. */
  class Parsing {
    const env: Env
    var includes: seq<FileCtx>
    var log: seq<Event>

    constructor (env: Env, includes: seq<FileCtx>)
      ensures this.env == env && this.includes == includes && log == []
    {
      this.env, this.includes, log := env, includes, [];
    }

    /** Reads arguments up to a terminator, which it returns; none when the tokens run out. */
    method ReadArgs(it: TokenIter) returns (term: Option<Token>, args: seq<string>, comments: seq<string>)
      requires it.idx <= |it.tokens|
      modifies it
      ensures var r := ScanArgs(it.tokens, old(it.idx));
        if r.RanOut? then term == None
        else term == Some(it.tokens[r.end]) && it.idx == r.end + 1 && args == r.args && comments == r.comments
    {
      args, comments := [], [];
      term := it.Next();
      while term.Some? && InDirArgs(term.value)
        invariant it.idx <= |it.tokens|
        invariant term.Some? ==> old(it.idx) < it.idx && term.value == it.tokens[it.idx - 1]
        invariant term.None? ==> it.idx == |it.tokens|
        invariant var at := if term.Some? then it.idx - 1 else it.idx;
          ScanArgs(it.tokens, old(it.idx)) == Behind(args, comments, ScanArgs(it.tokens, at))
        decreases |it.tokens| - it.idx, term.Some?
      {
        var t := term.value;
        BehindStep(it.tokens, it.idx - 1, args, comments);
        if |t.text| > 0 && t.text[0] == '#' && !t.quote {
          comments := comments + [t.text[1..]];
        } else {
          args := args + [t.text];
        }
        term := it.Next();
      }
    }

    /** The fields hold what `o` adds to the queue and reports held before. */
    ghost predicate Reached(queue: seq<FileCtx>, reports: seq<Event>, it: TokenIter, o: Outcome, r: Option<seq<Stmt>>)
      reads this, it
    {
      if o.Panic? then r.None?
      else r == Some(o.stmts) && it.idx == o.next && includes == queue + o.queued && log == reports + o.log
    }

    /** Resolves an include and queues its files; none when the statement has no argument. */
    method QueueIncludes(stmt: Stmt, ctx: seq<string>) returns (r: Option<Stmt>)
      modifies this
      ensures log == old(log)
        + if stmt.args != [] && env.resolve(stmt.args[0]).None? then [Unresolved(stmt.line)] else []
      ensures if stmt.args == [] then r.None? && includes == old(includes)
              else match env.resolve(stmt.args[0])
                case None => r == Some(stmt) && includes == old(includes)
                case Some(names) =>
                  && r == Some(stmt.(includes := stmt.includes + Indices(|old(includes)|, |names|)))
                  && includes == old(includes) + Queue(names, ctx)
    {
      if stmt.args == [] {
        return None;
      }
      var filenames := [];
      match env.resolve(stmt.args[0]) {
        case None => log := log + [Unresolved(stmt.line)];
        case Some(names) => filenames := names;
      }
      var indices := [];
      for k := 0 to |filenames|
        invariant log == old(log) + if env.resolve(stmt.args[0]).None? then [Unresolved(stmt.line)] else []
        invariant indices == Indices(|old(includes)|, k)
        invariant includes == old(includes) + Queue(filenames[..k], ctx)
      {
        indices := indices + [|includes|];
        includes := includes + [FileCtx(filenames[k], ctx)];
      }
      assert filenames[..|filenames|] == filenames;
      assert filenames == [] ==> stmt.includes + indices == stmt.includes;
      r := Some(stmt.(includes := stmt.includes + indices));
    }

    /** Checks a statement and queues what it includes. */
    method ParseHead(token: Token, args: seq<string>, term: Token, ctx: seq<string>)
      returns (r: Option<Stmt>)
      modifies this
      ensures var h := Head(env, token, args, term, ctx, |old(includes)|);
        if h.HeadPanic? then r.None?
        else r == Some(h.stmt) && includes == old(includes) + h.queued && log == old(log) + h.log
    {
      var stmt := Stmt(token.text, if env.combine then env.file else "", token.line, args, "", [], NoBlock);
      if stmt.directive == "if" {
        var kept := new string[|args|](i requires 0 <= i < |args| => args[i]);
        assert kept[..] == args;
        var n := IfArguments.PrepareIfArgs(kept);
        stmt := stmt.(args := kept[..n]);
      }
      log := log + [Check(stmt.directive, stmt.args, stmt.line, term.text, ctx)];
      if env.single || stmt.directive != "include" {
        return Some(stmt);
      }
      r := QueueIncludes(stmt, ctx);
      assert forall n :: [] + Indices(|old(includes)|, n) == Indices(|old(includes)|, n);
    }

    method ParseTurn(it: TokenIter, token: Token, ctx: seq<string>, consume: bool)
      returns (r: Option<seq<Stmt>>)
      requires 0 < it.idx <= |it.tokens| && token == it.tokens[it.idx - 1] && !IsClose(token)
      modifies this, it
      ensures Reached(old(includes), old(log), it,
                      Turn(env, it.tokens, old(it.idx) - 1, ctx, consume, |old(includes)|), r)
      decreases |it.tokens| - it.idx, 2
    {
      if consume && token.text == "{" && !token.quote {
        r := ParseInternal(it, [], true);
        return if r.None? then None else Some([]);
      }
      if IsComment(token) {
        return Some(if env.comments then [CommentStmt(env, token.line, token.text[1..], true)] else []);
      }
      var term, args, comments := ReadArgs(it);
      if term.None? {
        return None;
      }
      if env.ignore(token.text) {
        if IsOpen(term.value) {
          r := ParseInternal(it, [], true);
          return if r.None? then None else Some([]);
        }
        return Some([]);
      }
      r := ParseStmt(it, token, term.value, args, comments, ctx);
    }

    /** A statement that is not ignored, with its block. */
    method ParseStmt(it: TokenIter, token: Token, term: Token, args: seq<string>, comments: seq<string>,
                     ctx: seq<string>) returns (r: Option<seq<Stmt>>)
      requires it.idx <= |it.tokens|
      modifies this, it
      ensures Reached(old(includes), old(log), it,
                      Statement(env, it.tokens, old(it.idx), token, term, args, comments, ctx, |old(includes)|), r)
      decreases |it.tokens| - it.idx, 2
    {
      ghost var inc := |includes|;
      ghost var head := Head(env, token, args, term, ctx, inc);
      var stmt := ParseHead(token, args, term, ctx);
      if stmt.None? {
        return None;
      }
      ghost var more := |includes|;
      ghost var body := BodyOf(env, it.tokens, it.idx, term, EnterBlock(token.text, ctx), false, more);
      StatementIs(env, it.tokens, it.idx, token, term, args, comments, ctx, inc, more, head, body);
      if IsOpen(term) {
        r := ParseInternal(it, EnterBlock(token.text, ctx), false);
        if r.None? {
          return None;
        }
        stmt := Some(stmt.value.(body := Braces(r.value)));
      }
      return Some([stmt.value] + CommentStmts(env, token.line, comments));
    }

    /** Between two turns: `token` is read, and `whole` splits into `sofar` and what is ahead. */
    ghost predicate Between(queue: seq<FileCtx>, reports: seq<Event>, it: TokenIter, token: Option<Token>,
                            ctx: seq<string>, consume: bool, sofar: Outcome, whole: Outcome)
      reads this, it
    {
      && it.idx <= |it.tokens|
      && (if token.Some? then 0 < it.idx && token.value == it.tokens[it.idx - 1] else it.idx == |it.tokens|)
      && Split(env, it.tokens, ctx, consume, |includes|, sofar, whole)
      && sofar.next == (if token.Some? then it.idx - 1 else it.idx)
      && includes == queue + sofar.queued && log == reports + sofar.log
    }

    /** A turn and the read of the next token; a panic ends the run. */
    method Advance(it: TokenIter, token: Token, ctx: seq<string>, consume: bool, ghost queue: seq<FileCtx>,
                   ghost reports: seq<Event>, ghost sofar: Outcome, ghost whole: Outcome)
      returns (stmts: Option<seq<Stmt>>, next: Option<Token>, ghost done: Outcome)
      requires Between(queue, reports, it, Some(token), ctx, consume, sofar, whole) && !IsClose(token)
      modifies this, it
      ensures stmts.None? ==> whole.Panic?
      ensures stmts.Some? ==>
        && Between(queue, reports, it, next, ctx, consume, done, whole)
        && done.stmts == sofar.stmts + stmts.value && old(it.idx) <= it.idx
        && (next.Some? ==> old(it.idx) < it.idx)
      decreases |it.tokens| - it.idx, 3
    {
      ghost var turn := Turn(env, it.tokens, it.idx - 1, ctx, consume, |includes|);
      BlockStep(env, it.tokens, ctx, consume, |includes|, sofar, whole);
      ghost var before := includes;
      stmts := ParseTurn(it, token, ctx, consume);
      next, done := None, sofar;
      if stmts.Some? {
        done := sofar.Then(turn);
        assert |includes| == |before| + |turn.queued|;
        next := it.Next();
      }
    }

    /** Refines `Block`: the statements, the cursor, the queue and the reports. */
    method ParseInternal(it: TokenIter, ctx: seq<string>, consume: bool) returns (r: Option<seq<Stmt>>)
      requires it.idx <= |it.tokens|
      modifies this, it
      ensures Reached(old(includes), old(log), it,
                      Block(env, it.tokens, old(it.idx), ctx, consume, |old(includes)|), r)
      decreases |it.tokens| - it.idx, 1
    {
      var parsed: seq<Stmt> := [];
      ghost var whole := Block(env, it.tokens, it.idx, ctx, consume, |includes|);
      ghost var sofar := Done([], it.idx, [], []);
      var token := it.Next();
      while token.Some?
        invariant Between(old(includes), old(log), it, token, ctx, consume, sofar, whole)
        invariant sofar.stmts == parsed && old(it.idx) <= it.idx
        invariant token.Some? ==> old(it.idx) < it.idx
        decreases |it.tokens| - it.idx, token.Some?
      {
        if IsClose(token.value) {
          break;
        }
        var stmts;
        stmts, token, sofar := Advance(it, token.value, ctx, consume, old(includes), old(log), sofar, whole);
        if stmts.None? {
          return None;
        }
        parsed := parsed + stmts.value;
      }
      BlockStep(env, it.tokens, ctx, consume, |includes|, sofar, whole);
      return Some(parsed);
    }
  }
}
