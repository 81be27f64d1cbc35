/** The contexts of a configuration, told from the blocks around a statement. */
module BlockContexts {
  import opened Common
  import opened Text
  import opened ConfigLex
  import opened ConfigTree
  import opened ConfigParse
  import opened ParsedBlocks

  /** At `k` the path enters a `location` somewhere inside an outermost `http`. */
  predicate EntersLocation(path: seq<string>, k: nat) {
    0 < k < |path| && path[0] == "http" && path[k] == "location"
  }

  /** The last such place, zero if there is none. */
  function LastLocation(path: seq<string>): (k: nat)
    ensures k == 0 || EntersLocation(path, k)
    ensures forall j: nat :: EntersLocation(path, j) ==> j <= k
  {
    if path == [] then 0
    else if EntersLocation(path, |path| - 1) then |path| - 1
    else
      var k := LastLocation(path[..|path| - 1]);
      assert forall j: nat :: EntersLocation(path, j) ==> EntersLocation(path[..|path| - 1], j);
      k
  }

  /**
    * The context inside the blocks of `path`, outermost first: the path itself, but what lies
    * between an outermost `http` and the last `location` in it is left out.
    */
  function ContextOf(path: seq<string>): seq<string> {
    var k := LastLocation(path);
    if k == 0 then path else ["http"] + path[k..]
  }

  lemma SameLocation(path: seq<string>, directive: string)
    ensures var longer := path + [directive];
      LastLocation(longer) == if EntersLocation(longer, |path|) then |path| else LastLocation(path)
  {
    assert (path + [directive])[..|path|] == path;
  }

  /** Entering a block adds to the path. */
  lemma EnterIsPath(path: seq<string>, directive: string)
    ensures EnterBlock(directive, ContextOf(path)) == ContextOf(path + [directive])
  {
    var longer, k := path + [directive], LastLocation(path);
    SameLocation(path, directive);
    if EntersLocation(longer, |path|) {
      assert longer[|path|..] == ["location"];
    } else if k > 0 {
      assert longer[k..] == path[k..] + [directive];
    }
  }

  function StmtOnPath(s: Stmt, path: seq<string>): seq<Visit>
    decreases s
  {
    VisitOf(s, ContextOf(path)) + if s.body.Braces? then OnPath(s.body.stmts, path + [s.directive]) else []
  }

  /** The statements of a block in document order, each with the context told from the blocks around it. */
  function OnPath(block: seq<Stmt>, path: seq<string>): seq<Visit>
    decreases block
  {
    if block == [] then [] else StmtOnPath(block[0], path) + OnPath(block[1..], path)
  }

  lemma {:induction false} WalkIsOnPath(block: seq<Stmt>, path: seq<string>)
    ensures Walk(block, ContextOf(path)) == OnPath(block, path)
    decreases block
  {
    if block != [] {
      if block[0].body.Braces? {
        EnterIsPath(path, block[0].directive);
        WalkIsOnPath(block[0].body.stmts, path + [block[0].directive]);
      }
      WalkIsOnPath(block[1..], path);
    }
  }

  /** The files a statement includes: those its first argument stands for, unless includes are not followed. */
  function FilesOf(e: Env, s: Stmt): seq<string> {
    if s.directive == "include" && !e.single && s.args != [] && e.resolve(s.args[0]).Some?
    then e.resolve(s.args[0]).value else []
  }

  function StmtQueuesOnPath(e: Env, s: Stmt, path: seq<string>): seq<FileCtx>
    decreases s
  {
    Queue(FilesOf(e, s), ContextOf(path))
    + if s.body.Braces? then QueuesOnPath(e, s.body.stmts, path + [s.directive]) else []
  }

  function QueuesOnPath(e: Env, block: seq<Stmt>, path: seq<string>): seq<FileCtx>
    decreases block
  {
    if block == [] then [] else StmtQueuesOnPath(e, block[0], path) + QueuesOnPath(e, block[1..], path)
  }

  lemma {:induction false} QueueIsOnPath(e: Env, block: seq<Stmt>, path: seq<string>)
    ensures QueueOf(e, block, ContextOf(path)) == QueuesOnPath(e, block, path)
    decreases block
  {
    if block != [] {
      if block[0].body.Braces? {
        EnterIsPath(path, block[0].directive);
        QueueIsOnPath(e, block[0].body.stmts, path + [block[0].directive]);
      }
      QueueIsOnPath(e, block[1..], path);
    }
  }

  /**
    * With nothing ignored, a file that is included inside the blocks of `path`, the root inside
    * none, has each statement checked and each file queued in the context of the blocks around it.
    */
  lemma ContextsArePaths(e: Env, tokens: seq<Token>, path: seq<string>, inc: nat)
    requires Plain(e) && Block(e, tokens, 0, ContextOf(path), false, inc).Done?
    ensures var r := Block(e, tokens, 0, ContextOf(path), false, inc);
      Visits(r.log) == OnPath(r.stmts, path) && r.queued == QueuesOnPath(e, r.stmts, path)
  {
    var r := BlockAccounted(e, tokens, 0, ContextOf(path), inc);
    WalkIsOnPath(r.stmts, path);
    QueueIsOnPath(e, r.stmts, path);
  }

  // ---- Includes that cannot be resolved ----

  /** The lines of the includes reported as unresolved. */
  function Reported(log: seq<Event>): seq<int> {
    if log == [] then [] else (if log[0].Unresolved? then [log[0].line] else []) + Reported(log[1..])
  }

  function StmtUnfound(e: Env, s: Stmt): seq<int>
    decreases s
  {
    (if s.directive == "include" && !e.single && s.args != [] && e.resolve(s.args[0]).None? then [s.line] else [])
    + if s.body.Braces? then Unfound(e, s.body.stmts) else []
  }

  /** The lines of the includes that no file can be found for, in document order. */
  function Unfound(e: Env, block: seq<Stmt>): seq<int>
    decreases block
  {
    if block == [] then [] else StmtUnfound(e, block[0]) + Unfound(e, block[1..])
  }

  lemma {:induction false} ReportedAppend(a: seq<Event>, b: seq<Event>)
    ensures Reported(a + b) == Reported(a) + Reported(b)
    decreases |a|
  {
    if a == [] {
      assert a + b == b;
    } else {
      assert (a + b)[1..] == a[1..] + b;
      ReportedAppend(a[1..], b);
    }
  }

  lemma {:induction false} UnfoundAppend(e: Env, a: seq<Stmt>, b: seq<Stmt>)
    ensures Unfound(e, a + b) == Unfound(e, a) + Unfound(e, b)
    decreases |a|
  {
    if a == [] {
      assert a + b == b;
    } else {
      assert (a + b)[1..] == a[1..] + b;
      UnfoundAppend(e, a[1..], b);
      Assoc(StmtUnfound(e, a[0]), Unfound(e, a[1..]), Unfound(e, b));
    }
  }

  lemma {:induction false} RemarksFound(e: Env, remarks: seq<Stmt>)
    requires forall s <- remarks :: IsLoneComment(s)
    ensures Unfound(e, remarks) == []
    decreases |remarks|
  {
    if remarks != [] {
      assert IsLoneComment(remarks[0]);
      RemarksFound(e, remarks[1..]);
    }
  }

  predicate Reports(e: Env, r: Outcome) { r.Done? && Reported(r.log) == Unfound(e, r.stmts) }

  lemma HeadReports(e: Env, t: Token, args: seq<string>, term: Token, ctx: seq<string>, inc: nat)
    requires Head(e, t, args, term, ctx, inc).HeadDone?
    ensures var h := Head(e, t, args, term, ctx, inc);
      h.stmt.body == NoBlock && Reported(h.log) == StmtUnfound(e, h.stmt)
  {
    var h := Head(e, t, args, term, ctx, inc);
    assert Reported([]) == [];
    if |h.log| == 2 {
      assert h.log[1..][1..] == [] && h.log[1..][0] == h.log[1];
    }
  }

  lemma AssembledReports(e: Env, h: HeadOutcome, open: bool, body: Outcome, remarks: seq<Stmt>)
    requires h.HeadDone? && h.stmt.body == NoBlock && Reported(h.log) == StmtUnfound(e, h.stmt)
    requires Reports(e, body) && (open || body.stmts == []) && Unfound(e, remarks) == []
    ensures Reports(e, Assembled(h, open, body, remarks))
  {
    var s := if open then h.stmt.(body := Braces(body.stmts)) else h.stmt;
    ReportedAppend(h.log, body.log);
    UnfoundAppend(e, [s], remarks);
    assert [s][1..] == [] && Unfound(e, []) == [];
    assert StmtUnfound(e, s) == StmtUnfound(e, h.stmt) + Unfound(e, body.stmts);
  }

  lemma StatementReports(e: Env, tokens: seq<Token>, i: nat, t: Token, term: Token, a: Args, ctx: seq<string>, inc: nat)
    returns (r: Outcome)
    requires Plain(e) && i <= |tokens| && a.Args?
    requires Statement(e, tokens, i, t, term, a.args, a.comments, ctx, inc).Done?
    ensures r == Statement(e, tokens, i, t, term, a.args, a.comments, ctx, inc) && Reports(e, r)
    decreases |tokens| - i, 3
  {
    var h, body, more := StatementParts(e, tokens, i, t, term, a.args, a.comments, ctx, inc);
    var open, remarks := IsOpen(term), CommentStmts(e, t.line, a.comments);
    if open {
      body := BlockReports(e, tokens, i, EnterBlock(t.text, ctx), more);
    }
    HeadReports(e, t, a.args, term, ctx, inc);
    RemarksFound(e, remarks);
    r := Assembled(h, open, body, remarks);
    AssembledReports(e, h, open, body, remarks);
  }

  lemma TurnReports(e: Env, tokens: seq<Token>, i: nat, ctx: seq<string>, inc: nat) returns (r: Outcome)
    requires Plain(e) && i < |tokens| && !IsClose(tokens[i]) && Turn(e, tokens, i, ctx, false, inc).Done?
    ensures r == Turn(e, tokens, i, ctx, false, inc) && Reports(e, r)
    decreases |tokens| - i, 0
  {
    r := Turn(e, tokens, i, ctx, false, inc);
    if IsComment(tokens[i]) {
      RemarksFound(e, r.stmts);
    } else {
      var a := ScanArgs(tokens, i + 1);
      r := StatementReports(e, tokens, a.end + 1, tokens[i], tokens[a.end], a, ctx, inc);
    }
  }

  /** With nothing ignored, the includes reported are those that no file can be found for. */
  lemma BlockReports(e: Env, tokens: seq<Token>, i: nat, ctx: seq<string>, inc: nat) returns (r: Outcome)
    requires Plain(e) && i <= |tokens| && Block(e, tokens, i, ctx, false, inc).Done?
    ensures r == Block(e, tokens, i, ctx, false, inc) && Reports(e, r)
    decreases |tokens| - i, 1
  {
    if i == |tokens| || IsClose(tokens[i]) {
      r := Block(e, tokens, i, ctx, false, inc);
    } else {
      var turn, rest, more := BlockParts(e, tokens, i, ctx, false, inc);
      var _ := TurnReports(e, tokens, i, ctx, inc);
      var _ := BlockReports(e, tokens, turn.next, ctx, more);
      ReportedAppend(turn.log, rest.log);
      UnfoundAppend(e, turn.stmts, rest.stmts);
      r := turn.Then(rest);
    }
  }
}
