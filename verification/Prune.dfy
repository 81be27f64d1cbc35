/** config_parse.go: parsing with an `ignore` predicate prunes the full parse. */
module IgnoringIsPruning {
  import opened Text
  import opened ConfigLex
  import opened ConfigTree
  import opened ConfigParse
  import opened ParsedBlocks

  /** The block without the statements whose directive is ignored, at all depths. */
  function Pruned(ignore: string -> bool, block: seq<Stmt>): seq<Stmt>
    decreases block
  {
    if block == [] then []
    else if ignore(block[0].directive) then Pruned(ignore, block[1..])
    else
      [if block[0].body.Braces? then block[0].(body := Braces(Pruned(ignore, block[0].body.stmts))) else block[0]]
      + Pruned(ignore, block[1..])
  }

  /** `f` is `e` with nothing ignored. */
  ghost predicate Unfiltered(e: Env, f: Env) {
    && f.file == e.file && f.single == e.single && f.comments == e.comments && f.combine == e.combine
    && f.resolve == e.resolve && (forall d :: !f.ignore(d))
  }

  /** A position where a statement may start. */
  predicate AtStart(tokens: seq<Token>, i: nat)
    requires i <= |tokens|
  {
    i == 0 || !InDirArgs(tokens[i - 1]) || IsComment(tokens[i - 1])
  }

  /** Statements are not empty, and closing braces and comments stand between statements. */
  predicate Fits(tokens: seq<Token>, i: nat)
    requires i < |tokens|
  {
    if IsClose(tokens[i]) || IsComment(tokens[i]) then AtStart(tokens, i)
    else !InDirArgs(tokens[i]) ==> !AtStart(tokens, i)
  }

  predicate WellFormed(tokens: seq<Token>) { forall i :: 0 <= i < |tokens| ==> Fits(tokens, i) }

  /** The ignoring run `r` against the full run `f`. */
  predicate Prunes(e: Env, r: Outcome, f: Outcome) {
    && r.Done? && f.Done? && r.next == f.next
    && r.stmts == Pruned(e.ignore, f.stmts)
    && (!e.ignore("include") ==> SameNames(r.queued, f.queued))
  }

  lemma {:induction false} PrunedAppend(ignore: string -> bool, a: seq<Stmt>, b: seq<Stmt>)
    ensures Pruned(ignore, a + b) == Pruned(ignore, a) + Pruned(ignore, b)
    decreases |a|
  {
    if a == [] {
      assert a + b == b;
    } else {
      assert (a + b)[1..] == a[1..] + b;
      PrunedAppend(ignore, a[1..], b);
    }
  }

  lemma PrunesThen(e: Env, r: Outcome, f: Outcome, r2: Outcome, f2: Outcome)
    requires Prunes(e, r, f) && Prunes(e, r2, f2)
    ensures Prunes(e, r.Then(r2), f.Then(f2))
  {
    PrunedAppend(e.ignore, f.stmts, f2.stmts);
  }

  /** In a well-formed list no comment stands among arguments. */
  lemma {:induction false} ArgsHaveNoComments(tokens: seq<Token>, i: nat)
    requires WellFormed(tokens) && 0 < i <= |tokens| && InDirArgs(tokens[i - 1]) && !IsComment(tokens[i - 1])
    ensures var r := ScanArgs(tokens, i); r.Args? ==> r.comments == [] && !IsClose(tokens[r.end])
    decreases |tokens| - i
  {
    if i < |tokens| {
      assert Fits(tokens, i);
      if InDirArgs(tokens[i]) {
        ArgsHaveNoComments(tokens, i + 1);
      }
    }
  }

  lemma NoComments(e: Env, line: int)
    ensures CommentStmts(e, line, []) == []
  {
  }

  /** The counts of files queued so far, where they matter. */
  predicate SameCount(e: Env, inc: nat, full: nat) { !e.ignore("include") ==> inc == full }

  lemma HeadPrunes(e: Env, g: Env, t: Token, args: seq<string>, term: Token, c: seq<string>, d: seq<string>,
                   inc: nat, full: nat)
    requires Unfiltered(e, g) && SameCount(e, inc, full) && !e.ignore(t.text)
    ensures var h, f := Head(e, t, args, term, c, inc), Head(g, t, args, term, d, full);
      && h.HeadDone? == f.HeadDone?
      && (h.HeadDone? ==> h.stmt == f.stmt && h.stmt.directive == t.text && h.stmt.body == NoBlock
                          && SameNames(h.queued, f.queued))
  {
  }

  lemma OnePruned(ignore: string -> bool, s: Stmt)
    ensures Pruned(ignore, [s]) ==
      if ignore(s.directive) then []
      else [if s.body.Braces? then s.(body := Braces(Pruned(ignore, s.body.stmts))) else s]
  {
    assert [s][1..] == [];
    assert Pruned(ignore, []) == [];
  }

  /** The parser does not ask `ignore` about comments: if it keeps any, `ignore` must not be true of `#`. */
  predicate CommentsSpared(e: Env, tokens: seq<Token>) {
    forall i :: 0 <= i < |tokens| && e.comments && IsComment(tokens[i]) ==> !e.ignore("#")
  }

  ghost predicate Setting(e: Env, g: Env, tokens: seq<Token>, i: nat, inc: nat, full: nat) {
    Unfiltered(e, g) && WellFormed(tokens) && i <= |tokens| && AtStart(tokens, i) && SameCount(e, inc, full)
    && CommentsSpared(e, tokens)
  }

  lemma BlockPrunes(e: Env, g: Env, tokens: seq<Token>, i: nat, c: seq<string>, d: seq<string>, consume: bool,
                    inc: nat, full: nat) returns (r: Outcome, f: Outcome)
    requires Setting(e, g, tokens, i, inc, full) && Block(g, tokens, i, d, false, full).Done?
    ensures r == Block(e, tokens, i, c, consume, inc) && f == Block(g, tokens, i, d, false, full)
    ensures Prunes(e, r, f) && f.next <= |tokens| && AtStart(tokens, f.next)
    decreases |tokens| - i, 1
  {
    if i == |tokens| || IsClose(tokens[i]) {
      r, f := Block(e, tokens, i, c, consume, inc), Block(g, tokens, i, d, false, full);
    } else {
      var turn, rest, n := BlockParts(g, tokens, i, d, false, full);
      var r1, f1 := TurnPrunes(e, g, tokens, i, c, d, consume, inc, full);
      var m := inc + |r1.queued|;
      assert turn == f1 && r1.next == f1.next && SameCount(e, m, n);
      var r2, f2 := BlockPrunes(e, g, tokens, r1.next, c, d, consume, m, n);
      assert f2 == rest;
      PrunesThen(e, r1, f1, r2, f2);
      BlockIs(e, tokens, i, c, consume, inc, r1, m, r2);
      r, f := r1.Then(r2), f1.Then(f2);
    }
  }

  lemma BodyPrunes(e: Env, g: Env, tokens: seq<Token>, i: nat, term: Token, c: seq<string>, d: seq<string>,
                   consume: bool, inc: nat, full: nat) returns (r: Outcome, f: Outcome)
    requires Setting(e, g, tokens, i, inc, full) && BodyOf(g, tokens, i, term, d, false, full).Done?
    ensures r == BodyOf(e, tokens, i, term, c, consume, inc) && f == BodyOf(g, tokens, i, term, d, false, full)
    ensures Prunes(e, r, f) && i <= f.next <= |tokens| && AtStart(tokens, f.next)
    decreases |tokens| - i, 2
  {
    r, f := Done([], i, [], []), Done([], i, [], []);
    if IsOpen(term) {
      r, f := BlockPrunes(e, g, tokens, i, c, d, consume, inc, full);
    }
  }

  lemma TurnPrunes(e: Env, g: Env, tokens: seq<Token>, i: nat, c: seq<string>, d: seq<string>, consume: bool,
                   inc: nat, full: nat) returns (r: Outcome, f: Outcome)
    requires Setting(e, g, tokens, i, inc, full) && i < |tokens| && !IsClose(tokens[i])
    requires Turn(g, tokens, i, d, false, full).Done?
    ensures r == Turn(e, tokens, i, c, consume, inc) && f == Turn(g, tokens, i, d, false, full)
    ensures Prunes(e, r, f) && i < f.next <= |tokens| && AtStart(tokens, f.next)
    decreases |tokens| - i, 0
  {
    var t := tokens[i];
    assert Fits(tokens, i);
    if IsComment(t) {
      r, f := Turn(e, tokens, i, c, consume, inc), Turn(g, tokens, i, d, false, full);
      OnePruned(e.ignore, CommentStmt(e, t.line, t.text[1..], true));
    } else {
      ArgsHaveNoComments(tokens, i + 1);
      var a := TurnParts(g, tokens, i, d, false, full);
      TurnIs(e, tokens, i, c, consume, inc, a);
      r, f := StatementPrunes(e, g, tokens, a.end + 1, t, tokens[a.end], a.args, c, d, inc, full);
    }
  }

  lemma StatementPrunes(e: Env, g: Env, tokens: seq<Token>, i: nat, t: Token, term: Token, args: seq<string>,
                        c: seq<string>, d: seq<string>, inc: nat, full: nat) returns (r: Outcome, f: Outcome)
    requires Setting(e, g, tokens, i, inc, full)
    requires Statement(g, tokens, i, t, term, args, [], d, full).Done?
    ensures r == if e.ignore(t.text) then Discard(BodyOf(e, tokens, i, term, [], true, inc))
                 else Statement(e, tokens, i, t, term, args, [], c, inc)
    ensures f == Statement(g, tokens, i, t, term, args, [], d, full)
    ensures Prunes(e, r, f) && i <= f.next <= |tokens| && AtStart(tokens, f.next)
    decreases |tokens| - i, 3
  {
    var k, f1, n := StatementParts(g, tokens, i, t, term, args, [], d, full);
    NoComments(g, t.line);
    f := Assembled(k, IsOpen(term), f1, []);
    if e.ignore(t.text) {
      assert !e.ignore("include") ==> k.queued == [];
      var r1, _ := BodyPrunes(e, g, tokens, i, term, [], EnterBlock(t.text, d), true, inc, n);
      r := Discard(r1);
      DiscardedPrunes(e, k, IsOpen(term), r1, f1);
    } else {
      HeadPrunes(e, g, t, args, term, c, d, inc, full);
      var h := Head(e, t, args, term, c, inc);
      var m := inc + |h.queued|;
      var r1, _ := BodyPrunes(e, g, tokens, i, term, EnterBlock(t.text, c), EnterBlock(t.text, d), false, m, n);
      NoComments(e, t.line);
      StatementIs(e, tokens, i, t, term, args, [], c, inc, m, h, r1);
      r := Assembled(h, IsOpen(term), r1, []);
      AssembledPrunes(e, h, k, IsOpen(term), r1, f1);
    }
  }

  lemma DiscardedPrunes(e: Env, k: HeadOutcome, open: bool, r: Outcome, f: Outcome)
    requires k.HeadDone? && e.ignore(k.stmt.directive) && Prunes(e, r, f)
    requires !e.ignore("include") ==> k.queued == []
    ensures Prunes(e, Discard(r), Assembled(k, open, f, []))
  {
    OnePruned(e.ignore, if open then k.stmt.(body := Braces(f.stmts)) else k.stmt);
    assert [] + f.queued == f.queued;
  }

  lemma AssembledPrunes(e: Env, h: HeadOutcome, k: HeadOutcome, open: bool, r: Outcome, f: Outcome)
    requires h.HeadDone? && k.HeadDone? && h.stmt == k.stmt && SameNames(h.queued, k.queued)
    requires !e.ignore(h.stmt.directive) && h.stmt.body == NoBlock && Prunes(e, r, f)
    ensures Prunes(e, Assembled(h, open, r, []), Assembled(k, open, f, []))
  {
    OnePruned(e.ignore, if open then k.stmt.(body := Braces(f.stmts)) else k.stmt);
  }

  // ---- What an ignoring run checks and queues ----

  function StmtIgnoringWalk(ignore: string -> bool, s: Stmt, ctx: seq<string>): seq<Visit>
    decreases s
  {
    (if ignore(s.directive) then [] else VisitOf(s, ctx))
    + if s.body.NoBlock? then []
      else IgnoringWalk(ignore, s.body.stmts, if ignore(s.directive) then [] else EnterBlock(s.directive, ctx))
  }

  /**
    * The statements of the full block that an ignoring run checks: all but the ignored ones. Inside
    * the block of an ignored statement the context starts afresh.
    */
  function IgnoringWalk(ignore: string -> bool, block: seq<Stmt>, ctx: seq<string>): seq<Visit>
    decreases block
  {
    if block == [] then [] else StmtIgnoringWalk(ignore, block[0], ctx) + IgnoringWalk(ignore, block[1..], ctx)
  }

  function StmtIgnoringQueue(e: Env, s: Stmt, ctx: seq<string>): seq<FileCtx>
    decreases s
  {
    (if e.ignore(s.directive) then [] else Queue(IncludedNames(e, s), ctx))
    + if s.body.NoBlock? then []
      else IgnoringQueue(e, s.body.stmts, if e.ignore(s.directive) then [] else EnterBlock(s.directive, ctx))
  }

  /** The files the full block has an ignoring run queue, those of ignored blocks included. */
  function IgnoringQueue(e: Env, block: seq<Stmt>, ctx: seq<string>): seq<FileCtx>
    decreases block
  {
    if block == [] then [] else StmtIgnoringQueue(e, block[0], ctx) + IgnoringQueue(e, block[1..], ctx)
  }

  lemma {:induction false} IgnoringWalkAppend(ignore: string -> bool, a: seq<Stmt>, b: seq<Stmt>, ctx: seq<string>)
    ensures IgnoringWalk(ignore, a + b, ctx) == IgnoringWalk(ignore, a, ctx) + IgnoringWalk(ignore, b, ctx)
    decreases |a|
  {
    if a == [] {
      assert a + b == b;
    } else {
      assert (a + b)[1..] == a[1..] + b;
      IgnoringWalkAppend(ignore, a[1..], b, ctx);
      Assoc(StmtIgnoringWalk(ignore, a[0], ctx), IgnoringWalk(ignore, a[1..], ctx), IgnoringWalk(ignore, b, ctx));
    }
  }

  lemma {:induction false} IgnoringQueueAppend(e: Env, a: seq<Stmt>, b: seq<Stmt>, ctx: seq<string>)
    ensures IgnoringQueue(e, a + b, ctx) == IgnoringQueue(e, a, ctx) + IgnoringQueue(e, b, ctx)
    decreases |a|
  {
    if a == [] {
      assert a + b == b;
    } else {
      assert (a + b)[1..] == a[1..] + b;
      IgnoringQueueAppend(e, a[1..], b, ctx);
      Assoc(StmtIgnoringQueue(e, a[0], ctx), IgnoringQueue(e, a[1..], ctx), IgnoringQueue(e, b, ctx));
    }
  }

  /** What the ignoring run checks and queues is read off the full block. */
  predicate Checks(e: Env, r: Outcome, full: seq<Stmt>, c: seq<string>) {
    r.Done? && Visits(r.log) == IgnoringWalk(e.ignore, full, c) && r.queued == IgnoringQueue(e, full, c)
  }

  lemma ChecksThen(e: Env, r: Outcome, r2: Outcome, a: seq<Stmt>, b: seq<Stmt>, c: seq<string>)
    requires Checks(e, r, a, c) && Checks(e, r2, b, c)
    ensures Checks(e, r.Then(r2), a + b, c)
  {
    IgnoringWalkAppend(e.ignore, a, b, c);
    IgnoringQueueAppend(e, a, b, c);
    VisitsAppend(r.log, r2.log);
  }

  lemma OneIgnoring(e: Env, s: Stmt, c: seq<string>)
    ensures IgnoringWalk(e.ignore, [s], c) == StmtIgnoringWalk(e.ignore, s, c)
    ensures IgnoringQueue(e, [s], c) == StmtIgnoringQueue(e, s, c)
  {
    assert [s][1..] == [];
    assert IgnoringWalk(e.ignore, [], c) == [] && IgnoringQueue(e, [], c) == [];
  }

  /** The two runs go in step. */
  lemma TurnInStep(e: Env, g: Env, tokens: seq<Token>, i: nat, c: seq<string>, d: seq<string>, consume: bool,
                   inc: nat, full: nat, r: Outcome, f: Outcome)
    requires Setting(e, g, tokens, i, inc, full) && i < |tokens| && !IsClose(tokens[i])
    requires r == Turn(e, tokens, i, c, consume, inc) && f == Turn(g, tokens, i, d, false, full) && f.Done?
    ensures r.Done? && r.next == f.next && i < r.next
    ensures Setting(e, g, tokens, r.next, inc + |r.queued|, full + |f.queued|)
  {
    var _, _ := TurnPrunes(e, g, tokens, i, c, d, consume, inc, full);
  }

  lemma BlockChecks(e: Env, g: Env, tokens: seq<Token>, i: nat, c: seq<string>, d: seq<string>, consume: bool,
                    inc: nat, full: nat, r: Outcome, f: Outcome)
    requires Setting(e, g, tokens, i, inc, full)
    requires r == Block(e, tokens, i, c, consume, inc) && f == Block(g, tokens, i, d, false, full) && r.Done? && f.Done?
    ensures Checks(e, r, f.stmts, c)
    decreases |tokens| - i, 1
  {
    if i < |tokens| && !IsClose(tokens[i]) {
      var r1, r2, m := BlockParts(e, tokens, i, c, consume, inc);
      var f1, f2, n := BlockParts(g, tokens, i, d, false, full);
      TurnInStep(e, g, tokens, i, c, d, consume, inc, full, r1, f1);
      TurnChecks(e, g, tokens, i, c, d, consume, inc, full, r1, f1);
      BlockChecks(e, g, tokens, r1.next, c, d, consume, m, n, r2, f2);
      ChecksThen(e, r1, r2, f1.stmts, f2.stmts, c);
    }
  }

  lemma TurnChecks(e: Env, g: Env, tokens: seq<Token>, i: nat, c: seq<string>, d: seq<string>, consume: bool,
                   inc: nat, full: nat, r: Outcome, f: Outcome)
    requires Setting(e, g, tokens, i, inc, full) && i < |tokens| && !IsClose(tokens[i])
    requires r == Turn(e, tokens, i, c, consume, inc) && f == Turn(g, tokens, i, d, false, full) && r.Done? && f.Done?
    ensures Checks(e, r, f.stmts, c)
    decreases |tokens| - i, 0
  {
    assert Fits(tokens, i);
    if IsComment(tokens[i]) {
      OneIgnoring(e, CommentStmt(g, tokens[i].line, tokens[i].text[1..], true), c);
    } else {
      ArgsHaveNoComments(tokens, i + 1);
      var a := TurnParts(g, tokens, i, d, false, full);
      TurnIs(e, tokens, i, c, consume, inc, a);
      StatementChecks(e, g, tokens, a.end + 1, tokens[i], tokens[a.end], a, c, d, inc, full, r, f);
    }
  }

  lemma BodyChecks(e: Env, g: Env, tokens: seq<Token>, i: nat, term: Token, c: seq<string>, d: seq<string>,
                   consume: bool, inc: nat, full: nat, r: Outcome, f: Outcome)
    requires Setting(e, g, tokens, i, inc, full) && r == BodyOf(e, tokens, i, term, c, consume, inc) && r.Done?
    requires f == BodyOf(g, tokens, i, term, d, false, full) && f.Done?
    ensures Checks(e, r, f.stmts, c) && (!IsOpen(term) ==> f.stmts == [])
    decreases |tokens| - i, 2
  {
    if IsOpen(term) {
      BlockChecks(e, g, tokens, i, c, d, consume, inc, full, r, f);
    }
  }

  lemma StatementChecks(e: Env, g: Env, tokens: seq<Token>, i: nat, t: Token, term: Token, a: Args, c: seq<string>,
                        d: seq<string>, inc: nat, full: nat, r: Outcome, f: Outcome)
    requires Setting(e, g, tokens, i, inc, full) && !InDirArgs(term) && a.Args? && a.comments == []
    requires r == Handled(e, tokens, i, t, term, a, c, inc) && f == Handled(g, tokens, i, t, term, a, d, full)
    requires r.Done? && f.Done?
    ensures Checks(e, r, f.stmts, c)
    decreases |tokens| - i, 3
  {
    var k, f1, n := StatementParts(g, tokens, i, t, term, a.args, [], d, full);
    NoComments(g, t.line);
    if e.ignore(t.text) {
      assert !e.ignore("include") ==> k.queued == [];
      var r1 := BodyOf(e, tokens, i, term, [], true, inc);
      BodyChecks(e, g, tokens, i, term, [], EnterBlock(t.text, d), true, inc, n, r1, f1);
      DiscardedChecks(e, k, IsOpen(term), r1, f1, c);
    } else {
      KeptChecks(e, g, tokens, i, t, term, a, c, d, inc, full, n, r, k, f1);
    }
  }

  lemma KeptChecks(e: Env, g: Env, tokens: seq<Token>, i: nat, t: Token, term: Token, a: Args, c: seq<string>,
                   d: seq<string>, inc: nat, full: nat, n: nat, r: Outcome, k: HeadOutcome, f1: Outcome)
    requires Setting(e, g, tokens, i, inc, full) && !InDirArgs(term) && a.Args? && a.comments == []
    requires r == Statement(e, tokens, i, t, term, a.args, [], c, inc) && r.Done? && !e.ignore(t.text)
    requires k == Head(g, t, a.args, term, d, full) && k.HeadDone? && n == full + |k.queued|
    requires f1 == BodyOf(g, tokens, i, term, EnterBlock(t.text, d), false, n) && f1.Done?
    ensures Checks(e, r, Assembled(k, IsOpen(term), f1, []).stmts, c)
    decreases |tokens| - i, 3, 0
  {
    var h, r1, m := StatementParts(e, tokens, i, t, term, a.args, [], c, inc);
    NoComments(e, t.line);
    HeadPrunes(e, g, t, a.args, term, c, d, inc, full);
    HeadAccounted(e, t, a.args, term, c, inc);
    BodyChecks(e, g, tokens, i, term, EnterBlock(t.text, c), EnterBlock(t.text, d), false, m, n, r1, f1);
    AssembledChecks(e, h, k, IsOpen(term), r1, f1, c);
  }

  lemma DiscardedChecks(e: Env, k: HeadOutcome, open: bool, r: Outcome, f: Outcome, c: seq<string>)
    requires k.HeadDone? && e.ignore(k.stmt.directive) && k.stmt.body == NoBlock && f.Done?
    requires Checks(e, r, f.stmts, []) && (!open ==> f.stmts == [])
    ensures Checks(e, Discard(r), Assembled(k, open, f, []).stmts, c)
  {
    var s := if open then k.stmt.(body := Braces(f.stmts)) else k.stmt;
    OneIgnoring(e, s, c);
    assert Assembled(k, open, f, []).stmts == [s];
  }

  lemma AssembledChecks(e: Env, h: HeadOutcome, k: HeadOutcome, open: bool, r: Outcome, f: Outcome, c: seq<string>)
    requires h.HeadDone? && k.HeadDone? && h.stmt == k.stmt && !e.ignore(h.stmt.directive) && h.stmt.body == NoBlock
    requires f.Done? && Checks(e, r, f.stmts, EnterBlock(h.stmt.directive, c)) && (!open ==> f.stmts == [])
    requires h.queued == Queue(IncludedNames(e, h.stmt), c)
    requires Visits(h.log) == if h.stmt.directive == "#" then []
                              else [Visit(h.stmt.directive, h.stmt.args, h.stmt.line, open, c)]
    ensures Checks(e, Assembled(h, open, r, []), Assembled(k, open, f, []).stmts, c)
  {
    var s := if open then k.stmt.(body := Braces(f.stmts)) else k.stmt;
    OneIgnoring(e, s, c);
    VisitsAppend(h.log, r.log);
    assert IncludedNames(e, s) == IncludedNames(e, h.stmt);
    assert Visits(h.log) == VisitOf(s, c);
    assert Assembled(k, open, f, []).stmts == [s];
  }

  /**
    * Parsing with an `ignore` predicate, consuming or not and in whatever context, gives the full
    * parse with the ignored statements removed at all depths, and the same cursor. It checks every
    * statement that is not ignored and queues what it includes, inside ignored blocks too: there
    * in contexts that start afresh.
    */
  lemma IgnoringPrunes(e: Env, g: Env, tokens: seq<Token>, c: seq<string>, d: seq<string>, consume: bool, inc: nat)
    requires Unfiltered(e, g) && WellFormed(tokens) && CommentsSpared(e, tokens)
    requires Block(g, tokens, 0, d, false, inc).Done?
    ensures var r, f := Block(e, tokens, 0, c, consume, inc), Block(g, tokens, 0, d, false, inc);
      Prunes(e, r, f) && Checks(e, r, f.stmts, c)
  {
    var r, f := BlockPrunes(e, g, tokens, 0, c, d, consume, inc, inc);
    BlockChecks(e, g, tokens, 0, c, d, consume, inc, inc, r, f);
  }

  lemma {:induction false} PrunedIsSpared(ignore: string -> bool, block: seq<Stmt>)
    ensures forall stmt <- Pruned(ignore, block) :: !ignore(stmt.directive)
    decreases |block|
  {
    if block != [] {
      PrunedIsSpared(ignore, block[1..]);
    }
  }

  /** Where `ignore` is true of `#`, a comment that is kept is not pruned. */
  lemma KeptCommentIsNotPruned(e: Env, g: Env, tokens: seq<Token>, c: seq<string>, d: seq<string>, consume: bool,
                               inc: nat)
    requires tokens != [] && IsComment(tokens[0]) && e.comments && e.ignore("#")
    ensures !Prunes(e, Block(e, tokens, 0, c, consume, inc), Block(g, tokens, 0, d, false, inc))
  {
    var r, f := Block(e, tokens, 0, c, consume, inc), Block(g, tokens, 0, d, false, inc);
    if r.Done? && f.Done? {
      var turn, rest, more := BlockParts(e, tokens, 0, c, consume, inc);
      PrunedIsSpared(e.ignore, f.stmts);
      assert r.stmts[0].directive == "#";
    }
  }

  // ---- The cursor ----

  /** The position behind the brace that closes `depth` blocks and the one around `i`. */
  function AfterMatch(tokens: seq<Token>, i: nat, depth: nat): (r: nat)
    requires i <= |tokens|
    ensures i <= r <= |tokens|
    decreases |tokens| - i
  {
    if i == |tokens| then i
    else if IsClose(tokens[i]) then if depth == 0 then i + 1 else AfterMatch(tokens, i + 1, depth - 1)
    else AfterMatch(tokens, i + 1, if IsOpen(tokens[i]) then depth + 1 else depth)
  }

  lemma {:induction false} AfterNested(tokens: seq<Token>, i: nat, depth: nat)
    requires i <= |tokens|
    ensures AfterMatch(tokens, i, depth + 1) == AfterMatch(tokens, AfterMatch(tokens, i, depth), 0)
    decreases |tokens| - i
  {
    if i < |tokens| && !(IsClose(tokens[i]) && depth == 0) {
      AfterNested(tokens, i + 1,
                  if IsClose(tokens[i]) then depth - 1 else if IsOpen(tokens[i]) then depth + 1 else depth);
    }
  }

  lemma {:induction false} AfterArgs(tokens: seq<Token>, i: nat)
    requires i <= |tokens|
    ensures var r := ScanArgs(tokens, i); r.Args? ==> AfterMatch(tokens, i, 0) == AfterMatch(tokens, r.end, 0)
    decreases |tokens| - i
  {
    if i < |tokens| && InDirArgs(tokens[i]) {
      AfterArgs(tokens, i + 1);
    }
  }

  lemma BlockReaches(e: Env, tokens: seq<Token>, i: nat, c: seq<string>, consume: bool, inc: nat)
    returns (r: Outcome)
    requires WellFormed(tokens) && i <= |tokens| && AtStart(tokens, i) && Block(e, tokens, i, c, consume, inc).Done?
    ensures r == Block(e, tokens, i, c, consume, inc)
    ensures r.Done? && r.next == AfterMatch(tokens, i, 0) && AtStart(tokens, r.next)
    decreases |tokens| - i, 1
  {
    r := Block(e, tokens, i, c, consume, inc);
    if i < |tokens| && !IsClose(tokens[i]) {
      var turn, rest, more := BlockParts(e, tokens, i, c, consume, inc);
      var _ := TurnReaches(e, tokens, i, c, consume, inc);
      rest := BlockReaches(e, tokens, turn.next, c, consume, more);
      r := turn.Then(rest);
    }
  }

  lemma TurnReaches(e: Env, tokens: seq<Token>, i: nat, c: seq<string>, consume: bool, inc: nat)
    returns (r: Outcome)
    requires WellFormed(tokens) && i < |tokens| && AtStart(tokens, i) && !IsClose(tokens[i])
    requires Turn(e, tokens, i, c, consume, inc).Done?
    ensures r == Turn(e, tokens, i, c, consume, inc)
    ensures r.Done? && i < r.next <= |tokens| && AtStart(tokens, r.next)
    ensures AfterMatch(tokens, r.next, 0) == AfterMatch(tokens, i, 0)
    decreases |tokens| - i, 0
  {
    assert Fits(tokens, i);
    if IsComment(tokens[i]) {
      r := Turn(e, tokens, i, c, consume, inc);
    } else {
      var a := TurnParts(e, tokens, i, c, consume, inc);
      AfterStatement(tokens, i, a);
      r := StatementReaches(e, tokens, a.end + 1, tokens[i], tokens[a.end], a, c, inc);
    }
  }

  /** Skipping a statement and its block does not change where the block around it ends. */
  lemma AfterStatement(tokens: seq<Token>, i: nat, a: Args)
    requires WellFormed(tokens) && i < |tokens| && InDirArgs(tokens[i]) && !IsComment(tokens[i])
    requires a == ScanArgs(tokens, i + 1) && a.Args?
    ensures var next := if IsOpen(tokens[a.end]) then AfterMatch(tokens, a.end + 1, 0) else a.end + 1;
      AfterMatch(tokens, i, 0) == AfterMatch(tokens, next, 0)
  {
    ArgsHaveNoComments(tokens, i + 1);
    AfterArgs(tokens, i + 1);
    if IsOpen(tokens[a.end]) {
      AfterNested(tokens, a.end + 1, 0);
    }
  }

  lemma BodyReaches(e: Env, tokens: seq<Token>, i: nat, term: Token, c: seq<string>, consume: bool, inc: nat)
    returns (r: Outcome)
    requires WellFormed(tokens) && i <= |tokens| && AtStart(tokens, i)
    requires BodyOf(e, tokens, i, term, c, consume, inc).Done?
    ensures r == BodyOf(e, tokens, i, term, c, consume, inc) && r.Done? && i <= r.next <= |tokens|
    ensures r.next == (if IsOpen(term) then AfterMatch(tokens, i, 0) else i) && AtStart(tokens, r.next)
    decreases |tokens| - i, 2
  {
    r := Done([], i, [], []);
    if IsOpen(term) {
      r := BlockReaches(e, tokens, i, c, consume, inc);
    }
  }

  lemma StatementReaches(e: Env, tokens: seq<Token>, i: nat, t: Token, term: Token, a: Args, c: seq<string>, inc: nat)
    returns (r: Outcome)
    requires WellFormed(tokens) && i <= |tokens| && AtStart(tokens, i) && a.Args?
    requires Handled(e, tokens, i, t, term, a, c, inc).Done?
    ensures r == Handled(e, tokens, i, t, term, a, c, inc) && r.Done? && i <= r.next <= |tokens|
    ensures r.next == (if IsOpen(term) then AfterMatch(tokens, i, 0) else i) && AtStart(tokens, r.next)
    decreases |tokens| - i, 3
  {
    if e.ignore(t.text) {
      r := BodyReaches(e, tokens, i, term, [], true, inc);
      r := Discard(r);
    } else {
      var h, body, more := StatementParts(e, tokens, i, t, term, a.args, a.comments, c, inc);
      body := BodyReaches(e, tokens, i, term, EnterBlock(t.text, c), false, more);
      r := Assembled(h, IsOpen(term), body, CommentStmts(e, t.line, a.comments));
    }
  }

  /** On well-formed tokens the parser, consuming or not, stops behind the matching brace. */
  lemma StopsAtMatch(e: Env, tokens: seq<Token>, i: nat, c: seq<string>, consume: bool, inc: nat)
    requires WellFormed(tokens) && i <= |tokens| && AtStart(tokens, i) && Block(e, tokens, i, c, consume, inc).Done?
    ensures Block(e, tokens, i, c, consume, inc).next == AfterMatch(tokens, i, 0)
  {
    var r := BlockReaches(e, tokens, i, c, consume, inc);
  }
}
