/** What a parsed block tells about the files it queued and the contexts it was checked in. */
module ParsedBlocks {
  import opened Common
  import opened Text
  import opened ConfigLex
  import opened ConfigTree
  import opened ConfigParse

  /** The files a statement includes. */
  function IncludedNames(e: Env, stmt: Stmt): seq<string> {
    if !Includes(e, stmt.directive) || stmt.args == [] then []
    else match e.resolve(stmt.args[0])
      case None => []
      case Some(names) => names
  }

  function StmtIncludes(s: Stmt): seq<nat>
    decreases s
  {
    s.includes + if s.body.Braces? then AllIncludes(s.body.stmts) else []
  }

  /** The include indices of a block, in document order. */
  function AllIncludes(block: seq<Stmt>): seq<nat>
    decreases block
  {
    if block == [] then [] else StmtIncludes(block[0]) + AllIncludes(block[1..])
  }

  /** Strictly increasing, from `lo` and below `hi`. */
  predicate Rising(s: seq<nat>, lo: nat, hi: nat) {
    && lo <= hi
    && (forall i :: 0 <= i < |s| ==> lo <= s[i] < hi)
    && (forall i, j :: 0 <= i < j < |s| ==> s[i] < s[j])
  }

  lemma RisingAppend(a: seq<nat>, b: seq<nat>, lo: nat, mid: nat, hi: nat)
    requires Rising(a, lo, mid) && Rising(b, mid, hi)
    ensures Rising(a + b, lo, hi)
  {
  }

  // ---- The same, read off the statements ----

  function StmtQueue(e: Env, s: Stmt, ctx: seq<string>): seq<FileCtx>
    decreases s
  {
    Queue(IncludedNames(e, s), ctx)
    + if s.body.Braces? then QueueOf(e, s.body.stmts, EnterBlock(s.directive, ctx)) else []
  }

  /** The files a block queues when it is parsed in context `ctx`, each with its context. */
  function QueueOf(e: Env, block: seq<Stmt>, ctx: seq<string>): seq<FileCtx>
    decreases block
  {
    if block == [] then [] else StmtQueue(e, block[0], ctx) + QueueOf(e, block[1..], ctx)
  }

  function StmtTotal(e: Env, s: Stmt): nat
    decreases s
  {
    |IncludedNames(e, s)| + if s.body.Braces? then Total(e, s.body.stmts) else 0
  }

  function Total(e: Env, block: seq<Stmt>): nat
    decreases block
  {
    if block == [] then 0 else StmtTotal(e, block[0]) + Total(e, block[1..])
  }

  predicate StmtNumbered(e: Env, s: Stmt, inc: nat)
    decreases s
  {
    var own := |IncludedNames(e, s)|;
    s.includes == Indices(inc, own) && (s.body.Braces? ==> Numbered(e, s.body.stmts, inc + own))
  }

  /** The include indices count up from `inc` in document order. */
  predicate Numbered(e: Env, block: seq<Stmt>, inc: nat)
    decreases block
  {
    block != [] ==> StmtNumbered(e, block[0], inc) && Numbered(e, block[1..], inc + StmtTotal(e, block[0]))
  }

  /** A statement as it is checked: with its context, the fold of EnterBlock along its ancestors. */
  datatype Visit = Visit(directive: string, args: seq<string>, line: int, open: bool, ctx: seq<string>)

  function VisitOf(s: Stmt, ctx: seq<string>): seq<Visit> {
    if s.directive == "#" then [] else [Visit(s.directive, s.args, s.line, s.body.Braces?, ctx)]
  }

  function StmtWalk(s: Stmt, ctx: seq<string>): seq<Visit>
    decreases s
  {
    VisitOf(s, ctx) + if s.body.Braces? then Walk(s.body.stmts, EnterBlock(s.directive, ctx)) else []
  }

  /** The statements of a block in document order, comments aside. */
  function Walk(block: seq<Stmt>, ctx: seq<string>): seq<Visit>
    decreases block
  {
    if block == [] then [] else StmtWalk(block[0], ctx) + Walk(block[1..], ctx)
  }

  /** The calls of `analyze`, comments aside. */
  function Visits(log: seq<Event>): seq<Visit> {
    if log == [] then []
    else
      (if log[0].Unresolved? || log[0].directive == "#" then []
       else [Visit(log[0].directive, log[0].args, log[0].line, log[0].term == "{", log[0].ctx)])
      + Visits(log[1..])
  }

  lemma {:induction false} VisitsAppend(a: seq<Event>, b: seq<Event>)
    ensures Visits(a + b) == Visits(a) + Visits(b)
    decreases |a|
  {
    if a == [] {
      assert a + b == b;
    } else {
      assert (a + b)[1..] == a[1..] + b;
      VisitsAppend(a[1..], b);
    }
  }

  lemma {:induction false} WalkAppend(a: seq<Stmt>, b: seq<Stmt>, ctx: seq<string>)
    ensures Walk(a + b, ctx) == Walk(a, ctx) + Walk(b, ctx)
    decreases |a|
  {
    if a == [] {
      assert a + b == b;
    } else {
      assert (a + b)[1..] == a[1..] + b;
      WalkAppend(a[1..], b, ctx);
      Assoc(StmtWalk(a[0], ctx), Walk(a[1..], ctx), Walk(b, ctx));
    }
  }

  lemma {:induction false} QueueOfAppend(e: Env, a: seq<Stmt>, b: seq<Stmt>, ctx: seq<string>)
    ensures QueueOf(e, a + b, ctx) == QueueOf(e, a, ctx) + QueueOf(e, b, ctx)
    ensures Total(e, a + b) == Total(e, a) + Total(e, b)
    decreases |a|
  {
    if a == [] {
      assert a + b == b;
    } else {
      assert (a + b)[1..] == a[1..] + b;
      QueueOfAppend(e, a[1..], b, ctx);
      Assoc(StmtQueue(e, a[0], ctx), QueueOf(e, a[1..], ctx), QueueOf(e, b, ctx));
    }
  }

  lemma {:induction false} NumberedAppend(e: Env, a: seq<Stmt>, b: seq<Stmt>, inc: nat)
    requires Numbered(e, a, inc) && Numbered(e, b, inc + Total(e, a))
    ensures Numbered(e, a + b, inc)
    decreases |a|
  {
    if a == [] {
      assert a + b == b;
    } else {
      assert (a + b)[1..] == a[1..] + b;
      NumberedAppend(e, a[1..], b, inc + StmtTotal(e, a[0]));
    }
  }

  lemma {:induction false} AllIncludesAppend(a: seq<Stmt>, b: seq<Stmt>)
    ensures AllIncludes(a + b) == AllIncludes(a) + AllIncludes(b)
    decreases |a|
  {
    if a == [] {
      assert a + b == b;
    } else {
      assert (a + b)[1..] == a[1..] + b;
      AllIncludesAppend(a[1..], b);
      Assoc(StmtIncludes(a[0]), AllIncludes(a[1..]), AllIncludes(b));
    }
  }

  lemma {:induction false} QueueOfCount(e: Env, block: seq<Stmt>, ctx: seq<string>)
    ensures |QueueOf(e, block, ctx)| == Total(e, block)
    decreases block
  {
    if block != [] {
      if block[0].body.Braces? {
        QueueOfCount(e, block[0].body.stmts, EnterBlock(block[0].directive, ctx));
      }
      QueueOfCount(e, block[1..], ctx);
    }
  }

  // ---- With nothing ignored, a parse accounts for all it queues and checks ----

  ghost predicate Plain(e: Env) { forall d :: !e.ignore(d) }

  predicate Accounted(e: Env, r: Outcome, ctx: seq<string>, inc: nat) {
    && r.Done?
    && r.queued == QueueOf(e, r.stmts, ctx)
    && Numbered(e, r.stmts, inc)
    && Visits(r.log) == Walk(r.stmts, ctx)
  }

  lemma AccountedThen(e: Env, a: Outcome, b: Outcome, ctx: seq<string>, inc: nat)
    requires Accounted(e, a, ctx, inc) && Accounted(e, b, ctx, inc + |a.queued|)
    ensures Accounted(e, a.Then(b), ctx, inc)
  {
    QueueOfCount(e, a.stmts, ctx);
    QueueOfAppend(e, a.stmts, b.stmts, ctx);
    NumberedAppend(e, a.stmts, b.stmts, inc);
    VisitsAppend(a.log, b.log);
    WalkAppend(a.stmts, b.stmts, ctx);
  }

  predicate IsLoneComment(s: Stmt) { s.directive == "#" && s.includes == [] && s.body == NoBlock }

  lemma {:induction false} RemarksAccounted(e: Env, block: seq<Stmt>, ctx: seq<string>, inc: nat)
    requires forall s <- block :: IsLoneComment(s)
    ensures QueueOf(e, block, ctx) == [] && Total(e, block) == 0 && Numbered(e, block, inc) && Walk(block, ctx) == []
    ensures AllIncludes(block) == []
    decreases |block|
  {
    if block != [] {
      assert IsLoneComment(block[0]);
      RemarksAccounted(e, block[1..], ctx, inc);
    }
  }

  /** One statement, its block accounted for. */
  lemma OneAccounted(e: Env, s: Stmt, body: Outcome, log: seq<Event>, ctx: seq<string>, inc: nat)
    requires body.Done? && s.includes == Indices(inc, |IncludedNames(e, s)|)
    requires if s.body.Braces?
             then s.body.stmts == body.stmts
                  && Accounted(e, body, EnterBlock(s.directive, ctx), inc + |IncludedNames(e, s)|)
             else body.queued == [] && body.log == []
    requires Visits(log) == VisitOf(s, ctx)
    ensures Accounted(e, Done([s], body.next, Queue(IncludedNames(e, s), ctx) + body.queued, log + body.log), ctx, inc)
  {
    VisitsAppend(log, body.log);
    assert StmtQueue(e, s, ctx) == Queue(IncludedNames(e, s), ctx) + body.queued;
    assert StmtWalk(s, ctx) == VisitOf(s, ctx) + Visits(body.log);
    assert StmtNumbered(e, s, inc);
    OneStmt(e, s, ctx, inc);
  }

  /** A block of one statement. */
  lemma OneStmt(e: Env, s: Stmt, ctx: seq<string>, inc: nat)
    ensures QueueOf(e, [s], ctx) == StmtQueue(e, s, ctx) && Walk([s], ctx) == StmtWalk(s, ctx)
    ensures Numbered(e, [s], inc) == StmtNumbered(e, s, inc) && AllIncludes([s]) == StmtIncludes(s)
  {
    assert [s][1..] == [];
    assert QueueOf(e, [], ctx) == [] && Walk([], ctx) == [] && AllIncludes([]) == [];
  }

  /** What a head queues and reports. */
  lemma HeadAccounted(e: Env, t: Token, args: seq<string>, term: Token, ctx: seq<string>, inc: nat)
    requires Head(e, t, args, term, ctx, inc).HeadDone?
    ensures var h := Head(e, t, args, term, ctx, inc); var names := IncludedNames(e, h.stmt);
      && h.queued == Queue(names, ctx) && h.stmt.includes == Indices(inc, |names|)
      && h.stmt.directive == t.text && h.stmt.body == NoBlock && h.stmt.line == t.line
      && Visits(h.log) == (if t.text == "#" then [] else [Visit(t.text, h.stmt.args, t.line, term.text == "{", ctx)])
  {
    var h := Head(e, t, args, term, ctx, inc);
    assert Indices(inc, 0) == [] && Queue([], ctx) == [];
    assert Visits(h.log[1..]) == [] by {
      if |h.log| == 2 {
        assert h.log[1..][1..] == [];
      }
    }
  }

  lemma StatementAccounted(e: Env, tokens: seq<Token>, i: nat, t: Token, term: Token, a: Args, ctx: seq<string>,
                           inc: nat)
    returns (r: Outcome)
    requires Plain(e) && i <= |tokens| && a.Args? && !InDirArgs(term)
    requires Statement(e, tokens, i, t, term, a.args, a.comments, ctx, inc).Done?
    ensures r == Statement(e, tokens, i, t, term, a.args, a.comments, ctx, inc) && Accounted(e, r, ctx, inc)
    decreases |tokens| - i, 3
  {
    var h, body, more := StatementParts(e, tokens, i, t, term, a.args, a.comments, ctx, inc);
    HeadAccounted(e, t, a.args, term, ctx, inc);
    if IsOpen(term) {
      body := BlockAccounted(e, tokens, i, EnterBlock(t.text, ctx), more);
    }
    r := Assembled(h, IsOpen(term), body, CommentStmts(e, t.line, a.comments));
    AssembledAccounted(e, h, IsOpen(term), body, CommentStmts(e, t.line, a.comments), ctx, inc);
  }

  lemma AssembledAccounted(e: Env, h: HeadOutcome, open: bool, body: Outcome, remarks: seq<Stmt>, ctx: seq<string>,
                           inc: nat)
    requires h.HeadDone? && body.Done? && h.stmt.body == NoBlock && (forall s <- remarks :: IsLoneComment(s))
    requires h.queued == Queue(IncludedNames(e, h.stmt), ctx)
    requires h.stmt.includes == Indices(inc, |h.queued|)
    requires if open then Accounted(e, body, EnterBlock(h.stmt.directive, ctx), inc + |h.queued|)
             else body.queued == [] && body.log == []
    requires Visits(h.log) == VisitOf(if open then h.stmt.(body := Braces(body.stmts)) else h.stmt, ctx)
    ensures Accounted(e, Assembled(h, open, body, remarks), ctx, inc)
  {
    var stmt := if open then h.stmt.(body := Braces(body.stmts)) else h.stmt;
    assert IncludedNames(e, stmt) == IncludedNames(e, h.stmt);
    OneAccounted(e, stmt, body, h.log, ctx, inc);
    RemarksBehind(e, Done([stmt], body.next, h.queued + body.queued, h.log + body.log), remarks, ctx, inc);
  }

  lemma RemarksBehind(e: Env, one: Outcome, remarks: seq<Stmt>, ctx: seq<string>, inc: nat)
    requires Accounted(e, one, ctx, inc) && (forall s <- remarks :: IsLoneComment(s))
    ensures Accounted(e, one.(stmts := one.stmts + remarks), ctx, inc)
  {
    RemarksAccounted(e, remarks, ctx, inc + |one.queued|);
    AccountedThen(e, one, Done(remarks, one.next, [], []), ctx, inc);
    ThenEmpty(one, remarks);
  }

  lemma ThenEmpty(a: Outcome, stmts: seq<Stmt>)
    requires a.Done?
    ensures a.Then(Done(stmts, a.next, [], [])) == a.(stmts := a.stmts + stmts)
  {
  }

  lemma TurnAccounted(e: Env, tokens: seq<Token>, i: nat, ctx: seq<string>, inc: nat) returns (r: Outcome)
    requires Plain(e) && i < |tokens| && !IsClose(tokens[i]) && Turn(e, tokens, i, ctx, false, inc).Done?
    ensures r == Turn(e, tokens, i, ctx, false, inc) && Accounted(e, r, ctx, inc)
    decreases |tokens| - i, 0
  {
    var t := tokens[i];
    if IsComment(t) {
      r := Turn(e, tokens, i, ctx, false, inc);
      RemarksAccounted(e, r.stmts, ctx, inc);
    } else {
      var a := ScanArgs(tokens, i + 1);
      r := StatementAccounted(e, tokens, a.end + 1, t, tokens[a.end], a, ctx, inc);
    }
  }

  /** The queue, the indices and the contexts of a parsed block are those read off its statements. */
  lemma BlockAccounted(e: Env, tokens: seq<Token>, i: nat, ctx: seq<string>, inc: nat) returns (r: Outcome)
    requires Plain(e) && i <= |tokens| && Block(e, tokens, i, ctx, false, inc).Done?
    ensures r == Block(e, tokens, i, ctx, false, inc) && Accounted(e, r, ctx, inc)
    decreases |tokens| - i, 1
  {
    if i == |tokens| || IsClose(tokens[i]) {
      r := Block(e, tokens, i, ctx, false, inc);
    } else {
      var turn, rest, more := BlockParts(e, tokens, i, ctx, false, inc);
      var _ := TurnAccounted(e, tokens, i, ctx, inc);
      var _ := BlockAccounted(e, tokens, turn.next, ctx, more);
      AccountedThen(e, turn, rest, ctx, inc);
      r := turn.Then(rest);
    }
  }

  // ---- Whatever is ignored, indices rise and stay within the queue ----

  predicate Ranked(r: Outcome, inc: nat) { r.Done? && Rising(AllIncludes(r.stmts), inc, inc + |r.queued|) }

  lemma RankedThen(a: Outcome, b: Outcome, inc: nat)
    requires Ranked(a, inc) && Ranked(b, inc + |a.queued|)
    ensures Ranked(a.Then(b), inc)
  {
    AllIncludesAppend(a.stmts, b.stmts);
    RisingAppend(AllIncludes(a.stmts), AllIncludes(b.stmts), inc, inc + |a.queued|, inc + |a.queued| + |b.queued|);
  }

  lemma AssembledRanked(e: Env, h: HeadOutcome, open: bool, body: Outcome, remarks: seq<Stmt>, ctx: seq<string>,
                        inc: nat)
    requires h.HeadDone? && h.stmt.body == NoBlock && h.stmt.includes == Indices(inc, |h.queued|)
    requires (forall s <- remarks :: IsLoneComment(s)) && Ranked(body, inc + |h.queued|)
    ensures Ranked(Assembled(h, open, body, remarks), inc)
  {
    var stmt := if open then h.stmt.(body := Braces(body.stmts)) else h.stmt;
    var inner := if open then AllIncludes(body.stmts) else [];
    var mid, hi := inc + |h.queued|, inc + |h.queued| + |body.queued|;
    OneStmt(e, stmt, ctx, inc);
    assert AllIncludes([stmt]) == h.stmt.includes + inner;
    RisingAppend(h.stmt.includes, inner, inc, mid, hi);
    RemarksAccounted(e, remarks, ctx, inc);
    AllIncludesAppend([stmt], remarks);
    assert AllIncludes([stmt]) + [] == AllIncludes([stmt]);
  }

  lemma HeadRanked(e: Env, t: Token, args: seq<string>, term: Token, ctx: seq<string>, inc: nat)
    requires Head(e, t, args, term, ctx, inc).HeadDone?
    ensures var h := Head(e, t, args, term, ctx, inc);
      h.stmt.body == NoBlock && h.stmt.includes == Indices(inc, |h.queued|)
  {
    assert Indices(inc, 0) == [];
  }

  lemma BodyRanked(e: Env, tokens: seq<Token>, i: nat, term: Token, ctx: seq<string>, consume: bool, inc: nat)
    returns (r: Outcome)
    requires i <= |tokens| && BodyOf(e, tokens, i, term, ctx, consume, inc).Done?
    ensures r == BodyOf(e, tokens, i, term, ctx, consume, inc) && Ranked(r, inc)
    decreases |tokens| - i, 2
  {
    r := Done([], i, [], []);
    if IsOpen(term) {
      r := BlockRanked(e, tokens, i, ctx, consume, inc);
    }
  }

  lemma TurnRanked(e: Env, tokens: seq<Token>, i: nat, ctx: seq<string>, consume: bool, inc: nat) returns (r: Outcome)
    requires i < |tokens| && !IsClose(tokens[i]) && Turn(e, tokens, i, ctx, consume, inc).Done?
    ensures r == Turn(e, tokens, i, ctx, consume, inc) && Ranked(r, inc)
    decreases |tokens| - i, 0
  {
    var t := tokens[i];
    if consume && IsOpen(t) {
      r := BlockRanked(e, tokens, i + 1, [], true, inc);
      r := Discard(r);
    } else if IsComment(t) {
      r := Turn(e, tokens, i, ctx, consume, inc);
      RemarksAccounted(e, r.stmts, ctx, inc);
    } else {
      var a := ScanArgs(tokens, i + 1);
      r := HandledRanked(e, tokens, a.end + 1, t, tokens[a.end], a, ctx, inc);
    }
  }

  lemma HandledRanked(e: Env, tokens: seq<Token>, i: nat, t: Token, term: Token, a: Args, ctx: seq<string>, inc: nat)
    returns (r: Outcome)
    requires i <= |tokens| && a.Args?
    requires Handled(e, tokens, i, t, term, a, ctx, inc).Done?
    ensures r == Handled(e, tokens, i, t, term, a, ctx, inc) && Ranked(r, inc)
    decreases |tokens| - i, 4
  {
    if e.ignore(t.text) {
      r := BodyRanked(e, tokens, i, term, [], true, inc);
      r := Discard(r);
    } else {
      r := StatementRanked(e, tokens, i, t, term, a, ctx, inc);
    }
  }

  lemma StatementRanked(e: Env, tokens: seq<Token>, i: nat, t: Token, term: Token, a: Args, ctx: seq<string>, inc: nat)
    returns (r: Outcome)
    requires i <= |tokens| && a.Args? && Statement(e, tokens, i, t, term, a.args, a.comments, ctx, inc).Done?
    ensures r == Statement(e, tokens, i, t, term, a.args, a.comments, ctx, inc) && Ranked(r, inc)
    decreases |tokens| - i, 3
  {
    var h, body, more := StatementParts(e, tokens, i, t, term, a.args, a.comments, ctx, inc);
    HeadRanked(e, t, a.args, term, ctx, inc);
    body := BodyRanked(e, tokens, i, term, EnterBlock(t.text, ctx), false, more);
    r := Assembled(h, IsOpen(term), body, CommentStmts(e, t.line, a.comments));
    AssembledRanked(e, h, IsOpen(term), body, CommentStmts(e, t.line, a.comments), ctx, inc);
  }

  /** The include indices of a parsed block rise in document order and name files queued by it. */
  lemma BlockRanked(e: Env, tokens: seq<Token>, i: nat, ctx: seq<string>, consume: bool, inc: nat) returns (r: Outcome)
    requires i <= |tokens| && Block(e, tokens, i, ctx, consume, inc).Done?
    ensures r == Block(e, tokens, i, ctx, consume, inc) && Ranked(r, inc)
    decreases |tokens| - i, 1
  {
    if i == |tokens| || IsClose(tokens[i]) {
      r := Block(e, tokens, i, ctx, consume, inc);
    } else {
      var turn, rest, more := BlockParts(e, tokens, i, ctx, consume, inc);
      var _ := TurnRanked(e, tokens, i, ctx, consume, inc);
      var _ := BlockRanked(e, tokens, turn.next, ctx, consume, more);
      RankedThen(turn, rest, inc);
      r := turn.Then(rest);
    }
  }
}

/** Parsing does not depend on the context, and on the files queued before only for its indices. */
module ContextFree {
  import opened ConfigLex
  import opened ConfigTree
  import opened ConfigParse

  /** A statement without its include indices. */
  function StmtUnwired(s: Stmt): Stmt
    decreases s
  {
    var t := s.(includes := []);
    if s.body.Braces? then t.(body := Braces(Unwired(s.body.stmts))) else t
  }

  function Unwired(block: seq<Stmt>): seq<Stmt>
    decreases block
  {
    if block == [] then [] else [StmtUnwired(block[0])] + Unwired(block[1..])
  }

  lemma {:induction false} UnwiredAppend(a: seq<Stmt>, b: seq<Stmt>)
    ensures Unwired(a + b) == Unwired(a) + Unwired(b)
    decreases |a|
  {
    if a == [] {
      assert a + b == b;
    } else {
      assert (a + b)[1..] == a[1..] + b;
      UnwiredAppend(a[1..], b);
    }
  }

  predicate Alike(r: Outcome, f: Outcome) {
    if r.Panic? then f.Panic?
    else f.Done? && r.next == f.next && SameNames(r.queued, f.queued) && Unwired(r.stmts) == Unwired(f.stmts)
  }

  lemma AlikeThen(r: Outcome, f: Outcome, r2: Outcome, f2: Outcome)
    requires Alike(r, f) && Alike(r2, f2)
    ensures Alike(r.Then(r2), f.Then(f2))
  {
    if r.Done? && r2.Done? {
      UnwiredAppend(r.stmts, r2.stmts);
      UnwiredAppend(f.stmts, f2.stmts);
    }
  }

  lemma HeadAlike(e: Env, t: Token, args: seq<string>, term: Token, c: seq<string>, d: seq<string>, m: nat, n: nat)
    ensures var h, k := Head(e, t, args, term, c, m), Head(e, t, args, term, d, n);
      && h.HeadDone? == k.HeadDone?
      && (h.HeadDone? ==> && h.stmt.(includes := []) == k.stmt.(includes := []) && h.stmt.body == NoBlock
                          && SameNames(h.queued, k.queued))
  {
  }

  lemma AssembledAlike(h: HeadOutcome, k: HeadOutcome, open: bool, r: Outcome, f: Outcome, remarks: seq<Stmt>)
    requires h.HeadDone? && k.HeadDone? && SameNames(h.queued, k.queued) && Alike(r, f)
    requires h.stmt.(includes := []) == k.stmt.(includes := []) && h.stmt.body == NoBlock
    ensures Alike(Assembled(h, open, r, remarks), Assembled(k, open, f, remarks))
  {
    if r.Done? {
      var a := if open then h.stmt.(body := Braces(r.stmts)) else h.stmt;
      var b := if open then k.stmt.(body := Braces(f.stmts)) else k.stmt;
      assert StmtUnwired(a) == StmtUnwired(b);
      assert [a][1..] == [] && [b][1..] == [];
      UnwiredAppend([a], remarks);
      UnwiredAppend([b], remarks);
    }
  }

  lemma BodyAlike(e: Env, tokens: seq<Token>, i: nat, term: Token, c: seq<string>, d: seq<string>, consume: bool,
                  m: nat, n: nat)
    returns (r: Outcome, f: Outcome)
    requires i <= |tokens|
    ensures r == BodyOf(e, tokens, i, term, c, consume, m) && f == BodyOf(e, tokens, i, term, d, consume, n)
    ensures Alike(r, f)
    decreases |tokens| - i, 2
  {
    r, f := Done([], i, [], []), Done([], i, [], []);
    if IsOpen(term) {
      r, f := BlockAlike(e, tokens, i, c, d, consume, m, n);
    }
  }

  lemma StatementAlike(e: Env, tokens: seq<Token>, i: nat, t: Token, term: Token, a: Args, c: seq<string>,
                       d: seq<string>, m: nat, n: nat)
    returns (r: Outcome, f: Outcome)
    requires i <= |tokens| && a.Args?
    ensures r == Statement(e, tokens, i, t, term, a.args, a.comments, c, m)
    ensures f == Statement(e, tokens, i, t, term, a.args, a.comments, d, n)
    ensures Alike(r, f)
    decreases |tokens| - i, 3
  {
    HeadAlike(e, t, a.args, term, c, d, m, n);
    var h, k := Head(e, t, a.args, term, c, m), Head(e, t, a.args, term, d, n);
    r, f := Panic, Panic;
    if h.HeadDone? {
      var m1, n1 := m + |h.queued|, n + |k.queued|;
      var r1, f1 := BodyAlike(e, tokens, i, term, EnterBlock(t.text, c), EnterBlock(t.text, d), false, m1, n1);
      StatementIs(e, tokens, i, t, term, a.args, a.comments, c, m, m1, h, r1);
      StatementIs(e, tokens, i, t, term, a.args, a.comments, d, n, n1, k, f1);
      var remarks := CommentStmts(e, t.line, a.comments);
      AssembledAlike(h, k, IsOpen(term), r1, f1, remarks);
      r, f := Assembled(h, IsOpen(term), r1, remarks), Assembled(k, IsOpen(term), f1, remarks);
    }
  }

  lemma TurnAlike(e: Env, tokens: seq<Token>, i: nat, c: seq<string>, d: seq<string>, consume: bool, m: nat, n: nat)
    returns (r: Outcome, f: Outcome)
    requires i < |tokens| && !IsClose(tokens[i])
    ensures r == Turn(e, tokens, i, c, consume, m) && f == Turn(e, tokens, i, d, consume, n)
    ensures Alike(r, f) && (r.Done? ==> i < r.next <= |tokens|)
    decreases |tokens| - i, 0
  {
    var t := tokens[i];
    if consume && IsOpen(t) {
      r, f := BlockAlike(e, tokens, i + 1, [], [], true, m, n);
      r, f := Discard(r), Discard(f);
    } else if IsComment(t) || ScanArgs(tokens, i + 1).RanOut? {
      r, f := Turn(e, tokens, i, c, consume, m), Turn(e, tokens, i, d, consume, n);
    } else {
      var a := ScanArgs(tokens, i + 1);
      if e.ignore(t.text) {
        r, f := BodyAlike(e, tokens, a.end + 1, tokens[a.end], [], [], true, m, n);
        r, f := Discard(r), Discard(f);
      } else {
        r, f := StatementAlike(e, tokens, a.end + 1, t, tokens[a.end], a, c, d, m, n);
      }
    }
  }

  lemma BlockAlike(e: Env, tokens: seq<Token>, i: nat, c: seq<string>, d: seq<string>, consume: bool, m: nat, n: nat)
    returns (r: Outcome, f: Outcome)
    requires i <= |tokens|
    ensures r == Block(e, tokens, i, c, consume, m) && f == Block(e, tokens, i, d, consume, n)
    ensures Alike(r, f)
    decreases |tokens| - i, 1
  {
    if i == |tokens| || IsClose(tokens[i]) {
      r, f := Block(e, tokens, i, c, consume, m), Block(e, tokens, i, d, consume, n);
    } else {
      var r1, f1 := TurnAlike(e, tokens, i, c, d, consume, m, n);
      if r1.Panic? {
        r, f := Panic, Panic;
      } else {
        var mr, nf := m + |r1.queued|, n + |f1.queued|;
        var r2, f2 := BlockAlike(e, tokens, r1.next, c, d, consume, mr, nf);
        AlikeThen(r1, f1, r2, f2);
        BlockIs(e, tokens, i, c, consume, m, r1, mr, r2);
        BlockIs(e, tokens, i, d, consume, n, f1, nf, f2);
        r, f := r1.Then(r2), f1.Then(f2);
      }
    }
  }
}
