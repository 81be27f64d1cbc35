/** config_parse.go: combining the parsed files into one tree. */
module CombinedConfig {
  import opened Common
  import opened ConfigLex
  import opened ConfigTree
  import opened ConfigParse
  import opened ParsedBlocks
  import opened IncludeWorklist

  /** File `i` was parsed, and its indices point ahead. */
  predicate FileFits(config: seq<FileOutcome>, i: nat)
    requires i < |config|
  {
    config[i].Parsed? && Ahead(AllIncludes(config[i].stmts), i + 1, |config|)
  }

  predicate Complete(config: seq<FileOutcome>) { forall i :: 0 <= i < |config| ==> FileFits(config, i) }

  predicate Ahead(indices: seq<nat>, lo: nat, hi: nat) {
    forall i :: 0 <= i < |indices| ==> lo <= indices[i] < hi
  }

  lemma AheadSplit(a: seq<nat>, b: seq<nat>, lo: nat, hi: nat)
    requires Ahead(a + b, lo, hi)
    ensures Ahead(a, lo, hi) && Ahead(b, lo, hi)
  {
    assert forall i :: 0 <= i < |a| ==> a[i] == (a + b)[i];
    assert forall i :: 0 <= i < |b| ==> b[i] == (a + b)[|a| + i];
  }

  // ---- performInclude ----

  /** The `Blocks` of a statement: performInclude returns nil when it comes to no statement. */
  function NilIfEmpty(stmts: seq<Stmt>): Body { if stmts == [] then NoBlock else Braces(stmts) }

  /** performInclude on a block of file `i`. */
  ghost function Combined(config: seq<FileOutcome>, i: nat, block: seq<Stmt>): seq<Stmt>
    requires Complete(config) && i < |config| && Ahead(AllIncludes(block), i + 1, |config|)
    decreases 2 * (|config| - i), block
  {
    if block == [] then []
    else
      AheadSplit(StmtIncludes(block[0]), AllIncludes(block[1..]), i + 1, |config|);
      StmtCombined(config, i, block[0]) + Combined(config, i, block[1..])
  }

  ghost function StmtCombined(config: seq<FileOutcome>, i: nat, s: Stmt): seq<Stmt>
    requires Complete(config) && i < |config| && Ahead(StmtIncludes(s), i + 1, |config|)
    decreases 2 * (|config| - i), s
  {
    AheadSplit(s.includes, if s.body.Braces? then AllIncludes(s.body.stmts) else [], i + 1, |config|);
    if s.includes != [] then Spliced(config, i + 1, s.includes)
    else [if s.body.Braces? then s.(body := NilIfEmpty(Combined(config, i, s.body.stmts))) else s]
  }

  /** The combined files at the given indices, one after the other. */
  ghost function Spliced(config: seq<FileOutcome>, lo: nat, indices: seq<nat>): seq<Stmt>
    requires Complete(config) && Ahead(indices, lo, |config|) && lo <= |config|
    decreases 2 * (|config| - lo) + 1, |indices|
  {
    if indices == [] then []
    else
      assert FileFits(config, indices[0]);
      Combined(config, indices[0], config[indices[0]].stmts) + Spliced(config, lo, indices[1..])
  }

  /** The source's loop. Its in-place update of `Blocks` is an update of values here. */
  method PerformInclude(config: seq<FileOutcome>, ghost i: nat, block: seq<Stmt>) returns (o: seq<Stmt>)
    requires Complete(config) && i < |config| && Ahead(AllIncludes(block), i + 1, |config|)
    ensures o == Combined(config, i, block)
    decreases 2 * (|config| - i), block
  {
    o := [];
    for k := 0 to |block|
      invariant Ahead(AllIncludes(block[k..]), i + 1, |config|)
      invariant Combined(config, i, block) == o + Combined(config, i, block[k..])
    {
      var stmt := block[k];
      assert block[k..][0] == stmt && block[k..][1..] == block[k + 1..];
      AheadSplit(StmtIncludes(stmt), AllIncludes(block[k + 1..]), i + 1, |config|);
      var out := PerformIncludeStmt(config, i, stmt);
      o := o + out;
    }
  }

  method PerformIncludeStmt(config: seq<FileOutcome>, ghost i: nat, s: Stmt) returns (o: seq<Stmt>)
    requires Complete(config) && i < |config| && Ahead(StmtIncludes(s), i + 1, |config|)
    ensures o == StmtCombined(config, i, s)
    decreases 2 * (|config| - i), s
  {
    var stmt := s;
    AheadSplit(s.includes, if s.body.Braces? then AllIncludes(s.body.stmts) else [], i + 1, |config|);
    if stmt.body.Braces? {
      var inner := PerformInclude(config, i, s.body.stmts);
      stmt := stmt.(body := if inner == [] then NoBlock else Braces(inner));
    }
    if stmt.includes == [] {
      return [stmt];
    }
    o := SpliceFiles(config, i + 1, s.includes);
  }

  method SpliceFiles(config: seq<FileOutcome>, ghost lo: nat, indices: seq<nat>) returns (o: seq<Stmt>)
    requires Complete(config) && Ahead(indices, lo, |config|) && lo <= |config|
    ensures o == Spliced(config, lo, indices)
    decreases 2 * (|config| - lo) + 1, 0
  {
    o := [];
    for k := 0 to |indices|
      invariant Ahead(indices[k..], lo, |config|)
      invariant Spliced(config, lo, indices) == o + Spliced(config, lo, indices[k..])
    {
      var idx := indices[k];
      assert indices[k..][0] == idx && indices[k..][1..] == indices[k + 1..];
      assert FileFits(config, idx);
      var out := PerformInclude(config, idx, config[idx].stmts);
      o := o + out;
    }
  }

  lemma WiredFits(w: Work, i: nat)
    requires Wired(w) && w.Finished() && i < |w.config| && w.config[i].Parsed?
    ensures FileFits(w.config, i)
  {
    var a := AllIncludes(StmtsOf(w.config[i]));
    assert forall m :: 0 <= m < |a| ==> a[m] in a;
  }

  /** The events that `fails` says are errors. */
  function Failing(fails: Event -> bool, log: seq<Event>): seq<Event> {
    if log == [] then [] else (if fails(log[0]) then [log[0]] else []) + Failing(fails, log[1..])
  }

  /** The errors of the files in their order; an unparsed file has none. */
  function AllErrors(fails: Event -> bool, config: seq<FileOutcome>): seq<Event> {
    if config == [] then []
    else
      var last := config[|config| - 1];
      AllErrors(fails, config[..|config| - 1]) + if last.Parsed? then Failing(fails, last.log) else []
  }

  /** The combined file: its statements, its errors and whether its status is `failed`. */
  datatype Combination = Combination(stmts: seq<Stmt>, errors: seq<Event>, failed: bool)

  /** The one file of a finished run; none when a file failed, whose nil entry is dereferenced. */
  method CombineParsedConfig(w: Work, fails: Event -> bool) returns (r: Option<Combination>)
    requires Wired(w) && w.Finished()
    ensures r.None? <==> exists i :: 0 <= i < |w.config| && !w.config[i].Parsed?
    ensures r.Some? ==> Complete(w.config) && FileFits(w.config, 0)
                        && r.value.stmts == Combined(w.config, 0, w.config[0].stmts)
    ensures r.Some? ==> r.value.errors == AllErrors(fails, w.config) && r.value.failed == (r.value.errors != [])
  {
    var errors: seq<Event> := [];
    var failed := false;
    for i := 0 to |w.config|
      invariant forall j :: 0 <= j < i ==> w.config[j].Parsed?
      invariant errors == AllErrors(fails, w.config[..i]) && failed == (errors != [])
    {
      if !w.config[i].Parsed? {
        return None;
      }
      assert w.config[..i + 1][..i] == w.config[..i];
      var own := Failing(fails, w.config[i].log);
      errors := errors + own;
      if own != [] {
        failed := true;
      }
    }
    assert w.config[..|w.config|] == w.config;
    forall i | 0 <= i < |w.config|
      ensures FileFits(w.config, i)
    {
      WiredFits(w, i);
    }
    assert FileFits(w.config, 0);
    var o := PerformInclude(w.config, 0, w.config[0].stmts);
    r := Some(Combination(o, errors, failed));
  }

  // ---- How a finished run hangs together ----

  /** The length of the queue when file `j` was parsed. */
  function Base(config: seq<FileOutcome>, j: nat): nat
    requires j <= |config|
  {
    if j == 0 then 1 else Base(config, j - 1) + |Queued(config[j - 1])|
  }

  ghost predicate RecordedAt(s: Setup, w: Work, j: nat)
    requires j < |w.config| <= |w.includes|
  {
    && j < Base(w.config, j) && Base(w.config, j + 1) <= |w.includes|
    && w.config[j] == ParseFile(s, w.includes[j], Base(w.config, j))
    && w.includes[Base(w.config, j)..Base(w.config, j + 1)] == Queued(w.config[j])
  }

  /** Each file was parsed with the context it was queued with, and its own queue follows in place. */
  ghost predicate Recorded(s: Setup, w: Work) {
    && |w.config| <= |w.includes| && w.includes != [] && w.includes[0].ctx == []
    && Base(w.config, |w.config|) == |w.includes|
    && forall j :: 0 <= j < |w.config| ==> RecordedAt(s, w, j)
  }

  lemma {:induction false} BasePrefix(a: seq<FileOutcome>, b: seq<FileOutcome>, j: nat)
    requires a <= b && j <= |a|
    ensures Base(a, j) == Base(b, j)
  {
    if j > 0 {
      BasePrefix(a, b, j - 1);
    }
  }

  lemma RecordedStays(s: Setup, w: Work, v: Work, j: nat)
    requires Recorded(s, w) && j < |w.config| && w.includes <= v.includes && w.config <= v.config
    requires |v.config| <= |v.includes|
    ensures RecordedAt(s, v, j)
  {
    BasePrefix(w.config, v.config, j);
    BasePrefix(w.config, v.config, j + 1);
    assert RecordedAt(s, w, j);
    assert v.includes[Base(w.config, j)..Base(w.config, j + 1)] == w.includes[Base(w.config, j)..Base(w.config, j + 1)];
  }

  lemma StepRecorded(s: Setup, w: Work)
    requires Recorded(s, w)
    ensures Recorded(s, Step(s, w))
  {
    if !w.Finished() {
      var v, n := Step(s, w), |w.config|;
      BasePrefix(w.config, v.config, n);
      forall j | 0 <= j < |v.config|
        ensures RecordedAt(s, v, j)
      {
        if j < n {
          RecordedStays(s, w, v, j);
        }
      }
    }
  }

  lemma BaseFacts(s: Setup, w: Work, j: nat)
    requires Recorded(s, w) && j < |w.config|
    ensures j < Base(w.config, j) <= Base(w.config, j + 1) <= |w.includes|
  {
    assert RecordedAt(s, w, j);
  }

  lemma {:induction false} AlwaysRecorded(s: Setup, root: string, k: nat)
    ensures Recorded(s, Steps(s, root, k)) && Steps(s, root, k).includes[0] == FileCtx(root, [])
  {
    if k > 0 {
      AlwaysRecorded(s, root, k - 1);
      StepRecorded(s, Steps(s, root, k - 1));
    }
  }

  /** The file name in the options does not matter to what is queued. */
  lemma {:induction false} FileIrrelevant(e: Env, f: Env, block: seq<Stmt>, ctx: seq<string>, inc: nat)
    requires e.single == f.single && e.resolve == f.resolve
    ensures QueueOf(e, block, ctx) == QueueOf(f, block, ctx) && Total(e, block) == Total(f, block)
    ensures Numbered(e, block, inc) == Numbered(f, block, inc)
    decreases block
  {
    if block != [] {
      StmtFileIrrelevant(e, f, block[0], ctx, inc);
      FileIrrelevant(e, f, block[1..], ctx, inc + StmtTotal(e, block[0]));
    }
  }

  lemma {:induction false} StmtFileIrrelevant(e: Env, f: Env, s: Stmt, ctx: seq<string>, inc: nat)
    requires e.single == f.single && e.resolve == f.resolve
    ensures StmtQueue(e, s, ctx) == StmtQueue(f, s, ctx) && StmtTotal(e, s) == StmtTotal(f, s)
    ensures StmtNumbered(e, s, inc) == StmtNumbered(f, s, inc)
    decreases s
  {
    if s.body.Braces? {
      FileIrrelevant(e, f, s.body.stmts, EnterBlock(s.directive, ctx), inc + |IncludedNames(e, s)|);
    }
  }

  /** The queue holds the files `names`, to be parsed in `ctx`, from `inc` on. */
  predicate QueuedAt(q: seq<FileCtx>, inc: nat, names: seq<string>, ctx: seq<string>) {
    inc + |names| <= |q| && forall m :: inc <= m < inc + |names| ==> q[m] == FileCtx(names[m - inc], ctx)
  }

  /** A statement's indices from `inc` to `hi` stand for the files it includes, queued with its context. */
  predicate StmtChained(e: Env, q: seq<FileCtx>, stmt: Stmt, ctx: seq<string>, inc: nat, hi: nat)
    decreases stmt
  {
    var names := IncludedNames(e, stmt);
    && stmt.includes == Indices(inc, |names|) && QueuedAt(q, inc, names, ctx)
    && if stmt.body.Braces? then Chained(e, q, stmt.body.stmts, EnterBlock(stmt.directive, ctx), inc + |names|, hi)
       else hi == inc + |names|
  }

  predicate Chained(e: Env, q: seq<FileCtx>, block: seq<Stmt>, ctx: seq<string>, inc: nat, hi: nat)
    decreases block
  {
    if block == [] then inc == hi <= |q|
    else
      var mid := inc + StmtTotal(e, block[0]);
      StmtChained(e, q, block[0], ctx, inc, mid) && Chained(e, q, block[1..], ctx, mid, hi)
  }

  lemma {:induction false} ChainedRange(e: Env, q: seq<FileCtx>, block: seq<Stmt>, ctx: seq<string>, inc: nat, hi: nat)
    requires Chained(e, q, block, ctx, inc, hi)
    ensures inc <= hi <= |q|
    decreases block
  {
    if block != [] {
      ChainedRange(e, q, block[1..], ctx, inc + StmtTotal(e, block[0]), hi);
    }
  }

  lemma SliceSplit(q: seq<FileCtx>, i: nat, a: seq<FileCtx>, b: seq<FileCtx>)
    requires i + |a| + |b| <= |q| && q[i..i + |a| + |b|] == a + b
    ensures q[i..i + |a|] == a && q[i + |a|..i + |a| + |b|] == b
  {
    assert q[i..i + |a|] == q[i..i + |a| + |b|][..|a|];
    assert q[i + |a|..i + |a| + |b|] == q[i..i + |a| + |b|][|a|..];
  }

  lemma SliceQueued(q: seq<FileCtx>, inc: nat, names: seq<string>, ctx: seq<string>)
    requires inc + |names| <= |q| && q[inc..inc + |names|] == Queue(names, ctx)
    ensures QueuedAt(q, inc, names, ctx)
  {
    forall m | inc <= m < inc + |names|
      ensures q[m] == FileCtx(names[m - inc], ctx)
    {
      assert q[m] == q[inc..inc + |names|][m - inc];
    }
  }

  lemma StmtQueueCount(e: Env, stmt: Stmt, ctx: seq<string>)
    ensures |StmtQueue(e, stmt, ctx)| == StmtTotal(e, stmt)
  {
    if stmt.body.Braces? {
      QueueOfCount(e, stmt.body.stmts, EnterBlock(stmt.directive, ctx));
    }
  }

  /** A numbered block whose queue stands in place is chained. */
  lemma {:induction false} SliceChained(e: Env, q: seq<FileCtx>, block: seq<Stmt>, ctx: seq<string>, inc: nat)
    requires inc + Total(e, block) <= |q| && q[inc..inc + Total(e, block)] == QueueOf(e, block, ctx)
    requires Numbered(e, block, inc)
    ensures Chained(e, q, block, ctx, inc, inc + Total(e, block))
    decreases block
  {
    if block != [] {
      var a, b := StmtQueue(e, block[0], ctx), QueueOf(e, block[1..], ctx);
      StmtQueueCount(e, block[0], ctx);
      QueueOfCount(e, block[1..], ctx);
      SliceSplit(q, inc, a, b);
      StmtSliceChained(e, q, block[0], ctx, inc);
      SliceChained(e, q, block[1..], ctx, inc + |a|);
    }
  }

  lemma {:induction false} StmtSliceChained(e: Env, q: seq<FileCtx>, stmt: Stmt, ctx: seq<string>, inc: nat)
    requires inc + StmtTotal(e, stmt) <= |q| && q[inc..inc + StmtTotal(e, stmt)] == StmtQueue(e, stmt, ctx)
    requires StmtNumbered(e, stmt, inc)
    ensures StmtChained(e, q, stmt, ctx, inc, inc + StmtTotal(e, stmt))
    decreases stmt
  {
    var names, c := IncludedNames(e, stmt), EnterBlock(stmt.directive, ctx);
    if stmt.body.Braces? {
      QueueOfCount(e, stmt.body.stmts, c);
      SliceSplit(q, inc, Queue(names, ctx), QueueOf(e, stmt.body.stmts, c));
      SliceChained(e, q, stmt.body.stmts, c, inc + |names|);
    } else {
      assert StmtQueue(e, stmt, ctx) == Queue(names, ctx);
    }
    SliceQueued(q, inc, names, ctx);
  }

  // ---- Whatever is ignored, indices name the files they stand for ----

  predicate StandsFor(q: seq<FileCtx>, index: nat, name: string, ctx: seq<string>) {
    index < |q| && q[index] == FileCtx(name, ctx)
  }

  /** A statement's indices stand for the files it includes, queued with its context. */
  predicate StmtLinked(e: Env, q: seq<FileCtx>, stmt: Stmt, ctx: seq<string>)
    decreases stmt
  {
    var names := IncludedNames(e, stmt);
    && |stmt.includes| == |names|
    && (forall m :: 0 <= m < |names| ==> StandsFor(q, stmt.includes[m], names[m], ctx))
    && (stmt.body.Braces? ==> Linked(e, q, stmt.body.stmts, EnterBlock(stmt.directive, ctx)))
  }

  predicate Linked(e: Env, q: seq<FileCtx>, block: seq<Stmt>, ctx: seq<string>)
    decreases block
  {
    block != [] ==> StmtLinked(e, q, block[0], ctx) && Linked(e, q, block[1..], ctx)
  }

  lemma {:induction false} LinkedAppend(e: Env, q: seq<FileCtx>, a: seq<Stmt>, b: seq<Stmt>, ctx: seq<string>)
    requires Linked(e, q, a, ctx) && Linked(e, q, b, ctx)
    ensures Linked(e, q, a + b, ctx)
    decreases |a|
  {
    if a == [] {
      assert a + b == b;
    } else {
      assert (a + b)[1..] == a[1..] + b;
      LinkedAppend(e, q, a[1..], b, ctx);
    }
  }

  lemma {:induction false} RemarksLinked(e: Env, q: seq<FileCtx>, remarks: seq<Stmt>, ctx: seq<string>)
    requires forall s <- remarks :: IsLoneComment(s)
    ensures Linked(e, q, remarks, ctx)
    decreases |remarks|
  {
    if remarks != [] {
      assert IsLoneComment(remarks[0]);
      RemarksLinked(e, q, remarks[1..], ctx);
    }
  }

  /** What `r` queued stands in the queue from `inc` on. */
  predicate InPlace(q: seq<FileCtx>, inc: nat, queued: seq<FileCtx>) {
    inc + |queued| <= |q| && q[inc..inc + |queued|] == queued
  }

  lemma InPlaceSplit(q: seq<FileCtx>, inc: nat, a: seq<FileCtx>, b: seq<FileCtx>)
    requires InPlace(q, inc, a + b)
    ensures InPlace(q, inc, a) && InPlace(q, inc + |a|, b)
  {
    SliceSplit(q, inc, a, b);
  }

  lemma AssembledLinked(e: Env, q: seq<FileCtx>, h: HeadOutcome, open: bool, body: Outcome, remarks: seq<Stmt>,
                        ctx: seq<string>, inc: nat)
    requires h.HeadDone? && body.Done? && h.stmt.body == NoBlock && (forall s <- remarks :: IsLoneComment(s))
    requires h.queued == Queue(IncludedNames(e, h.stmt), ctx) && h.stmt.includes == Indices(inc, |h.queued|)
    requires InPlace(q, inc, h.queued) && (open ==> Linked(e, q, body.stmts, EnterBlock(h.stmt.directive, ctx)))
    ensures Linked(e, q, Assembled(h, open, body, remarks).stmts, ctx)
  {
    var stmt := if open then h.stmt.(body := Braces(body.stmts)) else h.stmt;
    var names := IncludedNames(e, stmt);
    SliceQueued(q, inc, names, ctx);
    forall m | 0 <= m < |names|
      ensures StandsFor(q, stmt.includes[m], names[m], ctx)
    {
      assert q[inc + m] == FileCtx(names[inc + m - inc], ctx);
    }
    assert [stmt][1..] == [];
    RemarksLinked(e, q, remarks, ctx);
    LinkedAppend(e, q, [stmt], remarks, ctx);
  }

  lemma StatementLinked(e: Env, q: seq<FileCtx>, tokens: seq<Token>, i: nat, t: Token, term: Token, a: Args,
                        ctx: seq<string>, inc: nat) returns (r: Outcome)
    requires i <= |tokens| && a.Args? && Statement(e, tokens, i, t, term, a.args, a.comments, ctx, inc).Done?
    requires InPlace(q, inc, Statement(e, tokens, i, t, term, a.args, a.comments, ctx, inc).queued)
    ensures r == Statement(e, tokens, i, t, term, a.args, a.comments, ctx, inc) && Linked(e, q, r.stmts, ctx)
    decreases |tokens| - i, 3
  {
    var h, body, more := StatementParts(e, tokens, i, t, term, a.args, a.comments, ctx, inc);
    var remarks := CommentStmts(e, t.line, a.comments);
    r := Assembled(h, IsOpen(term), body, remarks);
    InPlaceSplit(q, inc, h.queued, body.queued);
    if IsOpen(term) {
      body := BlockLinked(e, q, tokens, i, EnterBlock(t.text, ctx), false, more);
    }
    HeadAccounted(e, t, a.args, term, ctx, inc);
    AssembledLinked(e, q, h, IsOpen(term), body, remarks, ctx, inc);
  }

  lemma TurnLinked(e: Env, q: seq<FileCtx>, tokens: seq<Token>, i: nat, ctx: seq<string>, consume: bool, inc: nat)
    returns (r: Outcome)
    requires i < |tokens| && !IsClose(tokens[i]) && Turn(e, tokens, i, ctx, consume, inc).Done?
    requires InPlace(q, inc, Turn(e, tokens, i, ctx, consume, inc).queued)
    ensures r == Turn(e, tokens, i, ctx, consume, inc) && Linked(e, q, r.stmts, ctx)
    decreases |tokens| - i, 0
  {
    r := Turn(e, tokens, i, ctx, consume, inc);
    var t := tokens[i];
    if consume && IsOpen(t) {
    } else if IsComment(t) {
      RemarksLinked(e, q, r.stmts, ctx);
    } else {
      var a := ScanArgs(tokens, i + 1);
      if !e.ignore(t.text) {
        r := StatementLinked(e, q, tokens, a.end + 1, t, tokens[a.end], a, ctx, inc);
      }
    }
  }

  /** The indices of a parsed block stand for the files its statements include, with their contexts. */
  lemma BlockLinked(e: Env, q: seq<FileCtx>, tokens: seq<Token>, i: nat, ctx: seq<string>, consume: bool, inc: nat)
    returns (r: Outcome)
    requires i <= |tokens| && Block(e, tokens, i, ctx, consume, inc).Done?
    requires InPlace(q, inc, Block(e, tokens, i, ctx, consume, inc).queued)
    ensures r == Block(e, tokens, i, ctx, consume, inc) && Linked(e, q, r.stmts, ctx)
    decreases |tokens| - i, 1
  {
    if i == |tokens| || IsClose(tokens[i]) {
      r := Block(e, tokens, i, ctx, consume, inc);
    } else {
      var turn, rest, more := BlockParts(e, tokens, i, ctx, consume, inc);
      InPlaceSplit(q, inc, turn.queued, rest.queued);
      var _ := TurnLinked(e, q, tokens, i, ctx, consume, inc);
      var _ := BlockLinked(e, q, tokens, turn.next, ctx, consume, more);
      LinkedAppend(e, q, turn.stmts, rest.stmts, ctx);
      r := turn.Then(rest);
    }
  }

  /** The file name in the options does not matter to what is linked. */
  lemma {:induction false} LinkedAnyFile(e: Env, f: Env, q: seq<FileCtx>, block: seq<Stmt>, ctx: seq<string>)
    requires e.single == f.single && e.resolve == f.resolve && Linked(e, q, block, ctx)
    ensures Linked(f, q, block, ctx)
    decreases block
  {
    if block != [] {
      assert IncludedNames(e, block[0]) == IncludedNames(f, block[0]);
      if block[0].body.Braces? {
        LinkedAnyFile(e, f, q, block[0].body.stmts, EnterBlock(block[0].directive, ctx));
      }
      LinkedAnyFile(e, f, q, block[1..], ctx);
    }
  }

  /** A parsed file of the run: its indices stand for its files and name its own part of the queue. */
  lemma FileLinked(s: Setup, w: Work, j: nat)
    requires Recorded(s, w) && j < |w.config| && w.config[j].Parsed?
    ensures Linked(s.env, w.includes, w.config[j].stmts, w.includes[j].ctx)
    ensures Ahead(AllIncludes(w.config[j].stmts), Base(w.config, j), Base(w.config, j + 1))
  {
    assert RecordedAt(s, w, j);
    var f, inc := w.includes[j], Base(w.config, j);
    ParseFileRanked(s, f, inc);
    var e := s.env.(file := f.name);
    var r := BlockLinked(e, w.includes, Lex(s.custom, s.files[f.name]).tokens, 0, f.ctx, false, inc);
    LinkedAnyFile(e, s.env, w.includes, r.stmts, f.ctx);
  }

  // ---- With nothing ignored, the queue is all read off the statements ----

  /** What a parsed file queued and checked is read off its statements. */
  lemma FileAccounted(s: Setup, f: FileCtx, inc: nat)
    requires Plain(s.env) && ParseFile(s, f, inc).Parsed?
    ensures var o := ParseFile(s, f, inc);
      && o.queued == QueueOf(s.env, o.stmts, f.ctx) && Numbered(s.env, o.stmts, inc)
      && Visits(o.log) == Walk(o.stmts, f.ctx)
  {
    var e := s.env.(file := f.name);
    var r := BlockAccounted(e, Lex(s.custom, s.files[f.name]).tokens, 0, f.ctx, inc);
    FileIrrelevant(e, s.env, r.stmts, f.ctx, inc);
  }

  /** Each parsed file is chained, and was checked in the contexts of its own tree. */
  lemma FileChained(s: Setup, w: Work, j: nat)
    requires Plain(s.env) && Recorded(s, w) && j < |w.config| && w.config[j].Parsed?
    ensures Chained(s.env, w.includes, w.config[j].stmts, w.includes[j].ctx, Base(w.config, j), Base(w.config, j + 1))
    ensures Visits(w.config[j].log) == Walk(w.config[j].stmts, w.includes[j].ctx)
  {
    assert RecordedAt(s, w, j);
    FileAccounted(s, w.includes[j], Base(w.config, j));
    OutcomeChained(s.env, w.includes, w.config[j], w.includes[j], Base(w.config, j), Base(w.config, j + 1));
  }

  lemma OutcomeChained(e: Env, q: seq<FileCtx>, o: FileOutcome, f: FileCtx, inc: nat, hi: nat)
    requires o.Parsed? && o.queued == QueueOf(e, o.stmts, f.ctx) && Numbered(e, o.stmts, inc)
    requires hi == inc + |o.queued| <= |q| && q[inc..hi] == o.queued
    ensures Chained(e, q, o.stmts, f.ctx, inc, hi)
  {
    QueueOfCount(e, o.stmts, f.ctx);
    SliceChained(e, q, o.stmts, f.ctx, inc);
  }
}
