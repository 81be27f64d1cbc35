/** What the combined tree is: the files inlined in place, nothing lost, contexts kept. */
module CombinedFacts {
  import opened ConfigLex
  import opened ConfigTree
  import opened ConfigParse
  import opened ParsedBlocks
  import opened ContextFree
  import opened IncludeWorklist
  import opened CombinedConfig

  /** A finished run in which every file was parsed. */
  ghost predicate Whole(s: Setup, w: Work) { Recorded(s, w) && w.Finished() && Complete(w.config) }

  /** The same of a run of `k` steps. */
  ghost predicate AllParsed(s: Setup, root: string, k: nat) {
    && Steps(s, root, k).Finished()
    && forall i :: 0 <= i < |Steps(s, root, k).config| ==> Steps(s, root, k).config[i].Parsed?
  }

  lemma RunIsWhole(s: Setup, root: string, k: nat)
    requires AllParsed(s, root, k)
    ensures var w := Steps(s, root, k);
      Whole(s, w) && w.config != [] && FileFits(w.config, 0) && w.includes[0] == FileCtx(root, [])
  {
    var w := Steps(s, root, k);
    AlwaysRecorded(s, root, k);
    AlwaysWired(s, root, k);
    forall i | 0 <= i < |w.config|
      ensures FileFits(w.config, i)
    {
      WiredFits(w, i);
    }
  }

  // ---- One block, given the combined files ----

  function SplicedBy(out: seq<seq<Stmt>>, indices: seq<nat>): seq<Stmt> {
    if indices == [] then []
    else (if indices[0] < |out| then out[indices[0]] else []) + SplicedBy(out, indices[1..])
  }

  function StmtBy(out: seq<seq<Stmt>>, s: Stmt): seq<Stmt>
    decreases s
  {
    if s.includes != [] then SplicedBy(out, s.includes)
    else [if s.body.Braces? then s.(body := NilIfEmpty(BlockBy(out, s.body.stmts))) else s]
  }

  /** A block with its includes replaced by the files combined in `out`. */
  function BlockBy(out: seq<seq<Stmt>>, block: seq<Stmt>): seq<Stmt>
    decreases block
  {
    if block == [] then [] else StmtBy(out, block[0]) + BlockBy(out, block[1..])
  }

  predicate OutAt(config: seq<FileOutcome>, out: seq<seq<Stmt>>, k: nat)
    requires k < |config| == |out|
  {
    config[k].Parsed? && out[k] == BlockBy(out, config[k].stmts)
  }

  /** `out` holds the combined form of every file. */
  predicate Outs(config: seq<FileOutcome>, out: seq<seq<Stmt>>) {
    |out| == |config| && forall k :: 0 <= k < |config| ==> OutAt(config, out, k)
  }

  ghost function FileCombined(config: seq<FileOutcome>, k: nat): seq<Stmt>
    requires Complete(config) && k < |config|
  {
    assert FileFits(config, k);
    Combined(config, k, config[k].stmts)
  }

  ghost predicate IsCombined(config: seq<FileOutcome>, out: seq<seq<Stmt>>, k: nat)
    requires Complete(config) && k < |config| == |out|
  {
    out[k] == FileCombined(config, k)
  }

  lemma CombinedOuts(config: seq<FileOutcome>) returns (out: seq<seq<Stmt>>)
    requires Complete(config)
    ensures Outs(config, out) && forall k :: 0 <= k < |config| ==> IsCombined(config, out, k)
  {
    out := seq(|config|, k requires 0 <= k < |config| => FileCombined(config, k));
    forall k | 0 <= k < |config|
      ensures IsCombined(config, out, k)
    {
    }
    forall k | 0 <= k < |config|
      ensures OutAt(config, out, k)
    {
      assert FileFits(config, k) && IsCombined(config, out, k);
      BlockIsBy(config, out, k, config[k].stmts);
    }
  }

  lemma {:induction false} BlockIsBy(config: seq<FileOutcome>, out: seq<seq<Stmt>>, i: nat, block: seq<Stmt>)
    requires Complete(config) && |out| == |config| && forall k :: 0 <= k < |config| ==> IsCombined(config, out, k)
    requires i < |config| && Ahead(AllIncludes(block), i + 1, |config|)
    ensures Combined(config, i, block) == BlockBy(out, block)
    decreases block
  {
    if block != [] {
      AheadSplit(StmtIncludes(block[0]), AllIncludes(block[1..]), i + 1, |config|);
      StmtIsBy(config, out, i, block[0]);
      BlockIsBy(config, out, i, block[1..]);
    }
  }

  lemma {:induction false} StmtIsBy(config: seq<FileOutcome>, out: seq<seq<Stmt>>, i: nat, s: Stmt)
    requires Complete(config) && |out| == |config| && forall k :: 0 <= k < |config| ==> IsCombined(config, out, k)
    requires i < |config| && Ahead(StmtIncludes(s), i + 1, |config|)
    ensures StmtCombined(config, i, s) == StmtBy(out, s)
    decreases s
  {
    AheadSplit(s.includes, if s.body.Braces? then AllIncludes(s.body.stmts) else [], i + 1, |config|);
    if s.includes != [] {
      SpliceIsBy(config, out, i + 1, s.includes);
    } else if s.body.Braces? {
      BlockIsBy(config, out, i, s.body.stmts);
    }
  }

  lemma {:induction false} SpliceIsBy(config: seq<FileOutcome>, out: seq<seq<Stmt>>, lo: nat, indices: seq<nat>)
    requires Complete(config) && |out| == |config| && forall k :: 0 <= k < |config| ==> IsCombined(config, out, k)
    requires lo <= |config| && Ahead(indices, lo, |config|)
    ensures Spliced(config, lo, indices) == SplicedBy(out, indices)
    decreases |indices|
  {
    if indices != [] {
      assert FileFits(config, indices[0]) && IsCombined(config, out, indices[0]);
      SpliceIsBy(config, out, lo, indices[1..]);
    }
  }

  // ---- The reference: includes replaced in place, file by file ----

  /** The file `name` with its includes inlined, to a depth of `n` files. */
  ghost function InlineFile(s: Setup, name: string, n: nat): seq<Stmt>
    decreases n, 0, 0
  {
    if n == 0 then [] else InlineBlock(s, StmtsOf(ParseFile(s, FileCtx(name, []), 0)), n - 1)
  }

  ghost function InlineFiles(s: Setup, names: seq<string>, n: nat): seq<Stmt>
    decreases n, 1, |names|
  {
    if names == [] then [] else InlineFile(s, names[0], n) + InlineFiles(s, names[1..], n)
  }

  /**
    * An include gives way to the files it names; any other statement keeps its place, and its
    * braces unless its block comes to nothing.
    */
  ghost function InlineStmt(s: Setup, stmt: Stmt, n: nat): seq<Stmt>
    decreases n, 2, stmt
  {
    if IncludedNames(s.env, stmt) != [] then InlineFiles(s, IncludedNames(s.env, stmt), n)
    else
      var t := stmt.(includes := []);
      [if stmt.body.Braces? then t.(body := NilIfEmpty(InlineBlock(s, stmt.body.stmts, n))) else t]
  }

  ghost function InlineBlock(s: Setup, block: seq<Stmt>, n: nat): seq<Stmt>
    decreases n, 2, block
  {
    if block == [] then [] else InlineStmt(s, block[0], n) + InlineBlock(s, block[1..], n)
  }

  lemma {:induction false} InlineUnwired(s: Setup, a: seq<Stmt>, b: seq<Stmt>, n: nat)
    requires Unwired(a) == Unwired(b)
    ensures InlineBlock(s, a, n) == InlineBlock(s, b, n)
    decreases a
  {
    if a != [] {
      assert StmtUnwired(a[0]) == Unwired(a)[0] && StmtUnwired(b[0]) == Unwired(b)[0];
      assert Unwired(a[1..]) == Unwired(a)[1..] && Unwired(b[1..]) == Unwired(b)[1..];
      if a[0].body.Braces? {
        InlineUnwired(s, a[0].body.stmts, b[0].body.stmts, n);
      }
      InlineUnwired(s, a[1..], b[1..], n);
    } else {
      assert b == [];
    }
  }

  /** The files of the queue from `lo` to `hi`, combined, are those files inlined to depth `n`. */
  ghost predicate InlinedFrom(s: Setup, q: seq<FileCtx>, out: seq<seq<Stmt>>, lo: nat, hi: nat, n: nat) {
    hi <= |q| == |out| && forall k :: lo <= k < hi ==> out[k] == InlineFile(s, q[k].name, n)
  }

  lemma {:induction false} BlockInlined(s: Setup, q: seq<FileCtx>, out: seq<seq<Stmt>>, block: seq<Stmt>,
                                        ctx: seq<string>, lo: nat, hi: nat, n: nat)
    requires Linked(s.env, q, block, ctx) && Ahead(AllIncludes(block), lo, hi) && InlinedFrom(s, q, out, lo, hi, n)
    ensures BlockBy(out, block) == InlineBlock(s, block, n)
    decreases block
  {
    if block != [] {
      AheadSplit(StmtIncludes(block[0]), AllIncludes(block[1..]), lo, hi);
      StmtInlined(s, q, out, block[0], ctx, lo, hi, n);
      BlockInlined(s, q, out, block[1..], ctx, lo, hi, n);
    }
  }

  lemma {:induction false} StmtInlined(s: Setup, q: seq<FileCtx>, out: seq<seq<Stmt>>, stmt: Stmt, ctx: seq<string>,
                                       lo: nat, hi: nat, n: nat)
    requires StmtLinked(s.env, q, stmt, ctx) && Ahead(StmtIncludes(stmt), lo, hi) && InlinedFrom(s, q, out, lo, hi, n)
    ensures StmtBy(out, stmt) == InlineStmt(s, stmt, n)
    decreases stmt
  {
    var names := IncludedNames(s.env, stmt);
    AheadSplit(stmt.includes, if stmt.body.Braces? then AllIncludes(stmt.body.stmts) else [], lo, hi);
    if names != [] {
      SpliceInlined(s, q, out, stmt.includes, names, ctx, lo, hi, n);
    } else if stmt.body.Braces? {
      BlockInlined(s, q, out, stmt.body.stmts, EnterBlock(stmt.directive, ctx), lo, hi, n);
    }
  }

  lemma {:induction false} SpliceInlined(s: Setup, q: seq<FileCtx>, out: seq<seq<Stmt>>, indices: seq<nat>,
                                         names: seq<string>, ctx: seq<string>, lo: nat, hi: nat, n: nat)
    requires |indices| == |names| && Ahead(indices, lo, hi) && InlinedFrom(s, q, out, lo, hi, n)
    requires forall m :: 0 <= m < |names| ==> StandsFor(q, indices[m], names[m], ctx)
    ensures SplicedBy(out, indices) == InlineFiles(s, names, n)
    decreases |names|
  {
    if names != [] {
      assert StandsFor(q, indices[0], names[0], ctx);
      SpliceInlined(s, q, out, indices[1..], names[1..], ctx, lo, hi, n);
    }
  }

  lemma InlineAlike(s: Setup, f: FileCtx, inc: nat, n: nat)
    requires ParseFile(s, f, inc).Parsed?
    ensures InlineBlock(s, ParseFile(s, f, inc).stmts, n)
         == InlineBlock(s, StmtsOf(ParseFile(s, FileCtx(f.name, []), 0)), n)
  {
    var tokens := Lex(s.custom, s.files[f.name]).tokens;
    var r, q := BlockAlike(s.env.(file := f.name), tokens, 0, f.ctx, [], false, inc, 0);
    InlineUnwired(s, r.stmts, q.stmts, n);
  }

  /** The part of the queue that file `k` made holds the files it includes. */
  lemma QueuePart(s: Setup, w: Work, k: nat)
    requires Recorded(s, w) && k < |w.config|
    ensures Base(w.config, k) <= Base(w.config, k + 1) <= |w.includes|
    ensures AreChildren(s, w.includes[k].name, w.includes[Base(w.config, k)..Base(w.config, k + 1)])
  {
    assert RecordedAt(s, w, k);
    QueuedAreChildren(s, w.includes[k], Base(w.config, k));
  }

  /** The files that file `k` includes have shorter include chains. */
  lemma ChildrenBounded(s: Setup, w: Work, k: nat, n: nat)
    requires Recorded(s, w) && k < |w.config| && Bounded(s, w.includes[k].name, n)
    ensures Base(w.config, k + 1) <= |w.includes|
    ensures forall m :: Base(w.config, k) <= m < Base(w.config, k + 1) ==> Bounded(s, w.includes[m].name, n - 1)
  {
    QueuePart(s, w, k);
    SliceBounded(s, w.includes[k].name, w.includes, Base(w.config, k), Base(w.config, k + 1), n);
  }

  lemma SliceBounded(s: Setup, name: string, q: seq<FileCtx>, lo: nat, hi: nat, n: nat)
    requires lo <= hi <= |q| && AreChildren(s, name, q[lo..hi]) && Bounded(s, name, n)
    ensures forall m :: lo <= m < hi ==> Bounded(s, q[m].name, n - 1)
  {
    forall m | lo <= m < hi
      ensures Bounded(s, q[m].name, n - 1)
    {
      assert q[m].name == q[lo..hi][m - lo].name == Children(s, name)[m - lo];
    }
  }

  /** A parsed file is inlined by inlining its statements one level less deep. */
  lemma InlineParsed(s: Setup, w: Work, k: nat, n: nat)
    requires Whole(s, w) && k < |w.config| && w.config[k].Parsed? && n > 0
    ensures InlineBlock(s, w.config[k].stmts, n - 1) == InlineFile(s, w.includes[k].name, n)
  {
    assert RecordedAt(s, w, k);
    InlineAlike(s, w.includes[k], Base(w.config, k), n - 1);
  }

  lemma {:induction false} FileInlined(s: Setup, w: Work, out: seq<seq<Stmt>>, k: nat, n: nat)
    requires Whole(s, w) && Outs(w.config, out) && k < |w.config| && Bounded(s, w.includes[k].name, n)
    ensures out[k] == InlineFile(s, w.includes[k].name, n)
    decreases |w.config| - k
  {
    var inc, hi := Base(w.config, k), Base(w.config, k + 1);
    assert OutAt(w.config, out, k);
    BaseFacts(s, w, k);
    ChildrenBounded(s, w, k, n);
    forall m | inc <= m < hi
      ensures out[m] == InlineFile(s, w.includes[m].name, n - 1)
    {
      FileInlined(s, w, out, m, n - 1);
    }
    FileLinked(s, w, k);
    BlockInlined(s, w.includes, out, w.config[k].stmts, w.includes[k].ctx, inc, hi, n - 1);
    InlineParsed(s, w, k, n);
  }

  /**
    * When every file parses, whatever is ignored, combining the files of the worklist gives the root
    * with all includes inlined in place, recursively and in document order.
    */
  lemma CombiningIsInlining(s: Setup, root: string, k: nat, n: nat)
    requires AllParsed(s, root, k) && Bounded(s, root, n)
    ensures var config := Steps(s, root, k).config;
      && Complete(config) && config != [] && FileFits(config, 0)
      && Combined(config, 0, config[0].stmts) == InlineFile(s, root, n)
  {
    var w := Steps(s, root, k);
    RunIsWhole(s, root, k);
    var out := CombinedOuts(w.config);
    FileInlined(s, w, out, 0, n);
    assert IsCombined(w.config, out, 0);
  }

  // ---- Statements and their contexts ----

  /** A visit to an include that gives way to files. */
  predicate Resolved(e: Env, v: Visit) {
    Includes(e, v.directive) && v.args != [] && e.resolve(v.args[0]).Some? && e.resolve(v.args[0]).value != []
  }

  /** The visits to statements other than those. */
  function Lasting(e: Env, vs: seq<Visit>): seq<Visit> {
    if vs == [] then [] else (if Resolved(e, vs[0]) then [] else [vs[0]]) + Lasting(e, vs[1..])
  }

  /** How often `v` occurs, with a block or without one. */
  function Times(v: Visit, vs: seq<Visit>): nat {
    if vs == [] then 0 else (if vs[0].(open := v.open) == v then 1 else 0) + Times(v, vs[1..])
  }

  lemma {:induction false} TimesAppend(v: Visit, a: seq<Visit>, b: seq<Visit>)
    ensures Times(v, a + b) == Times(v, a) + Times(v, b)
    decreases |a|
  {
    if a == [] {
      assert a + b == b;
    } else {
      assert (a + b)[1..] == a[1..] + b;
      TimesAppend(v, a[1..], b);
    }
  }

  lemma {:induction false} LastingAppend(e: Env, a: seq<Visit>, b: seq<Visit>)
    ensures Lasting(e, a + b) == Lasting(e, a) + Lasting(e, b)
    decreases |a|
  {
    if a == [] {
      assert a + b == b;
    } else {
      assert (a + b)[1..] == a[1..] + b;
      LastingAppend(e, a[1..], b);
    }
  }

  /** How often `v` is visited in a block. */
  function Seen(v: Visit, block: seq<Stmt>, ctx: seq<string>): nat { Times(v, Walk(block, ctx)) }

  lemma SeenAppend(v: Visit, a: seq<Stmt>, b: seq<Stmt>, ctx: seq<string>)
    ensures Seen(v, a + b, ctx) == Seen(v, a, ctx) + Seen(v, b, ctx)
  {
    WalkAppend(a, b, ctx);
    TimesAppend(v, Walk(a, ctx), Walk(b, ctx));
  }

  lemma LastingTimes(v: Visit, e: Env, a: seq<Visit>, b: seq<Visit>)
    ensures Times(v, Lasting(e, a + b)) == Times(v, Lasting(e, a)) + Times(v, Lasting(e, b))
  {
    LastingAppend(e, a, b);
    TimesAppend(v, Lasting(e, a), Lasting(e, b));
  }

  /** `seen` counts the visits to `v` in each combined file, in the context it was included in. */
  predicate CountsAt(v: Visit, q: seq<FileCtx>, out: seq<seq<Stmt>>, seen: seq<nat>, k: nat)
    requires k < |q| == |out| == |seen|
  {
    seen[k] == Seen(v, out[k], q[k].ctx)
  }

  predicate Counts(v: Visit, q: seq<FileCtx>, out: seq<seq<Stmt>>, seen: seq<nat>) {
    |q| == |out| == |seen| && forall k :: 0 <= k < |q| ==> CountsAt(v, q, out, seen, k)
  }

  function Sum(counts: seq<nat>, lo: nat, hi: nat): nat
    requires hi <= |counts|
    decreases hi - lo
  {
    if lo >= hi then 0 else counts[lo] + Sum(counts, lo + 1, hi)
  }

  lemma {:induction false} SumSplit(counts: seq<nat>, lo: nat, mid: nat, hi: nat)
    requires lo <= mid <= hi <= |counts|
    ensures Sum(counts, lo, hi) == Sum(counts, lo, mid) + Sum(counts, mid, hi)
    decreases mid - lo
  {
    if lo < mid {
      SumSplit(counts, lo + 1, mid, hi);
    }
  }

  function StmtDropped(v: Visit, out: seq<seq<Stmt>>, s: Stmt, ctx: seq<string>): nat
    decreases s
  {
    if s.body.NoBlock? then 0
    else
      var c := EnterBlock(s.directive, ctx);
      (if s.includes != [] then Seen(v, BlockBy(out, s.body.stmts), c) else 0) + Dropped(v, out, s.body.stmts, c)
  }

  /** How often combining drops `v` with the block of an include that gives way to files. */
  function Dropped(v: Visit, out: seq<seq<Stmt>>, block: seq<Stmt>, ctx: seq<string>): nat
    decreases block
  {
    if block == [] then 0 else StmtDropped(v, out, block[0], ctx) + Dropped(v, out, block[1..], ctx)
  }

  /** In one block: combined or dropped is what lasts of the block itself and of the files it includes. */
  lemma {:induction false} BlockConserved(v: Visit, e: Env, q: seq<FileCtx>, out: seq<seq<Stmt>>, seen: seq<nat>,
                                          block: seq<Stmt>, ctx: seq<string>, inc: nat, hi: nat)
    requires Counts(v, q, out, seen) && Chained(e, q, block, ctx, inc, hi) && hi <= |q|
    ensures Seen(v, BlockBy(out, block), ctx) + Dropped(v, out, block, ctx)
         == Times(v, Lasting(e, Walk(block, ctx))) + Sum(seen, inc, hi)
    decreases block
  {
    if block != [] {
      var mid := inc + StmtTotal(e, block[0]);
      ChainedRange(e, q, block[1..], ctx, mid, hi);
      StmtRange(e, q, block[0], ctx, inc, mid);
      StmtConserved(v, e, q, out, seen, block[0], ctx, inc, mid);
      BlockConserved(v, e, q, out, seen, block[1..], ctx, mid, hi);
      SumSplit(seen, inc, mid, hi);
      SeenAppend(v, StmtBy(out, block[0]), BlockBy(out, block[1..]), ctx);
      LastingTimes(v, e, StmtWalk(block[0], ctx), Walk(block[1..], ctx));
    }
  }

  lemma StmtRange(e: Env, q: seq<FileCtx>, stmt: Stmt, ctx: seq<string>, inc: nat, hi: nat)
    requires StmtChained(e, q, stmt, ctx, inc, hi)
    ensures inc + |IncludedNames(e, stmt)| <= hi
  {
    if stmt.body.Braces? {
      ChainedRange(e, q, stmt.body.stmts, EnterBlock(stmt.directive, ctx), inc + |IncludedNames(e, stmt)|, hi);
    }
  }

  lemma {:induction false} StmtConserved(v: Visit, e: Env, q: seq<FileCtx>, out: seq<seq<Stmt>>, seen: seq<nat>,
                                         stmt: Stmt, ctx: seq<string>, inc: nat, hi: nat)
    requires Counts(v, q, out, seen) && StmtChained(e, q, stmt, ctx, inc, hi) && hi <= |q|
    ensures Seen(v, StmtBy(out, stmt), ctx) + StmtDropped(v, out, stmt, ctx)
         == Times(v, Lasting(e, StmtWalk(stmt, ctx))) + Sum(seen, inc, hi)
    decreases stmt
  {
    var names, c := IncludedNames(e, stmt), EnterBlock(stmt.directive, ctx);
    var mid := inc + |names|;
    StmtRange(e, q, stmt, ctx, inc, hi);
    if stmt.body.Braces? {
      BlockConserved(v, e, q, out, seen, stmt.body.stmts, c, mid, hi);
    }
    SumSplit(seen, inc, mid, hi);
    StmtLasts(v, e, stmt, ctx);
    StmtBecomes(v, e, q, out, seen, stmt, ctx, inc);
  }

  /** What lasts of a statement: itself, unless it gives way, and what lasts of its block. */
  lemma StmtLasts(v: Visit, e: Env, stmt: Stmt, ctx: seq<string>)
    ensures Times(v, Lasting(e, StmtWalk(stmt, ctx)))
         == (if IncludedNames(e, stmt) != [] then 0 else Times(v, VisitOf(stmt, ctx)))
            + if stmt.body.NoBlock? then 0
              else Times(v, Lasting(e, Walk(stmt.body.stmts, EnterBlock(stmt.directive, ctx))))
  {
    LastingTimes(v, e, VisitOf(stmt, ctx),
                 if stmt.body.Braces? then Walk(stmt.body.stmts, EnterBlock(stmt.directive, ctx)) else []);
    OneLasting(e, stmt, ctx);
  }

  /** What a statement becomes: the files it gives way to, or itself and its block. */
  lemma StmtBecomes(v: Visit, e: Env, q: seq<FileCtx>, out: seq<seq<Stmt>>, seen: seq<nat>, stmt: Stmt,
                    ctx: seq<string>, inc: nat)
    requires Counts(v, q, out, seen) && QueuedAt(q, inc, IncludedNames(e, stmt), ctx)
    requires stmt.includes == Indices(inc, |IncludedNames(e, stmt)|)
    ensures Seen(v, StmtBy(out, stmt), ctx)
         == if IncludedNames(e, stmt) != [] then Sum(seen, inc, inc + |IncludedNames(e, stmt)|)
            else Times(v, VisitOf(stmt, ctx))
                 + if stmt.body.NoBlock? then 0
                   else Seen(v, BlockBy(out, stmt.body.stmts), EnterBlock(stmt.directive, ctx))
  {
    if IncludedNames(e, stmt) != [] {
      SpliceSeen(v, q, out, seen, IncludedNames(e, stmt), ctx, inc);
    } else {
      StmtKept(v, out, stmt, ctx);
    }
  }

  lemma OneLasting(e: Env, stmt: Stmt, ctx: seq<string>)
    ensures Lasting(e, VisitOf(stmt, ctx)) == if IncludedNames(e, stmt) != [] then [] else VisitOf(stmt, ctx)
  {
    if stmt.directive != "#" {
      assert VisitOf(stmt, ctx)[1..] == [];
    }
  }

  /** A statement that keeps its place is visited as before, and then its combined block. */
  lemma StmtKept(v: Visit, out: seq<seq<Stmt>>, stmt: Stmt, ctx: seq<string>)
    requires stmt.includes == []
    ensures Seen(v, StmtBy(out, stmt), ctx) == Times(v, VisitOf(stmt, ctx)) +
      if stmt.body.Braces? then Seen(v, BlockBy(out, stmt.body.stmts), EnterBlock(stmt.directive, ctx)) else 0
  {
    var kept := StmtBy(out, stmt)[0];
    var c := EnterBlock(stmt.directive, ctx);
    var inner := if stmt.body.Braces? then Walk(BlockBy(out, stmt.body.stmts), c) else [];
    assert StmtBy(out, stmt)[1..] == [];
    assert Walk(StmtBy(out, stmt), ctx) == VisitOf(kept, ctx) + inner;
    TimesAppend(v, VisitOf(kept, ctx), inner);
    assert Times(v, VisitOf(kept, ctx)) == Times(v, VisitOf(stmt, ctx));
  }

  lemma {:induction false} SpliceSeen(v: Visit, q: seq<FileCtx>, out: seq<seq<Stmt>>, seen: seq<nat>,
                                      names: seq<string>, ctx: seq<string>, inc: nat)
    requires Counts(v, q, out, seen) && QueuedAt(q, inc, names, ctx)
    ensures Seen(v, SplicedBy(out, Indices(inc, |names|)), ctx) == Sum(seen, inc, inc + |names|)
    decreases |names|
  {
    if names != [] {
      var idx := Indices(inc, |names|);
      assert idx[0] == inc && idx[1..] == Indices(inc + 1, |names| - 1);
      assert CountsAt(v, q, out, seen, inc);
      SpliceSeen(v, q, out, seen, names[1..], ctx, inc + 1);
      SeenAppend(v, out[inc], SplicedBy(out, idx[1..]), ctx);
    }
  }

  /** How often `v` was checked in the first `j` files, includes that give way to files aside. */
  function Checked(v: Visit, e: Env, config: seq<FileOutcome>, j: nat): nat
    requires j <= |config|
  {
    if j == 0 then 0
    else Checked(v, e, config, j - 1)
         + if config[j - 1].Parsed? then Times(v, Lasting(e, Visits(config[j - 1].log))) else 0
  }

  /** How often `v` was dropped in the first `j` files. */
  function DroppedBy(v: Visit, out: seq<seq<Stmt>>, w: Work, j: nat): nat
    requires j <= |w.config| <= |w.includes|
  {
    if j == 0 then 0
    else DroppedBy(v, out, w, j - 1) + Dropped(v, out, StmtsOf(w.config[j - 1]), w.includes[j - 1].ctx)
  }

  /** File `j` is chained to its part of the queue, and was checked in the contexts of its own tree. */
  predicate HangsAt(e: Env, w: Work, j: nat)
    requires j < |w.config| == |w.includes|
  {
    && w.config[j].Parsed?
    && j < Base(w.config, j) <= Base(w.config, j + 1) <= |w.includes|
    && Chained(e, w.includes, w.config[j].stmts, w.includes[j].ctx, Base(w.config, j), Base(w.config, j + 1))
    && Visits(w.config[j].log) == Walk(w.config[j].stmts, w.includes[j].ctx)
  }

  lemma Hangs(s: Setup, w: Work)
    requires Plain(s.env) && Whole(s, w)
    ensures forall j :: 0 <= j < |w.config| ==> HangsAt(s.env, w, j)
  {
    forall j | 0 <= j < |w.config|
      ensures HangsAt(s.env, w, j)
    {
      assert FileFits(w.config, j);
      BaseFacts(s, w, j);
      FileChained(s, w, j);
    }
  }

  /** The files parsed so far have been checked; those still queued are yet to be visited. */
  lemma {:induction false} Telescope(v: Visit, e: Env, w: Work, out: seq<seq<Stmt>>, seen: seq<nat>, j: nat)
    requires w.Finished() && w.config != [] && j <= |w.config| && Outs(w.config, out)
    requires Counts(v, w.includes, out, seen)
    requires forall k :: 0 <= k < |w.config| ==> HangsAt(e, w, k)
    ensures j <= Base(w.config, j) <= |w.config|
    ensures seen[0] + DroppedBy(v, out, w, j) == Checked(v, e, w.config, j) + Sum(seen, j, Base(w.config, j))
    decreases j
  {
    if j > 0 {
      var i := j - 1;
      Telescope(v, e, w, out, seen, i);
      assert HangsAt(e, w, i);
      FileConserved(v, e, w, out, seen, i);
      SumSplit(seen, j, Base(w.config, i), Base(w.config, j));
    }
  }

  lemma FileConserved(v: Visit, e: Env, w: Work, out: seq<seq<Stmt>>, seen: seq<nat>, i: nat)
    requires i < |w.config| == |w.includes| && Outs(w.config, out) && Counts(v, w.includes, out, seen)
    requires HangsAt(e, w, i)
    ensures seen[i] + Dropped(v, out, w.config[i].stmts, w.includes[i].ctx)
         == Times(v, Lasting(e, Visits(w.config[i].log))) + Sum(seen, Base(w.config, i), Base(w.config, i + 1))
  {
    assert OutAt(w.config, out, i) && CountsAt(v, w.includes, out, seen, i);
    BlockConserved(v, e, w.includes, out, seen, w.config[i].stmts, w.includes[i].ctx,
                   Base(w.config, i), Base(w.config, i + 1));
  }

  lemma CountsOf(v: Visit, q: seq<FileCtx>, out: seq<seq<Stmt>>) returns (seen: seq<nat>)
    requires |q| == |out|
    ensures Counts(v, q, out, seen)
  {
    seen := seq(|q|, k requires 0 <= k < |q| => Seen(v, out[k], q[k].ctx));
  }

  /**
    * Over all files, whatever `analyze` saw, with its context, is in the combined tree, with the
    * fold of EnterBlock along its ancestors there, or was dropped with the block of an include;
    * and as often. Includes that give way to files are not counted.
    */
  lemma ContextsAreKept(v: Visit, s: Setup, root: string, k: nat) returns (out: seq<seq<Stmt>>)
    requires Plain(s.env) && AllParsed(s, root, k)
    ensures var w := Steps(s, root, k);
      && Complete(w.config) && w.config != [] && FileFits(w.config, 0)
      && Outs(w.config, out) && out[0] == Combined(w.config, 0, w.config[0].stmts)
      && Seen(v, out[0], []) + DroppedBy(v, out, w, |w.config|) == Checked(v, s.env, w.config, |w.config|)
  {
    var w := Steps(s, root, k);
    RunIsWhole(s, root, k);
    out := CombinedOuts(w.config);
    assert IsCombined(w.config, out, 0);
    OutsConserve(v, s, w, out);
  }

  lemma OutsConserve(v: Visit, s: Setup, w: Work, out: seq<seq<Stmt>>)
    requires Plain(s.env) && Whole(s, w) && w.config != [] && Outs(w.config, out)
    ensures Seen(v, out[0], []) + DroppedBy(v, out, w, |w.config|) == Checked(v, s.env, w.config, |w.config|)
  {
    var seen := CountsOf(v, w.includes, out);
    Hangs(s, w);
    Telescope(v, s.env, w, out, seen, |w.config|);
    assert CountsAt(v, w.includes, out, seen, 0);
  }

  // ---- What blocks come to, told from the parsed files ----

  /** Every statement is an include that gives way to files, and these are again like that. */
  ghost predicate Barren(s: Setup, block: seq<Stmt>, n: nat)
    decreases n, 1, |block|
  {
    block != [] ==>
      && IncludedNames(s.env, block[0]) != [] && BarrenFiles(s, IncludedNames(s.env, block[0]), n)
      && Barren(s, block[1..], n)
  }

  ghost predicate BarrenFiles(s: Setup, names: seq<string>, n: nat)
    decreases n, 0, |names|
  {
    names != [] ==>
      && (n > 0 ==> Barren(s, StmtsOf(ParseFile(s, FileCtx(names[0], []), 0)), n - 1))
      && BarrenFiles(s, names[1..], n)
  }

  lemma {:induction false} BarrenInlined(s: Setup, block: seq<Stmt>, n: nat)
    ensures InlineBlock(s, block, n) == [] <==> Barren(s, block, n)
    decreases n, 1, |block|
  {
    if block != [] {
      BarrenFilesInlined(s, IncludedNames(s.env, block[0]), n);
      BarrenInlined(s, block[1..], n);
    }
  }

  lemma {:induction false} BarrenFilesInlined(s: Setup, names: seq<string>, n: nat)
    ensures InlineFiles(s, names, n) == [] <==> BarrenFiles(s, names, n)
    decreases n, 0, |names|
  {
    if names != [] {
      if n > 0 {
        BarrenInlined(s, StmtsOf(ParseFile(s, FileCtx(names[0], []), 0)), n - 1);
      }
      BarrenFilesInlined(s, names[1..], n);
    }
  }

  /** A statement that keeps its place keeps its braces if and only if its block is not barren. */
  lemma BracesAreKeptIff(s: Setup, stmt: Stmt, n: nat)
    requires IncludedNames(s.env, stmt) == [] && stmt.body.Braces?
    ensures |InlineStmt(s, stmt, n)| == 1 && InlineStmt(s, stmt, n)[0].directive == stmt.directive
    ensures InlineStmt(s, stmt, n)[0].body.Braces? <==> !Barren(s, stmt.body.stmts, n)
  {
    BarrenInlined(s, stmt.body.stmts, n);
  }

  /** The same of the combined files of a run. */
  lemma CombinedBracesIff(s: Setup, q: seq<FileCtx>, out: seq<seq<Stmt>>, stmt: Stmt, ctx: seq<string>, n: nat)
    requires StmtLinked(s.env, q, stmt, ctx) && Ahead(StmtIncludes(stmt), 0, |q|) && InlinedFrom(s, q, out, 0, |q|, n)
    requires stmt.includes == [] && stmt.body.Braces?
    ensures |StmtBy(out, stmt)| == 1 && (StmtBy(out, stmt)[0].body.Braces? <==> !Barren(s, stmt.body.stmts, n))
  {
    StmtInlined(s, q, out, stmt, ctx, 0, |q|, n);
    BracesAreKeptIff(s, stmt, n);
  }

  /** An empty block, as in `events {}`, becomes none. */
  lemma EmptyBlockIsDropped(config: seq<FileOutcome>, i: nat, stmt: Stmt)
    requires Complete(config) && i < |config| && stmt.includes == [] && stmt.body == Braces([])
    ensures Ahead(StmtIncludes(stmt), i + 1, |config|) && StmtCombined(config, i, stmt) == [stmt.(body := NoBlock)]
  {
    assert StmtIncludes(stmt) == [];
  }

  /** The block of an include that gives way to a file, as in `include a { x; }`, is dropped with it. */
  lemma IncludeLosesItsBlock(config: seq<FileOutcome>, i: nat, k: nat, line: int, x: Stmt)
    requires Complete(config) && i < k < |config| && StmtsOf(config[k]) == [] && x.directive != "#"
    requires x.includes == [] && x.body == NoBlock
    ensures var stmt := Stmt("include", "", line, ["a"], "", [k], Braces([x]));
      && Ahead(StmtIncludes(stmt), i + 1, |config|) && StmtCombined(config, i, stmt) == []
      && forall ctx :: Seen(VisitOf(x, EnterBlock("include", ctx))[0], [stmt], ctx) > 0
  {
    var stmt := Stmt("include", "", line, ["a"], "", [k], Braces([x]));
    assert [x][1..] == [] && AllIncludes([]) == [] && StmtIncludes(x) == [];
    assert AllIncludes([x]) == [] && StmtIncludes(stmt) == [k] + [];
    assert FileFits(config, k) && [k][1..] == [] && Spliced(config, i + 1, []) == [];
    assert Spliced(config, i + 1, [k]) == [];
    forall ctx
      ensures Seen(VisitOf(x, EnterBlock("include", ctx))[0], [stmt], ctx) > 0
    {
      var c := EnterBlock("include", ctx);
      var own, inner := VisitOf(stmt, ctx), VisitOf(x, c);
      assert Walk([], c) == [] && StmtWalk(x, c) == inner + [] && Walk([x], c) == inner;
      assert [stmt][1..] == [] && Walk([], ctx) == [] && StmtWalk(stmt, ctx) == own + inner;
      assert Walk([stmt], ctx) == own + inner;
      TimesAppend(inner[0], own, inner);
    }
  }

  /** A comment with nothing in its block, or an include whose files hold nothing else. */
  ghost predicate StmtSilent(s: Setup, stmt: Stmt, n: nat)
    decreases n, 1, stmt
  {
    var names := IncludedNames(s.env, stmt);
    if names != [] then SilentFiles(s, names, n)
    else stmt.directive == "#" && (stmt.body.Braces? ==> Silent(s, stmt.body.stmts, n))
  }

  ghost predicate Silent(s: Setup, block: seq<Stmt>, n: nat)
    decreases n, 1, block
  {
    block != [] ==> StmtSilent(s, block[0], n) && Silent(s, block[1..], n)
  }

  ghost predicate SilentFiles(s: Setup, names: seq<string>, n: nat)
    decreases n, 0, |names|
  {
    names != [] ==>
      && (n > 0 ==> Silent(s, StmtsOf(ParseFile(s, FileCtx(names[0], []), 0)), n - 1))
      && SilentFiles(s, names[1..], n)
  }

  lemma {:induction false} SilentInlined(s: Setup, block: seq<Stmt>, n: nat, ctx: seq<string>)
    ensures Walk(InlineBlock(s, block, n), ctx) == [] <==> Silent(s, block, n)
    decreases n, 1, block
  {
    if block != [] {
      StmtSilentInlined(s, block[0], n, ctx);
      SilentInlined(s, block[1..], n, ctx);
      WalkAppend(InlineStmt(s, block[0], n), InlineBlock(s, block[1..], n), ctx);
    }
  }

  lemma {:induction false} StmtSilentInlined(s: Setup, stmt: Stmt, n: nat, ctx: seq<string>)
    ensures Walk(InlineStmt(s, stmt, n), ctx) == [] <==> StmtSilent(s, stmt, n)
    decreases n, 1, stmt
  {
    var names, c := IncludedNames(s.env, stmt), EnterBlock(stmt.directive, ctx);
    if names != [] {
      SilentFilesInlined(s, names, n, ctx);
    } else {
      var t := InlineStmt(s, stmt, n)[0];
      assert InlineStmt(s, stmt, n)[1..] == [];
      assert Walk(InlineStmt(s, stmt, n), ctx) == StmtWalk(t, ctx);
      if stmt.body.Braces? {
        SilentInlined(s, stmt.body.stmts, n, c);
      }
    }
  }

  lemma {:induction false} SilentFilesInlined(s: Setup, names: seq<string>, n: nat, ctx: seq<string>)
    ensures Walk(InlineFiles(s, names, n), ctx) == [] <==> SilentFiles(s, names, n)
    decreases n, 0, |names|
  {
    if names != [] {
      if n > 0 {
        SilentInlined(s, StmtsOf(ParseFile(s, FileCtx(names[0], []), 0)), n - 1, ctx);
      }
      SilentFilesInlined(s, names[1..], n, ctx);
      WalkAppend(InlineFile(s, names[0], n), InlineFiles(s, names[1..], n), ctx);
    }
  }

  // ---- Exactly when something is lost ----

  ghost predicate StmtHarmless(s: Setup, stmt: Stmt, n: nat)
    decreases stmt
  {
    stmt.body.Braces? ==>
      && (IncludedNames(s.env, stmt) != [] ==> Silent(s, stmt.body.stmts, n))
      && Harmless(s, stmt.body.stmts, n)
  }

  /**
    * The blocks of includes that give way to files hold only comments and includes of files that,
    * down to `n` files deep, hold nothing else.
    */
  ghost predicate Harmless(s: Setup, block: seq<Stmt>, n: nat)
    decreases block
  {
    block != [] ==> StmtHarmless(s, block[0], n) && Harmless(s, block[1..], n)
  }

  /** No include that gives way to files has a block of its own. */
  predicate BareIncludes(e: Env, block: seq<Stmt>)
    decreases block
  {
    block != [] ==>
      && (block[0].body.Braces? ==> IncludedNames(e, block[0]) == [] && BareIncludes(e, block[0].body.stmts))
      && BareIncludes(e, block[1..])
  }

  lemma {:induction false} BareIsHarmless(s: Setup, block: seq<Stmt>, n: nat)
    requires BareIncludes(s.env, block)
    ensures Harmless(s, block, n)
    decreases block
  {
    if block != [] {
      if block[0].body.Braces? {
        BareIsHarmless(s, block[0].body.stmts, n);
      }
      BareIsHarmless(s, block[1..], n);
    }
  }

  /** The facts about a block of the run that the two lemmas below share. */
  ghost predicate BlockOf(s: Setup, q: seq<FileCtx>, out: seq<seq<Stmt>>, block: seq<Stmt>, ctx: seq<string>, n: nat) {
    Linked(s.env, q, block, ctx) && Ahead(AllIncludes(block), 0, |q|) && InlinedFrom(s, q, out, 0, |q|, n)
  }

  lemma BlockOfParts(s: Setup, q: seq<FileCtx>, out: seq<seq<Stmt>>, block: seq<Stmt>, ctx: seq<string>, n: nat)
    requires block != [] && BlockOf(s, q, out, block, ctx, n)
    ensures BlockOf(s, q, out, block[1..], ctx, n)
    ensures block[0].includes != [] <==> IncludedNames(s.env, block[0]) != []
    ensures block[0].body.Braces? ==>
      BlockOf(s, q, out, block[0].body.stmts, EnterBlock(block[0].directive, ctx), n)
  {
    assert StmtLinked(s.env, q, block[0], ctx);
    AheadSplit(StmtIncludes(block[0]), AllIncludes(block[1..]), 0, |q|);
    AheadSplit(block[0].includes, if block[0].body.Braces? then AllIncludes(block[0].body.stmts) else [], 0, |q|);
  }

  /** The combined form of a block holds no statement if and only if the block is silent. */
  lemma SilentCombined(s: Setup, q: seq<FileCtx>, out: seq<seq<Stmt>>, block: seq<Stmt>, ctx: seq<string>, n: nat)
    requires BlockOf(s, q, out, block, ctx, n)
    ensures Walk(BlockBy(out, block), ctx) == [] <==> Silent(s, block, n)
  {
    BlockInlined(s, q, out, block, ctx, 0, |q|, n);
    SilentInlined(s, block, n, ctx);
  }

  lemma {:induction false} HarmlessDropsNothing(v: Visit, s: Setup, q: seq<FileCtx>, out: seq<seq<Stmt>>,
                                                block: seq<Stmt>, ctx: seq<string>, n: nat)
    requires BlockOf(s, q, out, block, ctx, n) && Harmless(s, block, n)
    ensures Dropped(v, out, block, ctx) == 0
    decreases block
  {
    if block != [] {
      BlockOfParts(s, q, out, block, ctx, n);
      var stmt, c := block[0], EnterBlock(block[0].directive, ctx);
      if stmt.body.Braces? {
        HarmlessDropsNothing(v, s, q, out, stmt.body.stmts, c, n);
        SilentCombined(s, q, out, stmt.body.stmts, c, n);
      }
      HarmlessDropsNothing(v, s, q, out, block[1..], ctx, n);
    }
  }

  /** A block that is not harmless drops some statement. */
  lemma {:induction false} HarmDropsSomething(s: Setup, q: seq<FileCtx>, out: seq<seq<Stmt>>, block: seq<Stmt>,
                                              ctx: seq<string>, n: nat) returns (v: Visit)
    requires BlockOf(s, q, out, block, ctx, n) && !Harmless(s, block, n)
    ensures Dropped(v, out, block, ctx) > 0
    decreases block
  {
    BlockOfParts(s, q, out, block, ctx, n);
    var stmt, c := block[0], EnterBlock(block[0].directive, ctx);
    if StmtHarmless(s, stmt, n) {
      v := HarmDropsSomething(s, q, out, block[1..], ctx, n);
    } else if !Harmless(s, stmt.body.stmts, n) {
      v := HarmDropsSomething(s, q, out, stmt.body.stmts, c, n);
    } else {
      SilentCombined(s, q, out, stmt.body.stmts, c, n);
      v := Walk(BlockBy(out, stmt.body.stmts), c)[0];
      assert Seen(v, BlockBy(out, stmt.body.stmts), c) > 0;
    }
  }

  ghost predicate HarmlessAt(s: Setup, w: Work, j: nat)
    requires j < |w.config|
  {
    Harmless(s, StmtsOf(w.config[j]), |w.includes|)
  }

  ghost predicate BlockOfAt(s: Setup, w: Work, out: seq<seq<Stmt>>, j: nat)
    requires j < |w.config| <= |w.includes|
  {
    BlockOf(s, w.includes, out, StmtsOf(w.config[j]), w.includes[j].ctx, |w.includes|)
  }

  /** As deep as the queue is long, every combined file is that file inlined. */
  lemma AllInlined(s: Setup, root: string, k: nat, out: seq<seq<Stmt>>)
    requires AllParsed(s, root, k) && Outs(Steps(s, root, k).config, out)
    ensures var w := Steps(s, root, k); InlinedFrom(s, w.includes, out, 0, |w.includes|, |w.includes|)
  {
    var w := Steps(s, root, k);
    RunIsWhole(s, root, k);
    AlwaysSpread(s, root, k);
    forall i | 0 <= i < |w.includes|
      ensures out[i] == InlineFile(s, w.includes[i].name, |w.includes|)
    {
      FinishedBounds(s, w, i, |w.includes|);
      FileInlined(s, w, out, i, |w.includes|);
    }
  }

  lemma AllBlocks(s: Setup, root: string, k: nat, out: seq<seq<Stmt>>)
    requires AllParsed(s, root, k) && Outs(Steps(s, root, k).config, out)
    ensures var w := Steps(s, root, k); forall j :: 0 <= j < |w.config| ==> BlockOfAt(s, w, out, j)
  {
    var w := Steps(s, root, k);
    RunIsWhole(s, root, k);
    AllInlined(s, root, k, out);
    forall j | 0 <= j < |w.config|
      ensures BlockOfAt(s, w, out, j)
    {
      assert FileFits(w.config, j);
      FileLinked(s, w, j);
    }
  }

  lemma {:induction false} HarmlessFilesDropNothing(v: Visit, s: Setup, w: Work, out: seq<seq<Stmt>>, j: nat)
    requires j <= |w.config| <= |w.includes|
    requires forall i :: 0 <= i < j ==> BlockOfAt(s, w, out, i) && HarmlessAt(s, w, i)
    ensures DroppedBy(v, out, w, j) == 0
  {
    if j > 0 {
      HarmlessFilesDropNothing(v, s, w, out, j - 1);
      assert BlockOfAt(s, w, out, j - 1) && HarmlessAt(s, w, j - 1);
      HarmlessDropsNothing(v, s, w.includes, out, StmtsOf(w.config[j - 1]), w.includes[j - 1].ctx, |w.includes|);
    }
  }

  lemma {:induction false} DroppedByGrows(v: Visit, out: seq<seq<Stmt>>, w: Work, i: nat, j: nat)
    requires i < j <= |w.config| <= |w.includes|
    ensures DroppedBy(v, out, w, j) >= Dropped(v, out, StmtsOf(w.config[i]), w.includes[i].ctx)
    decreases j
  {
    if i < j - 1 {
      DroppedByGrows(v, out, w, i, j - 1);
    }
  }

  /**
    * Combining keeps every statement that was checked, in its context, if and only if every parsed
    * file is harmless: a condition on the files as parsed, not on what combining makes of them.
    */
  lemma NothingIsLostIffHarmless(s: Setup, root: string, k: nat) returns (o: seq<Stmt>)
    requires Plain(s.env) && AllParsed(s, root, k)
    ensures var w := Steps(s, root, k);
      && w.config != [] && Complete(w.config) && FileFits(w.config, 0) && o == Combined(w.config, 0, w.config[0].stmts)
      && ((forall v :: Seen(v, o, []) == Checked(v, s.env, w.config, |w.config|))
          <==> forall j :: 0 <= j < |w.config| ==> HarmlessAt(s, w, j))
  {
    var w := Steps(s, root, k);
    RunIsWhole(s, root, k);
    var out := CombinedOuts(w.config);
    assert IsCombined(w.config, out, 0);
    o := out[0];
    AllBlocks(s, root, k, out);
    if forall j :: 0 <= j < |w.config| ==> HarmlessAt(s, w, j) {
      forall v
        ensures Seen(v, o, []) == Checked(v, s.env, w.config, |w.config|)
      {
        OutsConserve(v, s, w, out);
        HarmlessFilesDropNothing(v, s, w, out, |w.config|);
      }
    } else {
      var j :| 0 <= j < |w.config| && !HarmlessAt(s, w, j);
      var v := HarmfulFile(s, w, out, j);
      OutsConserve(v, s, w, out);
      assert Seen(v, o, []) != Checked(v, s.env, w.config, |w.config|);
    }
  }

  lemma HarmfulFile(s: Setup, w: Work, out: seq<seq<Stmt>>, j: nat) returns (v: Visit)
    requires j < |w.config| <= |w.includes| && BlockOfAt(s, w, out, j) && !HarmlessAt(s, w, j)
    ensures DroppedBy(v, out, w, |w.config|) > 0
  {
    v := HarmDropsSomething(s, w.includes, out, StmtsOf(w.config[j]), w.includes[j].ctx, |w.includes|);
    DroppedByGrows(v, out, w, j, |w.config|);
  }
}
