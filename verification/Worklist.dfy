/** config_parse.go: the list of files that grows while it is parsed. */
module IncludeWorklist {
  import opened Common
  import opened ConfigLex
  import opened ConfigTree
  import opened ConfigParse
  import opened ParsedBlocks
  import opened ContextFree

  /** The options of a run and the texts of the files it can open. */
  datatype Setup = Setup(env: Env, custom: set<string>, files: map<string, string>)

  /**
    * What becomes of one file: an error of opening, lexing or balancing leaves nil in its place;
    * `Broken` is a panic of the parser, a lexer that does not come back, or one that hands a block
    * of a custom directive over to its Lua lexer, where this model ends.
    */
  datatype FileOutcome = Failed | Parsed(stmts: seq<Stmt>, queued: seq<FileCtx>, log: seq<Event>) | Broken

  /** parseInclude, with `inc` files queued so far. */
  function ParseFile(s: Setup, f: FileCtx, inc: nat): FileOutcome {
    if f.name !in s.files then Failed
    else match Lex(s.custom, s.files[f.name])
      case Unterminated => Broken
      case LuaBlock => Broken
      case Lexed(tokens) =>
        if !WellNested(tokens) then Failed
        else match Block(s.env.(file := f.name), tokens, 0, f.ctx, false, inc)
          case Panic => Broken
          case Done(stmts, _, queued, log) => Parsed(stmts, queued, log)
  }

  /** The file cannot be opened, or its braces do not balance. */
  predicate Unreadable(s: Setup, name: string) {
    name !in s.files || (Lex(s.custom, s.files[name]).Lexed? && !WellNested(Lex(s.custom, s.files[name]).tokens))
  }

  /** What came of a file, told from its text: `inc` files were queued before it. */
  predicate ComesFrom(s: Setup, f: FileCtx, inc: nat, o: FileOutcome) {
    && (o.Failed? <==> Unreadable(s, f.name))
    && (!Unreadable(s, f.name) ==>
          var lexed := Lex(s.custom, s.files[f.name]);
          if !lexed.Lexed? then o.Broken?
          else
            var r := Block(s.env.(file := f.name), lexed.tokens, 0, f.ctx, false, inc);
            && (o.Broken? <==> r.Panic?)
            && (o.Parsed? ==> o.stmts == r.stmts && o.queued == r.queued && o.log == r.log))
  }

  lemma ParseFileComes(s: Setup, f: FileCtx, inc: nat)
    ensures ComesFrom(s, f, inc, ParseFile(s, f, inc))
  {
  }

  function Queued(o: FileOutcome): seq<FileCtx> { if o.Parsed? then o.queued else [] }

  function StmtsOf(o: FileOutcome): seq<Stmt> { if o.Parsed? then o.stmts else [] }

  /** The queue of files and the outcomes of those parsed; the next file is the one at |config|. */
  datatype Work = Work(includes: seq<FileCtx>, config: seq<FileOutcome>)
  {
    predicate Finished() { |config| == |includes| }
  }

  function Begin(root: string): Work { Work([FileCtx(root, [])], []) }

  function Step(s: Setup, w: Work): Work
    requires |w.config| <= |w.includes|
  {
    if w.Finished() then w
    else
      var o := ParseFile(s, w.includes[|w.config|], |w.includes|);
      Work(w.includes + Queued(o), w.config + [o])
  }

  function Steps(s: Setup, root: string, k: nat): (w: Work)
    ensures |w.config| <= |w.includes|
  {
    if k == 0 then Begin(root) else Step(s, Steps(s, root, k - 1))
  }

  // ---- What every step keeps ----

  /** The include indices of all files parsed, in the order of the files. */
  function AllIndices(config: seq<FileOutcome>): seq<nat> {
    if config == [] then []
    else AllIndices(config[..|config| - 1]) + AllIncludes(StmtsOf(config[|config| - 1]))
  }

  /** Every file's indices point ahead of it, inside the queue, and no index is used twice. */
  ghost predicate Wired(w: Work) {
    && |w.config| <= |w.includes| && w.includes != []
    && Rising(AllIndices(w.config), 1, |w.includes|)
    && (forall i, k :: 0 <= i < |w.config| && k in AllIncludes(StmtsOf(w.config[i])) ==> i < k < |w.includes|)
  }

  lemma ParseFileRanked(s: Setup, f: FileCtx, inc: nat)
    ensures var o := ParseFile(s, f, inc);
      Rising(AllIncludes(StmtsOf(o)), inc, inc + |Queued(o)|)
  {
    var o := ParseFile(s, f, inc);
    if o.Parsed? {
      var tokens := Lex(s.custom, s.files[f.name]).tokens;
      var r := BlockRanked(s.env.(file := f.name), tokens, 0, f.ctx, false, inc);
    }
  }

  lemma StepWired(s: Setup, w: Work)
    requires Wired(w)
    ensures Wired(Step(s, w))
  {
    if !w.Finished() {
      var n, inc := |w.config|, |w.includes|;
      var o := ParseFile(s, w.includes[n], inc);
      var v := Step(s, w);
      ParseFileRanked(s, w.includes[n], inc);
      assert v.config[..n] == w.config;
      RisingAppend(AllIndices(w.config), AllIncludes(StmtsOf(o)), 1, inc, |v.includes|);
      forall i, k | 0 <= i < |v.config| && k in AllIncludes(StmtsOf(v.config[i]))
        ensures i < k < |v.includes|
      {
        if i < n {
          assert v.config[i] == w.config[i];
        }
      }
    }
  }

  /**
    * At every point of every run: an index stored by file i is greater than i and names a file of
    * the queue, and all indices taken together are distinct, rising in document order.
    */
  lemma {:induction false} AlwaysWired(s: Setup, root: string, k: nat)
    ensures Wired(Steps(s, root, k))
  {
    if k > 0 {
      AlwaysWired(s, root, k - 1);
      StepWired(s, Steps(s, root, k - 1));
    }
  }

  // ---- When the loop ends ----

  /** The files a file includes, whatever the context. */
  function Children(s: Setup, name: string): seq<string> {
    var q := Queued(ParseFile(s, FileCtx(name, []), 0));
    seq(|q|, i requires 0 <= i < |q| => q[i].name)
  }

  /** Every chain of includes from `name` has at most `n` files. */
  predicate Bounded(s: Setup, name: string, n: nat)
    decreases n
  {
    n > 0 && forall i :: 0 <= i < |Children(s, name)| ==> Bounded(s, Children(s, name)[i], n - 1)
  }

  ghost predicate HasBound(s: Setup, name: string) { exists n :: Bounded(s, name, n) }

  predicate AreChildren(s: Setup, name: string, q: seq<FileCtx>) {
    |q| == |Children(s, name)| && forall i :: 0 <= i < |q| ==> q[i].name == Children(s, name)[i]
  }

  lemma QueuedAreChildren(s: Setup, f: FileCtx, inc: nat)
    ensures AreChildren(s, f.name, Queued(ParseFile(s, f, inc)))
  {
    if f.name in s.files && Lex(s.custom, s.files[f.name]).Lexed? {
      var tokens := Lex(s.custom, s.files[f.name]).tokens;
      var r, q := BlockAlike(s.env.(file := f.name), tokens, 0, f.ctx, [], false, inc, 0);
    }
  }

  lemma {:induction false} BoundedMore(s: Setup, name: string, n: nat)
    requires Bounded(s, name, n)
    ensures Bounded(s, name, n + 1)
    decreases n
  {
    forall i | 0 <= i < |Children(s, name)|
      ensures Bounded(s, Children(s, name)[i], n)
    {
      BoundedMore(s, Children(s, name)[i], n - 1);
    }
  }

  ghost predicate AllBounded(s: Setup, names: seq<string>, n: nat) {
    forall i :: 0 <= i < |names| ==> Bounded(s, names[i], n)
  }

  /** How many files parsing `name` comes to, itself included. */
  ghost function Size(s: Setup, name: string, n: nat): nat
    requires Bounded(s, name, n)
    decreases n, 1, 0
  {
    1 + Sizes(s, Children(s, name), n - 1)
  }

  ghost function Sizes(s: Setup, names: seq<string>, n: nat): nat
    requires AllBounded(s, names, n)
    decreases n, 2, |names|
  {
    if names == [] then 0 else Size(s, names[0], n) + Sizes(s, names[1..], n)
  }

  lemma {:induction false} SizesAppend(s: Setup, a: seq<string>, b: seq<string>, n: nat)
    requires AllBounded(s, a, n) && AllBounded(s, b, n)
    ensures AllBounded(s, a + b, n) && Sizes(s, a + b, n) == Sizes(s, a, n) + Sizes(s, b, n)
    decreases |a|
  {
    if a == [] {
      assert a + b == b;
    } else {
      assert (a + b)[1..] == a[1..] + b;
      SizesAppend(s, a[1..], b, n);
    }
  }

  /** Sizes do not depend on the bound. */
  lemma {:induction false} SizesMore(s: Setup, names: seq<string>, n: nat)
    requires AllBounded(s, names, n)
    ensures AllBounded(s, names, n + 1) && Sizes(s, names, n + 1) == Sizes(s, names, n)
    decreases n, |names|
  {
    if names != [] {
      BoundedMore(s, names[0], n);
      SizesMore(s, Children(s, names[0]), n - 1);
      SizesMore(s, names[1..], n);
      forall i | 0 <= i < |names|
        ensures Bounded(s, names[i], n + 1)
      {
        BoundedMore(s, names[i], n);
      }
    }
  }

  function Waiting(w: Work): seq<string>
    requires |w.config| <= |w.includes|
  {
    seq(|w.includes| - |w.config|, i requires 0 <= i < |w.includes| - |w.config| => w.includes[|w.config| + i].name)
  }

  /** A step replaces the file at the front by those it includes. */
  lemma StepWaiting(s: Setup, w: Work)
    requires |w.config| < |w.includes|
    ensures Waiting(w) != [] && Waiting(Step(s, w)) == Waiting(w)[1..] + Children(s, Waiting(w)[0])
  {
    var f := w.includes[|w.config|];
    QueuedAreChildren(s, f, |w.includes|);
    WaitingNext(w, Step(s, w), Queued(ParseFile(s, f, |w.includes|)), Children(s, f.name));
  }

  lemma WaitingNext(w: Work, v: Work, queued: seq<FileCtx>, children: seq<string>)
    requires |w.config| < |w.includes| && |v.config| == |w.config| + 1 && v.includes == w.includes + queued
    requires |queued| == |children| && forall i :: 0 <= i < |queued| ==> queued[i].name == children[i]
    ensures Waiting(w) != [] && Waiting(w)[0] == w.includes[|w.config|].name
    ensures Waiting(v) == Waiting(w)[1..] + children
  {
  }

  /** Each step takes one file off what is left to parse. */
  lemma StepShrinks(s: Setup, w: Work, n: nat)
    requires |w.config| < |w.includes| && AllBounded(s, Waiting(w), n)
    ensures AllBounded(s, Waiting(Step(s, w)), n)
    ensures Sizes(s, Waiting(Step(s, w)), n) == Sizes(s, Waiting(w), n) - 1
  {
    StepWaiting(s, w);
    var names := Waiting(w);
    assert Bounded(s, names[0], n);
    SizesMore(s, Children(s, names[0]), n - 1);
    SizesAppend(s, names[1..], Children(s, names[0]), n);
  }

  lemma {:induction false} StepsShrink(s: Setup, root: string, n: nat, k: nat)
    requires Bounded(s, root, n) && k <= Size(s, root, n)
    ensures var w := Steps(s, root, k);
      && |w.config| == k
      && AllBounded(s, Waiting(w), n) && Sizes(s, Waiting(w), n) == Size(s, root, n) - k
    decreases k
  {
    if k == 0 {
      assert Waiting(Begin(root)) == [root];
      assert [root][1..] == [];
    } else {
      StepsShrink(s, root, n, k - 1);
      StepShrinks(s, Steps(s, root, k - 1), n);
    }
  }

  lemma NothingWaits(s: Setup, w: Work, n: nat)
    requires |w.config| <= |w.includes| && AllBounded(s, Waiting(w), n)
    ensures Sizes(s, Waiting(w), n) == 0 <==> w.Finished()
  {
    if !w.Finished() {
      assert Bounded(s, Waiting(w)[0], n);
    }
  }

  ghost predicate Behind(w: Work, i: nat, name: string) {
    exists j :: i < j < |w.includes| && w.includes[j].name == name
  }

  /** The files that file i includes stand behind it in the queue. */
  ghost predicate Spread(s: Setup, w: Work) {
    && |w.config| <= |w.includes|
    && forall i, m :: 0 <= i < |w.config| && 0 <= m < |Children(s, w.includes[i].name)| ==>
         Behind(w, i, Children(s, w.includes[i].name)[m])
  }

  lemma BehindMore(w: Work, v: Work, i: nat, name: string)
    requires Behind(w, i, name) && w.includes <= v.includes
    ensures Behind(v, i, name)
  {
    var j :| i < j < |w.includes| && w.includes[j].name == name;
    assert v.includes[j] == w.includes[j];
  }

  lemma StepSpread(s: Setup, w: Work)
    requires Spread(s, w)
    ensures Spread(s, Step(s, w))
  {
    if !w.Finished() {
      var n, inc, v := |w.config|, |w.includes|, Step(s, w);
      forall i, m | 0 <= i < |v.config| && 0 <= m < |Children(s, v.includes[i].name)|
        ensures Behind(v, i, Children(s, v.includes[i].name)[m])
      {
        assert v.includes[i] == w.includes[i];
        if i < n {
          BehindMore(w, v, i, Children(s, w.includes[i].name)[m]);
        } else {
          NewBehind(s, w, v, m);
        }
      }
    }
  }

  lemma NewBehind(s: Setup, w: Work, v: Work, m: nat)
    requires |w.config| < |w.includes| && v == Step(s, w) && m < |Children(s, w.includes[|w.config|].name)|
    ensures Behind(v, |w.config|, Children(s, w.includes[|w.config|].name)[m])
  {
    var f, inc := w.includes[|w.config|], |w.includes|;
    QueuedAreChildren(s, f, inc);
    assert v.includes[inc + m].name == Children(s, f.name)[m];
  }

  lemma {:induction false} AlwaysSpread(s: Setup, root: string, k: nat)
    ensures var w := Steps(s, root, k); Spread(s, w) && w.includes != [] && w.includes[0].name == root
  {
    if k > 0 {
      AlwaysSpread(s, root, k - 1);
      StepSpread(s, Steps(s, root, k - 1));
    }
  }

  /** No chain of includes from file i is longer than the rest of the queue. */
  lemma {:induction false} FinishedBounds(s: Setup, w: Work, i: nat, n: nat)
    requires Spread(s, w) && w.Finished() && i < |w.includes| <= i + n
    ensures Bounded(s, w.includes[i].name, n)
    decreases n, 1
  {
    var children, rest := Children(s, w.includes[i].name), n - 1;
    forall m | 0 <= m < |children|
      ensures Bounded(s, children[m], rest)
    {
      assert Behind(w, i, children[m]);
      BehindBounds(s, w, i, children[m], rest);
    }
  }

  lemma FoundBehind(w: Work, i: nat, child: string) returns (j: nat)
    requires Behind(w, i, child)
    ensures i < j < |w.includes| && w.includes[j].name == child
  {
    j :| i < j < |w.includes| && w.includes[j].name == child;
  }

  lemma {:induction false} BehindBounds(s: Setup, w: Work, i: nat, child: string, n: nat)
    requires Spread(s, w) && w.Finished() && |w.includes| <= i + 1 + n && Behind(w, i, child)
    ensures Bounded(s, child, n)
    decreases n, 2
  {
    var j := FoundBehind(w, i, child);
    FinishedBounds(s, w, j, n);
  }

  lemma {:induction false} BoundedUpTo(s: Setup, name: string, m: nat, n: nat)
    requires Bounded(s, name, m) && m <= n
    ensures Bounded(s, name, n)
    decreases n - m
  {
    if m < n {
      BoundedMore(s, name, m);
      BoundedUpTo(s, name, m + 1, n);
    }
  }

  /** After `k` files the loop has more to do exactly while `k` is below the size of the root. */
  lemma DoneAtSize(s: Setup, root: string, n: nat, k: nat)
    requires Bounded(s, root, n) && k <= Size(s, root, n)
    ensures |Steps(s, root, k).config| == k
    ensures Steps(s, root, k).Finished() <==> k == Size(s, root, n)
  {
    StepsShrink(s, root, n, k);
    NothingWaits(s, Steps(s, root, k), n);
  }

  lemma EndHasBound(s: Setup, root: string, k: nat)
    requires Steps(s, root, k).Finished()
    ensures HasBound(s, root)
  {
    var w := Steps(s, root, k);
    AlwaysSpread(s, root, k);
    FinishedBounds(s, w, 0, |w.includes|);
    assert Bounded(s, root, |w.includes|);
  }

  // ---- The files of a run ----

  /** A file that breaks the run, whatever the context. */
  predicate Breaks(s: Setup, name: string) { ParseFile(s, FileCtx(name, []), 0).Broken? }

  lemma BreaksAnywhere(s: Setup, f: FileCtx, inc: nat)
    ensures ParseFile(s, f, inc).Broken? <==> Breaks(s, f.name)
  {
    if f.name in s.files && Lex(s.custom, s.files[f.name]).Lexed? {
      var tokens := Lex(s.custom, s.files[f.name]).tokens;
      var r, q := BlockAlike(s.env.(file := f.name), tokens, 0, f.ctx, [], false, inc, 0);
    }
  }

  predicate Follows(s: Setup, path: seq<string>, i: nat)
    requires i + 1 < |path|
  {
    path[i + 1] in Children(s, path[i])
  }

  /** Each file of the path includes the next. */
  predicate IsPath(s: Setup, path: seq<string>) {
    path != [] && forall i :: 0 <= i && i + 1 < |path| ==> Follows(s, path, i)
  }

  /** The root includes `name`, directly or through other files, or is it. */
  ghost predicate Reaches(s: Setup, root: string, name: string) {
    exists path :: IsPath(s, path) && path[0] == root && path[|path| - 1] == name
  }

  lemma ReachesNext(s: Setup, root: string, name: string, child: string)
    requires Reaches(s, root, name) && child in Children(s, name)
    ensures Reaches(s, root, child)
  {
    var path :| IsPath(s, path) && path[0] == root && path[|path| - 1] == name;
    LongerPath(s, path, child);
    assert (path + [child])[0] == root && (path + [child])[|path|] == child;
  }

  lemma LongerPath(s: Setup, path: seq<string>, child: string)
    requires IsPath(s, path) && child in Children(s, path[|path| - 1])
    ensures IsPath(s, path + [child])
  {
    var longer := path + [child];
    forall i | 0 <= i && i + 1 < |longer|
      ensures Follows(s, longer, i)
    {
      assert longer[i] == path[i];
      if i + 1 < |path| {
        assert Follows(s, path, i) && longer[i + 1] == path[i + 1];
      }
    }
  }

  ghost predicate FromRoot(s: Setup, root: string, w: Work) {
    forall i :: 0 <= i < |w.includes| ==> Reaches(s, root, w.includes[i].name)
  }

  predicate BreaksAt(s: Setup, w: Work, i: nat)
    requires i < |w.config| <= |w.includes|
  {
    w.config[i].Broken? <==> Breaks(s, w.includes[i].name)
  }

  lemma StepFromRoot(s: Setup, root: string, w: Work)
    requires |w.config| < |w.includes| && FromRoot(s, root, w)
    ensures FromRoot(s, root, Step(s, w))
  {
    var f, inc, v := w.includes[|w.config|], |w.includes|, Step(s, w);
    QueuedAreChildren(s, f, inc);
    forall i | 0 <= i < |v.includes|
      ensures Reaches(s, root, v.includes[i].name)
    {
      if i < inc {
        assert v.includes[i] == w.includes[i];
      } else {
        assert v.includes[i].name == Children(s, f.name)[i - inc];
        ReachesNext(s, root, f.name, v.includes[i].name);
      }
    }
  }

  /** The queue holds files the root reaches, and what breaks is told by the name. */
  lemma {:induction false} AlwaysFromRoot(s: Setup, root: string, k: nat)
    ensures var w := Steps(s, root, k);
      FromRoot(s, root, w) && forall i :: 0 <= i < |w.config| ==> BreaksAt(s, w, i)
  {
    if k == 0 {
      assert IsPath(s, [root]);
    } else {
      AlwaysFromRoot(s, root, k - 1);
      var w := Steps(s, root, k - 1);
      if !w.Finished() {
        StepFromRoot(s, root, w);
        StepBreaks(s, w);
      }
    }
  }

  lemma StepBreaks(s: Setup, w: Work)
    requires |w.config| < |w.includes| && forall i :: 0 <= i < |w.config| ==> BreaksAt(s, w, i)
    ensures forall i :: 0 <= i < |Step(s, w).config| ==> BreaksAt(s, Step(s, w), i)
  {
    BreaksAnywhere(s, w.includes[|w.config|], |w.includes|);
    forall i | 0 <= i < |Step(s, w).config|
      ensures BreaksAt(s, Step(s, w), i)
    {
      assert i < |w.config| ==> BreaksAt(s, w, i);
    }
  }

  /** A finished run has parsed every file the root reaches. */
  lemma {:induction false} PathIsParsed(s: Setup, w: Work, path: seq<string>, m: nat) returns (i: nat)
    requires Spread(s, w) && w.Finished() && w.includes != [] && IsPath(s, path) && m < |path|
    requires path[0] == w.includes[0].name
    ensures i < |w.includes| && w.includes[i].name == path[m]
    decreases m
  {
    i := 0;
    if m > 0 {
      var j := PathIsParsed(s, w, path, m - 1);
      assert Follows(s, path, m - 1);
      var c :| 0 <= c < |Children(s, path[m - 1])| && Children(s, path[m - 1])[c] == path[m];
      assert Behind(w, j, Children(s, w.includes[j].name)[c]);
      i := FoundBehind(w, j, path[m]);
    }
  }

  /** Some file of the run so far breaks it. */
  predicate Broke(w: Work) { exists i :: 0 <= i < |w.config| && w.config[i].Broken? }

  /** The loop comes to its end, and no file breaks it before. */
  ghost predicate Ends(s: Setup, root: string) {
    exists k :: Steps(s, root, k).Finished() && !Broke(Steps(s, root, k))
  }

  /** No file that the root reaches breaks the run. */
  ghost predicate Sound(s: Setup, root: string) { forall name :: Reaches(s, root, name) ==> !Breaks(s, name) }

  lemma SoundNeverBroke(s: Setup, root: string, k: nat)
    requires Sound(s, root)
    ensures !Broke(Steps(s, root, k))
  {
    var w := Steps(s, root, k);
    AlwaysFromRoot(s, root, k);
    forall i | 0 <= i < |w.config|
      ensures !w.config[i].Broken?
    {
      assert BreaksAt(s, w, i) && Reaches(s, root, w.includes[i].name);
    }
  }

  lemma FinishedIsSound(s: Setup, root: string, k: nat)
    requires Steps(s, root, k).Finished() && !Broke(Steps(s, root, k))
    ensures Sound(s, root)
  {
    var w := Steps(s, root, k);
    AlwaysSpread(s, root, k);
    AlwaysFromRoot(s, root, k);
    forall name | Reaches(s, root, name)
      ensures !Breaks(s, name)
    {
      var path :| IsPath(s, path) && path[0] == root && path[|path| - 1] == name;
      var i := PathIsParsed(s, w, path, |path| - 1);
      assert BreaksAt(s, w, i);
    }
  }

  /**
    * The loop ends if and only if the chains of includes are bounded and no file reached breaks it,
    * and then after exactly as many files as the includes unfold to.
    */
  lemma EndsIffBounded(s: Setup, root: string)
    ensures Ends(s, root) <==> HasBound(s, root) && Sound(s, root)
    ensures forall n :: Bounded(s, root, n) ==> Steps(s, root, Size(s, root, n)).Finished()
  {
    forall n | Bounded(s, root, n)
      ensures Steps(s, root, Size(s, root, n)).Finished()
    {
      DoneAtSize(s, root, n, Size(s, root, n));
    }
    if Ends(s, root) {
      var k :| Steps(s, root, k).Finished() && !Broke(Steps(s, root, k));
      EndHasBound(s, root, k);
      FinishedIsSound(s, root, k);
    } else if HasBound(s, root) && Sound(s, root) {
      var n :| Bounded(s, root, n);
      SoundNeverBroke(s, root, Size(s, root, n));
    }
  }

  // ---- Cycles ----

  ghost predicate IncludesOneOf(s: Setup, a: string, names: set<string>) {
    exists i :: 0 <= i < |Children(s, a)| && Children(s, a)[i] in names
  }

  /** Every file of the set includes one of the set. */
  ghost predicate Cyclic(s: Setup, names: set<string>) { forall a <- names :: IncludesOneOf(s, a, names) }

  lemma {:induction false} CyclicIsUnbounded(s: Setup, names: set<string>, a: string, n: nat)
    requires Cyclic(s, names) && a in names
    ensures !Bounded(s, a, n)
    decreases n
  {
    if n > 0 {
      assert IncludesOneOf(s, a, names);
      var i :| 0 <= i < |Children(s, a)| && Children(s, a)[i] in names;
      CyclicIsUnbounded(s, names, Children(s, a)[i], n - 1);
    }
  }

  lemma {:induction false} CommonBound(s: Setup, names: seq<string>) returns (n: nat)
    requires forall i :: 0 <= i < |names| ==> HasBound(s, names[i])
    ensures AllBounded(s, names, n)
    decreases |names|
  {
    n := 0;
    if names != [] {
      var m := CommonBound(s, names[1..]);
      assert HasBound(s, names[0]);
      var k :| Bounded(s, names[0], k);
      n := if m < k then k else m;
      forall i | 0 <= i < |names|
        ensures Bounded(s, names[i], n)
      {
        assert i > 0 ==> names[i] == names[1..][i - 1];
        BoundedUpTo(s, names[i], if i == 0 then k else m, n);
      }
    }
  }

  /** The files without a bound include one another. */
  lemma UnboundedIsCyclic(s: Setup) returns (names: set<string>)
    ensures Cyclic(s, names)
    ensures forall a :: a in names <==> !HasBound(s, a)
  {
    forall a | a !in s.files
      ensures HasBound(s, a)
    {
      assert Children(s, a) == [];
      assert Bounded(s, a, 1);
    }
    names := set a | a in s.files && !HasBound(s, a);
    forall a | a in names
      ensures IncludesOneOf(s, a, names)
    {
      if forall i :: 0 <= i < |Children(s, a)| ==> Children(s, a)[i] !in names {
        var n := CommonBound(s, Children(s, a));
        assert Bounded(s, a, n + 1);
      }
    }
  }

  /**
    * The loop ends if and only if the root is in no set of files that include one another, and no
    * file it reaches breaks the run.
    */
  lemma EndsIffAcyclic(s: Setup, root: string)
    ensures Ends(s, root) <==> Sound(s, root) && !exists names :: Cyclic(s, names) && root in names
  {
    EndsIffBounded(s, root);
    var unbounded := UnboundedIsCyclic(s);
    if names :| Cyclic(s, names) && root in names {
      forall n
        ensures !Bounded(s, root, n)
      {
        CyclicIsUnbounded(s, names, root, n);
      }
    }
  }

  // ---- The source's own form ----

  /** Opens, lexes, balances and parses one file; the queue grows by what it includes. */
  method ParseInclude(s: Setup, f: FileCtx, queue: seq<FileCtx>) returns (o: FileOutcome, includes: seq<FileCtx>)
    ensures o == ParseFile(s, f, |queue|) && ComesFrom(s, f, |queue|, o)
    ensures !o.Broken? ==> includes == queue + Queued(o)
  {
    includes := queue;
    ParseFileComes(s, f, |queue|);
    if f.name !in s.files {
      return Failed, includes;
    }
    var lexer := new Lexer(s.files[f.name], s.custom);
    var lexed := lexer.Scan();
    if !lexed.Lexed? {
      return Broken, includes;
    }
    var balance := BalanceBraces(lexed.tokens);
    if !balance.Balanced? {
      return Failed, includes;
    }
    var parsing := new Parsing(s.env.(file := f.name), queue);
    var it := new TokenIter(lexed.tokens);
    var stmts := parsing.ParseInternal(it, f.ctx, false);
    if stmts.None? {
      return Broken, includes;
    }
    includes := parsing.includes;
    o := Parsed(stmts.value, includes[|queue|..], parsing.log);
  }

  /** One turn of the loop: the file at the cursor is parsed. */
  method ParseNext(s: Setup, w: Work) returns (v: Work)
    requires |w.config| < |w.includes|
    ensures v.config == Step(s, w).config && (!v.config[|w.config|].Broken? ==> v == Step(s, w))
  {
    var o, includes := ParseInclude(s, w.includes[|w.config|], w.includes);
    v := Work(includes, w.config + [o]);
  }

  lemma NextIsStep(s: Setup, root: string, n: nat, w: Work)
    requires Bounded(s, root, n) && |w.config| <= Size(s, root, n) && w == Steps(s, root, |w.config|)
    requires |w.config| < |w.includes|
    ensures |w.config| < Size(s, root, n) && Step(s, w) == Steps(s, root, |w.config| + 1)
    ensures |Step(s, w).config| == |w.config| + 1
  {
    DoneAtSize(s, root, n, |w.config|);
  }

  /** The end of the run, reached after as many files as the includes unfold to. */
  ghost predicate Completed(s: Setup, root: string, n: nat, w: Work) {
    Bounded(s, root, n) && w == Steps(s, root, Size(s, root, n)) && w.Finished() && Wired(w)
  }

  lemma EndIs(s: Setup, root: string, n: nat, w: Work)
    requires Bounded(s, root, n) && |w.config| <= Size(s, root, n) && w == Steps(s, root, |w.config|)
    requires |w.config| >= |w.includes| && !Broke(w)
    ensures Completed(s, root, n, w) && Sound(s, root)
  {
    DoneAtSize(s, root, n, |w.config|);
    FinishedIsSound(s, root, |w.config|);
    AlwaysWired(s, root, |w.config|);
  }

  lemma BrokeStep(s: Setup, w: Work)
    requires |w.config| < |w.includes| && !Broke(w)
    ensures Broke(Step(s, w)) <==> Step(s, w).config[|w.config|].Broken?
  {
    assert forall i :: 0 <= i < |w.config| ==> Step(s, w).config[i] == w.config[i];
  }

  lemma BrokeIsUnsound(s: Setup, root: string, k: nat)
    requires Broke(Steps(s, root, k))
    ensures !Sound(s, root)
  {
    if Sound(s, root) {
      SoundNeverBroke(s, root, k);
    }
  }

  /** The loop of parse, on includes of bounded depth: none exactly when a file reached breaks it. */
  method Parse(s: Setup, root: string, ghost n: nat) returns (r: Option<Work>)
    requires Bounded(s, root, n)
    ensures r.Some? <==> Sound(s, root)
    ensures r.Some? ==> Completed(s, root, n, r.value)
  {
    var w := Work([FileCtx(root, [])], []);
    assert Steps(s, root, 0) == w;
    while |w.config| < |w.includes|
      invariant |w.config| <= Size(s, root, n) && w == Steps(s, root, |w.config|) && !Broke(w)
      decreases Size(s, root, n) - |w.config|
    {
      NextIsStep(s, root, n, w);
      ghost var before := w;
      w := ParseNext(s, w);
      BrokeStep(s, before);
      if w.config[|w.config| - 1].Broken? {
        BrokeIsUnsound(s, root, |w.config|);
        return None;
      }
    }
    EndIs(s, root, n, w);
    r := Some(w);
  }
}
