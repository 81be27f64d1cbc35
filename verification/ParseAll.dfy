/** config_parse.go: a run from the root file to the combined configuration. */
module CombinedParse {
  import opened Common
  import opened ConfigLex
  import opened ConfigTree
  import opened ConfigParse
  import opened IncludeWorklist
  import opened CombinedConfig
  import opened CombinedFacts

  // ---- What came of each file ----

  /**
    * At every point of every run, what is recorded for a file is told from its text, its place and
    * context in the queue, and the length of the queue when its turn came.
    */
  lemma EntriesAre(s: Setup, root: string, k: nat, i: nat)
    requires i < |Steps(s, root, k).config|
    ensures var w := Steps(s, root, k); ComesFrom(s, w.includes[i], Base(w.config, i), w.config[i])
  {
    var w := Steps(s, root, k);
    AlwaysRecorded(s, root, k);
    assert RecordedAt(s, w, i);
    ParseFileComes(s, w.includes[i], Base(w.config, i));
  }

  /** In a finished run a file failed if and only if the root reaches one that cannot be read. */
  lemma SomeFailedIff(s: Setup, root: string, k: nat)
    requires Steps(s, root, k).Finished() && !Broke(Steps(s, root, k))
    ensures (exists i :: 0 <= i < |Steps(s, root, k).config| && !Steps(s, root, k).config[i].Parsed?)
       <==> exists name :: Reaches(s, root, name) && Unreadable(s, name)
  {
    var w := Steps(s, root, k);
    AlwaysFromRoot(s, root, k);
    AlwaysSpread(s, root, k);
    forall i | 0 <= i < |w.config| && !w.config[i].Parsed?
      ensures Reaches(s, root, w.includes[i].name) && Unreadable(s, w.includes[i].name)
    {
      EntriesAre(s, root, k, i);
    }
    forall name | Reaches(s, root, name) && Unreadable(s, name)
      ensures exists i :: 0 <= i < |w.config| && !w.config[i].Parsed?
    {
      var path :| IsPath(s, path) && path[0] == root && path[|path| - 1] == name;
      var i := PathIsParsed(s, w, path, |path| - 1);
      EntriesAre(s, root, k, i);
    }
  }

  // ---- The errors ----

  /** Place `b` comes behind place `a`: in a later file, or later in the same. */
  predicate Later(a: (nat, nat), b: (nat, nat)) { a.0 < b.0 || (a.0 == b.0 && a.1 < b.1) }

  /** Event `at.1` of file `at.0`. */
  predicate EventAt(config: seq<FileOutcome>, at: (nat, nat), e: Event) {
    at.0 < |config| && config[at.0].Parsed? && at.1 < |config[at.0].log| && config[at.0].log[at.1] == e
  }

  /** `errors` are the events at the places `at`, file after file, and no other event fails. */
  ghost predicate ErrorsAt(fails: Event -> bool, config: seq<FileOutcome>, errors: seq<Event>, at: seq<(nat, nat)>) {
    && |at| == |errors|
    && (forall k :: 0 <= k < |at| ==> EventAt(config, at[k], errors[k]) && fails(errors[k]))
    && (forall j, k :: 0 <= j < k < |at| ==> Later(at[j], at[k]))
    && (forall i: nat, m: nat, e :: EventAt(config, (i, m), e) && fails(e) ==> (i, m) in at)
  }

  /** The same of one log, as part of file `i`. */
  ghost predicate FailingAt(fails: Event -> bool, log: seq<Event>, i: nat, some: seq<Event>, at: seq<(nat, nat)>) {
    && |at| == |some|
    && (forall k :: 0 <= k < |at| ==> at[k].0 == i && at[k].1 < |log| && log[at[k].1] == some[k] && fails(some[k]))
    && (forall j, k :: 0 <= j < k < |at| ==> at[j].1 < at[k].1)
    && (forall m :: 0 <= m < |log| && fails(log[m]) ==> (i, m) in at)
  }

  lemma {:induction false} FailingOneMore(fails: Event -> bool, log: seq<Event>, e: Event)
    ensures Failing(fails, log + [e]) == Failing(fails, log) + if fails(e) then [e] else []
    decreases |log|
  {
    if log == [] {
      assert [] + [e] == [e] && [e][1..] == [];
    } else {
      assert (log + [e])[1..] == log[1..] + [e];
      FailingOneMore(fails, log[1..], e);
    }
  }

  lemma FailingGrows(fails: Event -> bool, log: seq<Event>, e: Event, i: nat, some: seq<Event>, at: seq<(nat, nat)>)
    requires FailingAt(fails, log, i, some, at)
    ensures if fails(e) then FailingAt(fails, log + [e], i, some + [e], at + [(i, |log|)])
            else FailingAt(fails, log + [e], i, some, at)
  {
    var longer := at + [(i, |log|)];
    assert forall p :: p in longer <==> p in at || p == (i, |log|);
  }

  lemma {:induction false} FailingIs(fails: Event -> bool, log: seq<Event>, i: nat) returns (at: seq<(nat, nat)>)
    ensures FailingAt(fails, log, i, Failing(fails, log), at)
    decreases |log|
  {
    at := [];
    if log != [] {
      var n := |log| - 1;
      at := FailingIs(fails, log[..n], i);
      FailingOneMore(fails, log[..n], log[n]);
      FailingGrows(fails, log[..n], log[n], i, Failing(fails, log[..n]), at);
      assert log == log[..n] + [log[n]];
      if fails(log[n]) {
        at := at + [(i, n)];
      }
    }
  }

  lemma ErrorsGrow(fails: Event -> bool, config: seq<FileOutcome>, o: FileOutcome, errors: seq<Event>,
                   at: seq<(nat, nat)>, some: seq<Event>, own: seq<(nat, nat)>)
    requires ErrorsAt(fails, config, errors, at)
    requires if o.Parsed? then FailingAt(fails, o.log, |config|, some, own) else some == [] && own == []
    ensures ErrorsAt(fails, config + [o], errors + some, at + own)
  {
    var longer, all := config + [o], at + own;
    forall k | 0 <= k < |all|
      ensures EventAt(longer, all[k], (errors + some)[k]) && fails((errors + some)[k])
    {
      assert k < |at| ==> EventAt(config, at[k], errors[k]);
    }
    forall j, k | 0 <= j < k < |all|
      ensures Later(all[j], all[k])
    {
      assert j < |at| ==> EventAt(config, at[j], errors[j]);
    }
    forall i: nat, m: nat, e | EventAt(longer, (i, m), e) && fails(e)
      ensures (i, m) in all
    {
      if i < |config| {
        assert EventAt(config, (i, m), e);
      }
    }
  }

  /** The errors of a run are the events that fail, each once, file after file and in order. */
  lemma {:induction false} ErrorsAre(fails: Event -> bool, config: seq<FileOutcome>) returns (at: seq<(nat, nat)>)
    ensures ErrorsAt(fails, config, AllErrors(fails, config), at)
    decreases |config|
  {
    at := [];
    if config != [] {
      var n := |config| - 1;
      var o, own := config[n], [];
      at := ErrorsAre(fails, config[..n]);
      if o.Parsed? {
        own := FailingIs(fails, o.log, n);
      }
      ErrorsGrow(fails, config[..n], o, AllErrors(fails, config[..n]), at,
                 if o.Parsed? then Failing(fails, o.log) else [], own);
      assert config == config[..n] + [o];
      at := at + own;
    }
  }

  // ---- parse, with files combined ----

  /**
    * On includes of bounded depth: nothing comes back if and only if the root reaches a file that
    * breaks the run or cannot be read; otherwise the root with all includes inlined, the errors of
    * all files, and the status they make.
    */
  method ParseCombined(s: Setup, root: string, fails: Event -> bool, ghost n: nat)
    returns (r: Option<Combination>, ghost w: Work)
    requires Bounded(s, root, n)
    ensures r.None? <==> exists name :: Reaches(s, root, name) && (Breaks(s, name) || Unreadable(s, name))
    ensures r.Some? ==>
      && Completed(s, root, n, w)
      && r.value.stmts == InlineFile(s, root, n)
      && r.value.failed == (r.value.errors != [])
      && exists at :: ErrorsAt(fails, w.config, r.value.errors, at)
  {
    var run := Parse(s, root, n);
    w := Begin(root);
    if run.None? {
      return None, w;
    }
    w := run.value;
    r := CombineParsedConfig(run.value, fails);
    ghost var k := Size(s, root, n);
    SoundNeverBroke(s, root, k);
    SomeFailedIff(s, root, k);
    if r.Some? {
      CombiningIsInlining(s, root, k, n);
      ghost var at := ErrorsAre(fails, w.config);
    }
  }
}
