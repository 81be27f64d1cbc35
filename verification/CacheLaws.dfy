/** What the cache holds, whose handles, and how often they were used, over all runs. */
module CacheLaws {
  import opened Common
  import opened FileCacheSpec
  import opened FileCacheFacts

  // ---- Which paths are cached ----

  lemma {:induction false} LessHolds(ps: seq<string>, p: string, q: string)
    ensures q in Less(ps, p) <==> q in ps && q != p
    decreases |ps|
  {
    if ps != [] {
      LessHolds(ps[1..], p, q);
      assert q in ps <==> q == ps[0] || q in ps[1..];
    }
  }

  lemma {:induction false} LessAllHolds(ps: seq<string>, keys: seq<string>, q: string)
    ensures q in LessAll(ps, keys) <==> q in ps && q !in keys
    decreases |keys|
  {
    if keys != [] {
      LessHolds(ps, keys[0], q);
      LessAllHolds(Less(ps, keys[0]), keys[1..], q);
      assert q in keys <==> q == keys[0] || q in keys[1..];
    }
  }

  predicate PutsIn(op: Op, p: string) { op.Put? && op.path == p && op.file.Some? }

  /** The operation makes room by giving up path `p`: a new path comes, the cache is full, `p` is last. */
  predicate GivesUp(max: int, ps: seq<string>, op: Op, p: string) {
    && op.Put? && op.file.Some? && op.path !in ps
    && |ps| >= max && ps != [] && p == ps[|ps| - 1]
  }

  /** Whether a path is cached after an operation, from the recency list before it. */
  predicate Stays(max: int, ps: seq<string>, op: Op, p: string) {
    p in ps && !op.Close? && !(op.Delete? && p in op.keys) && !GivesUp(max, ps, op, p)
  }

  lemma TrimmedHolds(max: int, ps: seq<string>, p: string)
    requires AllDistinct(ps)
    ensures p in Trimmed(max, ps) <==> p in ps && !(|ps| >= max && p == ps[|ps| - 1])
  {
    if |ps| >= max && ps != [] {
      assert ps == ps[..|ps| - 1] + [ps[|ps| - 1]];
      assert p in ps[..|ps| - 1] ==> p != ps[|ps| - 1];
    }
  }

  lemma TouchedHolds(ps: seq<string>, q: string, p: string)
    ensures p in Touched(ps, q) <==> p in ps
  {
    LessHolds(ps, q, p);
  }

  /**
    * A path is cached after an operation if and only if it was put in by it, or was cached before
    * and neither closed, deleted nor last in a full cache that a new path is put in.
    */
  lemma CachedIff(max: int, c: Cache, op: Op, p: string)
    requires Distinct(c.entries)
    ensures var ps := Paths(c.entries);
      p in Paths(Apply(max, c, op).entries) <==> PutsIn(op, p) || Stays(max, ps, op, p)
  {
    var ps := Paths(c.entries);
    PathsApply(max, c, op);
    DistinctPaths(c.entries);
    match op {
      case Get(q) => TouchedHolds(ps, q, p);
      case Put(q, _) =>
        TouchedHolds(ps, q, p);
        TrimmedHolds(max, ps, p);
      case Delete(keys) => LessAllHolds(ps, keys, p);
      case Close =>
    }
  }

  // ---- Whose handle ----

  /** The handle of the last successful `Put` of a path. */
  function LastPut(ops: seq<Op>, p: string): Option<Handle> {
    if ops == [] then None
    else
      var op := ops[|ops| - 1];
      if PutsIn(op, p) then op.file else LastPut(ops[..|ops| - 1], p)
  }

  lemma {:induction false} WithoutEntries(es: seq<Entry>, p: string)
    requires Distinct(es)
    ensures forall e <- Without(es, p) :: e in es && e.path != p
    decreases |es|
  {
    if es != [] {
      assert forall e <- es[1..] :: e in es && e.path != es[0].path;
      assert forall k :: 0 <= k < |es[1..]| ==> es[1..][k] == es[k + 1];
      WithoutEntries(es[1..], p);
    }
  }

  lemma {:induction false} DeletedAllEntries(max: int, c: Cache, keys: seq<string>)
    requires WellKept(max, c)
    ensures forall e <- DeletedAll(c, keys).entries :: e in c.entries
    decreases |keys|
  {
    if keys != [] {
      WithoutEntries(c.entries, keys[0]);
      DeletedKeeps(max, c, keys[0]);
      DeletedAllEntries(max, Deleted(c, keys[0]), keys[1..]);
    }
  }

  /** An entry after an operation was there before, or is what the operation put in. */
  lemma EntriesAfter(max: int, c: Cache, op: Op, e: Entry)
    requires WellKept(max, c) && e in Apply(max, c, op).entries
    ensures if PutsIn(op, e.path) then op.file == Some(e.file) else e in c.entries
  {
    match op {
      case Get(q) => WithoutEntries(c.entries, q);
      case Put(q, file) =>
        if file.Some? {
          StoredEntries(max, c, q, file.value, e);
        }
      case Delete(keys) => DeletedAllEntries(max, c, keys);
      case Close =>
    }
  }

  lemma StoredEntries(max: int, c: Cache, q: string, file: Handle, e: Entry)
    requires WellKept(max, c) && e in Stored(max, c, q, file).entries
    ensures if e.path == q then e.file == file else e in c.entries
  {
    WithoutEntries(c.entries, q);
    HasIff(c.entries, q);
    if !Has(c.entries, q) && |c.entries| >= max && c.entries != [] {
      WithoutEntries(c.entries, c.entries[|c.entries| - 1].path);
    }
  }

  /** At all times a cached path has the handle of its last `Put`, so that this is what `Get` returns. */
  lemma {:induction false} CachedIsLastPut(max: int, ops: seq<Op>)
    ensures forall e <- Run(max, ops).entries :: LastPut(ops, e.path) == Some(e.file)
    decreases |ops|
  {
    if ops != [] {
      var before, op := ops[..|ops| - 1], ops[|ops| - 1];
      CachedIsLastPut(max, before);
      AlwaysWellKept(max, before);
      forall e <- Run(max, ops).entries
        ensures LastPut(ops, e.path) == Some(e.file)
      {
        EntriesAfter(max, Run(max, before), op, e);
      }
    }
  }

  // ---- How often it was used ----

  /** The operation is a use of path `p`, cached or not before it. */
  predicate UsesPath(op: Op, cached: bool, p: string) { (op.Get? && op.path == p && cached) || PutsIn(op, p) }

  predicate Cached(max: int, ops: seq<Op>, p: string) { p in Paths(Run(max, ops).entries) }

  /** The uses of a path since it was last dropped; closing the cache drops no counts. */
  function UseCount(max: int, ops: seq<Op>, p: string): nat {
    if ops == [] then 0
    else
      var before, op := ops[..|ops| - 1], ops[|ops| - 1];
      var was := Cached(max, before, p);
      if UsesPath(op, was, p) then UseCount(max, before, p) + 1
      else if was && !Cached(max, ops, p) && !op.Close? then 0
      else UseCount(max, before, p)
  }

  /** `uses` says `n` of path `p`. */
  predicate Says(uses: map<string, int>, p: string, n: nat) { if p in uses then uses[p] == n && n > 0 else n == 0 }

  lemma {:induction false} DeletedAllSays(max: int, c: Cache, keys: seq<string>, p: string, n: nat)
    requires WellKept(max, c) && Says(c.uses, p, n)
    ensures Says(DeletedAll(c, keys).uses, p, if p in keys && Has(c.entries, p) then 0 else n)
    decreases |keys|
  {
    if keys != [] {
      var d := Deleted(c, keys[0]);
      DeletedKeeps(max, c, keys[0]);
      WithoutKeeps(c.entries, keys[0]);
      DeletedHas(c, keys[0], p);
      assert p in keys <==> p == keys[0] || p in keys[1..];
      DeletedAllSays(max, d, keys[1..], p, if p == keys[0] && Has(c.entries, p) then 0 else n);
    }
  }

  lemma DeletedHas(c: Cache, q: string, p: string)
    requires Distinct(c.entries)
    ensures Has(Deleted(c, q).entries, p) <==> Has(c.entries, p) && p != q
  {
    PathsDeleted(c, q);
    HasPath(c.entries, p);
    HasPath(Deleted(c, q).entries, p);
    LessHolds(Paths(c.entries), q, p);
  }

  lemma StoredSays(max: int, c: Cache, q: string, file: Handle, p: string, n: nat)
    requires WellKept(max, c) && Says(c.uses, p, n)
    ensures Says(Stored(max, c, q, file).uses, p,
                 if p == q then n + 1
                 else if Has(c.entries, p) && GivesUp(max, Paths(c.entries), Put(q, Some(file)), p) then 0
                 else n)
  {
    HasPath(c.entries, q);
    HasPath(c.entries, p);
    var m := |c.entries|;
    if m > 0 {
      HasPath(c.entries, c.entries[m - 1].path);
      assert Paths(c.entries)[m - 1] == c.entries[m - 1].path;
    }
  }

  lemma SaysAfter(max: int, c: Cache, op: Op, p: string, n: nat)
    requires WellKept(max, c) && Says(c.uses, p, n)
    ensures var was, still := p in Paths(c.entries), p in Paths(Apply(max, c, op).entries);
      Says(Apply(max, c, op).uses, p,
           if UsesPath(op, was, p) then n + 1 else if was && !still && !op.Close? then 0 else n)
  {
    HasPath(c.entries, p);
    CachedIff(max, c, op, p);
    match op {
      case Get(q) => HasPath(c.entries, q);
      case Put(q, file) =>
        if file.Some? {
          StoredSays(max, c, q, file.value, p, n);
        }
      case Delete(keys) => DeletedAllSays(max, c, keys, p, n);
      case Close =>
    }
  }

  /** At all times the use map has the paths used since they were last dropped, with the number of uses. */
  lemma {:induction false} UsesAreCounted(max: int, ops: seq<Op>, p: string)
    ensures Says(Run(max, ops).uses, p, UseCount(max, ops, p))
    decreases |ops|
  {
    if ops != [] {
      var before, op := ops[..|ops| - 1], ops[|ops| - 1];
      UsesAreCounted(max, before, p);
      AlwaysWellKept(max, before);
      SaysAfter(max, Run(max, before), op, p, UseCount(max, before, p));
    }
  }
}
