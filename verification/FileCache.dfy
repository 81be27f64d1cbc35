/** read_writer_closer_cache.go: the cache of open files, on values. */
module FileCacheSpec {
  import opened Common

  type Handle = nat

  datatype Entry = Entry(path: string, file: Handle)

  /** The entries, most recently used first, the use counts, and the handles closed so far. */
  datatype Cache = Cache(entries: seq<Entry>, uses: map<string, int>, closed: seq<Handle>)

  /** A call. A `Put` carries the handle its opener returned, if any. */
  datatype Op = Get(path: string) | Put(path: string, file: Option<Handle>) | Delete(keys: seq<string>) | Close

  function Find(es: seq<Entry>, path: string): (i: nat)
    ensures i <= |es| && (i < |es| ==> es[i].path == path) && forall k :: 0 <= k < i ==> es[k].path != path
  {
    if es == [] || es[0].path == path then 0 else 1 + Find(es[1..], path)
  }

  predicate Has(es: seq<Entry>, path: string) { Find(es, path) < |es| }

  function Without(es: seq<Entry>, path: string): seq<Entry> {
    if es == [] then [] else if es[0].path == path then es[1..] else [es[0]] + Without(es[1..], path)
  }

  function Hit(uses: map<string, int>, path: string): map<string, int> {
    uses[path := if path in uses then uses[path] + 1 else 1]
  }

  function Got(c: Cache, path: string): Cache {
    if !Has(c.entries, path) then c
    else c.(entries := [c.entries[Find(c.entries, path)]] + Without(c.entries, path), uses := Hit(c.uses, path))
  }

  /** deleteUnsafe on the entry of a path, if there is one. */
  function Deleted(c: Cache, path: string): Cache {
    if !Has(c.entries, path) then c
    else Cache(Without(c.entries, path), c.uses - {path}, c.closed + [c.entries[Find(c.entries, path)].file])
  }

  function DeletedAll(c: Cache, keys: seq<string>): Cache
    decreases |keys|
  {
    if keys == [] then c else DeletedAll(Deleted(c, keys[0]), keys[1..])
  }

  /** Makes room by dropping the least recently used entry, if the cache is full. */
  function Evicted(max: int, c: Cache): Cache {
    if |c.entries| >= max && c.entries != [] then Deleted(c, c.entries[|c.entries| - 1].path) else c
  }

  function Stored(max: int, c: Cache, path: string, file: Handle): Cache {
    var d := if Has(c.entries, path) then
      var was := c.entries[Find(c.entries, path)];
      c.(entries := [Entry(path, file)] + Without(c.entries, path), closed := c.closed + [was.file])
    else
      var e := Evicted(max, c); e.(entries := [Entry(path, file)] + e.entries);
    d.(uses := Hit(d.uses, path))
  }

  function Files(es: seq<Entry>): seq<Handle> { seq(|es|, i requires 0 <= i < |es| => es[i].file) }

  function Apply(max: int, c: Cache, op: Op): Cache {
    match op
    case Get(path) => Got(c, path)
    case Put(path, file) => if file.None? then c else Stored(max, c, path, file.value)
    case Delete(keys) => DeletedAll(c, keys)
    case Close => Cache([], c.uses, c.closed + Files(c.entries))
  }

  function Empty(): Cache { Cache([], map[], []) }

  function Run(max: int, ops: seq<Op>): Cache {
    if ops == [] then Empty() else Apply(max, Run(max, ops[..|ops| - 1]), ops[|ops| - 1])
  }
}

/** What holds of the cache over all runs. */
module FileCacheFacts {
  import opened Common
  import opened FileCacheSpec

  predicate Distinct(es: seq<Entry>) { forall i, j :: 0 <= i < j < |es| ==> es[i].path != es[j].path }

  predicate WellKept(max: int, c: Cache) {
    Distinct(c.entries) && |c.entries| <= (if max < 1 then 1 else max)
  }

  lemma {:induction false} WithoutKeeps(es: seq<Entry>, path: string)
    requires Distinct(es)
    ensures Distinct(Without(es, path)) && !Has(Without(es, path), path)
    ensures |Without(es, path)| == if Has(es, path) then |es| - 1 else |es|
    ensures forall p :: Has(Without(es, path), p) ==> Has(es, p)
    decreases |es|
  {
    if es != [] {
      if es[0].path == path {
        HasIff(es[1..], path);
        assert forall k :: 0 <= k < |es[1..]| ==> es[1..][k] == es[k + 1];
        forall p | Has(es[1..], p)
          ensures Has(es, p)
        {
        }
      } else {
        var rest := Without(es[1..], path);
        WithoutKeeps(es[1..], path);
        HasIff(es[1..], es[0].path);
        assert forall k :: 0 <= k < |es[1..]| ==> es[1..][k] == es[k + 1];
        assert !Has(es[1..], es[0].path) && !Has(rest, es[0].path);
        FrontKeeps(es[0], rest);
        HasFront(es[0], rest);
      }
    }
  }

  lemma HasFront(e: Entry, es: seq<Entry>)
    ensures forall p :: Has([e] + es, p) <==> p == e.path || Has(es, p)
  {
    assert ([e] + es)[1..] == es;
  }

  /** The entry taken out is the one found. */
  lemma {:induction false} WithoutCuts(es: seq<Entry>, path: string)
    ensures var i := Find(es, path);
      Without(es, path) == if i < |es| then es[..i] + es[i + 1..] else es
    decreases |es|
  {
    if es != [] && es[0].path != path {
      WithoutCuts(es[1..], path);
      var i := Find(es[1..], path);
      assert es == [es[0]] + es[1..];
      if i < |es[1..]| {
        assert es[..i + 1] == [es[0]] + es[1..][..i] && es[i + 2..] == es[1..][i + 1..];
      }
    }
  }

  lemma HasIff(es: seq<Entry>, p: string)
    ensures Has(es, p) <==> exists k :: 0 <= k < |es| && es[k].path == p
  {
  }

  // ---- Every opened handle is cached once, or was closed once ----

  function Times(h: Handle, s: seq<Handle>): nat {
    if s == [] then 0 else Times(h, s[..|s| - 1]) + if s[|s| - 1] == h then 1 else 0
  }

  lemma {:induction false} TimesAppend(h: Handle, a: seq<Handle>, b: seq<Handle>)
    ensures Times(h, a + b) == Times(h, a) + Times(h, b)
    decreases |b|
  {
    if b == [] {
      assert a + b == a;
    } else {
      assert (a + b)[..|a + b| - 1] == a + b[..|b| - 1];
      TimesAppend(h, a, b[..|b| - 1]);
    }
  }

  lemma TimesOne(h: Handle, x: Handle)
    ensures Times(h, [x]) == if x == h then 1 else 0
  {
    assert [x][..0] == [];
  }

  /** How often a handle is held by the cache or was closed. */
  function Held(h: Handle, c: Cache): nat { Times(h, Files(c.entries)) + Times(h, c.closed) }

  lemma FilesAppend(h: Handle, a: seq<Entry>, b: seq<Entry>)
    ensures Times(h, Files(a + b)) == Times(h, Files(a)) + Times(h, Files(b))
  {
    assert Files(a + b) == Files(a) + Files(b);
    TimesAppend(h, Files(a), Files(b));
  }

  lemma FilesOne(h: Handle, e: Entry)
    ensures Times(h, Files([e])) == if e.file == h then 1 else 0
  {
    assert Files([e]) == [e.file];
    TimesOne(h, e.file);
  }

  /** Taking an entry out takes its handle out once. */
  lemma WithoutFiles(h: Handle, es: seq<Entry>, path: string)
    requires Has(es, path)
    ensures Times(h, Files(es)) == Times(h, Files(Without(es, path))) + if es[Find(es, path)].file == h then 1 else 0
  {
    var i := Find(es, path);
    WithoutCuts(es, path);
    assert es == es[..i] + ([es[i]] + es[i + 1..]);
    FilesAppend(h, es[..i], [es[i]] + es[i + 1..]);
    FilesAppend(h, [es[i]], es[i + 1..]);
    FilesAppend(h, es[..i], es[i + 1..]);
    FilesOne(h, es[i]);
  }

  lemma DeletedHolds(h: Handle, c: Cache, path: string)
    ensures Held(h, Deleted(c, path)) == Held(h, c)
  {
    if Has(c.entries, path) {
      var x := c.entries[Find(c.entries, path)].file;
      WithoutFiles(h, c.entries, path);
      TimesAppend(h, c.closed, [x]);
      TimesOne(h, x);
    }
  }

  lemma {:induction false} DeletedAllHolds(h: Handle, c: Cache, keys: seq<string>)
    ensures Held(h, DeletedAll(c, keys)) == Held(h, c)
    decreases |keys|
  {
    if keys != [] {
      DeletedHolds(h, c, keys[0]);
      DeletedAllHolds(h, Deleted(c, keys[0]), keys[1..]);
    }
  }

  lemma GotHolds(h: Handle, c: Cache, path: string)
    ensures Held(h, Got(c, path)) == Held(h, c)
  {
    if Has(c.entries, path) {
      var e := c.entries[Find(c.entries, path)];
      WithoutFiles(h, c.entries, path);
      FilesAppend(h, [e], Without(c.entries, path));
      FilesOne(h, e);
    }
  }

  lemma StoredHolds(h: Handle, max: int, c: Cache, path: string, file: Handle)
    ensures Held(h, Stored(max, c, path, file)) == Held(h, c) + if file == h then 1 else 0
  {
    FilesOne(h, Entry(path, file));
    if Has(c.entries, path) {
      var x := c.entries[Find(c.entries, path)].file;
      WithoutFiles(h, c.entries, path);
      FilesAppend(h, [Entry(path, file)], Without(c.entries, path));
      TimesAppend(h, c.closed, [x]);
      TimesOne(h, x);
    } else {
      var e := Evicted(max, c);
      if e != c {
        DeletedHolds(h, c, c.entries[|c.entries| - 1].path);
      }
      FilesAppend(h, [Entry(path, file)], e.entries);
    }
  }

  /** The handles that openers returned, in order. */
  function Opened(ops: seq<Op>): seq<Handle> {
    if ops == [] then []
    else
      var op := ops[|ops| - 1];
      Opened(ops[..|ops| - 1]) + if op.Put? && op.file.Some? then [op.file.value] else []
  }

  /** Over every run each opened handle is held as often as it was opened: cached or closed. */
  lemma {:induction false} HandlesAreConserved(h: Handle, max: int, ops: seq<Op>)
    ensures Held(h, Run(max, ops)) == Times(h, Opened(ops))
    decreases |ops|
  {
    if ops != [] {
      var before, op := ops[..|ops| - 1], ops[|ops| - 1];
      var c := Run(max, before);
      HandlesAreConserved(h, max, before);
      match op {
        case Get(path) => GotHolds(h, c, path);
        case Put(path, file) =>
          if file.Some? {
            StoredHolds(h, max, c, path, file.value);
            TimesAppend(h, Opened(before), [file.value]);
            TimesOne(h, file.value);
          }
        case Delete(keys) => DeletedAllHolds(h, c, keys);
        case Close => TimesAppend(h, c.closed, Files(c.entries));
      }
      assert !(op.Put? && op.file.Some?) ==> Opened(before) + [] == Opened(before);
    }
  }

  /** With distinct handles a handle is, at any time, cached once and open, or closed once; or not opened. */
  lemma NothingLeaksOrClosesTwice(h: Handle, max: int, ops: seq<Op>)
    requires Times(h, Opened(ops)) <= 1
    ensures var c := Run(max, ops);
      && Times(h, Files(c.entries)) + Times(h, c.closed) == Times(h, Opened(ops))
      && (Times(h, Opened(ops)) == 1 ==> (Times(h, Files(c.entries)) == 1) != (Times(h, c.closed) == 1))
  {
    HandlesAreConserved(h, max, ops);
  }

  // ---- Distinct paths, bounded size ----

  lemma DeletedKeeps(max: int, c: Cache, path: string)
    requires WellKept(max, c)
    ensures WellKept(max, Deleted(c, path)) && |Deleted(c, path).entries| <= |c.entries|
    ensures Has(c.entries, path) ==> |Deleted(c, path).entries| < |c.entries|
    ensures forall p :: Has(Deleted(c, path).entries, p) ==> Has(c.entries, p)
  {
    WithoutKeeps(c.entries, path);
  }

  lemma {:induction false} DeletedAllKeeps(max: int, c: Cache, keys: seq<string>)
    requires WellKept(max, c)
    ensures WellKept(max, DeletedAll(c, keys))
    decreases |keys|
  {
    if keys != [] {
      DeletedKeeps(max, c, keys[0]);
      DeletedAllKeeps(max, Deleted(c, keys[0]), keys[1..]);
    }
  }

  lemma FrontKeeps(e: Entry, es: seq<Entry>)
    requires Distinct(es) && !Has(es, e.path)
    ensures Distinct([e] + es)
  {
    HasIff(es, e.path);
  }

  lemma ApplyKeeps(max: int, c: Cache, op: Op)
    requires WellKept(max, c)
    ensures WellKept(max, Apply(max, c, op))
  {
    match op {
      case Get(path) =>
        if Has(c.entries, path) {
          WithoutKeeps(c.entries, path);
          FrontKeeps(c.entries[Find(c.entries, path)], Without(c.entries, path));
        }
      case Put(path, file) =>
        if file.Some? {
          WithoutKeeps(c.entries, path);
          if Has(c.entries, path) {
            FrontKeeps(Entry(path, file.value), Without(c.entries, path));
          } else {
            EvictedKeeps(max, c);
            FrontKeeps(Entry(path, file.value), Evicted(max, c).entries);
          }
        }
      case Delete(keys) => DeletedAllKeeps(max, c, keys);
      case Close =>
    }
  }

  lemma EvictedKeeps(max: int, c: Cache)
    requires WellKept(max, c)
    ensures var e := Evicted(max, c);
      && Distinct(e.entries) && |e.entries| < (if max < 1 then 1 else max)
      && forall p :: Has(e.entries, p) ==> Has(c.entries, p)
  {
    if |c.entries| >= max && c.entries != [] {
      var last := c.entries[|c.entries| - 1];
      HasIff(c.entries, last.path);
      DeletedKeeps(max, c, last.path);
    }
  }

  /** The paths stay distinct and the cache within its limit, which is one at least. */
  lemma {:induction false} AlwaysWellKept(max: int, ops: seq<Op>)
    ensures WellKept(max, Run(max, ops))
    decreases |ops|
  {
    if ops != [] {
      AlwaysWellKept(max, ops[..|ops| - 1]);
      ApplyKeeps(max, Run(max, ops[..|ops| - 1]), ops[|ops| - 1]);
    }
  }

  // ---- A larger cache holds whatever a smaller one does ----

  function Paths(es: seq<Entry>): seq<string> { seq(|es|, i requires 0 <= i < |es| => es[i].path) }

  /** The elements of `a` are elements of `b`, in the same order. */
  predicate Subsequence(a: seq<string>, b: seq<string>) {
    if a == [] then true
    else if b == [] then false
    else if a[0] == b[0] then Subsequence(a[1..], b[1..])
    else Subsequence(a, b[1..])
  }

  function Less(ps: seq<string>, p: string): seq<string> {
    if ps == [] then [] else (if ps[0] == p then [] else [ps[0]]) + Less(ps[1..], p)
  }

  predicate AllDistinct(ps: seq<string>) { forall i, j :: 0 <= i < j < |ps| ==> ps[i] != ps[j] }

  lemma {:induction false} SubsequenceMember(a: seq<string>, b: seq<string>, p: string)
    requires Subsequence(a, b) && p in a
    ensures p in b
    decreases |b|
  {
    if a[0] == b[0] {
      if p != a[0] {
        SubsequenceMember(a[1..], b[1..], p);
      }
    } else {
      SubsequenceMember(a, b[1..], p);
    }
  }

  lemma {:induction false} SubsequenceSize(a: seq<string>, b: seq<string>)
    requires Subsequence(a, b)
    ensures |a| <= |b|
    decreases |b|
  {
    if a != [] {
      SubsequenceSize(if a[0] == b[0] then a[1..] else a, b[1..]);
    }
  }

  /** Skipping the head of the longer list is allowed. */
  lemma {:induction false} SubsequenceSkip(a: seq<string>, x: string, b: seq<string>)
    requires Subsequence(a, b)
    ensures Subsequence(a, [x] + b)
    decreases |b|, 1
  {
    assert ([x] + b)[1..] == b;
    if a != [] && a[0] == x {
      SubsequenceTail(a, b);
    }
  }

  lemma {:induction false} SubsequenceTail(a: seq<string>, b: seq<string>)
    requires Subsequence(a, b) && a != []
    ensures Subsequence(a[1..], b)
    decreases |b|, 0
  {
    if a[0] == b[0] {
      SubsequenceSkip(a[1..], b[0], b[1..]);
      assert b == [b[0]] + b[1..];
    } else {
      SubsequenceTail(a, b[1..]);
      SubsequenceSkip(a[1..], b[0], b[1..]);
      assert b == [b[0]] + b[1..];
    }
  }

  lemma {:induction false} SubsequenceLess(a: seq<string>, b: seq<string>, p: string)
    requires Subsequence(a, b)
    ensures Subsequence(Less(a, p), Less(b, p))
    decreases |b|
  {
    if a != [] {
      if a[0] == b[0] {
        SubsequenceLess(a[1..], b[1..], p);
        if a[0] != p {
          SubsequenceCons(a[0], Less(a[1..], p), Less(b[1..], p));
        } else {
          assert Less(a, p) == Less(a[1..], p) && Less(b, p) == Less(b[1..], p);
        }
      } else {
        SubsequenceLess(a, b[1..], p);
        if b[0] != p {
          SubsequenceSkip(Less(a, p), b[0], Less(b[1..], p));
        } else {
          assert Less(b, p) == Less(b[1..], p);
        }
      }
    }
  }

  lemma SubsequenceCons(x: string, a: seq<string>, b: seq<string>)
    ensures Subsequence([x] + a, [x] + b) <==> Subsequence(a, b)
  {
    assert ([x] + a)[1..] == a && ([x] + b)[1..] == b;
  }

  lemma {:induction false} SubsequenceInit(a: seq<string>, b: seq<string>)
    requires Subsequence(a, b) && a != []
    ensures Subsequence(a[..|a| - 1], b[..|b| - 1])
    decreases |b|
  {
    var c, d := a[..|a| - 1], b[..|b| - 1];
    if c != [] {
      if a[0] == b[0] {
        assert c[1..] == a[1..][..|a| - 2] && d[1..] == b[1..][..|b| - 2];
        SubsequenceSize(a[1..], b[1..]);
        SubsequenceInit(a[1..], b[1..]);
      } else {
        SubsequenceSize(a, b[1..]);
        assert d[1..] == b[1..][..|b| - 2];
        SubsequenceInit(a, b[1..]);
      }
    }
  }

  lemma {:induction false} SubsequenceShorter(a: seq<string>, b: seq<string>)
    requires Subsequence(a, b) && a != []
    ensures Subsequence(a[..|a| - 1], b)
    decreases |b|
  {
    var c := a[..|a| - 1];
    if c != [] {
      if a[0] == b[0] {
        assert c[1..] == a[1..][..|a| - 2];
        SubsequenceShorter(a[1..], b[1..]);
      } else {
        SubsequenceShorter(a, b[1..]);
      }
    }
  }

  lemma {:induction false} LessSize(ps: seq<string>, p: string)
    requires AllDistinct(ps)
    ensures |Less(ps, p)| == if p in ps then |ps| - 1 else |ps|
    ensures p !in ps ==> Less(ps, p) == ps
    decreases |ps|
  {
    if ps != [] {
      LessSize(ps[1..], p);
      assert ps == [ps[0]] + ps[1..];
    }
  }

  // ---- The operations on the recency list alone ----

  function Touched(ps: seq<string>, p: string): seq<string> { if p in ps then [p] + Less(ps, p) else ps }

  function Trimmed(max: int, ps: seq<string>): seq<string> {
    if |ps| >= max && ps != [] then ps[..|ps| - 1] else ps
  }

  function LessAll(ps: seq<string>, keys: seq<string>): seq<string>
    decreases |keys|
  {
    if keys == [] then ps else LessAll(Less(ps, keys[0]), keys[1..])
  }

  function PathsAfter(max: int, ps: seq<string>, op: Op): seq<string> {
    match op
    case Get(p) => Touched(ps, p)
    case Put(p, file) =>
      if file.None? then ps else if p in ps then Touched(ps, p) else [p] + Trimmed(max, ps)
    case Delete(keys) => LessAll(ps, keys)
    case Close => []
  }

  lemma HasPath(es: seq<Entry>, p: string)
    ensures p in Paths(es) <==> Has(es, p)
  {
    HasIff(es, p);
    assert forall k :: 0 <= k < |es| ==> Paths(es)[k] == es[k].path;
  }

  lemma PathsFront(e: Entry, es: seq<Entry>)
    ensures Paths([e] + es) == [e.path] + Paths(es)
  {
  }

  lemma {:induction false} PathsWithout(es: seq<Entry>, p: string)
    requires Distinct(es)
    ensures Paths(Without(es, p)) == Less(Paths(es), p)
    decreases |es|
  {
    if es != [] {
      assert Paths(es)[1..] == Paths(es[1..]);
      if es[0].path == p {
        HasPath(es[1..], p);
        HasIff(es[1..], p);
        assert forall k :: 0 <= k < |es[1..]| ==> es[1..][k] == es[k + 1];
        LessAbsent(Paths(es[1..]), p);
        assert Less(Paths(es), p) == Less(Paths(es[1..]), p);
      } else {
        PathsWithout(es[1..], p);
        PathsFront(es[0], Without(es[1..], p));
      }
    }
  }

  lemma {:induction false} LessAbsent(ps: seq<string>, p: string)
    requires p !in ps
    ensures Less(ps, p) == ps
    decreases |ps|
  {
    if ps != [] {
      LessAbsent(ps[1..], p);
      assert ps == [ps[0]] + ps[1..];
    }
  }

  lemma {:induction false} PathsDeletedAll(c: Cache, keys: seq<string>)
    requires Distinct(c.entries)
    ensures Paths(DeletedAll(c, keys).entries) == LessAll(Paths(c.entries), keys)
    decreases |keys|
  {
    if keys != [] {
      PathsDeleted(c, keys[0]);
      WithoutKeeps(c.entries, keys[0]);
      PathsDeletedAll(Deleted(c, keys[0]), keys[1..]);
    }
  }

  lemma PathsDeleted(c: Cache, p: string)
    requires Distinct(c.entries)
    ensures Paths(Deleted(c, p).entries) == Less(Paths(c.entries), p)
  {
    PathsWithout(c.entries, p);
    HasPath(c.entries, p);
    if !Has(c.entries, p) {
      LessAbsent(Paths(c.entries), p);
    }
  }

  lemma PathsEvicted(max: int, c: Cache)
    requires Distinct(c.entries)
    ensures Paths(Evicted(max, c).entries) == Trimmed(max, Paths(c.entries))
  {
    var n := |c.entries|;
    if n >= max && n > 0 {
      var last := c.entries[n - 1].path;
      WithoutCuts(c.entries, last);
      assert Find(c.entries, last) == n - 1;
      assert Deleted(c, last).entries == c.entries[..n - 1];
    }
  }

  /** What an operation does to the recency list depends on nothing else. */
  lemma PathsApply(max: int, c: Cache, op: Op)
    requires Distinct(c.entries)
    ensures Paths(Apply(max, c, op).entries) == PathsAfter(max, Paths(c.entries), op)
  {
    match op {
      case Get(p) => PathsGot(c, p);
      case Put(p, file) =>
        if file.Some? {
          PathsStored(max, c, p, file.value);
        }
      case Delete(keys) => PathsDeletedAll(c, keys);
      case Close =>
    }
  }

  lemma PathsGot(c: Cache, p: string)
    requires Distinct(c.entries)
    ensures Paths(Got(c, p).entries) == Touched(Paths(c.entries), p)
  {
    HasPath(c.entries, p);
    PathsWithout(c.entries, p);
    if Has(c.entries, p) {
      PathsFront(c.entries[Find(c.entries, p)], Without(c.entries, p));
    }
  }

  lemma PathsStored(max: int, c: Cache, p: string, file: Handle)
    requires Distinct(c.entries)
    ensures var ps := Paths(c.entries);
      Paths(Stored(max, c, p, file).entries) == if p in ps then Touched(ps, p) else [p] + Trimmed(max, ps)
  {
    HasPath(c.entries, p);
    if Has(c.entries, p) {
      PathsWithout(c.entries, p);
      PathsFront(Entry(p, file), Without(c.entries, p));
    } else {
      PathsEvicted(max, c);
      PathsFront(Entry(p, file), Evicted(max, c).entries);
    }
  }

  // ---- Inclusion ----

  /** The smaller list is part of the larger, which is not further ahead than the limits differ. */
  predicate Included(m: int, n: int, a: seq<string>, b: seq<string>) {
    && Subsequence(a, b) && AllDistinct(a) && AllDistinct(b)
    && |a| <= m && |b| <= n && |b| - |a| <= n - m
  }

  lemma {:induction false} LessDistinct(ps: seq<string>, p: string)
    requires AllDistinct(ps)
    ensures AllDistinct(Less(ps, p)) && p !in Less(ps, p)
    ensures forall q :: q in Less(ps, p) ==> q in ps
    decreases |ps|
  {
    if ps != [] {
      LessDistinct(ps[1..], p);
      assert forall k :: 0 <= k < |Less(ps[1..], p)| ==> Less(ps[1..], p)[k] in ps[1..];
    }
  }

  lemma LessIncluded(m: int, n: int, a: seq<string>, b: seq<string>, p: string)
    requires Included(m, n, a, b)
    ensures Included(m, n, Less(a, p), Less(b, p))
  {
    SubsequenceLess(a, b, p);
    LessSize(a, p);
    LessSize(b, p);
    LessDistinct(a, p);
    LessDistinct(b, p);
    if p in a {
      SubsequenceMember(a, b, p);
    }
  }

  lemma {:induction false} LessAllIncluded(m: int, n: int, a: seq<string>, b: seq<string>, keys: seq<string>)
    requires Included(m, n, a, b)
    ensures Included(m, n, LessAll(a, keys), LessAll(b, keys))
    decreases |keys|
  {
    if keys != [] {
      LessIncluded(m, n, a, b, keys[0]);
      LessAllIncluded(m, n, Less(a, keys[0]), Less(b, keys[0]), keys[1..]);
    }
  }

  lemma TouchIncluded(m: int, n: int, a: seq<string>, b: seq<string>, p: string)
    requires Included(m, n, a, b)
    ensures Included(m, n, Touched(a, p), Touched(b, p))
  {
    SubsequenceLess(a, b, p);
    LessSize(a, p);
    LessSize(b, p);
    LessDistinct(a, p);
    LessDistinct(b, p);
    if p in a {
      SubsequenceMember(a, b, p);
      SubsequenceCons(p, Less(a, p), Less(b, p));
    } else if p in b {
      SubsequenceSkip(a, p, Less(b, p));
    }
  }

  /** A path new to the smaller list, which makes room for it. */
  lemma PutIncluded(m: int, n: int, a: seq<string>, b: seq<string>, p: string)
    requires 1 <= m <= n && Included(m, n, a, b) && p !in a
    ensures Included(m, n, [p] + Trimmed(m, a), if p in b then Touched(b, p) else [p] + Trimmed(n, b))
  {
    if p in b {
      SubsequenceLess(a, b, p);
      LessSize(a, p);
      LessSize(b, p);
      LessDistinct(b, p);
      TrimmedSmaller(m, a, Less(b, p));
      SubsequenceCons(p, Trimmed(m, a), Less(b, p));
    } else {
      if |b| >= n {
        SubsequenceInit(a, b);
      } else {
        TrimmedSmaller(m, a, b);
      }
      SubsequenceCons(p, Trimmed(m, a), Trimmed(n, b));
    }
  }

  lemma TrimmedSmaller(m: int, a: seq<string>, b: seq<string>)
    requires Subsequence(a, b)
    ensures Subsequence(Trimmed(m, a), b)
  {
    if a != [] {
      SubsequenceShorter(a, b);
    }
  }

  lemma StepIncluded(m: int, n: int, a: seq<string>, b: seq<string>, op: Op)
    requires 1 <= m <= n && Included(m, n, a, b)
    ensures Included(m, n, PathsAfter(m, a, op), PathsAfter(n, b, op))
  {
    match op {
      case Get(p) => TouchIncluded(m, n, a, b, p);
      case Put(p, file) =>
        if file.Some? {
          if p in a {
            SubsequenceMember(a, b, p);
            TouchIncluded(m, n, a, b, p);
          } else {
            PutIncluded(m, n, a, b, p);
          }
        }
      case Delete(keys) => LessAllIncluded(m, n, a, b, keys);
      case Close =>
    }
  }

  /**
    * On the same run the recency list of a smaller cache is a subsequence of that of a larger one,
    * so that whatever is found in the smaller is found in the larger.
    */
  lemma {:induction false} LargerCacheIncludes(m: int, n: int, ops: seq<Op>)
    requires 1 <= m <= n
    ensures Included(m, n, Paths(Run(m, ops).entries), Paths(Run(n, ops).entries))
    ensures forall p :: Has(Run(m, ops).entries, p) ==> Has(Run(n, ops).entries, p)
    decreases |ops|
  {
    if ops != [] {
      var before, op := ops[..|ops| - 1], ops[|ops| - 1];
      LargerCacheIncludes(m, n, before);
      AlwaysWellKept(m, before);
      AlwaysWellKept(n, before);
      PathsApply(m, Run(m, before), op);
      PathsApply(n, Run(n, before), op);
      StepIncluded(m, n, Paths(Run(m, before).entries), Paths(Run(n, before).entries), op);
    }
    var a, b := Run(m, ops).entries, Run(n, ops).entries;
    forall p | Has(a, p)
      ensures Has(b, p)
    {
      HasPath(a, p);
      HasPath(b, p);
      SubsequenceMember(Paths(a), Paths(b), p);
    }
  }

  // ---- The list is ordered by last use ----

  predicate Mentions(op: Op, p: string) {
    (op.Get? && op.path == p) || (op.Put? && op.file.Some? && op.path == p)
  }

  /** When a path was last asked for or stored: one more than the position in the run, or zero. */
  function LastUse(ops: seq<Op>, p: string): nat {
    if ops == [] then 0
    else if Mentions(ops[|ops| - 1], p) then |ops|
    else LastUse(ops[..|ops| - 1], p)
  }

  predicate ByLastUse(ops: seq<Op>, ps: seq<string>) {
    forall i, j :: 0 <= i < j < |ps| ==> LastUse(ops, ps[i]) > LastUse(ops, ps[j])
  }

  lemma {:induction false} LastUseBound(ops: seq<Op>, p: string)
    ensures LastUse(ops, p) <= |ops|
    decreases |ops|
  {
    if ops != [] {
      LastUseBound(ops[..|ops| - 1], p);
    }
  }

  /** Leaving out elements keeps the order. */
  lemma {:induction false} ByLastUseOfPart(ops: seq<Op>, a: seq<string>, b: seq<string>)
    requires Subsequence(a, b) && ByLastUse(ops, b)
    ensures ByLastUse(ops, a)
    decreases |b|
  {
    if a != [] {
      if a[0] == b[0] {
        ByLastUseOfPart(ops, a[1..], b[1..]);
        forall j | 0 < j < |a|
          ensures LastUse(ops, a[0]) > LastUse(ops, a[j])
        {
          SubsequenceMember(a[1..], b[1..], a[1..][j - 1]);
          var k :| 0 <= k < |b[1..]| && b[1..][k] == a[j];
          assert b[k + 1] == a[j];
        }
      } else {
        ByLastUseOfPart(ops, a, b[1..]);
      }
    }
  }

  lemma {:induction false} SubsequenceSelf(a: seq<string>)
    ensures Subsequence(a, a)
    decreases |a|
  {
    if a != [] {
      SubsequenceSelf(a[1..]);
    }
  }

  lemma {:induction false} LessIsPart(ps: seq<string>, p: string)
    ensures Subsequence(Less(ps, p), ps)
    decreases |ps|
  {
    if ps != [] {
      LessIsPart(ps[1..], p);
      assert ps == [ps[0]] + ps[1..];
      if ps[0] == p {
        assert Less(ps, p) == Less(ps[1..], p);
        SubsequenceSkip(Less(ps[1..], p), ps[0], ps[1..]);
      } else {
        SubsequenceCons(ps[0], Less(ps[1..], p), ps[1..]);
      }
    }
  }

  lemma {:induction false} LessAllByLastUse(ops: seq<Op>, ps: seq<string>, keys: seq<string>)
    requires ByLastUse(ops, ps)
    ensures ByLastUse(ops, LessAll(ps, keys))
    decreases |keys|
  {
    if keys != [] {
      LessIsPart(ps, keys[0]);
      ByLastUseOfPart(ops, Less(ps, keys[0]), ps);
      LessAllByLastUse(ops, Less(ps, keys[0]), keys[1..]);
    }
  }

  /** A path just used goes first. */
  lemma FrontByLastUse(before: seq<Op>, op: Op, p: string, ps: seq<string>)
    requires ByLastUse(before, ps) && p !in ps && forall q :: Mentions(op, q) <==> q == p
    ensures ByLastUse(before + [op], [p] + ps)
  {
    var ops, qs := before + [op], [p] + ps;
    assert ops[..|ops| - 1] == before;
    forall i, j | 0 <= i < j < |qs|
      ensures LastUse(ops, qs[i]) > LastUse(ops, qs[j])
    {
      assert qs[j] == ps[j - 1];
      LastUseBound(before, qs[j]);
      if i > 0 {
        assert qs[i] == ps[i - 1];
      }
    }
  }

  lemma SameByLastUse(before: seq<Op>, op: Op, ps: seq<string>)
    requires ByLastUse(before, ps) && forall q <- ps :: !Mentions(op, q)
    ensures ByLastUse(before + [op], ps)
  {
    assert (before + [op])[..|before|] == before;
  }

  lemma StepByLastUse(max: int, before: seq<Op>, op: Op, ps: seq<string>)
    requires ByLastUse(before, ps) && AllDistinct(ps)
    ensures ByLastUse(before + [op], PathsAfter(max, ps, op))
  {
    if op.Get? || (op.Put? && op.file.Some?) {
      var p := op.path;
      if p in ps {
        LessIsPart(ps, p);
        ByLastUseOfPart(before, Less(ps, p), ps);
        LessDistinct(ps, p);
        FrontByLastUse(before, op, p, Less(ps, p));
      } else if op.Get? {
        SameByLastUse(before, op, ps);
      } else {
        SubsequenceSelf(ps);
        TrimmedSmaller(max, ps, ps);
        ByLastUseOfPart(before, Trimmed(max, ps), ps);
        FrontByLastUse(before, op, p, Trimmed(max, ps));
      }
    } else if op.Delete? {
      SameByLastUse(before, op, ps);
      LessAllByLastUse(before + [op], ps, op.keys);
    } else {
      SameByLastUse(before, op, ps);
    }
  }

  lemma DistinctPaths(es: seq<Entry>)
    requires Distinct(es)
    ensures AllDistinct(Paths(es))
  {
  }

  /** At all times the entries stand in the order of their last use, the latest first. */
  lemma {:induction false} EntriesByLastUse(max: int, ops: seq<Op>)
    ensures ByLastUse(ops, Paths(Run(max, ops).entries))
    decreases |ops|
  {
    if ops != [] {
      var before, op := ops[..|ops| - 1], ops[|ops| - 1];
      EntriesByLastUse(max, before);
      AlwaysWellKept(max, before);
      DistinctPaths(Run(max, before).entries);
      PathsApply(max, Run(max, before), op);
      StepByLastUse(max, before, op, Paths(Run(max, before).entries));
      assert before + [op] == ops;
    }
  }
}
