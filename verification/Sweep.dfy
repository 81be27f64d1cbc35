/** read_writer_closer_cache.go: the background scan of the use counts, which takes no lock. */
module CacheSweep {
  import opened Common
  import opened FileCacheSpec
  import opened FileCacheFacts

  /** One effect of a locked operation on the hash or the use map, in the order of the source. */
  datatype Micro = Cache(path: string) | Uncache(path: string) | Unuse(path: string) | Use(path: string) | Reset

  datatype Lock = Free | Held(todo: seq<Micro>, sweeper: bool)

  /**
    * The background loop: resting; scanning, with the paths found so far and the one whose use
    * count is about to be deleted; or about to delete what it found, or deleting it.
    */
  datatype Sweep = Resting | Scanning(junk: seq<string>, doomed: Option<string>) | Deleting(junk: seq<string>)

  /** The paths in the hash, those in the use map, who holds the lock, and the background loop. */
  datatype World = World(cached: set<string>, uses: set<string>, lock: Lock, sweep: Sweep)

  function Junk(s: Sweep): seq<string> { if s.Resting? then [] else s.junk }

  function DeleteProgram(cached: set<string>, keys: seq<string>): seq<Micro>
    decreases |keys|
  {
    if keys == [] then []
    else if keys[0] in cached then [Uncache(keys[0]), Unuse(keys[0])] + DeleteProgram(cached - {keys[0]}, keys[1..])
    else DeleteProgram(cached, keys[1..])
  }

  /** What an operation does once it has the lock; `victim` is the path it evicts, if any. */
  function Program(cached: set<string>, op: Op, victim: Option<string>): seq<Micro> {
    match op
    case Get(p) => if p in cached then [Use(p)] else []
    case Put(p, file) =>
      if file.None? then []
      else if p in cached then [Use(p)]
      else (if victim.Some? then [Uncache(victim.value), Unuse(victim.value)] else []) + [Micro.Cache(p), Use(p)]
    case Delete(keys) => DeleteProgram(cached, keys)
    case Close => [Reset]
  }

  function Effect(w: World, m: Micro): World {
    match m
    case Cache(p) => w.(cached := w.cached + {p})
    case Uncache(p) => w.(cached := w.cached - {p})
    case Unuse(p) => w.(uses := w.uses - {p})
    case Use(p) => w.(uses := w.uses + {p})
    case Reset => w.(cached := {})
  }

  /** The steps that interleave. The scan may come upon any path, however stale. */
  datatype Action =
    | Acquire(op: Op, victim: Option<string>) | Proceed | Release
    | StartScan | Find(path: string) | Forget | EndScan | SweepAcquire

  predicate Enabled(w: World, a: Action) {
    match a
    case Acquire(op, victim) => w.lock.Free? && (victim.Some? ==> victim.value in w.cached)
    case Proceed => w.lock.Held? && w.lock.todo != []
    case Release => w.lock.Held? && w.lock.todo == []
    case StartScan => w.sweep.Resting?
    case Find(_) => w.sweep.Scanning? && w.sweep.doomed.None?
    case Forget => w.sweep.Scanning? && w.sweep.doomed.Some?
    case EndScan => w.sweep.Scanning? && w.sweep.doomed.None?
    case SweepAcquire => w.sweep.Deleting? && w.lock.Free?
  }

  function Next(w: World, a: Action): World
    requires Enabled(w, a)
  {
    match a
    case Acquire(op, victim) => w.(lock := Held(Program(w.cached, op, victim), false))
    case Proceed => Effect(w, w.lock.todo[0]).(lock := w.lock.(todo := w.lock.todo[1..]))
    case Release => w.(lock := Free, sweep := if w.lock.sweeper then Resting else w.sweep)
    case StartScan => w.(sweep := Scanning([], None))
    case Find(p) => w.(sweep := Scanning(w.sweep.junk + [p], Some(p)))
    case Forget => w.(uses := w.uses - {w.sweep.doomed.value}, sweep := w.sweep.(doomed := None))
    case EndScan => w.(sweep := if w.sweep.junk == [] then Resting else Deleting(w.sweep.junk))
    case SweepAcquire => w.(lock := Held(DeleteProgram(w.cached, w.sweep.junk), true))
  }

  // ---- The invariant ----

  /** A program that uncaches a path before it forgets its use, and counts the use of what it caches. */
  predicate Safe(todo: seq<Micro>, cached: set<string>)
    decreases |todo|
  {
    todo != [] ==>
      match todo[0]
      case Cache(p) => Use(p) in todo[1..] && Safe(todo[1..], cached + {p})
      case Uncache(p) => Safe(todo[1..], cached - {p})
      case Unuse(p) => p !in cached && Safe(todo[1..], cached)
      case Use(p) => Safe(todo[1..], cached)
      case Reset => Safe(todo[1..], {})
  }

  predicate Visible(w: World, p: string) {
    || p in w.uses
    || p in Junk(w.sweep)
    || (w.lock.Held? && Use(p) in w.lock.todo)
  }

  ghost predicate Inv(w: World) {
    && (forall p <- w.cached :: Visible(w, p))
    && (w.lock.Held? ==> Safe(w.lock.todo, w.cached))
    && (w.lock.Held? && w.lock.sweeper ==>
        && w.sweep.Deleting? && (forall m <- w.lock.todo :: !m.Cache?)
        && forall p <- w.cached :: p in w.sweep.junk ==> Uncache(p) in w.lock.todo)
    && (w.sweep.Scanning? && w.sweep.doomed.Some? ==> w.sweep.doomed.value in w.sweep.junk)
  }

  lemma {:induction false} DeleteProgramSafe(cached: set<string>, keys: seq<string>)
    ensures Safe(DeleteProgram(cached, keys), cached)
    ensures forall p <- cached :: p in keys ==> Uncache(p) in DeleteProgram(cached, keys)
    ensures forall m <- DeleteProgram(cached, keys) :: !m.Cache?
    decreases |keys|
  {
    if keys != [] {
      var k, d := keys[0], DeleteProgram(cached, keys);
      if k in cached {
        DeleteProgramSafe(cached - {k}, keys[1..]);
        var rest := DeleteProgram(cached - {k}, keys[1..]);
        assert d[1..] == [Unuse(k)] + rest && d[1..][1..] == rest;
        forall p <- cached | p in keys
          ensures Uncache(p) in d
        {
          if p != k {
            assert Uncache(p) in rest;
          }
        }
      } else {
        DeleteProgramSafe(cached, keys[1..]);
      }
    }
  }

  lemma ProgramSafe(cached: set<string>, op: Op, victim: Option<string>)
    requires victim.Some? ==> victim.value in cached
    ensures Safe(Program(cached, op, victim), cached)
  {
    var todo := Program(cached, op, victim);
    if op.Delete? {
      DeleteProgramSafe(cached, op.keys);
    } else if op.Put? && op.file.Some? && op.path !in cached {
      var tail := [Micro.Cache(op.path), Use(op.path)];
      assert tail[1..] == [Use(op.path)] && tail[1..][1..] == [];
      if victim.Some? {
        assert todo[1..] == [Unuse(victim.value)] + tail && todo[1..][1..] == tail;
        assert Safe(tail, cached - {victim.value});
      } else {
        assert todo == tail;
      }
    } else if todo != [] {
      assert todo[1..] == [];
    }
  }

  /** A holder's step keeps the invariant. */
  lemma ProceedKeeps(w: World)
    requires Inv(w) && w.lock.Held? && w.lock.todo != []
    ensures Inv(Next(w, Proceed))
  {
    var m, rest, v := w.lock.todo[0], w.lock.todo[1..], Next(w, Proceed);
    assert w.lock.todo == [m] + rest;
    forall p <- v.cached
      ensures Visible(v, p)
    {
      assert p in w.cached || m == Micro.Cache(p);
    }
  }

  lemma StepKeeps(w: World, a: Action)
    requires Inv(w) && Enabled(w, a)
    ensures Inv(Next(w, a))
  {
    match a {
      case Acquire(op, victim) => ProgramSafe(w.cached, op, victim);
      case Proceed => ProceedKeeps(w);
      case SweepAcquire => DeleteProgramSafe(w.cached, w.sweep.junk);
      case _ =>
    }
  }

  // ---- Runs ----

  function Start(): World { World({}, {}, Free, Resting) }

  /** The states of an interleaving, each reached by an enabled step. */
  predicate IsRun(ws: seq<World>, acts: seq<Action>) {
    && |ws| == |acts| + 1 && ws[0] == Start()
    && forall i :: 0 <= i < |acts| ==> Enabled(ws[i], acts[i]) && ws[i + 1] == Next(ws[i], acts[i])
  }

  lemma {:induction false} AlwaysInv(ws: seq<World>, acts: seq<Action>, k: nat)
    requires IsRun(ws, acts) && k < |ws|
    ensures Inv(ws[k])
    decreases k
  {
    if k > 0 {
      AlwaysInv(ws, acts, k - 1);
      StepKeeps(ws[k - 1], acts[k - 1]);
    }
  }

  /**
    * In every interleaving, whenever the lock is free each cached path is in the use map or in the
    * junk the sweep has yet to delete; with the sweep at rest, in the use map.
    */
  lemma NothingHidesFromTheSweep(ws: seq<World>, acts: seq<Action>, k: nat)
    requires IsRun(ws, acts) && k < |ws| && ws[k].lock.Free?
    ensures forall p <- ws[k].cached :: p in ws[k].uses || p in Junk(ws[k].sweep)
    ensures ws[k].sweep.Resting? ==> ws[k].cached <= ws[k].uses
  {
    AlwaysInv(ws, acts, k);
    assert forall p <- ws[k].cached :: Visible(ws[k], p);
  }

  // ---- The programs are the operations ----

  /** Runs a program with nobody else about. */
  function Effects(w: World, todo: seq<Micro>): World
    decreases |todo|
  {
    if todo == [] then w else Effects(Effect(w, todo[0]), todo[1..])
  }

  ghost function PathSet(es: seq<Entry>): set<string> { set p | p in Paths(es) }

  /** The cache as the sweep sees it. */
  ghost function Seen(c: FileCacheSpec.Cache): World { World(PathSet(c.entries), c.uses.Keys, Free, Resting) }

  /** The path that an operation evicts. */
  function Victim(max: int, c: FileCacheSpec.Cache): Option<string> {
    if |c.entries| >= max && c.entries != [] then Some(c.entries[|c.entries| - 1].path) else None
  }

  lemma SeenHas(c: FileCacheSpec.Cache, p: string)
    ensures p in Seen(c).cached <==> Has(c.entries, p)
  {
    HasPath(c.entries, p);
  }

  /** Uncaching a path and forgetting its use. */
  function Gone(w: World, p: string): World { w.(cached := w.cached - {p}, uses := w.uses - {p}) }

  lemma EffectsOfTwo(w: World, a: Micro, b: Micro)
    ensures Effects(w, [a, b]) == Effect(Effect(w, a), b)
  {
    assert [a, b][1..] == [b] && [b][1..] == [];
    assert Effects(w, [a, b]) == Effects(Effect(w, a), [b]);
  }

  lemma SeenDeleted(c: FileCacheSpec.Cache, p: string)
    requires Distinct(c.entries)
    ensures Has(c.entries, p) ==> Seen(Deleted(c, p)) == Gone(Seen(c), p)
    ensures Distinct(Deleted(c, p).entries)
  {
    WithoutKeeps(c.entries, p);
    if Has(c.entries, p) {
      var d := Deleted(c, p);
      PathsDeleted(c, p);
      LessMembers(Paths(c.entries), p);
      assert Seen(d).cached == Seen(c).cached - {p};
      assert (c.uses - {p}).Keys == c.uses.Keys - {p};
    }
  }

  lemma {:induction false} LessMembers(ps: seq<string>, p: string)
    ensures forall q :: q in Less(ps, p) <==> q in ps && q != p
    decreases |ps|
  {
    if ps != [] {
      LessMembers(ps[1..], p);
      assert ps == [ps[0]] + ps[1..];
    }
  }

  lemma {:induction false} EffectsAppend(w: World, a: seq<Micro>, b: seq<Micro>)
    ensures Effects(w, a + b) == Effects(Effects(w, a), b)
    decreases |a|
  {
    if a == [] {
      assert a + b == b;
    } else {
      assert (a + b)[1..] == a[1..] + b;
      EffectsAppend(Effect(w, a[0]), a[1..], b);
    }
  }

  lemma {:induction false} SeenDeletedAll(c: FileCacheSpec.Cache, keys: seq<string>)
    requires Distinct(c.entries)
    ensures Seen(DeletedAll(c, keys)) == Effects(Seen(c), DeleteProgram(Seen(c).cached, keys))
    decreases |keys|
  {
    if keys != [] {
      var k := keys[0];
      SeenHas(c, k);
      SeenDeleted(c, k);
      SeenDeletedAll(Deleted(c, k), keys[1..]);
      if Has(c.entries, k) {
        var todo := [Uncache(k), Unuse(k)];
        EffectsOfTwo(Seen(c), todo[0], todo[1]);
        EffectsAppend(Seen(c), todo, DeleteProgram(Seen(c).cached - {k}, keys[1..]));
      }
    }
  }

  /** Run alone, the program of an operation does to the hash and the use map what the operation does. */
  lemma ProgramIsOperation(max: int, c: FileCacheSpec.Cache, op: Op)
    requires WellKept(max, c)
    ensures Seen(Apply(max, c, op)) == Effects(Seen(c), Program(Seen(c).cached, op, Victim(max, c)))
  {
    match op {
      case Get(p) => TouchSeen(max, c, op, p);
      case Put(p, file) =>
        SeenHas(c, p);
        if file.Some? && !Has(c.entries, p) {
          StoreSeen(max, c, p, file.value);
        } else if file.Some? {
          TouchSeen(max, c, op, p);
        }
      case Delete(keys) => SeenDeletedAll(c, keys);
      case Close =>
        assert [Reset][1..] == [];
        assert PathSet([]) == {};
    }
  }

  lemma TouchSeen(max: int, c: FileCacheSpec.Cache, op: Op, p: string)
    requires WellKept(max, c) && (op == Get(p) || (op.Put? && op.path == p && op.file.Some? && Has(c.entries, p)))
    ensures Seen(Apply(max, c, op)) == Effects(Seen(c), if Has(c.entries, p) then [Use(p)] else [])
    ensures p in Seen(c).cached <==> Has(c.entries, p)
  {
    SeenHas(c, p);
    PathsApply(max, c, op);
    LessMembers(Paths(c.entries), p);
    assert [Use(p)][1..] == [];
    if Has(c.entries, p) {
      HasPath(c.entries, p);
      assert PathSet(Apply(max, c, op).entries) == PathSet(c.entries);
    }
  }

  lemma StoreSeen(max: int, c: FileCacheSpec.Cache, p: string, file: Handle)
    requires WellKept(max, c) && !Has(c.entries, p)
    ensures Seen(Stored(max, c, p, file))
         == Effects(Seen(c), Program(Seen(c).cached, Put(p, Some(file)), Victim(max, c)))
  {
    var e, tail := Evicted(max, c), [Micro.Cache(p), Use(p)];
    SeenHas(c, p);
    EffectsOfTwo(Seen(e), tail[0], tail[1]);
    var todo := if Victim(max, c).Some? then [Uncache(Victim(max, c).value), Unuse(Victim(max, c).value)] else [];
    if Victim(max, c).Some? {
      HasIff(c.entries, Victim(max, c).value);
      SeenDeleted(c, Victim(max, c).value);
      EffectsOfTwo(Seen(c), todo[0], todo[1]);
    }
    assert Seen(e) == Effects(Seen(c), todo);
    EffectsAppend(Seen(c), todo, tail);
    assert todo + tail == Program(Seen(c).cached, Put(p, Some(file)), Victim(max, c));
    PathsFront(Entry(p, file), e.entries);
    assert PathSet([Entry(p, file)] + e.entries) == PathSet(e.entries) + {p};
    assert Hit(e.uses, p).Keys == e.uses.Keys + {p};
  }
}
