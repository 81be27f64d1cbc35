/** read_writer_closer_cache.go: the cache as it is kept, a list of nodes and a hash of them. */
module FileCacheImpl {
  import opened Common
  import opened FileCacheSpec
  import opened FileCacheFacts

  /** The address of a list node. */
  type Node = nat

  predicate Allocated(ns: seq<Node>, heap: map<Node, Entry>) { forall n <- ns :: n in heap }

  /** What a list of nodes holds. */
  function EntriesOf(ns: seq<Node>, heap: map<Node, Entry>): seq<Entry>
    requires Allocated(ns, heap)
  {
    if ns == [] then [] else [heap[ns[0]]] + EntriesOf(ns[1..], heap)
  }

  /** A position of the list and the node the hash has for the path there. */
  lemma {:induction false} EntriesAt(ns: seq<Node>, heap: map<Node, Entry>)
    requires Allocated(ns, heap)
    ensures |EntriesOf(ns, heap)| == |ns|
    ensures forall i :: 0 <= i < |ns| ==> EntriesOf(ns, heap)[i] == heap[ns[i]]
    decreases |ns|
  {
    if ns != [] {
      EntriesAt(ns[1..], heap);
    }
  }

  /** Other nodes do not matter. */
  lemma {:induction false} EntriesSame(ns: seq<Node>, g: map<Node, Entry>, h: map<Node, Entry>)
    requires Allocated(ns, g) && Allocated(ns, h) && forall n <- ns :: g[n] == h[n]
    ensures EntriesOf(ns, g) == EntriesOf(ns, h)
    decreases |ns|
  {
    if ns != [] {
      EntriesSame(ns[1..], g, h);
    }
  }

  /** The hash has exactly the nodes of the list, each under its path. */
  predicate Bijective(ns: seq<Node>, hash: map<string, Node>, heap: map<Node, Entry>) {
    && Allocated(ns, heap)
    && Distinct(EntriesOf(ns, heap))
    && (forall p :: p in hash ==> hash[p] in ns && heap[hash[p]].path == p)
    && (forall n <- ns :: heap[n].path in hash && hash[heap[n].path] == n)
  }

  // ---- container/list ----

  function Removed(ns: seq<Node>, n: Node): seq<Node> {
    if ns == [] then [] else if ns[0] == n then ns[1..] else [ns[0]] + Removed(ns[1..], n)
  }

  lemma {:induction false} RemovedMembers(ns: seq<Node>, n: Node)
    ensures forall m <- Removed(ns, n) :: m in ns
    ensures forall m <- ns :: m != n ==> m in Removed(ns, n)
    decreases |ns|
  {
    if ns != [] {
      RemovedMembers(ns[1..], n);
      assert ns == [ns[0]] + ns[1..];
    }
  }

  /** Taking a node out takes the entry of its path out. */
  lemma {:induction false} RemovedEntries(ns: seq<Node>, n: Node, heap: map<Node, Entry>)
    requires Allocated(ns, heap) && n in heap && forall m <- ns :: heap[m].path == heap[n].path ==> m == n
    ensures Allocated(Removed(ns, n), heap)
    ensures EntriesOf(Removed(ns, n), heap) == Without(EntriesOf(ns, heap), heap[n].path)
    decreases |ns|
  {
    RemovedMembers(ns, n);
    if ns != [] {
      RemovedEntries(ns[1..], n, heap);
      assert EntriesOf(ns, heap)[1..] == EntriesOf(ns[1..], heap);
      if ns[0] != n {
        assert ns[0] in ns;
        assert ([ns[0]] + Removed(ns[1..], n))[1..] == Removed(ns[1..], n);
      }
    }
  }

  /** The hash finds what a search of the list would find. */
  lemma HashFinds(ns: seq<Node>, hash: map<string, Node>, heap: map<Node, Entry>, path: string)
    requires Bijective(ns, hash, heap)
    ensures var es := EntriesOf(ns, heap);
      && (path in hash <==> Has(es, path))
      && (path in hash ==> es[Find(es, path)] == heap[hash[path]])
  {
    var es := EntriesOf(ns, heap);
    EntriesAt(ns, heap);
    HasIff(es, path);
    if path in hash {
      var k :| 0 <= k < |ns| && ns[k] == hash[path];
      assert es[k].path == path;
    }
    if Has(es, path) {
      assert ns[Find(es, path)] in ns;
    }
  }

  lemma RemovedBijective(ns: seq<Node>, n: Node, hash: map<string, Node>, heap: map<Node, Entry>)
    requires Bijective(ns, hash, heap) && n in ns
    ensures Bijective(Removed(ns, n), hash - {heap[n].path}, heap)
    ensures EntriesOf(Removed(ns, n), heap) == Without(EntriesOf(ns, heap), heap[n].path)
    ensures n !in Removed(ns, n)
  {
    var path, r := heap[n].path, Removed(ns, n);
    RemovedMembers(ns, n);
    RemovedEntries(ns, n, heap);
    WithoutKeeps(EntriesOf(ns, heap), path);
    EntriesAt(r, heap);
    HasIff(EntriesOf(r, heap), path);
    assert forall m <- r :: heap[m].path != path by {
      assert forall k :: 0 <= k < |r| ==> EntriesOf(r, heap)[k].path != path;
    }
  }

  lemma FrontEntries(n: Node, ns: seq<Node>, heap: map<Node, Entry>)
    requires n in heap && Allocated(ns, heap)
    ensures Allocated([n] + ns, heap) && EntriesOf([n] + ns, heap) == [heap[n]] + EntriesOf(ns, heap)
  {
    assert ([n] + ns)[1..] == ns;
  }

  lemma AddedBijective(ns: seq<Node>, n: Node, hash: map<string, Node>, heap: map<Node, Entry>)
    requires Bijective(ns, hash, heap) && n in heap && n !in ns && heap[n].path !in hash
    ensures Bijective([n] + ns, hash[heap[n].path := n], heap)
    ensures EntriesOf([n] + ns, heap) == [heap[n]] + EntriesOf(ns, heap)
  {
    FrontEntries(n, ns, heap);
    HashFinds(ns, hash, heap, heap[n].path);
    FrontKeeps(heap[n], EntriesOf(ns, heap));
    assert forall m :: m in [n] + ns <==> m == n || m in ns;
  }

  /** The nodes of a list that were left alone hold what they held. */
  lemma OthersBijective(ns: seq<Node>, hash: map<string, Node>, g: map<Node, Entry>, h: map<Node, Entry>)
    requires Bijective(ns, hash, g) && Allocated(ns, h) && forall n <- ns :: g[n] == h[n]
    ensures Bijective(ns, hash, h) && EntriesOf(ns, h) == EntriesOf(ns, g)
  {
    EntriesSame(ns, g, h);
  }

  /** The first node of the list is given another file. */
  lemma ReplacedBijective(ns: seq<Node>, n: Node, hash: map<string, Node>, g: map<Node, Entry>, e: Entry)
    requires Bijective(ns, hash, g) && ns != [] && ns[0] == n && n !in ns[1..] && e.path == g[n].path
    ensures Bijective(ns, hash, g[n := e])
    ensures EntriesOf(ns, g[n := e]) == [e] + EntriesOf(ns, g)[1..]
  {
    var rest, h := ns[1..], g[n := e];
    RemovedBijective(ns, n, hash, g);
    OthersBijective(rest, hash - {e.path}, g, h);
    AddedBijective(rest, n, hash - {e.path}, h);
    assert [n] + rest == ns && (hash - {e.path})[e.path := n] == hash;
    FrontEntries(n, rest, g);
  }

  class FileCache {
    const max: int
    var list: seq<Node>
    var hash: map<string, Node>
    var uses: map<string, int>
    /** The nodes allocated so far: a path and the file open for it. */
    var heap: map<Node, Entry>
    var next: Node
    /** The handles closed so far. */
    var closed: seq<Handle>

    ghost predicate Valid()
      reads this
    {
      Bijective(list, hash, heap) && forall n <- heap :: n < next
    }

    ghost function State(): Cache
      requires Valid()
      reads this
    {
      Cache(EntriesOf(list, heap), uses, closed)
    }

    constructor (max: int)
      ensures Valid() && this.max == max && State() == Empty()
    {
      this.max, list, hash, uses, heap, next, closed := max, [], map[], map[], map[], 0, [];
    }

    method Hit(path: string)
      modifies this`uses
      ensures uses == FileCacheSpec.Hit(old(uses), path)
    {
      if path in uses {
        uses := uses[path := uses[path] + 1];
      } else {
        uses := uses[path := 1];
      }
    }

    method MoveToFront(node: Node)
      requires Valid() && node in list
      modifies this`list
      ensures Valid() && (forall n :: n in list <==> n in old(list))
      ensures EntriesOf(list, heap) == [heap[node]] + Without(old(EntriesOf(list, heap)), heap[node].path)
      ensures list != [] && list[0] == node && node !in list[1..]
    {
      RemovedMembers(list, node);
      RemovedBijective(list, node, hash, heap);
      AddedBijective(Removed(list, node), node, hash - {heap[node].path}, heap);
      assert (hash - {heap[node].path})[heap[node].path := node] == hash;
      ghost var r := Removed(list, node);
      list := [node] + Removed(list, node);
      assert list[1..] == r;
    }

    method DeleteUnsafe(node: Node)
      requires Valid() && node in list
      modifies this`list, this`hash, this`uses, this`closed
      ensures Valid() && State() == Deleted(old(State()), heap[node].path)
      ensures forall p :: p in hash ==> p in old(hash)
    {
      var v := heap[node];
      RemovedBijective(list, node, hash, heap);
      HashFinds(list, hash, heap, v.path);
      closed := closed + [v.file];
      hash := hash - {v.path};
      uses := uses - {v.path};
      list := Removed(list, node);
    }

    method Get(key: string) returns (r: Option<Handle>)
      requires Valid()
      modifies this
      ensures Valid() && State() == Apply(max, old(State()), Op.Get(key))
      ensures var es := old(State()).entries;
        r == if Has(es, key) then Some(es[Find(es, key)].file) else None
    {
      HashFinds(list, hash, heap, key);
      if key !in hash {
        return None;
      }
      var node := hash[key];
      MoveToFront(node);
      Hit(key);
      return Some(heap[node].file);
    }

    method Delete(keys: seq<string>)
      requires Valid()
      modifies this
      ensures Valid() && State() == Apply(max, old(State()), Op.Delete(keys))
    {
      for i := 0 to |keys|
        invariant Valid() && DeletedAll(old(State()), keys) == DeletedAll(State(), keys[i..])
      {
        assert keys[i..][0] == keys[i] && keys[i..][1..] == keys[i + 1..];
        HashFinds(list, hash, heap, keys[i]);
        if keys[i] in hash {
          DeleteUnsafe(hash[keys[i]]);
        }
      }
    }

    /** `handle` is what the opener returned for the path, before the lock is taken. */
    method Put(path: string, handle: Option<Handle>) returns (r: Option<Handle>)
      requires Valid()
      modifies this
      ensures Valid() && State() == Apply(max, old(State()), Op.Put(path, handle)) && r == handle
    {
      if handle.None? {
        return None;
      }
      HashFinds(list, hash, heap, path);
      if path in hash {
        Replace(hash[path], handle.value);
      } else {
        Add(path, handle.value);
      }
      Hit(path);
      return handle;
    }

    /** A cached path is given another handle, in place. */
    method Replace(node: Node, file: Handle)
      requires Valid() && node in list
      modifies this`list, this`heap, this`closed
      ensures Valid() && closed == old(closed) + [old(heap[node].file)]
      ensures EntriesOf(list, heap)
           == [Entry(old(heap[node].path), file)] + Without(old(EntriesOf(list, heap)), old(heap[node].path))
    {
      MoveToFront(node);
      var v := heap[node];
      ReplacedBijective(list, node, hash, heap, Entry(v.path, file));
      heap := heap[node := Entry(v.path, file)];
      closed := closed + [v.file];
    }

    /** Drops the last node of a full list. */
    method MakeRoom()
      requires Valid()
      modifies this`list, this`hash, this`uses, this`closed
      ensures Valid() && State() == Evicted(max, old(State()))
      ensures forall p :: p in hash ==> p in old(hash)
    {
      EntriesAt(list, heap);
      if |list| >= max && list != [] {
        DeleteUnsafe(list[|list| - 1]);
      }
    }

    method PushFront(path: string, file: Handle)
      requires Valid() && path !in hash
      modifies this`list, this`hash, this`heap, this`next
      ensures Valid()
      ensures State() == old(State()).(entries := [Entry(path, file)] + old(State()).entries)
    {
      var node := next;
      next := next + 1;
      assert node !in list;
      OthersBijective(list, hash, heap, heap[node := Entry(path, file)]);
      heap := heap[node := Entry(path, file)];
      AddedBijective(list, node, hash, heap);
      hash := hash[path := node];
      list := [node] + list;
    }

    /** A new path is put in front, once there is room for it. */
    method Add(path: string, file: Handle)
      requires Valid() && path !in hash
      modifies this
      ensures Valid()
      ensures var e := Evicted(max, old(State()));
        State() == e.(entries := [Entry(path, file)] + e.entries)
    {
      MakeRoom();
      PushFront(path, file);
    }

    method Close()
      requires Valid()
      modifies this
      ensures Valid() && State() == Apply(max, old(State()), Op.Close)
    {
      EntriesAt(list, heap);
      ghost var es := EntriesOf(list, heap);
      for i := 0 to |list|
        invariant list == old(list) && uses == old(uses) && heap == old(heap) && next == old(next)
        invariant closed == old(closed) + Files(es[..i])
      {
        assert Files(es[..i + 1]) == Files(es[..i]) + [es[i].file];
        closed := closed + [heap[list[i]].file];
      }
      assert es[..|list|] == es;
      list := [];
      hash := map[];
    }
  }
}
