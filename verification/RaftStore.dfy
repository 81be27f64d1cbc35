/** raft_badger_store.go: keys in big-endian order. */
module RaftKeys {
  type Byte = x: nat | x < 256
  type Key = seq<Byte>
  type U64 = x: nat | x < 0x1_0000_0000_0000_0000

  function Pow256(n: nat): nat { if n == 0 then 1 else 256 * Pow256(n - 1) }

  /** The `n` low bytes of `x`, the most significant first. */
  function BigEndian(x: nat, n: nat): (b: Key)
    ensures |b| == n
  {
    if n == 0 then [] else BigEndian(x / 256, n - 1) + [x % 256]
  }

  function FromBigEndian(b: Key): nat {
    if b == [] then 0 else 256 * FromBigEndian(b[..|b| - 1]) + b[|b| - 1]
  }

  lemma {:induction false} BigEndianUndone(x: nat, n: nat)
    requires x < Pow256(n)
    ensures FromBigEndian(BigEndian(x, n)) == x
    decreases n
  {
    if n > 0 {
      BigEndianUndone(x / 256, n - 1);
      assert BigEndian(x, n)[..n - 1] == BigEndian(x / 256, n - 1);
    }
  }

  lemma {:induction false} FromBigEndianUndone(b: Key)
    ensures FromBigEndian(b) < Pow256(|b|) && BigEndian(FromBigEndian(b), |b|) == b
    decreases |b|
  {
    if b != [] {
      FromBigEndianUndone(b[..|b| - 1]);
      assert b == b[..|b| - 1] + [b[|b| - 1]];
    }
  }

  /** The order of the key store: byte by byte, a prefix before what extends it. */
  predicate Less(a: Key, b: Key) {
    if b == [] then false
    else if a == [] then true
    else if a[0] != b[0] then a[0] < b[0]
    else Less(a[1..], b[1..])
  }

  lemma {:induction false} LessIsTotal(a: Key, b: Key)
    ensures Less(a, b) || a == b || Less(b, a)
    ensures !(Less(a, b) && Less(b, a)) && (a == b ==> !Less(a, b))
    decreases |a|
  {
    if a != [] && b != [] && a[0] == b[0] {
      LessIsTotal(a[1..], b[1..]);
      assert a == [a[0]] + a[1..] && b == [b[0]] + b[1..];
    }
  }

  lemma {:induction false} LessTrans(a: Key, b: Key, c: Key)
    requires Less(a, b) && Less(b, c)
    ensures Less(a, c)
    decreases |a|
  {
    if a != [] && a[0] == b[0] == c[0] {
      LessTrans(a[1..], b[1..], c[1..]);
    }
  }

  lemma {:induction false} LessBehind(p: Key, a: Key, b: Key)
    ensures Less(p + a, p + b) <==> Less(a, b)
    decreases |p|
  {
    if p == [] {
      assert p + a == a && p + b == b;
    } else {
      assert (p + a)[1..] == p[1..] + a && (p + b)[1..] == p[1..] + b;
      LessBehind(p[1..], a, b);
    }
  }

  lemma {:induction false} LessWithLast(a: Key, b: Key, x: Byte, y: Byte)
    requires |a| == |b|
    ensures Less(a + [x], b + [y]) <==> Less(a, b) || (a == b && x < y)
    decreases |a|
  {
    if a == [] {
      assert a + [x] == [x] && b + [y] == [y];
    } else {
      assert (a + [x])[1..] == a[1..] + [x] && (b + [y])[1..] == b[1..] + [y];
      LessWithLast(a[1..], b[1..], x, y);
      assert a == [a[0]] + a[1..] && b == [b[0]] + b[1..];
    }
  }

  /** Big-endian bytes are ordered as the numbers are. */
  lemma {:induction false} BigEndianKeepsOrder(x: nat, y: nat, n: nat)
    requires x < Pow256(n) && y < Pow256(n)
    ensures Less(BigEndian(x, n), BigEndian(y, n)) <==> x < y
    decreases n
  {
    if n > 0 {
      BigEndianKeepsOrder(x / 256, y / 256, n - 1);
      LessWithLast(BigEndian(x / 256, n - 1), BigEndian(y / 256, n - 1), x % 256, y % 256);
      BigEndianUndone(x / 256, n - 1);
      BigEndianUndone(y / 256, n - 1);
    }
  }

  // "/stable" and "/entry"
  const STABLE_PREFIX: Key := [47, 115, 116, 97, 98, 108, 101]
  const ENTRY_PREFIX: Key := [47, 101, 110, 116, 114, 121]

  function EntryKey(index: U64): Key { ENTRY_PREFIX + BigEndian(index, 8) }

  function StableKey(key: Key): Key { STABLE_PREFIX + key }

  predicate HasPrefix(key: Key, prefix: Key) { prefix <= key }

  /** binary.BigEndian.Uint64 on what follows the prefix. */
  function ParseEntryIndex(key: Key): nat
    requires |key| >= |ENTRY_PREFIX| + 8
  {
    FromBigEndian(key[|ENTRY_PREFIX|..|ENTRY_PREFIX| + 8])
  }

  lemma EightBytes()
    ensures Pow256(8) == 0x1_0000_0000_0000_0000
  {
    assert Pow256(4) == 0x1_0000_0000;
  }

  /** Entry keys are an order isomorphism, undone by parsing. */
  lemma EntryKeyIsomorphism(x: U64, y: U64)
    ensures ParseEntryIndex(EntryKey(x)) == x && HasPrefix(EntryKey(x), ENTRY_PREFIX)
    ensures Less(EntryKey(x), EntryKey(y)) <==> x < y
    ensures EntryKey(x) == EntryKey(y) <==> x == y
  {
    EightBytes();
    BigEndianUndone(x, 8);
    BigEndianKeepsOrder(x, y, 8);
    LessBehind(ENTRY_PREFIX, BigEndian(x, 8), BigEndian(y, 8));
    assert EntryKey(x)[|ENTRY_PREFIX|..|ENTRY_PREFIX| + 8] == BigEndian(x, 8);
    LessIsTotal(EntryKey(x), EntryKey(y));
    BigEndianKeepsOrder(y, x, 8);
    LessBehind(ENTRY_PREFIX, BigEndian(y, 8), BigEndian(x, 8));
  }

  /** Every key of fourteen bytes behind the entry prefix is the key of the index it parses to. */
  lemma EntryKeyOnto(key: Key)
    requires HasPrefix(key, ENTRY_PREFIX) && |key| == |ENTRY_PREFIX| + 8
    ensures ParseEntryIndex(key) < 0x1_0000_0000_0000_0000 && EntryKey(ParseEntryIndex(key)) == key
  {
    EightBytes();
    FromBigEndianUndone(key[|ENTRY_PREFIX|..|ENTRY_PREFIX| + 8]);
    assert key == ENTRY_PREFIX + key[|ENTRY_PREFIX|..|ENTRY_PREFIX| + 8];
  }

  lemma {:induction false} PrefixApart(p: Key, a: Key, b: Key, k: Key)
    requires !(p <= k)
    ensures Less(k, p + a) <==> Less(k, p + b)
    ensures Less(p + a, k) <==> Less(p + b, k)
    decreases |p|
  {
    if k != [] && p[0] == k[0] {
      assert (p + a)[1..] == p[1..] + a && (p + b)[1..] == p[1..] + b;
      assert p == [p[0]] + p[1..] && k == [k[0]] + k[1..];
      PrefixApart(p[1..], a, b, k[1..]);
    }
  }

  /** A key without the entry prefix lies before all entry keys or behind all of them. */
  lemma ForeignKeyApart(k: Key, x: U64, y: U64)
    requires !HasPrefix(k, ENTRY_PREFIX)
    ensures Less(k, EntryKey(x)) <==> Less(k, EntryKey(y))
    ensures Less(EntryKey(x), k) <==> Less(EntryKey(y), k)
  {
    PrefixApart(ENTRY_PREFIX, BigEndian(x, 8), BigEndian(y, 8), k);
  }

  /** Stable keys are apart from entry keys, and behind all of them. */
  lemma StableBehindEntries(x: U64, k: Key)
    ensures Less(EntryKey(x), StableKey(k)) && !HasPrefix(StableKey(k), ENTRY_PREFIX)
  {
    var a, b := EntryKey(x), StableKey(k);
    assert a[0] == b[0] && a[1..][0] == 101 && b[1..][0] == 115;
  }
}

/** raft_badger_store.go: the log and stable stores over one ordered key store. */
module RaftStore {
  import opened Common
  import opened RaftKeys

  datatype Log = Log(index: U64, term: U64, data: string)

  /** A stored value: an entry through its (injective) encoding, or bytes as they are. */
  datatype Value = Entry(log: Log) | Raw(bytes: Key)

  /** The result of a read that can also miss or run past the bytes stored. */
  datatype Read<T> = Got(value: T) | NotFound | Panics

  datatype Item = Item(key: Key, value: Value)

  // ---- The ordered key store ----

  predicate Sorted(db: seq<Item>) { forall i, j :: 0 <= i < j < |db| ==> Less(db[i].key, db[j].key) }

  function Lookup(db: seq<Item>, key: Key): Option<Value> {
    if db == [] then None else if db[0].key == key then Some(db[0].value) else Lookup(db[1..], key)
  }

  function Put(db: seq<Item>, key: Key, value: Value): seq<Item> {
    if db == [] || Less(key, db[0].key) then [Item(key, value)] + db
    else if db[0].key == key then [Item(key, value)] + db[1..]
    else [db[0]] + Put(db[1..], key, value)
  }

  function Remove(db: seq<Item>, key: Key): seq<Item> {
    if db == [] then [] else if db[0].key == key then db[1..] else [db[0]] + Remove(db[1..], key)
  }

  /** How many keys come before `key`: where a forward seek stops. */
  function Before(db: seq<Item>, key: Key): (n: nat)
    ensures n <= |db|
    ensures forall i :: 0 <= i < n ==> Less(db[i].key, key)
    ensures n < |db| ==> !Less(db[n].key, key)
  {
    if db == [] || !Less(db[0].key, key) then 0 else 1 + Before(db[1..], key)
  }

  /** How many keys come before `key` or are it: behind where a reverse seek stops. */
  function UpTo(db: seq<Item>, key: Key): (n: nat)
    ensures n <= |db|
    ensures forall i :: 0 <= i < n ==> !Less(key, db[i].key)
    ensures n < |db| ==> Less(key, db[n].key)
  {
    if db == [] || Less(key, db[0].key) then 0 else 1 + UpTo(db[1..], key)
  }

  lemma {:induction false} LookupFinds(db: seq<Item>, key: Key)
    requires Sorted(db)
    ensures Lookup(db, key).Some? <==> exists i :: 0 <= i < |db| && db[i].key == key
    ensures forall i :: 0 <= i < |db| && db[i].key == key ==> Lookup(db, key) == Some(db[i].value)
    decreases |db|
  {
    if db != [] {
      LookupFinds(db[1..], key);
      forall i | 0 <= i < |db| && db[i].key == key
        ensures Lookup(db, key) == Some(db[i].value)
      {
        LessIsTotal(db[0].key, key);
        if i > 0 {
          assert db[1..][i - 1] == db[i];
        }
      }
      if Lookup(db[1..], key).Some? {
        var i :| 0 <= i < |db[1..]| && db[1..][i].key == key;
        assert db[i + 1].key == key;
      }
    }
  }

  lemma {:induction false} PutKeys(db: seq<Item>, key: Key, value: Value)
    ensures forall x <- Put(db, key, value) :: x in db || x == Item(key, value)
    decreases |db|
  {
    if !(db == [] || Less(key, db[0].key)) && db[0].key != key {
      PutKeys(db[1..], key, value);
    }
  }

  lemma {:induction false} PutLookup(db: seq<Item>, key: Key, value: Value, k: Key)
    requires Sorted(db)
    ensures Lookup(Put(db, key, value), k) == if k == key then Some(value) else Lookup(db, k)
    decreases |db|
  {
    var p := Put(db, key, value);
    if db == [] || Less(key, db[0].key) {
      assert p[1..] == db;
    } else if db[0].key == key {
      assert p[1..] == db[1..];
    } else {
      assert p[1..] == Put(db[1..], key, value);
      PutLookup(db[1..], key, value, k);
    }
  }

  lemma {:induction false} PutSorted(db: seq<Item>, key: Key, value: Value)
    requires Sorted(db)
    ensures Sorted(Put(db, key, value))
    decreases |db|
  {
    var p := Put(db, key, value);
    if db == [] {
    } else if Less(key, db[0].key) {
      forall j | 0 <= j < |db|
        ensures Less(key, db[j].key)
      {
        if j > 0 {
          LessTrans(key, db[0].key, db[j].key);
        }
      }
    } else if db[0].key != key {
      PutSorted(db[1..], key, value);
      PutKeys(db[1..], key, value);
      LessIsTotal(db[0].key, key);
      var rest := Put(db[1..], key, value);
      forall j | 0 <= j < |rest|
        ensures Less(db[0].key, rest[j].key)
      {
        assert rest[j] in rest;
        if rest[j] in db[1..] {
          var i :| 0 <= i < |db[1..]| && db[1..][i] == rest[j];
          assert Less(db[0].key, db[i + 1].key);
        }
      }
    }
  }

  lemma {:induction false} RemoveKeys(db: seq<Item>, key: Key)
    ensures forall x <- Remove(db, key) :: x in db
    decreases |db|
  {
    if db != [] && db[0].key != key {
      RemoveKeys(db[1..], key);
    }
  }

  lemma {:induction false} RemoveSorted(db: seq<Item>, key: Key)
    requires Sorted(db)
    ensures Sorted(Remove(db, key))
    decreases |db|
  {
    if db != [] && db[0].key != key {
      RemoveSorted(db[1..], key);
      RemoveKeys(db[1..], key);
      var rest := Remove(db[1..], key);
      forall j | 0 <= j < |rest|
        ensures Less(db[0].key, rest[j].key)
      {
        assert rest[j] in rest;
        var i :| 0 <= i < |db[1..]| && db[1..][i] == rest[j];
        assert Less(db[0].key, db[i + 1].key);
      }
    }
  }

  lemma {:induction false} RemoveLookup(db: seq<Item>, key: Key, k: Key)
    requires Sorted(db)
    ensures Lookup(Remove(db, key), k) == if k == key then None else Lookup(db, k)
    decreases |db|
  {
    if db != [] {
      if db[0].key == key {
        LookupFinds(db[1..], key);
        LessIsTotal(key, key);
        assert forall i :: 0 <= i < |db[1..]| ==> Less(key, db[i + 1].key) && db[1..][i] == db[i + 1];
      } else {
        var r := Remove(db, key);
        assert r[1..] == Remove(db[1..], key);
        RemoveLookup(db[1..], key, k);
      }
    }
  }

  // ---- Entries and stable values in it ----

  /** Under the entry prefix there are only the store's entries; other keys may be anything. */
  predicate Written(x: Item) {
    if HasPrefix(x.key, ENTRY_PREFIX) then x.value.Entry? && x.key == EntryKey(x.value.log.index) else x.value.Raw?
  }

  predicate ValidDb(db: seq<Item>) { Sorted(db) && forall i :: 0 <= i < |db| ==> Written(db[i]) }

  /** The raft log the store holds: the entry at an index. */
  function LogAt(db: seq<Item>, index: U64): Option<Log> {
    match Lookup(db, EntryKey(index))
    case Some(Entry(log)) => Some(log)
    case _ => None
  }

  function StableAt(db: seq<Item>, key: Key): Option<Key> {
    match Lookup(db, StableKey(key))
    case Some(Raw(bytes)) => Some(bytes)
    case _ => None
  }

  lemma ValidPut(db: seq<Item>, key: Key, value: Value)
    requires ValidDb(db) && Written(Item(key, value))
    ensures ValidDb(Put(db, key, value))
  {
    PutSorted(db, key, value);
    PutKeys(db, key, value);
    var p := Put(db, key, value);
    forall i | 0 <= i < |p|
      ensures Written(p[i])
    {
      assert p[i] in p;
    }
  }

  lemma ValidRemove(db: seq<Item>, key: Key)
    requires ValidDb(db)
    ensures ValidDb(Remove(db, key))
  {
    RemoveSorted(db, key);
    RemoveKeys(db, key);
    var p := Remove(db, key);
    forall i | 0 <= i < |p|
      ensures Written(p[i])
    {
      assert p[i] in p;
    }
  }

  lemma EntryItem(db: seq<Item>, m: nat)
    requires ValidDb(db) && m < |db| && HasPrefix(db[m].key, ENTRY_PREFIX)
    ensures db[m].value.Entry?
    ensures var log := db[m].value.log;
      && db[m].key == EntryKey(log.index) && ParseEntryIndex(db[m].key) == log.index
      && LogAt(db, log.index) == Some(log)
  {
    assert Written(db[m]);
    var i := db[m].value.log.index;
    EntryKeyIsomorphism(i, i);
    LookupFinds(db, EntryKey(i));
  }

  /** An index that is in the log stands in the key store, in its place. */
  lemma LogItem(db: seq<Item>, index: U64) returns (m: nat)
    requires ValidDb(db) && LogAt(db, index).Some?
    ensures m < |db| && db[m].key == EntryKey(index) && HasPrefix(db[m].key, ENTRY_PREFIX)
    ensures db[m].value.Entry? && db[m].value.log.index == index
  {
    LookupFinds(db, EntryKey(index));
    m :| 0 <= m < |db| && db[m].key == EntryKey(index);
    EntryKeyIsomorphism(index, index);
    assert Written(db[m]);
    EntryKeyIsomorphism(index, db[m].value.log.index);
  }

  // ---- Seeking ----

  /** seekEntry: the index under the iterator after a seek, if it is still among the entries. */
  function Sought(db: seq<Item>, target: U64, reverse: bool): Option<nat>
    requires ValidDb(db)
  {
    var n := if reverse then UpTo(db, EntryKey(target)) - 1 else Before(db, EntryKey(target));
    if 0 <= n < |db| && HasPrefix(db[n].key, ENTRY_PREFIX)
    then EntryItem(db, n); Some(ParseEntryIndex(db[n].key))
    else None
  }

  lemma SameOrder(db: seq<Item>, m: nat, n: nat)
    requires Sorted(db) && m < |db| && n < |db|
    ensures Less(db[m].key, db[n].key) <==> m < n
  {
    LessIsTotal(db[m].key, db[n].key);
  }

  /** A forward seek finds the least index not below the target, and misses only if there is none. */
  lemma SeekForward(db: seq<Item>, target: U64)
    requires ValidDb(db)
    ensures var r := Sought(db, target, false);
      && (r.Some? ==> target <= r.value < 0x1_0000_0000_0000_0000 && LogAt(db, r.value).Some?)
      && (forall j: U64 :: target <= j && LogAt(db, j).Some? ==> r.Some? && r.value <= j)
  {
    var r, n := Sought(db, target, false), Before(db, EntryKey(target));
    if r.Some? {
      EntryItem(db, n);
      EntryKeyIsomorphism(r.value, target);
    }
    forall j: U64 | target <= j && LogAt(db, j).Some?
      ensures r.Some? && r.value <= j
    {
      var m := LogItem(db, j);
      EntryKeyIsomorphism(j, target);
      assert n <= m;
      assert Written(db[n]);
      SameOrder(db, n, m);
      SameOrder(db, m, n);
      if !HasPrefix(db[n].key, ENTRY_PREFIX) {
        ForeignKeyApart(db[n].key, j, target);
      } else {
        EntryKeyIsomorphism(j, r.value);
      }
    }
  }

  /** A reverse seek finds the greatest index not above the target, and misses only if there is none. */
  lemma SeekReverse(db: seq<Item>, target: U64)
    requires ValidDb(db)
    ensures var r := Sought(db, target, true);
      && (r.Some? ==> r.value <= target && LogAt(db, r.value).Some?)
      && (forall j: U64 :: j <= target && LogAt(db, j).Some? ==> r.Some? && j <= r.value)
  {
    var r, n := Sought(db, target, true), UpTo(db, EntryKey(target)) - 1;
    if r.Some? {
      EntryItem(db, n);
      EntryKeyIsomorphism(target, r.value);
    }
    forall j: U64 | j <= target && LogAt(db, j).Some?
      ensures r.Some? && j <= r.value
    {
      var m := LogItem(db, j);
      EntryKeyIsomorphism(target, j);
      if m > n + 1 {
        LessTrans(EntryKey(target), db[n + 1].key, db[m].key);
      }
      assert Written(db[n]);
      SameOrder(db, n, m);
      if !HasPrefix(db[n].key, ENTRY_PREFIX) {
        SameOrder(db, m, n);
        ForeignKeyApart(db[n].key, j, target);
      } else {
        EntryKeyIsomorphism(r.value, j);
      }
    }
  }

  // ---- What writes keep ----

  lemma StorePut(db: seq<Item>, log: Log)
    requires ValidDb(db)
    ensures var p := Put(db, EntryKey(log.index), Entry(log));
      && ValidDb(p)
      && (forall j: U64 :: LogAt(p, j) == if j == log.index then Some(log) else LogAt(db, j))
      && (forall k :: StableAt(p, k) == StableAt(db, k))
  {
    var key := EntryKey(log.index);
    EntryKeyIsomorphism(log.index, log.index);
    ValidPut(db, key, Entry(log));
    forall j: U64
      ensures LogAt(Put(db, key, Entry(log)), j) == if j == log.index then Some(log) else LogAt(db, j)
    {
      EntryKeyIsomorphism(j, log.index);
      PutLookup(db, key, Entry(log), EntryKey(j));
    }
    forall k
      ensures StableAt(Put(db, key, Entry(log)), k) == StableAt(db, k)
    {
      StableBehindEntries(log.index, k);
      PutLookup(db, key, Entry(log), StableKey(k));
    }
  }

  /** Stable writes do not disturb entries. */
  lemma StablePut(db: seq<Item>, key: Key, bytes: Key)
    requires ValidDb(db)
    ensures var p := Put(db, StableKey(key), Raw(bytes));
      && ValidDb(p)
      && (forall j: U64 :: LogAt(p, j) == LogAt(db, j))
      && (forall k :: StableAt(p, k) == if k == key then Some(bytes) else StableAt(db, k))
  {
    StableBehindEntries(0, key);
    ValidPut(db, StableKey(key), Raw(bytes));
    forall j: U64
      ensures LogAt(Put(db, StableKey(key), Raw(bytes)), j) == LogAt(db, j)
    {
      StableBehindEntries(j, key);
      EntryKeyIsomorphism(j, j);
      PutLookup(db, StableKey(key), Raw(bytes), EntryKey(j));
    }
    forall k
      ensures StableAt(Put(db, StableKey(key), Raw(bytes)), k) == if k == key then Some(bytes) else StableAt(db, k)
    {
      assert k == StableKey(k)[|STABLE_PREFIX|..] && key == StableKey(key)[|STABLE_PREFIX|..];
      PutLookup(db, StableKey(key), Raw(bytes), StableKey(k));
    }
  }

  // ---- Deleting a range ----

  predicate EntryWithin(x: Item, from: nat, to: nat) {
    HasPrefix(x.key, ENTRY_PREFIX) && x.value.Entry? && from <= x.value.log.index <= to
  }

  /** Entries from where a forward seek stops are not below its target. */
  lemma NotBelow(db: seq<Item>, from: U64, start: nat, i: nat)
    requires ValidDb(db) && start == Before(db, EntryKey(from)) && start <= i < |db|
    requires db[i].value.Entry? && db[i].key == EntryKey(db[i].value.log.index)
    ensures from <= db[i].value.log.index
  {
    EntryKeyIsomorphism(db[i].value.log.index, from);
    BehindSeek(db, EntryKey(from), i);
  }

  lemma BehindSeek(db: seq<Item>, key: Key, i: nat)
    requires Sorted(db) && Before(db, key) <= i < |db|
    ensures !Less(db[i].key, key)
  {
    var n := Before(db, key);
    if i > n && Less(db[i].key, key) {
      LessTrans(db[n].key, db[i].key, key);
    }
  }

  /** Every entry in the range lies in the stretch scanned. */
  lemma ScannedAll(db: seq<Item>, from: U64, to: U64, start: nat, i: nat, j: U64) returns (m: nat)
    requires ValidDb(db) && start == Before(db, EntryKey(from)) && start <= i <= |db|
    requires i < |db| ==> !EntryWithin(db[i], 0, to)
    requires from <= j <= to && LogAt(db, j).Some?
    ensures start <= m < i && db[m].key == EntryKey(j)
  {
    m := LogItem(db, j);
    EntryKeyIsomorphism(j, from);
    if m >= i {
      SameOrder(db, m, i);
      SameOrder(db, i, m);
      assert Written(db[i]);
      if HasPrefix(db[i].key, ENTRY_PREFIX) {
        EntryItem(db, i);
        EntryKeyIsomorphism(j, db[i].value.log.index);
      } else {
        ForeignKeyApart(db[i].key, j, from);
        BehindSeek(db, EntryKey(from), i);
      }
    }
  }

  ghost predicate InRange(db: seq<Item>, from: U64, to: U64, k: Key) {
    exists j: U64 :: from <= j <= to && LogAt(db, j).Some? && k == EntryKey(j)
  }

  /** `keys` are the keys of the entries in the range, and no others. */
  ghost predicate KeysOfRange(db: seq<Item>, from: U64, to: U64, keys: seq<Key>) {
    && (forall x :: 0 <= x < |keys| ==> InRange(db, from, to, keys[x]))
    && (forall k :: InRange(db, from, to, k) ==> k in keys)
  }

  lemma KeysInRange(db: seq<Item>, from: U64, to: U64, start: nat, i: nat, keys: seq<Key>)
    requires ValidDb(db) && start <= i <= |db|
    requires |keys| == i - start && forall x :: 0 <= x < |keys| ==> keys[x] == db[start + x].key
    requires forall m :: start <= m < i ==> EntryWithin(db[m], from, to)
    ensures forall x :: 0 <= x < |keys| ==> InRange(db, from, to, keys[x])
  {
    forall x | 0 <= x < |keys|
      ensures InRange(db, from, to, keys[x])
    {
      KeyInRange(db, from, to, start + x);
    }
  }

  lemma KeyInRange(db: seq<Item>, from: U64, to: U64, m: nat)
    requires ValidDb(db) && m < |db| && EntryWithin(db[m], from, to)
    ensures InRange(db, from, to, db[m].key)
  {
    EntryItem(db, m);
    var j: U64 := db[m].value.log.index;
    assert from <= j <= to && LogAt(db, j).Some? && db[m].key == EntryKey(j);
  }

  lemma RangeInKeys(db: seq<Item>, from: U64, to: U64, start: nat, i: nat, keys: seq<Key>, k: Key)
    requires ValidDb(db) && start == Before(db, EntryKey(from)) && start <= i <= |db|
    requires |keys| == i - start && forall x :: 0 <= x < |keys| ==> keys[x] == db[start + x].key
    requires (i < |db| ==> !EntryWithin(db[i], 0, to)) && InRange(db, from, to, k)
    ensures k in keys
  {
    var j: U64 :| from <= j <= to && LogAt(db, j).Some? && k == EntryKey(j);
    var m := ScannedAll(db, from, to, start, i, j);
    assert keys[m - start] == db[start + (m - start)].key;
  }

  /** The keys from `start` to `i` are collected, all of them of the range. */
  predicate Scanned(db: seq<Item>, from: U64, to: U64, start: nat, i: nat, keys: seq<Key>) {
    && start <= i <= |db| && |keys| == i - start
    && (forall x :: 0 <= x < |keys| ==> keys[x] == db[start + x].key)
    && (forall m :: start <= m < i ==> EntryWithin(db[m], from, to))
  }

  lemma ScannedOne(db: seq<Item>, from: U64, to: U64, start: nat, i: nat, keys: seq<Key>)
    requires i < |db| && Scanned(db, from, to, start, i, keys) && EntryWithin(db[i], from, to)
    ensures Scanned(db, from, to, start, i + 1, keys + [db[i].key])
  {
  }

  /** A scan from the first key not below the range to one beyond it has collected the range. */
  lemma Collected(db: seq<Item>, from: U64, to: U64, start: nat, i: nat, keys: seq<Key>)
    requires ValidDb(db) && start == Before(db, EntryKey(from)) && Scanned(db, from, to, start, i, keys)
    requires i < |db| ==> !EntryWithin(db[i], 0, to)
    ensures KeysOfRange(db, from, to, keys)
  {
    KeysInRange(db, from, to, start, i, keys);
    forall k | InRange(db, from, to, k)
      ensures k in keys
    {
      RangeInKeys(db, from, to, start, i, keys, k);
    }
  }

  lemma RangeRemoved(was: seq<Item>, db: seq<Item>, min: U64, max: U64, keys: seq<Key>)
    requires KeysOfRange(was, min, max, keys)
    requires forall k :: Lookup(db, k) == if k in keys then None else Lookup(was, k)
    ensures forall j: U64 :: LogAt(db, j) == if min <= j <= max then None else LogAt(was, j)
    ensures forall k :: StableAt(db, k) == StableAt(was, k)
  {
    forall j: U64
      ensures LogAt(db, j) == if min <= j <= max then None else LogAt(was, j)
    {
      if EntryKey(j) in keys {
        assert InRange(was, min, max, EntryKey(j));
        var i: U64 :| min <= i <= max && LogAt(was, i).Some? && EntryKey(j) == EntryKey(i);
        EntryKeyIsomorphism(i, j);
      } else if min <= j <= max {
        assert !InRange(was, min, max, EntryKey(j));
      }
    }
    forall k
      ensures StableAt(db, k) == StableAt(was, k)
    {
      if StableKey(k) in keys {
        assert InRange(was, min, max, StableKey(k));
        var i: U64 :| min <= i <= max && LogAt(was, i).Some? && StableKey(k) == EntryKey(i);
        EntryKeyIsomorphism(i, i);
        StableBehindEntries(i, k);
      }
    }
  }

  // ---- The store ----

  class Store {
    var db: seq<Item>

    ghost predicate Valid()
      reads this
    {
      ValidDb(db)
    }

    constructor ()
      ensures Valid() && db == []
    {
      db := [];
    }

    method Set(key: Key, value: Key)
      requires Valid()
      modifies this
      ensures Valid()
      ensures forall k :: StableAt(db, k) == if k == key then Some(value) else StableAt(old(db), k)
      ensures forall j: U64 :: LogAt(db, j) == LogAt(old(db), j)
    {
      StablePut(db, key, value);
      db := Put(db, StableKey(key), Raw(value));
    }

    method Get(key: Key) returns (r: Read<Key>)
      requires Valid()
      ensures r == match StableAt(db, key) case Some(bytes) => Got(bytes) case None => NotFound
    {
      var v := Lookup(db, StableKey(key));
      LookupFinds(db, StableKey(key));
      StableBehindEntries(0, key);
      return if v.Some? && v.value.Raw? then Got(v.value.bytes) else NotFound;
    }

    method SetUint64(key: Key, value: U64)
      requires Valid()
      modifies this
      ensures Valid()
      ensures forall k :: StableAt(db, k) == if k == key then Some(BigEndian(value, 8)) else StableAt(old(db), k)
      ensures forall j: U64 :: LogAt(db, j) == LogAt(old(db), j)
    {
      Set(key, BigEndian(value, 8));
    }

    /** A missing key reads as zero; fewer than eight bytes stored are read past. */
    method GetUint64(key: Key) returns (r: Read<nat>)
      requires Valid()
      ensures match StableAt(db, key)
        case None => r == Got(0)
        case Some(bytes) =>
          && (r.Panics? <==> |bytes| < 8)
          && (forall x: U64 :: bytes == BigEndian(x, 8) ==> r == Got(x))
    {
      var v := Get(key);
      if v.NotFound? {
        return Got(0);
      }
      if |v.value| < 8 {
        return Panics;
      }
      r := Got(FromBigEndian(v.value[..8]));
      forall x: U64 | v.value == BigEndian(x, 8)
        ensures r == Got(x)
      {
        EightBytes();
        BigEndianUndone(x, 8);
        assert v.value[..8] == v.value;
      }
    }

    method SeekEntry(target: U64, reverse: bool) returns (r: Read<nat>)
      requires Valid()
      ensures r == match Sought(db, target, reverse) case Some(i) => Got(i) case None => NotFound
    {
      var n := if reverse then UpTo(db, EntryKey(target)) - 1 else Before(db, EntryKey(target));
      if !(0 <= n < |db| && HasPrefix(db[n].key, ENTRY_PREFIX)) {
        return NotFound;
      }
      EntryItem(db, n);
      return Got(ParseEntryIndex(db[n].key));
    }

    /** The greatest index in the log; an error on an empty log. */
    method LastIndex() returns (r: Read<nat>)
      requires Valid()
      ensures r.Got? ==> r.value < 0x1_0000_0000_0000_0000 && LogAt(db, r.value).Some?
      ensures forall j: U64 :: LogAt(db, j).Some? ==> r.Got? && j <= r.value
      ensures !r.Panics?
    {
      r := SeekEntry(0xFFFF_FFFF_FFFF_FFFF, true);
      SeekReverse(db, 0xFFFF_FFFF_FFFF_FFFF);
    }

    method GetLog(index: U64) returns (r: Read<Log>)
      requires Valid()
      ensures r == match LogAt(db, index) case Some(log) => Got(log) case None => NotFound
    {
      var v := Lookup(db, EntryKey(index));
      return if v.Some? && v.value.Entry? then Got(v.value.log) else NotFound;
    }

    method StoreLog(log: Log)
      requires Valid()
      modifies this
      ensures Valid()
      ensures forall j: U64 :: LogAt(db, j) == if j == log.index then Some(log) else LogAt(old(db), j)
      ensures forall k :: StableAt(db, k) == StableAt(old(db), k)
    {
      StorePut(db, log);
      db := Put(db, EntryKey(log.index), Entry(log));
    }

    /** Of several logs with one index the last is stored. */
    method StoreLogs(logs: seq<Log>)
      requires Valid()
      modifies this
      ensures Valid()
      ensures forall j: U64 :: LogAt(db, j) == if LastWith(logs, j).Some? then LastWith(logs, j) else LogAt(old(db), j)
      ensures forall k :: StableAt(db, k) == StableAt(old(db), k)
    {
      for i := 0 to |logs|
        invariant Valid()
        invariant forall j: U64 ::
          LogAt(db, j) == if LastWith(logs[..i], j).Some? then LastWith(logs[..i], j) else LogAt(old(db), j)
        invariant forall k :: StableAt(db, k) == StableAt(old(db), k)
      {
        assert logs[..i + 1][..i] == logs[..i];
        StoreLog(logs[i]);
      }
      assert logs[..|logs|] == logs;
    }

    /** parseEntryIndex of the key under the iterator. */
    method IndexAt(i: nat) returns (idx: nat)
      requires Valid() && i < |db| && HasPrefix(db[i].key, ENTRY_PREFIX)
      ensures db[i].value.Entry? && db[i].key == EntryKey(db[i].value.log.index) && idx == db[i].value.log.index
    {
      EntryItem(db, i);
      idx := ParseEntryIndex(db[i].key);
    }

    /** The keys of the entries from `from` to `to`, collected by a scan that stops at the first beyond. */
    method CollectRange(from: U64, to: U64) returns (keys: seq<Key>)
      requires Valid()
      ensures KeysOfRange(db, from, to, keys)
    {
      keys := [];
      ghost var start := Before(db, EntryKey(from));
      var i := Before(db, EntryKey(from));
      while i < |db| && HasPrefix(db[i].key, ENTRY_PREFIX)
        invariant Scanned(db, from, to, start, i, keys)
      {
        var idx := IndexAt(i);
        NotBelow(db, from, start, i);
        if idx > to {
          break;
        }
        ScannedOne(db, from, to, start, i, keys);
        keys := keys + [db[i].key];
        i := i + 1;
      }
      Collected(db, from, to, start, i, keys);
    }

    /** Removes exactly the entries from `min` to `max`. */
    method DeleteRange(min: U64, max: U64)
      requires Valid()
      modifies this
      ensures Valid()
      ensures forall j: U64 :: LogAt(db, j) == if min <= j <= max then None else LogAt(old(db), j)
      ensures forall k :: StableAt(db, k) == StableAt(old(db), k)
    {
      var keys := CollectRange(min, max);
      for i := 0 to |keys|
        invariant Valid()
        invariant forall k :: Lookup(db, k) == if k in keys[..i] then None else Lookup(old(db), k)
      {
        ValidRemove(db, keys[i]);
        forall k
          ensures Lookup(Remove(db, keys[i]), k) == if k == keys[i] then None else Lookup(db, k)
        {
          RemoveLookup(db, keys[i], k);
        }
        db := Remove(db, keys[i]);
        assert keys[..i + 1] == keys[..i] + [keys[i]];
      }
      assert keys[..|keys|] == keys;
      RangeRemoved(old(db), db, min, max, keys);
    }
  }

  function LastWith(logs: seq<Log>, index: U64): Option<Log> {
    if logs == [] then None
    else if logs[|logs| - 1].index == index then Some(logs[|logs| - 1])
    else LastWith(logs[..|logs| - 1], index)
  }
}
