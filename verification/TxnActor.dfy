/** opa_backend_store.go: one goroutine serves a transaction to any number of callers. */
module TxnActor {
  import opened Common

  type Key = string
  type Bytes = string

  /** The events of `send`, by name; `Other` is any name the actor does not know. */
  datatype Event =
    | ReadKey(key: Key) | WriteKey(key: Key, value: Bytes) | Id | Abort | Commit | Other(name: string)

  datatype Failure = EmptyKey | KeyNotFound | ReadOnly | InvalidKey

  datatype Reply = Value(bytes: Bytes) | Written | TxnId(id: nat) | Error(why: Failure)

  /** A badger transaction: what it reads, what it has written, and the actor's `id` field. */
  datatype Txn = Txn(update: bool, base: map<Key, Bytes>, pending: map<Key, Bytes>, readTs: nat, id: nat)

  const BADGER_PREFIX: string := "!badger!"

  function Lookup(t: Txn, key: Key): Reply {
    if key == "" then Error(EmptyKey)
    else if t.update && key in t.pending then Value(t.pending[key])
    else if key in t.base then Value(t.base[key])
    else Error(KeyNotFound)
  }

  function Store(t: Txn, key: Key, value: Bytes): (Txn, Reply) {
    if !t.update then (t, Error(ReadOnly))
    else if key == "" then (t, Error(EmptyKey))
    else if BADGER_PREFIX <= key then (t, Error(InvalidKey))
    else (t.(pending := t.pending[key := value]), Written)
  }

  /** What the actor does with an event: the transaction afterwards, and the reply if there is one. */
  function Handled(t: Txn, e: Event): (Txn, Option<Reply>) {
    match e
    case ReadKey(key) => (t, Some(Lookup(t, key)))
    case WriteKey(key, value) => (Store(t, key, value).0, Some(Store(t, key, value).1))
    case Id =>
      var u := if t.id == 0 then t.(id := t.readTs) else t;
      (u, Some(TxnId(u.id)))
    case Abort => (t, None)
    case Commit => (t, None)
    case Other(_) => (t, None)
  }

  predicate Ends(e: Event) { e.Abort? || e.Commit? }

  /** The actor's own step, on its fields. */
  class Actor {
    var txn: Txn

    constructor (txn: Txn)
      ensures this.txn == txn
    {
      this.txn := txn;
    }

    /** The body of the loop: `done` when the goroutine returns. */
    method Handle(e: Event) returns (reply: Option<Reply>, done: bool)
      modifies this
      ensures (txn, reply) == Handled(old(txn), e) && done == Ends(e)
    {
      reply, done := None, false;
      match e {
        case ReadKey(key) => reply := Some(Lookup(txn, key));
        case WriteKey(key, value) =>
          var s := Store(txn, key, value);
          txn := s.0;
          reply := Some(s.1);
        case Id =>
          if txn.id == 0 {
            txn := txn.(id := txn.readTs);
          }
          reply := Some(TxnId(txn.id));
        case Abort => done := true;
        case Commit => done := true;
        case Other(_) =>
      }
    }
  }

  // ---- The rendezvous ----

  /** A call of `send`. */
  datatype Call = Ready | Blocked | Awaiting | Answered(reply: Reply) | Refused

  datatype Phase = Selecting | Replying(reply: Reply) | Finished

  /**
    * The calls with their events, the actor, whether `err` is set, and, to speak about them, the
    * calls accepted so far in order, and the transaction.
    */
  datatype World = World(events: seq<Event>, calls: seq<Call>, phase: Phase, failed: bool, accepted: seq<nat>, txn: Txn)

  datatype Action = Begin(i: nat) | Accept(i: nat) | Deliver(i: nat) | Cancel | Fail

  predicate Enabled(w: World, a: Action) {
    |w.calls| == |w.events| &&
    match a
    case Begin(i) => i < |w.calls| && w.calls[i].Ready?
    case Accept(i) => i < |w.calls| && w.calls[i].Blocked? && w.phase.Selecting?
    case Deliver(i) => i < |w.calls| && w.calls[i].Awaiting? && w.phase.Replying?
    case Cancel => w.phase.Selecting?
    case Fail => w.phase.Finished?
  }

  function Next(w: World, a: Action): World
    requires Enabled(w, a)
  {
    match a
    case Begin(i) => w.(calls := w.calls[i := if w.failed then Refused else Blocked])
    case Accept(i) =>
      var e := w.events[i];
      var (t, reply) := Handled(w.txn, e);
      w.(calls := w.calls[i := Awaiting], accepted := w.accepted + [i], txn := t,
         phase := if Ends(e) then Finished else if reply.Some? then Replying(reply.value) else Selecting)
    case Deliver(i) => w.(calls := w.calls[i := Answered(w.phase.reply)], phase := Selecting)
    case Cancel => w.(phase := Finished)
    case Fail => w.(failed := true)
  }

  // ---- The reference: events one after the other ----

  predicate Within(order: seq<nat>, n: nat) { forall k :: 0 <= k < |order| ==> order[k] < n }

  /** The transaction after the events of the given calls. */
  function After(t: Txn, events: seq<Event>, order: seq<nat>): Txn
    requires Within(order, |events|)
  {
    if order == [] then t
    else Handled(After(t, events, order[..|order| - 1]), events[order[|order| - 1]]).0
  }

  /** The reply to the call at position `k` of the order. */
  function ReplyAt(t: Txn, events: seq<Event>, order: seq<nat>, k: nat): Option<Reply>
    requires k < |order| && Within(order, |events|)
  {
    Handled(After(t, events, order[..k]), events[order[k]]).1
  }

  predicate Known(events: seq<Event>) { forall i :: 0 <= i < |events| ==> !events[i].Other? }

  function Begun(t: Txn, events: seq<Event>): World {
    World(events, seq(|events|, _ => Ready), Selecting, false, [], t)
  }

  // ---- The invariant ----

  /** The calls accepted are distinct, and are those that wait or were answered. */
  predicate AcceptedFit(w: World) {
    && |w.calls| == |w.events| && Within(w.accepted, |w.events|)
    && (forall k :: 0 <= k < |w.accepted| ==> w.calls[w.accepted[k]].Awaiting? || w.calls[w.accepted[k]].Answered?)
    && (forall j, k :: 0 <= j < k < |w.accepted| ==> w.accepted[j] != w.accepted[k])
  }

  /** Only the call accepted last may be waiting, and only while the actor owes a reply or is gone. */
  predicate WaitsAlone(w: World) {
    forall i :: 0 <= i < |w.calls| && w.calls[i].Awaiting? ==>
      !w.phase.Selecting? && w.accepted != [] && i == w.accepted[|w.accepted| - 1]
  }

  /** The call at position `k` of acceptance got the reply of the events taken one after the other. */
  predicate AnswerFits(t: Txn, w: World, k: nat)
    requires AcceptedFit(w) && k < |w.accepted|
  {
    var c := w.calls[w.accepted[k]];
    c.Answered? ==> ReplyAt(t, w.events, w.accepted, k) == Some(c.reply)
  }

  predicate Inv(t: Txn, w: World) {
    && Known(w.events) && AcceptedFit(w) && WaitsAlone(w)
    && w.txn == After(t, w.events, w.accepted)
    && (forall k :: 0 <= k < |w.accepted| ==> AnswerFits(t, w, k))
    && (forall i :: 0 <= i < |w.calls| && w.calls[i].Answered? ==> i in w.accepted)
    && (w.phase.Replying? ==>
        w.accepted != [] && ReplyAt(t, w.events, w.accepted, |w.accepted| - 1) == Some(w.phase.reply))
  }

  lemma ReplyLonger(t: Txn, events: seq<Event>, order: seq<nat>, i: nat, k: nat)
    requires Within(order, |events|) && i < |events| && k < |order|
    ensures Within(order + [i], |events|)
    ensures ReplyAt(t, events, order + [i], k) == ReplyAt(t, events, order, k)
  {
    assert (order + [i])[..k] == order[..k];
  }

  lemma AfterLonger(t: Txn, events: seq<Event>, order: seq<nat>, i: nat)
    requires Within(order, |events|) && i < |events|
    ensures Within(order + [i], |events|)
    ensures After(t, events, order + [i]) == Handled(After(t, events, order), events[i]).0
    ensures ReplyAt(t, events, order + [i], |order|) == Handled(After(t, events, order), events[i]).1
  {
    assert (order + [i])[..|order|] == order;
  }

  lemma KnownGoesOn(t: Txn, e: Event)
    requires !e.Other?
    ensures Ends(e) || Handled(t, e).1.Some?
  {
  }

  /** `v` is `w` with call `i` accepted and an actor that does not select again at once. */
  predicate Accepts(w: World, i: nat, v: World) {
    && i < |w.calls| && w.calls[i].Blocked? && w.phase.Selecting? && !v.phase.Selecting?
    && v.events == w.events && v.calls == w.calls[i := Awaiting] && v.accepted == w.accepted + [i]
  }

  lemma AcceptFits(w: World, i: nat, v: World)
    requires AcceptedFit(w) && WaitsAlone(w) && Accepts(w, i, v)
    ensures AcceptedFit(v) && WaitsAlone(v)
  {
    assert forall k :: 0 <= k < |w.accepted| ==> v.accepted[k] == w.accepted[k] && w.accepted[k] != i;
  }

  lemma AcceptAnswers(t: Txn, w: World, i: nat, v: World)
    requires Inv(t, w) && Accepts(w, i, v) && AcceptedFit(v)
    ensures forall k :: 0 <= k < |v.accepted| ==> AnswerFits(t, v, k)
    ensures forall j :: 0 <= j < |v.calls| && v.calls[j].Answered? ==> j in v.accepted
  {
    forall k | 0 <= k < |v.accepted|
      ensures AnswerFits(t, v, k)
    {
      if k < |w.accepted| {
        assert AnswerFits(t, w, k);
        assert v.accepted[k] == w.accepted[k];
        ReplyLonger(t, w.events, w.accepted, i, k);
      }
    }
    forall j | 0 <= j < |v.calls| && v.calls[j].Answered?
      ensures j in v.accepted
    {
      assert w.calls[j].Answered? && j in w.accepted;
    }
  }

  lemma AcceptKeeps(t: Txn, w: World, i: nat)
    requires Inv(t, w) && Enabled(w, Accept(i))
    ensures Inv(t, Next(w, Accept(i)))
  {
    var v := Next(w, Accept(i));
    KnownGoesOn(w.txn, w.events[i]);
    AcceptedKeeps(t, w, i, v);
  }

  /** The same of a state `v` given by its fields. */
  lemma AcceptedKeeps(t: Txn, w: World, i: nat, v: World)
    requires Inv(t, w) && Accepts(w, i, v) && v.txn == Handled(w.txn, w.events[i]).0
    requires v.phase.Replying? ==> Handled(w.txn, w.events[i]).1 == Some(v.phase.reply)
    ensures Inv(t, v)
  {
    AcceptFits(w, i, v);
    AcceptAnswers(t, w, i, v);
    AcceptReplies(t, w.events, w.accepted, i, w.txn, v.accepted);
  }

  lemma AcceptReplies(t: Txn, events: seq<Event>, order: seq<nat>, i: nat, txn: Txn, longer: seq<nat>)
    requires Within(order, |events|) && i < |events| && txn == After(t, events, order) && longer == order + [i]
    ensures Within(longer, |events|) && longer != []
    ensures After(t, events, longer) == Handled(txn, events[i]).0
    ensures ReplyAt(t, events, longer, |longer| - 1) == Handled(txn, events[i]).1
  {
    AfterLonger(t, events, order, i);
  }

  /** A step that leaves the actor's side of things alone. */
  lemma OthersKeep(t: Txn, w: World, v: World)
    requires Inv(t, w) && v.events == w.events && v.accepted == w.accepted && v.txn == w.txn && |v.calls| == |w.calls|
    requires forall i :: 0 <= i < |w.calls| ==>
      v.calls[i] == w.calls[i] || (w.calls[i].Ready? && !v.calls[i].Awaiting? && !v.calls[i].Answered?)
    requires v.phase == w.phase || (v.phase.Finished? && w.phase.Selecting?)
    ensures Inv(t, v)
  {
    forall k | 0 <= k < |v.accepted|
      ensures v.calls[v.accepted[k]] == w.calls[w.accepted[k]]
    {
    }
    forall k | 0 <= k < |v.accepted|
      ensures AnswerFits(t, v, k)
    {
      assert AnswerFits(t, w, k);
    }
  }

  lemma DeliverKeeps(t: Txn, w: World, i: nat)
    requires Inv(t, w) && Enabled(w, Deliver(i))
    ensures Inv(t, Next(w, Deliver(i)))
  {
    var v, last := Next(w, Deliver(i)), |w.accepted| - 1;
    assert w.accepted[last] == i;
    forall k | 0 <= k < |v.accepted|
      ensures AnswerFits(t, v, k)
    {
      assert AnswerFits(t, w, k);
    }
  }

  lemma StepKeeps(t: Txn, w: World, a: Action)
    requires Inv(t, w) && Enabled(w, a)
    ensures Inv(t, Next(w, a))
  {
    match a {
      case Accept(i) => AcceptKeeps(t, w, i);
      case Deliver(i) => DeliverKeeps(t, w, i);
      case _ => OthersKeep(t, w, Next(w, a));
    }
  }

  // ---- Runs ----

  predicate IsRun(t: Txn, events: seq<Event>, ws: seq<World>, acts: seq<Action>) {
    && |ws| == |acts| + 1 && ws[0] == Begun(t, events)
    && forall i :: 0 <= i < |acts| ==> Enabled(ws[i], acts[i]) && ws[i + 1] == Next(ws[i], acts[i])
  }

  lemma {:induction false} AlwaysInv(t: Txn, events: seq<Event>, ws: seq<World>, acts: seq<Action>, k: nat)
    requires Known(events) && IsRun(t, events, ws, acts) && k < |ws|
    ensures Inv(t, ws[k]) && ws[k].events == events
    decreases k
  {
    if k > 0 {
      AlwaysInv(t, events, ws, acts, k - 1);
      StepKeeps(t, ws[k - 1], acts[k - 1]);
    }
  }

  /**
    * In every interleaving of known events: while the actor lives at most one call waits, it is the
    * one accepted last, and a reply can go to no other; and every answer given is the one that the
    * accepted events give when taken one after the other.
    */
  lemma RepliesGoToTheirCallers(t: Txn, events: seq<Event>, ws: seq<World>, acts: seq<Action>, n: nat)
    requires Known(events) && IsRun(t, events, ws, acts) && n < |ws|
    ensures var w := ws[n];
      && AcceptedFit(w) && w.events == events
      && (forall i, j ::
            0 <= i < |w.calls| && 0 <= j < |w.calls| && w.calls[i].Awaiting? && w.calls[j].Awaiting? ==> i == j)
      && (forall i :: Enabled(w, Deliver(i)) ==> w.accepted != [] && i == w.accepted[|w.accepted| - 1])
      && (forall i :: 0 <= i < |w.calls| && w.calls[i].Answered? ==>
            exists k :: 0 <= k < |w.accepted| && w.accepted[k] == i
                        && ReplyAt(t, events, w.accepted, k) == Some(w.calls[i].reply))
  {
    AlwaysInv(t, events, ws, acts, n);
    var w := ws[n];
    forall i | 0 <= i < |w.calls| && w.calls[i].Answered?
      ensures exists k :: 0 <= k < |w.accepted| && w.accepted[k] == i
                          && ReplyAt(t, events, w.accepted, k) == Some(w.calls[i].reply)
    {
      var k :| 0 <= k < |w.accepted| && w.accepted[k] == i;
      assert AnswerFits(t, w, k);
    }
  }

  /** Once the actor is gone it stays gone: no call is accepted or answered any more. */
  lemma {:induction false} NothingAfterTheEnd(t: Txn, events: seq<Event>, ws: seq<World>, acts: seq<Action>,
                                             m: nat, n: nat)
    requires IsRun(t, events, ws, acts) && m <= n < |ws| && ws[m].phase.Finished?
    ensures ws[n].phase.Finished? && ws[n].accepted == ws[m].accepted && ws[n].txn == ws[m].txn
    ensures |ws[n].calls| == |ws[m].calls|
    ensures forall i :: 0 <= i < |ws[n].calls| ==> (ws[n].calls[i].Answered? <==> ws[m].calls[i].Answered?)
    decreases n
  {
    if m < n {
      NothingAfterTheEnd(t, events, ws, acts, m, n - 1);
      assert Enabled(ws[n - 1], acts[n - 1]) && ws[n] == Next(ws[n - 1], acts[n - 1]);
    }
  }

  /** The call that commits or aborts ends the actor and is never answered. */
  lemma EndingCallWaitsForever(t: Txn, events: seq<Event>, ws: seq<World>, acts: seq<Action>, m: nat, n: nat, i: nat)
    requires Known(events) && IsRun(t, events, ws, acts) && m < n < |ws|
    requires acts[m] == Accept(i) && i < |events| && Ends(events[i])
    ensures ws[n].phase.Finished? && i < |ws[n].calls| && !ws[n].calls[i].Answered?
  {
    AlwaysInv(t, events, ws, acts, m);
    assert Enabled(ws[m], acts[m]) && ws[m + 1] == Next(ws[m], acts[m]);
    NothingAfterTheEnd(t, events, ws, acts, m + 1, n);
  }

  // ---- Names the actor does not know ----

  predicate Replies(e: Event) { e.ReadKey? || e.WriteKey? || e.Id? }

  /** Some call has a name the actor does not know while another call gets a reply. */
  ghost predicate Mixed(events: seq<Event>) {
    exists i, j :: 0 <= i < |events| && 0 <= j < |events| && events[i].Other? && Replies(events[j])
  }

  /** Every answer in `w` is the reply to the call's own event, in the order of acceptance. */
  ghost predicate OwnReplies(t: Txn, events: seq<Event>, w: World) {
    && Within(w.accepted, |events|)
    && forall i :: 0 <= i < |w.calls| && w.calls[i].Answered? ==>
         exists k :: 0 <= k < |w.accepted| && w.accepted[k] == i
                     && ReplyAt(t, events, w.accepted, k) == Some(w.calls[i].reply)
  }

  /** In no interleaving does a call get a reply that is not its own. */
  ghost predicate AlwaysOwn(t: Txn, events: seq<Event>) {
    forall ws, acts :: IsRun(t, events, ws, acts) ==> OwnReplies(t, events, ws[|acts|])
  }

  /** Without replies there are no answers. */
  lemma {:induction false} NoRepliesNoAnswers(t: Txn, events: seq<Event>, ws: seq<World>, acts: seq<Action>, k: nat)
    requires IsRun(t, events, ws, acts) && k < |ws| && forall j :: 0 <= j < |events| ==> !Replies(events[j])
    ensures ws[k].events == events && |ws[k].calls| == |events| && Within(ws[k].accepted, |events|)
    ensures !ws[k].phase.Replying? && forall i :: 0 <= i < |events| ==> !ws[k].calls[i].Answered?
    decreases k
  {
    if k > 0 {
      NoRepliesNoAnswers(t, events, ws, acts, k - 1);
      assert Enabled(ws[k - 1], acts[k - 1]) && ws[k] == Next(ws[k - 1], acts[k - 1]);
    }
  }

  /** The run in which call `i`, whose name is unknown, takes the reply to call `j`. */
  lemma StolenReply(t: Txn, events: seq<Event>, i: nat, j: nat) returns (ws: seq<World>, acts: seq<Action>)
    requires i < |events| && j < |events| && events[i].Other? && Replies(events[j])
    ensures IsRun(t, events, ws, acts) && ws[|acts|].accepted == [i, j]
    ensures |ws[|acts|].calls| == |events|
    ensures ws[|acts|].calls[i] == Answered(Handled(t, events[j]).1.value) && ws[|acts|].calls[j].Awaiting?
  {
    acts := [Begin(i), Begin(j), Accept(i), Accept(j), Deliver(i)];
    var w0 := Begun(t, events);
    var w1 := Next(w0, acts[0]);
    var w2 := Next(w1, acts[1]);
    var w3 := Next(w2, acts[2]);
    var w4 := Next(w3, acts[3]);
    var w5 := Next(w4, acts[4]);
    ws := [w0, w1, w2, w3, w4, w5];
  }

  /**
    * In every interleaving each reply goes to its own caller if and only if no call with an unknown
    * name is made beside a read, a write or an id.
    */
  lemma OwnRepliesIffNotMixed(t: Txn, events: seq<Event>)
    ensures AlwaysOwn(t, events) <==> !Mixed(events)
  {
    if Mixed(events) {
      var i, j :| 0 <= i < |events| && 0 <= j < |events| && events[i].Other? && Replies(events[j]);
      var ws, acts := StolenReply(t, events, i, j);
      var w := ws[|acts|];
      assert !OwnReplies(t, events, w) by {
        assert w.calls[i].Answered?;
        assert Within(w.accepted, |events|) ==> ReplyAt(t, events, w.accepted, 0) == None;
      }
    } else {
      forall ws, acts | IsRun(t, events, ws, acts)
        ensures OwnReplies(t, events, ws[|acts|])
      {
        if Known(events) {
          RepliesGoToTheirCallers(t, events, ws, acts, |acts|);
        } else {
          NoRepliesNoAnswers(t, events, ws, acts, |acts|);
        }
      }
    }
  }

  // ---- What the replies say ----

  predicate Writes(e: Event, key: Key) { e.WriteKey? && e.key == key }

  /** The write at position `j` is the last one of `key` among those taken in `order`. */
  predicate LastWrite(events: seq<Event>, order: seq<nat>, key: Key, j: nat)
    requires Within(order, |events|)
  {
    && j < |order| && Writes(events[order[j]], key)
    && forall m :: j < m < |order| ==> !Writes(events[order[m]], key)
  }

  predicate NoWrite(events: seq<Event>, order: seq<nat>, key: Key)
    requires Within(order, |events|)
  {
    forall m :: 0 <= m < |order| ==> !Writes(events[order[m]], key)
  }

  /** Keys that an update may write. */
  predicate Writable(key: Key) { key != "" && !(BADGER_PREFIX <= key) }

  /** What a transaction never changes, and its id once it was asked for. */
  lemma {:induction false} RestStays(t: Txn, events: seq<Event>, order: seq<nat>)
    requires Within(order, |events|)
    ensures var u := After(t, events, order);
      && u.update == t.update && u.base == t.base && u.readTs == t.readTs
      && (u.id == t.id || (t.id == 0 && u.id == t.readTs))
    decreases |order|
  {
    if order != [] {
      RestStays(t, events, order[..|order| - 1]);
    }
  }

  /** A key that no write reaches is as it was. */
  lemma {:induction false} PendingStays(t: Txn, events: seq<Event>, order: seq<nat>, key: Key)
    requires Within(order, |events|) && (NoWrite(events, order, key) || !t.update || !Writable(key))
    ensures var u := After(t, events, order);
      (key in u.pending <==> key in t.pending) && (key in t.pending ==> u.pending[key] == t.pending[key])
    decreases |order|
  {
    if order != [] {
      var n := |order| - 1;
      RestStays(t, events, order[..n]);
      PendingStays(t, events, order[..n], key);
      assert NoWrite(events, order, key) ==> !Writes(events[order[n]], key);
    }
  }

  /** Of a key that can be written, an update holds the value of the last write. */
  lemma {:induction false} PendingIs(t: Txn, events: seq<Event>, order: seq<nat>, key: Key, j: nat)
    requires Within(order, |events|) && t.update && Writable(key) && LastWrite(events, order, key, j)
    ensures var u := After(t, events, order); key in u.pending && u.pending[key] == events[order[j]].value
    decreases |order|
  {
    var n := |order| - 1;
    RestStays(t, events, order[..n]);
    if j < n {
      assert !Writes(events[order[n]], key);
      PendingIs(t, events, order[..n], key, j);
    }
  }

  /**
    * A read gets the value of the last write taken before it, if the transaction takes writes and
    * the key can be written; otherwise what the database held when the transaction began.
    */
  lemma ReadsAre(t: Txn, events: seq<Event>, order: seq<nat>, k: nat)
    requires Within(order, |events|) && k < |order| && events[order[k]].ReadKey? && t.pending == map[]
    ensures var key, r := events[order[k]].key, ReplyAt(t, events, order, k);
      && (key == "" ==> r == Some(Error(EmptyKey)))
      && (t.update && Writable(key) ==>
            forall j: nat :: LastWrite(events, order[..k], key, j) ==> r == Some(Value(events[order[j]].value)))
      && (key != "" && (!t.update || !Writable(key) || NoWrite(events, order[..k], key)) ==>
            r == Some(if key in t.base then Value(t.base[key]) else Error(KeyNotFound)))
  {
    var key, before := events[order[k]].key, order[..k];
    RestStays(t, events, before);
    if !t.update || !Writable(key) || NoWrite(events, before, key) {
      PendingStays(t, events, before, key);
    }
    if t.update && Writable(key) {
      forall j: nat | LastWrite(events, before, key, j)
        ensures ReplyAt(t, events, order, k) == Some(Value(events[order[j]].value))
      {
        PendingIs(t, events, before, key, j);
      }
    }
  }

  /** A write is done if and only if the transaction takes writes and the key can be written. */
  lemma WritesAre(t: Txn, events: seq<Event>, order: seq<nat>, k: nat)
    requires Within(order, |events|) && k < |order| && events[order[k]].WriteKey?
    ensures var r := ReplyAt(t, events, order, k);
      && (r == Some(Written) <==> t.update && Writable(events[order[k]].key))
      && (r == Some(Error(ReadOnly)) <==> !t.update) && r.Some?
  {
    RestStays(t, events, order[..k]);
  }

  /** Every call of `id` gets the same answer: the id there was, or else the read timestamp. */
  lemma IdsAre(t: Txn, events: seq<Event>, order: seq<nat>, k: nat)
    requires Within(order, |events|) && k < |order| && events[order[k]].Id?
    ensures ReplyAt(t, events, order, k) == Some(TxnId(if t.id == 0 then t.readTs else t.id))
  {
    RestStays(t, events, order[..k]);
  }

  // ---- Opening a transaction ----

  datatype Params = Params(write: bool)

  /** opaStoreTxn as newTxn makes it. */
  class StoreTxn {
    var params: Params

    /** newTxn does not store the parameters it is given. */
    constructor NewTxn(params: Params)
      ensures this.params == Params(false)
    {
      this.params := Params(false);
    }

    /** start: an update or a view, by the stored parameters. */
    method Start(base: map<Key, Bytes>, readTs: nat) returns (t: Txn)
      ensures t == Txn(params.write, base, map[], readTs, 0)
    {
      if params.write {
        t := Txn(true, base, map[], readTs, 0);
      } else {
        t := Txn(false, base, map[], readTs, 0);
      }
    }
  }

  /** NewTransaction: whatever is asked for, what is started is a view. */
  method NewTransaction(params: Params, base: map<Key, Bytes>, readTs: nat) returns (t: Txn)
    ensures t == Opened(base, readTs)
  {
    var txn := new StoreTxn.NewTxn(params);
    t := txn.Start(base, readTs);
  }

  function Opened(base: map<Key, Bytes>, readTs: nat): Txn { Txn(false, base, map[], readTs, 0) }

  /** The database once the goroutine has returned without an error: an update commits, a view does not. */
  function Committed(t: Txn): map<Key, Bytes> { if t.update then t.base + t.pending else t.base }

  predicate Untouched(base: map<Key, Bytes>, w: World) {
    && !w.txn.update && w.txn.base == base && w.txn.pending == map[] && w.phase != Replying(Written)
    && forall i :: 0 <= i < |w.calls| ==> w.calls[i] != Answered(Written)
  }

  lemma UntouchedStep(base: map<Key, Bytes>, w: World, a: Action)
    requires Untouched(base, w) && Enabled(w, a)
    ensures Untouched(base, Next(w, a))
  {
  }

  /**
    * Over all runs of all transactions, whatever was asked for and whatever is sent: no write is
    * answered as done, and commit or abort leaves the database as it was.
    */
  lemma {:induction false} EveryTransactionIsReadOnly(base: map<Key, Bytes>, readTs: nat, events: seq<Event>,
                                                     ws: seq<World>, acts: seq<Action>, k: nat)
    requires IsRun(Opened(base, readTs), events, ws, acts) && k < |ws|
    ensures Untouched(base, ws[k]) && Committed(ws[k].txn) == base
    decreases k
  {
    if k > 0 {
      EveryTransactionIsReadOnly(base, readTs, events, ws, acts, k - 1);
      UntouchedStep(base, ws[k - 1], acts[k - 1]);
    }
  }

  /** With known names every write that is answered is refused. */
  lemma EveryWriteIsRefused(base: map<Key, Bytes>, readTs: nat, events: seq<Event>, ws: seq<World>, acts: seq<Action>,
                            n: nat, i: nat)
    requires Known(events) && IsRun(Opened(base, readTs), events, ws, acts) && n < |ws| && i < |events|
    requires events[i].WriteKey? && i < |ws[n].calls| && ws[n].calls[i].Answered?
    ensures ws[n].calls[i].reply == Error(ReadOnly)
  {
    var t := Opened(base, readTs);
    RepliesGoToTheirCallers(t, events, ws, acts, n);
    var order := ws[n].accepted;
    var k :| 0 <= k < |order| && order[k] == i && ReplyAt(t, events, order, k) == Some(ws[n].calls[i].reply);
    RestStays(t, events, order[..k]);
  }

  /** Every read that is answered gets what the database held, and every id the read timestamp. */
  lemma EveryAnswerIsOfTheDatabase(base: map<Key, Bytes>, readTs: nat, events: seq<Event>, ws: seq<World>,
                                   acts: seq<Action>, n: nat, i: nat)
    requires Known(events) && IsRun(Opened(base, readTs), events, ws, acts) && n < |ws| && i < |events|
    requires i < |ws[n].calls| && ws[n].calls[i].Answered?
    ensures var reply := ws[n].calls[i].reply;
      && (events[i].Id? ==> reply == TxnId(readTs))
      && (events[i].ReadKey? && events[i].key in base && events[i].key != "" ==> reply == Value(base[events[i].key]))
      && (events[i].ReadKey? && events[i].key !in base && events[i].key != "" ==> reply == Error(KeyNotFound))
  {
    var t := Opened(base, readTs);
    RepliesGoToTheirCallers(t, events, ws, acts, n);
    var order := ws[n].accepted;
    var k :| 0 <= k < |order| && order[k] == i && ReplyAt(t, events, order, k) == Some(ws[n].calls[i].reply);
    if events[i].ReadKey? {
      ReadsAre(t, events, order, k);
    } else if events[i].Id? {
      IdsAre(t, events, order, k);
    }
  }
}
