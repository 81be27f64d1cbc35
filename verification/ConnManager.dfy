/** ngx_http_core_conn_manager.go: counting connections by state. */
module ConnStates {
  /** The states net/http announces. */
  datatype State = New | Active | Idle | Hijacked | Closed

  /** The counters; a connection in any state but Closed counts as open. */
  datatype Status = Status(open: int, active: int, idle: int, hijacked: int)
  {
    /** track: the counter of New is that of open connections, and Closed has none. */
    function Plus(s: State, n: int): Status {
      match s
      case New => this.(open := open + n)
      case Active => this.(active := active + n)
      case Idle => this.(idle := idle + n)
      case Hijacked => this.(hijacked := hijacked + n)
      case Closed => this
    }

    function Of(s: State): int {
      match s
      case New => open
      case Active => active
      case Idle => idle
      case Hijacked => hijacked
      case Closed => 0
    }
  }

  /** One atomic effect: a counter, the recorded state, or the map of connections. */
  datatype Micro = Track(state: State, n: int) | Record(state: State) | Insert | Remove

  /** What manageConnState does on an event, given the recorded state if there is one. */
  function EventProgram(recorded: State, tracked: bool, event: State): seq<Micro> {
    match event
    case New => (if tracked then [] else [Insert]) + [Record(New), Track(New, 1)]
    case Active =>
      (if tracked then (if recorded != New then [Track(recorded, -1)] else []) + [Record(Active)] else [])
      + [Track(Active, 1)]
    case Idle => (if tracked then [Track(recorded, -1), Record(Idle)] else []) + [Track(Idle, 1)]
    case Hijacked => (if tracked then [Track(recorded, -1), Record(Hijacked)] else []) + [Track(Hijacked, 1)]
    case Closed =>
      (if !tracked then []
       else [Track(recorded, -1)] + (if recorded != New then [Track(New, -1)] else []) + [Record(Closed)])
      + [Remove]
  }

  /** CloseConn, which acts on hijacked connections only. */
  function CloseProgram(recorded: State, tracked: bool): seq<Micro> {
    if tracked && recorded == Hijacked then [Track(Hijacked, -1), Track(New, -1), Remove] else []
  }

  /** What a program still adds to the counter of a state. */
  function Delta(todo: seq<Micro>, s: State): int {
    if todo == [] then 0
    else (if todo[0].Track? && todo[0].state == s && s != Closed then todo[0].n else 0) + Delta(todo[1..], s)
  }
}

/** The manager's own methods. */
module ConnManager {
  import opened ConnStates

  type Conn = nat

  datatype Info = Info(id: nat, state: State)

  /** The counters and the map after a program has run on a connection. */
  datatype Book = Book(status: Status, conns: map<Conn, Info>)

  function Done(b: Book, conn: Conn, id: nat, m: Micro): Book {
    match m
    case Track(s, n) => b.(status := b.status.Plus(s, n))
    case Record(s) => if conn in b.conns then b.(conns := b.conns[conn := b.conns[conn].(state := s)]) else b
    case Insert => b.(conns := b.conns[conn := Info(id, New)])
    case Remove => b.(conns := b.conns - {conn})
  }

  function AllDone(b: Book, conn: Conn, id: nat, todo: seq<Micro>): Book
    decreases |todo|
  {
    if todo == [] then b else AllDone(Done(b, conn, id, todo[0]), conn, id, todo[1..])
  }

  /** A program of at most four steps, step by step. */
  lemma DoneInSteps(b: Book, conn: Conn, id: nat, todo: seq<Micro>)
    requires |todo| <= 4
    ensures var b1 := if |todo| > 0 then Done(b, conn, id, todo[0]) else b;
      var b2 := if |todo| > 1 then Done(b1, conn, id, todo[1]) else b1;
      var b3 := if |todo| > 2 then Done(b2, conn, id, todo[2]) else b2;
      AllDone(b, conn, id, todo) == if |todo| > 3 then Done(b3, conn, id, todo[3]) else b3
  {
    if |todo| > 0 {
      var t1 := todo[1..];
      var b1 := Done(b, conn, id, todo[0]);
      if |todo| > 1 {
        var t2, b2 := t1[1..], Done(b1, conn, id, t1[0]);
        assert AllDone(b1, conn, id, t1) == AllDone(b2, conn, id, t2);
        if |todo| > 2 {
          var t3, b3 := t2[1..], Done(b2, conn, id, t2[0]);
          assert AllDone(b2, conn, id, t2) == AllDone(b3, conn, id, t3);
          assert |todo| > 3 ==> t3[0] == todo[3] && t3[1..] == [];
        }
      }
    }
  }

  class Manager {
    var conns: map<Conn, Info>
    var status: Status

    constructor ()
      ensures conns == map[] && status == Status(0, 0, 0, 0)
    {
      conns, status := map[], Status(0, 0, 0, 0);
    }

    ghost function Books(): Book
      reads this
    {
      Book(status, conns)
    }

    function Recorded(conn: Conn): State
      reads this
    {
      if conn in conns then conns[conn].state else New
    }

    method Track(s: State, n: int)
      modifies this`status
      ensures status == old(status).Plus(s, n)
    {
      match s {
        case New => status := status.(open := status.open + n);
        case Active => status := status.(active := status.active + n);
        case Idle => status := status.(idle := status.idle + n);
        case Hijacked => status := status.(hijacked := status.hijacked + n);
        case Closed =>
      }
    }

    method SetState(conn: Conn, s: State)
      modifies this`conns
      ensures Books() == Done(old(Books()), conn, 0, Record(s))
    {
      if conn in conns {
        conns := conns[conn := conns[conn].(state := s)];
      }
    }

    /** An event runs its program; `id` is the next serial number. */
    method ManageConnState(conn: Conn, event: State, id: nat)
      modifies this
      ensures Books() == AllDone(old(Books()), conn, id, EventProgram(old(Recorded(conn)), conn in old(conns), event))
    {
      var tracked := conn in conns;
      var recorded := Recorded(conn);
      DoneInSteps(Books(), conn, id, EventProgram(recorded, tracked, event));
      match event {
        case New =>
          if !tracked {
            conns := conns[conn := Info(id, New)];
          }
          SetState(conn, event);
        case Active =>
          if tracked && recorded != New {
            Track(recorded, -1);
          }
          SetState(conn, event);
        case Idle =>
          if tracked {
            Track(recorded, -1);
          }
          SetState(conn, event);
        case Hijacked =>
          if tracked {
            Track(recorded, -1);
          }
          SetState(conn, event);
        case Closed =>
          if tracked {
            Track(recorded, -1);
            if recorded != New {
              Track(New, -1);
            }
            SetState(conn, event);
          }
      }
      if event != Closed {
        Track(event, 1);
      } else {
        conns := conns - {conn};
      }
    }

    method CloseConn(conn: Conn)
      modifies this
      ensures Books() == AllDone(old(Books()), conn, 0, CloseProgram(old(Recorded(conn)), conn in old(conns)))
    {
      DoneInSteps(Books(), conn, 0, CloseProgram(Recorded(conn), conn in conns));
      if conn in conns && conns[conn].state == Hijacked {
        Track(Hijacked, -1);
        Track(New, -1);
        conns := conns - {conn};
      }
    }

    /** Takes the counts and sets them to zero; that of hijacked connections stays and is not reported. */
    method GetStatus() returns (h: Status)
      modifies this`status
      ensures h == old(status).(hijacked := 0)
      ensures status == Status(0, 0, 0, old(status).hijacked)
    {
      h := Status(status.open, status.active, status.idle, 0);
      status := status.(open := 0, active := 0, idle := 0);
    }

    method ConnContext(conn: Conn, id: nat)
      modifies this`conns
      ensures conns == old(conns)[conn := Info(id, New)]
    {
      conns := conns[conn := Info(id, New)];
    }
  }
}

/** All interleavings of events on distinct connections, of CloseConn and of GetStatus. */
module ConnCounting {
  import opened ConnStates

  /** What net/http has done with a connection so far. */
  datatype Life = Absent | Accepted | Is(state: State)

  /**
    * A connection: the recorded state and whether it is in the map; its life, once the programs
    * under way are through; and what these have yet to do: an event's, and that of each CloseConn
    * that has found the connection hijacked.
    */
  datatype Link = Link(recorded: State, tracked: bool, life: Life, todo: seq<Micro>, closing: seq<seq<Micro>>)

  /** The counters, what snapshots have taken out of them, and the connections. */
  datatype World = World(status: Status, taken: Status, links: seq<Link>)

  /** The transitions net/http makes. */
  predicate Legal(from: Life, event: State) {
    match from
    case Absent => false
    case Accepted => event == New
    case Is(s) =>
      match s
      case New => event == Active || event == Closed
      case Active => event == Idle || event == Hijacked || event == Closed
      case Idle => event == Active || event == Closed
      case _ => false
  }

  datatype Action =
    | Accept(i: nat) | Event(i: nat, event: State) | Proceed(i: nat)
    | CloseConn(i: nat) | ProceedClosing(i: nat, j: nat) | Snapshot(counter: State)

  predicate Enabled(w: World, a: Action) {
    if a.Snapshot? then a.counter == New || a.counter == Active || a.counter == Idle
    else
      && a.i < |w.links|
      && var c := w.links[a.i];
      match a
      case Accept(_) => c.life.Absent?
      case Event(_, event) => Legal(c.life, event) && c.todo == []
      case Proceed(_) => c.todo != []
      case CloseConn(_) => true
      case ProceedClosing(_, j) => j < |c.closing| && c.closing[j] != []
      case Snapshot(_) => true
  }

  function Effect(c: Link, m: Micro): Link {
    match m
    case Track(_, _) => c
    case Record(s) => if c.tracked then c.(recorded := s) else c
    case Insert => c.(tracked := true, recorded := New)
    case Remove => c.(tracked := false)
  }

  function Counted(w: World, m: Micro): Status {
    if m.Track? then w.status.Plus(m.state, m.n) else w.status
  }

  /** A CloseConn begins: it has something to do only if it finds the connection hijacked. */
  function Closing(c: Link): Link {
    var p := CloseProgram(c.recorded, c.tracked);
    if p == [] then c else c.(closing := c.closing + [p], life := Is(Closed))
  }

  function Next(w: World, a: Action): World
    requires Enabled(w, a)
  {
    match a
    case Accept(i) =>
      w.(links := w.links[i := w.links[i].(life := Accepted, tracked := true, recorded := New)])
    case Event(i, event) =>
      var c := w.links[i];
      w.(links := w.links[i := c.(life := Is(event), todo := EventProgram(c.recorded, c.tracked, event))])
    case Proceed(i) =>
      var c := w.links[i];
      World(Counted(w, c.todo[0]), w.taken, w.links[i := Effect(c.(todo := c.todo[1..]), c.todo[0])])
    case CloseConn(i) =>
      w.(links := w.links[i := Closing(w.links[i])])
    case ProceedClosing(i, j) =>
      var c := w.links[i];
      var p := c.closing[j];
      World(Counted(w, p[0]), w.taken, w.links[i := Effect(c.(closing := c.closing[j := p[1..]]), p[0])])
    case Snapshot(s) =>
      World(w.status.Plus(s, -w.status.Of(s)), w.taken.Plus(s, w.status.Of(s)), w.links)
  }

  // ---- The invariant ----

  /** Whether a connection belongs to a class, once its programs are through. */
  function Member(l: Life, s: State): int {
    if l.Is? && l.state != Closed && (s == New || s == l.state) then 1 else 0
  }

  function Deltas(programs: seq<seq<Micro>>, s: State): int {
    if programs == [] then 0
    else Deltas(programs[..|programs| - 1], s) + Delta(programs[|programs| - 1], s)
  }

  /** How often a connection is counted off beyond the first time, by calls of CloseConn. */
  function Excess(c: Link): nat { if c.closing == [] then 0 else |c.closing| - 1 }

  function ExcessOf(c: Link, s: State): nat { if s == New || s == Hijacked then Excess(c) else 0 }

  /**
    * What a connection has contributed to a counter: its membership, less what it was counted off
    * too often, less the updates in flight.
    */
  function Net(c: Link, s: State): int {
    Member(c.life, s) - ExcessOf(c, s) - Delta(c.todo, s) - Deltas(c.closing, s)
  }

  function Total(links: seq<Link>, s: State): int {
    if links == [] then 0 else Total(links[..|links| - 1], s) + Net(links[|links| - 1], s)
  }

  lemma {:induction false} TotalUpdate(links: seq<Link>, i: nat, c: Link, s: State)
    requires i < |links|
    ensures Total(links[i := c], s) == Total(links, s) - Net(links[i], s) + Net(c, s)
    decreases |links|
  {
    var n := |links| - 1;
    if i < n {
      assert links[i := c][..n] == links[..n][i := c];
      TotalUpdate(links[..n], i, c, s);
    } else {
      assert links[i := c][..n] == links[..n];
    }
  }

  /** The program under way ends with `target` recorded; a hijacked connection is not recorded anew. */
  predicate Recording(todo: seq<Micro>, recorded: State, target: State)
    decreases |todo|
  {
    if todo == [] then recorded == target
    else if todo[0].Record? then
      todo[0].state == target && recorded != Hijacked && Recording(todo[1..], target, target)
    else todo[0].Track? && Recording(todo[1..], recorded, target)
  }

  /** What is left of a CloseConn ends with the removal. */
  predicate ClosingRest(p: seq<Micro>) {
    p == [] || (p[|p| - 1].Remove? && forall i :: 0 <= i < |p| - 1 ==> p[i].Track?)
  }

  /**
    * A connection on its way out, or gone: by a Closed event or by calls of CloseConn, none of
    * which is through while the connection is still in the map.
    */
  predicate Leaving(c: Link) {
    && (forall m <- c.todo :: m.Track? || (c.closing == [] && (m == Record(Closed) || m.Remove?)))
    && (forall j :: 0 <= j < |c.closing| ==> ClosingRest(c.closing[j]))
    && (forall j :: 0 <= j < |c.closing| && c.tracked ==> c.closing[j] != [])
    && (if c.closing == [] then c.tracked ==> c.recorded != Hijacked else c.recorded == Hijacked)
  }

  /** A connection's record agrees with its life whenever an event or CloseConn looks at it. */
  predicate LinkOk(c: Link) {
    match c.life
    case Absent => !c.tracked && c.todo == [] && c.closing == []
    case Accepted => c.tracked && c.recorded == New && c.todo == [] && c.closing == []
    case Is(s) =>
      if s == Closed then Leaving(c)
      else c.tracked && c.closing == [] && Recording(c.todo, c.recorded, s)
  }

  ghost predicate Inv(w: World) {
    && (forall i :: 0 <= i < |w.links| ==> LinkOk(w.links[i]))
    && (forall s: State :: s != Closed ==> Balanced(w, s))
  }

  /** Past and present counts together are what the connections have contributed. */
  predicate Balanced(w: World, s: State) { w.taken.Of(s) + w.status.Of(s) == Total(w.links, s) }

  lemma {:induction false} HijackedIsFinal(todo: seq<Micro>, target: State)
    requires Recording(todo, Hijacked, target)
    ensures target == Hijacked && forall m <- todo :: m.Track?
    decreases |todo|
  {
    if todo != [] {
      HijackedIsFinal(todo[1..], target);
      assert todo == [todo[0]] + todo[1..];
    }
  }

  /** A program of at most four steps adds up step by step. */
  lemma DeltaInSteps(todo: seq<Micro>, s: State)
    requires |todo| <= 4
    ensures Delta(todo, s) ==
      (if |todo| > 0 then Delta(todo[..1], s) else 0) + (if |todo| > 1 then Delta(todo[1..2], s) else 0)
      + (if |todo| > 2 then Delta(todo[2..3], s) else 0) + (if |todo| > 3 then Delta(todo[3..4], s) else 0)
  {
    if |todo| > 0 {
      DeltaCons(todo, s);
      var t1 := todo[1..];
      if |todo| > 1 {
        DeltaCons(t1, s);
        assert t1[..1] == todo[1..2];
        var t2 := t1[1..];
        if |todo| > 2 {
          DeltaCons(t2, s);
          assert t2[..1] == todo[2..3];
          var t3 := t2[1..];
          if |todo| > 3 {
            DeltaCons(t3, s);
            assert t3[..1] == todo[3..4] && t3[1..] == [];
          }
        }
      }
    }
  }

  lemma DeltaCons(todo: seq<Micro>, s: State)
    requires todo != []
    ensures Delta(todo, s) == Delta(todo[..1], s) + Delta(todo[1..], s)
    ensures Delta(todo[..1], s) == if todo[0].Track? && todo[0].state == s && s != Closed then todo[0].n else 0
  {
    assert todo[..1][1..] == [];
  }

  /** An event's program changes the counters as the event changes the connection's classes. */
  lemma EventBalances(c: Link, event: State, s: State)
    requires LinkOk(c) && Legal(c.life, event) && c.todo == [] && s != Closed
    ensures Delta(EventProgram(c.recorded, c.tracked, event), s) == Member(Is(event), s) - Member(c.life, s)
  {
    var todo := EventProgram(c.recorded, c.tracked, event);
    DeltaInSteps(todo, s);
    if |todo| > 0 { DeltaCons(todo[..1], s); }
    if |todo| > 1 { DeltaCons(todo[1..2], s); }
    if |todo| > 2 { DeltaCons(todo[2..3], s); }
    if |todo| > 3 { DeltaCons(todo[3..4], s); }
  }

  lemma EventOk(c: Link, event: State)
    requires LinkOk(c) && Legal(c.life, event) && c.todo == []
    ensures LinkOk(c.(life := Is(event), todo := EventProgram(c.recorded, c.tracked, event)))
  {
    var todo := EventProgram(c.recorded, c.tracked, event);
    if event != Closed {
      var k := if todo[0].Record? then 0 else 1;
      assert todo[k] == Record(event) && todo[k + 1..] == [Track(event, 1)];
      assert todo[k..][1..] == [Track(event, 1)] && [Track(event, 1)][1..] == [];
      assert Recording([Track(event, 1)], event, event);
      assert Recording(todo[k..], c.recorded, event);
      if k == 1 {
        assert todo[1..] == todo[k..];
      }
    }
  }

  /** The next step of a program: what it counts leaves the connection's balance. */
  lemma ProceedOk(c: Link)
    requires LinkOk(c) && c.todo != []
    ensures LinkOk(Effect(c.(todo := c.todo[1..]), c.todo[0]))
  {
    assert c.todo == [c.todo[0]] + c.todo[1..];
  }

  lemma ClosingOk(c: Link, j: nat)
    requires LinkOk(c) && j < |c.closing| && c.closing[j] != []
    ensures LinkOk(Effect(c.(closing := c.closing[j := c.closing[j][1..]]), c.closing[j][0]))
  {
    assert c.life == Is(Closed) && ClosingRest(c.closing[j]);
    assert ClosingRest(c.closing[j][1..]);
  }

  lemma {:induction false} DeltasUpdate(programs: seq<seq<Micro>>, j: nat, p: seq<Micro>, s: State)
    requires j < |programs|
    ensures Deltas(programs[j := p], s) == Deltas(programs, s) - Delta(programs[j], s) + Delta(p, s)
    decreases |programs|
  {
    var n := |programs| - 1;
    if j < n {
      assert programs[j := p][..n] == programs[..n][j := p];
      DeltasUpdate(programs[..n], j, p, s);
    } else {
      assert programs[j := p][..n] == programs[..n];
    }
  }

  lemma CloseConnOk(c: Link)
    requires LinkOk(c)
    ensures LinkOk(Closing(c))
  {
    var p := CloseProgram(c.recorded, c.tracked);
    if p != [] && c.life != Is(Closed) {
      assert c.life.Is?;
      HijackedIsFinal(c.todo, c.life.state);
    }
  }

  /** The first CloseConn counts the connection off; every further one is excess. */
  lemma CloseConnNet(c: Link, s: State)
    requires LinkOk(c) && s != Closed
    ensures Net(Closing(c), s) == Net(c, s)
  {
    var p := CloseProgram(c.recorded, c.tracked);
    if p != [] {
      HijackedLife(c);
      DeltasPlusOne(c.closing, p, s);
      CloseDelta(p, s);
      ClosedOnce(c, c.(closing := c.closing + [p], life := Is(Closed)), s);
    }
  }

  /** A connection found hijacked is hijacked still, or being closed already. */
  lemma HijackedLife(c: Link)
    requires LinkOk(c) && c.tracked && c.recorded == Hijacked
    ensures if c.closing == [] then c.life == Is(Hijacked) else c.life == Is(Closed)
  {
    if c.life != Is(Closed) {
      HijackedIsFinal(c.todo, c.life.state);
    }
  }

  lemma ClosedOnce(c: Link, d: Link, s: State)
    requires d.life == Is(Closed) && d.todo == c.todo && |d.closing| == |c.closing| + 1 && s != Closed
    requires if c.closing == [] then c.life == Is(Hijacked) else c.life == Is(Closed)
    requires Deltas(d.closing, s) == Deltas(c.closing, s) - if s == New || s == Hijacked then 1 else 0
    ensures Net(d, s) == Net(c, s)
  {
  }

  lemma DeltasPlusOne(programs: seq<seq<Micro>>, p: seq<Micro>, s: State)
    ensures Deltas(programs + [p], s) == Deltas(programs, s) + Delta(p, s)
  {
    assert (programs + [p])[..|programs|] == programs;
  }

  lemma CloseDelta(p: seq<Micro>, s: State)
    requires p == CloseProgram(Hijacked, true) && s != Closed
    ensures Delta(p, s) == if s == New || s == Hijacked then -1 else 0
  {
    DeltaInSteps(p, s);
    DeltaCons(p[..1], s);
    DeltaCons(p[1..2], s);
    DeltaCons(p[2..3], s);
  }

  lemma PlusOf(t: Status, a: State, n: int, s: State)
    requires s != Closed
    ensures t.Plus(a, n).Of(s) == t.Of(s) + if a == s then n else 0
  {
  }

  lemma StepOk(w: World, a: Action)
    requires Inv(w) && Enabled(w, a) && !a.Snapshot?
    ensures LinkOk(Next(w, a).links[a.i])
  {
    var c := w.links[a.i];
    match a {
      case Accept(_) =>
      case Event(_, event) => EventOk(c, event);
      case Proceed(_) => ProceedOk(c);
      case CloseConn(_) => CloseConnOk(c);
      case ProceedClosing(_, j) => ClosingOk(c, j);
      case Snapshot(_) =>
    }
  }

  /** What a step adds to a counter it adds to the balance of its connection. */
  lemma StepNet(w: World, a: Action, s: State)
    requires Inv(w) && Enabled(w, a) && !a.Snapshot? && s != Closed
    ensures var v := Next(w, a);
      && |v.links| == |w.links| && v.links == w.links[a.i := v.links[a.i]] && v.taken == w.taken
      && v.status.Of(s) - w.status.Of(s) == Net(v.links[a.i], s) - Net(w.links[a.i], s)
  {
    var c := w.links[a.i];
    match a {
      case Accept(_) =>
      case Event(_, event) => EventBalances(c, event, s);
      case Proceed(_) => TodoNet(w, c, s);
      case CloseConn(_) => CloseConnNet(c, s);
      case ProceedClosing(_, j) => ClosingNet(w, c, j, s);
      case Snapshot(_) =>
    }
  }

  lemma TodoNet(w: World, c: Link, s: State)
    requires c.todo != [] && s != Closed
    ensures Counted(w, c.todo[0]).Of(s) - w.status.Of(s)
         == Net(Effect(c.(todo := c.todo[1..]), c.todo[0]), s) - Net(c, s)
  {
    ProceedNet(w, c.todo, s);
    EffectNet(c.(todo := c.todo[1..]), c.todo[0], s);
  }

  lemma ClosingNet(w: World, c: Link, j: nat, s: State)
    requires j < |c.closing| && c.closing[j] != [] && s != Closed
    ensures var p := c.closing[j];
      Counted(w, p[0]).Of(s) - w.status.Of(s)
      == Net(Effect(c.(closing := c.closing[j := p[1..]]), p[0]), s) - Net(c, s)
  {
    var p := c.closing[j];
    ProceedNet(w, p, s);
    DeltasUpdate(c.closing, j, p[1..], s);
    EffectNet(c.(closing := c.closing[j := p[1..]]), p[0], s);
  }

  /** What a step records does not matter to the balance. */
  lemma EffectNet(c: Link, m: Micro, s: State)
    ensures Net(Effect(c, m), s) == Net(c, s)
  {
  }

  lemma ProceedNet(w: World, todo: seq<Micro>, s: State)
    requires todo != [] && s != Closed
    ensures Counted(w, todo[0]).Of(s) - w.status.Of(s) == Delta(todo, s) - Delta(todo[1..], s)
  {
    DeltaCons(todo, s);
    if todo[0].Track? {
      PlusOf(w.status, todo[0].state, todo[0].n, s);
    }
  }

  lemma StepBalanced(w: World, a: Action, s: State)
    requires Inv(w) && Enabled(w, a) && s != Closed
    ensures Balanced(Next(w, a), s)
  {
    assert Balanced(w, s);
    if a.Snapshot? {
      PlusOf(w.status, a.counter, -w.status.Of(a.counter), s);
      PlusOf(w.taken, a.counter, w.status.Of(a.counter), s);
    } else {
      StepNet(w, a, s);
      TotalUpdate(w.links, a.i, Next(w, a).links[a.i], s);
    }
  }

  lemma StepKeeps(w: World, a: Action)
    requires Inv(w) && Enabled(w, a)
    ensures Inv(Next(w, a))
  {
    forall s: State | s != Closed
      ensures Balanced(Next(w, a), s)
    {
      StepBalanced(w, a, s);
    }
    if !a.Snapshot? {
      StepOk(w, a);
    }
  }

  // ---- Runs ----

  function NoLink(): Link { Link(New, false, Absent, [], []) }

  /** No connections yet, of the `n` that may come. */
  function Start(n: nat): World { World(Status(0, 0, 0, 0), Status(0, 0, 0, 0), seq(n, _ => NoLink())) }

  predicate IsRun(n: nat, ws: seq<World>, acts: seq<Action>) {
    && |ws| == |acts| + 1 && ws[0] == Start(n)
    && forall i :: 0 <= i < |acts| ==> Enabled(ws[i], acts[i]) && ws[i + 1] == Next(ws[i], acts[i])
  }

  lemma {:induction false} NothingCounted(links: seq<Link>, s: State)
    requires forall i :: 0 <= i < |links| ==> links[i] == NoLink()
    ensures Total(links, s) == 0
    decreases |links|
  {
    if links != [] {
      NothingCounted(links[..|links| - 1], s);
    }
  }

  /** In every interleaving the counts, with those taken by snapshots, account for every connection. */
  lemma {:induction false} AlwaysBalanced(n: nat, ws: seq<World>, acts: seq<Action>, k: nat)
    requires IsRun(n, ws, acts) && k < |ws|
    ensures Inv(ws[k])
    decreases k
  {
    if k == 0 {
      forall s: State | s != Closed
        ensures Balanced(ws[0], s)
      {
        NothingCounted(ws[0].links, s);
      }
    } else {
      AlwaysBalanced(n, ws, acts, k - 1);
      StepKeeps(ws[k - 1], acts[k - 1]);
    }
  }

  /** How many connections are in a class. */
  function Members(links: seq<Link>, s: State): nat {
    if links == [] then 0 else Members(links[..|links| - 1], s) + Member(links[|links| - 1].life, s)
  }

  /** How often the connections have been counted off too often. */
  function Excesses(links: seq<Link>): nat {
    if links == [] then 0 else Excesses(links[..|links| - 1]) + Excess(links[|links| - 1])
  }

  /** Nothing is under way on a connection. */
  predicate Quiet(c: Link) { c.todo == [] && forall j :: 0 <= j < |c.closing| ==> c.closing[j] == [] }

  lemma {:induction false} QuietDeltas(programs: seq<seq<Micro>>, s: State)
    requires forall j :: 0 <= j < |programs| ==> programs[j] == []
    ensures Deltas(programs, s) == 0
    decreases |programs|
  {
    if programs != [] {
      QuietDeltas(programs[..|programs| - 1], s);
    }
  }

  lemma {:induction false} QuietTotal(links: seq<Link>, s: State)
    requires forall i :: 0 <= i < |links| ==> Quiet(links[i])
    ensures Total(links, s) == Members(links, s) - if s == New || s == Hijacked then Excesses(links) else 0
    decreases |links|
  {
    if links != [] {
      QuietTotal(links[..|links| - 1], s);
      QuietDeltas(links[|links| - 1].closing, s);
    }
  }

  /** How many connections net/http last announced in a state. */
  function InState(links: seq<Link>, s: State): nat {
    if links == [] then 0
    else InState(links[..|links| - 1], s) + if links[|links| - 1].life == Is(s) then 1 else 0
  }

  lemma {:induction false} MembersByState(links: seq<Link>)
    ensures Members(links, New)
         == InState(links, New) + InState(links, Active) + InState(links, Idle) + InState(links, Hijacked)
    ensures Members(links, Active) == InState(links, Active) && Members(links, Idle) == InState(links, Idle)
    ensures Members(links, Hijacked) == InState(links, Hijacked)
    decreases |links|
  {
    if links != [] {
      MembersByState(links[..|links| - 1]);
    }
  }

  /** The hijacked count is never taken by a snapshot. */
  lemma {:induction false} HijackedIsNeverTaken(n: nat, ws: seq<World>, acts: seq<Action>, k: nat)
    requires IsRun(n, ws, acts) && k < |ws|
    ensures ws[k].taken.hijacked == 0
    decreases k
  {
    if k > 0 {
      HijackedIsNeverTaken(n, ws, acts, k - 1);
      assert Enabled(ws[k - 1], acts[k - 1]) && ws[k] == Next(ws[k - 1], acts[k - 1]);
    }
  }

  /**
    * With no update in flight, snapshots and counters add up to the number of connections in each
    * class: open connections are those new, active, idle or hijacked. Open and hijacked ones are
    * short by as often as a hijacked connection was counted off again.
    */
  lemma ExactAtQuiescence(n: nat, ws: seq<World>, acts: seq<Action>, k: nat)
    requires IsRun(n, ws, acts) && k < |ws|
    requires forall i :: 0 <= i < |ws[k].links| ==> Quiet(ws[k].links[i])
    ensures var w := ws[k];
      && w.taken.open + w.status.open == InState(w.links, New) + InState(w.links, Active)
                                         + InState(w.links, Idle) + InState(w.links, Hijacked) - Excesses(w.links)
      && w.taken.active + w.status.active == InState(w.links, Active)
      && w.taken.idle + w.status.idle == InState(w.links, Idle)
      && w.status.hijacked == InState(w.links, Hijacked) - Excesses(w.links)
  {
    var w := ws[k];
    AlwaysBalanced(n, ws, acts, k);
    HijackedIsNeverTaken(n, ws, acts, k);
    assert Balanced(w, New) && Balanced(w, Active) && Balanced(w, Idle) && Balanced(w, Hijacked);
    QuietTotal(w.links, New);
    QuietTotal(w.links, Active);
    QuietTotal(w.links, Idle);
    QuietTotal(w.links, Hijacked);
    MembersByState(w.links);
  }

  // ---- When the hijacked count is right ----

  /** Step `j` is a CloseConn while an earlier one on the connection has yet to remove it from the map. */
  predicate Again(ws: seq<World>, acts: seq<Action>, j: nat)
    requires j < |acts| && j < |ws|
  {
    && acts[j].CloseConn? && acts[j].i < |ws[j].links|
    && ws[j].links[acts[j].i].tracked && ws[j].links[acts[j].i].closing != []
  }

  ghost predicate EverAgain(ws: seq<World>, acts: seq<Action>, k: nat)
    requires k <= |acts| && k <= |ws|
  {
    exists j :: 0 <= j < k && Again(ws, acts, j)
  }

  ghost predicate SomeExcess(w: World) { exists i :: 0 <= i < |w.links| && Excess(w.links[i]) > 0 }

  lemma {:induction false} ExcessesPositive(links: seq<Link>)
    ensures Excesses(links) > 0 <==> exists i :: 0 <= i < |links| && Excess(links[i]) > 0
    decreases |links|
  {
    if links != [] {
      var front := links[..|links| - 1];
      ExcessesPositive(front);
      assert forall i :: 0 <= i < |front| ==> front[i] == links[i];
    }
  }

  /** A step makes an excess exactly when it is a CloseConn come too early. */
  lemma StepExcess(w: World, a: Action)
    requires Inv(w) && Enabled(w, a)
    ensures SomeExcess(Next(w, a)) <==>
      SomeExcess(w) || (a.CloseConn? && w.links[a.i].tracked && w.links[a.i].closing != [])
  {
    var v := Next(w, a);
    if !a.Snapshot? {
      var c := w.links[a.i];
      assert LinkOk(c);
      assert v.links == w.links[a.i := v.links[a.i]];
      assert Excess(v.links[a.i]) == Excess(c)
        + if a.CloseConn? && c.tracked && c.closing != [] then 1 else 0;
      assert forall i :: 0 <= i < |w.links| && i != a.i ==> v.links[i] == w.links[i];
      if SomeExcess(w) {
        var i :| 0 <= i < |w.links| && Excess(w.links[i]) > 0;
        assert Excess(v.links[i]) > 0;
      }
    }
  }

  lemma {:induction false} ExcessIffAgain(n: nat, ws: seq<World>, acts: seq<Action>, k: nat)
    requires IsRun(n, ws, acts) && k < |ws|
    ensures SomeExcess(ws[k]) <==> EverAgain(ws, acts, k)
    decreases k
  {
    if k > 0 {
      ExcessIffAgain(n, ws, acts, k - 1);
      AlwaysBalanced(n, ws, acts, k - 1);
      assert Enabled(ws[k - 1], acts[k - 1]) && ws[k] == Next(ws[k - 1], acts[k - 1]);
      StepExcess(ws[k - 1], acts[k - 1]);
      assert EverAgain(ws, acts, k) <==> EverAgain(ws, acts, k - 1) || Again(ws, acts, k - 1);
    }
  }

  /**
    * With no update in flight the hijacked counter, and the open one with what snapshots took, are
    * exact if and only if no CloseConn was called on a connection that an earlier one had yet to
    * remove.
    */
  lemma ExactIffNeverAgain(n: nat, ws: seq<World>, acts: seq<Action>, k: nat)
    requires IsRun(n, ws, acts) && k < |ws|
    requires forall i :: 0 <= i < |ws[k].links| ==> Quiet(ws[k].links[i])
    ensures ws[k].status.hijacked == InState(ws[k].links, Hijacked) <==> !EverAgain(ws, acts, k)
    ensures ws[k].taken.open + ws[k].status.open == Members(ws[k].links, New) <==> !EverAgain(ws, acts, k)
  {
    ExactAtQuiescence(n, ws, acts, k);
    MembersByState(ws[k].links);
    ExcessIffAgain(n, ws, acts, k);
    ExcessesPositive(ws[k].links);
  }

  ghost predicate Reachable(n: nat, w: World) {
    exists ws: seq<World>, acts :: IsRun(n, ws, acts) && ws[|acts|] == w
  }

  lemma ReachStep(n: nat, w: World, a: Action)
    requires Reachable(n, w) && Enabled(w, a)
    ensures Reachable(n, Next(w, a))
  {
    var ws: seq<World>, acts :| IsRun(n, ws, acts) && ws[|acts|] == w;
    assert IsRun(n, ws + [Next(w, a)], acts + [a]);
  }

  function Lone(status: Status, c: Link): World { World(status, Status(0, 0, 0, 0), [c]) }

  lemma LoneEvent(t: Status, c: Link, event: State, todo: seq<Micro>)
    requires Reachable(1, Lone(t, c)) && Legal(c.life, event) && c.todo == []
    requires todo == EventProgram(c.recorded, c.tracked, event)
    ensures Reachable(1, Lone(t, c.(life := Is(event), todo := todo)))
  {
    ReachStep(1, Lone(t, c), Event(0, event));
    assert Next(Lone(t, c), Event(0, event)).links == [c.(life := Is(event), todo := todo)];
  }

  lemma LoneProceed(t: Status, c: Link, m: Micro, rest: seq<Micro>)
    requires Reachable(1, Lone(t, c)) && c.todo == [m] + rest
    ensures Reachable(1, Lone(Counted(Lone(t, c), m), Effect(c.(todo := rest), m)))
  {
    ReachStep(1, Lone(t, c), Proceed(0));
    assert c.todo[1..] == rest;
    assert Next(Lone(t, c), Proceed(0)).links == [Effect(c.(todo := rest), m)];
  }

  lemma LoneClose(t: Status, c: Link, closing: seq<seq<Micro>>)
    requires Reachable(1, Lone(t, c)) && c.tracked && c.recorded == Hijacked
    requires closing == c.closing + [CloseProgram(Hijacked, true)]
    ensures Reachable(1, Lone(t, c.(life := Is(Closed), closing := closing)))
  {
    ReachStep(1, Lone(t, c), CloseConn(0));
    assert Next(Lone(t, c), CloseConn(0)).links == [c.(life := Is(Closed), closing := closing)];
  }

  lemma LoneClosing(t: Status, c: Link, j: nat, m: Micro, closing: seq<seq<Micro>>)
    requires Reachable(1, Lone(t, c)) && j < |c.closing| == |closing| && c.closing[j] == [m] + closing[j]
    requires closing == c.closing[j := closing[j]]
    ensures Reachable(1, Lone(Counted(Lone(t, c), m), Effect(c.(closing := closing), m)))
  {
    ReachStep(1, Lone(t, c), ProceedClosing(0, j));
    assert c.closing[j][1..] == closing[j];
    assert Next(Lone(t, c), ProceedClosing(0, j)).links == [Effect(c.(closing := closing), m)];
  }

  /** An event on a tracked connection records its state and counts it. */
  lemma RecordAndCount(t: Status, c: Link, s: State)
    requires Reachable(1, Lone(t, c)) && c.tracked && c.todo == [Record(s), Track(s, 1)]
    ensures Reachable(1, Lone(t.Plus(s, 1), c.(recorded := s, todo := [])))
  {
    LoneProceed(t, c, Record(s), [Track(s, 1)]);
    LoneProceed(t, c.(recorded := s, todo := [Track(s, 1)]), Track(s, 1), []);
  }

  /** A CloseConn under way runs to its end. */
  lemma CloseThrough(t: Status, c: Link, j: nat, closing: seq<seq<Micro>>)
    requires Reachable(1, Lone(t, c)) && j < |c.closing| && c.closing[j] == CloseProgram(Hijacked, true)
    requires closing == c.closing[j := []]
    ensures Reachable(1, Lone(t.Plus(Hijacked, -1).Plus(New, -1), c.(tracked := false, closing := closing)))
  {
    var two, one := c.closing[j := [Track(New, -1), Remove]], c.closing[j := [Remove]];
    LoneClosing(t, c, j, Track(Hijacked, -1), two);
    var t1 := t.Plus(Hijacked, -1);
    LoneClosing(t1, c.(closing := two), j, Track(New, -1), one);
    LoneClosing(t1.Plus(New, -1), c.(closing := one), j, Remove, closing);
  }

  lemma AcceptedReached()
    ensures Reachable(1, Lone(Status(0, 0, 0, 0), Link(New, true, Accepted, [], [])))
  {
    var w := Start(1);
    var none: seq<Action> := [];
    assert IsRun(1, [w], none) && [w][|none|] == w;
    ReachStep(1, w, Accept(0));
    assert Next(w, Accept(0)) == Lone(Status(0, 0, 0, 0), Link(New, true, Accepted, [], []));
  }

  lemma ActiveReached()
    ensures Reachable(1, Lone(Status(1, 1, 0, 0), Link(Active, true, Is(Active), [], [])))
  {
    AcceptedReached();
    var todo := [Record(New), Track(New, 1)];
    LoneEvent(Status(0, 0, 0, 0), Link(New, true, Accepted, [], []), New, todo);
    RecordAndCount(Status(0, 0, 0, 0), Link(New, true, Is(New), todo, []), New);
    todo := [Record(Active), Track(Active, 1)];
    LoneEvent(Status(1, 0, 0, 0), Link(New, true, Is(New), [], []), Active, todo);
    RecordAndCount(Status(1, 0, 0, 0), Link(New, true, Is(Active), todo, []), Active);
  }

  lemma HijackedReached()
    ensures Reachable(1, Lone(Status(1, 0, 0, 1), Link(Hijacked, true, Is(Hijacked), [], [])))
  {
    ActiveReached();
    var rest := [Record(Hijacked), Track(Hijacked, 1)];
    var todo := [Track(Active, -1)] + rest;
    LoneEvent(Status(1, 1, 0, 0), Link(Active, true, Is(Active), [], []), Hijacked, todo);
    LoneProceed(Status(1, 1, 0, 0), Link(Active, true, Is(Hijacked), todo, []), Track(Active, -1), rest);
    RecordAndCount(Status(1, 0, 0, 0), Link(Active, true, Is(Hijacked), rest, []), Hijacked);
  }

  /** Two calls of CloseConn that overlap: with no connection left both counters end below zero. */
  lemma TwoClosesCountTwice()
    ensures Reachable(1, Lone(Status(-1, 0, 0, -1), Link(Hijacked, false, Is(Closed), [], [[], []])))
  {
    HijackedReached();
    var t := Status(1, 0, 0, 1);
    var p := CloseProgram(Hijacked, true);
    LoneClose(t, Link(Hijacked, true, Is(Hijacked), [], []), [p]);
    LoneClose(t, Link(Hijacked, true, Is(Closed), [], [p]), [p, p]);
    CloseThrough(t, Link(Hijacked, true, Is(Closed), [], [p, p]), 0, [[], p]);
    CloseThrough(Status(0, 0, 0, 0), Link(Hijacked, false, Is(Closed), [], [[], p]), 1, [[], []]);
  }
}
