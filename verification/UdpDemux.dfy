/** Demultiplexing datagrams of one tunnel channel: one packet loop, a connection map shared under a lock,
    and a reader goroutine per answered source. Readers stop at any time; the loop runs between them. */
module UdpDemux {
  import opened Common

  /** A dialled socket; `id` is the source it was dialled for, `socket` distinguishes sockets. */
  datatype Conn = Conn(id: string, socket: nat)

  const MAX_CONNS := 100

  /** The shared map, every method of which runs under its lock. */
  class UdpConns {
    var m: map<string, Conn>
    var closed: set<nat>

    constructor ()
      ensures m == map[] && closed == {}
    {
      m, closed := map[], {};
    }

    /** The connection of a source, dialled now if there is none; None when dialling fails. */
    method Dial(id: string, dialled: Option<nat>) returns (conn: Option<Conn>, exists_: bool)
      modifies this`m
      ensures conn == Dialled(old(m), id, dialled) && exists_ == (id in old(m))
      ensures m == if conn.Some? then old(m)[id := conn.value] else old(m)
    {
      if id in m {
        assert m[id := m[id]] == m;
        return Some(m[id]), true;
      }
      if dialled.None? {
        return None, false;
      }
      m := m[id := Conn(id, dialled.value)];
      return Some(m[id]), false;
    }

    method Len() returns (n: nat)
      ensures n == |m|
    {
      n := |m|;
    }

    method Remove(id: string)
      modifies this`m
      ensures m == old(m) - {id}
    {
      m := m - {id};
    }

    /** Closes every socket that is still in the map and forgets it. */
    method CloseAll()
      modifies this
      ensures m == map[] && closed == old(closed) + Sockets(old(m))
    {
      while m != map[]
        invariant closed + Sockets(m) == old(closed) + Sockets(old(m))
        decreases |m|
      {
        var id :| id in m;
        SocketsSplit(m, id);
        closed := closed + {m[id].socket};
        m := m - {id};
      }
    }
  }

  function Sockets(m: map<string, Conn>): set<nat> {
    set id | id in m :: m[id].socket
  }

  lemma SocketsSplit(m: map<string, Conn>, id: string)
    requires id in m
    ensures Sockets(m) == Sockets(m - {id}) + {m[id].socket}
  {
    forall x | x in Sockets(m) && x != m[id].socket
      ensures x in Sockets(m - {id})
    {
      var k :| k in m && m[k].socket == x;
      assert k in m - {id};
    }
  }

  function Dialled(m: map<string, Conn>, id: string, dialled: Option<nat>): Option<Conn> {
    if id in m then Some(m[id])
    else if dialled.None? then None
    else Some(Conn(id, dialled.value))
  }

  // ----- the channel as a state machine -----

  /** Where the packet loop stands: waiting; after dialling; after deciding whether to read; gone. */
  datatype Loop =
    | Waiting
    | DialDone(src: string, conn: Conn, known: bool)
    | ReadyToWrite(conn: Conn)
    | Closed

  /** A running reader: the tag it puts on replies, a source, and the connection it reads. */
  datatype Reader = Reader(tag: string, conn: Conn)

  /** A reply sent back over the channel: its tag, and the connection it came from. */
  datatype Reply = Reply(tag: string, conn: Conn)

  datatype State = State(loop: Loop, m: map<string, Conn>, readers: set<Reader>, replies: seq<Reply>, sockets: nat)

  const START := State(Waiting, map[], {}, [], 0)

  datatype Action =
    | Packet(src: string, dialFails: bool)
    | Decide
    | Write(fails: bool)
    | Answer(r: Reader)
    | Stop(r: Reader)
    | DecodeError

  /** The reader goroutine that the loop starts after dialling, if it starts one: the source was new and
      the map, counted just now, holds at most 100 connections. */
  function Started(s: State): set<Reader> {
    if s.loop.DialDone? && !s.loop.known && |s.m| <= MAX_CONNS then {Reader(s.loop.src, s.loop.conn)} else {}
  }

  function Next(s: State, a: Action): Option<State> {
    match a
    case Packet(src, dialFails) =>
      if !s.loop.Waiting? then None
      else
        match Dialled(s.m, src, if dialFails then None else Some(s.sockets)) {
          case None => Some(Closing(s))
          case Some(conn) =>
            Some(s.(loop := DialDone(src, conn, src in s.m), m := s.m[src := conn], sockets := s.sockets + 1))
        }
    case Decide =>
      if !s.loop.DialDone? then None
      else Some(s.(loop := ReadyToWrite(s.loop.conn), readers := s.readers + Started(s)))
    case Write(fails) =>
      if !s.loop.ReadyToWrite? then None else if fails then Some(Closing(s)) else Some(s.(loop := Waiting))
    case Answer(r) =>
      if r !in s.readers then None else Some(s.(replies := s.replies + [Reply(r.tag, r.conn)]))
    case Stop(r) =>
      if r !in s.readers then None else Some(s.(readers := s.readers - {r}, m := s.m - {r.conn.id}))
    case DecodeError => if s.loop.Waiting? then Some(Closing(s)) else None
  }

  /** Any error ends the loop, which closes and forgets all connections; readers end on their own. */
  function Closing(s: State): State {
    s.(loop := Closed, m := map[])
  }

  ghost predicate Steps(ss: seq<State>, acts: seq<Action>) {
    && |ss| == |acts| + 1
    && (forall i {:trigger acts[i]} | 0 <= i < |acts| :: Next(ss[i], acts[i]) == Some(ss[i + 1]))
  }

  ghost predicate IsRun(ss: seq<State>, acts: seq<Action>) {
    Steps(ss, acts) && ss[0] == START
  }

  // ----- invariant -----

  /** Each source has at most one reader; while the loop runs, a reader's connection is the one in the map;
      and a source just dialled as new has no reader yet. */
  ghost predicate Inv(s: State) {
    Shape(s) && |s.readers| <= MAX_CONNS
  }

  ghost predicate Shape(s: State) {
    && (forall id | id in s.m :: s.m[id].id == id)
    && (forall r | r in s.readers :: r.tag == r.conn.id)
    && (forall r1, r2 | r1 in s.readers && r2 in s.readers && r1.tag == r2.tag :: r1 == r2)
    && (!s.loop.Closed? ==> forall r | r in s.readers :: r.tag in s.m && s.m[r.tag] == r.conn)
    && (s.loop.DialDone? ==> s.loop.conn.id == s.loop.src)
    && (s.loop.DialDone? && !s.loop.known ==>
          s.loop.src in s.m && s.m[s.loop.src] == s.loop.conn && forall r | r in s.readers :: r.tag != s.loop.src)
    && (forall i | 0 <= i < |s.replies| :: s.replies[i].tag == s.replies[i].conn.id)
  }

  function Tags(readers: set<Reader>): set<string> {
    set r | r in readers :: r.tag
  }

  /** Distinct readers have distinct tags, so there are as many tags as readers. */
  lemma {:induction false} TagCount(readers: set<Reader>)
    requires forall r1, r2 | r1 in readers && r2 in readers && r1.tag == r2.tag :: r1 == r2
    ensures |Tags(readers)| == |readers|
    decreases readers
  {
    if readers != {} {
      var r :| r in readers;
      TagCount(readers - {r});
      assert Tags(readers) == Tags(readers - {r}) + {r.tag};
    }
  }

  /** Before a reader starts, all running readers and the new connection have their own entries in the map. */
  lemma StartBound(s: State)
    requires Inv(s) && Started(s) != {}
    ensures |s.readers| + 1 <= MAX_CONNS
  {
    TagCount(s.readers);
    var tags := Tags(s.readers);
    assert s.loop.src !in tags;
    SubsetCount(tags + {s.loop.src}, s.m.Keys);
  }

  lemma StopCount(s: State, r: Reader)
    requires r in s.readers
    ensures |s.readers - {r}| == |s.readers| - 1
  {
  }

  lemma DecideShape(s: State)
    requires Shape(s) && s.loop.DialDone?
    ensures Shape(Next(s, Decide).value)
  {
  }

  lemma StopShape(s: State, r: Reader)
    requires Shape(s) && r in s.readers
    ensures Shape(Next(s, Stop(r)).value)
  {
  }

  lemma OtherShape(s: State, a: Action)
    requires Shape(s) && Next(s, a).Some? && !a.Decide? && !a.Stop?
    ensures Shape(Next(s, a).value) && Next(s, a).value.readers == s.readers
  {
  }

  lemma InvStep(s: State, a: Action)
    requires Inv(s) && Next(s, a).Some?
    ensures Inv(Next(s, a).value)
  {
    if a.Decide? {
      DecideShape(s);
      if Started(s) != {} {
        StartBound(s);
      }
    } else if a.Stop? {
      StopShape(s, a.r);
      StopCount(s, a.r);
    } else {
      OtherShape(s, a);
    }
  }

  lemma {:induction false} InvSteps(ss: seq<State>, acts: seq<Action>, n: nat)
    requires Steps(ss, acts) && n < |ss| && Inv(ss[0])
    ensures Inv(ss[n])
  {
    if n > 0 {
      InvSteps(ss, acts, n - 1);
      assert Next(ss[n - 1], acts[n - 1]) == Some(ss[n]);
      InvStep(ss[n - 1], acts[n - 1]);
    }
  }

  /** An error ends the loop for good: its map is empty, it takes no packet and starts no reader any more. */
  lemma LoopEnds(s: State, a: Action)
    requires Next(s, a).Some?
    ensures a.DecodeError? || (a.Write? && a.fails) || (a.Packet? && a.dialFails && a.src !in s.m) ==>
      Next(s, a).value.loop.Closed? && Next(s, a).value.m == map[]
    ensures s.loop.Closed? ==>
      Next(s, a).value.loop.Closed? && Next(s, a).value.readers <= s.readers && (s.m == map[] ==> Next(s, a).value.m == map[])
  {
  }

  /** Under any interleaving of the packet loop with answering and stopping readers: at most 100 readers run,
      at most one per source, and every reply carries the source whose socket it was read from. */
  lemma DemuxSafe(ss: seq<State>, acts: seq<Action>, n: nat)
    requires IsRun(ss, acts) && n < |ss|
    ensures Inv(ss[n])
    ensures |ss[n].readers| <= 100
    ensures forall r1, r2 | r1 in ss[n].readers && r2 in ss[n].readers && r1.tag == r2.tag :: r1 == r2
    ensures forall i | 0 <= i < |ss[n].replies| :: ss[n].replies[i].tag == ss[n].replies[i].conn.id
  {
    InvSteps(ss, acts, n);
  }

  // ----- sources that are never read -----

  /** Sources in the map that no reader serves and that the loop is not about to decide on. */
  function Orphans(s: State): set<string> {
    set id | id in s.m && id !in Tags(s.readers) && !(s.loop.DialDone? && !s.loop.known && s.loop.src == id)
  }

  lemma OrphansAfterDecide(s: State)
    requires s.loop.DialDone?
    ensures Orphans(s) <= Orphans(Next(s, Decide).value)
  {
    assert Tags(s.readers + Started(s)) == Tags(s.readers) + Tags(Started(s));
    assert Tags(Started(s)) <= (if s.loop.known then {} else {s.loop.src});
  }

  lemma OrphansAfterStop(s: State, r: Reader)
    requires Shape(s) && r in s.readers
    ensures Orphans(Next(s, Stop(r)).value) == Orphans(s) || s.loop.Closed?
  {
    var s' := Next(s, Stop(r)).value;
    assert r.tag in Tags(s.readers) && Tags(s'.readers) <= Tags(s.readers);
    if !s.loop.Closed? {
      forall id | id in Tags(s.readers) && id != r.tag
        ensures id in Tags(s'.readers)
      {
        var x :| x in s.readers && x.tag == id;
        assert x in s'.readers;
      }
    }
  }

  lemma OrphansStay(s: State, a: Action)
    requires Inv(s) && Next(s, a).Some? && !Next(s, a).value.loop.Closed?
    ensures !s.loop.Closed? && Orphans(s) <= Orphans(Next(s, a).value)
  {
    match a
    case Decide => OrphansAfterDecide(s);
    case Stop(r) => OrphansAfterStop(s, r);
    case _ =>
  }

  lemma StartBlocked(s: State)
    requires Inv(s) && |Orphans(s)| >= MAX_CONNS
    ensures Started(s) == {}
  {
    if Started(s) != {} {
      SubsetCount(Orphans(s) + {s.loop.src}, s.m.Keys);
    }
  }

  /** A map entry without a reader is removed by nothing but the end of the loop. */
  lemma {:induction false} OrphansKept(ss: seq<State>, acts: seq<Action>, n: nat)
    requires Steps(ss, acts) && Inv(ss[0]) && n < |ss| && !ss[n].loop.Closed?
    ensures Orphans(ss[0]) <= Orphans(ss[n])
  {
    if n > 0 {
      InvSteps(ss, acts, n - 1);
      assert Next(ss[n - 1], acts[n - 1]) == Some(ss[n]);
      OrphansStay(ss[n - 1], acts[n - 1]);
      OrphansKept(ss, acts, n - 1);
    }
  }

  ghost predicate Reaches(s: State, t: State) {
    exists ss: seq<State>, acts: seq<Action> :: Steps(ss, acts) && ss[0] == s && ss[|acts|] == t
  }

  lemma ReachesSelf(s: State)
    ensures Reaches(s, s)
  {
    var ss: seq<State>, acts: seq<Action> := [s], [];
    assert Steps(ss, acts);
  }

  lemma ReachesNext(s: State, t: State, a: Action, u: State)
    requires Reaches(s, t) && Next(t, a) == Some(u)
    ensures Reaches(s, u)
  {
    var ss: seq<State>, acts: seq<Action> :| Steps(ss, acts) && ss[0] == s && ss[|acts|] == t;
    var ss', acts' := ss + [u], acts + [a];
    forall i | 0 <= i < |acts'|
      ensures Next(ss'[i], acts'[i]) == Some(ss'[i + 1])
    {
      if i < |acts| {
        assert Next(ss[i], acts[i]) == Some(ss[i + 1]);
      }
    }
    assert Steps(ss', acts');
  }

  lemma NeverStarts(s: State, t: State)
    requires Inv(s) && |Orphans(s)| >= MAX_CONNS && Reaches(s, t)
    ensures Started(t) == {}
  {
    var ss: seq<State>, acts: seq<Action> :| Steps(ss, acts) && ss[0] == s && ss[|acts|] == t;
    if Started(t) != {} {
      InvSteps(ss, acts, |acts|);
      OrphansKept(ss, acts, |acts|);
      SubsetCount(Orphans(s), Orphans(t));
      StartBlocked(t);
    }
  }

  /** All readers may stop, one after the other. */
  lemma {:induction false} AllStop(s: State, t: State) returns (u: State)
    requires Reaches(s, t) && Inv(t) && !t.loop.Closed?
    ensures Reaches(s, u) && Inv(u) && u.readers == {} && u.loop == t.loop && Orphans(u) == Orphans(t)
    decreases |t.readers|
  {
    if t.readers == {} {
      u := t;
    } else {
      var r :| r in t.readers;
      var t' := Next(t, Stop(r)).value;
      ReachesNext(s, t, Stop(r), t');
      InvStep(t, Stop(r));
      OrphansAfterStop(t, r);
      StopCount(t, r);
      u := AllStop(s, t');
    }
  }

  /** Without readers, the loop may come back to wait for a packet, keeping its map. */
  lemma ComeBack(s: State, t: State) returns (u: State)
    requires Reaches(s, t) && t.readers == {} && !t.loop.Closed? && (t.loop.DialDone? ==> t.loop.known)
    ensures Reaches(s, u) && u.loop.Waiting? && u.readers == {} && u.m == t.m
  {
    u := t;
    if u.loop.DialDone? {
      var v := Next(u, Decide).value;
      ReachesNext(s, u, Decide, v);
      u := v;
    }
    if u.loop.ReadyToWrite? {
      var v := Next(u, Write(false)).value;
      ReachesNext(s, u, Write(false), v);
      u := v;
    }
  }

  lemma {:induction false} LongerThanAll(used: set<string>) returns (n: nat)
    ensures forall x | x in used :: |x| < n
    decreases used
  {
    if used == {} {
      n := 0;
    } else {
      var x :| x in used;
      n := LongerThanAll(used - {x});
      n := Max(n, |x| + 1);
    }
  }

  lemma StartHere(s: State)
    requires Inv(s) && s.readers == {} && s.loop.DialDone? && !s.loop.known && |Orphans(s)| < MAX_CONNS
    ensures Started(s) != {}
  {
    assert Tags(s.readers) == {};
    SubsetCount(s.m.Keys, Orphans(s) + {s.loop.src});
  }

  lemma StartNext(s: State, t: State) returns (u: State)
    requires Reaches(s, t) && t.loop.Waiting? && t.readers == {} && |t.m| < MAX_CONNS
    ensures Reaches(s, u) && Started(u) != {}
  {
    var n := LongerThanAll(t.m.Keys);
    var src := Source(n);
    u := Next(t, Packet(src, false)).value;
    ReachesNext(s, t, Packet(src, false), u);
    assert u.m.Keys == t.m.Keys + {src};
  }

  lemma SomeStart(s: State) returns (t: State)
    requires Inv(s) && !s.loop.Closed? && |Orphans(s)| < MAX_CONNS
    ensures Reaches(s, t) && Started(t) != {}
  {
    ReachesSelf(s);
    t := AllStop(s, s);
    if t.loop.DialDone? && !t.loop.known {
      StartHere(t);
    } else {
      assert Tags(t.readers) == {};
      assert Orphans(t) == t.m.Keys;
      t := ComeBack(s, t);
      t := StartNext(s, t);
    }
  }

  /** While the loop runs, some reader can still be started, for any source, now or later, if and only if fewer
      than 100 sources are in the map without a reader. */
  lemma StartableIff(s: State)
    requires Inv(s) && !s.loop.Closed?
    ensures (exists t :: Reaches(s, t) && Started(t) != {}) <==> |Orphans(s)| < 100
  {
    if |Orphans(s)| < MAX_CONNS {
      var t := SomeStart(s);
    } else {
      forall t | Reaches(s, t)
        ensures Started(t) == {}
      {
        NeverStarts(s, t);
      }
    }
  }

  // ----- a run into the blocked state -----

  function Source(i: nat): string {
    seq(i, _ => 'x')
  }

  function Sources(k: nat): set<string> {
    set i: nat | i < k :: Source(i)
  }

  lemma {:induction false} SourceCount(k: nat)
    ensures |Sources(k)| == k && Source(k) !in Sources(k)
  {
    assert forall i: nat :: |Source(i)| == i;
    if k > 0 {
      SourceCount(k - 1);
      assert Sources(k) == Sources(k - 1) + {Source(k - 1)};
    }
  }

  /** After one packet each from k sources, none of them answered: the first 100 have a reader. */
  function Flooded(k: nat): State {
    State(Waiting, map id | id in Sources(k) :: Conn(id, |id|),
          set id | id in Sources(if k < MAX_CONNS then k else MAX_CONNS) :: Reader(id, Conn(id, |id|)), [], k)
  }

  lemma FloodMap(k: nat)
    ensures Flooded(k).m[Source(k) := Conn(Source(k), k)] == Flooded(k + 1).m && |Flooded(k + 1).m| == k + 1
    ensures Source(k) !in Flooded(k).m
  {
    SourceCount(k);
    SourceCount(k + 1);
    assert |Source(k)| == k;
    assert Sources(k + 1) == Sources(k) + {Source(k)};
    assert Flooded(k + 1).m.Keys == Sources(k + 1);
  }

  lemma FloodReaders(k: nat)
    ensures Flooded(k + 1).readers ==
      Flooded(k).readers + (if k + 1 <= MAX_CONNS then {Reader(Source(k), Conn(Source(k), k))} else {})
  {
    if k < MAX_CONNS {
      assert |Source(k)| == k;
      assert Sources(k + 1) == Sources(k) + {Source(k)};
    }
  }

  lemma FloodStep(k: nat)
    requires Reaches(START, Flooded(k))
    ensures Reaches(START, Flooded(k + 1))
  {
    FloodMap(k);
    FloodReaders(k);
    var s0, src := Flooded(k), Source(k);
    var conn := Conn(src, k);
    var s1 := s0.(loop := DialDone(src, conn, false), m := s0.m[src := conn], sockets := k + 1);
    var s2 := s1.(loop := ReadyToWrite(conn), readers := Flooded(k + 1).readers);
    ReachesNext(START, s0, Packet(src, false), s1);
    ReachesNext(START, s1, Decide, s2);
    ReachesNext(START, s2, Write(false), Flooded(k + 1));
  }

  lemma {:induction false} Flood(k: nat)
    ensures Reaches(START, Flooded(k))
  {
    if k == 0 {
      assert Flooded(0).m == map[];
      ReachesSelf(START);
    } else {
      Flood(k - 1);
      FloodStep(k - 1);
    }
  }

  /** One packet each from 200 sources that get no answer, and no reader starts any more, for any source, until the
      loop ends. */
  lemma FloodBlocks(t: State)
    ensures Reaches(START, Flooded(200)) && |Orphans(Flooded(200))| == 100
    ensures Reaches(Flooded(200), t) ==> Started(t) == {}
  {
    Flood(200);
    var s := Flooded(200);
    var ss: seq<State>, acts: seq<Action> :| Steps(ss, acts) && ss[0] == START && ss[|acts|] == s;
    InvSteps(ss, acts, |acts|);
    FloodOrphans(200);
    if Reaches(s, t) {
      NeverStarts(s, t);
    }
  }

  /** Of k sources beyond the limit, all but the first 100 are without a reader. */
  lemma FloodOrphans(k: nat)
    requires k >= MAX_CONNS
    ensures |Orphans(Flooded(k))| == k - MAX_CONNS
  {
    var s := Flooded(k);
    forall id | id in Sources(MAX_CONNS)
      ensures id in Tags(s.readers)
    {
      assert Reader(id, Conn(id, |id|)) in s.readers;
    }
    assert Tags(s.readers) == Sources(MAX_CONNS);
    assert Orphans(s) == Sources(k) - Sources(MAX_CONNS);
    LateSources(MAX_CONNS, k);
  }

  lemma LateSources(i: nat, k: nat)
    requires i <= k
    ensures |Sources(k) - Sources(i)| == k - i
  {
    SourceCount(i);
    SourceCount(k);
    assert Sources(k) == (Sources(k) - Sources(i)) + Sources(i);
  }
}
