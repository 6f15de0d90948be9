/** The schema cache: one Redis key per table plus an index key, each with its own deadline. */
module SchemaCache {
  import opened Redis
  import opened Text
  import opened Wrappers

  datatype Table = Table(name: string, data: string)

  datatype Value = Names(names: seq<string>) | Data(data: string)

  const INDEX := "__index__"

  function Key(session: string, name: string): string {
    "schema:" + session + ":" + name
  }

  function TableNames(tables: seq<Table>): seq<string> {
    seq(|tables|, i requires 0 <= i < |tables| => tables[i].name)
  }

  /** The store after the first n table writes, the i-th at times[i]. */
  function TablesWritten(store: Store<Value>, session: string, tables: seq<Table>, times: seq<int>, ttl: int, n: nat)
    : Store<Value>
    requires n <= |tables| <= |times|
  {
    if n == 0 then store
    else
      var before := TablesWritten(store, session, tables, times, ttl, n - 1);
      Set(before, Put(Key(session, tables[n - 1].name), Data(tables[n - 1].data), times[n - 1]), ttl)
  }

  /** All tables, then the index. */
  function Written(store: Store<Value>, session: string, tables: seq<Table>, times: seq<int>, ttl: int): Store<Value>
    requires |times| == |tables| + 1
  {
    var before := TablesWritten(store, session, tables, times, ttl, |tables|);
    Set(before, Put(Key(session, INDEX), Names(TableNames(tables)), times[|tables|]), ttl)
  }

  /** The tables found under the names from i on, in order; the get of the i-th name happens at clock(i + 1). */
  function Collect(store: Store<Value>, session: string, names: seq<string>, clock: nat -> int, i: nat): seq<Table>
    requires i <= |names|
    decreases |names| - i
  {
    if i == |names| then []
    else
      var rest := Collect(store, session, names, clock, i + 1);
      match Get<Value>(store, Key(session, names[i]), clock(i + 1))
      case Some(Data(d)) => [Table(names[i], d)] + rest
      case _ => rest
  }

  /** get_cached_schema over a store that nobody writes meanwhile; an empty schema is no schema. */
  function Read(store: Store<Value>, session: string, clock: nat -> int): Option<seq<Table>> {
    match Get<Value>(store, Key(session, INDEX), clock(0))
    case Some(Names(names)) =>
      var found := Collect(store, session, names, clock, 0);
      if found == [] then None else Some(found)
    case _ => None
  }

  /** All gets at one instant. */
  function Instant(now: int): nat -> int {
    (i: nat) => now
  }

  lemma MoveOver(before: seq<Table>, x: Table, after: seq<Table>)
    ensures before + ([x] + after) == (before + [x]) + after
  {
  }

  class SchemaService {
    var store: Store<Value>
    const ttl: int

    constructor (ttl: int)
      ensures this.ttl == ttl && store == map[]
    {
      this.ttl, this.store := ttl, map[];
    }

    /** clock gives the times of the gets: keys may expire between them. */
    method GetCachedSchema(session: string, clock: nat -> int) returns (schema: Option<seq<Table>>)
      ensures schema == Read(store, session, clock)
    {
      var index := Get(store, Key(session, INDEX), clock(0));
      if index.None? || index.value.Data? {
        return None;
      }
      var names, found := index.value.names, [];
      for i := 0 to |names|
        invariant found + Collect(store, session, names, clock, i) == Collect(store, session, names, clock, 0)
      {
        var value := Get(store, Key(session, names[i]), clock(i + 1));
        if value.Some? && value.value.Data? {
          MoveOver(found, Table(names[i], value.value.data), Collect(store, session, names, clock, i + 1));
          found := found + [Table(names[i], value.value.data)];
        }
      }
      assert found + [] == found;
      schema := if found == [] then None else Some(found);
    }

    /** The write half of introspect_and_cache, each write at its own time. */
    method CacheSnapshot(session: string, tables: seq<Table>, times: seq<int>)
      requires |times| == |tables| + 1
      modifies this
      ensures store == Written(old(store), session, tables, times, ttl)
    {
      for n := 0 to |tables|
        invariant store == TablesWritten(old(store), session, tables, times, ttl, n)
      {
        store := Set(store, Put(Key(session, tables[n].name), Data(tables[n].data), times[n]), ttl);
      }
      store := Set(store, Put(Key(session, INDEX), Names(TableNames(tables)), times[|tables|]), ttl);
    }

    /** introspected is what the database answers if it is asked. */
    method IntrospectAndCache(session: string, force: bool, clock: nat -> int, introspected: seq<Table>,
        times: seq<int>)
      returns (tables: seq<Table>)
      requires |times| == |introspected| + 1
      modifies this
      ensures !force && Read(old(store), session, clock).Some? ==>
                tables == Read(old(store), session, clock).value && store == old(store)
      ensures force || Read(old(store), session, clock).None? ==>
                tables == introspected && store == Written(old(store), session, introspected, times, ttl)
    {
      if !force {
        var cached := GetCachedSchema(session, clock);
        if cached.Some? {
          return cached.value;
        }
      }
      CacheSnapshot(session, introspected, times);
      tables := introspected;
    }
  }

  // ---------------------------------------------------------------- round trip and decay

  /** Distinct tables, none of them called like the index. */
  ghost predicate Snapshot(tables: seq<Table>) {
    && (forall i :: 0 <= i < |tables| ==> tables[i].name != INDEX)
    && (forall i, j :: 0 <= i < j < |tables| ==> tables[i].name != tables[j].name)
  }

  ghost predicate Ordered(times: seq<int>) {
    forall i, j :: 0 <= i <= j < |times| ==> times[i] <= times[j]
  }

  lemma SameSessionKeys(session: string, a: string, b: string)
    requires Key(session, a) == Key(session, b)
    ensures a == b
  {
    var p := |"schema:" + session + ":"|;
    assert Key(session, a)[p..] == a && Key(session, b)[p..] == b;
  }

  lemma {:induction false} WrittenTable(store: Store<Value>, session: string, tables: seq<Table>, times: seq<int>,
      ttl: int, n: nat, i: nat)
    requires i < n <= |tables| <= |times| && Snapshot(tables)
    ensures var s := TablesWritten(store, session, tables, times, ttl, n); var k := Key(session, tables[i].name);
      k in s && s[k] == Entry(Data(tables[i].data), times[i] + ttl)
  {
    if i == n - 1 {
    } else {
      WrittenTable(store, session, tables, times, ttl, n - 1, i);
      if Key(session, tables[n - 1].name) == Key(session, tables[i].name) {
        SameSessionKeys(session, tables[n - 1].name, tables[i].name);
      }
    }
  }

  lemma ReadsWritten(store: Store<Value>, session: string, tables: seq<Table>, times: seq<int>, ttl: int, i: nat)
    requires i < |tables| && |times| == |tables| + 1 && Snapshot(tables)
    ensures var s := Written(store, session, tables, times, ttl); var k := Key(session, tables[i].name);
      k in s && s[k] == Entry(Data(tables[i].data), times[i] + ttl)
  {
    WrittenTable(store, session, tables, times, ttl, |tables|, i);
    if Key(session, tables[i].name) == Key(session, INDEX) {
      SameSessionKeys(session, tables[i].name, INDEX);
    }
  }

  /** How many of the writes have expired: as they were made in order, the first ones. */
  function Expired(times: seq<int>, ttl: int, now: int, n: nat): (k: nat)
    requires n <= |times|
    ensures k <= n
  {
    if n == 0 then 0
    else if times[n - 1] + ttl <= now then n
    else Expired(times, ttl, now, n - 1)
  }

  lemma {:induction false} ExpiredAreFirst(times: seq<int>, ttl: int, now: int, n: nat)
    requires n <= |times| && Ordered(times)
    ensures forall i :: 0 <= i < n ==> (times[i] + ttl <= now <==> i < Expired(times, ttl, now, n))
  {
    if n == 0 {
    } else if now < times[n - 1] + ttl {
      ExpiredAreFirst(times, ttl, now, n - 1);
    }
  }

  /** The tables from i on that are still there when their turn comes. */
  function LiveFrom(tables: seq<Table>, times: seq<int>, ttl: int, clock: nat -> int, i: nat): seq<Table>
    requires i <= |tables| <= |times|
    decreases |tables| - i
  {
    if i == |tables| then []
    else
      var rest := LiveFrom(tables, times, ttl, clock, i + 1);
      if clock(i + 1) < times[i] + ttl then [tables[i]] + rest else rest
  }

  lemma {:induction false} CollectsLive(
      store: Store<Value>, session: string, tables: seq<Table>, times: seq<int>, ttl: int, clock: nat -> int, i: nat)
    requires i <= |tables| && |times| == |tables| + 1 && Snapshot(tables)
    ensures Collect(Written(store, session, tables, times, ttl), session, TableNames(tables), clock, i)
         == LiveFrom(tables, times, ttl, clock, i)
    decreases |tables| - i
  {
    if i == |tables| {
    } else {
      CollectsLive(store, session, tables, times, ttl, clock, i + 1);
      ReadsWritten(store, session, tables, times, ttl, i);
    }
  }

  /**
   * Whatever the store held before, a read yields exactly the tables of the snapshot whose deadline is
   * still ahead when they are read, in write order, as long as the index is. Tables that an earlier
   * snapshot had and this one lacks are gone.
   */
  lemma ReadWhileExpiring(store: Store<Value>, session: string, tables: seq<Table>, times: seq<int>, ttl: int,
      clock: nat -> int)
    requires |times| == |tables| + 1 && Snapshot(tables)
    ensures var live := LiveFrom(tables, times, ttl, clock, 0);
      Read(Written(store, session, tables, times, ttl), session, clock)
        == if clock(0) < times[|tables|] + ttl && live != [] then Some(live) else None
  {
    CollectsLive(store, session, tables, times, ttl, clock, 0);
  }

  lemma {:induction false} LiveIsSuffix(tables: seq<Table>, times: seq<int>, ttl: int, now: int, i: nat)
    requires i <= |tables| && |times| == |tables| + 1 && Ordered(times)
    ensures var k := Expired(times, ttl, now, |tables|);
      LiveFrom(tables, times, ttl, Instant(now), i) == tables[if i < k then k else i..]
    decreases |tables| - i
  {
    if i == |tables| {
    } else {
      LiveIsSuffix(tables, times, ttl, now, i + 1);
      ExpiredAreFirst(times, ttl, now, |tables|);
    }
  }

  /**
   * At one instant the live tables are a suffix in write order: the whole snapshot before the first
   * deadline, nothing after the last.
   */
  lemma ReadBack(store: Store<Value>, session: string, tables: seq<Table>, times: seq<int>, ttl: int, now: int)
    requires |times| == |tables| + 1 && Snapshot(tables) && Ordered(times)
    ensures var k := Expired(times, ttl, now, |tables|);
      && Read(Written(store, session, tables, times, ttl), session, Instant(now)) ==
          (if k < |tables| then Some(tables[k..]) else None)
      && (forall i :: 0 <= i < |tables| ==> (i < k <==> times[i] + ttl <= now))
  {
    ReadWhileExpiring(store, session, tables, times, ttl, Instant(now));
    LiveIsSuffix(tables, times, ttl, now, 0);
    ExpiredAreFirst(times, ttl, now, |tables|);
    if now >= times[|tables|] + ttl && tables != [] {
      assert times[|tables| - 1] <= times[|tables|];
    }
  }

  // ---------------------------------------------------------------- sessions do not mix

  /** Session ids hold no colon, so a key names one session and one table. */
  lemma KeyInjective(s: string, a: string, t: string, b: string)
    requires NoColon(s) && NoColon(t) && Key(s, a) == Key(t, b)
    ensures s == t && a == b
  {
    var p := |"schema:"|;
    assert Key(s, a) == "schema:" + (s + ":" + a) && Key(t, b) == "schema:" + (t + ":" + b);
    assert Key(s, a)[p..] == s + ":" + a && Key(t, b)[p..] == t + ":" + b;
    ColonInjective(s, a, t, b);
  }

  lemma NoTableKey(s: string, t: string, name: string)
    requires NoColon(s)
    ensures Key(t, name) != "schema:" + s
  {
    var own, closed := Key(t, name), "schema:" + s;
    assert own[7 + |t|] == ':';
    forall k | 7 <= k < |closed| ensures closed[k] != ':' {
      assert closed[k] == s[k - 7];
    }
  }

  lemma {:induction false} CloseLeavesTables(
      store: Store<Value>, s: string, t: string, names: seq<string>, clock: nat -> int, i: nat)
    requires NoColon(s) && i <= |names|
    ensures Collect(store - {"schema:" + s}, t, names, clock, i) == Collect(store, t, names, clock, i)
    decreases |names| - i
  {
    if i == |names| {
    } else {
      NoTableKey(s, t, names[i]);
      CloseLeavesTables(store, s, t, names, clock, i + 1);
    }
  }

  /**
   * The key schema:{session_id} that close_session deletes is none of these: the schema of a closed session
   * stays readable.
   */
  lemma CloseLeavesSchema(store: Store<Value>, s: string, t: string, clock: nat -> int)
    requires NoColon(s)
    ensures Read(store - {"schema:" + s}, t, clock) == Read(store, t, clock)
  {
    NoTableKey(s, t, INDEX);
    var index := Get<Value>(store, Key(t, INDEX), clock(0));
    if index.Some? && index.value.Names? {
      CloseLeavesTables(store, s, t, index.value.names, clock, 0);
    }
  }

  /** The lifetime of a session:{session_id} entry. */
  const SESSION_TTL: int := 3600

  /**
   * Where an introspection has its connection string from: the queued message, the session entry, or a call that
   * is given one.
   */
  datatype Source = FromQueue | FromEntry(resolved: int) | Given

  datatype Intro = Intro(session: string, connection: string, tables: seq<Table>, time: int, source: Source)

  /** What connect_session was asked for. */
  datatype Bound = Bound(connection: string, time: int)

  datatype Message = Message(session: string, connection: string)

  /** A table that a reader got at a time; after counts the writes made before. */
  datatype Got = Got(table: Table, at: int, after: nat)

  /**
   * The rest of a call: connect_session after its entry, an introspection before and after it ran, a read in
   * progress.
   */
  datatype Job =
    | Publishing(session: string, connection: string)
    | Knowing(session: string, connection: string, source: Source)
    | Writing(intro: nat, next: nat)
    | Reading(session: string, names: seq<string>, next: nat, got: seq<Got>)
    | Done

  /** writes is the log of all writes of the schema keys, entries the session entries by session. */
  datatype World = World(
    store: Store<Value>, now: int, bound: map<string, Bound>, entries: Store<string>, queue: set<Message>,
    jobs: map<nat, Job>, intros: seq<Intro>, writes: seq<Put<Value>>)

  datatype Event =
    | Connect(id: nat, session: string, connection: string, time: int)
    | Publish(id: nat, time: int)
    | Receive(id: nat, message: Message, time: int)
    | Resolve(id: nat, session: string, time: int)
    | Close(id: nat, session: string, time: int)
    | Give(id: nat, session: string, connection: string, time: int)
    | Introspect(id: nat, tables: seq<Table>, time: int)
    | WriteNext(id: nat, time: int)
    | ReadIndex(id: nat, session: string, time: int)
    | ReadNext(id: nat, time: int)
    | Abandon(id: nat, time: int)

  /** A session id nobody has used: connect_session draws a random one. */
  predicate Unused(w: World, session: string) {
    && session !in w.bound
    && (forall i :: 0 <= i < |w.intros| ==> w.intros[i].session != session)
    && (forall id :: id in w.jobs && w.jobs[id].Knowing? ==> w.jobs[id].session != session)
  }

  predicate Enabled(w: World, e: Event) {
    && w.now <= e.time
    && (e.Connect? || e.Receive? || e.Resolve? || e.Close? || e.Give? || e.ReadIndex? <==> e.id !in w.jobs)
    && match e
       case Connect(_, s, _, _) => NoColon(s) && Unused(w, s)
       case Publish(id, _) => w.jobs[id].Publishing?
       case Receive(_, m, _) => m in w.queue
       case Resolve(_, s, _) => NoColon(s)
       case Close(_, s, _) => NoColon(s) && Get(w.entries, s, e.time).Some?
       case Give(_, s, _, _) => NoColon(s) && s !in w.bound
       case Introspect(id, tables, _) =>
         w.jobs[id].Knowing? && forall j :: 0 <= j < |tables| ==> tables[j].name != INDEX
       case WriteNext(id, _) =>
         w.jobs[id].Writing? && w.jobs[id].intro < |w.intros| && w.jobs[id].next <= |w.intros[w.jobs[id].intro].tables|
       case ReadIndex(_, s, _) => NoColon(s)
       case ReadNext(id, _) => w.jobs[id].Reading? && w.jobs[id].next < |w.jobs[id].names|
       case Abandon(_, _) => true
  }

  /** The next write of a writer: a table, or the index at the end. */
  function NextPut(n: Intro, next: nat, time: int): Put<Value>
    requires next <= |n.tables|
  {
    if next < |n.tables| then Put(Key(n.session, n.tables[next].name), Data(n.tables[next].data), time)
    else Put(Key(n.session, INDEX), Names(TableNames(n.tables)), time)
  }

  function Step(ttl: int, w: World, e: Event): World
    requires Enabled(w, e)
  {
    var v := w.(now := e.time);
    match e
    case Connect(id, s, c, t) =>
      v.(bound := w.bound[s := Bound(c, t)], entries := Set(w.entries, Put(s, c, t), SESSION_TTL),
         jobs := w.jobs[id := Publishing(s, c)])
    case Publish(id, t) =>
      v.(queue := w.queue + {Message(w.jobs[id].session, w.jobs[id].connection)}, jobs := w.jobs[id := Done])
    case Receive(id, m, t) => v.(jobs := w.jobs[id := Knowing(m.session, m.connection, FromQueue)])
    case Resolve(id, s, t) =>
      var c := Get(w.entries, s, t);
      v.(jobs := w.jobs[id := if c.Some? then Knowing(s, c.value, FromEntry(t)) else Done])
    case Close(id, s, t) => v.(entries := w.entries - {s}, jobs := w.jobs[id := Done])
    case Give(id, s, c, t) => v.(jobs := w.jobs[id := Knowing(s, c, Given)])
    case Introspect(id, tables, t) =>
      var j := w.jobs[id];
      v.(intros := w.intros + [Intro(j.session, j.connection, tables, t, j.source)],
         jobs := w.jobs[id := Writing(|w.intros|, 0)])
    case WriteNext(id, t) =>
      var j := w.jobs[id];
      var n := w.intros[j.intro];
      var put := NextPut(n, j.next, t);
      v.(store := Set(w.store, put, ttl), writes := w.writes + [put],
         jobs := w.jobs[id := if j.next < |n.tables| then Writing(j.intro, j.next + 1) else Done])
    case ReadIndex(id, s, t) =>
      var index := Get(w.store, Key(s, INDEX), t);
      v.(jobs := w.jobs[id := if index.Some? && index.value.Names? then Reading(s, index.value.names, 0, []) else Done])
    case ReadNext(id, t) =>
      var j := w.jobs[id];
      var value := Get(w.store, Key(j.session, j.names[j.next]), t);
      var got :=
        if value.Some? && value.value.Data? then [Got(Table(j.names[j.next], value.value.data), t, |w.writes|)] else [];
      v.(jobs := w.jobs[id := j.(next := j.next + 1, got := j.got + got)])
    case Abandon(id, t) => v.(jobs := w.jobs[id := Done])
  }

  predicate Legal(ttl: int, w: World, es: seq<Event>)
    decreases |es|
  {
    es == [] || (Enabled(w, es[0]) && Legal(ttl, Step(ttl, w, es[0]), es[1..]))
  }

  function Run(ttl: int, w: World, es: seq<Event>): World
    requires Legal(ttl, w, es)
    decreases |es|
  {
    if es == [] then w else Run(ttl, Step(ttl, w, es[0]), es[1..])
  }

  function Start(now: int): World {
    World(map[], now, map[], map[], {}, map[], [], [])
  }

  // ---------------------------------------------------------------- an operation in one piece is a run

  /** The remaining writes of a writer, each at its time. */
  function WritesFrom(id: nat, times: seq<int>, next: nat): seq<Event>
    requires next <= |times|
    decreases |times| - next
  {
    if next == |times| then [] else [WriteNext(id, times[next])] + WritesFrom(id, times, next + 1)
  }

  lemma FirstStep(ttl: int, w: World, e: Event, es: seq<Event>)
    requires Enabled(w, e) && Legal(ttl, Step(ttl, w, e), es)
    ensures Legal(ttl, w, [e] + es) && Run(ttl, w, [e] + es) == Run(ttl, Step(ttl, w, e), es)
  {
    assert ([e] + es)[1..] == es;
  }

  lemma OneWrite(ttl: int, w: World, id: nat, i: nat, next: nat, t: int)
    requires id in w.jobs && w.jobs[id] == Writing(i, next) && w.now <= t
    requires i < |w.intros| && next <= |w.intros[i].tables|
    ensures var e := WriteNext(id, t);
      && Enabled(w, e) && Step(ttl, w, e).now == t && Step(ttl, w, e).intros == w.intros
      && Step(ttl, w, e).store == Set(w.store, NextPut(w.intros[i], next, t), ttl)
      && Step(ttl, w, e).jobs == w.jobs[id := if next < |w.intros[i].tables| then Writing(i, next + 1) else Done]
  {
  }

  /** The write steps of an introspection, with no other writer in between, leave what its write half leaves. */
  lemma {:induction false} WritesAreSnapshot(
      ttl: int, w: World, id: nat, i: nat, times: seq<int>, next: nat, before: Store<Value>)
    requires id in w.jobs && w.jobs[id] == Writing(i, next) && i < |w.intros| && next <= |w.intros[i].tables|
    requires |times| == |w.intros[i].tables| + 1 && Ordered(times) && w.now <= times[next]
    requires w.store == TablesWritten(before, w.intros[i].session, w.intros[i].tables, times, ttl, next)
    ensures Legal(ttl, w, WritesFrom(id, times, next))
    ensures Run(ttl, w, WritesFrom(id, times, next)).store
         == Written(before, w.intros[i].session, w.intros[i].tables, times, ttl)
    decreases |times| - next
  {
    var e := WriteNext(id, times[next]);
    var v := Step(ttl, w, e);
    OneWrite(ttl, w, id, i, next, times[next]);
    if next == |w.intros[i].tables| {
      assert WritesFrom(id, times, next) == [e] + [];
      FirstStep(ttl, w, e, []);
    } else {
      WritesAreSnapshot(ttl, v, id, i, times, next + 1, before);
      FirstStep(ttl, w, e, WritesFrom(id, times, next + 1));
    }
  }

  /** The gets of a reader from the i-th name on. */
  function ReadsFrom(id: nat, clock: nat -> int, i: nat, n: nat): seq<Event>
    requires i <= n
    decreases n - i
  {
    if i == n then [] else [ReadNext(id, clock(i + 1))] + ReadsFrom(id, clock, i + 1, n)
  }

  function TablesOf(got: seq<Got>): (tables: seq<Table>)
    ensures |tables| == |got|
  {
    seq(|got|, k requires 0 <= k < |got| => got[k].table)
  }

  ghost predicate Ticks(clock: nat -> int) {
    forall i: nat, j: nat :: i <= j ==> clock(i) <= clock(j)
  }

  lemma {:induction false} ReadsAreCollect(ttl: int, w: World, id: nat, clock: nat -> int) returns (v: World)
    requires id in w.jobs && w.jobs[id].Reading? && w.jobs[id].next <= |w.jobs[id].names|
    requires Ticks(clock) && w.now <= clock(w.jobs[id].next + 1)
    ensures var j := w.jobs[id]; var es := ReadsFrom(id, clock, j.next, |j.names|);
      && Legal(ttl, w, es) && v == Run(ttl, w, es)
      && id in v.jobs && v.jobs[id].Reading? && v.jobs[id].session == j.session
      && TablesOf(v.jobs[id].got) == TablesOf(j.got) + Collect(w.store, j.session, j.names, clock, j.next)
    decreases |w.jobs[id].names| - w.jobs[id].next
  {
    var j := w.jobs[id];
    if j.next == |j.names| {
      v := w;
      assert TablesOf(j.got) + [] == TablesOf(j.got);
    } else {
      var e := ReadNext(id, clock(j.next + 1));
      var u := Step(ttl, w, e);
      v := ReadsAreCollect(ttl, u, id, clock);
      FirstStep(ttl, w, e, ReadsFrom(id, clock, j.next + 1, |j.names|));
      var rest := Collect(w.store, j.session, j.names, clock, j.next + 1);
      var value := Get(w.store, Key(j.session, j.names[j.next]), clock(j.next + 1));
      if value.Some? && value.value.Data? {
        var t := Table(j.names[j.next], value.value.data);
        assert TablesOf(u.jobs[id].got) == TablesOf(j.got) + [t];
        MoveOver(TablesOf(j.got), t, rest);
      } else {
        assert u.jobs[id].got == j.got + [] == j.got;
      }
    }
  }

  /** The gets of a reader, with no writer in between, find what get_cached_schema finds. */
  lemma ReadIsRun(ttl: int, w: World, id: nat, s: string, clock: nat -> int) returns (es: seq<Event>)
    requires id !in w.jobs && NoColon(s) && Ticks(clock) && w.now <= clock(0)
    ensures Legal(ttl, w, es) && id in Run(ttl, w, es).jobs
    ensures var j := Run(ttl, w, es).jobs[id];
      if j.Reading? && j.got != [] then Read(w.store, s, clock) == Some(TablesOf(j.got))
      else Read(w.store, s, clock) == None
  {
    var e := ReadIndex(id, s, clock(0));
    var u := Step(ttl, w, e);
    if u.jobs[id].Reading? {
      var v := ReadsAreCollect(ttl, u, id, clock);
      es := [e] + ReadsFrom(id, clock, 0, |u.jobs[id].names|);
      FirstStep(ttl, w, e, ReadsFrom(id, clock, 0, |u.jobs[id].names|));
      var found := Collect(w.store, s, u.jobs[id].names, clock, 0);
      assert TablesOf([]) + found == found;
    } else {
      es := [e] + [];
      FirstStep(ttl, w, e, []);
    }
  }

  /**
   * What connect_session sets going: its message brings an introspection over its own connection string, and
   * the writes of that, with no other writer in between, leave the tables it saw.
   */
  lemma ConnectedIsIntrospected(
      ttl: int, w: World, id: nat, job: nat, s: string, c: string, tables: seq<Table>, t: int, times: seq<int>)
    returns (es: seq<Event>)
    requires id !in w.jobs && job !in w.jobs && id != job && NoColon(s) && Unused(w, s) && w.now <= t
    requires forall j :: 0 <= j < |tables| ==> tables[j].name != INDEX
    requires |times| == |tables| + 1 && Ordered(times) && t <= times[0]
    ensures Legal(ttl, w, es) && Run(ttl, w, es).store == Written(w.store, s, tables, times, ttl)
    ensures Intro(s, c, tables, t, FromQueue) in Run(ttl, w, es).intros
  {
    var e1, e2 := Connect(id, s, c, t), Publish(id, t);
    var e3, e4 := Receive(job, Message(s, c), t), Introspect(job, tables, t);
    var v1 := Step(ttl, w, e1);
    var v2 := Step(ttl, v1, e2);
    var v3 := Step(ttl, v2, e3);
    var v4 := Step(ttl, v3, e4);
    var rest := WritesFrom(job, times, 0);
    WritesAreSnapshot(ttl, v4, job, |w.intros|, times, 0, w.store);
    IntrosStay(ttl, v4, rest);
    assert v4.intros[|w.intros|] == Intro(s, c, tables, t, FromQueue);
    FirstStep(ttl, v3, e4, rest);
    FirstStep(ttl, v2, e3, [e4] + rest);
    FirstStep(ttl, v1, e2, [e3] + ([e4] + rest));
    FirstStep(ttl, w, e1, [e2] + ([e3] + ([e4] + rest)));
    es := [e1] + ([e2] + ([e3] + ([e4] + rest)));
  }

  lemma {:induction false} IntrosStay(ttl: int, w: World, es: seq<Event>)
    requires Legal(ttl, w, es)
    ensures w.intros <= Run(ttl, w, es).intros
    decreases |es|
  {
    if es == [] {
    } else {
      IntrosStay(ttl, Step(ttl, w, es[0]), es[1..]);
    }
  }

  // ---------------------------------------------------------------- closed sessions

  /** Made by connect_session, and without an entry. */
  predicate Closed(w: World, s: string) {
    s in w.bound && s !in w.entries
  }

  lemma StepKeepsClosed(ttl: int, w: World, e: Event, s: string)
    requires Enabled(w, e) && Closed(w, s)
    ensures Closed(Step(ttl, w, e), s)
  {
  }

  lemma {:induction false} RunKeepsClosed(ttl: int, w: World, es: seq<Event>, s: string)
    requires Legal(ttl, w, es) && Closed(w, s)
    ensures Closed(Run(ttl, w, es), s)
    decreases |es|
  {
    if es == [] {
    } else {
      StepKeepsClosed(ttl, w, es[0], s);
      RunKeepsClosed(ttl, Step(ttl, w, es[0]), es[1..], s);
    }
  }

  /** A closed session stays closed: however the run goes on, nobody finds a connection string under its id again. */
  lemma ClosedForGood(ttl: int, start: int, before: seq<Event>, id: nat, s: string, t: int, after: seq<Event>, now: int)
    requires Legal(ttl, Start(start), before) && Enabled(Run(ttl, Start(start), before), Close(id, s, t))
    requires Legal(ttl, Step(ttl, Run(ttl, Start(start), before), Close(id, s, t)), after)
    ensures Get(Run(ttl, Step(ttl, Run(ttl, Start(start), before), Close(id, s, t)), after).entries, s, now).None?
  {
    var w := Run(ttl, Start(start), before);
    RunKeepsInv(ttl, Start(start), before);
    assert EntryHonest(w, s);
    RunKeepsClosed(ttl, Step(ttl, w, Close(id, s, t)), after, s);
  }

  // ---------------------------------------------------------------- connection strings

  /**
   * Connection strings from the queue or an entry are for sessions made by connect_session. Such a session is
   * met with its own connection string only, and with that of its entry only while the entry lives.
   */
  predicate OwnConnection(w: World, session: string, connection: string, source: Source) {
    if session in w.bound then
      var b := w.bound[session];
      && connection == b.connection && !source.Given?
      && (source.FromEntry? ==> b.time <= source.resolved < b.time + 3600)
    else source.Given?
  }

  predicate EntryHonest(w: World, session: string) {
    session in w.entries ==>
      && session in w.bound && w.bound[session].time <= w.now
      && w.entries[session] == Entry(w.bound[session].connection, w.bound[session].time + SESSION_TTL)
  }

  predicate JobHonest(w: World, j: Job) {
    match j
    case Publishing(s, c) => NoColon(s) && s in w.bound && w.bound[s].connection == c
    case Knowing(s, c, source) => NoColon(s) && OwnConnection(w, s, c, source)
    case Writing(i, next) => i < |w.intros| && next <= |w.intros[i].tables|
    case Reading(s, names, next, _) => NoColon(s) && next <= |names| && INDEX !in names
    case Done => true
  }

  predicate IntroHonest(w: World, n: Intro) {
    && NoColon(n.session) && n.time <= w.now && OwnConnection(w, n.session, n.connection, n.source)
    && forall j :: 0 <= j < |n.tables| ==> n.tables[j].name != INDEX
  }

  ghost predicate SourcesHonest(w: World) {
    && (forall s :: EntryHonest(w, s))
    && (forall m :: m in w.queue ==>
        NoColon(m.session) && m.session in w.bound && w.bound[m.session].connection == m.connection)
    && (forall id :: id in w.jobs ==> JobHonest(w, w.jobs[id]))
    && (forall i :: 0 <= i < |w.intros| ==> IntroHonest(w, w.intros[i]))
  }

  // ---------------------------------------------------------------- writes and reads

  /** This introspection is where the write comes from. */
  ghost predicate Explains(n: Intro, p: Put<Value>) {
    && n.time <= p.time
    && forall s, name :: NoColon(s) && name != INDEX && Key(s, name) == p.key ==>
         n.session == s && p.value.Data? && Table(name, p.value.data) in n.tables
  }

  ghost predicate WriteHonest(w: World, p: Put<Value>) {
    && p.time <= w.now
    && (exists i :: 0 <= i < |w.intros| && Explains(w.intros[i], p))
    && forall s :: NoColon(s) && Key(s, INDEX) == p.key ==> p.value.Names? && INDEX !in p.value.names
  }

  /** An introspection of that session, through its own connection string, saw the table by then. */
  predicate OwnIntro(w: World, n: Intro, session: string, x: Table, written: int) {
    n.session == session && x in n.tables && n.time <= written && OwnConnection(w, session, n.connection, n.source)
  }

  /**
   * What a reader got is the last write of the table's key before, younger than the time to live at
   * the time of the get, and the table was seen by an introspection of the reader's session.
   */
  ghost predicate GotHonest(ttl: int, w: World, session: string, g: Got) {
    && g.after <= |w.writes| && g.at <= w.now
    && (forall k :: g.after <= k < |w.writes| ==> g.at <= w.writes[k].time)
    && var last := LastPut(w.writes[..g.after], Key(session, g.table.name));
    && last.Some? && last.value.value == Data(g.table.data) && g.at - ttl < last.value.time <= g.at
    && exists i :: 0 <= i < |w.intros| && OwnIntro(w, w.intros[i], session, g.table, last.value.time)
  }

  ghost predicate ReaderHonest(ttl: int, w: World, j: Job) {
    j.Reading? ==> forall k :: 0 <= k < |j.got| ==> GotHonest(ttl, w, j.session, j.got[k])
  }

  ghost predicate Inv(ttl: int, w: World) {
    && SourcesHonest(w)
    && Explained(w.store, w.writes, ttl)
    && (forall k :: 0 <= k < |w.writes| ==> WriteHonest(w, w.writes[k]))
    && (forall id :: id in w.jobs ==> ReaderHonest(ttl, w, w.jobs[id]))
  }

  // ---------------------------------------------------------------- every step keeps it

  /** v comes after w; a session bound in between was not in use. */
  ghost predicate Follows(w: World, v: World) {
    && w.now <= v.now && w.intros <= v.intros && w.writes <= v.writes
    && (forall k :: |w.writes| <= k < |v.writes| ==> w.now <= v.writes[k].time)
    && (forall s :: s in w.bound ==> s in v.bound && v.bound[s] == w.bound[s])
    && (forall s :: s in v.bound && s !in w.bound ==> Unused(w, s))
  }

  lemma WriteStays(w: World, v: World, p: Put<Value>)
    requires Follows(w, v) && WriteHonest(w, p)
    ensures WriteHonest(v, p)
  {
    var i :| 0 <= i < |w.intros| && Explains(w.intros[i], p);
    assert Explains(v.intros[i], p);
  }

  lemma GotStays(ttl: int, w: World, v: World, session: string, g: Got)
    requires Follows(w, v) && GotHonest(ttl, w, session, g)
    ensures GotHonest(ttl, v, session, g)
  {
    assert v.writes[..g.after] == w.writes[..g.after];
    var written := LastPut(w.writes[..g.after], Key(session, g.table.name)).value.time;
    var i :| 0 <= i < |w.intros| && OwnIntro(w, w.intros[i], session, g.table, written);
    assert session in v.bound ==> session in w.bound;
    assert OwnIntro(v, v.intros[i], session, g.table, written);
    forall k | g.after <= k < |v.writes| ensures g.at <= v.writes[k].time {
      assert k < |w.writes| ==> v.writes[k] == w.writes[k];
    }
  }

  /** A live session entry gives the session's own connection string. */
  lemma ResolvedIsOwn(w: World, s: string, t: int)
    requires SourcesHonest(w) && w.now <= t && Get(w.entries, s, t).Some?
    ensures s in w.bound && OwnConnection(w, s, Get(w.entries, s, t).value, FromEntry(t))
  {
    assert EntryHonest(w, s);
  }

  lemma IndexIsClean(ttl: int, w: World, s: string, t: int)
    requires Inv(ttl, w) && NoColon(s) && Get(w.store, Key(s, INDEX), t).Some?
    ensures var v := Get(w.store, Key(s, INDEX), t).value; v.Names? && INDEX !in v.names
  {
    GetIsLastPut(w.store, w.writes, ttl, Key(s, INDEX), t);
    var k :| 0 <= k < |w.writes| && w.writes[k] == LastPut(w.writes, Key(s, INDEX)).value;
    assert WriteHonest(w, w.writes[k]);
  }

  /** The job an event works on is as it should be afterwards. */
  lemma OwnJobHonest(ttl: int, w: World, e: Event)
    requires Inv(ttl, w) && Enabled(w, e)
    ensures var v := Step(ttl, w, e); e.id in v.jobs && JobHonest(v, v.jobs[e.id])
  {
    if e.id in w.jobs {
    }
    if e.Resolve? && Get(w.entries, e.session, e.time).Some? {
      ResolvedIsOwn(w, e.session, e.time);
    } else if e.ReadIndex? && Get(w.store, Key(e.session, INDEX), e.time).Some? {
      IndexIsClean(ttl, w, e.session, e.time);
    }
  }

  lemma StepKeepsEntries(ttl: int, w: World, e: Event, s: string)
    requires EntryHonest(w, s) && Enabled(w, e)
    ensures EntryHonest(Step(ttl, w, e), s)
  {
  }

  lemma StepKeepsSources(ttl: int, w: World, e: Event)
    requires Inv(ttl, w) && Enabled(w, e)
    ensures SourcesHonest(Step(ttl, w, e))
  {
    var v := Step(ttl, w, e);
    OwnJobHonest(ttl, w, e);
    forall s ensures EntryHonest(v, s) {
      StepKeepsEntries(ttl, w, e, s);
    }
    forall id | id in v.jobs ensures JobHonest(v, v.jobs[id]) {
      if id != e.id {
      }
    }
    forall i | 0 <= i < |v.intros| ensures IntroHonest(v, v.intros[i]) {
      if i < |w.intros| {
      } else {
        assert JobHonest(w, w.jobs[e.id]);
      }
    }
    forall m | m in v.queue
      ensures NoColon(m.session) && m.session in v.bound && v.bound[m.session].connection == m.connection
    {
      assert e.Publish? ==> JobHonest(w, w.jobs[e.id]);
    }
  }

  /** What a writer writes comes from its introspection. */
  lemma NextIsHonest(w: World, n: Intro, i: nat, next: nat, t: int)
    requires i < |w.intros| && n == w.intros[i] && IntroHonest(w, n) && next <= |n.tables| && n.time <= t <= w.now
    ensures WriteHonest(w, NextPut(n, next, t))
  {
    var p := NextPut(n, next, t);
    var own := if next < |n.tables| then n.tables[next].name else INDEX;
    forall s, name | NoColon(s) && name != INDEX && Key(s, name) == p.key
      ensures n.session == s && p.value.Data? && Table(name, p.value.data) in n.tables
    {
      KeyInjective(s, name, n.session, own);
      assert n.tables[next] in n.tables;
    }
    assert Explains(w.intros[i], p);
    forall s | NoColon(s) && Key(s, INDEX) == p.key ensures p.value.Names? && INDEX !in p.value.names {
      KeyInjective(s, INDEX, n.session, own);
    }
  }

  lemma StepKeepsWrites(ttl: int, w: World, e: Event)
    requires Inv(ttl, w) && Enabled(w, e)
    ensures var v := Step(ttl, w, e);
      Explained(v.store, v.writes, ttl) && forall k :: 0 <= k < |v.writes| ==> WriteHonest(v, v.writes[k])
  {
    var v := Step(ttl, w, e);
    if e.WriteNext? {
      var j := w.jobs[e.id];
      var n := w.intros[j.intro];
      SetKeepsExplained(w.store, w.writes, NextPut(n, j.next, e.time), ttl);
      NextIsHonest(v, n, j.intro, j.next, e.time);
    }
    forall k | 0 <= k < |v.writes| ensures WriteHonest(v, v.writes[k]) {
      if k < |w.writes| {
        WriteStays(w, v, w.writes[k]);
      }
    }
  }

  /** What a get of a table key returns was seen by an introspection of that session. */
  lemma GotIsHonest(ttl: int, w: World, s: string, name: string, t: int, g: Got)
    requires SourcesHonest(w) && Explained(w.store, w.writes, ttl) && NoColon(s) && name != INDEX && w.now == t
    requires forall k :: 0 <= k < |w.writes| ==> WriteHonest(w, w.writes[k])
    requires Get(w.store, Key(s, name), t) == Some(Data(g.table.data))
    requires g == Got(Table(name, g.table.data), t, |w.writes|)
    ensures GotHonest(ttl, w, s, g)
  {
    GetIsLastPut(w.store, w.writes, ttl, Key(s, name), t);
    assert w.writes[..|w.writes|] == w.writes;
    var last := LastPut(w.writes, Key(s, name)).value;
    var k :| 0 <= k < |w.writes| && w.writes[k] == last;
    assert WriteHonest(w, w.writes[k]);
    var i :| 0 <= i < |w.intros| && Explains(w.intros[i], last);
    assert IntroHonest(w, w.intros[i]);
    assert OwnIntro(w, w.intros[i], s, g.table, last.time);
  }

  lemma ReaderStays(ttl: int, w: World, v: World, j: Job)
    requires Follows(w, v) && ReaderHonest(ttl, w, j)
    ensures ReaderHonest(ttl, v, j)
  {
    if j.Reading? {
      forall k | 0 <= k < |j.got| ensures GotHonest(ttl, v, j.session, j.got[k]) {
        GotStays(ttl, w, v, j.session, j.got[k]);
      }
    }
  }

  lemma ReadNextKeepsReader(ttl: int, w: World, v: World, e: Event)
    requires Inv(ttl, w) && Enabled(w, e) && e.ReadNext? && v == Step(ttl, w, e)
    requires SourcesHonest(v) && Explained(v.store, v.writes, ttl)
    requires forall k :: 0 <= k < |v.writes| ==> WriteHonest(v, v.writes[k])
    ensures ReaderHonest(ttl, v, v.jobs[e.id])
  {
    var j := w.jobs[e.id];
    var name := j.names[j.next];
    assert JobHonest(w, j) && name in j.names;
    ReaderStays(ttl, w, v, j);
    var value := Get(w.store, Key(j.session, name), e.time);
    if value.Some? && value.value.Data? {
      var g := Got(Table(name, value.value.data), e.time, |w.writes|);
      GotIsHonest(ttl, v, j.session, name, e.time, g);
    } else {
      assert j.got + [] == j.got;
    }
  }

  lemma StepKeepsInv(ttl: int, w: World, e: Event)
    requires Inv(ttl, w) && Enabled(w, e)
    ensures Inv(ttl, Step(ttl, w, e))
  {
    var v := Step(ttl, w, e);
    StepKeepsSources(ttl, w, e);
    StepKeepsWrites(ttl, w, e);
    forall id | id in v.jobs ensures ReaderHonest(ttl, v, v.jobs[id]) {
      if id != e.id {
        ReaderStays(ttl, w, v, w.jobs[id]);
      } else if e.ReadNext? {
        ReadNextKeepsReader(ttl, w, v, e);
      }
    }
  }

  lemma {:induction false} RunKeepsInv(ttl: int, w: World, es: seq<Event>)
    requires Inv(ttl, w) && Legal(ttl, w, es)
    ensures Inv(ttl, Run(ttl, w, es))
    decreases |es|
  {
    if es == [] {
    } else {
      StepKeepsInv(ttl, w, es[0]);
      RunKeepsInv(ttl, Step(ttl, w, es[0]), es[1..]);
    }
  }

  /**
   * However writers, readers, expiry and new sessions interleave between the gets of one read: every
   * table a reader got is the last write of its key before that get, less than ttl old, and was seen by
   * an introspection of the reader's session, through the session's own connection string if
   * connect_session made the session.
   */
  lemma ReturnedTablesAreOwn(ttl: int, start: int, es: seq<Event>, id: nat, k: nat)
    requires Legal(ttl, Start(start), es)
    requires var w := Run(ttl, Start(start), es); id in w.jobs && w.jobs[id].Reading? && k < |w.jobs[id].got|
    ensures var w := Run(ttl, Start(start), es); GotHonest(ttl, w, w.jobs[id].session, w.jobs[id].got[k])
  {
    RunKeepsInv(ttl, Start(start), es);
    var w := Run(ttl, Start(start), es);
    assert ReaderHonest(ttl, w, w.jobs[id]);
  }

  /**
   * Every introspection of a session that connect_session made goes through the connection string it was
   * made for, whether that came with the queued message or from the session entry, and from the entry
   * only within its hour.
   */
  lemma IntrospectionsAreOwn(ttl: int, start: int, es: seq<Event>, i: nat)
    requires Legal(ttl, Start(start), es) && i < |Run(ttl, Start(start), es).intros|
    ensures var w := Run(ttl, Start(start), es); var n := w.intros[i];
      OwnConnection(w, n.session, n.connection, n.source)
  {
    RunKeepsInv(ttl, Start(start), es);
    var w := Run(ttl, Start(start), es);
    assert IntroHonest(w, w.intros[i]);
  }
}
