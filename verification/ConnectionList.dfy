/** The per-user connection list: a cache-aside copy of the connections table with a TTL and explicit invalidation. */
module ConnectionList {
  import opened Wrappers

  type User = nat
  type ConnId = nat

  /** _USER_CONN_CACHE_TTL */
  const TTL: int := 300

  datatype Row = Row(user: User, deleted: bool, lastAccessed: int, info: string)

  type Table = map<ConnId, Row>

  /** The rows a list query selects. The source's SELECT has no order, so a list is a map. */
  function Listed(t: Table, u: User): (r: map<ConnId, Row>) {
    map c | c in t && t[c].user == u && !t[c].deleted :: t[c]
  }

  datatype Cached = Cached(list: map<ConnId, Row>, deadline: int)

  type Cache = map<User, Cached>

  /** An expired, missing or empty list is a miss. */
  predicate Hit(cache: Cache, u: User, now: int) {
    u in cache && now < cache[u].deadline && cache[u].list != map[]
  }

  // ---------------------------------------------------------------- interleaved operations

  datatype Proc =
    | Querying(user: User)
    | Writing(user: User, list: map<ConnId, Row>, queried: int)
    | Deleting(conn: ConnId, user: User, invalidated: bool)
    | Added(user: User)
    | Finished

  datatype Snapshot = Snapshot(time: int, table: Table)

  datatype Return = Return(user: User, list: map<ConnId, Row>, time: int)

  /** history holds every committed table with the time of its commit, returned every list handed out. */
  datatype World = World(
    table: Table, cache: Cache, now: int, procs: map<nat, Proc>, history: seq<Snapshot>, returned: seq<Return>)

  datatype Event =
    | Lookup(id: nat, user: User, time: int)
    | Query(id: nat, time: int)
    | Write(id: nat, time: int)
    | SelectForDelete(id: nat, conn: ConnId, user: User, time: int)
    | InvalidateForDelete(id: nat, time: int)
    | CommitDelete(id: nat, time: int)
    | CommitAdd(id: nat, conn: ConnId, row: Row, time: int)
    | InvalidateForAdd(id: nat, time: int)
    | Touch(conn: ConnId, time: int)
    | Abandon(id: nat, time: int)

  /** latency bounds the time from a query to the cache write of its result. */
  predicate Enabled(latency: int, w: World, e: Event) {
    && w.now <= e.time
    && match e
       case Lookup(id, _, _) => id !in w.procs
       case Query(id, _) => id in w.procs && w.procs[id].Querying?
       case Write(id, t) => id in w.procs && w.procs[id].Writing? && t <= w.procs[id].queried + latency
       case SelectForDelete(id, _, _, _) => id !in w.procs
       case InvalidateForDelete(id, _) => id in w.procs && w.procs[id].Deleting? && !w.procs[id].invalidated
       case CommitDelete(id, _) => id in w.procs && w.procs[id].Deleting? && w.procs[id].invalidated
       case CommitAdd(id, c, row, _) => id !in w.procs && c !in w.table && !row.deleted
       case InvalidateForAdd(id, _) => id in w.procs && w.procs[id].Added?
       case Touch(c, _) => c in w.table
       case Abandon(id, _) => id in w.procs
  }

  function Commit(w: World, table: Table, now: int): World {
    w.(table := table, history := w.history + [Snapshot(now, table)], now := now)
  }

  function Step(w: World, e: Event): World {
    match e
    case Lookup(id, u, t) =>
      if Hit(w.cache, u, t)
      then w.(now := t, procs := w.procs[id := Finished], returned := w.returned + [Return(u, w.cache[u].list, t)])
      else w.(now := t, procs := w.procs[id := Querying(u)])
    case Query(id, t) =>
      if id in w.procs && w.procs[id].Querying?
      then w.(now := t, procs := w.procs[id := Writing(w.procs[id].user, Listed(w.table, w.procs[id].user), t)])
      else w
    case Write(id, t) =>
      if id in w.procs && w.procs[id].Writing?
      then var p := w.procs[id];
        w.(now := t, procs := w.procs[id := Finished],
           cache := w.cache[p.user := Cached(p.list, t + TTL)],
           returned := w.returned + [Return(p.user, p.list, t)])
      else w
    case SelectForDelete(id, c, u, t) =>
      w.(now := t, procs := w.procs[id := if c in Listed(w.table, u) then Deleting(c, u, false) else Finished])
    case InvalidateForDelete(id, t) =>
      if id in w.procs && w.procs[id].Deleting?
      then w.(now := t, cache := w.cache - {w.procs[id].user},
              procs := w.procs[id := w.procs[id].(invalidated := true)])
      else w
    case CommitDelete(id, t) =>
      if id in w.procs && w.procs[id].Deleting?
      then var c := w.procs[id].conn;
        var table := if c in w.table then w.table[c := w.table[c].(deleted := true)] else w.table;
        Commit(w, table, t).(procs := w.procs[id := Finished])
      else w
    case CommitAdd(id, c, row, t) =>
      Commit(w, w.table[c := row], t).(procs := w.procs[id := Added(row.user)])
    case InvalidateForAdd(id, t) =>
      if id in w.procs && w.procs[id].Added?
      then w.(now := t, cache := w.cache - {w.procs[id].user}, procs := w.procs[id := Finished])
      else w
    case Touch(c, t) =>
      if c in w.table then Commit(w, w.table[c := w.table[c].(lastAccessed := t)], t) else w
    case Abandon(id, t) =>
      w.(now := t, procs := w.procs[id := Finished])
  }

  predicate Legal(latency: int, w: World, es: seq<Event>)
    decreases |es|
  {
    es == [] || (Enabled(latency, w, es[0]) && Legal(latency, Step(w, es[0]), es[1..]))
  }

  function Run(w: World, es: seq<Event>): World
    decreases |es|
  {
    if es == [] then w else Run(Step(w, es[0]), es[1..])
  }

  function Start(table: Table, now: int): World {
    World(table, map[], now, map[], [Snapshot(now, table)], [])
  }

  // ---------------------------------------------------------------- what a list was at an instant

  /** The k-th committed table is the current one at instant s. */
  predicate CurrentAt(h: seq<Snapshot>, k: int, s: int) {
    0 <= k < |h| && h[k].time <= s && (k + 1 < |h| ==> s <= h[k + 1].time)
  }

  /** At some instant between from and to, the committed list of u was this one. */
  ghost predicate WasListed(h: seq<Snapshot>, u: User, list: map<ConnId, Row>, from: int, to: int) {
    exists k, s :: CurrentAt(h, k, s) && from <= s <= to && list == Listed(h[k].table, u)
  }

  /** A cached list was current after its query, which came at most the latency before the write. */
  ghost predicate FreshEntry(latency: int, h: seq<Snapshot>, u: User, e: Cached, now: int) {
    WasListed(h, u, e.list, e.deadline - TTL - latency, now)
  }

  ghost predicate FreshProc(h: seq<Snapshot>, p: Proc, now: int) {
    p.Writing? ==> p.queried <= now && WasListed(h, p.user, p.list, p.queried, p.queried)
  }

  ghost predicate FreshReturn(latency: int, h: seq<Snapshot>, r: Return, now: int) {
    && r.time <= now && WasListed(h, r.user, r.list, r.time - TTL - latency + 1, r.time)
    && (r.list == map[] ==> WasListed(h, r.user, r.list, r.time - latency, r.time))
  }

  ghost predicate Inv(latency: int, w: World) {
    && w.history != [] && w.history[|w.history| - 1].table == w.table
    && (forall k :: 0 <= k < |w.history| ==> w.history[k].time <= w.now)
    && (forall u :: u in w.cache ==> FreshEntry(latency, w.history, u, w.cache[u], w.now))
    && (forall id :: id in w.procs ==> FreshProc(w.history, w.procs[id], w.now))
    && (forall i :: 0 <= i < |w.returned| ==> FreshReturn(latency, w.history, w.returned[i], w.now))
  }

  /** Later commits do not change what was listed before. */
  lemma LaterCommit(h: seq<Snapshot>, n: Snapshot, u: User, list: map<ConnId, Row>, from: int, to: int)
    requires WasListed(h, u, list, from, to) && to <= n.time
    ensures WasListed(h + [n], u, list, from, to)
  {
    var k, s :| CurrentAt(h, k, s) && from <= s <= to && list == Listed(h[k].table, u);
    assert CurrentAt(h + [n], k, s);
  }

  lemma EntryLater(latency: int, h: seq<Snapshot>, n: Snapshot, u: User, e: Cached, now: int)
    requires FreshEntry(latency, h, u, e, now) && now <= n.time
    ensures FreshEntry(latency, h + [n], u, e, n.time)
  {
    var from := e.deadline - TTL - latency;
    LaterCommit(h, n, u, e.list, from, now);
  }

  lemma CommitKeepsInv(latency: int, w: World, table: Table, t: int)
    requires Inv(latency, w) && w.now <= t
    ensures Inv(latency, Commit(w, table, t))
  {
    var v, n := Commit(w, table, t), Snapshot(t, table);
    forall u | u in v.cache ensures FreshEntry(latency, v.history, u, v.cache[u], v.now) {
      EntryLater(latency, w.history, n, u, w.cache[u], w.now);
    }
    forall id | id in v.procs ensures FreshProc(v.history, v.procs[id], v.now) {
      var p := w.procs[id];
      assert FreshProc(w.history, p, w.now);
      if p.Writing? {
        LaterCommit(w.history, n, p.user, p.list, p.queried, p.queried);
      }
    }
    forall i | 0 <= i < |v.returned| ensures FreshReturn(latency, v.history, v.returned[i], v.now) {
      var r := w.returned[i];
      LaterCommit(w.history, n, r.user, r.list, r.time - TTL - latency + 1, r.time);
      if r.list == map[] {
        LaterCommit(w.history, n, r.user, r.list, r.time - latency, r.time);
      }
    }
  }

  /** Time passing, with processes that write nothing and fewer cached lists. */
  lemma QuietKeepsInv(latency: int, w: World, v: World)
    requires Inv(latency, w) && w.now <= v.now
    requires v.table == w.table && v.history == w.history && v.returned == w.returned
    requires forall u :: u in v.cache ==> u in w.cache && v.cache[u] == w.cache[u]
    requires forall id :: id in v.procs && v.procs[id].Writing? ==> id in w.procs && v.procs[id] == w.procs[id]
    ensures Inv(latency, v)
  {
    forall u | u in v.cache ensures FreshEntry(latency, v.history, u, v.cache[u], v.now) {
      var e := w.cache[u];
      assert FreshEntry(latency, w.history, u, e, w.now);
    }
    forall id | id in v.procs ensures FreshProc(v.history, v.procs[id], v.now) {
      assert v.procs[id].Writing? ==> FreshProc(w.history, w.procs[id], w.now);
    }
    forall i | 0 <= i < |v.returned| ensures FreshReturn(latency, v.history, v.returned[i], v.now) {
      assert FreshReturn(latency, w.history, w.returned[i], w.now);
    }
  }

  lemma LookupKeepsInv(latency: int, w: World, id: nat, u: User, t: int)
    requires latency >= 0 && Inv(latency, w) && Enabled(latency, w, Lookup(id, u, t))
    ensures Inv(latency, Step(w, Lookup(id, u, t)))
  {
    if Hit(w.cache, u, t) {
      var v := w.(now := t, procs := w.procs[id := Finished]);
      QuietKeepsInv(latency, w, v);
      var e := w.cache[u];
      assert FreshEntry(latency, w.history, u, e, w.now);
    } else {
      QuietKeepsInv(latency, w, w.(now := t, procs := w.procs[id := Querying(u)]));
    }
  }

  lemma QueryKeepsInv(latency: int, w: World, id: nat, t: int)
    requires latency >= 0 && Inv(latency, w) && Enabled(latency, w, Query(id, t))
    ensures Inv(latency, Step(w, Query(id, t)))
  {
    var u := w.procs[id].user;
    var p := Writing(u, Listed(w.table, u), t);
    assert CurrentAt(w.history, |w.history| - 1, t);
    assert WasListed(w.history, u, p.list, t, t);
  }

  lemma WriteKeepsInv(latency: int, w: World, id: nat, t: int)
    requires latency >= 0 && Inv(latency, w) && Enabled(latency, w, Write(id, t))
    ensures Inv(latency, Step(w, Write(id, t)))
  {
    var p := w.procs[id];
    assert FreshProc(w.history, p, w.now);
    var v := w.(now := t, procs := w.procs[id := Finished]);
    QuietKeepsInv(latency, w, v);
    HandingOutKeepsInv(latency, v, p.user, p.list, p.queried);
  }

  /** A list just queried is cached and returned. */
  lemma HandingOutKeepsInv(latency: int, w: World, u: User, list: map<ConnId, Row>, queried: int)
    requires latency >= 0 && Inv(latency, w) && queried <= w.now <= queried + latency
    requires WasListed(w.history, u, list, queried, queried)
    ensures Inv(latency, w.(cache := w.cache[u := Cached(list, w.now + TTL)],
                            returned := w.returned + [Return(u, list, w.now)]))
  {
    var t := w.now;
  }

  lemma StepKeepsInv(latency: int, w: World, e: Event)
    requires latency >= 0 && Inv(latency, w) && Enabled(latency, w, e)
    ensures Inv(latency, Step(w, e))
  {
    match e
    case Lookup(id, u, t) => LookupKeepsInv(latency, w, id, u, t);
    case Query(id, t) => QueryKeepsInv(latency, w, id, t);
    case Write(id, t) => WriteKeepsInv(latency, w, id, t);
    case CommitDelete(id, t) =>
      var v := Step(w, e);
      CommitKeepsInv(latency, w, v.table, t);
      QuietKeepsInv(latency, Commit(w, v.table, t), v);
    case CommitAdd(id, c, row, t) =>
      var v := Step(w, e);
      CommitKeepsInv(latency, w, v.table, t);
      QuietKeepsInv(latency, Commit(w, v.table, t), v);
    case Touch(c, t) => CommitKeepsInv(latency, w, w.table[c := w.table[c].(lastAccessed := t)], t);
    case _ => QuietKeepsInv(latency, w, Step(w, e));
  }

  lemma {:induction false} RunKeepsInv(latency: int, w: World, es: seq<Event>)
    requires latency >= 0 && Inv(latency, w) && Legal(latency, w, es)
    ensures Inv(latency, Run(w, es))
    decreases |es|
  {
    if es == [] {
    } else {
      StepKeepsInv(latency, w, es[0]);
      RunKeepsInv(latency, Step(w, es[0]), es[1..]);
    }
  }

  /**
   * In every interleaved run, each list handed out was the committed one at most 299 + latency time units
   * ago, and an empty one at most the latency ago: it never comes from the cache.
   */
  lemma BoundedStaleness(latency: int, table: Table, start: int, es: seq<Event>, i: nat)
    requires latency >= 0 && Legal(latency, Start(table, start), es)
    requires i < |Run(Start(table, start), es).returned|
    ensures var w := Run(Start(table, start), es); var r := w.returned[i];
      && WasListed(w.history, r.user, r.list, r.time - 299 - latency, r.time)
      && (r.list == map[] ==> WasListed(w.history, r.user, r.list, r.time - latency, r.time))
  {
    RunKeepsInv(latency, Start(table, start), es);
    var w := Run(Start(table, start), es);
    assert FreshReturn(latency, w.history, w.returned[i], w.now);
  }

  // ---------------------------------------------------------------- coherence, and where it ends

  /** The same connections with the same contents, last_accessed aside. */
  predicate SameButAccess(a: map<ConnId, Row>, b: map<ConnId, Row>) {
    a.Keys == b.Keys && forall c :: c in a ==> a[c].(lastAccessed := 0) == b[c].(lastAccessed := 0)
  }

  ghost predicate Coherent(table: Table, cache: Cache) {
    forall u :: u in cache ==> SameButAccess(cache[u].list, Listed(table, u))
  }

  lemma RowChangeKeepsCoherent(t: Table, cache: Cache, c: ConnId, row: Row)
    requires Coherent(t, cache) && (c in t ==> t[c].user == row.user)
    ensures Coherent(t[c := row], cache - {row.user})
  {
    forall u | u in cache && u != row.user ensures Listed(t[c := row], u) == Listed(t, u) {
    }
  }

  lemma TouchedList(t: Table, c: ConnId, now: int, u: User)
    requires c in t
    ensures SameButAccess(Listed(t, u), Listed(t[c := t[c].(lastAccessed := now)], u))
  {
    var v := t[c := t[c].(lastAccessed := now)];
    assert forall x :: x in Listed(t, u) <==> x in Listed(v, u);
  }

  lemma SameThrough(a: map<ConnId, Row>, b: map<ConnId, Row>, d: map<ConnId, Row>)
    requires SameButAccess(a, b) && SameButAccess(b, d)
    ensures SameButAccess(a, d)
  {
  }

  lemma TouchKeepsCoherent(t: Table, cache: Cache, c: ConnId, now: int)
    requires Coherent(t, cache) && c in t
    ensures Coherent(t[c := t[c].(lastAccessed := now)], cache)
  {
    var v := t[c := t[c].(lastAccessed := now)];
    forall u | u in cache ensures SameButAccess(cache[u].list, Listed(v, u)) {
      TouchedList(t, c, now, u);
      SameThrough(cache[u].list, Listed(t, u), Listed(v, u));
    }
  }

  /** The service with every operation, its commit included, done in one piece. */
  class ConnectionService {
    var table: Table
    var cache: Cache

    constructor (table: Table)
      ensures this.table == table && cache == map[] && Coherent(this.table, cache)
    {
      this.table, this.cache := table, map[];
    }

    method GetConnectionsForUser(u: User, now: int) returns (list: map<ConnId, Row>)
      requires Coherent(table, cache)
      modifies this
      ensures SameButAccess(list, Listed(table, u)) && table == old(table) && Coherent(table, cache)
      ensures if Hit(old(cache), u, now) then list == old(cache)[u].list && cache == old(cache)
              else list == Listed(table, u) && cache == old(cache)[u := Cached(list, now + TTL)]
    {
      if u in cache && now < cache[u].deadline && cache[u].list != map[] {
        return cache[u].list;
      }
      list := Listed(table, u);
      cache := cache[u := Cached(list, now + TTL)];
    }

    method AddConnection(c: ConnId, u: User, info: string, now: int)
      requires Coherent(table, cache) && c !in table
      modifies this
      ensures table == old(table)[c := Row(u, false, 0, info)] && cache == old(cache) - {u} && Coherent(table, cache)
    {
      RowChangeKeepsCoherent(table, cache, c, Row(u, false, 0, info));
      table := table[c := Row(u, false, 0, info)];
      cache := cache - {u};
    }

    method SoftDeleteConnection(c: ConnId, u: User) returns (found: bool)
      requires Coherent(table, cache)
      modifies this
      ensures found <==> c in Listed(old(table), u)
      ensures found ==>
                && c in old(table) && table == old(table)[c := old(table)[c].(deleted := true)]
                && cache == old(cache) - {u}
      ensures !found ==> table == old(table) && cache == old(cache)
      ensures Coherent(table, cache)
    {
      if c !in table || table[c].user != u || table[c].deleted {
        return false;
      }
      RowChangeKeepsCoherent(table, cache, c, table[c].(deleted := true));
      table := table[c := table[c].(deleted := true)];
      cache := cache - {u};
      found := true;
    }

    /** connect_session: last_accessed is updated and no list is invalidated. */
    method Connect(c: ConnId, now: int)
      requires Coherent(table, cache) && c in table
      modifies this
      ensures table == old(table)[c := old(table)[c].(lastAccessed := now)] && cache == old(cache)
      ensures Coherent(table, cache)
    {
      TouchKeepsCoherent(table, cache, c, now);
      table := table[c := table[c].(lastAccessed := now)];
    }
  }

  // ---------------------------------------------------------------- an operation in one piece is a run

  lemma OneStep(latency: int, w: World, e: Event)
    requires Enabled(latency, w, e)
    ensures Legal(latency, w, [e]) && Run(w, [e]) == Step(w, e)
  {
    assert [e][1..] == [];
  }

  lemma FirstStep(latency: int, w: World, e: Event, es: seq<Event>)
    requires Enabled(latency, w, e) && Legal(latency, Step(w, e), es)
    ensures Legal(latency, w, [e] + es) && Run(w, [e] + es) == Run(Step(w, e), es)
  {
    assert ([e] + es)[1..] == es;
  }

  /** Its steps, with nothing in between, return and cache what get_connections_for_user does. */
  lemma GetIsRun(w: World, id: nat, u: User, t: int)
    requires id !in w.procs && w.now <= t
    ensures var es := if Hit(w.cache, u, t) then [Lookup(id, u, t)] else [Lookup(id, u, t), Query(id, t), Write(id, t)];
      && Legal(0, w, es) && Run(w, es).table == w.table
      && Run(w, es).cache == (if Hit(w.cache, u, t) then w.cache else w.cache[u := Cached(Listed(w.table, u), t + TTL)])
      && Run(w, es).returned
           == w.returned + [Return(u, if Hit(w.cache, u, t) then w.cache[u].list else Listed(w.table, u), t)]
  {
    var v := Step(w, Lookup(id, u, t));
    if Hit(w.cache, u, t) {
      OneStep(0, w, Lookup(id, u, t));
    } else {
      OneStep(0, Step(v, Query(id, t)), Write(id, t));
      FirstStep(0, v, Query(id, t), [Write(id, t)]);
      FirstStep(0, w, Lookup(id, u, t), [Query(id, t)] + [Write(id, t)]);
    }
  }

  /** The same of add_connection. */
  lemma AddIsRun(w: World, id: nat, c: ConnId, u: User, info: string, t: int)
    requires id !in w.procs && c !in w.table && w.now <= t
    ensures var es := [CommitAdd(id, c, Row(u, false, 0, info), t), InvalidateForAdd(id, t)];
      && Legal(0, w, es) && Run(w, es).returned == w.returned
      && Run(w, es).table == w.table[c := Row(u, false, 0, info)] && Run(w, es).cache == w.cache - {u}
  {
    var e := CommitAdd(id, c, Row(u, false, 0, info), t);
    OneStep(0, Step(w, e), InvalidateForAdd(id, t));
    FirstStep(0, w, e, [InvalidateForAdd(id, t)]);
  }

  /** The same of the soft delete. */
  lemma DeleteIsRun(w: World, id: nat, c: ConnId, u: User, t: int)
    requires id !in w.procs && w.now <= t
    ensures var found := c in Listed(w.table, u);
      var es := if found then [SelectForDelete(id, c, u, t), InvalidateForDelete(id, t), CommitDelete(id, t)]
                else [SelectForDelete(id, c, u, t)];
      && Legal(0, w, es) && Run(w, es).returned == w.returned
      && Run(w, es).table == (if found then w.table[c := w.table[c].(deleted := true)] else w.table)
      && Run(w, es).cache == (if found then w.cache - {u} else w.cache)
  {
    var e := SelectForDelete(id, c, u, t);
    var v := Step(w, e);
    if c in Listed(w.table, u) {
      OneStep(0, Step(v, InvalidateForDelete(id, t)), CommitDelete(id, t));
      FirstStep(0, v, InvalidateForDelete(id, t), [CommitDelete(id, t)]);
      FirstStep(0, w, e, [InvalidateForDelete(id, t)] + [CommitDelete(id, t)]);
    } else {
      OneStep(0, w, e);
    }
  }

  /** The same of connect_session's update. */
  lemma ConnectIsRun(w: World, c: ConnId, t: int)
    requires c in w.table && w.now <= t
    ensures Enabled(0, w, Touch(c, t)) && Step(w, Touch(c, t)).cache == w.cache
    ensures Step(w, Touch(c, t)).table == w.table[c := w.table[c].(lastAccessed := t)]
  {
  }

  // ---------------------------------------------------------------- deleted connections

  /** A process that will still be allowed to write its list to the cache. */
  predicate MayWrite(latency: int, w: World, p: Proc) {
    p.Writing? && w.now <= p.queried + latency
  }

  /** Neither a live cached list of u nor one still to be cached holds the connection. */
  ghost predicate Clear(latency: int, w: World, u: User, c: ConnId) {
    && (u in w.cache && w.now < w.cache[u].deadline ==> c !in w.cache[u].list)
    && (forall id :: id in w.procs && MayWrite(latency, w, w.procs[id]) && w.procs[id].user == u ==>
        c !in w.procs[id].list)
  }

  /** No list handed out from the n-th on shows the connection to u. */
  ghost predicate NotShown(w: World, n: nat, u: User, c: ConnId) {
    forall i :: n <= i < |w.returned| && w.returned[i].user == u ==> c !in w.returned[i].list
  }

  /** Whatever happens next, u is not shown the connection any more. */
  ghost predicate Gone(latency: int, w: World, u: User, c: ConnId) {
    forall es :: Legal(latency, w, es) ==> NotShown(Run(w, es), |w.returned|, u, c)
  }

  predicate IsDeleted(w: World, c: ConnId) {
    c in w.table && w.table[c].deleted
  }

  lemma StepKeepsClear(latency: int, w: World, e: Event, u: User, c: ConnId, n: nat)
    requires Enabled(latency, w, e) && IsDeleted(w, c) && Clear(latency, w, u, c) && NotShown(w, n, u, c)
    ensures IsDeleted(Step(w, e), c) && Clear(latency, Step(w, e), u, c) && NotShown(Step(w, e), n, u, c)
  {
  }

  lemma {:induction false} RunKeepsClear(latency: int, w: World, es: seq<Event>, u: User, c: ConnId, n: nat)
    requires Legal(latency, w, es) && IsDeleted(w, c) && Clear(latency, w, u, c) && NotShown(w, n, u, c)
    ensures NotShown(Run(w, es), n, u, c)
    decreases |es|
  {
    if es == [] {
    } else {
      StepKeepsClear(latency, w, es[0], u, c, n);
      RunKeepsClear(latency, Step(w, es[0]), es[1..], u, c, n);
    }
  }

  /** One event that hands out the list is enough for the connection not to be gone. */
  lemma ShownAtOnce(latency: int, w: World, e: Event, u: User, c: ConnId)
    requires Enabled(latency, w, e) && !NotShown(Step(w, e), |w.returned|, u, c)
    ensures !Gone(latency, w, u, c)
  {
    var es, v := [e], Step(w, e);
    assert es[1..] == [] && Legal(latency, v, []) && Run(v, []) == v;
    assert Legal(latency, w, es) && Run(w, es) == v;
  }

  /**
   * A deleted connection is gone from the lists of u exactly when no live cached list of u holds it and
   * no list query of u that found it can still write its result.
   */
  lemma GoneIffClear(latency: int, w: World, u: User, c: ConnId)
    requires IsDeleted(w, c)
    ensures Gone(latency, w, u, c) <==> Clear(latency, w, u, c)
  {
    if Clear(latency, w, u, c) {
      forall es | Legal(latency, w, es) ensures NotShown(Run(w, es), |w.returned|, u, c) {
        RunKeepsClear(latency, w, es, u, c, |w.returned|);
      }
    } else if u in w.cache && w.now < w.cache[u].deadline && c in w.cache[u].list {
      var id := Above(w.procs.Keys);
      var v := Step(w, Lookup(id, u, w.now));
      assert v.returned[|w.returned|] == Return(u, w.cache[u].list, w.now);
      ShownAtOnce(latency, w, Lookup(id, u, w.now), u, c);
    } else {
      var id :| id in w.procs && MayWrite(latency, w, w.procs[id]) && w.procs[id].user == u && c in w.procs[id].list;
      var v := Step(w, Write(id, w.now));
      assert v.returned[|w.returned|] == Return(u, w.procs[id].list, w.now);
      ShownAtOnce(latency, w, Write(id, w.now), u, c);
    }
  }

  /** Who deletes a connection found it among the user's own; rows keep their owner. */
  predicate DeletersKnow(w: World) {
    forall id :: id in w.procs && w.procs[id].Deleting? ==>
      w.procs[id].conn in w.table && w.table[w.procs[id].conn].user == w.procs[id].user
  }

  lemma {:induction false} RunKeepsDeleters(latency: int, w: World, es: seq<Event>)
    requires Legal(latency, w, es) && DeletersKnow(w)
    ensures DeletersKnow(Run(w, es))
    decreases |es|
  {
    if es == [] {
    } else {
      StepKeepsDeleters(latency, w, es[0]);
      RunKeepsDeleters(latency, Step(w, es[0]), es[1..]);
    }
  }

  lemma StepKeepsDeleters(latency: int, w: World, e: Event)
    requires Enabled(latency, w, e) && DeletersKnow(w)
    ensures DeletersKnow(Step(w, e))
  {
  }

  /**
   * At the commit of a deletion, after any run: the connection is gone from its user's lists if and only
   * if no live cached list holds it and no query that found it can still write.
   */
  lemma DeletionShowsAtCommit(latency: int, table: Table, start: int, es: seq<Event>, id: nat, t: int)
    requires Legal(latency, Start(table, start), es)
    requires Enabled(latency, Run(Start(table, start), es), CommitDelete(id, t))
    ensures var w := Run(Start(table, start), es); var v := Step(w, CommitDelete(id, t));
      var u, c := w.procs[id].user, w.procs[id].conn;
      IsDeleted(v, c) && (Gone(latency, v, u, c) <==> Clear(latency, v, u, c))
  {
    var w := Run(Start(table, start), es);
    RunKeepsDeleters(latency, Start(table, start), es);
    GoneIffClear(latency, Step(w, CommitDelete(id, t)), w.procs[id].user, w.procs[id].conn);
  }

  // ---------------------------------------------------------------- the same in terms of queries and writes

  function WritersOf(w: World, u: User): set<nat> {
    set id | id in w.procs && w.procs[id].Writing? && w.procs[id].user == u
  }

  /** The list processes of u whose query ran before the end of the run and that had not written at its start. */
  function EarlyQueries(w: World, es: seq<Event>, u: User): set<nat>
    decreases |es|
  {
    WritersOf(w, u) + if es == [] then {} else EarlyQueries(Step(w, es[0]), es[1..], u)
  }

  predicate NoWriteBy(es: seq<Event>, ids: set<nat>) {
    forall j :: 0 <= j < |es| && es[j].Write? ==> es[j].id !in ids
  }

  /** Without such a write nothing is cached for u again after the invalidation. */
  lemma {:induction false} StaysUncached(latency: int, w: World, es: seq<Event>, u: User)
    requires Legal(latency, w, es) && u !in w.cache && NoWriteBy(es, EarlyQueries(w, es, u))
    ensures u !in Run(w, es).cache && WritersOf(Run(w, es), u) <= EarlyQueries(w, es, u)
    decreases |es|
  {
    if es == [] {
    } else {
      var v := Step(w, es[0]);
      assert es[0].Write? ==> es[0].id !in WritersOf(w, u);
      assert NoWriteBy(es[1..], EarlyQueries(v, es[1..], u)) by {
        assert forall j :: 0 <= j < |es[1..]| ==> es[1..][j] == es[j + 1];
      }
      StaysUncached(latency, v, es[1..], u);
    }
  }

  /** As Clear, but the early writers may hold the connection. */
  ghost predicate ClearBut(w: World, u: User, c: ConnId, early: set<nat>) {
    && (u in w.cache ==> c !in w.cache[u].list)
    && (forall id :: id in w.procs && w.procs[id].Writing? && w.procs[id].user == u && id !in early ==>
        c !in w.procs[id].list)
    && (forall id :: id in early ==> id in w.procs && !w.procs[id].Querying?)
  }

  lemma StepKeepsClearBut(latency: int, w: World, e: Event, u: User, c: ConnId, n: nat, early: set<nat>)
    requires Enabled(latency, w, e) && IsDeleted(w, c) && ClearBut(w, u, c, early) && NotShown(w, n, u, c)
    requires e.Write? ==> e.id !in early
    ensures var v := Step(w, e); IsDeleted(v, c) && ClearBut(v, u, c, early) && NotShown(v, n, u, c)
  {
  }

  lemma {:induction false} RunKeepsClearBut(latency: int, w: World, es: seq<Event>, u: User, c: ConnId, n: nat,
      early: set<nat>)
    requires Legal(latency, w, es) && IsDeleted(w, c) && ClearBut(w, u, c, early) && NotShown(w, n, u, c)
    requires NoWriteBy(es, early)
    ensures NotShown(Run(w, es), n, u, c)
    decreases |es|
  {
    if es == [] {
    } else {
      StepKeepsClearBut(latency, w, es[0], u, c, n, early);
      assert forall j :: 0 <= j < |es[1..]| ==> es[1..][j] == es[j + 1];
      RunKeepsClearBut(latency, Step(w, es[0]), es[1..], u, c, n, early);
    }
  }

  /**
   * The same for a caller who sees operations: if no list query of the user that ran before the commit
   * writes its result after the invalidation, no list from the commit on shows the connection.
   */
  lemma DeletionHolds(latency: int, table: Table, start: int, before: seq<Event>, id: nat, i: int, mid: seq<Event>,
      t: int, after: seq<Event>)
    requires Legal(latency, Start(table, start), before)
    requires var w := Run(Start(table, start), before); Enabled(latency, w, InvalidateForDelete(id, i))
    requires var w0 := Step(Run(Start(table, start), before), InvalidateForDelete(id, i));
      && Legal(latency, w0, mid) && Enabled(latency, Run(w0, mid), CommitDelete(id, t))
      && Run(w0, mid).procs[id] == w0.procs[id]
      && Legal(latency, Step(Run(w0, mid), CommitDelete(id, t)), after)
      && NoWriteBy(mid, EarlyQueries(w0, mid, w0.procs[id].user))
      && NoWriteBy(after, EarlyQueries(w0, mid, w0.procs[id].user))
    ensures var w0 := Step(Run(Start(table, start), before), InvalidateForDelete(id, i));
      var v := Step(Run(w0, mid), CommitDelete(id, t));
      NotShown(Run(v, after), |v.returned|, w0.procs[id].user, w0.procs[id].conn)
  {
    var w := Run(Start(table, start), before);
    var w0 := Step(w, InvalidateForDelete(id, i));
    RunKeepsDeleters(latency, Start(table, start), before);
    StepKeepsDeleters(latency, w, InvalidateForDelete(id, i));
    RunKeepsDeleters(latency, w0, mid);
    FromInvalidation(latency, w0, id, mid, t, after);
  }

  lemma FromInvalidation(latency: int, w0: World, id: nat, mid: seq<Event>, t: int, after: seq<Event>)
    requires id in w0.procs && w0.procs[id].Deleting? && w0.procs[id].user !in w0.cache
    requires Legal(latency, w0, mid) && DeletersKnow(Run(w0, mid))
    requires Enabled(latency, Run(w0, mid), CommitDelete(id, t))
    requires Run(w0, mid).procs[id] == w0.procs[id] && Legal(latency, Step(Run(w0, mid), CommitDelete(id, t)), after)
    requires NoWriteBy(mid, EarlyQueries(w0, mid, w0.procs[id].user))
    requires NoWriteBy(after, EarlyQueries(w0, mid, w0.procs[id].user))
    ensures var v := Step(Run(w0, mid), CommitDelete(id, t));
      NotShown(Run(v, after), |v.returned|, w0.procs[id].user, w0.procs[id].conn)
  {
    var u, c := w0.procs[id].user, w0.procs[id].conn;
    var v := Step(Run(w0, mid), CommitDelete(id, t));
    StaysUncached(latency, w0, mid, u);
    var early := WritersOf(v, u);
    assert early <= EarlyQueries(w0, mid, u);
    RunKeepsClearBut(latency, v, after, u, c, |v.returned|, early);
  }

  // ---------------------------------------------------------------- added connections

  /** What u is shown holds the connection, the lists of the early writers aside. */
  ghost predicate Shown(w: World, u: User, c: ConnId, early: set<nat>) {
    && (u in w.cache ==> c in w.cache[u].list)
    && (forall id :: id in w.procs && w.procs[id].Writing? && w.procs[id].user == u && id !in early ==>
          c in w.procs[id].list)
    && (forall id :: id in early ==> id in w.procs && !w.procs[id].Querying?)
  }

  /** Every list handed out to u from the n-th on holds the connection. */
  ghost predicate ShownFrom(w: World, n: nat, u: User, c: ConnId) {
    forall i :: n <= i < |w.returned| && w.returned[i].user == u ==> c in w.returned[i].list
  }

  lemma StepKeepsShown(latency: int, w: World, e: Event, u: User, c: ConnId, n: nat, early: set<nat>)
    requires Enabled(latency, w, e) && c in Listed(w.table, u) && Shown(w, u, c, early) && ShownFrom(w, n, u, c)
    requires e.Write? ==> e.id !in early
    ensures var v := Step(w, e); Shown(v, u, c, early) && ShownFrom(v, n, u, c)
  {
  }

  /** A row that is not listed never is again. */
  lemma StaysUnlisted(latency: int, w: World, e: Event, u: User, c: ConnId)
    requires Enabled(latency, w, e) && c in w.table && c !in Listed(w.table, u)
    ensures c in Step(w, e).table && c !in Listed(Step(w, e).table, u)
  {
  }

  lemma {:induction false} ListedBefore(latency: int, w: World, es: seq<Event>, u: User, c: ConnId)
    requires Legal(latency, w, es) && c in w.table && c in Listed(Run(w, es).table, u)
    ensures c in Listed(w.table, u)
    decreases |es|
  {
    if es == [] {
    } else {
      if c !in Listed(w.table, u) {
        StaysUnlisted(latency, w, es[0], u, c);
      }
      KeepsRow(latency, w, es[0], c);
      ListedBefore(latency, Step(w, es[0]), es[1..], u, c);
    }
  }

  lemma KeepsRow(latency: int, w: World, e: Event, c: ConnId)
    requires Enabled(latency, w, e) && c in w.table
    ensures c in Step(w, e).table
  {
  }

  lemma {:induction false} RunKeepsShown(latency: int, w: World, es: seq<Event>, u: User, c: ConnId, n: nat,
      early: set<nat>)
    requires Legal(latency, w, es) && Shown(w, u, c, early) && ShownFrom(w, n, u, c) && NoWriteBy(es, early)
    requires c in w.table && c in Listed(Run(w, es).table, u)
    ensures ShownFrom(Run(w, es), n, u, c)
    decreases |es|
  {
    if es == [] {
    } else {
      ListedBefore(latency, w, es, u, c);
      StepKeepsShown(latency, w, es[0], u, c, n, early);
      KeepsRow(latency, w, es[0], c);
      assert forall j :: 0 <= j < |es[1..]| ==> es[1..][j] == es[j + 1];
      RunKeepsShown(latency, Step(w, es[0]), es[1..], u, c, n, early);
    }
  }

  /** The queries of u that are still to write a list without the connection. */
  function LackingWriters(w: World, u: User, c: ConnId): set<nat> {
    set id | id in w.procs && w.procs[id].Writing? && w.procs[id].user == u && c !in w.procs[id].list
  }

  /**
   * An added connection shows from the invalidation that follows its commit: while it is not deleted, every
   * list handed out to its user holds it, unless a query from before the commit writes after the invalidation.
   */
  lemma AdditionHolds(latency: int, w: World, id: nat, i: int, after: seq<Event>, c: ConnId)
    requires Enabled(latency, w, InvalidateForAdd(id, i)) && c in w.table
    requires var v := Step(w, InvalidateForAdd(id, i)); var u := w.procs[id].user;
      && Legal(latency, v, after) && NoWriteBy(after, LackingWriters(v, u, c))
      && c in Listed(Run(v, after).table, u)
    ensures var v := Step(w, InvalidateForAdd(id, i)); ShownFrom(Run(v, after), |v.returned|, w.procs[id].user, c)
  {
    var v, u := Step(w, InvalidateForAdd(id, i)), w.procs[id].user;
    RunKeepsShown(latency, v, after, u, c, |v.returned|, LackingWriters(v, u, c));
  }

  // ---------------------------------------------------------------- the bound is reached

  function Before(): Table { map[1 := Row(5, false, 0, "db")] }

  function After(): Table { map[1 := Row(5, true, 0, "db")] }

  /**
   * Deletion invalidates before it commits: a reader queries in between, writes as late as it may and the last
   * hit follows.
   */
  function Stale(latency: nat): seq<Event> {
    [SelectForDelete(0, 1, 5, 0), InvalidateForDelete(0, 0), Lookup(1, 5, 0), Query(1, 0), CommitDelete(0, 0),
     Write(1, latency), Lookup(2, 5, latency + TTL - 1)]
  }

  function StaleWorld(latency: nat, k: nat): World
    requires k <= 7
  {
    var h0, h1 := [Snapshot(0, Before())], [Snapshot(0, Before()), Snapshot(0, After())];
    var c, r := map[5 := Cached(Before(), latency + TTL)], Return(5, Before(), latency);
    if k == 0 then World(Before(), map[], 0, map[], h0, [])
    else if k == 1 then World(Before(), map[], 0, map[0 := Deleting(1, 5, false)], h0, [])
    else if k == 2 then World(Before(), map[], 0, map[0 := Deleting(1, 5, true)], h0, [])
    else if k == 3 then World(Before(), map[], 0, map[0 := Deleting(1, 5, true), 1 := Querying(5)], h0, [])
    else if k == 4 then World(Before(), map[], 0, map[0 := Deleting(1, 5, true), 1 := Writing(5, Before(), 0)], h0, [])
    else if k == 5 then World(After(), map[], 0, map[0 := Finished, 1 := Writing(5, Before(), 0)], h1, [])
    else if k == 6 then World(After(), c, latency, map[0 := Finished, 1 := Finished], h1, [r])
    else World(After(), c, latency + TTL - 1, map[0 := Finished, 1 := Finished, 2 := Finished], h1,
               [r, Return(5, Before(), latency + TTL - 1)])
  }

  /** The steps up to the query; the deletion has already invalidated. */
  lemma StaleStart(latency: nat, k: nat)
    requires k < 4
    ensures Enabled(latency, StaleWorld(latency, k), Stale(latency)[k])
    ensures Step(StaleWorld(latency, k), Stale(latency)[k]) == StaleWorld(latency, k + 1)
  {
    assert Listed(Before(), 5) == Before();
    var v := Step(StaleWorld(latency, k), Stale(latency)[k]);
    assert v.procs == StaleWorld(latency, k + 1).procs && v.cache == StaleWorld(latency, k + 1).cache;
  }

  /** The commit, the late write and the hit that follows it. */
  lemma StaleEnd(latency: nat, k: nat)
    requires 4 <= k < 7
    ensures Enabled(latency, StaleWorld(latency, k), Stale(latency)[k])
    ensures Step(StaleWorld(latency, k), Stale(latency)[k]) == StaleWorld(latency, k + 1)
  {
    var v := Step(StaleWorld(latency, k), Stale(latency)[k]);
    if k == 4 {
      assert v.table == After() && v.procs == StaleWorld(latency, 5).procs
          && v.history == StaleWorld(latency, 5).history;
    } else if k == 5 {
      assert v.procs == StaleWorld(latency, 6).procs && v.cache == StaleWorld(latency, 6).cache;
    } else {
      assert 1 in Before();
      assert v.procs == StaleWorld(latency, 7).procs && v.returned == StaleWorld(latency, 7).returned;
    }
  }

  lemma {:induction false} StaleRun(latency: nat, k: nat)
    requires k <= 7
    ensures Legal(latency, StaleWorld(latency, k), Stale(latency)[k..])
    ensures Run(StaleWorld(latency, k), Stale(latency)[k..]) == StaleWorld(latency, 7)
    decreases 7 - k
  {
    var es := Stale(latency);
    if k == 7 {
    } else {
      if k < 4 {
        StaleStart(latency, k);
      } else {
        StaleEnd(latency, k);
      }
      StaleRun(latency, k + 1);
      assert es[k..][1..] == es[k + 1..] && es[k..][0] == es[k];
    }
  }

  ghost predicate LastShowsDeleted(w: World) {
    && w.returned != []
    && var r := w.returned[|w.returned| - 1];
    exists c :: c in r.list && c in w.table && w.table[c].deleted
  }

  /** The last list handed out was the committed one n time units ago, and not since. */
  ghost predicate LastStaleBy(w: World, n: int) {
    && w.returned != []
    && var r := w.returned[|w.returned| - 1];
    && WasListed(w.history, r.user, r.list, r.time - n, r.time)
    && !WasListed(w.history, r.user, r.list, r.time - n + 1, r.time)
  }

  lemma StaleWorldIsStale(latency: nat)
    ensures LastShowsDeleted(StaleWorld(latency, 7)) && LastStaleBy(StaleWorld(latency, 7), TTL - 1 + latency)
  {
    var w := StaleWorld(latency, 7);
    var r := w.returned[1];
    assert 1 in r.list;
    assert Listed(Before(), 5) == Before();
    assert CurrentAt(w.history, 0, 0);
    assert 1 !in Listed(After(), 5);
  }

  /**
   * For every latency the bound is reached: some run hands out, after its committed deletion, a list that
   * still shows the connection and was last the committed one exactly 299 + latency time units before.
   */
  lemma DeleteCanLeaveStaleList(latency: nat)
    ensures exists es ::
      && Legal(latency, Start(Before(), 0), es)
      && LastShowsDeleted(Run(Start(Before(), 0), es)) && LastStaleBy(Run(Start(Before(), 0), es), 299 + latency)
  {
    StaleRun(latency, 0);
    var es := Stale(latency);
    assert es[0..] == es;
    assert StaleWorld(latency, 0) == Start(Before(), 0);
    StaleWorldIsStale(latency);
  }
}
