/** ask_query joined to the schema cache: where the tables that the gate knows come from. */
module AskSession {
  import opened Redis
  import opened SqlGate
  import opened SqlGateLaws
  import opened SqlWrapper
  import opened Text
  import A = AskQuery
  import S = SchemaCache

  /** connections holds the connection string that each request resolved and executes on. */
  datatype World = World(schema: S.World, ask: A.World, connections: map<nat, string>)

  /** A request begins with the schema that a reader collected, or with the one it had to introspect itself. */
  datatype Event =
    | Schema(cached: S.Event)
    | Hit(id: nat, request: A.Request, resolver: nat, reader: nat, time: int)
    | Miss(id: nat, request: A.Request, intro: nat, time: int)
    | Ask(asking: A.Event)

  function GotNames(got: seq<S.Got>): set<string> {
    set k | 0 <= k < |got| :: got[k].table.name
  }

  function IntroNames(tables: seq<S.Table>): set<string> {
    set k | 0 <= k < |tables| :: tables[k].name
  }

  /** A job that has read the session entry and holds its connection string. */
  predicate Resolved(w: S.World, job: nat, session: string) {
    job in w.jobs && w.jobs[job].Knowing? && w.jobs[job].session == session && w.jobs[job].source.FromEntry?
  }

  /** A reader that is through with its index and found something. */
  predicate ReadOut(w: S.World, job: nat, session: string, tables: Tables) {
    && job in w.jobs && w.jobs[job].Reading? && w.jobs[job].session == session
    && w.jobs[job].next == |w.jobs[job].names| && w.jobs[job].got != [] && tables == GotNames(w.jobs[job].got)
  }

  predicate Enabled(w: World, e: Event) {
    match e
    case Schema(x) => w.ask.now <= x.time && S.Enabled(w.schema, x)
    case Hit(id, r, k, j, t) =>
      && w.schema.now <= t && A.Enabled(w.ask, A.Begin(id, r, t))
      && Resolved(w.schema, k, r.session) && ReadOut(w.schema, j, r.session, r.tables)
    case Miss(id, r, i, t) =>
      && w.schema.now <= t && A.Enabled(w.ask, A.Begin(id, r, t)) && i < |w.schema.intros|
      && var n := w.schema.intros[i];
      n.session == r.session && n.source.FromEntry? && r.tables == IntroNames(n.tables)
    case Ask(x) => !x.Begin? && w.schema.now <= x.time && A.Enabled(w.ask, x)
  }

  ghost function Step(ttl: int, w: World, e: Event): World
    requires Enabled(w, e)
  {
    match e
    case Schema(x) => w.(schema := S.Step(ttl, w.schema, x))
    case Hit(id, r, k, _, t) =>
      w.(ask := A.Step(w.ask, A.Begin(id, r, t)), connections := w.connections[id := w.schema.jobs[k].connection])
    case Miss(id, r, i, t) =>
      w.(ask := A.Step(w.ask, A.Begin(id, r, t)), connections := w.connections[id := w.schema.intros[i].connection])
    case Ask(x) => w.(ask := A.Step(w.ask, x))
  }

  ghost predicate Legal(ttl: int, w: World, es: seq<Event>)
    decreases |es|
  {
    es == [] || (Enabled(w, es[0]) && Legal(ttl, Step(ttl, w, es[0]), es[1..]))
  }

  ghost function Run(ttl: int, w: World, es: seq<Event>): World
    requires Legal(ttl, w, es)
    decreases |es|
  {
    if es == [] then w else Run(ttl, Step(ttl, w, es[0]), es[1..])
  }

  function Start(now: int): World {
    World(S.Start(now), A.Start(now), map[])
  }

  // ---------------------------------------------------------------- tables and the connection they were seen on

  /** An introspection for the session over that connection string saw a table of that name. */
  predicate Sees(n: S.Intro, session: string, connection: string, name: string) {
    n.session == session && n.connection == connection && name in IntroNames(n.tables)
  }

  ghost predicate Seen(w: S.World, session: string, connection: string, name: string) {
    exists i :: 0 <= i < |w.intros| && Sees(w.intros[i], session, connection, name)
  }

  /** The connection string is the one connect_session made the session for. */
  predicate IsOwn(w: S.World, session: string, connection: string) {
    session in w.bound && w.bound[session].connection == connection
  }

  /** A request runs on its session's own connection string, and all its tables were seen there. */
  ghost predicate Grounded(w: S.World, r: A.Request, connection: string) {
    IsOwn(w, r.session, connection) && forall t :: t in r.tables ==> Seen(w, r.session, connection, t)
  }

  ghost predicate Inv(ttl: int, w: World) {
    && S.Inv(ttl, w.schema) && A.Inv(w.ask)
    && forall id :: id in w.ask.asked ==> id in w.connections && Grounded(w.schema, w.ask.asked[id], w.connections[id])
  }

  lemma StepFollows(ttl: int, w: S.World, e: S.Event)
    requires S.Enabled(w, e)
    ensures S.Follows(w, S.Step(ttl, w, e))
  {
  }

  lemma GroundedStays(w: S.World, v: S.World, r: A.Request, connection: string)
    requires S.Follows(w, v) && Grounded(w, r, connection)
    ensures Grounded(v, r, connection)
  {
    forall t | t in r.tables ensures Seen(v, r.session, connection, t) {
      var i :| 0 <= i < |w.intros| && Sees(w.intros[i], r.session, connection, t);
      assert Sees(v.intros[i], r.session, connection, t);
    }
  }

  lemma ResolvedIsOwn(ttl: int, w: S.World, job: nat, session: string)
    requires S.Inv(ttl, w) && Resolved(w, job, session)
    ensures IsOwn(w, session, w.jobs[job].connection)
  {
    assert S.JobHonest(w, w.jobs[job]);
  }

  lemma ReadIsSeen(ttl: int, w: S.World, job: nat, session: string, tables: Tables, connection: string)
    requires S.Inv(ttl, w) && ReadOut(w, job, session, tables) && IsOwn(w, session, connection)
    ensures forall t :: t in tables ==> Seen(w, session, connection, t)
  {
    var j := w.jobs[job];
    forall t | t in tables ensures Seen(w, session, connection, t) {
      var k :| 0 <= k < |j.got| && j.got[k].table.name == t;
      assert S.ReaderHonest(ttl, w, j) && S.GotHonest(ttl, w, session, j.got[k]);
      GotIsSeen(ttl, w, session, j.got[k], connection);
    }
  }

  lemma GotIsSeen(ttl: int, w: S.World, session: string, g: S.Got, connection: string)
    requires S.GotHonest(ttl, w, session, g) && IsOwn(w, session, connection)
    ensures Seen(w, session, connection, g.table.name)
  {
    var written := LastPut(w.writes[..g.after], S.Key(session, g.table.name)).value.time;
    var i :| 0 <= i < |w.intros| && S.OwnIntro(w, w.intros[i], session, g.table, written);
    var n := w.intros[i];
    var k :| 0 <= k < |n.tables| && n.tables[k] == g.table;
    assert n.tables[k].name in IntroNames(n.tables);
    assert Sees(n, session, connection, g.table.name);
  }

  lemma MissIsGrounded(ttl: int, w: S.World, r: A.Request, i: nat)
    requires S.Inv(ttl, w) && i < |w.intros|
    requires var n := w.intros[i]; n.session == r.session && n.source.FromEntry? && r.tables == IntroNames(n.tables)
    ensures Grounded(w, r, w.intros[i].connection)
  {
    var n := w.intros[i];
    assert S.IntroHonest(w, n);
    forall t | t in r.tables ensures Seen(w, r.session, n.connection, t) {
      assert Sees(w.intros[i], r.session, n.connection, t);
    }
  }

  lemma BeginKeepsInv(ttl: int, w: World, id: nat, r: A.Request, t: int, connection: string)
    requires Inv(ttl, w) && A.Enabled(w.ask, A.Begin(id, r, t)) && Grounded(w.schema, r, connection)
    ensures Inv(ttl, w.(ask := A.Step(w.ask, A.Begin(id, r, t)), connections := w.connections[id := connection]))
  {
    A.StepKeepsInv(w.ask, A.Begin(id, r, t));
  }

  lemma AskedStays(w: A.World, e: A.Event)
    requires A.Enabled(w, e) && !e.Begin?
    ensures A.Step(w, e).asked == w.asked
  {
  }

  lemma AskKeepsInv(ttl: int, w: World, e: A.Event)
    requires Inv(ttl, w) && A.Enabled(w.ask, e) && !e.Begin?
    ensures Inv(ttl, w.(ask := A.Step(w.ask, e)))
  {
    A.StepKeepsInv(w.ask, e);
    AskedStays(w.ask, e);
  }

  lemma SchemaKeepsInv(ttl: int, w: World, e: S.Event)
    requires Inv(ttl, w) && S.Enabled(w.schema, e)
    ensures Inv(ttl, w.(schema := S.Step(ttl, w.schema, e)))
  {
    var v := S.Step(ttl, w.schema, e);
    S.StepKeepsInv(ttl, w.schema, e);
    StepFollows(ttl, w.schema, e);
    forall id | id in w.ask.asked ensures Grounded(v, w.ask.asked[id], w.connections[id]) {
      GroundedStays(w.schema, v, w.ask.asked[id], w.connections[id]);
    }
  }

  lemma StepKeepsInv(ttl: int, w: World, e: Event)
    requires Inv(ttl, w) && Enabled(w, e)
    ensures Inv(ttl, Step(ttl, w, e))
  {
    match e
    case Schema(x) => SchemaKeepsInv(ttl, w, x);
    case Hit(id, r, k, j, t) =>
      var connection := w.schema.jobs[k].connection;
      ResolvedIsOwn(ttl, w.schema, k, r.session);
      ReadIsSeen(ttl, w.schema, j, r.session, r.tables, connection);
      BeginKeepsInv(ttl, w, id, r, t, connection);
    case Miss(id, r, i, t) =>
      MissIsGrounded(ttl, w.schema, r, i);
      BeginKeepsInv(ttl, w, id, r, t, w.schema.intros[i].connection);
    case Ask(x) => AskKeepsInv(ttl, w, x);
  }

  lemma {:induction false} RunKeepsInv(ttl: int, w: World, es: seq<Event>)
    requires Inv(ttl, w) && Legal(ttl, w, es)
    ensures Inv(ttl, Run(ttl, w, es))
    decreases |es|
  {
    if es == [] {
    } else {
      StepKeepsInv(ttl, w, es[0]);
      RunKeepsInv(ttl, Step(ttl, w, es[0]), es[1..]);
    }
  }

  // ---------------------------------------------------------------- what is executed

  /** Up to case, the name is that of a table seen over the connection string. */
  ghost predicate Names(w: S.World, session: string, connection: string, name: string) {
    exists t :: SameFold(t, name) && Seen(w, session, connection, t)
  }

  ghost predicate EveryRefSeen(w: S.World, session: string, connection: string, s: string) {
    forall p: nat :: p <= |s| && RefAt(s, p) ==> Names(w, session, connection, RefOf(s, p).Name(s))
  }

  lemma PassingIsSeen(w: S.World, r: A.Request, connection: string, s: string)
    requires Grounded(w, r, connection) && Passes(ServiceGate(), s, r.tables) && !Reserved(r.tables)
    ensures EveryRefSeen(w, r.session, connection, s)
  {
    ScanCovers(s, r.tables);
    forall p: nat | p <= |s| && RefAt(s, p) ensures Names(w, r.session, connection, RefOf(s, p).Name(s)) {
      var t :| t in r.tables && SameFold(t, RefOf(s, p).Name(s));
      assert Seen(w, r.session, connection, t);
    }
  }

  /**
   * However requests, introspections, refreshes, expiry and closed sessions interleave: a text is executed
   * on the connection string that connect_session made its session for, and unless a table is called from
   * or join, each of its FROM and JOIN references names, up to case, a table that an introspection for that
   * session over that very connection string saw.
   */
  lemma ExecutedTablesAreOwn(ttl: int, start: int, es: seq<Event>, i: nat)
    requires Legal(ttl, Start(start), es) && i < |Run(ttl, Start(start), es).ask.executed|
    ensures var w := Run(ttl, Start(start), es); var x := w.ask.executed[i];
      && x.id in w.ask.asked && x.id in w.connections
      && var r, connection := w.ask.asked[x.id], w.connections[x.id];
      && IsOwn(w.schema, r.session, connection)
      && (!Reserved(r.tables) ==> EveryRefSeen(w.schema, r.session, connection, x.text))
  {
    RunKeepsInv(ttl, Start(start), es);
    var w := Run(ttl, Start(start), es);
    var x := w.ask.executed[i];
    assert A.ExecutionSafe(w.ask, x);
    if !Reserved(w.ask.asked[x.id].tables) {
      PassingIsSeen(w.schema, w.ask.asked[x.id], w.connections[x.id], x.text);
    }
  }
}
