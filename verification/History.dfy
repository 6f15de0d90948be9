/**
 * Delivery of history records: publish or fall back, queue with expiry, consume, persist and acknowledge, with
 * faults.
 */
module History {
  import opened Wrappers

  /** settings.MESSAGE_EXPIRATION_MS */
  const EXPIRATION: int := 300000

  type RecordId = nat

  type Fields = map<string, string>

  /** A query_history row without its generated id and creation time. */
  datatype Row = Row(
    session: string, userInput: string, sqlQuery: string, chainOfThought: Option<string>,
    executionTime: Option<string>, cacheHit: string, correlation: Option<string>)

  function GetOr(r: Fields, key: string, default: string): string {
    if key in r then r[key] else default
  }

  function Get(r: Fields, key: string): Option<string> {
    if key in r then Some(r[key]) else None
  }

  /** The row that the publisher writes itself when the queue cannot be used. */
  function FallbackRow(session: string, r: Fields): Row {
    Row(session, GetOr(r, "user_input", ""), GetOr(r, "sql_query", ""), Get(r, "chain_of_thought"),
        Get(r, "execution_time_ms"), GetOr(r, "cache_hit", "false"), Get(r, "correlation_id"))
  }

  /** The row that the consumer writes for a message. */
  function ConsumerRow(session: string, r: Fields): Row {
    Row(session := session,
        userInput := GetOr(r, "user_input", ""),
        sqlQuery := GetOr(r, "sql_query", ""),
        chainOfThought := Get(r, "chain_of_thought"),
        executionTime := Get(r, "execution_time_ms"),
        cacheHit := GetOr(r, "cache_hit", "false"),
        correlation := Get(r, "correlation_id"))
  }

  /** The record that ask_query publishes; a missing request id is a key without a value. */
  function HistoryRecord(
      question: string, sql: string, chain: string, elapsed: string, hit: string, requestId: Option<string>): Fields
  {
    var r := map["user_input" := question, "sql_query" := sql, "chain_of_thought" := chain,
                 "execution_time_ms" := elapsed, "cache_hit" := hit];
    if requestId.Some? then r["correlation_id" := requestId.value] else r
  }

  /** Both paths read the record under the names it was written with: no value falls back to a default. */
  lemma RecordReachesRow(
      session: string, question: string, sql: string, chain: string, elapsed: string, hit: string,
      requestId: Option<string>)
    ensures var r := HistoryRecord(question, sql, chain, elapsed, hit, requestId);
      FallbackRow(session, r) == ConsumerRow(session, r) ==
          Row(session, question, sql, Some(chain), Some(elapsed), hit, requestId)
  {
  }

  /** A field that is missing is written as its default, on both paths. */
  lemma MissingFields(session: string, r: Fields)
    ensures FallbackRow(session, r) == ConsumerRow(session, r)
    ensures "user_input" !in r ==> ConsumerRow(session, r).userInput == ""
    ensures "sql_query" !in r ==> ConsumerRow(session, r).sqlQuery == ""
    ensures "cache_hit" !in r ==> ConsumerRow(session, r).cacheHit == "false"
    ensures "chain_of_thought" !in r ==> ConsumerRow(session, r).chainOfThought == None
    ensures "execution_time_ms" !in r ==> ConsumerRow(session, r).executionTime == None
    ensures "correlation_id" !in r ==> ConsumerRow(session, r).correlation == None
  {
  }

  /** What came of the publish call: the broker may have accepted a message although the call raised. */
  datatype Outcome = NoChannel | Accepted | RaisedBefore | RaisedAfter

  datatype Work = NotYet | Saved | Lost

  datatype Message =
    | NoMessage
    | Queued(expires: int)
    | Delivered(expires: int, at: int, work: Work)
    | Acked(work: Work)
    | Expired(at: int)

  datatype Fallback = NotUsed | Pending | Stored | Failed

  /** crashes counts the consumer crashes between the commit and the acknowledgement. */
  datatype Tracked = Tracked(
    session: string, fields: Fields, published: int, message: Message, fallback: Fallback, crashes: nat)

  /** Which side wrote a row, and when the message it came with was delivered. */
  datatype Origin = ByFallback | ByConsumer(delivered: int)

  datatype SavedRow = Persisted(id: RecordId, origin: Origin, row: Row)

  datatype World = World(now: int, records: map<RecordId, Tracked>, table: seq<SavedRow>)

  datatype Event =
    | Publish(id: RecordId, session: string, fields: Fields, outcome: Outcome, time: int)
    | FallBack(id: RecordId, ok: bool, time: int)
    | Expire(id: RecordId, time: int)
    | Deliver(id: RecordId, time: int)
    | Persist(id: RecordId, ok: bool, time: int)
    | Ack(id: RecordId, time: int)
    | Crash(id: RecordId, time: int)

  predicate Enabled(w: World, e: Event) {
    && w.now <= e.time
    && (e.Publish? <==> e.id !in w.records)
    && match e
       case Publish(_, _, _, _, _) => true
       case FallBack(id, _, _) => w.records[id].fallback.Pending?
       case Expire(id, t) => w.records[id].message.Queued? && w.records[id].message.expires <= t
       case Deliver(id, t) => w.records[id].message.Queued? && t < w.records[id].message.expires
       case Persist(id, _, _) => w.records[id].message.Delivered? && w.records[id].message.work.NotYet?
       case Ack(id, _) => w.records[id].message.Delivered? && !w.records[id].message.work.NotYet?
       case Crash(id, _) => w.records[id].message.Delivered?
  }

  /** The table after an attempt to commit a row. */
  function Saving(table: seq<SavedRow>, ok: bool, id: RecordId, origin: Origin, row: Row): seq<SavedRow> {
    if ok then table + [Persisted(id, origin, row)] else table
  }

  function Step(w: World, e: Event): World
    requires Enabled(w, e)
  {
    match e
    case Publish(id, s, r, o, t) =>
      var message := if o.Accepted? || o.RaisedAfter? then Queued(t + EXPIRATION) else NoMessage;
      w.(now := t, records := w.records[id := Tracked(s, r, t, message, if o.Accepted? then NotUsed else Pending, 0)])
    case FallBack(id, ok, t) =>
      var x := w.records[id];
      World(t, w.records[id := x.(fallback := if ok then Stored else Failed)],
            Saving(w.table, ok, id, ByFallback, FallbackRow(x.session, x.fields)))
    case Expire(id, t) =>
      w.(now := t, records := w.records[id := w.records[id].(message := Expired(t))])
    case Deliver(id, t) =>
      var x := w.records[id];
      w.(now := t, records := w.records[id := x.(message := Delivered(x.message.expires, t, NotYet))])
    case Persist(id, ok, t) =>
      var x := w.records[id];
      World(t, w.records[id := x.(message := Delivered(x.message.expires, x.message.at, if ok then Saved else Lost))],
            Saving(w.table, ok, id, ByConsumer(x.message.at), ConsumerRow(x.session, x.fields)))
    case Ack(id, t) =>
      w.(now := t, records := w.records[id := w.records[id].(message := Acked(w.records[id].message.work))])
    case Crash(id, t) =>
      var x := w.records[id];
      w.(now := t, records := w.records[id := x.(message := Queued(x.message.expires),
                                                 crashes := x.crashes + (if x.message.work.Saved? then 1 else 0))])
  }

  /** The publishing side and the consuming side, each call in one piece. */
  class HistoryService {
    var connected: bool
    var world: World

    constructor (connected: bool, now: int)
      ensures this.connected == connected && world == Start(now)
    {
      this.connected, this.world := connected, Start(now);
    }

    /**
     * raised and accepted describe the broker, stored whether a fallback commit succeeds.
     * A call that returns true queued the record and wrote no row; one that returns false wrote
     * the row unless that commit failed too, and the record is queued as well if the broker took it.
     */
    method PublishRecord(id: RecordId, session: string, fields: Fields, raised: bool, accepted: bool, stored: bool,
        now: int)
      returns (ok: bool)
      requires id !in world.records && world.now <= now && (!raised ==> accepted)
      modifies this
      ensures ok <==> connected && !raised
      ensures id in world.records && world.records - {id} == old(world.records) - {id}
      ensures world.records[id].message == if connected && accepted then Queued(now + EXPIRATION) else NoMessage
      ensures world.table == old(world.table) +
                if !ok && stored then [Persisted(id, ByFallback, ConsumerRow(session, fields))] else []
      ensures
        var o := if !connected then NoChannel else if !raised then Accepted
                 else if accepted then RaisedAfter else RaisedBefore;
        var v := Step(old(world), Publish(id, session, fields, o, now));
        world == if ok then v else Step(v, FallBack(id, stored, now))
      ensures connected == old(connected)
    {
      if !connected {
        world := Step(world, Publish(id, session, fields, NoChannel, now));
        world := Step(world, FallBack(id, stored, now));
        return false;
      }
      if !raised {
        world := Step(world, Publish(id, session, fields, Accepted, now));
        return true;
      }
      world := Step(world, Publish(id, session, fields, if accepted then RaisedAfter else RaisedBefore, now));
      world := Step(world, FallBack(id, stored, now));
      ok := false;
    }

    /**
     * on_message on a delivered record: an error while persisting is swallowed, the message is
     * acknowledged either way.
     */
    method OnMessage(id: RecordId, saves: bool, now: int)
      requires id in world.records && world.now <= now
      requires world.records[id].message.Delivered? && world.records[id].message.work.NotYet?
      modifies this
      ensures id in world.records && world.records[id].message == Acked(if saves then Saved else Lost)
      ensures world.records - {id} == old(world.records) - {id}
      ensures var x := old(world.records[id]);
        world.table == old(world.table)
            + if saves then [Persisted(id, ByConsumer(x.message.at), FallbackRow(x.session, x.fields))] else []
      ensures world == Step(Step(old(world), Persist(id, saves, now)), Ack(id, now)) && connected == old(connected)
    {
      world := Step(world, Persist(id, saves, now));
      world := Step(world, Ack(id, now));
    }
  }

  predicate Legal(w: World, es: seq<Event>)
    decreases |es|
  {
    es == [] || (Enabled(w, es[0]) && Legal(Step(w, es[0]), es[1..]))
  }

  function Run(w: World, es: seq<Event>): World
    requires Legal(w, es)
    decreases |es|
  {
    if es == [] then w else Run(Step(w, es[0]), es[1..])
  }

  function Start(now: int): World {
    World(now, map[], [])
  }

  // ---------------------------------------------------------------- conservation

  function RowsOf(table: seq<SavedRow>, id: RecordId): nat {
    if table == [] then 0
    else RowsOf(table[..|table| - 1], id) + (if table[|table| - 1].id == id then 1 else 0)
  }

  /** The rows that a record's history explains. */
  function RowsDue(x: Tracked): nat {
    (if x.fallback.Stored? then 1 else 0)
    + x.crashes
    + (if (x.message.Delivered? || x.message.Acked?) && x.message.work.Saved? then 1 else 0)
  }

  /** A record without a message is the fallback's business; an acknowledged message was worked on. */
  predicate Consistent(x: Tracked) {
    && (x.message.NoMessage? ==> !x.fallback.NotUsed? && x.crashes == 0)
    && (x.message.Acked? ==> !x.message.work.NotYet?)
    && (x.message.Queued? || x.message.Delivered? ==> x.message.expires == x.published + EXPIRATION)
    && (x.message.Delivered? ==> x.published <= x.message.at < x.published + EXPIRATION)
    && (x.message.Expired? ==> x.published + EXPIRATION <= x.message.at)
  }

  function Due(w: World, id: RecordId): nat {
    if id in w.records then RowsDue(w.records[id]) else 0
  }

  ghost predicate RowsMatch(w: World) {
    forall id :: RowsOf(w.table, id) == Due(w, id)
  }

  ghost predicate RecordsMatch(w: World) {
    forall id :: id in w.records ==> Consistent(w.records[id])
  }

  predicate Dated(w: World) {
    forall id :: id in w.records ==> w.records[id].published <= w.now
  }

  predicate RowMatches(w: World, saved: SavedRow) {
    saved.id in w.records
    && var x := w.records[saved.id];
    && saved.row == FallbackRow(x.session, x.fields) == ConsumerRow(x.session, x.fields)
    && (saved.origin.ByConsumer? ==> x.published <= saved.origin.delivered < x.published + EXPIRATION)
  }

  ghost predicate FieldsMatch(w: World) {
    forall i :: 0 <= i < |w.table| ==> RowMatches(w, w.table[i])
  }

  ghost predicate Inv(w: World) {
    RowsMatch(w) && RecordsMatch(w) && Dated(w) && FieldsMatch(w)
  }

  lemma RowsAppend(table: seq<SavedRow>, saved: SavedRow, id: RecordId)
    ensures RowsOf(table + [saved], id) == RowsOf(table, id) + if saved.id == id then 1 else 0
  {
    var t := table + [saved];
    assert t[..|t| - 1] == table && t[|t| - 1] == saved;
  }

  lemma RowsSaving(table: seq<SavedRow>, ok: bool, x: RecordId, origin: Origin, row: Row, id: RecordId)
    ensures RowsOf(Saving(table, ok, x, origin, row), id) == RowsOf(table, id) + if ok && x == id then 1 else 0
  {
    if ok {
      RowsAppend(table, Persisted(x, origin, row), id);
    }
  }

  /** The rows of a record that an event commits. */
  function Writes(e: Event, id: RecordId): nat {
    if e.id == id && (e.FallBack? || e.Persist?) && e.ok then 1 else 0
  }

  lemma StepWrites(w: World, e: Event, id: RecordId)
    requires Enabled(w, e)
    ensures RowsOf(Step(w, e).table, id) == RowsOf(w.table, id) + Writes(e, id)
  {
    match e
    case FallBack(i, ok, _) =>
      var x := w.records[i];
      RowsSaving(w.table, ok, i, ByFallback, FallbackRow(x.session, x.fields), id);
    case Persist(i, ok, _) =>
      var x := w.records[i];
      RowsSaving(w.table, ok, i, ByConsumer(x.message.at), ConsumerRow(x.session, x.fields), id);
    case _ =>
  }

  lemma StepOwes(w: World, e: Event, id: RecordId)
    requires Enabled(w, e)
    ensures Due(Step(w, e), id) == Due(w, id) + Writes(e, id)
  {
  }

  lemma StepKeepsRows(w: World, e: Event, id: RecordId)
    requires RowsOf(w.table, id) == Due(w, id) && Enabled(w, e)
    ensures RowsOf(Step(w, e).table, id) == Due(Step(w, e), id)
  {
    StepWrites(w, e, id);
    StepOwes(w, e, id);
  }

  lemma StepKeepsRecords(w: World, e: Event)
    requires RecordsMatch(w) && Dated(w) && Enabled(w, e)
    ensures RecordsMatch(Step(w, e)) && Dated(Step(w, e))
  {
  }

  lemma StepKeepsFields(w: World, e: Event)
    requires FieldsMatch(w) && RecordsMatch(w) && Enabled(w, e)
    ensures FieldsMatch(Step(w, e))
  {
    var v := Step(w, e);
    forall i | 0 <= i < |v.table| ensures RowMatches(v, v.table[i]) {
      assert i < |w.table| ==> RowMatches(w, w.table[i]);
    }
  }

  lemma StepKeepsInv(w: World, e: Event)
    requires Inv(w) && Enabled(w, e)
    ensures Inv(Step(w, e))
  {
    forall id ensures RowsOf(Step(w, e).table, id) == Due(Step(w, e), id) {
      StepKeepsRows(w, e, id);
    }
    StepKeepsRecords(w, e);
    StepKeepsFields(w, e);
  }

  lemma {:induction false} RunKeepsInv(w: World, es: seq<Event>)
    requires Inv(w) && Legal(w, es)
    ensures Inv(Run(w, es))
    decreases |es|
  {
    if es == [] {
    } else {
      StepKeepsInv(w, es[0]);
      RunKeepsInv(Step(w, es[0]), es[1..]);
    }
  }

  /** Nothing is under way for the record any more. */
  predicate Settled(x: Tracked) {
    !x.message.Queued? && !x.message.Delivered? && !x.fallback.Pending?
  }

  /**
   * Its message expired, a persist error was swallowed, the publish call raised after acceptance,
   * or the consumer crashed between its commit and its acknowledgement.
   */
  predicate Disturbed(x: Tracked) {
    || x.message.Expired?
    || (x.message.Acked? && x.message.work.Lost?)
    || x.fallback.Failed?
    || (!x.message.NoMessage? && !x.fallback.NotUsed?)
    || x.crashes > 0
  }

  /**
   * After any run, the rows of a record are the fallback's commit, the consumer's commit, and one for
   * each crash between a commit and its acknowledgement; whichever path wrote them, they all carry
   * the same fields.
   */
  lemma RowsAreExplained(start: int, es: seq<Event>, id: RecordId)
    requires Legal(Start(start), es) && id in Run(Start(start), es).records
    ensures var w := Run(Start(start), es); var x := w.records[id];
      && RowsOf(w.table, id) == RowsDue(x)
      && forall i :: 0 <= i < |w.table| && w.table[i].id == id ==> 
            w.table[i].row == FallbackRow(x.session, x.fields) == ConsumerRow(x.session, x.fields)
  {
    RunKeepsInv(Start(start), es);
    var w := Run(Start(start), es);
    assert RowsOf(w.table, id) == Due(w, id);
    forall i | 0 <= i < |w.table| && w.table[i].id == id
      ensures w.table[i].row == FallbackRow(w.records[id].session, w.records[id].fields)
    {
      assert RowMatches(w, w.table[i]);
    }
  }

  /** A published record is under way, has a row, has expired, or was dropped on a swallowed error. */
  lemma AlwaysAccounted(start: int, es: seq<Event>, id: RecordId)
    requires Legal(Start(start), es) && id in Run(Start(start), es).records
    ensures var w := Run(Start(start), es); var x := w.records[id];
      || !Settled(x) || RowsOf(w.table, id) >= 1 || x.message.Expired?
      || (x.message.Acked? && x.message.work.Lost?) || x.fallback.Failed?
  {
    RunKeepsInv(Start(start), es);
    var w := Run(Start(start), es);
    assert Consistent(w.records[id]) && RowsOf(w.table, id) == Due(w, id);
  }

  /** A settled record that nothing disturbed has exactly one row; an undisturbed one never has more. */
  lemma ExactlyOneRow(start: int, es: seq<Event>, id: RecordId)
    requires Legal(Start(start), es) && id in Run(Start(start), es).records
    ensures var w := Run(Start(start), es); var x := w.records[id];
      && (!Disturbed(x) ==> RowsOf(w.table, id) <= 1)
      && (!Disturbed(x) && Settled(x) ==> RowsOf(w.table, id) == 1)
  {
    RunKeepsInv(Start(start), es);
    var w := Run(Start(start), es);
    assert Consistent(w.records[id]) && RowsOf(w.table, id) == Due(w, id);
  }

  /**
   * The expiry bites: the consumer writes rows only for messages delivered less than the expiration after
   * their publication, and a message is given up only when that long has passed.
   */
  lemma RowsAreInTime(start: int, es: seq<Event>, i: nat)
    requires Legal(Start(start), es) && i < |Run(Start(start), es).table|
    ensures var w := Run(Start(start), es); var saved := w.table[i];
      && saved.id in w.records
      && (saved.origin.ByConsumer? ==>
            w.records[saved.id].published <= saved.origin.delivered < w.records[saved.id].published + 300000)
  {
    RunKeepsInv(Start(start), es);
    var w := Run(Start(start), es);
    assert RowMatches(w, w.table[i]);
  }

  lemma ExpiredIsLate(start: int, es: seq<Event>, id: RecordId)
    requires Legal(Start(start), es)
    requires var w := Run(Start(start), es); id in w.records && w.records[id].message.Expired?
    ensures var x := Run(Start(start), es).records[id]; x.published + 300000 <= x.message.at
  {
    RunKeepsInv(Start(start), es);
    assert Consistent(Run(Start(start), es).records[id]);
  }
}
