/** ask_query: generated SQL, cached per session and question, and the gate in front of every execution. */
module AskQuery {
  import opened Redis
  import opened Text
  import opened SqlGate
  import opened SqlWrapper
  import opened Pagination
  import opened Wrappers

  /** settings.QUERY_CACHE_TTL */
  const TTL: int := 86400

  /** The result dictionary: its sql_query, everything else it holds, and cache_hit. */
  datatype Generation = Generation(sql: string, notes: string, cacheHit: bool)

  type Cache = Store<Generation>

  /** The text that is hashed; the digest is taken to be one to one. */
  function CacheKey(question: string, session: string): string {
    session + ":" + question
  }

  predicate Semicolon(c: char) { c == ';' }

  /** The statement that is checked and executed. */
  function Statement(g: Option<Generation>): string {
    if g.None? then "" else TrimRight(Strip(g.value.sql), Semicolon)
  }

  /** The result of the first provider that answers. */
  function FirstAnswer(gemini: Option<Generation>, huggingface: Option<Generation>): Option<Generation> {
    if gemini.Some? then gemini else huggingface
  }

  /** A live entry with cache_hit set, or the first answer with cache_hit cleared. */
  function Generated(cache: Cache, question: string, session: string,
                     gemini: Option<Generation>, huggingface: Option<Generation>, asked: int): Option<Generation>
  {
    var key, answer := CacheKey(question, session), FirstAnswer(gemini, huggingface);
    match Get(cache, key, asked)
    case Some(g) => Some(g.(cacheHit := true))
    case None => if answer.Some? then Some(answer.value.(cacheHit := false)) else None
  }

  /** The cache after the request: a fresh answer is stored, a hit or a failure stores nothing. */
  function Remembered(cache: Cache, question: string, session: string,
                      gemini: Option<Generation>, huggingface: Option<Generation>, asked: int, answered: int): Cache
  {
    var key, answer := CacheKey(question, session), FirstAnswer(gemini, huggingface);
    if Get(cache, key, asked).None? && answer.Some?
    then Set(cache, Put(key, answer.value.(cacheHit := false), answered), TTL)
    else cache
  }

  class QueryService {
    var cache: Cache

    constructor ()
      ensures cache == map[]
    {
      cache := map[];
    }

    /**
     * The answers of the providers are inputs, None for an exception; asked is the time of the lookup, answered
     * that of the write.
     */
    method GenerateSql(question: string, session: string,
                       gemini: Option<Generation>, huggingface: Option<Generation>, asked: int, answered: int)
      returns (result: Option<Generation>)
      modifies this
      ensures result == Generated(old(cache), question, session, gemini, huggingface, asked)
      ensures cache == Remembered(old(cache), question, session, gemini, huggingface, asked, answered)
    {
      var key := CacheKey(question, session);
      if key in cache && asked < cache[key].deadline {
        return Some(cache[key].value.(cacheHit := true));
      }
      result := gemini;
      if result.None? {
        result := huggingface;
        if result.None? {
          return None;
        }
      }
      result := Some(result.value.(cacheHit := false));
      cache := cache[key := Entry(result.value, answered + TTL)];
    }

    /** What is sent to the user's database, if anything is. */
    method Ask(question: string, session: string, tables: Tables, page: nat, size: nat,
               gemini: Option<Generation>, huggingface: Option<Generation>, asked: int, answered: int)
      returns (executed: Option<string>, generation: Option<Generation>)
      requires page >= 1
      modifies this
      ensures generation == Generated(old(cache), question, session, gemini, huggingface, asked)
      ensures cache == Remembered(old(cache), question, session, gemini, huggingface, asked, answered)
      ensures var sql := Statement(generation);
        executed == (if sql != "" && Passes(ServiceGate(), sql, tables) then Some(Paginated(sql, page, size)) else None)
      ensures executed.Some? ==> Passes(ServiceGate(), executed.value, tables)
    {
      generation := GenerateSql(question, session, gemini, huggingface, asked, answered);
      var sql := if generation.Some? then generation.value.sql else "";
      sql := TrimRight(Strip(sql), Semicolon);
      if sql == "" {
        return None, generation;
      }
      var validation := ValidateSql(ServiceGate(), sql, tables);
      if !validation.passed {
        return None, generation;
      }
      AcceptedStaysAccepted(sql, page, size, tables);
      executed := Some(Paginated(sql, page, size));
    }
  }

  // ---------------------------------------------------------------- what one call leaves for the next

  /** The providers' answer is g: Gemini's if there is one, otherwise Hugging Face's. */
  predicate Answers(gemini: Option<Generation>, huggingface: Option<Generation>, g: Generation) {
    gemini == Some(g) || (gemini.None? && huggingface == Some(g))
  }

  /**
   * A miss that is answered by g gives g and stores it: until the TTL is over every call for the same
   * session and question gives g back and stores nothing, whatever the providers say; from then on it misses.
   */
  lemma AnswerIsRepeated(
      cache: Cache, question: string, session: string, gemini: Option<Generation>, huggingface: Option<Generation>,
      asked: int, answered: int, g: Generation,
      gemini': Option<Generation>, huggingface': Option<Generation>, t: int, later: int)
    requires Get(cache, CacheKey(question, session), asked).None? && Answers(gemini, huggingface, g)
    ensures Generated(cache, question, session, gemini, huggingface, asked) == Some(g.(cacheHit := false))
    ensures var c := Remembered(cache, question, session, gemini, huggingface, asked, answered);
      if t < answered + 86400 then
        && Generated(c, question, session, gemini', huggingface', t) == Some(g.(cacheHit := true))
        && Remembered(c, question, session, gemini', huggingface', t, later) == c
      else
        && Get(c, CacheKey(question, session), t).None?
        && Generated(c, question, session, gemini', huggingface', t)
             == Generated(map[], question, session, gemini', huggingface', t)
  {
  }

  /** Without an answer there is no result, and nothing is stored. */
  lemma FailureIsForgotten(cache: Cache, question: string, session: string, asked: int, answered: int)
    requires Get(cache, CacheKey(question, session), asked).None?
    ensures Generated(cache, question, session, None, None, asked) == None
    ensures Remembered(cache, question, session, None, None, asked, answered) == cache
  {
  }

  /** Other sessions and other questions are answered as if the call had not been made. */
  lemma OthersUntouched(
      cache: Cache, question: string, session: string, gemini: Option<Generation>, huggingface: Option<Generation>,
      asked: int, answered: int,
      other: string, theirs: string, gemini': Option<Generation>, huggingface': Option<Generation>, t: int)
    requires NoColon(session) && NoColon(theirs) && (other != question || theirs != session)
    ensures var c := Remembered(cache, question, session, gemini, huggingface, asked, answered);
      Generated(c, other, theirs, gemini', huggingface', t) == Generated(cache, other, theirs, gemini', huggingface', t)
  {
    if CacheKey(other, theirs) == CacheKey(question, session) {
      KeyInjective(theirs, other, session, question);
    }
  }

  /** The statement is the text without outer blanks, and then without the semicolons at its end. */
  lemma StatementIs(g: Generation) returns (a: nat, b: nat, c: nat)
    ensures a <= c <= b <= |g.sql| && Statement(Some(g)) == g.sql[a..c]
    ensures Between(g.sql, 0, a, IsSpace) && Between(g.sql, b, |g.sql|, IsSpace) && Between(g.sql, c, b, Semicolon)
    ensures a < b ==> !IsSpace(g.sql[a]) && !IsSpace(g.sql[b - 1])
    ensures a < c ==> g.sql[c - 1] != ';'
  {
    var n: nat;
    a, b := StripIs(g.sql);
    var t := Strip(g.sql);
    n := TrimRightIs(t, Semicolon);
    c := a + n;
    assert t[..n] == g.sql[a..c];
    forall x | c <= x < b ensures g.sql[x] == ';' {
      assert g.sql[x] == t[x - a];
    }
    assert n > 0 ==> t[n - 1] == g.sql[c - 1];
  }

  // ---------------------------------------------------------------- interleaved requests

  /** A request as it stands once its schema has been read, which is before anything is generated. */
  datatype Request = Request(session: string, question: string, tables: Tables, page: nat, size: nat)

  datatype Phase =
    | Asking(request: Request)
    | Calling(request: Request)
    | Storing(request: Request, generation: Generation)
    | Ready(request: Request, result: Option<Generation>)
    | Finished

  datatype Answer = Answer(session: string, question: string, generation: Generation, time: int)

  /** A cache hit; after counts the stores made before it. */
  datatype HitRecord = HitRecord(session: string, question: string, generation: Generation, time: int, after: nat)

  /** What was sent to the database for which request. */
  datatype Execution = Execution(id: nat, generation: Generation, text: string)

  /** asked holds every request as it began, stores every write of the cache. */
  datatype World = World(
    cache: Cache, now: int, asked: map<nat, Request>, procs: map<nat, Phase>, answers: seq<Answer>,
    stores: seq<Put<Generation>>, hits: seq<HitRecord>, executed: seq<Execution>)

  datatype Event =
    | Begin(id: nat, request: Request, time: int)
    | Lookup(id: nat, time: int)
    | Provide(id: nat, answer: Option<Generation>, time: int)
    | Store(id: nat, time: int)
    | Execute(id: nat, time: int)

  predicate Enabled(w: World, e: Event) {
    && w.now <= e.time
    && match e
       case Begin(id, r, _) => id !in w.procs && id !in w.asked && NoColon(r.session) && r.page >= 1
       case Lookup(id, _) => id in w.procs && w.procs[id].Asking?
       case Provide(id, _, _) => id in w.procs && w.procs[id].Calling?
       case Store(id, _) => id in w.procs && w.procs[id].Storing?
       case Execute(id, _) => id in w.procs && w.procs[id].Ready? && w.procs[id].request.page >= 1
  }

  ghost function Step(w: World, e: Event): World
    requires Enabled(w, e)
  {
    match e
    case Begin(id, r, t) => w.(now := t, asked := w.asked[id := r], procs := w.procs[id := Asking(r)])
    case Lookup(id, t) =>
      var r := w.procs[id].request;
      var cached := Get(w.cache, CacheKey(r.question, r.session), t);
      if cached.Some? then
        var hit := HitRecord(r.session, r.question, cached.value.(cacheHit := true), t, |w.stores|);
        w.(now := t, procs := w.procs[id := Ready(r, Some(hit.generation))], hits := w.hits + [hit])
      else w.(now := t, procs := w.procs[id := Calling(r)])
    case Provide(id, a, t) =>
      var r := w.procs[id].request;
      if a.Some? then
        w.(now := t, procs := w.procs[id := Storing(r, a.value.(cacheHit := false))],
           answers := w.answers + [Answer(r.session, r.question, a.value, t)])
      else w.(now := t, procs := w.procs[id := Ready(r, None)])
    case Store(id, t) =>
      var p := w.procs[id];
      var put := Put(CacheKey(p.request.question, p.request.session), p.generation, t);
      w.(now := t, cache := Set(w.cache, put, TTL), stores := w.stores + [put],
         procs := w.procs[id := Ready(p.request, Some(p.generation))])
    case Execute(id, t) =>
      var p := w.procs[id];
      var sql := Statement(p.result);
      var v := w.(now := t, procs := w.procs[id := Finished]);
      if sql != "" && Passes(ServiceGate(), sql, p.request.tables) then
        v.(executed := w.executed + [Execution(id, p.result.value, Paginated(sql, p.request.page, p.request.size))])
      else v
  }

  ghost predicate Legal(w: World, es: seq<Event>)
    decreases |es|
  {
    es == [] || (Enabled(w, es[0]) && Legal(Step(w, es[0]), es[1..]))
  }

  ghost function Run(w: World, es: seq<Event>): World
    requires Legal(w, es)
    decreases |es|
  {
    if es == [] then w else Run(Step(w, es[0]), es[1..])
  }

  function Start(now: int): World {
    World(map[], now, map[], map[], [], [], [], [])
  }

  /** The steps of one call with nothing in between. */
  function Calls(cache: Cache, id: nat, r: Request, answer: Option<Generation>, asked: int, answered: int): seq<Event> {
    if Get(cache, CacheKey(r.question, r.session), asked).Some? then [Lookup(id, asked)]
    else if answer.Some? then [Lookup(id, asked), Provide(id, answer, answered), Store(id, answered)]
    else [Lookup(id, asked), Provide(id, answer, answered)]
  }

  lemma OneStep(w: World, e: Event)
    requires Enabled(w, e)
    ensures Legal(w, [e]) && Run(w, [e]) == Step(w, e)
  {
    assert [e][1..] == [];
  }

  lemma FirstStep(w: World, e: Event, es: seq<Event>)
    requires Enabled(w, e) && Legal(Step(w, e), es)
    ensures Legal(w, [e] + es) && Run(w, [e] + es) == Run(Step(w, e), es)
  {
    assert ([e] + es)[1..] == es;
  }

  /** The run steps of a call nobody interrupts do to the cache, and give, what generate_sql does. */
  lemma GenerateSqlIsRun(
      w: World, id: nat, gemini: Option<Generation>, huggingface: Option<Generation>, asked: int, answered: int)
    requires id in w.procs && w.procs[id].Asking? && w.now <= asked <= answered
    ensures var r := w.procs[id].request;
      var es := Calls(w.cache, id, r, FirstAnswer(gemini, huggingface), asked, answered);
      && Legal(w, es) && id in Run(w, es).procs
      && Run(w, es).cache == Remembered(w.cache, r.question, r.session, gemini, huggingface, asked, answered)
      && Run(w, es).procs[id] == Ready(r, Generated(w.cache, r.question, r.session, gemini, huggingface, asked))
  {
    var r, answer := w.procs[id].request, FirstAnswer(gemini, huggingface);
    var v := Step(w, Lookup(id, asked));
    if Get(w.cache, CacheKey(r.question, r.session), asked).Some? {
      OneStep(w, Lookup(id, asked));
    } else {
      var u := Step(v, Provide(id, answer, answered));
      if answer.Some? {
        OneStep(u, Store(id, answered));
        FirstStep(v, Provide(id, answer, answered), [Store(id, answered)]);
        FirstStep(w, Lookup(id, asked), [Provide(id, answer, answered)] + [Store(id, answered)]);
      } else {
        OneStep(v, Provide(id, answer, answered));
        FirstStep(w, Lookup(id, asked), [Provide(id, answer, answered)]);
      }
    }
  }

  /** The last step of a call sends what ask_query sends for the same result, and nothing else. */
  lemma ExecuteIsAsk(w: World, id: nat, r: Request, result: Option<Generation>, t: int)
    requires id in w.procs && w.procs[id] == Ready(r, result) && r.page >= 1 && w.now <= t
    ensures Enabled(w, Execute(id, t))
    ensures var sent := Step(w, Execute(id, t)).executed;
      if Statement(result) != "" && Passes(ServiceGate(), Statement(result), r.tables)
      then sent == w.executed + [Execution(id, result.value, Paginated(Statement(result), r.page, r.size))]
      else sent == w.executed
  {
  }

  /** A provider gave this result, cache_hit aside, for this session and question no later than `before`. */
  ghost predicate Provided(w: World, session: string, question: string, g: Generation, before: int) {
    exists i :: 0 <= i < |w.answers| && Gives(w.answers[i], session, question, g, before)
  }

  predicate Gives(a: Answer, session: string, question: string, g: Generation, before: int) {
    && a.session == session && a.question == question && a.time <= before
    && a.generation.(cacheHit := false) == g.(cacheHit := false)
  }

  /** What a store wrote was a provider's result for the session and question its key names. */
  ghost predicate StoreHonest(w: World, p: Put<Generation>) {
    && p.time <= w.now && !p.value.cacheHit
    && forall s, q :: NoColon(s) && CacheKey(q, s) == p.key ==> Provided(w, s, q, p.value, p.time)
  }

  ghost predicate ProcHonest(w: World, id: nat, p: Phase) {
    && id in w.asked && NoColon(w.asked[id].session) && w.asked[id].page >= 1
    && (p.Finished? || p.request == w.asked[id])
    && (p.Storing? ==>
          !p.generation.cacheHit && Provided(w, p.request.session, p.request.question, p.generation, w.now))
    && (p.Ready? && p.result.Some? ==> Provided(w, p.request.session, p.request.question, p.result.value, w.now))
  }

  /**
   * A hit repeats the last store that was made for its session and question before it, with only
   * cache_hit changed; that store is younger than the TTL and wrote what a provider had answered.
   */
  ghost predicate HitHonest(w: World, h: HitRecord) {
    && h.after <= |w.stores| && h.time <= w.now
    && (forall k :: h.after <= k < |w.stores| ==> h.time <= w.stores[k].time)
    && var last := LastPut(w.stores[..h.after], CacheKey(h.question, h.session));
    && last.Some? && h.time - TTL < last.value.time <= h.time
    && h.generation == last.value.value.(cacheHit := true)
    && Provided(w, h.session, h.question, last.value.value, last.value.time)
  }

  /**
   * What was executed is a provider's statement, and both it and the text sent pass on the schema the request
   * began with.
   */
  ghost predicate ExecutionSafe(w: World, x: Execution) {
    && x.id in w.asked && w.asked[x.id].page >= 1
    && var r, sql := w.asked[x.id], Statement(Some(x.generation));
    && Provided(w, r.session, r.question, x.generation, w.now)
    && x.text == Paginated(sql, r.page, r.size)
    && Passes(ServiceGate(), sql, r.tables) && Passes(ServiceGate(), x.text, r.tables)
  }

  ghost predicate Inv(w: World) {
    && Explained(w.cache, w.stores, TTL)
    && (forall i :: 0 <= i < |w.stores| ==> StoreHonest(w, w.stores[i]))
    && (forall id :: id in w.procs ==> ProcHonest(w, id, w.procs[id]))
    && (forall i :: 0 <= i < |w.hits| ==> HitHonest(w, w.hits[i]))
    && (forall i :: 0 <= i < |w.executed| ==> ExecutionSafe(w, w.executed[i]))
  }

  lemma KeyInjective(s: string, q: string, t: string, r: string)
    requires NoColon(s) && NoColon(t) && CacheKey(q, s) == CacheKey(r, t)
    ensures s == t && q == r
  {
    ColonInjective(s, q, t, r);
  }

  /** v comes after w: more answers, requests and stores, the new stores not before now. */
  ghost predicate Follows(w: World, v: World) {
    && w.now <= v.now && w.answers <= v.answers && w.stores <= v.stores
    && (forall id :: id in w.asked ==> id in v.asked && v.asked[id] == w.asked[id])
    && (forall k :: |w.stores| <= k < |v.stores| ==> w.now <= v.stores[k].time)
  }

  lemma ProcStays(w: World, v: World, id: nat, p: Phase)
    requires Follows(w, v) && ProcHonest(w, id, p)
    ensures ProcHonest(v, id, p)
  {
    if p.Storing? {
    } else if p.Ready? && p.result.Some? {
    }
  }

  lemma HitStays(w: World, v: World, h: HitRecord)
    requires Follows(w, v) && HitHonest(w, h)
    ensures HitHonest(v, h)
  {
    assert v.stores[..h.after] == w.stores[..h.after];
    var last := LastPut(w.stores[..h.after], CacheKey(h.question, h.session)).value;
    forall k | h.after <= k < |v.stores| ensures h.time <= v.stores[k].time {
      assert k < |w.stores| ==> v.stores[k] == w.stores[k];
    }
  }

  lemma ExecutionStays(w: World, v: World, x: Execution)
    requires Follows(w, v) && ExecutionSafe(w, x)
    ensures ExecutionSafe(v, x)
  {
    var r := w.asked[x.id];
  }

  /** What was true of the records stays true; what is new has to be shown. */
  lemma RecordsStay(w: World, v: World)
    requires Inv(w) && Follows(w, v)
    ensures forall i :: 0 <= i < |w.stores| ==> StoreHonest(v, v.stores[i])
    ensures forall id :: id in w.procs ==> ProcHonest(v, id, w.procs[id])
    ensures forall i :: 0 <= i < |w.hits| ==> HitHonest(v, w.hits[i])
    ensures forall i :: 0 <= i < |w.executed| ==> ExecutionSafe(v, w.executed[i])
  {
    forall i | 0 <= i < |w.stores| ensures StoreHonest(v, v.stores[i]) {
      assert v.stores[i] == w.stores[i];
    }
    forall id | id in w.procs ensures ProcHonest(v, id, w.procs[id]) {
      ProcStays(w, v, id, w.procs[id]);
    }
    forall i | 0 <= i < |w.hits| ensures HitHonest(v, w.hits[i]) {
      HitStays(w, v, w.hits[i]);
    }
    forall i | 0 <= i < |w.executed| ensures ExecutionSafe(v, w.executed[i]) {
      ExecutionStays(w, v, w.executed[i]);
    }
  }

  lemma LookupKeepsInv(w: World, id: nat, t: int)
    requires Inv(w) && Enabled(w, Lookup(id, t))
    ensures Inv(Step(w, Lookup(id, t)))
  {
    var v, r := Step(w, Lookup(id, t)), w.procs[id].request;
    var key := CacheKey(r.question, r.session);
    assert ProcHonest(w, id, w.procs[id]);
    RecordsStay(w, v);
    GetIsLastPut(w.cache, w.stores, TTL, key, t);
    if Get(w.cache, key, t).Some? {
      var last := LastPut(w.stores, key).value;
      assert w.stores[..|w.stores|] == w.stores;
      var i :| 0 <= i < |w.stores| && w.stores[i] == last;
      assert StoreHonest(w, w.stores[i]);
      assert HitHonest(v, v.hits[|w.hits|]);
      ProvidedSame(v, r.session, r.question, last.value, last.value.(cacheHit := true), t);
    }
  }

  lemma ProvidedSame(w: World, s: string, q: string, g: Generation, h: Generation, before: int)
    requires Provided(w, s, q, g, before) && g.(cacheHit := false) == h.(cacheHit := false)
    ensures Provided(w, s, q, h, before)
  {
    var i :| 0 <= i < |w.answers| && Gives(w.answers[i], s, q, g, before);
    assert Gives(w.answers[i], s, q, h, before);
  }

  lemma ProvideKeepsInv(w: World, id: nat, a: Option<Generation>, t: int)
    requires Inv(w) && Enabled(w, Provide(id, a, t))
    ensures Inv(Step(w, Provide(id, a, t)))
  {
    var r := w.procs[id].request;
    assert ProcHonest(w, id, w.procs[id]);
    if a.Some? {
      AnswerKeepsInv(w, id, r, a.value, t);
    } else {
      RecordsStay(w, w.(now := t, procs := w.procs[id := Ready(r, None)]));
    }
  }

  lemma AnswerKeepsInv(w: World, id: nat, r: Request, g: Generation, t: int)
    requires Inv(w) && w.now <= t && id in w.procs && ProcHonest(w, id, Calling(r))
    ensures Inv(w.(now := t, procs := w.procs[id := Storing(r, g.(cacheHit := false))],
                   answers := w.answers + [Answer(r.session, r.question, g, t)]))
  {
    var v := w.(now := t, procs := w.procs[id := Storing(r, g.(cacheHit := false))],
                answers := w.answers + [Answer(r.session, r.question, g, t)]);
    RecordsStay(w, v);
    assert Gives(v.answers[|w.answers|], r.session, r.question, g.(cacheHit := false), t);
  }

  lemma BeginKeepsInv(w: World, id: nat, r: Request, t: int)
    requires Inv(w) && Enabled(w, Begin(id, r, t))
    ensures Inv(Step(w, Begin(id, r, t)))
  {
    RecordsStay(w, Step(w, Begin(id, r, t)));
  }

  lemma StoreKeepsInv(w: World, id: nat, t: int)
    requires Inv(w) && Enabled(w, Store(id, t))
    ensures Inv(Step(w, Store(id, t)))
  {
    var v, p := Step(w, Store(id, t)), w.procs[id];
    var put := v.stores[|w.stores|];
    assert ProcHonest(w, id, p);
    RecordsStay(w, v);
    SetKeepsExplained(w.cache, w.stores, put, TTL);
    forall s, q | NoColon(s) && CacheKey(q, s) == put.key ensures Provided(v, s, q, put.value, put.time) {
      KeyInjective(s, q, p.request.session, p.request.question);
    }
    assert StoreHonest(v, put);
  }

  function Closed(w: World, id: nat, t: int, xs: seq<Execution>): World {
    w.(now := t, procs := w.procs[id := Finished], executed := w.executed + xs)
  }

  lemma ClosingKeepsInv(w: World, id: nat, t: int, xs: seq<Execution>)
    requires Inv(w) && id in w.procs && w.now <= t
    requires forall i :: 0 <= i < |xs| ==> ExecutionSafe(Closed(w, id, t, xs), xs[i])
    ensures Inv(Closed(w, id, t, xs))
  {
    assert ProcHonest(w, id, w.procs[id]);
    RecordsStay(w, Closed(w, id, t, xs));
  }

  lemma ExecutionIsSafe(w: World, x: Execution)
    requires x.id in w.asked && w.asked[x.id].page >= 1
    requires var r := w.asked[x.id];
      && Provided(w, r.session, r.question, x.generation, w.now)
      && Passes(ServiceGate(), Statement(Some(x.generation)), r.tables)
      && x.text == Paginated(Statement(Some(x.generation)), r.page, r.size)
    ensures ExecutionSafe(w, x)
  {
    var r := w.asked[x.id];
    AcceptedStaysAccepted(Statement(Some(x.generation)), r.page, r.size, r.tables);
  }

  /** The statement of a ready request, executed on its own schema if it passes there. */
  lemma ReadyIsSafe(w: World, id: nat, p: Phase, t: int, x: Execution)
    requires Inv(w) && id in w.procs && w.procs[id] == p && p.Ready? && p.result.Some? && w.now <= t
    requires x == Execution(id, p.result.value, Paginated(Statement(p.result), p.request.page, p.request.size))
    requires Passes(ServiceGate(), Statement(p.result), p.request.tables)
    ensures ExecutionSafe(Closed(w, id, t, [x]), x)
  {
    assert ProcHonest(w, id, p);
    var v := Closed(w, id, t, [x]);
    ExecutionIsSafe(v, x);
  }

  lemma ExecuteKeepsInv(w: World, id: nat, t: int)
    requires Inv(w) && Enabled(w, Execute(id, t))
    ensures Inv(Step(w, Execute(id, t)))
  {
    var p := w.procs[id];
    var sql := Statement(p.result);
    if sql != "" && Passes(ServiceGate(), sql, p.request.tables) {
      var x := Execution(id, p.result.value, Paginated(sql, p.request.page, p.request.size));
      ReadyIsSafe(w, id, p, t, x);
      ClosingKeepsInv(w, id, t, [x]);
    } else {
      ClosingKeepsInv(w, id, t, []);
      assert w.executed + [] == w.executed;
    }
  }

  lemma StepKeepsInv(w: World, e: Event)
    requires Inv(w) && Enabled(w, e)
    ensures Inv(Step(w, e))
  {
    match e
    case Begin(id, r, t) => BeginKeepsInv(w, id, r, t);
    case Lookup(id, t) => LookupKeepsInv(w, id, t);
    case Provide(id, a, t) => ProvideKeepsInv(w, id, a, t);
    case Store(id, t) => StoreKeepsInv(w, id, t);
    case Execute(id, t) => ExecuteKeepsInv(w, id, t);
  }

  lemma {:induction false} RunKeepsInv(w: World, es: seq<Event>)
    requires Inv(w) && Legal(w, es)
    ensures Inv(Run(w, es))
    decreases |es|
  {
    if es == [] {
    } else {
      StepKeepsInv(w, es[0]);
      RunKeepsInv(Step(w, es[0]), es[1..]);
    }
  }

  /**
   * After any run the next look-up hits exactly when the last store for its session and question,
   * if there was one, is younger than the TTL, and then it finds what that store wrote.
   */
  lemma HitIffFresh(start: int, es: seq<Event>, session: string, question: string, now: int)
    requires Legal(Start(start), es)
    ensures var w := Run(Start(start), es); var last := LastPut(w.stores, CacheKey(question, session));
      Get(w.cache, CacheKey(question, session), now)
        == if last.Some? && now - last.value.time < TTL then Some(last.value.value) else None
  {
    RunKeepsInv(Start(start), es);
    var w := Run(Start(start), es);
    GetIsLastPut(w.cache, w.stores, TTL, CacheKey(question, session), now);
  }

  /**
   * In every interleaved run a hit is the last store for its session and question, younger than the TTL, and a
   * provider's result.
   */
  lemma HitsAreAnswers(start: int, es: seq<Event>, i: nat)
    requires Legal(Start(start), es) && i < |Run(Start(start), es).hits|
    ensures HitHonest(Run(Start(start), es), Run(Start(start), es).hits[i])
  {
    RunKeepsInv(Start(start), es);
  }

  /**
   * What was ever stored was answered by a provider for the session and question of its key: failures are never
   * stored.
   */
  lemma OnlyAnswersAreStored(start: int, es: seq<Event>, i: nat, session: string, question: string)
    requires Legal(Start(start), es) && i < |Run(Start(start), es).stores| && NoColon(session)
    requires CacheKey(question, session) == Run(Start(start), es).stores[i].key
    ensures var w := Run(Start(start), es); var p := w.stores[i];
      !p.value.cacheHit && Provided(w, session, question, p.value, p.time)
  {
    RunKeepsInv(Start(start), es);
    var w := Run(Start(start), es);
    assert StoreHonest(w, w.stores[i]);
  }

  /**
   * Every executed text, cached or fresh, passed the gate on the schema its request began with, before and after
   * it was wrapped.
   */
  lemma ExecutedPassedGate(start: int, es: seq<Event>, i: nat)
    requires Legal(Start(start), es) && i < |Run(Start(start), es).executed|
    ensures ExecutionSafe(Run(Start(start), es), Run(Start(start), es).executed[i])
  {
    RunKeepsInv(Start(start), es);
  }
}
