/** MergedService: merge a SWAPI character with its closest Pokémon, persist records in the
    "Merged" table, and page through them. */
module Merged {
  import opened Wrappers
  import opened Http
  import opened Json
  import Cache
  import Swapi
  import Pokeapi

  const Collection := "Merged"
  const HistoryIndex := "dummy-timestamp-index"
  /** The constant `dummy` value every record carries, the partition key of the history index. */
  const Discriminator := "record"
  const MergePrefix := "Error fusionando personajes: "
  const CreatePrefix := "Error al crear el personaje: "
  const HistoryPrefix := "No se pudo obtener el historial: "

  /** The matched creature as the JSON object stored under `matching_pokemon`. */
  function PokemonValue(p: Pokeapi.Pokemon): Value
  {
    Obj(map["name" := Str(p.name), "height" := Num(p.height), "weight" := Num(p.weight),
            "type" := Str(p.typeList)])
  }

  /** The fetched character after `characterData.matching_pokemon = matchingPokemon`, which only
      happens when the matcher found something. */
  function WithMatch(c: Record, m: Option<Pokeapi.Pokemon>): Record
  {
    match m
    case None => c
    case Some(p) => c["matching_pokemon" := PokemonValue(p)]
  }

  /** Without a match the record is untouched; with one it gains `matching_pokemon` (the name,
      height, weight and type of the creature) and keeps every other key. */
  lemma WithMatchFields(c: Record, m: Option<Pokeapi.Pokemon>)
    ensures m.None? ==> WithMatch(c, m) == c
    ensures m.Some? ==>
      && WithMatch(c, m).Keys == c.Keys + {"matching_pokemon"}
      && WithMatch(c, m)["matching_pokemon"].Obj?
      && WithMatch(c, m)["matching_pokemon"].fields.Keys == {"name", "height", "weight", "type"}
      && WithMatch(c, m)["matching_pokemon"].fields["name"] == Str(m.value.name)
      && WithMatch(c, m)["matching_pokemon"].fields["height"] == Num(m.value.height)
      && WithMatch(c, m)["matching_pokemon"].fields["weight"] == Num(m.value.weight)
      && WithMatch(c, m)["matching_pokemon"].fields["type"] == Str(m.value.typeList)
    ensures forall k | k in c && k != "matching_pokemon" :: k in WithMatch(c, m) && WithMatch(c, m)[k] == c[k]
  {
  }

  /** `{ id: randomUUID(), ...characterData, dummy: "record", timestamp: Date.now() }`: the input's
      own `id` survives the spread, while `dummy` and `timestamp` always take the new values. */
  function NewRecord(characterData: Record, uuid: string, now: int): Record
  {
    map["id" := Str(uuid)] + characterData + map["dummy" := Str(Discriminator), "timestamp" := Num(now as real)]
  }

  /** The record holds the input's keys plus `id`, `dummy` and `timestamp`; the generated id is
      used only when the input has none; `dummy` is "record" and `timestamp` is `now` whatever
      the input said; every other field keeps its input value. */
  lemma NewRecordFields(characterData: Record, uuid: string, now: int)
    ensures NewRecord(characterData, uuid, now).Keys == characterData.Keys + {"id", "dummy", "timestamp"}
    ensures NewRecord(characterData, uuid, now)["id"] ==
      if "id" in characterData then characterData["id"] else Str(uuid)
    ensures NewRecord(characterData, uuid, now)["dummy"] == Str(Discriminator)
    ensures NewRecord(characterData, uuid, now)["timestamp"] == Num(now as real)
    ensures forall k | k in characterData && k != "id" && k != "dummy" && k != "timestamp" ::
      NewRecord(characterData, uuid, now)[k] == characterData[k]
  {
  }

  /** A row of the "Merged" table as `createCharacter` writes it. */
  ghost predicate IsMergedRow(rec: Record)
  {
    "id" in rec && "dummy" in rec && rec["dummy"] == Str(Discriminator) && "timestamp" in rec && rec["timestamp"].Num?
  }

  /** The calls `mergeCharacters` makes on its collaborators, in order. */
  datatype Step =
    | ReadCache(id: string)
    | FetchCharacter(id: string)
    | FindMatch(character: Record)
    | WriteCache(id: string, data: Record)
    | Persist(item: Record)

  /** The messages the three store commands throw, when they fail. */
  datatype StoreFaults = StoreFaults(cacheRead: Option<string>, cacheWrite: Option<string>, put: Option<string>)

  /** What createCharacter(characterData) settles to over the table `table`, with `randomUUID()`
      = `uuid`, `Date.now()` = `now` and `fault` the message a failing put throws: the new record
      both returned and appended, or the prefixed error and the table as it was. */
  function Create(table: seq<Record>, characterData: Record, uuid: string, now: int, fault: Option<string>)
    : (Result<Record>, seq<Record>)
  {
    match fault
    case None => (Ok(NewRecord(characterData, uuid, now)), table + [NewRecord(characterData, uuid, now)])
    case Some(f) => (Err(Wrap(CreatePrefix, Plain(f))), table)
  }

  /** Everything one mergeCharacters call does: its result, the calls it made, and the cache rows
      and "Merged" table it leaves. */
  datatype Effect = Effect(result: Result<Record>, trace: seq<Step>, rows: map<string, Cache.Row>, table: seq<Record>)

  /** mergeCharacters(characterId) from cache rows `rows` and table `table`. `fetchPerson` answers
      SWAPI requests by URL, `findMatch` is what findMatchingPokemon settles to for a character,
      `uuid` and `now` are what `randomUUID()` and `Date.now()` return, `faults` the failing store
      commands. Every failure is rethrown once with the merge prefix. */
  function Merge(rows: map<string, Cache.Row>, table: seq<Record>, characterId: string, now: int, uuid: string,
                 fetchPerson: string -> Response<Record>,
                 findMatch: Record -> Result<Option<Pokeapi.Pokemon>>,
                 faults: StoreFaults): Effect
  {
    if faults.cacheRead.Some? then
      Effect(Err(Wrap(MergePrefix, Wrap(Cache.GetPrefix, Plain(faults.cacheRead.value)))),
             [ReadCache(characterId)], rows, table)
    else match Cache.Lookup(rows, characterId, now)
    case Some(c) =>
      var (created, table') := Create(table, c, uuid, now, faults.put);
      Effect(Rethrow(MergePrefix, created), [ReadCache(characterId), Persist(NewRecord(c, uuid, now))], rows, table')
    case None =>
      match Swapi.Outcome(characterId, fetchPerson(Swapi.PersonUrl(characterId)))
      case Err(e) =>
        Effect(Err(Wrap(MergePrefix, e)), [ReadCache(characterId), FetchCharacter(characterId)], rows, table)
      case Ok(c) =>
        match findMatch(c)
        case Err(e) =>
          Effect(Err(Wrap(MergePrefix, e)), [ReadCache(characterId), FetchCharacter(characterId), FindMatch(c)], rows, table)
        case Ok(m) =>
          var c' := WithMatch(c, m);
          var steps := [ReadCache(characterId), FetchCharacter(characterId), FindMatch(c), WriteCache(characterId, c')];
          match faults.cacheWrite
          case Some(f) =>
            Effect(Err(Wrap(MergePrefix, Wrap(Cache.PutPrefix, Plain(f)))), steps, rows, table)
          case None =>
            var (created, table') := Create(table, c', uuid, now, faults.put);
            Effect(Rethrow(MergePrefix, created), steps + [Persist(NewRecord(c', uuid, now))],
                   Cache.Stored(rows, characterId, c', now), table')
  }

  /** A hit sends the cached record straight to createCharacter: neither client is called and
      the cache is not written. */
  lemma HitSkipsClients(rows: map<string, Cache.Row>, table: seq<Record>, characterId: string, now: int,
                        uuid: string, fetchPerson: string -> Response<Record>,
                        findMatch: Record -> Result<Option<Pokeapi.Pokemon>>, faults: StoreFaults)
    requires faults.cacheRead.None? && Cache.Lookup(rows, characterId, now).Some?
    ensures var e := Merge(rows, table, characterId, now, uuid, fetchPerson, findMatch, faults);
      var c := Cache.Lookup(rows, characterId, now).value;
      && e.trace == [ReadCache(characterId), Persist(NewRecord(c, uuid, now))]
      && e.rows == rows
      && e.result == Rethrow(MergePrefix, Create(table, c, uuid, now, faults.put).0)
  {
  }

  /** A miss in which every call succeeds runs: read the cache, fetch by id, match the fetched
      record, cache the (possibly matched) record under the same id, persist it. */
  lemma MissOrder(rows: map<string, Cache.Row>, table: seq<Record>, characterId: string, now: int,
                  uuid: string, fetchPerson: string -> Response<Record>,
                  findMatch: Record -> Result<Option<Pokeapi.Pokemon>>)
    requires Cache.Lookup(rows, characterId, now).None?
    requires fetchPerson(Swapi.PersonUrl(characterId)).Okay?
    requires findMatch(Swapi.Stripped(fetchPerson(Swapi.PersonUrl(characterId)).body)).Ok?
    ensures var c := Swapi.Stripped(fetchPerson(Swapi.PersonUrl(characterId)).body);
      var c' := WithMatch(c, findMatch(c).value);
      var e := Merge(rows, table, characterId, now, uuid, fetchPerson, findMatch, StoreFaults(None, None, None));
      && e.trace == [ReadCache(characterId), FetchCharacter(characterId), FindMatch(c),
                     WriteCache(characterId, c'), Persist(NewRecord(c', uuid, now))]
      && e.rows == Cache.Stored(rows, characterId, c', now)
      && e.table == table + [NewRecord(c', uuid, now)]
      && e.result == Ok(NewRecord(c', uuid, now))
  {
  }

  /** One merge adds at most one row: on success exactly the record it returns, tagged with the
      discriminator; on failure none. */
  lemma MergeAppendsResult(rows: map<string, Cache.Row>, table: seq<Record>, characterId: string, now: int,
                           uuid: string, fetchPerson: string -> Response<Record>,
                           findMatch: Record -> Result<Option<Pokeapi.Pokemon>>, faults: StoreFaults)
    ensures var e := Merge(rows, table, characterId, now, uuid, fetchPerson, findMatch, faults);
      && (e.result.Ok? ==> e.table == table + [e.result.value] && e.result.value["dummy"] == Str(Discriminator))
      && (e.result.Err? ==> e.table == table)
  {
    if faults.cacheRead.None? {
      match Cache.Lookup(rows, characterId, now)
      case Some(c) =>
        NewRecordFields(c, uuid, now);
      case None =>
        var response := fetchPerson(Swapi.PersonUrl(characterId));
        if response.Okay? && findMatch(Swapi.Stripped(response.body)).Ok? {
          var c := Swapi.Stripped(response.body);
          NewRecordFields(WithMatch(c, findMatch(c).value), uuid, now);
        }
    }
  }

  /** Whatever fails inside a merge, the caller sees one plain error whose message is the merge
      prefix followed by the inner message (a not-found from SWAPI included). */
  lemma MergeErrorsWrapped(rows: map<string, Cache.Row>, table: seq<Record>, characterId: string, now: int,
                           uuid: string, fetchPerson: string -> Response<Record>,
                           findMatch: Record -> Result<Option<Pokeapi.Pokemon>>, faults: StoreFaults)
    ensures var e := Merge(rows, table, characterId, now, uuid, fetchPerson, findMatch, faults);
      e.result.Err? ==> e.result.error.Plain? && MergePrefix <= e.result.error.message
  {
  }

  /** On a miss, a failing client call reaches the caller with the merge prefix in front of the
      client's own message: a thrown fetch's message, SWAPI's not-found text (now a plain error),
      or the matcher's message. */
  lemma MergeClientErrors(rows: map<string, Cache.Row>, table: seq<Record>, characterId: string, now: int,
                          uuid: string, fetchPerson: string -> Response<Record>,
                          findMatch: Record -> Result<Option<Pokeapi.Pokemon>>, faults: StoreFaults)
    requires faults.cacheRead.None? && Cache.Lookup(rows, characterId, now).None?
    ensures var e := Merge(rows, table, characterId, now, uuid, fetchPerson, findMatch, faults);
      var response := fetchPerson(Swapi.PersonUrl(characterId));
      && (response.Threw? ==> e.result == Err(Plain(MergePrefix + response.message)))
      && (response.NotOk? ==> e.result == Err(Plain(MergePrefix + Swapi.NotFoundMessage(characterId))))
      && (response.Okay? && findMatch(Swapi.Stripped(response.body)).Err? ==>
            e.result == Err(Plain(MergePrefix + findMatch(Swapi.Stripped(response.body)).error.message)))
  {
  }

  /** A failing store command reaches the caller with the merge prefix in front of the store
      service's own prefix and the store's message. */
  lemma MergeStoreErrors(rows: map<string, Cache.Row>, table: seq<Record>, characterId: string, now: int,
                         uuid: string, fetchPerson: string -> Response<Record>,
                         findMatch: Record -> Result<Option<Pokeapi.Pokemon>>, faults: StoreFaults)
    ensures var e := Merge(rows, table, characterId, now, uuid, fetchPerson, findMatch, faults);
      var response := fetchPerson(Swapi.PersonUrl(characterId));
      var reached := faults.cacheRead.None? &&
        (Cache.Lookup(rows, characterId, now).Some? ||
         (response.Okay? && findMatch(Swapi.Stripped(response.body)).Ok? && faults.cacheWrite.None?));
      && (faults.cacheRead.Some? ==> e.result == Err(Plain(MergePrefix + Cache.GetPrefix + faults.cacheRead.value)))
      && (faults.cacheRead.None? && Cache.Lookup(rows, characterId, now).None? && response.Okay? &&
          findMatch(Swapi.Stripped(response.body)).Ok? && faults.cacheWrite.Some? ==>
            e.result == Err(Plain(MergePrefix + Cache.PutPrefix + faults.cacheWrite.value)))
      && (reached && faults.put.Some? ==> e.result == Err(Plain(MergePrefix + CreatePrefix + faults.put.value)))
  {
    if faults.cacheRead.Some? {
      assert MergePrefix + (Cache.GetPrefix + faults.cacheRead.value) == MergePrefix + Cache.GetPrefix + faults.cacheRead.value;
    }
    if faults.cacheWrite.Some? {
      assert MergePrefix + (Cache.PutPrefix + faults.cacheWrite.value) == MergePrefix + Cache.PutPrefix + faults.cacheWrite.value;
    }
    if faults.put.Some? {
      assert MergePrefix + (CreatePrefix + faults.put.value) == MergePrefix + CreatePrefix + faults.put.value;
    }
  }

  /** A hit on a cached record that carries an `id` persists that id, whatever `randomUUID()`
      returned: the spread comes after the generated id. */
  lemma CachedIdIsKept(rows: map<string, Cache.Row>, table: seq<Record>, characterId: string, now: int,
                       uuid: string, fetchPerson: string -> Response<Record>,
                       findMatch: Record -> Result<Option<Pokeapi.Pokemon>>)
    requires Cache.Lookup(rows, characterId, now).Some?
    requires "id" in Cache.Lookup(rows, characterId, now).value
    ensures var e := Merge(rows, table, characterId, now, uuid, fetchPerson, findMatch, StoreFaults(None, None, None));
      e.result.Ok? && e.result.value["id"] == Cache.Lookup(rows, characterId, now).value["id"]
  {
    NewRecordFields(Cache.Lookup(rows, characterId, now).value, uuid, now);
  }

  /** No cached record carries an `id` key. */
  ghost predicate NoCachedIds(rows: map<string, Cache.Row>)
  {
    forall k | k in rows :: "id" !in rows[k].data
  }

  /** Merging the same id twice adds two rows. When neither the cache nor SWAPI supplies an `id`,
      each row carries its own generated id, so two different UUIDs give two different ids. */
  lemma {:induction false} TwoMergesAddTwoRows(rows: map<string, Cache.Row>, table: seq<Record>, characterId: string,
                                               now1: int, uuid1: string, now2: int, uuid2: string,
                                               fetchPerson: string -> Response<Record>,
                                               findMatch: Record -> Result<Option<Pokeapi.Pokemon>>)
    requires NoCachedIds(rows)
    requires fetchPerson(Swapi.PersonUrl(characterId)).Okay? ==> "id" !in fetchPerson(Swapi.PersonUrl(characterId)).body
    ensures var faults := StoreFaults(None, None, None);
      var e1 := Merge(rows, table, characterId, now1, uuid1, fetchPerson, findMatch, faults);
      var e2 := Merge(e1.rows, e1.table, characterId, now2, uuid2, fetchPerson, findMatch, faults);
      e1.result.Ok? && e2.result.Ok? ==>
        && e2.table == table + [e1.result.value, e2.result.value]
        && e1.result.value["id"] == Str(uuid1)
        && e2.result.value["id"] == Str(uuid2)
  {
    var faults := StoreFaults(None, None, None);
    var e1 := Merge(rows, table, characterId, now1, uuid1, fetchPerson, findMatch, faults);
    MergeKeepsNoIds(rows, table, characterId, now1, uuid1, fetchPerson, findMatch);
    MergeKeepsNoIds(e1.rows, e1.table, characterId, now2, uuid2, fetchPerson, findMatch);
  }

  /** Under the same conditions, one merge persists its own UUID and caches no `id`. */
  lemma MergeKeepsNoIds(rows: map<string, Cache.Row>, table: seq<Record>, characterId: string,
                        now: int, uuid: string,
                        fetchPerson: string -> Response<Record>,
                        findMatch: Record -> Result<Option<Pokeapi.Pokemon>>)
    requires NoCachedIds(rows)
    requires fetchPerson(Swapi.PersonUrl(characterId)).Okay? ==> "id" !in fetchPerson(Swapi.PersonUrl(characterId)).body
    ensures var e := Merge(rows, table, characterId, now, uuid, fetchPerson, findMatch, StoreFaults(None, None, None));
      && NoCachedIds(e.rows)
      && (e.result.Ok? ==> e.table == table + [e.result.value] && e.result.value["id"] == Str(uuid))
  {
    var e := Merge(rows, table, characterId, now, uuid, fetchPerson, findMatch, StoreFaults(None, None, None));
    match Cache.Lookup(rows, characterId, now)
    case Some(c) =>
      NewRecordFields(c, uuid, now);
    case None =>
      var response := fetchPerson(Swapi.PersonUrl(characterId));
      if response.Okay? {
        var c := Swapi.Stripped(response.body);
        if findMatch(c).Ok? {
          var c' := WithMatch(c, findMatch(c).value);
          WithMatchFields(c, findMatch(c).value);
          assert "id" !in c';
          NewRecordFields(c', uuid, now);
          assert e.rows == Cache.Stored(rows, characterId, c', now);
        }
      }
  }

  class MergedService {
    /** The "Merged" table, in insertion order. */
    var table: seq<Record>
    const cache: Cache.CacheService

    ghost predicate Valid()
      reads this
    {
      forall i | 0 <= i < |table| :: IsMergedRow(table[i])
    }

    constructor (cache: Cache.CacheService)
      ensures Valid() && table == [] && this.cache == cache
    {
      table := [];
      this.cache := cache;
    }

    /** createCharacter(characterData): writes to the table exactly the record it returns. */
    method CreateCharacter(characterData: Record, uuid: string, now: int, fault: Option<string>)
      returns (r: Result<Record>)
      requires Valid()
      modifies this
      ensures Valid()
      ensures (r, table) == Create(old(table), characterData, uuid, now, fault)
    {
      var data := NewRecord(characterData, uuid, now);
      if fault.Some? {
        r := Err(Wrap(CreatePrefix, Plain(fault.value)));
        return;
      }
      table := table + [data];
      r := Ok(data);
    }

    /** mergeCharacters(characterId), with the collaborators as `Merge` takes them. */
    method MergeCharacters(characterId: string, now: int, uuid: string,
                           fetchPerson: string -> Response<Record>,
                           findMatch: Record -> Result<Option<Pokeapi.Pokemon>>,
                           faults: StoreFaults)
      returns (r: Result<Record>, ghost trace: seq<Step>)
      requires Valid()
      modifies this, cache
      ensures Valid()
      ensures Effect(r, trace, cache.rows, table)
           == Merge(old(cache.rows), old(table), characterId, now, uuid, fetchPerson, findMatch, faults)
    {
      trace := [ReadCache(characterId)];
      var cachedData := cache.GetCachedCharacter(characterId, now, faults.cacheRead);
      if cachedData.Err? {
        r := Err(Wrap(MergePrefix, cachedData.error));
        return;
      }
      assert cachedData.value == Cache.Lookup(old(cache.rows), characterId, now);
      if cachedData.value.Some? {
        trace := trace + [Persist(NewRecord(cachedData.value.value, uuid, now))];
        var newCharacter := CreateCharacter(cachedData.value.value, uuid, now, faults.put);
        r := Rethrow(MergePrefix, newCharacter);
        return;
      }

      trace := trace + [FetchCharacter(characterId)];
      var fetched := Swapi.GetCharacter(characterId, fetchPerson);
      assert table == old(table) && cache.rows == old(cache.rows);
      if fetched.Err? {
        r := Err(Wrap(MergePrefix, fetched.error));
        return;
      }
      var characterData := fetched.value;
      trace := trace + [FindMatch(characterData)];
      var matchingPokemon := findMatch(characterData);
      if matchingPokemon.Err? {
        r := Err(Wrap(MergePrefix, matchingPokemon.error));
        return;
      }
      if matchingPokemon.value.Some? {
        characterData := characterData["matching_pokemon" := PokemonValue(matchingPokemon.value.value)];
      }

      trace := trace + [WriteCache(characterId, characterData)];
      var written := cache.CacheCharacter(characterId, characterData, now, faults.cacheWrite);
      assert characterData == WithMatch(fetched.value, matchingPokemon.value);
      if written.Err? {
        r := Err(Wrap(MergePrefix, written.error));
        return;
      }
      trace := trace + [Persist(NewRecord(characterData, uuid, now))];
      var newCharacter := CreateCharacter(characterData, uuid, now, faults.put);
      r := Rethrow(MergePrefix, newCharacter);
    }
  }

  // -----------------------------------------------------------------------------------------
  // History

  /** The parameters of the history query. */
  datatype QueryInput = QueryInput(tableName: string, indexName: string, keyCondition: string,
                                   dummyValue: string, limit: int, scanIndexForward: bool,
                                   exclusiveStartKey: Option<Record>)

  /** What the store answers: a thrown failure, or `Items` and `LastEvaluatedKey`, either of which
      may be missing. */
  datatype QueryOutput = QueryFailed(message: string) | Answered(items: Option<seq<Record>>, lastKey: Option<Record>)

  /** GetRecordsResponse. */
  datatype HistoryPage = HistoryPage(items: seq<Record>, lastEvaluatedKey: Option<Record>)

  /** The query getHistory sends: always the "Merged" table's discriminator index, partition
      "record", ascending by timestamp, with the caller's limit and cursor passed through. */
  function HistoryQuery(lastEvaluatedKey: Option<Record>, limit: int): (q: QueryInput)
    ensures q.tableName == Collection && q.indexName == HistoryIndex
    ensures q.keyCondition == "dummy = :dummyVal" && q.dummyValue == Discriminator
    ensures q.scanIndexForward
    ensures q.limit == limit && q.exclusiveStartKey == lastEvaluatedKey
  {
    QueryInput(Collection, HistoryIndex, "dummy = :dummyVal", Discriminator, limit, true, lastEvaluatedKey)
  }

  /** `item` lies in the partition the query's key condition selects. */
  ghost predicate InPartition(q: QueryInput, item: Record)
  {
    "dummy" in item && item["dummy"] == Str(q.dummyValue)
  }

  /** Every record createCharacter writes lies in the partition every history query reads: the
      history can reach all persisted records, whatever the input carried. */
  lemma CreatedRecordsAreListed(characterData: Record, uuid: string, now: int,
                                lastEvaluatedKey: Option<Record>, limit: int)
    ensures InPartition(HistoryQuery(lastEvaluatedKey, limit), NewRecord(characterData, uuid, now))
    ensures IsMergedRow(NewRecord(characterData, uuid, now))
  {
  }

  /** getHistory(lastEvaluatedKey, limit); `query` is the store's answer to a query. Missing items
      read as none, the continuation key is returned as the store gave it. */
  function GetHistory(lastEvaluatedKey: Option<Record>, limit: int, query: QueryInput -> QueryOutput)
    : (r: Result<HistoryPage>)
    ensures query(HistoryQuery(lastEvaluatedKey, limit)).QueryFailed? ==>
      r == Err(Plain(HistoryPrefix + query(HistoryQuery(lastEvaluatedKey, limit)).message))
    ensures query(HistoryQuery(lastEvaluatedKey, limit)).Answered? ==>
      var answer := query(HistoryQuery(lastEvaluatedKey, limit));
      && r.Ok?
      && r.value.items == (if answer.items.Some? then answer.items.value else [])
      && r.value.lastEvaluatedKey == answer.lastKey
  {
    match query(HistoryQuery(lastEvaluatedKey, limit))
    case QueryFailed(message) => Err(Wrap(HistoryPrefix, Plain(message)))
    case Answered(items, lastKey) =>
      Ok(HistoryPage(match items case Some(xs) => xs case None => [], lastKey))
  }
}
