# pokestars merge core, modelled in Dafny

pokestars is a small HTTP service. It fetches a Star Wars character from SWAPI by id and removes
six list and audit fields from it. It then looks for the PokéAPI creature whose size is closest to
the character's: among the creatures of the character's eye colour, it picks the one with the
smallest |height difference| + |weight difference|. It attaches that creature as
`matching_pokemon` and caches the merged record for 30 minutes under the character id. Every
merge, and every record posted to the create route, is appended to the `Merged` table with a
fresh UUID, the partition tag `dummy = "record"` and a timestamp. The history route pages through
that partition in timestamp order. Joi schemas validate the route parameters, the posted body
and the history query.

The model:

- `wrappers.dfy`: `Option`, `Result` and the two kinds of error the services throw. A plain
  `Error` carries a message. A not-found (`boom.notFound`) is the other kind. `Wrap` is the
  `catch` that rethrows with a prefix.
- `http.dfy`: what a `fetch` gives back. It either throws, answers with a non-2xx status, or
  answers with a body.
- `json.dfy`: JSON values. A record is a map from keys to values, so object spread is map
  union (the right side wins) and `delete` is key removal.
- `numbers.dfy`: JavaScript's unary `+` on strings: white space trimmed, then a signed decimal
  literal with an optional exponent. `None` stands for NaN. Joi's number conversion reads the
  same grammar.
- `pokeapi.dfy`: `findMatchingPokemon`. The selection loop is a method, `SelectBest`, proved
  equal to the specification function `Chosen`. The first-minimum search and the random
  fallback are proved about `Chosen`.
- `cache.dfy`: `CacheService` is a class whose `rows` field stands for the `Cache` table.
  `Lookup` and `Stored` are its read and write, including expiry.
- `swapi.dfy`: `getCharacter`. It makes six key deletions in place, proved equal to
  `Stripped`.
- `merged.dfy`: `MergedService` is a class over the `Merged` table (a `seq` of records) and
  the cache. `MergeCharacters` and `CreateCharacter` are proved against the specification
  functions `Merge` and `Create`. `Merge` records the order of the outside calls as a trace.
  `GetHistory` is a function over the store's query answer.
- `schema.dfy`: the three Joi schemas as predicates over JSON values.

The outside world is passed in as parameters:

- the two HTTP clients: `fetchColour`, `fetchDetail` and `fetchPerson`;
- the matcher seen from the merge: `findMatch`;
- the clock: `now`;
- `randomUUID()`: `uuid`;
- `Math.random()`: `random`, a real in [0, 1);
- each store call's failure: an `Option<string>` holding the thrown message;
- the store's answer to the history query: `query`;
- Joi's UUID and URI grammars: `isUuid` and `isUri`;
- `JSON.parse`: `parse`.

## Model

| member | source | states |
|---|---|---|
| Wrappers.Wrap | src/services/merged.service.ts:48-52 | definition of a catch-and-rethrow: a plain `Error` whose message is the prefix followed by the caught message; its properties are in `Wrappers.WrapKeepsMessage` |
| Wrappers.Rethrow | src/services/merged.service.ts:29-52 | definition: a success passes through unchanged, and a failure is wrapped with the prefix; the merge lemmas state what this gives |
| Wrappers.WrapKeepsMessage | src/services/merged.service.ts:48-52 | a rethrown error is a plain `Error` whose message is the prefix followed by the original message, whatever kind the original was |
| Numbers.ToNumber | src/services/pokeapi.service.ts:44-45 | definition of unary `+`: trim white space; nothing left is 0; otherwise a signed decimal literal with optional fraction and exponent, anything else NaN |
| Numbers.NatToStringToNumber | src/services/pokeapi.service.ts:44-45 | unary `+` on the decimal digits of n gives n |
| Numbers.ExponentNotation | src/services/pokeapi.service.ts:44-45 | unary `+` on `<m>e<k>` gives m × 10^k |
| Numbers.PaddingIgnored | src/services/pokeapi.service.ts:44-45 | white space before and after a string changes neither its trim nor what `+` makes of it |
| Numbers.NonNumeralIsNaN | src/services/pokeapi.service.ts:44-45 | a string holding a character other than a digit, '.', '+', '-', white space or an ASCII letter converts to NaN (`"1,358"`, `"n/a"`) |
| Pokeapi.ColourUrl | src/services/pokeapi.service.ts:15-17 | definition: the colour-list URL, with "undefined" when the character has no eye colour |
| Pokeapi.DetailUrl | src/services/pokeapi.service.ts:28 | definition: the detail URL of one species |
| Pokeapi.JoinTypes | src/services/pokeapi.service.ts:54-56 | definition: the type names joined with `", "`; `Pokeapi.JoinThenSplit` proves it loses nothing |
| Pokeapi.JoinThenSplit | src/services/pokeapi.service.ts:54-56 | splitting the `", "`-joined type names at `", "` gives back the list, for a non-empty list of names without commas |
| Pokeapi.Normalise | src/services/pokeapi.service.ts:41-42 | the reported creature keeps the name, has 10× the decimetre height (cm) and a tenth of the hectogram weight (kg), and lists the joined type names |
| Pokeapi.Score | src/services/pokeapi.service.ts:41-46 | definition: abs(height − 10 × detail height) + abs(mass − detail weight / 10); its properties are in `Pokeapi.ScoreZero` |
| Pokeapi.ScoreZero | src/services/pokeapi.service.ts:41-46 | the total difference is never negative, and is zero exactly when the normalised height and weight equal the targets |
| Pokeapi.FirstMinIndex | src/services/pokeapi.service.ts:37-59 | the position the running minimum ends on is a valid index; `Pokeapi.FirstMinIndexIsFirstMin` says which |
| Pokeapi.FirstMinIndexIsFirstMin | src/services/pokeapi.service.ts:37-59 | the index found scores no more than any survivor and strictly less than every earlier one |
| Pokeapi.FirstMinUnique | src/services/pokeapi.service.ts:48-49 | under the strict `<` update there is only one such index: ties keep the earliest creature |
| Pokeapi.FirstMinStep | src/services/pokeapi.service.ts:40-58 | one more iteration moves the best index to the new creature exactly when it scores strictly less than the best so far |
| Pokeapi.PickIndex | src/services/pokeapi.service.ts:61-63 | `floor(random × n)` is a valid index for every random in [0, 1) |
| Pokeapi.Chosen | src/services/pokeapi.service.ts:37-75 | definition of the selection: none without survivors; with numeric targets the first least-score survivor; otherwise the randomly drawn one, normalised |
| Pokeapi.ChosenIsSurvivor | src/services/pokeapi.service.ts:37-75 | no creature is chosen exactly when no detail survived; otherwise the choice is one of the survivors, normalised |
| Pokeapi.ChosenMinimises | src/services/pokeapi.service.ts:37-59 | with numeric targets, the choice scores no more than every survivor and strictly less than every survivor listed before it |
| Pokeapi.SelectBest | src/services/pokeapi.service.ts:37-75 | the loop with its running minimum, and the random fallback when the targets are NaN, returns `Chosen` |
| Pokeapi.DetailResponses | src/services/pokeapi.service.ts:27-31 | one detail request per species name: the i-th answer is the answer to the i-th name's URL |
| Pokeapi.DetailResponsesAppend | src/services/pokeapi.service.ts:27-33 | the answers for a concatenation of names are the answers for each part, concatenated, so the order of the names is kept |
| Pokeapi.Survivors | src/services/pokeapi.service.ts:33-35 | keeps the successful details only: none exactly when no request succeeded, each one a successful response |
| Pokeapi.SurvivorsAppend | src/services/pokeapi.service.ts:33-35 | the filter distributes over concatenation, so the survivors keep their request order |
| Pokeapi.FirstThrown | src/services/pokeapi.service.ts:33 | `Promise.all` rejects exactly when some request threw, and with that request's message |
| Pokeapi.FindMatchingPokemon | src/services/pokeapi.service.ts:11-81 | a colour list answered non-2xx gives no match; a throw, in the colour request or any detail request, gives the prefixed error; otherwise the `Chosen` creature among the successful details |
| Pokeapi.CharmanderExample | src/services/pokeapi.service.ts:40-59 | for a 170 cm, 70 kg character, charmander (10 dm, 150 hg) beats bulbasaur (7 dm, 69 hg) and is reported as 100 cm, 15 kg, "fire" |
| Cache.Lookup | src/services/cache.service.ts:18-26 | definition of a read: none for a missing row, none once the row is more than 30 minutes old, else its record |
| Cache.Stored | src/services/cache.service.ts:39-47 | definition of a write: the id maps to the record, stamped now and expiring 30 minutes later |
| Cache.ExpiryBoundary | src/services/cache.service.ts:8-24 | the cache time is 30 minutes; a row is still served exactly 30 minutes after it was written and is gone one millisecond later |
| Cache.ExpiryIsFinal | src/services/cache.service.ts:22-24 | once a row has expired it stays expired |
| Cache.PutThenGet | src/services/cache.service.ts:10-47 | after a write, a read within 30 minutes gives back the written record and a later read gives none |
| Cache.PutKeepsOthers | src/services/cache.service.ts:39-49 | a write under one id changes nothing stored under any other id |
| Cache.PutOverwrites | src/services/cache.service.ts:39-49 | a second write under the same id replaces the first entirely |
| Cache.CacheService.constructor | src/services/cache.service.ts:6-8 | the cache starts empty |
| Cache.CacheService.GetCachedCharacter | src/services/cache.service.ts:10-32 | a store failure gives the prefixed error; otherwise the row's record if it exists and has not expired, else none; the rows do not change |
| Cache.CacheService.CacheCharacter | src/services/cache.service.ts:34-53 | a store failure gives the prefixed error and leaves the rows alone; otherwise the id maps to the record, stamped now and expiring 30 minutes later |
| Swapi.PersonUrl | src/services/swapi.service.ts:9 | definition: the SWAPI URL of a person, with its trailing slash |
| Swapi.NotFoundMessage | src/services/swapi.service.ts:11 | definition: the not-found text naming the id |
| Swapi.Stripped | src/services/swapi.service.ts:16-21 | the record loses exactly films, species, vehicles, starships, created and edited, and keeps every other key and value |
| Swapi.StrippedIdempotent | src/services/swapi.service.ts:16-21 | stripping twice is stripping once, and a record without those keys is left as it is |
| Swapi.Outcome | src/services/swapi.service.ts:8-23 | a thrown fetch passes its message through; any non-2xx status is a not-found naming the id; a body comes back stripped |
| Swapi.GetCharacter | src/services/swapi.service.ts:8-24 | the six in-place deletes give `Outcome`: no excluded key survives, and every other value is the fetched one |
| Merged.PokemonValue | src/services/merged.service.ts:41 | definition: the match as the object stored under `matching_pokemon`, holding the name, height, weight and `type` that src/services/pokeapi.service.ts:50-57 builds |
| Merged.WithMatch | src/services/merged.service.ts:38-42 | definition: the record with `matching_pokemon` set when there is a match; its properties are in `Merged.WithMatchFields` |
| Merged.WithMatchFields | src/services/merged.service.ts:38-42 | a match is stored under `matching_pokemon` with its name, height, weight and type; no match leaves the record as it was; other keys are untouched |
| Merged.NewRecord | src/services/merged.service.ts:57-62 | definition: `{ id: uuid, ...record, dummy: "record", timestamp: now }` as a map union; its properties are in `Merged.NewRecordFields` |
| Merged.Create | src/services/merged.service.ts:55-77 | definition: the new record appended and returned, or the create-prefixed error and the table as it was |
| Merged.Merge | src/services/merged.service.ts:29-53 | definition of one merge: result, calls made, cache rows and table; the lemmas below state its properties |
| Merged.NewRecordFields | src/services/merged.service.ts:57-62 | the created row has the record's keys plus id, dummy and timestamp; dummy is "record" and timestamp is now whatever the record held; an `id` in the record overrides the generated one |
| Merged.HitSkipsClients | src/services/merged.service.ts:31-35 | on a cache hit neither client is called, the cache is not written, and the cached record goes straight to `createCharacter` |
| Merged.MissOrder | src/services/merged.service.ts:37-47 | on a miss: read the cache, fetch the character, match it, cache the matched record under the id, persist it; the result is the persisted row |
| Merged.MergeAppendsResult | src/services/merged.service.ts:29-77 | a successful merge appends exactly the record it returns, tagged "record", to the table; a failed merge appends nothing |
| Merged.MergeErrorsWrapped | src/services/merged.service.ts:48-52 | every failure reaches the caller as a plain error starting with the merge prefix, a SWAPI not-found included |
| Merged.MergeClientErrors | src/services/merged.service.ts:37-52 | on a miss, a thrown fetch, a SWAPI not-found and a matcher failure each reach the caller as exactly the merge prefix followed by that call's message |
| Merged.MergeStoreErrors | src/services/merged.service.ts:29-52 | a failing cache read, cache write or put reaches the caller as exactly the merge prefix, the store service's prefix and the store's message |
| Merged.CachedIdIsKept | src/services/merged.service.ts:31-62 | on a hit whose cached record holds an `id`, the persisted row keeps that id, not the new UUID |
| Merged.MergeKeepsNoIds | src/services/merged.service.ts:29-71 | when neither the cache nor SWAPI supplies an `id`, a merge caches no `id` and the persisted row carries the generated UUID |
| Merged.TwoMergesAddTwoRows | src/services/merged.service.ts:29-71 | merging the same id twice appends two rows, each with its own UUID, even when the second merge is served from the cache |
| Merged.MergedService.constructor | src/services/merged.service.ts:18-27 | the service starts with an empty table over the given cache |
| Merged.MergedService.CreateCharacter | src/services/merged.service.ts:55-77 | a put failure gives the prefixed error and leaves the table alone; otherwise the new record is appended and returned; every row stays tagged "record" |
| Merged.MergedService.MergeCharacters | src/services/merged.service.ts:29-53 | the calls happen in the source's order and leave the cache, table, result and trace that `Merge` gives; every row stays tagged "record" |
| Merged.HistoryQuery | src/services/merged.service.ts:83-93 | the query reads the `Merged` table's `dummy-timestamp-index` for `dummy = "record"`, in ascending order, with the caller's limit and start key |
| Merged.CreatedRecordsAreListed | src/services/merged.service.ts:55-93 | every record created by a merge or a post lies in the partition the history query reads |
| Merged.GetHistory | src/services/merged.service.ts:79-107 | a failed query gives the prefixed error; otherwise the page holds the items (none when absent) and the store's continuation key |
| Schema.ObjectOf | src/schemas/merged.schema.ts:7-24 | definition of `Joi.object({...})`: an object with no key outside the declared ones |
| Schema.JoiString | src/schemas/merged.schema.ts:11-17 | definition of `Joi.string()`: a string, and not the empty one |
| Schema.JoiInteger | src/schemas/merged.schema.ts:9-10 | definition of `Joi.number().integer()`: converts to a whole number within ±(2^53 − 1) |
| Schema.ValidMatchingPokemon | src/schemas/merged.schema.ts:18-23 | definition: only name, height, weight and type, all present; name and type non-empty strings; height and weight integers |
| Schema.JoiNumber | src/schemas/merged.schema.ts:4 | definition of `Joi.number()` with conversion: a number, or a string whose trim is a non-empty signed decimal literal with optional exponent |
| Schema.JoiNumberAsPlus | src/schemas/merged.schema.ts:4 | for a string holding something other than white space, Joi's conversion agrees with JavaScript's `+` |
| Schema.NaturalIsInteger | src/schemas/merged.schema.ts:4 | a value converted to a natural number passes `integer()` exactly when it is within the safe-integer range |
| Schema.ValidCharacterId | src/schemas/merged.schema.ts:3-5 | definition: only the key `characterId`, present, converting to a safe integer |
| Schema.ValidCharacter | src/schemas/merged.schema.ts:7-24 | definition: only the schema's keys; the required ones present; strings non-empty; height, mass and the match's numbers integers; gender one of four; URIs where declared |
| Schema.ValidCursorObject | src/schemas/merged.schema.ts:30-34 | definition of the cursor sub-schema: only id, dummy and timestamp, all present, id a UUID, timestamp an integer |
| Schema.ValidCursor | src/schemas/merged.schema.ts:27-43 | definition of the custom rule: the text parses and the parsed value passes the sub-schema |
| Schema.ValidHistoryPagination | src/schemas/merged.schema.ts:26-46 | definition: only `lastEvaluatedKey` and `limit`, the first a non-empty string passing the custom rule, the second an integer from 1 to 100 |
| Schema.CharacterIdDigits | src/schemas/merged.schema.ts:3-5 | a decimal path parameter, with or without white space around it, passes exactly when it is within the safe-integer range |
| Schema.CharacterIdExponent | src/schemas/merged.schema.ts:3-5 | a path parameter `<m>e<k>` passes exactly when m × 10^k is within the safe-integer range |
| Schema.CharacterIdRejectsText | src/schemas/merged.schema.ts:3-5 | a path parameter holding a character that no number spelling contains (a comma, a slash) is refused |
| Schema.ExponentIdExample | src/schemas/merged.schema.ts:4 | `"1e5"` is a valid character id |
| Schema.PaddedIdExample | src/schemas/merged.schema.ts:4 | `" 7"` is a valid character id |
| Schema.CommaIdExample | src/schemas/merged.schema.ts:4 | `"1,358"` is not a valid character id |
| Schema.LimitRange | src/schemas/merged.schema.ts:45 | a decimal `limit` in the query string, with or without white space around it, passes exactly when 1 ≤ limit ≤ 100 |
| Schema.CursorRule | src/schemas/merged.schema.ts:27-43 | a cursor that does not parse is refused; an accepted one parses to an object with only id, dummy and timestamp: a UUID id, a string dummy and an integer timestamp |
| Schema.RequiredCharacterFields | src/schemas/merged.schema.ts:7-24 | a body with only name, integer height and mass, and gender passes exactly when the gender is male, female, unknown or n/a; a key outside the schema makes it fail |

## Error behaviour of the source

- `getCharacter` throws `boom.notFound` for every non-2xx status, not only for an absent person
  (src/services/swapi.service.ts:10-12). `Swapi.Outcome` models it that way.
- `mergeCharacters` catches every error and rethrows a new plain `Error` with the merge prefix
  (src/services/merged.service.ts:48-52). A not-found from SWAPI therefore loses its Boom status.
  `boomErrorHandler` passes it on, and `errorHandler` answers 500
  (src/middlewares/error.handler.ts:13-37). `Merged.MergeErrorsWrapped` proves that every merge
  failure is plain.

## Left out

- Numbers.ToNumber: does not model the radix prefixes `0x`, `0o` and `0b` or the spelling
  `Infinity`; the model reads them as NaN. It does not model floating-point rounding either:
  values are exact reals. The matcher treats an infinite target like NaN in any case, because
  no difference is below `Infinity`.
- Schema.JoiNumber: does not model Joi's extra precision check on converted strings (the
  `number.unsafe` error for text a double cannot hold exactly). That check can refuse some
  unusual spellings that the model accepts. The safe-integer bound is modelled.
- Pokeapi.FindMatchingPokemon:
  - A `.json()` failure counts as a throw.
  - When several detail requests throw, the model takes the first in list order. The source
    takes the first to settle.
  - The response bodies are taken as already shaped: species names, and details with numeric
    height and weight and a list of type names.
  - The two `console.error` lines are not modelled.
- Merged.Merge and Merged.MergedService.MergeCharacters:
  - The matcher is a parameter, `findMatch`, standing for `findMatchingPokemon` applied to the
    stripped record. It is not tied to `Pokeapi.FindMatchingPokemon`, which reads only the
    record's `eye_color`, `height` and `mass`.
  - One `now` stands for the several `Date.now()` calls inside one operation.
- Cache.Stored and Cache.CacheService.CacheCharacter: one `now` stands for the two `Date.now()`
  calls behind `timestamp` and `expiresAt` (src/services/cache.service.ts:44-45). The model
  therefore always stores `expiresAt` exactly 30 minutes after `timestamp`. In the source the
  two calls may be a millisecond apart.
- Cache: DynamoDB's own TTL deletion on `expiresAt` is not modelled. `getCachedCharacter`
  alone decides expiry. `JSON.stringify` and `JSON.parse` of the cached data are taken as
  exact inverses.
- Merged.GetHistory: the store's paging (which items, and which continuation key) is a
  parameter. Only the request the service builds and what it does with the answer are
  modelled.
- Schema: Joi's UUID and URI grammars and `JSON.parse` are parameters. Query values are
  modelled as strings, the form they arrive in. `abortEarly: false` only
  affects the error report, not the verdict, so it is left out. The validator middleware,
  routes, authentication, logging, Swagger and the DynamoDB client are not part of this model.
- Concurrency: `Promise.all` and concurrent requests are not modelled. Operations run one at a
  time.
