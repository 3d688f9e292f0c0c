# knexhelpers in Dafny

A model of the core of `knexhelpers`, a small TypeScript helper library
for the knex SQL query builder, with proofs about that model. The modelled
parts are:

- **Identifier case conversion** (`StrUtil`, `snake_case.dfy`). This covers
  `_snakeCase` and its twin `_snakeCaseB`. Each lower-cases every character
  and writes `_` before an upper-case letter that follows a lower-case
  letter.
  - Both loops are proved equal to one specification, `SnakeCased`.
  - That specification is proved to be idempotent.
  - It is proved to lay the input out character by character with
    separators only at word boundaries.
  - Its output is proved never shorter than its input and never to contain
    an upper-case letter.
- **Key transformation** (`ObjUtil`, `obj_util.dfy`). This covers
  `objUtil.isEmpty`, `objUtil.isObject` and the recursive
  `objUtil.transformKeys`.
  - Plain objects are values: association lists in key order, with
    distinct keys, as every JavaScript object has.
  - Arrays are references into a store (`Heap.arrays`). `transformKeys`
    overwrites array elements in place, and one array may be reachable from
    several places.
  - `Heap.TransformKeys` is proved to return `Transformed(v, fn)` and to
    leave the store as `Rewrite(v, fn, ...)` describes.
  - The result always has distinct keys.
  - When two keys map to one, the later key wins.
  - Writing a key that is already present replaces that property in its
    place.
  - Without collisions the result is the renamed object.
  - The identity transform returns an equal value and changes no array.
  - An array held under n keys of one object has its rows transformed n
    times.
- **knex hooks** (`KnexConfig`, `knex_config.dfy`). This covers
  `postProcessResponse`, `wrapIdentifier` and `toSnakeCase`.
  - An array result is copied into a fresh array of transformed rows.
  - `wrapIdentifier` always hands knex the snake-cased identifier, because
    only the empty string snake-cases to the empty string.
- **Table-init migrations** (`Migration`, `migration.dfy`). This covers
  `migrateUpTableInitMap` and `migrateDownTableInitMap` over a
  `MigrationTableInitMap`, a map from table names to a `TableInit` with an
  optional `create` and `seed` (src/index.ts:164-170).
  - The database is a `Knex` object that logs every action started against
    it.
  - Each runner is proved to log exactly the actions of `Perform` over its
    planned calls: up to and including the first rejection, and none after
    it.
  - "up" runs create then seed, table by table, in key order.
  - "down" runs only drops, last key first.
- **Dialect classifier** (`KnexUtil`, `knex_util.dfy`). This covers the
  `KnexUtil` class and the `_knexUtil` singleton.
  - The client name is read once, with `''` for a missing link.
  - No client name belongs to two dialects.
  - The singleton keeps the first caller's knex and ignores every later
    one.

Both snake-case functions agree on every ASCII string. A separator needs a
lower-case *letter* before the capital, so `a1B` becomes `a1b` under both
(`StrUtil.DigitExample`).

## Model

| member | source | states |
|---|---|---|
| StrUtil.ToLower | src/util/str.util.ts:42-45 | lower-casing leaves no ASCII capital, turns a capital into the same letter in small, and leaves every other character alone |
| StrUtil.ToUpper | src/util/str.util.ts:42 | upper-casing leaves no ASCII small letter, turns a small letter into the same letter as a capital, and leaves every other character alone |
| StrUtil.IsWordChar | src/util/str.util.ts:46-47 | `/[a-z]/i` accepts exactly the characters whose lower and upper case differ |
| StrUtil.SnakeCased | src/util/str.util.ts:36 | the output of a non-empty string starts with its first character lower-cased, never with a separator |
| StrUtil.SnakeCase | src/util/str.util.ts:32-59 | the `_snakeCase` loop returns exactly `SnakeCased(s)` |
| StrUtil.SnakeCaseB | src/util/str.util.ts:1-30 | the `_snakeCaseB` loop, which reads whole-string upper and lower copies, returns exactly `SnakeCased(s)`, the same result as `_snakeCase` |
| StrUtil.ShortIsLowered | src/util/str.util.ts:34 | a string shorter than 2 is only lower-cased |
| StrUtil.SnakeCasedLength | src/util/str.util.ts:49-55 | the output length is the input length plus the number of word boundaries |
| StrUtil.SnakeCasedAt | src/util/str.util.ts:55 | input character i appears lower-cased at output position `OutPos(s, i)` |
| StrUtil.SnakeCasedSeparatorAt | src/util/str.util.ts:49-53 | at a word boundary i, the output character just before `OutPos(s, i)` is `_` |
| StrUtil.SnakeCasedLayout | src/util/str.util.ts:36-56 | the whole layout: the length, every character in place in order, the first at 0 and the last at the end, each step advancing by 1 or by 2 at a boundary, and `_` exactly before a boundary |
| StrUtil.SnakeCasedHasNoUpper | src/util/str.util.ts:36-55 | the output holds no ASCII capital |
| StrUtil.NoUpperIsFixed | src/util/str.util.ts:46-53 | a string with no capital is returned unchanged |
| StrUtil.SnakeCasedIdempotent | src/util/str.util.ts:32-59 | snake-casing twice is snake-casing once |
| StrUtil.SnakeCasedNeverShorter | src/util/str.util.ts:32-59 | the output is never shorter than the input, and it is empty if and only if the input is |
| StrUtil.CamelExample | src/util/str.util.ts:49-53 | `fooBar` becomes `foo_bar` |
| StrUtil.DigitExample | src/util/str.util.ts:49-53 | `a1B` becomes `a1b`: a capital after a digit starts no word |
| StrUtil.PascalExample | src/util/str.util.ts:49-53 | `FooBar` becomes `foo_bar`: a leading capital gets no separator |
| StrUtil.PascalThreeWords | src/util/str.util.ts:49-53 | `FooBarBaz` becomes `foo_bar_baz`: every later capital after a small letter starts a word |
| StrUtil.AcronymExample | src/util/str.util.ts:49-53 | `fooBAR` becomes `foo_bar`: a run of capitals is one word |
| ObjUtil.IsEmpty | src/util/obj.util.ts:2-5 | `isEmpty` holds exactly for the empty string, an empty array, an object without own keys, and every other primitive |
| ObjUtil.IsObject | src/util/obj.util.ts:7-10 | the falsy, prototype, array and `typeof` tests together accept exactly the plain objects |
| ObjUtil.Lookup | src/util/obj.util.ts:24 | `o[k]` finds a value exactly when k is a key |
| ObjUtil.LookupKey | src/util/obj.util.ts:21-24 | on an object with distinct keys, reading the i-th key that `Object.keys` lists gives the i-th property's value |
| ObjUtil.Put | src/util/obj.util.ts:27 | `out[k] = w` adds k to the key set, and appends a new key at the end |
| ObjUtil.PutInPlace | src/util/obj.util.ts:27 | with distinct keys, writing a present key keeps the length and replaces exactly that property, in its place, leaving every other one as it was |
| ObjUtil.PutDistinct | src/util/obj.util.ts:27 | writing a property keeps the keys distinct |
| ObjUtil.PutMembers | src/util/obj.util.ts:27 | writing a property introduces no property other than the written one |
| ObjUtil.PutLookup | src/util/obj.util.ts:27 | after `out[k] = w`, reading k gives w and every other key reads as before |
| ObjUtil.PutTwice | src/util/obj.util.ts:27-35 | writing a key twice equals writing the second value once, in place of the first |
| ObjUtil.Transformed | src/util/obj.util.ts:17-39 | the returned value is the input itself unless it is a plain object; otherwise a well-formed object with distinct keys that holds no array the input did not hold |
| ObjUtil.Rebuild | src/util/obj.util.ts:23-36 | the key loop keeps the keys distinct and the values well-formed, and adds only arrays already held |
| ObjUtil.RebuildKeySet | src/util/obj.util.ts:23-36 | the loop's key set is what was there plus the image of the keys under fn |
| ObjUtil.RebuildUntouched | src/util/obj.util.ts:23-36 | a key that fn never produces reads as before |
| ObjUtil.RebuildLastWins | src/util/obj.util.ts:23-36 | a renamed key holds the transformed value of the last property renamed to it |
| ObjUtil.RebuildNoCollision | src/util/obj.util.ts:23-36 | with no collisions, the loop appends the renamed properties in order |
| ObjUtil.TransformedKeySet | src/util/obj.util.ts:17-39 | the keys of the transformed object are exactly fn applied to the original keys |
| ObjUtil.TransformedLastWins | src/util/obj.util.ts:17-39 | under a colliding fn the later original key's value wins |
| ObjUtil.TransformedNoCollision | src/util/obj.util.ts:17-39 | an injective fn renames every property in place and keeps each non-object value as it is |
| ObjUtil.TransformedIdentity | src/util/obj.util.ts:17-39 | the identity key function returns an equal value |
| ObjUtil.RewriteIdentity | src/util/obj.util.ts:17-39 | with the identity key function, `transformKeys` changes no array |
| ObjUtil.Rewrite | src/util/obj.util.ts:17-39 | the arrays after `transformKeys`: the same arrays, each keeping its length; unchanged unless the value is a plain object, and unchanged at every array ranked at or above the value's depth |
| ObjUtil.RewriteProps | src/util/obj.util.ts:23-36 | the key loop's effect on the arrays: every array keeps its length, with the same framing bound |
| ObjUtil.RewriteElems | src/util/obj.util.ts:29-32 | the inner array loop leaves elements i.. of the array as the transforms of what they were, keeps every array's length, and changes no other array of equal or higher rank |
| ObjUtil.RewriteRows | src/knex-config.helpers.ts:35-40 | the `postProcessResponse` row loop keeps every array's length and changes no array of the result's rank or above, the result array included |
| ObjUtil.RewriteRowsOfFlatRows | src/knex-config.helpers.ts:37-39 | rows that hold no arrays leave every array as it was |
| ObjUtil.RewriteWithoutArrays | src/util/obj.util.ts:29-35 | a value that reaches no array changes no array |
| ObjUtil.RewriteElemsOfRows | src/util/obj.util.ts:29-32 | an array of rows gets element j replaced by its transform, for every j from i on |
| ObjUtil.ArrayOfRowsRewritten | src/util/obj.util.ts:29-32 | the inner loop over an array of rows leaves it as the transforms of its rows |
| ObjUtil.ArrayPropertyRewritten | src/util/obj.util.ts:27-32 | `{k: rows}` becomes `{fn(k): rows}` with the same array, whose rows are transformed in place |
| ObjUtil.SharedArrayRewritten | src/util/obj.util.ts:29-32 | an array held under n keys of one object has its rows transformed n times |
| ObjUtil.BangRowsTwice | src/util/obj.util.ts:17-39 | transforming `[{k: 1}]` twice with a key function that appends `!` gives `[{"k!!": 1}]` |
| ObjUtil.SharedArrayExample | src/util/obj.util.ts:29-32 | with fn appending `!`, an array `[{k: 1}]` held under two keys ends up as `[{"k!!": 1}]` |
| ObjUtil.Heap.NewArray | src/knex-config.helpers.ts:36-40 | a fresh array reference, unused before, holding the given items, with every other array unchanged |
| ObjUtil.Heap.TransformKeys | src/util/obj.util.ts:17-39 | `transformKeys(v, fn)` returns `Transformed(v, fn)` and leaves the arrays as `Rewrite` says |
| ObjUtil.Heap.TransformElements | src/util/obj.util.ts:29-32 | the in-place loop over one array leaves the arrays as `RewriteElems` says |
| ObjUtil.Heap.TransformElement | src/util/obj.util.ts:31 | `value[i] = transformKeys(value[i], fn)` performs one step of `RewriteElems` and keeps the array's length |
| KnexConfig.ToSnakeCase | src/knex-config.helpers.ts:14-16 | `toSnakeCase` is `SnakeCased` |
| KnexConfig.TransformRows | src/knex-config.helpers.ts:37-39 | the row loop returns the transforms of the rows in order, leaves the rows' own array as it was, and leaves the other arrays as `RewriteRows` says |
| KnexConfig.PostProcessResponse | src/knex-config.helpers.ts:34-44 | a non-array result is transformed as a whole; an array result yields a fresh array of the transformed rows, of the same length, while the array knex returned is only read |
| KnexConfig.WrapIdentifier | src/knex-config.helpers.ts:45-51 | `origImpl` always receives the snake-cased identifier |
| Migration.TableNames | src/migration.helpers.ts:9 | `Object.keys(map)` has one table name per entry |
| Migration.Reverse | src/migration.helpers.ts:24 | `reverse()` puts element `n-1-i` at position i |
| Migration.Perform | src/migration.helpers.ts:8-16 | awaiting calls in order starts at most as many actions as calls, and resolves if and only if every call resolves |
| Migration.Step | src/migration.helpers.ts:13-14 | `await f?.(knex)` makes at most one call, and none exactly when the callback is absent |
| Migration.InitCalls | src/migration.helpers.ts:12-14 | a table's init makes at most two calls, none exactly when it has neither callback, each on that table and none a drop |
| Migration.UpCalls | src/migration.helpers.ts:9-14 | "up" plans at most two calls per table |
| Migration.DownCalls | src/migration.helpers.ts:24-27 | "down" plans one drop per table |
| Migration.Knex.Await | src/migration.helpers.ts:13-14 | awaiting a callback logs its action and settles as it settles |
| Migration.Knex.DropTableIfExists | src/migration.helpers.ts:26 | a drop logs its action and settles as the database says |
| Migration.MigrateUp | src/migration.helpers.ts:6-22 | "up" logs exactly the actions `Perform` starts for its planned calls and settles as `Perform` does |
| Migration.MigrateDown | src/migration.helpers.ts:23-28 | "down" logs exactly the drops `Perform` starts for its planned calls and settles as `Perform` does |
| Migration.PerformAfterResolved | src/migration.helpers.ts:8-16 | after calls that all resolved, the run continues as the remaining calls run |
| Migration.PerformPrefix | src/migration.helpers.ts:8-16 | the actions started are a prefix of the planned calls, in order |
| Migration.PerformAllResolved | src/migration.helpers.ts:8-16 | when every call resolves, every action is started and the run resolves |
| Migration.PerformResolvedThenRejected | src/migration.helpers.ts:23-28 | a rejection after resolved calls ends the run with that rejection, and nothing after it starts |
| Migration.PerformFirstRejection | src/migration.helpers.ts:8-16 | the run stops right after the first rejected call, with its reason |
| Migration.UpCallsAppend | src/migration.helpers.ts:9-16 | the calls of "up" on two concatenated maps are those of the first, then those of the second |
| Migration.UpSplit | src/migration.helpers.ts:9-16 | table k's calls sit between the calls of the tables before it and those after it |
| Migration.UpOnlyInits | src/migration.helpers.ts:10-14 | "up" starts only creates and seeds, each on a table of the map |
| Migration.UpExample | src/migration.helpers.ts:9-16 | three tables with resolving callbacks run create then seed for each, in key order |
| Migration.UpCreateRejected | src/migration.helpers.ts:13 | a rejected create of table i ends the run: earlier tables are done, and the seed of table i and every later table never run |
| Migration.DownOnlyDrops | src/migration.helpers.ts:24-27 | "down" starts nothing but drops |
| Migration.DownDropsInReverse | src/migration.helpers.ts:24-27 | when every drop resolves, each table is dropped once, last key first |
| KnexUtil.ContainsIff | src/util/knex.util.ts:33 | `includes` holds if and only if the substring occurs at some position |
| KnexUtil.Contains | src/util/knex.util.ts:33 | `includes` holds only when the substring fits in the string, and always for the empty substring |
| KnexUtil.ClientName | src/util/knex.util.ts:9 | the configured client name when every link of `knex.client.config.client` is present; a non-empty result is always that configured name |
| KnexUtil.KnexUtil.constructor | src/util/knex.util.ts:8-9 | the client name is read once from `knex.client.config.client`, `''` when missing |
| KnexUtil.Dialects | src/util/knex.util.ts:24-30 | MySQL is exactly `mysql` or `mysql2`; Postgres is exactly `postgres`, `postgresql` or `pg` |
| KnexUtil.KnexUtil.IsSqliteClient | src/util/knex.util.ts:32-34 | SQLite is any name in which `sqlite` occurs at some position |
| KnexUtil.KnexUtil.IsMysqlClient | src/util/knex.util.ts:24-26 | a MySQL name never passes the SQLite test |
| KnexUtil.KnexUtil.IsPostgresClient | src/util/knex.util.ts:28-30 | a Postgres name passes neither the MySQL nor the SQLite test: no name belongs to two dialects |
| KnexUtil.NoClientNoDialect | src/util/knex.util.ts:9 | a knex without a client name yields `''`, which is no dialect |
| KnexUtil.KnexUtilCache.Get | src/util/knex.util.ts:43-48 | the first call builds the instance from its knex; later calls return that same instance |
| KnexUtil.FirstCallerFixesDialect | src/util/knex.util.ts:37-48 | two callers with different knex instances share the first caller's client name |

## Left out

- `Case.camel`, which `toCamelCase` delegates to (src/knex-config.helpers.ts:18-20), belongs to the `case` package, which is not part of this model. It is the parameter `camel` of `KnexConfig.PostProcessResponse`, and every property is proved for an arbitrary key function.
- `StrUtil.ToLower`: case mapping covers ASCII only. Every other character is its own lower and upper case here. Full Unicode mapping, including mappings that change a string's length, is not modelled.
- `StrUtil.SnakeCaseB`: the proof that it equals `_snakeCase` holds only under the ASCII mapping above. Whole-string and per-character lower-casing can differ on non-ASCII text.
- `ObjUtil.IsEmpty`: arrays have no holes. `Object.keys` of a sparse array counts only the elements present, so `isEmpty([,])` is true in the source; the model has no sparse arrays.
- `ObjUtil.IsEmpty`: numbers are integers. Floating point, `NaN` and `-0` are not modelled.
- `ObjUtil.Put`: the `__proto__` key's special assignment behaviour is not modelled.
- JavaScript's ordering of integer-like keys ahead of other keys in `Object.keys` is not modelled. An object is the list of its properties in `Object.keys` order.
- `ObjUtil.Heap.TransformKeys`: termination rests on a ghost rank on arrays. The rank must hold for every array in the store. It therefore excludes an array that reaches itself through a plain object, such as `a = [{k: a}]`, even where `transformKeys` never enters it: held directly in another array, or unreachable from `v`. The source finishes on those inputs; it recurses without end only when it enters such an array. An array that holds an array directly, itself included, is allowed, as the source handles it.
- `ObjUtil.Heap.TransformKeys`: a plain object that holds itself (`o.self = o`) cannot be expressed, because plain objects are values. The source recurses without end on it.
- Getters, proxies, non-enumerable and symbol-keyed properties are not modelled.
- `KnexConfig.WrapIdentifier` states the value `origImpl` receives and returns. It does not state that `origImpl` is called exactly once.
- The `queryContext` arguments of the hooks are unused by the source and left out.
- `Migration.MigrateUp`: the timing (`performance.now`), the progress messages (`logInfo`, `console.log`) and the final duration line are left out.
- `Migration.MigrateUp`: promises are modelled as calls that settle in order, because each is awaited before the next starts. A callback's own effect on the database is not modelled, only that it was started and how it settled.
- `Migration.MigrateDown`: what `dropTableIfExists` does to the schema belongs to knex and is not modelled. Only that it was started and how it settled is.
- `KnexUtil.KnexUtil.constructor`: knex's `config.client` may be a dialect class rather than a name. The source then stores that class, the MySQL and Postgres tests return false, and `isSqliteClient` throws a TypeError. The model takes the client to be a string.
- `KnexUtil.KnexUtil.constructor`: `tableUtil.truncate` sends raw SQL through knex and is not modelled. Its only decision, `isSqliteClient()`, is.
- `KnexUtil.KnexUtilCache.Get`: the module-level variable is a field of an explicit cache object. Concurrency is not modelled.
- The database helpers of src/postgres.helpers.ts and the other helpers of src/index.ts are not part of this model.
