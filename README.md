# Keyset pagination for TypeORM query builders, in Dafny

This project models the cursor paginator of `typeorm-cursor-pagination`:

- the `Paginator` class, which keeps the caller's cursors, limit, order, alias and keys in fields. `paginate` extends a query with a bracketed "strictly beyond the cursor" condition, an ORDER BY and a `limit + 1` row cap. It then trims the extra row, puts a backward page back into display order and emits the outgoing before/after cursors;
- the `PaginatorJoin` subclass, whose keys are configs naming a joined entity, its query alias, the alias under which the key appears in fetched rows, and a query parameter name;
- `buildPaginator`, which configures a paginator from an options object;
- `PaginatorUtil`, which steps forwards and backwards through a result set, remembering the last cursor pair.

The modules follow the source files:

| module | file | source |
|---|---|---|
| `Types` | `types.dfy` | values, rows, errors; the `./utils` helpers as a parameter |
| `CursorFormat` | `cursor_format.dfy` | the `name:value,name:value` payload shared by `encode`/`decode` of both classes |
| `Query` | `query.dfy` | `buildCursorQuery`, `buildOrder`, `flipOrder`, and what the condition means |
| `PaginatorJoin` | `paginator_join.dfy` | `src/PaginatorJoin.ts` |
| `Pagination` | `paginator.dfy` | `src/Paginator.ts`; the class `Paginator` with a `variant` for the subclass |
| `Factory` | `build_paginator.dfy` | `src/buildPaginator.ts` |
| `Traversal` | `paginator_util.dfy` | `src/PaginatorUtil.ts` |

The paginator is a class whose setters and `paginate` update its fields. The loops of `buildCursorQuery`, `buildOrder`, `decode` and the join `setPaginationKeys` are methods with loop invariants. Each is proved against a specification function (`Tiers`/`Params`, `OrderBy`, `DecodeCursor`, `DefaultConfig`). The lemmas then state what those functions mean:

- the tier expansion is lexicographic comparison;
- decoding an encoded row gives back its key values;
- the cursor emitted for a row makes the next page start strictly after that row.

The subclass is a `variant` fixed at construction. Its overrides (`buildCursorQuery`'s columns and parameters, `buildOrder`'s column names, `encode`, `decode`, `setPaginationKeys`) are selected by it. The query builder and database are a function `fetch(getMethod, query)` from the query the paginator adds to the rows returned.

Where the code departs from what keyset pagination is usually expected to do, the model follows the code:

- An empty page returns the paginator's current outgoing cursors unchanged rather than two nulls. They are null only on a paginator that has not paged before.
- A first page (no incoming cursor) emits no before cursor, even when the first row is known (`Pagination.Paginator.FirstPageCursors`).
- Nothing rejects an empty key list or a non-positive limit. A limit of 0 in the request is ignored as falsy; a negative one is applied.
- `buildPaginator` hands the keys (default `['id']`) to a constructor that takes only the entity, so its paginator has no keys (`Factory.KeylessQuery`, `Factory.KeylessCursorUnreadable`).
- The base `Paginator` looks a key's design type up on every `encode`/`decode`, not once per configuration. (`PaginatorJoin` looks it up once, in `setPaginationKeys`, and reads the stored `type` afterwards.)

## Model

| member | source | states |
|---|---|---|
| CursorFormat.Split | src/Paginator.ts:202 | `split` returns at least one part and no part holds the separator |
| CursorFormat.SplitJoin | src/Paginator.ts:189-197 | splitting the joined segments gives back the segments when none holds the separator |
| CursorFormat.JoinSplit | src/Paginator.ts:202 | joining the parts of a split gives back the string |
| CursorFormat.EncodeCursor | src/Paginator.ts:189-197 | the token unwraps to the payload, and the payload splits back into one `name:value` segment per field |
| CursorFormat.SegmentsSplit | src/Paginator.ts:195 | with a sound codec and names free of `,`, the joined segments split back into the segments |
| CursorFormat.DecodeColumn | src/Paginator.ts:204-207 | the name is resolved first and an unknown name throws; a column without a value part throws; a resolved column with a value part decodes iff the codec accepts that part, and otherwise throws as undecodable; a decoded column stores the codec's value of its second part under the resolved key |
| CursorFormat.DecodeColumns | src/Paginator.ts:203-208 | the decode succeeds iff every column decodes on its own; a successful decode holds exactly their resolved keys, and under each key the value of the last column stored there |
| CursorFormat.DecodeCursor | src/Paginator.ts:200-211 | a token that does not unwrap throws; a decoded cursor decoded every column of the payload, holds exactly their resolved keys, and under each key the value of the last column stored there |
| CursorFormat.DecodeCursorComplete | src/Paginator.ts:200-211 | conversely, a token that unwraps to columns that each decode on their own is accepted |
| CursorFormat.LastWinsSnoc | src/Paginator.ts:207 | storing one more column keeps the last-written value of every earlier key and stores the new column's value |
| CursorFormat.DecodeColumnsErr | src/Paginator.ts:203-208 | once a column fails to decode, the whole decode fails with that column's error |
| CursorFormat.Decode | src/Paginator.ts:200-211 | the decode loop yields exactly the specified fold of the columns, or the first column's error |
| CursorFormat.StoreMapLookup | src/Paginator.ts:207 | with distinct store keys, each key's value is stored under its own key |
| CursorFormat.StoreMapKeys | src/Paginator.ts:207 | the decoded map holds exactly the fields' store keys |
| CursorFormat.StoreMapOf | src/Paginator.ts:207 | when each value is a function of its key, so is the decoded map |
| CursorFormat.DecodeSegment | src/Paginator.ts:204-207 | a `name:value` segment decodes to its stored key and value |
| CursorFormat.DecodeSegments | src/Paginator.ts:203-208 | decoding the segments of fields yields their store map |
| CursorFormat.DecodeEncode | src/Paginator.ts:188-211 | decode after encode yields every field's value under its store key |
| Query.FlipOrder | src/Paginator.ts:221-223 | the flipped order is the other direction |
| Query.BuildCursorQuery | src/Paginator.ts:142-151 | one tier per key: equalities on the earlier keys and the bound on this key; every key's parameter bound to the cursor's value |
| Query.ParamsBind | src/Paginator.ts:147 | the bindings cover exactly the keys' parameters, each bound to the cursor's value for it |
| Query.BuildOrder | src/Paginator.ts:172-177 | one ORDER BY entry per key, in key order, all in the given direction |
| Query.SatisfiesUnfold | src/Paginator.ts:146-150 | the condition holds iff tier 0 holds, or the first key ties and the condition on the remaining keys holds |
| Query.TiersAreLexicographic | src/Paginator.ts:142-151 | a row passes the OR-of-ANDs condition iff its key tuple is lexicographically beyond the cursor tuple by the operator |
| PaginatorJoin.DefaultConfig | src/PaginatorJoin.ts:93-105 | one key is defaulted by every rule of the `map` callback, or throws for its entity and property when no design type is recorded |
| PaginatorJoin.DefaultConfigs | src/PaginatorJoin.ts:92-108 | every key is defaulted (entity, entityAlias, alias, propertyName, paramAlias, type); the first key without a design type throws and nothing is stored |
| PaginatorJoin.DefaultConfigIdempotent | src/PaginatorJoin.ts:93-105 | a defaulted config given back as a key defaults to itself |
| PaginatorJoin.SuppliedParamAliasIgnored | src/PaginatorJoin.ts:101-102 | a caller's `paramAlias` and `type` never change the defaulted config |
| PaginatorJoin.Find | src/PaginatorJoin.ts:74 | the config found is the first with the alias; none found means no config has it |
| PaginatorJoin.AliasResolver | src/PaginatorJoin.ts:73-78 | a segment alias resolves iff some config has it, to the first such config's `paramAlias` and stored type; an unknown alias throws |
| PaginatorJoin.FindUnique | src/PaginatorJoin.ts:74 | with distinct aliases, each config is found by its own alias |
| PaginatorJoin.JoinResolvable | src/PaginatorJoin.ts:69-82 | with distinct aliases, every segment written by `encode` resolves to its config's `paramAlias` and type |
| PaginatorJoin.KeyRefs | src/PaginatorJoin.ts:33-36 | the join keys as the condition uses them: column `entityAlias.name` and parameter `paramAlias`, one per config in order; defined, used by `JoinCursorContinuesAfterRow` |
| PaginatorJoin.OrderColumns | src/PaginatorJoin.ts:48-50 | the join ORDER BY columns `"entityAlias"."name"`, one per config in order; defined, no contract of its own |
| PaginatorJoin.Encode | src/PaginatorJoin.ts:55-67 | the token unwraps to one `alias:value` segment per config, in order, with the row's value under that alias encoded by the stored type |
| PaginatorJoin.StoreValues | src/PaginatorJoin.ts:78 | with distinct parameter aliases, the stored map holds the `paramAlias` keys, each with the row's value under the config's `alias` |
| PaginatorJoin.StoresOfFields | src/PaginatorJoin.ts:78 | the decoded keys are the configs' `paramAlias` values |
| PaginatorJoin.JoinRoundTrip | src/PaginatorJoin.ts:55-82 | with distinct aliases and distinct parameter aliases, decode after encode maps each `paramAlias` to the row's value under the config's `alias`, and nothing else |
| PaginatorJoin.UnknownAliasFails | src/PaginatorJoin.ts:73-75 | a segment whose alias matches no config makes the decode fail |
| PaginatorJoin.AliasParams | src/PaginatorJoin.ts:34 | the bound parameters carry the decoded row's values, key by key |
| PaginatorJoin.JoinCursorContinuesAfterRow | src/PaginatorJoin.ts:29-38 | the condition built from a row's cursor keeps exactly the rows lexicographically beyond that row on the joined columns |
| Pagination.PlainKeyRefs | src/Paginator.ts:146-149 | the base keys as the condition uses them: column `alias.key` and parameter `key`, one per key in order; defined, used by `CursorContinuesAfterRow` |
| Pagination.PlainOrderColumns | src/Paginator.ts:173-175 | the base ORDER BY columns `alias.key`, one per key in order; defined, no contract of its own |
| Pagination.PlainResolver | src/Paginator.ts:204-207 | a segment name resolves iff the entity records a design type for it, to itself as the key and that type; otherwise it throws for that property |
| Pagination.UntypedKey | src/Paginator.ts:213-219 | no key is reported iff every key has a design type; a reported key has none and every key before it has one |
| Pagination.PlainFields | src/Paginator.ts:188-198 | `encode` succeeds iff every key has a design type, writing one segment per key |
| Pagination.PlainRoundTrip | src/Paginator.ts:188-211 | decode after encode maps exactly the keys to the row's values |
| Pagination.PlainStoreValues | src/Paginator.ts:207 | the stored map holds the keys, each with the row's value of that property |
| Pagination.PlainStores | src/Paginator.ts:207 | the decoded keys are the pagination keys |
| Pagination.DropLast | src/Paginator.ts:86-88 | `splice(length - 1, 1)`: the last row removed, and nothing removed from an empty array; defined, used by `PageData` |
| Pagination.PageData | src/Paginator.ts:84-96 | the rows shown: the extra row dropped when more than `limit` were fetched, then reversed on a backward page; defined, its properties are `PageShape` |
| Pagination.Reverse | src/Paginator.ts:94-96 | reversal keeps the length |
| Pagination.ReverseAt | src/Paginator.ts:94-96 | element k of the reversal is element n-1-k |
| Pagination.PageShape | src/Paginator.ts:84-96 | with at most limit+1 rows fetched, the page holds at most `limit` rows, exactly `limit` when there were more; only the last fetched row is dropped; a backward page is reversed |
| Pagination.RowParams | src/Paginator.ts:146-149 | the bound parameters carry the decoded row's values, key by key |
| Pagination.CursorContinuesAfterRow | src/Paginator.ts:116-151 | the condition built from a row's cursor keeps exactly the rows lexicographically beyond that row |
| Pagination.Paginator.constructor | src/Paginator.ts:40-58 | no cursors, alias from the entity name, limit 100, DESC, no keys, `getMany` |
| Pagination.Paginator.SetAlias | src/Paginator.ts:60-62 | the alias is replaced, nothing else changes |
| Pagination.Paginator.SetAfterCursor | src/Paginator.ts:64-66 | the after cursor is set, nothing else changes |
| Pagination.Paginator.SetBeforeCursor | src/Paginator.ts:68-70 | the before cursor is set, nothing else changes |
| Pagination.Paginator.SetLimit | src/Paginator.ts:72-74 | the limit is replaced, nothing else changes |
| Pagination.Paginator.SetOrder | src/Paginator.ts:76-78 | the order is replaced, nothing else changes |
| Pagination.Paginator.SetPaginationKeys | src/Paginator.ts:239-241 | base class stores the names; join class stores defaulted configs, or throws on an untyped key and stores nothing |
| Pagination.Paginator.ScanOrder | src/Paginator.ts:165-170 | the scan direction differs from the order iff there is a before cursor and no after cursor |
| Pagination.Paginator.GetOperator | src/Paginator.ts:153-163 | `=` iff no cursor; otherwise `>` iff scanning ascending; the after cursor decides when both are set |
| Pagination.Paginator.Boundary | src/Paginator.ts:122-126 | the after cursor when it is set, else the before cursor; none without cursors |
| Pagination.Paginator.DecodeBoundary | src/Paginator.ts:122-126 | the decoding step yields the decoded after cursor, else the decoded before cursor, else nothing |
| Pagination.Paginator.Condition | src/Paginator.ts:128-132 | the bracketed condition is added exactly when the decoded cursor holds some key |
| Pagination.Paginator.HasAfterCursor | src/Paginator.ts:180-182 | an after cursor is set (the source's `!== null`); defined, no contract of its own |
| Pagination.Paginator.HasBeforeCursor | src/Paginator.ts:184-186 | a before cursor is set (the source's `!== null`); defined, no contract of its own |
| Pagination.Paginator.CursorKeys | src/PaginatorJoin.ts:29-38 | the join class's `buildCursorQuery` override: the condition's columns and parameters come from the configs, else from the base keys; defined, no contract of its own |
| Pagination.Paginator.OrderColumns | src/PaginatorJoin.ts:40-53 | the join class's `buildOrder` override: the ORDER BY columns come from the configs, else from the base keys; defined, no contract of its own |
| Pagination.Paginator.KeyResolver | src/PaginatorJoin.ts:69-82 | the join class's `decode` override: segments resolve through the configs' aliases, else through the entity's design types; defined, no contract of its own |
| Pagination.Paginator.Encode | src/Paginator.ts:188-198 | the base class throws iff a key has no design type, naming the first such key, and otherwise writes one `key:value` segment per key in order; the join class (src/PaginatorJoin.ts:55-67) never throws here and writes the cursor its key configs encode |
| Pagination.Paginator.Decode | src/Paginator.ts:200-211 | decoding uses the variant's segment lookup over the shared format |
| Pagination.Paginator.IssuedQuery | src/Paginator.ts:116-140 | limit+1 rows; no condition without a cursor or when nothing decodes; a decode error is the query's error; tiers use the operator; every key's parameter bound to the decoded cursor's value for it; ORDER BY every key in the scan direction |
| Pagination.Paginator.AppendPagingQuery | src/Paginator.ts:116-140 | the query built is the one `IssuedQuery` specifies, decode errors included |
| Pagination.Paginator.Assemble | src/Paginator.ts:80-107 | an empty page keeps the cursors; a returned page is the trimmed rows in display order; the after cursor is the last row's when emitted, the before cursor the first row's |
| Pagination.Paginator.FirstPageCursors | src/Paginator.ts:98-104 | without incoming cursors no before cursor is emitted, and an after cursor only when there were more rows |
| Pagination.Paginator.Emit | src/Paginator.ts:98-106 | a returned page holds the rows given; it throws exactly when a cursor it must write cannot be encoded; a cursor it need not write keeps its value; a written after cursor is the last row's and a written before cursor the first row's; when the after cursor throws neither cursor changes |
| Pagination.Paginator.Paginate | src/Paginator.ts:80-107 | a query error leaves the cursors unchanged; otherwise the result and cursors are those of assembling the fetched rows |
| Pagination.Paginator.AssemblePage | src/Paginator.ts:83-106 | trimming, reversal and emission yield the assembled page |
| Pagination.Paginator.EmitCursors | src/Paginator.ts:98-106 | the cursors written and the page returned are those `Emit` specifies: after cursor first, then before cursor, each only when the emission rule asks for it |
| Pagination.Paginator.GetCursor | src/Paginator.ts:109-114 | the outgoing cursor pair |
| Factory.BuildPaginator | src/buildPaginator.ts:21-55 | fresh paginator of the given class (default base), alias given or lower-cased entity name, cursors and get method only if truthy, limit only if non-zero, order only if given, keys empty |
| Factory.Configured | src/buildPaginator.ts:24-52 | the fields `buildPaginator` leaves: class, alias, truthy-only settings, empty keys; defined, no contract of its own |
| Factory.ApplyRequest | src/buildPaginator.ts:38-52 | each request setting is applied only when truthy, the rest kept |
| Factory.KeylessCursorUnreadable | src/buildPaginator.ts:29-32 | with no keys the cursor has no segment, and reading it back throws on the empty property name |
| Factory.KeylessQuery | src/buildPaginator.ts:29-32 | a base paginator from `buildPaginator` orders by nothing and its condition has no tier |
| Traversal.Override | src/PaginatorUtil.ts:36-38 | the direction's cursor is the remembered value; the other settings come from the caller's query |
| Traversal.WithRawDefault | src/PaginatorUtil.ts:54 | `getRawMany` unless the options name a method; nothing else changes |
| Traversal.PaginatorUtil.constructor | src/PaginatorUtil.ts:11-20 | no cursor, no rows |
| Traversal.PaginatorUtil.BuildOptions | src/PaginatorUtil.ts:26-41 | the caller's options before the first page; none when the remembered cursor is empty; otherwise the options with the remembered cursor laid over the request |
| Traversal.PaginatorUtil.End | src/PaginatorUtil.ts:64-68 | empty rows; the remembered cursor stays |
| Traversal.PaginatorUtil.GoTo | src/PaginatorUtil.ts:51-62 | no options: an empty page; otherwise a fresh paginator configured from the options pages once and its page and cursor pair are remembered |
| Traversal.PaginatorUtil.PageOnce | src/PaginatorUtil.ts:57 | the page of a fresh paginator is the assembled page of its query |
| Traversal.PaginatorUtil.Store | src/PaginatorUtil.ts:59-61 | the cursor pair and rows are overwritten; a throw stores nothing |
| Traversal.PaginatorUtil.Next | src/PaginatorUtil.ts:70-73 | the step taken with the options built from the remembered after cursor: nothing fetched at the end, else a fresh configured paginator's page and cursor pair remembered, nothing remembered on a throw |
| Traversal.PaginatorUtil.Prev | src/PaginatorUtil.ts:80-83 | the same step with the options built from the remembered before cursor |
| Traversal.PaginatorUtil.HasNext | src/PaginatorUtil.ts:75-78 | takes the forward step as `Next` does and answers whether the remembered rows are non-empty; a throw of the step propagates |
| Traversal.PaginatorUtil.HasPrev | src/PaginatorUtil.ts:85-88 | takes the backward step as `Prev` does and answers whether the remembered rows are non-empty; a throw of the step propagates |
| Traversal.ResumesFromRemembered | src/PaginatorUtil.ts:26-54 | the paginator of a later step carries the remembered cursor of its direction and otherwise the caller's original options |

## Left out

- The database and TypeORM's query builder are a function from the added condition, order and limit to the rows. The SQL text, `Brackets`, parameter binding and SQL NULL comparison are not modelled. The meaning of the condition is stated over an abstract strict order `less` on values.
- `getMethod` dispatch (`queryBuilder[getMethod]()`) is an argument of `fetch`; which builder method exists is not modelled.
- `async`/`await`: each `paginate` has one suspension point, at the fetch, and is modelled as a plain call.
- Reflection (`Reflect.getMetadata('design:type', …)`) is a schema map from (entity name, property) to the lower-cased type name. A missing entry is the throw the source gets from reading `.name` of `undefined`.
- The `./utils` helpers (`encodeByType`, `decodeByType`, `btoa`, `atob`, `pascalToUnderscore`) are parameters. Their source is not part of this model. The round-trip lemmas assume the codec round-trips and never writes `,` or `:`.
- `Utils.encodeByType` is total: the value encoder of `./utils` never throws in this model. So an `encode` fails only on an untyped key, which does not depend on the row, and the after cursor then fails first. The partial write of src/Paginator.ts:98-104 (a new after cursor kept when the before cursor's encode throws) is modelled in `Emit` but cannot arise.
- A cursor segment without `:` passes `undefined` to `decodeByType` in the source. The model reports it as a missing value instead, since that codec is not modelled.
- JavaScript numbers are unbounded integers: no floating point, no `NaN` limit.
- The ORDER BY object of the source collapses duplicate column names into one key. The model keeps one entry per key, in key order.
- `entities.splice` and `entities.reverse` update the fetched array in place; the model works on sequences.
- Join `setPaginationKeys` writes the defaults into the caller's config objects. That mutation of shared objects is not modelled; the configs are values.
- Pagination.Paginator.SetPaginationKeys: the base class accepts key names only; the model requires it, as the TypeScript signature does.
- Entities are modelled by class name. `config.entity ? … : this.entity` treats a given entity as always truthy, as a class is.
- Traversal.PaginatorUtil.BuildOptions: both callers pass the remembered cursor as the second argument, so the model reads the remembered cursor rather than taking a separate argument.
- `getOptions` deep-copies the stored options. Options here are immutable values, so the copy is the value itself and has no member of its own.
- Traversal.WithRawDefault: an options object whose `getMethod` key is present but `undefined` overrides the spread default with `undefined`. The model cannot tell that case from an absent key.
- `String.prototype.toLowerCase` is modelled for ASCII letters only.
- Concurrency between traversal calls on one `PaginatorUtil` is not modelled.
