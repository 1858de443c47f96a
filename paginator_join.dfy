/**
 * The joined-table variant: pagination keys are configs naming the entity
 * they belong to, the alias of that entity in the query, the alias under
 * which the key appears in fetched rows and cursors, and the name of the
 * query parameter that carries the cursor's value.
 */
module PaginatorJoin {
  import opened Types
  import opened CursorFormat
  import opened Query

  /** A key config as a caller may write it: every field but the name may be left out. */
  datatype PartialConfig = PartialConfig(
    name: string,
    entity: Option<string>,
    entityAlias: Option<string>,
    alias: Option<string>,
    propertyName: Option<string>,
    paramAlias: Option<string>,
    keyType: Option<KeyType>)

  /** An element of the array given to `setPaginationKeys`: a key name or a config. */
  datatype KeySpec = KeyName(key: string) | KeyObject(config: PartialConfig)

  /** `PaginationKeyConfig` once defaulted; `entity` is the entity class's name. */
  datatype KeyConfig = KeyConfig(
    keyType: KeyType,
    name: string,
    propertyName: string,
    alias: string,
    entity: string,
    entityAlias: string,
    paramAlias: string)

  /** A string key stands for the config `{ name: key }`. */
  function Partial(spec: KeySpec): PartialConfig
  {
    match spec
    case KeyName(k) => PartialConfig(k, None, None, None, None, None, None)
    case KeyObject(c) => c
  }

  /** The entity a key belongs to: its own, or the paginator's. */
  function EntityOf(spec: KeySpec, entity: string): string
  {
    var c := Partial(spec);
    if c.entity.Some? then c.entity.value else entity
  }

  /** The property whose design type gives the key's codec. */
  function PropertyOf(spec: KeySpec): string
  {
    OrElse(Partial(spec).propertyName, Partial(spec).name)
  }

  /** `_${entityAlias}_${name}`. */
  function ParamAlias(entityAlias: string, name: string): string
  {
    "_" + entityAlias + "_" + name
  }

  /**
   * The `map` callback of `setPaginationKeys` for a paginator over `entity`
   * whose query alias is `alias`; it throws when the key's property has no
   * recorded design type.
   */
  function DefaultConfig(spec: KeySpec, entity: string, alias: string, schema: Schema): (r: Result<KeyConfig>)
    ensures r.Ok? <==> (EntityOf(spec, entity), PropertyOf(spec)) in schema
    ensures r.Ok? ==> Defaulted(spec, r.value, entity, alias, schema)
    ensures r.Err? ==> r.error == UnknownProperty(EntityOf(spec, entity), PropertyOf(spec))
  {
    var c := Partial(spec);
    var ent := EntityOf(spec, entity);
    var entityAlias := OrElse(c.entityAlias, if ent == entity then alias else ToLower(ent));
    var property := PropertyOf(spec);
    if (ent, property) !in schema then Err(UnknownProperty(ent, property))
    else Ok(KeyConfig(schema[(ent, property)], c.name, property, OrElse(c.alias, c.name), ent, entityAlias,
                      ParamAlias(entityAlias, c.name)))
  }

  /** The defaulting rules that `setPaginationKeys` applies to one key. */
  ghost predicate Defaulted(spec: KeySpec, k: KeyConfig, entity: string, alias: string, schema: Schema)
  {
    var c := Partial(spec);
    && k.name == c.name
    && k.entity == EntityOf(spec, entity)
    && k.entityAlias == OrElse(c.entityAlias, if k.entity == entity then alias else ToLower(k.entity))
    && k.alias == OrElse(c.alias, c.name)
    && k.propertyName == OrElse(c.propertyName, c.name)
    && k.paramAlias == ParamAlias(k.entityAlias, k.name)
    && (k.entity, k.propertyName) in schema && k.keyType == schema[(k.entity, k.propertyName)]
  }

  /** Key i is the first whose property has no design type. */
  ghost predicate FirstUntyped(specs: seq<KeySpec>, i: int, entity: string, schema: Schema)
  {
    && 0 <= i < |specs|
    && (EntityOf(specs[i], entity), PropertyOf(specs[i])) !in schema
    && forall j :: 0 <= j < i ==> (EntityOf(specs[j], entity), PropertyOf(specs[j])) in schema
  }

  /**
   * `setPaginationKeys`: default every key in turn; the first key without a
   * design type aborts the whole call.
   */
  method DefaultConfigs(specs: seq<KeySpec>, entity: string, alias: string, schema: Schema)
    returns (r: Result<seq<KeyConfig>>)
    ensures r.Ok? <==> forall i :: 0 <= i < |specs| ==> (EntityOf(specs[i], entity), PropertyOf(specs[i])) in schema
    ensures r.Ok? ==> |r.value| == |specs|
    ensures r.Ok? ==> forall i :: 0 <= i < |specs| ==> Defaulted(specs[i], r.value[i], entity, alias, schema)
    ensures r.Err? ==> exists i :: (FirstUntyped(specs, i, entity, schema) &&
                                    r.error == UnknownProperty(EntityOf(specs[i], entity), PropertyOf(specs[i])))
  {
    var configs: seq<KeyConfig> := [];
    var i := 0;
    while i < |specs|
      invariant 0 <= i <= |specs|
      invariant |configs| == i
      invariant forall j :: 0 <= j < i ==> (EntityOf(specs[j], entity), PropertyOf(specs[j])) in schema
      invariant forall j :: 0 <= j < i ==> Defaulted(specs[j], configs[j], entity, alias, schema)
    {
      var config := DefaultConfig(specs[i], entity, alias, schema);
      if config.Err? {
        return Err(config.error);
      }
      configs := configs + [config.value];
      i := i + 1;
    }
    r := Ok(configs);
  }

  /** Defaulting is idempotent: a defaulted config, given back as a config, defaults to itself. */
  lemma DefaultConfigIdempotent(spec: KeySpec, entity: string, alias: string, schema: Schema)
    requires DefaultConfig(spec, entity, alias, schema).Ok?
    ensures var k := DefaultConfig(spec, entity, alias, schema).value;
      DefaultConfig(KeyObject(PartialConfig(k.name, Some(k.entity), Some(k.entityAlias), Some(k.alias),
                                            Some(k.propertyName), Some(k.paramAlias), Some(k.keyType))),
                    entity, alias, schema) == Ok(k)
  {
  }

  /** A supplied `paramAlias` or `type` is never kept: both are recomputed. */
  lemma SuppliedParamAliasIgnored(c: PartialConfig, paramAlias: Option<string>, keyType: Option<KeyType>,
                                  entity: string, alias: string, schema: Schema)
    ensures DefaultConfig(KeyObject(c.(paramAlias := paramAlias, keyType := keyType)), entity, alias, schema)
         == DefaultConfig(KeyObject(c.(paramAlias := None, keyType := None)), entity, alias, schema)
  {
  }

  /** The keys as the condition uses them: column `entityAlias.name`, parameter `paramAlias`. */
  function KeyRefs(configs: seq<KeyConfig>): seq<KeyRef>
  {
    seq(|configs|, i requires 0 <= i < |configs| =>
      KeyRef(ColumnRef(configs[i].entityAlias, configs[i].name), configs[i].paramAlias))
  }

  /** The ORDER BY keys `"entityAlias"."name"`. */
  function OrderColumns(configs: seq<KeyConfig>): seq<string>
  {
    seq(|configs|, i requires 0 <= i < |configs| =>
      "\"" + configs[i].entityAlias + "\".\"" + configs[i].name + "\"")
  }

  /** What `encode` writes for a row: each key's `alias` and the row's value under that alias. */
  function Fields(configs: seq<KeyConfig>, row: Row): (fields: seq<KeyValue>)
    ensures |fields| == |configs|
  {
    seq(|configs|, i requires 0 <= i < |configs| =>
      KeyValue(configs[i].alias, configs[i].paramAlias, configs[i].keyType, Field(row, configs[i].alias)))
  }

  /**
   * `encode`: a token whose payload holds, for each key in order, the
   * segment `alias:value` of the row's value under that alias.
   */
  function Encode(configs: seq<KeyConfig>, utils: Utils, row: Row): (cursor: string)
    ensures Sound(utils) && |configs| >= 1 && (forall i :: 0 <= i < |configs| ==> ',' !in configs[i].alias) ==>
      utils.atob(cursor).Some? &&
      var segments := Split(utils.atob(cursor).value, ',');
      |segments| == |configs| &&
      forall k :: 0 <= k < |configs| ==>
        segments[k] == configs[k].alias + ":" + utils.encodeByType(configs[k].keyType, Field(row, configs[k].alias))
  {
    EncodeCursor(Fields(configs, row), utils)
  }

  /** `find(configs, { alias })`: the first config with that alias. */
  function Find(configs: seq<KeyConfig>, alias: string): (r: Option<KeyConfig>)
    ensures r.Some? ==> r.value in configs && r.value.alias == alias
    ensures r.None? ==> forall i :: 0 <= i < |configs| ==> configs[i].alias != alias
    ensures r.Some? ==> exists i :: 0 <= i < |configs| && configs[i] == r.value &&
                                   forall j :: 0 <= j < i ==> configs[j].alias != alias
  {
    if configs == [] then None
    else if configs[0].alias == alias then Some(configs[0])
    else Find(configs[1..], alias)
  }

  /** `decode`'s per-segment lookup: the matching config's `paramAlias` and type; no match throws. */
  function AliasResolver(configs: seq<KeyConfig>): (resolve: ColumnResolver)
    ensures forall a :: resolve(a).Ok? <==> exists i :: 0 <= i < |configs| && configs[i].alias == a
    ensures forall a :: resolve(a).Err? ==> resolve(a).error == UnknownAlias(a)
    ensures forall a :: resolve(a).Ok? ==>
      exists i :: && 0 <= i < |configs| && configs[i].alias == a
                  && resolve(a).value == (configs[i].paramAlias, configs[i].keyType)
                  && forall j :: 0 <= j < i ==> configs[j].alias != a
  {
    (alias: string) =>
      match Find(configs, alias)
      case None => Err(UnknownAlias(alias))
      case Some(c) => Ok((c.paramAlias, c.keyType))
  }

  /** No two configs share the alias a cursor segment is named by. */
  ghost predicate DistinctAliases(configs: seq<KeyConfig>)
  {
    forall i, j :: 0 <= i < j < |configs| ==> configs[i].alias != configs[j].alias
  }

  /** No two configs share the query parameter their value is stored under. */
  ghost predicate DistinctParamAliases(configs: seq<KeyConfig>)
  {
    forall i, j :: 0 <= i < j < |configs| ==> configs[i].paramAlias != configs[j].paramAlias
  }

  lemma {:induction false} FindUnique(configs: seq<KeyConfig>, i: nat)
    requires i < |configs| && DistinctAliases(configs)
    ensures Find(configs, configs[i].alias) == Some(configs[i])
  {
    if i > 0 {
      assert DistinctAliases(configs[1..]) by {
        forall a, b | 0 <= a < b < |configs[1..]|
          ensures configs[1..][a].alias != configs[1..][b].alias
        {
          assert configs[1..][a] == configs[a + 1] && configs[1..][b] == configs[b + 1];
        }
      }
      FindUnique(configs[1..], i - 1);
    }
  }

  /** The query parameters the keys bind. */
  function ParamAliases(configs: seq<KeyConfig>): set<string>
  {
    set i | 0 <= i < |configs| :: configs[i].paramAlias
  }

  lemma JoinResolvable(configs: seq<KeyConfig>, row: Row)
    requires DistinctAliases(configs)
    requires forall i :: 0 <= i < |configs| ==> ',' !in configs[i].alias && ':' !in configs[i].alias
    ensures Resolvable(Fields(configs, row), AliasResolver(configs))
  {
    var fields := Fields(configs, row);
    forall i | 0 <= i < |fields|
      ensures AliasResolver(configs)(fields[i].name) == Ok((fields[i].store, fields[i].keyType))
    {
      FindUnique(configs, i);
    }
  }

  /**
   * For configs with distinct aliases and parameter aliases, decoding an
   * encoded row maps every `paramAlias` to the row's value under the
   * config's `alias`, and nothing else.
   */
  lemma JoinRoundTrip(configs: seq<KeyConfig>, utils: Utils, row: Row)
    requires Sound(utils) && |configs| >= 1 && DistinctAliases(configs) && DistinctParamAliases(configs)
    requires forall i :: 0 <= i < |configs| ==> ',' !in configs[i].alias && ':' !in configs[i].alias
    ensures var r := DecodeCursor(Encode(configs, utils, row), AliasResolver(configs), utils);
      && r.Ok?
      && r.value.Keys == ParamAliases(configs)
      && forall i :: 0 <= i < |configs| ==> r.value[configs[i].paramAlias] == Field(row, configs[i].alias)
  {
    var fields := Fields(configs, row);
    JoinResolvable(configs, row);
    DecodeEncode(fields, AliasResolver(configs), utils);
    assert DecodeCursor(Encode(configs, utils, row), AliasResolver(configs), utils) == Ok(StoreMap(fields));
    StoreValues(configs, row);
  }

  /** The store map of the joined fields: the `paramAlias` keys, each holding the row's value under `alias`. */
  lemma StoreValues(configs: seq<KeyConfig>, row: Row)
    requires DistinctParamAliases(configs)
    ensures StoreMap(Fields(configs, row)).Keys == ParamAliases(configs)
    ensures forall i :: 0 <= i < |configs| ==> StoreMap(Fields(configs, row))[configs[i].paramAlias] == Field(row, configs[i].alias)
  {
    var fields := Fields(configs, row);
    StoreMapKeys(fields);
    StoresOfFields(configs, row);
    forall i | 0 <= i < |configs|
      ensures StoreMap(fields)[configs[i].paramAlias] == Field(row, configs[i].alias)
    {
      StoreMapLookup(fields, i);
    }
  }

  lemma StoresOfFields(configs: seq<KeyConfig>, row: Row)
    ensures Stores(Fields(configs, row)) == ParamAliases(configs)
  {
    var fields := Fields(configs, row);
    forall p | p in Stores(fields) ensures p in ParamAliases(configs) {
      var i :| 0 <= i < |fields| && fields[i].store == p;
      assert configs[i].paramAlias == p;
    }
    forall p | p in ParamAliases(configs) ensures p in Stores(fields) {
      var i :| 0 <= i < |configs| && configs[i].paramAlias == p;
      assert fields[i].store == p;
    }
  }

  /** A segment whose alias matches no config makes the whole decode fail; it is never skipped. */
  lemma UnknownAliasFails(configs: seq<KeyConfig>, utils: Utils, cursor: string, k: nat)
    requires utils.atob(cursor).Some?
    requires k < |Split(utils.atob(cursor).value, ',')|
    requires Find(configs, Split(Split(utils.atob(cursor).value, ',')[k], ':')[0]).None?
    ensures DecodeCursor(cursor, AliasResolver(configs), utils).Err?
  {
    var column := Split(Split(utils.atob(cursor).value, ',')[k], ':')[0];
    assert AliasResolver(configs)(column).Err?;
  }

  /** The row's values under the configs' aliases, in key order. */
  function AliasValues(configs: seq<KeyConfig>, row: Row): (t: seq<Value>)
    ensures |t| == |configs|
  {
    seq(|configs|, i requires 0 <= i < |configs| => Field(row, configs[i].alias))
  }

  /** Binding a decoded cursor of a row to the configs' parameters yields the row's values. */
  lemma {:induction false} AliasParams(configs: seq<KeyConfig>, decoded: map<string, Value>, last: Row)
    requires decoded.Keys == ParamAliases(configs)
    requires forall i :: 0 <= i < |configs| ==> decoded[configs[i].paramAlias] == Field(last, configs[i].alias)
    ensures ParamTuple(KeyRefs(configs), Params(KeyRefs(configs), decoded)) == AliasValues(configs, last)
  {
    var refs := KeyRefs(configs);
    forall i | 0 <= i < |configs| ensures ParamTuple(refs, Params(refs, decoded))[i] == AliasValues(configs, last)[i] {
      assert refs[i].param == configs[i].paramAlias;
      assert refs[i].param in ParamNames(refs);
    }
  }

  /**
   * The cursor emitted for a joined row carries the row's values, so the
   * condition built from it keeps exactly the rows whose tuple on the
   * joined columns lies strictly beyond the row's.
   */
  lemma JoinCursorContinuesAfterRow(configs: seq<KeyConfig>, utils: Utils, last: Row, op: Operator,
                                    row: ColumnRef -> Value, less: (Value, Value) -> bool)
    requires Sound(utils) && |configs| >= 1 && DistinctAliases(configs) && DistinctParamAliases(configs)
    requires forall i :: 0 <= i < |configs| ==> ',' !in configs[i].alias && ':' !in configs[i].alias
    ensures var decoded := DecodeCursor(Encode(configs, utils, last), AliasResolver(configs), utils);
      && decoded.Ok? && |decoded.value| > 0
      && (Satisfies(CursorQuery(Tiers(KeyRefs(configs), op), Params(KeyRefs(configs), decoded.value)), row, less)
          <==> LexBeyond(RowTuple(KeyRefs(configs), row), AliasValues(configs, last), op, less))
  {
    JoinRoundTrip(configs, utils, last);
    var decoded := DecodeCursor(Encode(configs, utils, last), AliasResolver(configs), utils).value;
    assert configs[0].paramAlias in decoded.Keys;
    AliasParams(configs, decoded, last);
    TiersAreLexicographic(KeyRefs(configs), op, row, Params(KeyRefs(configs), decoded), less);
  }
}
