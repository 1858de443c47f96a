/**
 * The paginator: its configuration and cursor fields, the query it adds
 * before the fetch, and the page it assembles after the fetch. The
 * joined-table subclass overrides the key-dependent steps; here the
 * `variant` chosen at construction selects those overrides.
 */
module Pagination {
  import opened Types
  import opened CursorFormat
  import opened Query
  import J = PaginatorJoin

  /** Which class was instantiated: the base `Paginator` or `PaginatorJoin`. */
  datatype Variant = Plain | Joined

  /** The outgoing cursor pair of a page. */
  datatype Cursor = Cursor(beforeCursor: Option<string>, afterCursor: Option<string>)

  datatype PagingResult = PagingResult(data: seq<Row>, cursor: Cursor)

  // ---------------------------------------------------------------------------
  // Keys of the base paginator: property names of the paginated entity.
  // ---------------------------------------------------------------------------

  /** The keys as the condition uses them: column `alias.key`, parameter `key`. */
  function PlainKeyRefs(alias: string, keys: seq<string>): seq<KeyRef>
  {
    seq(|keys|, i requires 0 <= i < |keys| => KeyRef(ColumnRef(alias, keys[i]), keys[i]))
  }

  /** The ORDER BY keys `alias.key`. */
  function PlainOrderColumns(alias: string, keys: seq<string>): seq<string>
  {
    seq(|keys|, i requires 0 <= i < |keys| => alias + "." + keys[i])
  }

  /** `decode`'s per-segment type lookup: the segment names a property; no design type throws. */
  function PlainResolver(entity: string, schema: Schema): (resolve: ColumnResolver)
    ensures forall key :: resolve(key).Ok? <==> (entity, key) in schema
    ensures forall key :: resolve(key).Ok? ==> resolve(key).value == (key, schema[(entity, key)])
    ensures forall key :: resolve(key).Err? ==> resolve(key).error == UnknownProperty(entity, key)
  {
    (key: string) =>
      if (entity, key) in schema then Ok((key, schema[(entity, key)]))
      else Err(UnknownProperty(entity, key))
  }

  /** The first key without a design type, if any. */
  function UntypedKey(keys: seq<string>, entity: string, schema: Schema): (r: Option<string>)
    ensures r.None? <==> forall i :: 0 <= i < |keys| ==> (entity, keys[i]) in schema
    ensures r.Some? ==> r.value in keys && (entity, r.value) !in schema
    // the key named is the first untyped one: every key before it is typed
    ensures r.Some? ==> exists i :: 0 <= i < |keys| && keys[i] == r.value && (entity, keys[i]) !in schema &&
                                    forall j :: 0 <= j < i ==> (entity, keys[j]) in schema
  {
    if keys == [] then None
    else if (entity, keys[0]) !in schema then Some(keys[0])
    else UntypedKey(keys[1..], entity, schema)
  }

  /** What `encode` writes for a row: each key, its design type and the row's value; an untyped key throws. */
  function PlainFields(keys: seq<string>, entity: string, schema: Schema, row: Row): (r: Result<seq<KeyValue>>)
    ensures r.Ok? <==> forall i :: 0 <= i < |keys| ==> (entity, keys[i]) in schema
    ensures r.Ok? ==> |r.value| == |keys|
  {
    match UntypedKey(keys, entity, schema)
    case Some(key) => Err(UnknownProperty(entity, key))
    case None =>
      Ok(seq(|keys|, i requires 0 <= i < |keys| => KeyValue(keys[i], keys[i], schema[(entity, keys[i])], Field(row, keys[i]))))
  }

  /**
   * For clean, typed keys, decoding an encoded row maps every key to the
   * row's value of that property, and nothing else.
   */
  lemma PlainRoundTrip(keys: seq<string>, entity: string, schema: Schema, utils: Utils, row: Row)
    requires Sound(utils) && |keys| >= 1
    requires forall i :: 0 <= i < |keys| ==> ',' !in keys[i] && ':' !in keys[i] && (entity, keys[i]) in schema
    ensures PlainFields(keys, entity, schema, row).Ok?
    ensures var r := DecodeCursor(EncodeCursor(PlainFields(keys, entity, schema, row).value, utils),
                                  PlainResolver(entity, schema), utils);
      && r.Ok?
      && r.value.Keys == (set k | k in keys)
      && forall k :: k in keys ==> r.value[k] == Field(row, k)
  {
    var fields := PlainFields(keys, entity, schema, row).value;
    DecodeEncode(fields, PlainResolver(entity, schema), utils);
    PlainStoreValues(keys, entity, schema, row);
  }

  /** The store map of the base fields: the keys, each holding the row's value of that property. */
  lemma PlainStoreValues(keys: seq<string>, entity: string, schema: Schema, row: Row)
    requires PlainFields(keys, entity, schema, row).Ok?
    ensures StoreMap(PlainFields(keys, entity, schema, row).value).Keys == (set k | k in keys)
    ensures forall k :: k in keys ==> StoreMap(PlainFields(keys, entity, schema, row).value)[k] == Field(row, k)
  {
    var fields := PlainFields(keys, entity, schema, row).value;
    StoreMapKeys(fields);
    StoreMapOf(fields, k => Field(row, k));
    PlainStores(keys, entity, schema, row);
  }

  lemma PlainStores(keys: seq<string>, entity: string, schema: Schema, row: Row)
    requires PlainFields(keys, entity, schema, row).Ok?
    ensures Stores(PlainFields(keys, entity, schema, row).value) == (set k | k in keys)
  {
    var fields := PlainFields(keys, entity, schema, row).value;
    forall k | k in keys ensures k in Stores(fields) {
      var i :| 0 <= i < |keys| && keys[i] == k;
      assert fields[i].store == k;
    }
  }

  // ---------------------------------------------------------------------------
  // Assembling the page from the fetched rows.
  // ---------------------------------------------------------------------------

  /** `entities.splice(entities.length - 1, 1)`: drops the last element; on an empty array it drops nothing. */
  function DropLast<T>(s: seq<T>): seq<T>
  {
    if |s| == 0 then s else s[..|s| - 1]
  }

  /** `Array.prototype.reverse`. */
  function Reverse<T>(s: seq<T>): (r: seq<T>)
    ensures |r| == |s|
  {
    if s == [] then [] else Reverse(s[1..]) + [s[0]]
  }

  lemma {:induction false} ReverseAt<T>(s: seq<T>, k: nat)
    requires k < |s|
    ensures Reverse(s)[k] == s[|s| - 1 - k]
  {
    if k < |s| - 1 {
      ReverseAt(s[1..], k);
    }
  }

  /** The rows a page shows: the extra row dropped when there is more, in display order. */
  function PageData(rows: seq<Row>, limit: int, reverse: bool): seq<Row>
  {
    var kept := if |rows| > limit then DropLast(rows) else rows;
    if reverse then Reverse(kept) else kept
  }

  /**
   * Given a fetch of at most `limit + 1` rows, the page holds at most
   * `limit` of them: exactly `limit` when there were more, otherwise all.
   * Only the final fetched row is dropped, and a backward page lists the
   * kept rows in reverse.
   */
  lemma PageShape(rows: seq<Row>, limit: int, reverse: bool)
    requires 0 <= limit && |rows| <= limit + 1
    ensures |PageData(rows, limit, reverse)| <= limit
    ensures |rows| > limit ==> |PageData(rows, limit, reverse)| == limit
    ensures |rows| <= limit ==> |PageData(rows, limit, reverse)| == |rows|
    ensures forall k :: 0 <= k < |PageData(rows, limit, reverse)| ==>
      PageData(rows, limit, reverse)[k] ==
        if reverse then rows[|PageData(rows, limit, reverse)| - 1 - k] else rows[k]
  {
    var kept := if |rows| > limit then DropLast(rows) else rows;
    forall k | 0 <= k < |kept| ensures Reverse(kept)[k] == kept[|kept| - 1 - k] {
      ReverseAt(kept, k);
    }
  }

  /** An after cursor is emitted when the fetch went backwards or found more rows. */
  predicate EmitsAfter(hasBefore: bool, hasMore: bool)
  {
    hasBefore || hasMore
  }

  /** A before cursor is emitted when the fetch went forwards, or went backwards and found more rows. */
  predicate EmitsBefore(hasAfter: bool, hasBefore: bool, hasMore: bool)
  {
    hasAfter || (hasMore && hasBefore)
  }

  /** The outgoing cursor: a new one when emitted (if the row encodes), else the previous one. */
  function NextCursor(emit: bool, encoded: Result<string>, previous: Option<string>): Result<Option<string>>
  {
    if !emit then Ok(previous)
    else if encoded.Err? then Err(encoded.error)
    else Ok(Some(encoded.value))
  }

  /** The row's values at the keys, in key order. */
  function KeyValues(keys: seq<string>, row: Row): (t: seq<Value>)
    ensures |t| == |keys|
  {
    seq(|keys|, i requires 0 <= i < |keys| => Field(row, keys[i]))
  }

  /** Binding the decoded cursor of a row to the keys' parameters yields the row's key values. */
  lemma {:induction false} RowParams(keys: seq<string>, alias: string, decoded: map<string, Value>, last: Row)
    requires decoded.Keys == (set k | k in keys)
    requires forall k :: k in keys ==> decoded[k] == Field(last, k)
    ensures ParamTuple(PlainKeyRefs(alias, keys), Params(PlainKeyRefs(alias, keys), decoded)) == KeyValues(keys, last)
  {
    var refs := PlainKeyRefs(alias, keys);
    var params := Params(refs, decoded);
    forall i | 0 <= i < |keys| ensures ParamTuple(refs, params)[i] == KeyValues(keys, last)[i] {
      assert refs[i].param == keys[i];
      assert keys[i] in ParamNames(refs);
    }
  }

  /**
   * The cursor emitted for a row carries that row's key values, so the
   * condition of the page fetched from it keeps exactly the rows whose key
   * tuple lies strictly beyond the row's, first key deciding first.
   */
  lemma CursorContinuesAfterRow(keys: seq<string>, entity: string, schema: Schema, utils: Utils, alias: string,
                                op: Operator, last: Row, row: ColumnRef -> Value, less: (Value, Value) -> bool)
    requires Sound(utils) && |keys| >= 1
    requires forall i :: 0 <= i < |keys| ==> ',' !in keys[i] && ':' !in keys[i] && (entity, keys[i]) in schema
    ensures PlainFields(keys, entity, schema, last).Ok?
    ensures var decoded := DecodeCursor(EncodeCursor(PlainFields(keys, entity, schema, last).value, utils),
                                        PlainResolver(entity, schema), utils);
      && decoded.Ok? && |decoded.value| > 0
      && (Satisfies(CursorQuery(Tiers(PlainKeyRefs(alias, keys), op), Params(PlainKeyRefs(alias, keys), decoded.value)), row, less)
          <==> LexBeyond(RowTuple(PlainKeyRefs(alias, keys), row), KeyValues(keys, last), op, less))
  {
    PlainRoundTrip(keys, entity, schema, utils, last);
    var decoded := DecodeCursor(EncodeCursor(PlainFields(keys, entity, schema, last).value, utils),
                                PlainResolver(entity, schema), utils).value;
    assert keys[0] in decoded.Keys;
    var refs := PlainKeyRefs(alias, keys);
    RowParams(keys, alias, decoded, last);
    TiersAreLexicographic(refs, op, row, Params(refs, decoded), less);
  }

  /** The page `paginate` returns (or the error it throws) and the outgoing cursors it leaves. */
  datatype PageOutcome = PageOutcome(result: Result<PagingResult>, nextAfter: Option<string>, nextBefore: Option<string>)

  // ---------------------------------------------------------------------------
  // The paginator object.
  // ---------------------------------------------------------------------------

  class Paginator {
    const variant: Variant
    const entity: string
    const utils: Utils
    const schema: Schema

    var afterCursor: Option<string>
    var beforeCursor: Option<string>
    var nextAfterCursor: Option<string>
    var nextBeforeCursor: Option<string>
    var alias: string
    var limit: int
    var order: Order
    var paginationKeys: seq<string>
    var paginationKeysConfig: seq<J.KeyConfig>
    var getMethod: string

    /** `new Paginator(entity)` (or `new PaginatorJoin(entity)`), with the field initialisers. */
    constructor (variant: Variant, entity: string, utils: Utils, schema: Schema)
      ensures this.variant == variant && this.entity == entity && this.utils == utils && this.schema == schema
      ensures afterCursor == None && beforeCursor == None
      ensures nextAfterCursor == None && nextBeforeCursor == None
      ensures alias == utils.pascalToUnderscore(entity)
      ensures limit == 100 && order == DESC
      ensures paginationKeys == [] && paginationKeysConfig == []
      ensures getMethod == "getMany"
    {
      this.variant := variant;
      this.entity := entity;
      this.utils := utils;
      this.schema := schema;
      afterCursor := None;
      beforeCursor := None;
      nextAfterCursor := None;
      nextBeforeCursor := None;
      alias := utils.pascalToUnderscore(entity);
      limit := 100;
      order := DESC;
      paginationKeys := [];
      paginationKeysConfig := [];
      getMethod := "getMany";
    }

    method SetAlias(alias: string)
      modifies this`alias
      ensures this.alias == alias
    {
      this.alias := alias;
    }

    method SetAfterCursor(cursor: string)
      modifies this`afterCursor
      ensures afterCursor == Some(cursor)
    {
      afterCursor := Some(cursor);
    }

    method SetBeforeCursor(cursor: string)
      modifies this`beforeCursor
      ensures beforeCursor == Some(cursor)
    {
      beforeCursor := Some(cursor);
    }

    method SetLimit(limit: int)
      modifies this`limit
      ensures this.limit == limit
    {
      this.limit := limit;
    }

    method SetOrder(order: Order)
      modifies this`order
      ensures this.order == order
    {
      this.order := order;
    }

    /**
     * `setPaginationKeys`: the base class stores the key names; the join
     * class defaults each key into a config and stores the configs, unless
     * a key has no design type, in which case it throws and stores nothing.
     */
    method SetPaginationKeys(keys: seq<J.KeySpec>) returns (r: Result<()>)
      requires variant == Plain ==> forall i :: 0 <= i < |keys| ==> keys[i].KeyName?
      modifies this`paginationKeys, this`paginationKeysConfig
      ensures variant == Plain ==> r.Ok? && paginationKeysConfig == old(paginationKeysConfig)
      ensures variant == Plain ==> paginationKeys == seq(|keys|, i requires 0 <= i < |keys| => keys[i].key)
      ensures variant == Joined ==> paginationKeys == old(paginationKeys)
      ensures variant == Joined ==>
        (r.Ok? <==> forall i :: 0 <= i < |keys| ==> (J.EntityOf(keys[i], entity), J.PropertyOf(keys[i])) in schema)
      ensures variant == Joined && r.Err? ==> paginationKeysConfig == old(paginationKeysConfig)
      ensures variant == Joined && r.Ok? ==> |paginationKeysConfig| == |keys|
      ensures variant == Joined && r.Ok? ==>
        forall i :: 0 <= i < |keys| ==> J.Defaulted(keys[i], paginationKeysConfig[i], entity, alias, schema)
    {
      match variant {
        case Plain =>
          paginationKeys := seq(|keys|, i requires 0 <= i < |keys| => keys[i].key);
          r := Ok(());
        case Joined =>
          var configs := J.DefaultConfigs(keys, entity, alias, schema);
          if configs.Err? {
            return Err(configs.error);
          }
          paginationKeysConfig := configs.value;
          r := Ok(());
      }
    }

    predicate HasAfterCursor()
      reads this`afterCursor
    {
      afterCursor.Some?
    }

    predicate HasBeforeCursor()
      reads this`beforeCursor
    {
      beforeCursor.Some?
    }

    /**
     * The direction rows are fetched in (`buildOrder`'s `order`): the
     * nominal order, flipped exactly when paging backwards from a before
     * cursor with no after cursor.
     */
    function ScanOrder(): (dir: Order)
      reads this`afterCursor, this`beforeCursor, this`order
      ensures dir != order <==> !HasAfterCursor() && HasBeforeCursor()
    {
      if !HasAfterCursor() && HasBeforeCursor() then FlipOrder(order) else order
    }

    /**
     * `getOperator`. With a cursor the bound is strict and points the way
     * rows are fetched (`>` exactly when scanning ascending), the after
     * cursor taking precedence; with none it is `=`.
     */
    function GetOperator(): (op: Operator)
      reads this`afterCursor, this`beforeCursor, this`order
      ensures op == Eq <==> !HasAfterCursor() && !HasBeforeCursor()
      ensures op != Eq ==> (op == Gt <==> ScanOrder() == ASC)
      ensures HasAfterCursor() ==> op == (if order == ASC then Gt else Lt)
    {
      if HasAfterCursor() then (if order == ASC then Gt else Lt)
      else if HasBeforeCursor() then (if order == ASC then Lt else Gt)
      else Eq
    }

    /** The rows of a backward page are reversed into display order. */
    predicate Reverses()
      reads this`afterCursor, this`beforeCursor
    {
      !HasAfterCursor() && HasBeforeCursor()
    }

    /** The cursor `appendPagingQuery` decodes: the after cursor in preference to the before cursor. */
    function Boundary(): (c: Option<string>)
      reads this`afterCursor, this`beforeCursor
      ensures c.Some? <==> HasAfterCursor() || HasBeforeCursor()
      ensures HasAfterCursor() ==> c == afterCursor
      ensures !HasAfterCursor() ==> c == beforeCursor
    {
      if HasAfterCursor() then afterCursor else beforeCursor
    }

    function CursorKeys(): seq<KeyRef>
      reads this`alias, this`paginationKeys, this`paginationKeysConfig
    {
      match variant
      case Plain => PlainKeyRefs(alias, paginationKeys)
      case Joined => J.KeyRefs(paginationKeysConfig)
    }

    function OrderColumns(): seq<string>
      reads this`alias, this`paginationKeys, this`paginationKeysConfig
    {
      match variant
      case Plain => PlainOrderColumns(alias, paginationKeys)
      case Joined => J.OrderColumns(paginationKeysConfig)
    }

    function KeyResolver(): ColumnResolver
      reads this`paginationKeysConfig
    {
      match variant
      case Plain => PlainResolver(entity, schema)
      case Joined => J.AliasResolver(paginationKeysConfig)
    }

    /**
     * `encode`: the cursor of a row. The base class looks up each key's
     * design type, throwing for a key without one, and writes the segment
     * `key:value` of the row's value per key, in order.
     */
    function Encode(row: Row): (r: Result<string>)
      reads this`paginationKeys, this`paginationKeysConfig
      ensures variant == Joined ==> r.Ok?
      // the join variant's cursor is the one its key configs encode
      ensures variant == Joined ==> r == Ok(J.Encode(paginationKeysConfig, utils, row))
      ensures variant == Plain ==>
        (r.Ok? <==> forall i :: 0 <= i < |paginationKeys| ==> (entity, paginationKeys[i]) in schema)
      ensures variant == Plain && r.Err? ==> r.error == UnknownProperty(entity, UntypedKey(paginationKeys, entity, schema).value)
      ensures variant == Plain && r.Ok? && Sound(utils) && |paginationKeys| >= 1 &&
              (forall i :: 0 <= i < |paginationKeys| ==> ',' !in paginationKeys[i]) ==>
        utils.atob(r.value).Some? &&
        var segments := Split(utils.atob(r.value).value, ',');
        |segments| == |paginationKeys| &&
        forall k :: 0 <= k < |paginationKeys| ==>
          segments[k] == paginationKeys[k] + ":" +
                         utils.encodeByType(schema[(entity, paginationKeys[k])], Field(row, paginationKeys[k]))
    {
      match variant
      case Plain =>
        var fields :- PlainFields(paginationKeys, entity, schema, row);
        Ok(EncodeCursor(fields, utils))
      case Joined => Ok(J.Encode(paginationKeysConfig, utils, row))
    }

    /** `decode`. */
    method Decode(cursor: string) returns (r: Result<map<string, Value>>)
      ensures r == DecodeCursor(cursor, KeyResolver(), utils)
    {
      r := CursorFormat.Decode(cursor, KeyResolver(), utils);
    }

    /** The cursor `appendPagingQuery` decodes, or nothing when there is none. */
    function BoundaryCursors(): Result<map<string, Value>>
      reads this`afterCursor, this`beforeCursor, this`paginationKeysConfig
    {
      if Boundary().Some? then DecodeCursor(Boundary().value, KeyResolver(), utils) else Ok(map[])
    }

    /** The query `appendPagingQuery` builds, as a function of the fields. */
    function IssuedQuery(): (r: Result<SelectQuery>)
      reads this`afterCursor, this`beforeCursor, this`order, this`alias, this`limit
      reads this`paginationKeys, this`paginationKeysConfig
      ensures Boundary().None? ==> r.Ok? && r.value.cursorQuery.None?
      ensures Boundary().Some? ==> (r.Err? <==> DecodeCursor(Boundary().value, KeyResolver(), utils).Err?)
      ensures r.Err? ==> r.error == DecodeCursor(Boundary().value, KeyResolver(), utils).error
      ensures r.Ok? ==> r.value.limit == limit + 1
      ensures Boundary().Some? && r.Ok? ==>
        (r.value.cursorQuery.None? <==> DecodeCursor(Boundary().value, KeyResolver(), utils).value == map[])
      ensures r.Ok? && r.value.cursorQuery.Some? ==>
        r.value.cursorQuery.value.tiers == Tiers(CursorKeys(), GetOperator())
      // every key's parameter is bound to the decoded cursor's value for it
      ensures r.Ok? && r.value.cursorQuery.Some? ==>
        BoundaryCursors().Ok? && r.value.cursorQuery.value.params.Keys == ParamNames(CursorKeys())
      ensures r.Ok? && r.value.cursorQuery.Some? ==>
        forall i :: 0 <= i < |CursorKeys()| ==>
          r.value.cursorQuery.value.params[CursorKeys()[i].param] == Field(BoundaryCursors().value, CursorKeys()[i].param)
      ensures r.Ok? ==> |r.value.orderBy| == |OrderColumns()|
      ensures r.Ok? ==>
        forall i :: 0 <= i < |r.value.orderBy| ==> r.value.orderBy[i] == OrderTerm(OrderColumns()[i], ScanOrder())
    {
      var cursors :- BoundaryCursors();
      ParamsBind(CursorKeys(), cursors);
      var condition :=
        if |cursors| > 0 then Some(CursorQuery(Tiers(CursorKeys(), GetOperator()), Params(CursorKeys(), cursors)))
        else None;
      Ok(SelectQuery(condition, OrderBy(OrderColumns(), ScanOrder()), limit + 1))
    }

    /** The decoding step of `appendPagingQuery`: the after cursor if set, else the before cursor. */
    method DecodeBoundary() returns (r: Result<map<string, Value>>)
      ensures r == BoundaryCursors()
    {
      r := Ok(map[]);
      if HasAfterCursor() {
        r := Decode(afterCursor.value);
      } else if HasBeforeCursor() {
        r := Decode(beforeCursor.value);
      }
    }

    /**
     * `appendPagingQuery`: decode the after cursor, else the before cursor;
     * add the tiered condition only when something was decoded; always ask
     * for `limit + 1` rows, ordered on every key in the scan direction.
     */
    method AppendPagingQuery() returns (r: Result<SelectQuery>)
      ensures r == IssuedQuery()
    {
      var decoded := DecodeBoundary();
      if decoded.Err? {
        return Err(decoded.error);
      }
      var condition := Condition(decoded.value);
      var orderBy := BuildOrder(OrderColumns(), ScanOrder());
      r := Ok(SelectQuery(condition, orderBy, limit + 1));
    }

    /** The bracketed condition of `appendPagingQuery`: added only when the cursor decoded to something. */
    method Condition(cursors: map<string, Value>) returns (condition: Option<CursorQuery>)
      ensures condition == if |cursors| > 0 then Some(CursorQuery(Tiers(CursorKeys(), GetOperator()), Params(CursorKeys(), cursors))) else None
    {
      condition := None;
      if |cursors| > 0 {
        var q := BuildCursorQuery(CursorKeys(), GetOperator(), cursors);
        condition := Some(q);
      }
    }

    /**
     * What `paginate` makes of the fetched rows, given the outgoing cursors
     * it starts from: the page, and the outgoing cursors it leaves behind.
     */
    function Assemble(rows: seq<Row>, prevAfter: Option<string>, prevBefore: Option<string>): (outcome: PageOutcome)
      reads this`afterCursor, this`beforeCursor, this`limit, this`paginationKeys, this`paginationKeysConfig
      // an empty page returns the cursors as they were and changes nothing
      ensures PageData(rows, limit, Reverses()) == [] ==>
        outcome == PageOutcome(Ok(PagingResult([], Cursor(prevBefore, prevAfter))), prevAfter, prevBefore)
      // a page that is returned holds the trimmed rows in display order, with the cursors left behind
      ensures outcome.result.Ok? ==>
        outcome.result.value.data == PageData(rows, limit, Reverses()) &&
        outcome.result.value.cursor == Cursor(outcome.nextBefore, outcome.nextAfter)
      // the after cursor points at the last row shown, when emitted
      ensures outcome.result.Ok? && PageData(rows, limit, Reverses()) != [] ==>
        var data := PageData(rows, limit, Reverses());
        if EmitsAfter(HasBeforeCursor(), |rows| > limit)
        then Encode(data[|data| - 1]).Ok? && outcome.nextAfter == Some(Encode(data[|data| - 1]).value)
        else outcome.nextAfter == prevAfter
      // the before cursor points at the first row shown, when emitted
      ensures outcome.result.Ok? && PageData(rows, limit, Reverses()) != [] ==>
        var data := PageData(rows, limit, Reverses());
        if EmitsBefore(HasAfterCursor(), HasBeforeCursor(), |rows| > limit)
        then Encode(data[0]).Ok? && outcome.nextBefore == Some(Encode(data[0]).value)
        else outcome.nextBefore == prevBefore
      // a throw happens while encoding; the before cursor is then untouched
      ensures outcome.result.Err? ==> outcome.nextBefore == prevBefore
    {
      var hasMore := |rows| > limit;
      var data := PageData(rows, limit, Reverses());
      if data == [] then PageOutcome(Ok(PagingResult([], Cursor(prevBefore, prevAfter))), prevAfter, prevBefore)
      else Emit(data, hasMore, prevAfter, prevBefore)
    }

    /**
     * A first page (no incoming cursor) never emits a before cursor, and
     * emits an after cursor exactly when there were more rows.
     */
    lemma FirstPageCursors(rows: seq<Row>, prevAfter: Option<string>, prevBefore: Option<string>)
      requires !HasAfterCursor() && !HasBeforeCursor()
      ensures Assemble(rows, prevAfter, prevBefore).nextBefore == prevBefore
      ensures Assemble(rows, prevAfter, prevBefore).result.Ok? && PageData(rows, limit, false) != [] ==>
        (Assemble(rows, prevAfter, prevBefore).nextAfter != prevAfter ==> |rows| > limit)
      ensures Assemble(rows, prevAfter, prevBefore).result.Ok? && PageData(rows, limit, false) != [] && |rows| > limit ==>
        Assemble(rows, prevAfter, prevBefore).nextAfter.Some?
    {
    }

    /** The cursor emission of `paginate` for a non-empty page: after cursor first, then before cursor. */
    function Emit(data: seq<Row>, hasMore: bool, prevAfter: Option<string>, prevBefore: Option<string>): (outcome: PageOutcome)
      requires data != []
      reads this`afterCursor, this`beforeCursor, this`paginationKeys, this`paginationKeysConfig
      // a page that is returned holds the rows given, with the cursors left behind
      ensures outcome.result.Ok? ==> outcome.result.value == PagingResult(data, Cursor(outcome.nextBefore, outcome.nextAfter))
      // it throws exactly when a cursor it has to write cannot be encoded
      ensures outcome.result.Err? <==>
        (EmitsAfter(HasBeforeCursor(), hasMore) && Encode(data[|data| - 1]).Err?) ||
        (EmitsBefore(HasAfterCursor(), HasBeforeCursor(), hasMore) && Encode(data[0]).Err?)
      // a cursor it does not have to write keeps its previous value
      ensures !EmitsAfter(HasBeforeCursor(), hasMore) ==> outcome.nextAfter == prevAfter
      ensures !EmitsBefore(HasAfterCursor(), HasBeforeCursor(), hasMore) ==> outcome.nextBefore == prevBefore
      // the after cursor is written first: when it throws, neither cursor changes
      ensures EmitsAfter(HasBeforeCursor(), hasMore) && Encode(data[|data| - 1]).Err? ==>
        outcome.nextAfter == prevAfter && outcome.nextBefore == prevBefore
      // a cursor it writes is the cursor of the last row (after) or of the first row (before)
      ensures EmitsAfter(HasBeforeCursor(), hasMore) && Encode(data[|data| - 1]).Ok? ==>
        outcome.nextAfter == Some(Encode(data[|data| - 1]).value)
      ensures outcome.result.Ok? && EmitsBefore(HasAfterCursor(), HasBeforeCursor(), hasMore) ==>
        Encode(data[0]).Ok? && outcome.nextBefore == Some(Encode(data[0]).value)
    {
      var after := NextCursor(EmitsAfter(HasBeforeCursor(), hasMore), Encode(data[|data| - 1]), prevAfter);
      var before := NextCursor(EmitsBefore(HasAfterCursor(), HasBeforeCursor(), hasMore), Encode(data[0]), prevBefore);
      if after.Err? then PageOutcome(Err(after.error), prevAfter, prevBefore)
      else if before.Err? then PageOutcome(Err(before.error), after.value, prevBefore)
      else PageOutcome(Ok(PagingResult(data, Cursor(before.value, after.value))), after.value, before.value)
    }

    /**
     * `paginate`: build the query, fetch, and assemble the page; a cursor
     * that does not decode, or a key without a design type, throws.
     */
    method Paginate(fetch: (string, SelectQuery) -> seq<Row>) returns (r: Result<PagingResult>)
      modifies this`nextAfterCursor, this`nextBeforeCursor
      ensures IssuedQuery().Err? ==>
        r == Err(IssuedQuery().error) &&
        nextAfterCursor == old(nextAfterCursor) && nextBeforeCursor == old(nextBeforeCursor)
      ensures IssuedQuery().Ok? ==>
        var outcome := Assemble(fetch(getMethod, IssuedQuery().value), old(nextAfterCursor), old(nextBeforeCursor));
        r == outcome.result && nextAfterCursor == outcome.nextAfter && nextBeforeCursor == outcome.nextBefore
    {
      var query := AppendPagingQuery();
      if query.Err? {
        return Err(query.error);
      }
      var rows := fetch(getMethod, query.value);
      r := AssemblePage(rows);
      assert IssuedQuery() == query;
    }

    /** The part of `paginate` after the fetch: trim, reverse, emit cursors. */
    method AssemblePage(rows: seq<Row>) returns (r: Result<PagingResult>)
      modifies this`nextAfterCursor, this`nextBeforeCursor
      ensures var outcome := Assemble(rows, old(nextAfterCursor), old(nextBeforeCursor));
        r == outcome.result && nextAfterCursor == outcome.nextAfter && nextBeforeCursor == outcome.nextBefore
    {
      var hasMore := |rows| > limit;
      var entities := rows;
      if hasMore {
        entities := DropLast(entities);
      }
      if |entities| == 0 {
        return Ok(PagingResult(entities, GetCursor()));
      }
      if !HasAfterCursor() && HasBeforeCursor() {
        entities := Reverse(entities);
      }
      assert entities == PageData(rows, limit, Reverses());
      r := EmitCursors(entities, hasMore);
    }

    /** The emission steps of `paginate`, on the non-empty page in display order. */
    method EmitCursors(entities: seq<Row>, hasMore: bool) returns (r: Result<PagingResult>)
      requires entities != []
      modifies this`nextAfterCursor, this`nextBeforeCursor
      ensures var outcome := Emit(entities, hasMore, old(nextAfterCursor), old(nextBeforeCursor));
        r == outcome.result && nextAfterCursor == outcome.nextAfter && nextBeforeCursor == outcome.nextBefore
    {
      if HasBeforeCursor() || hasMore {
        var encoded := Encode(entities[|entities| - 1]);
        if encoded.Err? {
          return Err(encoded.error);
        }
        nextAfterCursor := Some(encoded.value);
      }
      if HasAfterCursor() || (hasMore && HasBeforeCursor()) {
        var encoded := Encode(entities[0]);
        if encoded.Err? {
          return Err(encoded.error);
        }
        nextBeforeCursor := Some(encoded.value);
      }
      r := Ok(PagingResult(entities, GetCursor()));
    }

    /** `getCursor`. */
    function GetCursor(): (c: Cursor)
      reads this`nextAfterCursor, this`nextBeforeCursor
      ensures c.afterCursor == nextAfterCursor && c.beforeCursor == nextBeforeCursor
    {
      Cursor(nextBeforeCursor, nextAfterCursor)
    }
  }
}
