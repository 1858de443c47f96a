/**
 * `buildPaginator`: a paginator configured from an options object, each
 * setting applied only when the caller gave it (and, for the query
 * settings, only when it is truthy).
 */
module Factory {
  import opened Types
  import opened CursorFormat
  import opened Query
  import opened Pagination

  /** The caller's paging request; every part optional. */
  datatype PagingQuery = PagingQuery(
    afterCursor: Option<string>,
    beforeCursor: Option<string>,
    limit: Option<int>,
    order: Option<Order>)

  /** `PaginationOptions`: the entity class (by name) and the optional settings. */
  datatype PaginationOptions = PaginationOptions(
    entity: string,
    alias: Option<string>,
    query: Option<PagingQuery>,
    paginationKeys: Option<seq<string>>,
    paginator: Option<Variant>,
    getMethod: Option<string>)

  /** `query = {}`: an absent query is an empty one. */
  function RequestOf(options: PaginationOptions): PagingQuery
  {
    if options.query.Some? then options.query.value else PagingQuery(None, None, None, None)
  }

  /**
   * The state `buildPaginator` leaves a paginator in. The class is the one
   * given, else the base class; the alias is the one given, else the
   * lower-cased entity name; cursors and the get method are set only when
   * truthy, the limit only when non-zero, the order only when given, and
   * the pagination keys keep the constructor's value: they stay empty, as
   * they go to a constructor that does not take them. Paging changes none
   * of these fields.
   */
  ghost predicate Configured(p: Paginator, options: PaginationOptions, utils: Utils, schema: Schema)
    reads p`alias, p`afterCursor, p`beforeCursor, p`limit, p`order, p`getMethod
    reads p`paginationKeys, p`paginationKeysConfig
  {
    var q := RequestOf(options);
    && p.variant == (if options.paginator.Some? then options.paginator.value else Plain)
    && p.entity == options.entity && p.utils == utils && p.schema == schema
    && p.alias == (if options.alias.Some? then options.alias.value else ToLower(options.entity))
    && p.afterCursor == (if Truthy(q.afterCursor) then q.afterCursor else None)
    && p.beforeCursor == (if Truthy(q.beforeCursor) then q.beforeCursor else None)
    && p.limit == (if q.limit.Some? && q.limit.value != 0 then q.limit.value else 100)
    && p.order == (if q.order.Some? then q.order.value else DESC)
    && p.getMethod == OrElse(options.getMethod, "getMany")
    && p.paginationKeys == [] && p.paginationKeysConfig == []
  }

  method BuildPaginator(options: PaginationOptions, utils: Utils, schema: Schema) returns (p: Paginator)
    ensures fresh(p)
    ensures Configured(p, options, utils, schema)
    ensures p.nextAfterCursor == None && p.nextBeforeCursor == None
  {
    var variant := if options.paginator.Some? then options.paginator.value else Plain;
    var query := RequestOf(options);
    var alias := if options.alias.Some? then options.alias.value else ToLower(options.entity);
    p := new Paginator(variant, options.entity, utils, schema);
    if Truthy(options.getMethod) {
      p.getMethod := options.getMethod.value;
    }
    p.SetAlias(alias);
    ApplyRequest(p, query);
  }

  /** The query part of `buildPaginator`: each setting applied only when truthy. */
  method ApplyRequest(p: Paginator, query: PagingQuery)
    modifies p`afterCursor, p`beforeCursor, p`limit, p`order
    ensures p.afterCursor == (if Truthy(query.afterCursor) then query.afterCursor else old(p.afterCursor))
    ensures p.beforeCursor == (if Truthy(query.beforeCursor) then query.beforeCursor else old(p.beforeCursor))
    ensures p.limit == (if query.limit.Some? && query.limit.value != 0 then query.limit.value else old(p.limit))
    ensures p.order == (if query.order.Some? then query.order.value else old(p.order))
  {
    if Truthy(query.afterCursor) {
      p.SetAfterCursor(query.afterCursor.value);
    }
    if Truthy(query.beforeCursor) {
      p.SetBeforeCursor(query.beforeCursor.value);
    }
    if query.limit.Some? && query.limit.value != 0 {
      p.SetLimit(query.limit.value);
    }
    if query.order.Some? {
      p.SetOrder(query.order.value);
    }
  }

  /**
   * A base paginator without keys writes a cursor with no segment, and
   * reading that cursor back asks for the type of an empty property name,
   * which throws unless the entity records one.
   */
  lemma KeylessCursorUnreadable(entity: string, schema: Schema, utils: Utils, row: Row)
    requires Sound(utils) && (entity, "") !in schema
    ensures PlainFields([], entity, schema, row) == Ok([])
    ensures DecodeCursor(EncodeCursor([], utils), PlainResolver(entity, schema), utils) == Err(UnknownProperty(entity, ""))
  {
    assert Join(Segments([], utils), ',') == "";
    assert Split("", ',') == [""];
    assert Split("", ':') == [""];
    assert [""][..0] == [];
  }

  /**
   * So a page built by `buildPaginator` carries no key condition and no
   * ordering, whatever the cursors say, once its cursor decodes at all.
   */
  lemma KeylessQuery(p: Paginator, options: PaginationOptions, utils: Utils, schema: Schema)
    requires Configured(p, options, utils, schema) && p.variant == Plain
    ensures p.IssuedQuery().Ok? ==> p.IssuedQuery().value.orderBy == []
    ensures p.IssuedQuery().Ok? && p.IssuedQuery().value.cursorQuery.Some? ==>
      p.IssuedQuery().value.cursorQuery.value.tiers == []
  {
  }
}
