/**
 * `PaginatorUtil`: steps forwards and backwards through a result set. It
 * keeps the caller's options untouched, remembers the cursor pair of the
 * last page, and builds each step's options from the two: the original
 * request with the remembered cursor of the step's direction laid over it.
 */
module Traversal {
  import opened Types
  import opened Query
  import opened Pagination
  import opened Factory

  /** `DIRECTION`: `PREV` is `'before'`, `NEXT` is `'after'`; each names the cursor it reads. */
  datatype Direction = Before | After

  /** What a step returns: the rows, and the cursor pair unless pagination has ended. */
  datatype StepResult = StepResult(data: seq<Row>, cursor: Option<Cursor>)

  /** `cursor[type + 'Cursor']`: the remembered cursor of a direction. */
  function Remembered(c: Cursor, dir: Direction): Option<string>
  {
    match dir
    case After => c.afterCursor
    case Before => c.beforeCursor
  }

  /**
   * `defaults({[key]: value}, query)`: the request with the direction's
   * cursor set to `value` and every other setting taken from `query`
   * (an absent query contributes nothing).
   */
  function Override(query: Option<PagingQuery>, dir: Direction, value: string): (q: PagingQuery)
    ensures dir == After ==> q.afterCursor == Some(value)
    ensures dir == Before ==> q.beforeCursor == Some(value)
    ensures dir == After && query.Some? ==> q.beforeCursor == query.value.beforeCursor
    ensures dir == Before && query.Some? ==> q.afterCursor == query.value.afterCursor
    ensures dir == After && query.None? ==> q.beforeCursor.None?
    ensures dir == Before && query.None? ==> q.afterCursor.None?
    ensures query.Some? ==> q.limit == query.value.limit && q.order == query.value.order
    ensures query.None? ==> q.limit.None? && q.order.None?
  {
    var base := if query.Some? then query.value else PagingQuery(None, None, None, None);
    match dir
    case After => base.(afterCursor := Some(value))
    case Before => base.(beforeCursor := Some(value))
  }

  /** `{ getMethod: 'getRawMany', ...options }`: raw rows unless the options name a method. */
  function WithRawDefault(options: PaginationOptions): (o: PaginationOptions)
    ensures o.getMethod == (if options.getMethod.Some? then options.getMethod else Some("getRawMany"))
    ensures o.(getMethod := options.getMethod) == options
  {
    if options.getMethod.Some? then options else options.(getMethod := Some("getRawMany"))
  }

  class PaginatorUtil {
    const options: PaginationOptions
    const fetch: (string, SelectQuery) -> seq<Row>
    const utils: Utils
    const schema: Schema

    var cursor: Option<Cursor>
    var data: seq<Row>

    constructor (options: PaginationOptions, fetch: (string, SelectQuery) -> seq<Row>, utils: Utils, schema: Schema)
      ensures this.options == options && this.fetch == fetch && this.utils == utils && this.schema == schema
      ensures cursor == None && data == []
    {
      this.options := options;
      this.fetch := fetch;
      this.utils := utils;
      this.schema := schema;
      cursor := None;
      data := [];
    }

    /**
     * `buildOptions(type, this.cursor)`: before the first page, the
     * caller's options as given; afterwards, none when the remembered
     * cursor of the direction is empty (the end of pagination), else the
     * caller's options with that cursor laid over their request.
     */
    function BuildOptions(dir: Direction): (o: Option<PaginationOptions>)
      reads this`cursor
      ensures cursor.None? ==> o == Some(options)
      ensures cursor.Some? ==> (o.None? <==> !Truthy(Remembered(cursor.value, dir)))
      ensures o.Some? ==> o.value.(query := options.query) == options
      ensures cursor.Some? && o.Some? ==>
        o.value.query == Some(Override(options.query, dir, Remembered(cursor.value, dir).value))
    {
      match cursor
      case None => Some(options)
      case Some(c) =>
        var value := Remembered(c, dir);
        if !Truthy(value) then None
        else Some(options.(query := Some(Override(options.query, dir, value.value))))
    }

    /** The page (or the throw) that paging once with `p`, whose outgoing cursors start empty, yields. */
    ghost function PageOf(p: Paginator): Result<PagingResult>
      reads p
    {
      var query := p.IssuedQuery();
      if query.Err? then Err(query.error)
      else p.Assemble(fetch(p.getMethod, query.value), None, None).result
    }

    /**
     * What storing `page` leaves behind, from the remembered cursor
     * `cursor0` and rows `data0`: the page and its cursor pair stored, or,
     * when paging threw, nothing stored.
     */
    ghost predicate Stored(page: Result<PagingResult>, r: Result<StepResult>, cursor0: Option<Cursor>, data0: seq<Row>)
      reads this`cursor, this`data
    {
      match page
      case Err(e) => r == Err(e) && cursor == cursor0 && data == data0
      case Ok(result) =>
        && r == Ok(StepResult(result.data, Some(result.cursor)))
        && data == result.data
        && cursor == Some(result.cursor)
    }

    /**
     * The outcome of a step taken with `opts`: without options, an empty
     * page and the cursor kept; otherwise what paging once with a paginator
     * configured from the options leaves behind.
     */
    ghost predicate Stepped(opts: Option<PaginationOptions>, r: Result<StepResult>, paginator: Paginator?,
                            cursor0: Option<Cursor>, data0: seq<Row>)
      reads this`cursor, this`data, paginator
    {
      match opts
      case None => r == Ok(StepResult([], None)) && data == [] && cursor == cursor0
      case Some(o) =>
        && paginator != null
        && Configured(paginator, WithRawDefault(o), utils, schema)
        && Stored(PageOf(paginator), r, cursor0, data0)
    }

    /** `end`: the empty page; the remembered cursor stays. */
    method End() returns (r: StepResult)
      modifies this`data
      ensures r == StepResult([], None) && data == []
    {
      data := [];
      r := StepResult([], None);
    }

    /** `goTo`: build a fresh paginator from the options, page once, remember the result. */
    method GoTo(opts: Option<PaginationOptions>) returns (r: Result<StepResult>, ghost paginator: Paginator?)
      modifies this`cursor, this`data
      ensures opts.Some? ==> paginator != null && fresh(paginator)
      ensures Stepped(opts, r, paginator, old(cursor), old(data))
    {
      if opts.None? {
        var ended := End();
        return Ok(ended), null;
      }
      var p := BuildPaginator(WithRawDefault(opts.value), utils, schema);
      paginator := p;
      var page := PageOnce(p);
      ghost var configured := Configured(p, WithRawDefault(opts.value), utils, schema);
      assert configured;
      assert this as object != p as object;
      r := Store(page);
      assert PageOf(p) == page;
      assert Configured(p, WithRawDefault(opts.value), utils, schema) == configured;
    }

    /** The last steps of `goTo`: remember the page's cursor pair and rows. */
    method Store(page: Result<PagingResult>) returns (r: Result<StepResult>)
      modifies this`cursor, this`data
      ensures Stored(page, r, old(cursor), old(data))
    {
      if page.Err? {
        return Err(page.error);
      }
      cursor := Some(page.value.cursor);
      data := page.value.data;
      r := Ok(StepResult(page.value.data, Some(page.value.cursor)));
    }

    /** `next`: a step with the options built from the remembered after cursor. */
    method Next() returns (r: Result<StepResult>, ghost paginator: Paginator?)
      modifies this`cursor, this`data
      ensures old(BuildOptions(After)).Some? ==> paginator != null && fresh(paginator)
      ensures Stepped(old(BuildOptions(After)), r, paginator, old(cursor), old(data))
    {
      var opts := BuildOptions(After);
      r, paginator := GoTo(opts);
    }

    /** `prev`: a step with the options built from the remembered before cursor. */
    method Prev() returns (r: Result<StepResult>, ghost paginator: Paginator?)
      modifies this`cursor, this`data
      ensures old(BuildOptions(Before)).Some? ==> paginator != null && fresh(paginator)
      ensures Stepped(old(BuildOptions(Before)), r, paginator, old(cursor), old(data))
    {
      var opts := BuildOptions(Before);
      r, paginator := GoTo(opts);
    }

    /**
     * `hasNext`: takes the forward step, keeping what it remembers, and
     * answers whether the step found rows; a throw of the step propagates.
     */
    method HasNext() returns (r: Result<bool>, ghost step: Result<StepResult>, ghost paginator: Paginator?)
      modifies this`cursor, this`data
      ensures old(BuildOptions(After)).Some? ==> paginator != null && fresh(paginator)
      ensures Stepped(old(BuildOptions(After)), step, paginator, old(cursor), old(data))
      ensures r.Err? <==> step.Err?
      ensures r.Err? ==> r.error == step.error
      ensures r.Ok? ==> (r.value <==> |data| > 0)
    {
      var taken;
      taken, paginator := Next();
      step := taken;
      if taken.Err? {
        return Err(taken.error), step, paginator;
      }
      r := Ok(|data| > 0);
    }

    /**
     * `hasPrev`: takes the backward step, keeping what it remembers, and
     * answers whether the step found rows; a throw of the step propagates.
     */
    method HasPrev() returns (r: Result<bool>, ghost step: Result<StepResult>, ghost paginator: Paginator?)
      modifies this`cursor, this`data
      ensures old(BuildOptions(Before)).Some? ==> paginator != null && fresh(paginator)
      ensures Stepped(old(BuildOptions(Before)), step, paginator, old(cursor), old(data))
      ensures r.Err? <==> step.Err?
      ensures r.Err? ==> r.error == step.error
      ensures r.Ok? ==> (r.value <==> |data| > 0)
    {
      var taken;
      taken, paginator := Prev();
      step := taken;
      if taken.Err? {
        return Err(taken.error), step, paginator;
      }
      r := Ok(|data| > 0);
    }

    /** `paginator.paginate(queryBuilder)` on a paginator whose outgoing cursors start empty. */
    method PageOnce(p: Paginator) returns (page: Result<PagingResult>)
      requires p.nextAfterCursor == None && p.nextBeforeCursor == None
      modifies p`nextAfterCursor, p`nextBeforeCursor
      ensures page == PageOf(p)
    {
      page := p.Paginate(fetch);
    }
  }

  /**
   * A step after the first resumes from the remembered cursor: the
   * paginator built for it carries that cursor in the step's direction, and
   * takes everything else from the caller's original options.
   */
  lemma ResumesFromRemembered(u: PaginatorUtil, dir: Direction, p: Paginator)
    requires u.cursor.Some? && u.BuildOptions(dir).Some?
    requires Configured(p, WithRawDefault(u.BuildOptions(dir).value), u.utils, u.schema)
    ensures dir == After ==> p.afterCursor == u.cursor.value.afterCursor
    ensures dir == Before ==> p.beforeCursor == u.cursor.value.beforeCursor
    ensures Configured(p, WithRawDefault(u.options).(query := u.BuildOptions(dir).value.query), u.utils, u.schema)
  {
  }
}
