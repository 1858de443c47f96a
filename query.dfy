/**
 * The part of the SELECT that the paginator contributes: the bracketed
 * "strictly beyond the cursor" condition, the ORDER BY and the row limit.
 * The condition is kept as data (tiers of comparisons), not SQL text, with
 * an evaluation over a row so that its meaning can be stated.
 */
module Query {
  import opened Types

  datatype Order = ASC | DESC

  /** `flipOrder`: the other direction. */
  function FlipOrder(order: Order): (flipped: Order)
    ensures flipped != order
  {
    if order == ASC then DESC else ASC
  }

  /** The comparison operators `>`, `<` and `=`. */
  datatype Operator = Gt | Lt | Eq

  /** A column reference `qualifier.name`. */
  datatype ColumnRef = ColumnRef(qualifier: string, name: string)

  /** A pagination key as the condition uses it: its column and the parameter that carries the cursor's value. */
  datatype KeyRef = KeyRef(column: ColumnRef, param: string)

  /** `column op :param`. */
  datatype Comparison = Comparison(column: ColumnRef, op: Operator, param: string)

  /** One disjunct: equalities on the earlier keys, ANDed with the bound on this key. */
  datatype Tier = Tier(equalities: seq<Comparison>, bound: Comparison)

  /** The bracketed condition: the OR of its tiers, with the parameters bound for it. */
  datatype CursorQuery = CursorQuery(tiers: seq<Tier>, params: map<string, Value>)

  /** One entry of the ORDER BY object. */
  datatype OrderTerm = OrderTerm(column: string, dir: Order)

  /** What paging adds to the caller's query: the optional condition, the order and the row limit. */
  datatype SelectQuery = SelectQuery(cursorQuery: Option<CursorQuery>, orderBy: seq<OrderTerm>, limit: int)

  /** The equalities `k_0 = :p_0 AND ... AND k_(n-1) = :p_(n-1)`. */
  function Equalities(keys: seq<KeyRef>): seq<Comparison>
  {
    seq(|keys|, j requires 0 <= j < |keys| => Comparison(keys[j].column, Eq, keys[j].param))
  }

  /** Tier i: the equalities on keys 0..i-1 and `k_i op :p_i`. */
  function Tiers(keys: seq<KeyRef>, op: Operator): seq<Tier>
  {
    seq(|keys|, i requires 0 <= i < |keys| => Tier(Equalities(keys[..i]), Comparison(keys[i].column, op, keys[i].param)))
  }

  function ParamNames(keys: seq<KeyRef>): set<string>
  {
    set i | 0 <= i < |keys| :: keys[i].param
  }

  /** The parameter bindings: every key's parameter bound to the cursor's value (or undefined). */
  function Params(keys: seq<KeyRef>, cursors: map<string, Value>): map<string, Value>
  {
    map p | p in ParamNames(keys) :: Field(cursors, p)
  }

  /** The bindings cover exactly the keys' parameters, each with the cursor's value for it. */
  lemma ParamsBind(keys: seq<KeyRef>, cursors: map<string, Value>)
    ensures Params(keys, cursors).Keys == ParamNames(keys)
    ensures forall i :: 0 <= i < |keys| ==> Params(keys, cursors)[keys[i].param] == Field(cursors, keys[i].param)
  {
    forall i | 0 <= i < |keys| ensures keys[i].param in ParamNames(keys) {}
  }

  /** `ORDER BY` entries for the given columns, all in one direction. */
  function OrderBy(columns: seq<string>, dir: Order): seq<OrderTerm>
  {
    seq(|columns|, i requires 0 <= i < |columns| => OrderTerm(columns[i], dir))
  }

  lemma TiersSnoc(keys: seq<KeyRef>, op: Operator)
    requires |keys| > 0
    ensures Tiers(keys, op) == Tiers(keys[..|keys| - 1], op) +
      [Tier(Equalities(keys[..|keys| - 1]), Comparison(keys[|keys| - 1].column, op, keys[|keys| - 1].param))]
  {
    var n := |keys| - 1;
    forall j | 0 <= j < n ensures keys[..n][..j] == keys[..j] {}
  }

  lemma EqualitiesSnoc(keys: seq<KeyRef>)
    requires |keys| > 0
    ensures Equalities(keys) == Equalities(keys[..|keys| - 1]) +
      [Comparison(keys[|keys| - 1].column, Eq, keys[|keys| - 1].param)]
  {
  }

  lemma ParamsSnoc(keys: seq<KeyRef>, cursors: map<string, Value>)
    requires |keys| > 0
    ensures Params(keys, cursors) ==
      Params(keys[..|keys| - 1], cursors)[keys[|keys| - 1].param := Field(cursors, keys[|keys| - 1].param)]
  {
    var n := |keys| - 1;
    assert ParamNames(keys) == ParamNames(keys[..n]) + {keys[n].param} by {
      forall p | p in ParamNames(keys) ensures p in ParamNames(keys[..n]) + {keys[n].param} {
        var j :| 0 <= j < n + 1 && keys[j].param == p;
        if j < n { assert keys[..n][j].param == p; }
      }
      forall p | p in ParamNames(keys[..n]) ensures p in ParamNames(keys) {
        var j :| 0 <= j < n && keys[..n][j].param == p;
        assert keys[j].param == p;
      }
    }
  }

  /**
   * `buildCursorQuery`: one `orWhere` per key, each made of the equalities
   * accumulated so far and the bound on the key; every key's parameter bound.
   */
  method BuildCursorQuery(keys: seq<KeyRef>, op: Operator, cursors: map<string, Value>) returns (q: CursorQuery)
    ensures q == CursorQuery(Tiers(keys, op), Params(keys, cursors))
    ensures |q.tiers| == |keys|
    ensures forall i :: 0 <= i < |keys| ==>
      q.tiers[i].bound == Comparison(keys[i].column, op, keys[i].param) &&
      q.tiers[i].equalities == Equalities(keys[..i])
    ensures q.params.Keys == ParamNames(keys)
    ensures forall i :: 0 <= i < |keys| ==> q.params[keys[i].param] == Field(cursors, keys[i].param)
  {
    var params: map<string, Value> := map[];
    var tiers: seq<Tier> := [];
    var query: seq<Comparison> := [];
    var i := 0;
    while i < |keys|
      invariant 0 <= i <= |keys|
      invariant tiers == Tiers(keys[..i], op)
      invariant query == Equalities(keys[..i])
      invariant params == Params(keys[..i], cursors)
    {
      var key := keys[i];
      ParamsSnoc(keys[..i + 1], cursors);
      TiersSnoc(keys[..i + 1], op);
      EqualitiesSnoc(keys[..i + 1]);
      assert keys[..i + 1][..i] == keys[..i];
      params := params[key.param := Field(cursors, key.param)];
      tiers := tiers + [Tier(query, Comparison(key.column, op, key.param))];
      query := query + [Comparison(key.column, Eq, key.param)];
      i := i + 1;
    }
    assert keys[..i] == keys;
    q := CursorQuery(tiers, params);
    forall j | 0 <= j < |keys| ensures keys[j].param in ParamNames(keys) {
    }
  }

  /** `buildOrder`'s loop: every key's column, in key order, with the one direction. */
  method BuildOrder(columns: seq<string>, dir: Order) returns (terms: seq<OrderTerm>)
    ensures terms == OrderBy(columns, dir)
    ensures |terms| == |columns|
    ensures forall i :: 0 <= i < |columns| ==> terms[i].column == columns[i] && terms[i].dir == dir
  {
    terms := [];
    var i := 0;
    while i < |columns|
      invariant 0 <= i <= |columns|
      invariant terms == OrderBy(columns[..i], dir)
    {
      terms := terms + [OrderTerm(columns[i], dir)];
      i := i + 1;
    }
    assert columns[..i] == columns;
  }

  // ---------------------------------------------------------------------------
  // Meaning of the condition, over a row whose columns have values.
  // ---------------------------------------------------------------------------

  /** `x op y`, with `less` the database's strict order on values. */
  predicate Compare(x: Value, op: Operator, y: Value, less: (Value, Value) -> bool)
  {
    match op
    case Gt => less(y, x)
    case Lt => less(x, y)
    case Eq => x == y
  }

  predicate Holds(c: Comparison, row: ColumnRef -> Value, params: map<string, Value>, less: (Value, Value) -> bool)
  {
    Compare(row(c.column), c.op, Field(params, c.param), less)
  }

  predicate TierHolds(t: Tier, row: ColumnRef -> Value, params: map<string, Value>, less: (Value, Value) -> bool)
  {
    (forall e :: e in t.equalities ==> Holds(e, row, params, less)) && Holds(t.bound, row, params, less)
  }

  /** The row passes the bracketed condition: some tier holds. */
  predicate Satisfies(q: CursorQuery, row: ColumnRef -> Value, less: (Value, Value) -> bool)
  {
    exists t :: t in q.tiers && TierHolds(t, row, q.params, less)
  }

  /** Lexicographic comparison of two tuples: the first differing position decides, by `op`. */
  predicate LexBeyond(xs: seq<Value>, ys: seq<Value>, op: Operator, less: (Value, Value) -> bool)
    requires |xs| == |ys|
  {
    |xs| > 0 && (Compare(xs[0], op, ys[0], less) || (xs[0] == ys[0] && LexBeyond(xs[1..], ys[1..], op, less)))
  }

  /** The row's values at the keys' columns. */
  function RowTuple(keys: seq<KeyRef>, row: ColumnRef -> Value): (t: seq<Value>)
    ensures |t| == |keys|
  {
    seq(|keys|, i requires 0 <= i < |keys| => row(keys[i].column))
  }

  /** The cursor's values, as bound to the keys' parameters. */
  function ParamTuple(keys: seq<KeyRef>, params: map<string, Value>): (t: seq<Value>)
    ensures |t| == |keys|
  {
    seq(|keys|, i requires 0 <= i < |keys| => Field(params, keys[i].param))
  }

  lemma TiersTail(keys: seq<KeyRef>, op: Operator, i: nat)
    requires i + 1 < |keys|
    ensures Tiers(keys, op)[i + 1].bound == Tiers(keys[1..], op)[i].bound
    ensures Tiers(keys, op)[i + 1].equalities == [Comparison(keys[0].column, Eq, keys[0].param)] + Tiers(keys[1..], op)[i].equalities
  {
    assert keys[1..][..i] == keys[..i + 1][1..];
  }

  /** The condition holds when tier 0 does, or the first key ties and the condition on the rest holds. */
  lemma SatisfiesUnfold(keys: seq<KeyRef>, op: Operator, row: ColumnRef -> Value,
                        params: map<string, Value>, less: (Value, Value) -> bool)
    requires |keys| > 0
    ensures Satisfies(CursorQuery(Tiers(keys, op), params), row, less)
        <==> Holds(Comparison(keys[0].column, op, keys[0].param), row, params, less)
             || (Holds(Comparison(keys[0].column, Eq, keys[0].param), row, params, less)
                 && Satisfies(CursorQuery(Tiers(keys[1..], op), params), row, less))
  {
    var tiers := Tiers(keys, op);
    var rest := keys[1..];
    var restTiers := Tiers(rest, op);
    var e0 := Comparison(keys[0].column, Eq, keys[0].param);
    assert tiers[0] == Tier([], Comparison(keys[0].column, op, keys[0].param));
    // tier i+1 of the keys is tier i of the rest with the first key's equality in front
    forall i | 0 <= i < |rest|
      ensures TierHolds(tiers[i + 1], row, params, less)
          <==> Holds(e0, row, params, less) && TierHolds(restTiers[i], row, params, less)
    {
      TiersTail(keys, op, i);
    }
    if Satisfies(CursorQuery(tiers, params), row, less) {
      var t :| t in tiers && TierHolds(t, row, params, less);
      var i :| 0 <= i < |tiers| && tiers[i] == t;
      if i > 0 {
        assert restTiers[i - 1] in restTiers;
      }
    }
    if Satisfies(CursorQuery(restTiers, params), row, less) && Holds(e0, row, params, less) {
      var t :| t in restTiers && TierHolds(t, row, params, less);
      var i :| 0 <= i < |restTiers| && restTiers[i] == t;
      assert tiers[i + 1] in tiers;
    }
    if Holds(Comparison(keys[0].column, op, keys[0].param), row, params, less) {
      assert tiers[0] in tiers;
    }
  }

  /**
   * The tier expansion means lexicographic comparison: a row passes the
   * condition exactly when its key tuple is strictly beyond the cursor's
   * tuple, in the sense of the operator, the first key deciding first.
   */
  lemma {:induction false} TiersAreLexicographic(keys: seq<KeyRef>, op: Operator, row: ColumnRef -> Value,
                                                 params: map<string, Value>, less: (Value, Value) -> bool)
    ensures Satisfies(CursorQuery(Tiers(keys, op), params), row, less)
        <==> LexBeyond(RowTuple(keys, row), ParamTuple(keys, params), op, less)
  {
    if keys == [] {
      assert Tiers(keys, op) == [];
    } else {
      var xs, ys := RowTuple(keys, row), ParamTuple(keys, params);
      SatisfiesUnfold(keys, op, row, params, less);
      TiersAreLexicographic(keys[1..], op, row, params, less);
      assert xs[1..] == RowTuple(keys[1..], row);
      assert ys[1..] == ParamTuple(keys[1..], params);
    }
  }
}
