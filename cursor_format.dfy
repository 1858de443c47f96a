/**
 * The cursor payload: `name:value` segments joined by `,`, wrapped by the
 * opaque token transform. Both paginator variants use it; they differ only
 * in which name a segment carries and where its decoded value is stored,
 * which a ColumnResolver captures.
 */
module CursorFormat {
  import opened Types

  /** `s.split(sep)` for a one-character separator: never empty, parts free of `sep`. */
  function Split(s: string, sep: char): (parts: seq<string>)
    ensures |parts| >= 1
    ensures forall i :: 0 <= i < |parts| ==> sep !in parts[i]
    decreases |s|
  {
    if |s| == 0 then [""]
    else
      var rest := Split(s[1..], sep);
      if s[0] == sep then [""] + rest
      else [[s[0]] + rest[0]] + rest[1..]
  }

  /** `parts.join(sep)`. */
  function Join(parts: seq<string>, sep: char): string
  {
    if |parts| == 0 then ""
    else if |parts| == 1 then parts[0]
    else parts[0] + [sep] + Join(parts[1..], sep)
  }

  lemma {:induction false} SplitPlain(s: string, sep: char)
    requires sep !in s
    ensures Split(s, sep) == [s]
    decreases |s|
  {
    if |s| > 0 {
      SplitPlain(s[1..], sep);
      assert [s[0]] + s[1..] == s;
    }
  }

  lemma {:induction false} SplitAfter(p: string, sep: char, t: string)
    requires sep !in p
    ensures Split(p + [sep] + t, sep) == [p] + Split(t, sep)
    decreases |p|
  {
    var s := p + [sep] + t;
    if |p| == 0 {
      assert s[1..] == t;
    } else {
      assert s[1..] == p[1..] + [sep] + t;
      SplitAfter(p[1..], sep, t);
      assert [p[0]] + p[1..] == p;
    }
  }

  /** Splitting a join gives back the parts, when no part holds the separator. */
  lemma {:induction false} SplitJoin(parts: seq<string>, sep: char)
    requires |parts| >= 1
    requires forall i :: 0 <= i < |parts| ==> sep !in parts[i]
    ensures Split(Join(parts, sep), sep) == parts
  {
    if |parts| == 1 {
      SplitPlain(parts[0], sep);
    } else {
      SplitJoin(parts[1..], sep);
      SplitAfter(parts[0], sep, Join(parts[1..], sep));
    }
  }

  /** Joining a split gives back the string, whatever it holds. */
  lemma {:induction false} JoinSplit(s: string, sep: char)
    ensures Join(Split(s, sep), sep) == s
    decreases |s|
  {
    if |s| > 0 {
      JoinSplit(s[1..], sep);
      var rest := Split(s[1..], sep);
      if s[0] == sep {
        assert [sep] + s[1..] == s;
      } else if |rest| == 1 {
        assert [s[0]] + s[1..] == s;
      } else {
        assert Join(rest, sep) == rest[0] + [sep] + Join(rest[1..], sep);
        assert rest[1..][1..] == rest[2..];
        assert [s[0]] + s[1..] == s;
      }
    }
  }

  /** One key of a cursor: the segment name, where decoding stores it, its codec type, its value. */
  datatype KeyValue = KeyValue(name: string, store: string, keyType: KeyType, value: Value)

  /** Maps a segment name to the key its value is stored under and the type it is decoded with. */
  type ColumnResolver = string -> Result<(string, KeyType)>

  /** The `name:value` segment of one key. */
  function Segment(f: KeyValue, utils: Utils): string
  {
    f.name + [':'] + utils.encodeByType(f.keyType, f.value)
  }

  function Segments(fields: seq<KeyValue>, utils: Utils): (segs: seq<string>)
    ensures |segs| == |fields|
  {
    seq(|fields|, i requires 0 <= i < |fields| => Segment(fields[i], utils))
  }

  /** With a sound codec and names free of `,`, no segment holds a `,`, so the payload splits back into them. */
  lemma SegmentsSplit(fields: seq<KeyValue>, utils: Utils)
    ensures Sound(utils) && |fields| >= 1 && (forall i :: 0 <= i < |fields| ==> ',' !in fields[i].name) ==>
      Split(Join(Segments(fields, utils), ','), ',') == Segments(fields, utils)
  {
    if Sound(utils) && |fields| >= 1 && (forall i :: 0 <= i < |fields| ==> ',' !in fields[i].name) {
      var segs := Segments(fields, utils);
      forall i | 0 <= i < |segs| ensures ',' !in segs[i] {
        assert segs[i] == fields[i].name + [':'] + utils.encodeByType(fields[i].keyType, fields[i].value);
      }
      SplitJoin(segs, ',');
    }
  }

  /**
   * `btoa(fields.map(name:value).join(','))`: a token that unwraps to one
   * `name:value` segment per field, in order.
   */
  function EncodeCursor(fields: seq<KeyValue>, utils: Utils): (cursor: string)
    ensures Sound(utils) && |fields| >= 1 && (forall i :: 0 <= i < |fields| ==> ',' !in fields[i].name) ==>
      utils.atob(cursor) == Some(Join(Segments(fields, utils), ',')) &&
      Split(utils.atob(cursor).value, ',') == Segments(fields, utils)
  {
    SegmentsSplit(fields, utils);
    utils.btoa(Join(Segments(fields, utils), ','))
  }

  /** One step of the decode loop: `[name, raw] = column.split(':')`, then resolve and decode. */
  function DecodeColumn(column: string, resolve: ColumnResolver, utils: Utils): (r: Result<(string, Value)>)
    // the name is resolved first: an unknown name throws before the value is looked at
    ensures resolve(Split(column, ':')[0]).Err? ==> r == Err(resolve(Split(column, ':')[0]).error)
    ensures resolve(Split(column, ':')[0]).Ok? && |Split(column, ':')| < 2 ==> r == Err(MissingValue(column))
    // a resolved name with a value part decodes exactly when the codec accepts that part
    ensures var parts := Split(column, ':');
      resolve(parts[0]).Ok? && |parts| >= 2 ==>
        (r.Ok? <==> utils.decodeByType(resolve(parts[0]).value.1, parts[1]).Some?)
    ensures var parts := Split(column, ':');
      resolve(parts[0]).Ok? && |parts| >= 2 && utils.decodeByType(resolve(parts[0]).value.1, parts[1]).None? ==>
        r == Err(UndecodableValue(column))
    // a decoded column stores the codec's value of the second part under the resolved key
    ensures r.Ok? ==>
      var parts := Split(column, ':');
      |parts| >= 2 && resolve(parts[0]).Ok? && r.value.0 == resolve(parts[0]).value.0 &&
      utils.decodeByType(resolve(parts[0]).value.1, parts[1]) == Some(r.value.1)
  {
    var parts := Split(column, ':');
    var target :- resolve(parts[0]);
    if |parts| < 2 then Err(MissingValue(column))
    else match utils.decodeByType(target.1, parts[1])
      case None => Err(UndecodableValue(column))
      case Some(v) => Ok((target.0, v))
  }

  /**
   * When no later column decodes to the same key as column `k`, the decoded
   * map holds column `k`'s value under that key.
   */
  ghost predicate LastWins(columns: seq<string>, k: int, resolve: ColumnResolver, utils: Utils, cursors: map<string, Value>)
    requires 0 <= k < |columns|
  {
    var entry := DecodeColumn(columns[k], resolve, utils);
    entry.Ok? && (forall m :: k < m < |columns| ==>
                    DecodeColumn(columns[m], resolve, utils).Ok? && DecodeColumn(columns[m], resolve, utils).value.0 != entry.value.0)
    ==> entry.value.0 in cursors && cursors[entry.value.0] == entry.value.1
  }

  /** Storing the last column's entry keeps every earlier column's last-wins value and adds its own. */
  lemma LastWinsSnoc(columns: seq<string>, init: seq<string>, resolve: ColumnResolver, utils: Utils,
                     cursors: map<string, Value>, entry: (string, Value), updated: map<string, Value>)
    requires |columns| > 0 && init == columns[..|columns| - 1] && updated == cursors[entry.0 := entry.1]
    requires forall k :: 0 <= k < |init| ==> LastWins(init, k, resolve, utils, cursors)
    requires DecodeColumn(columns[|columns| - 1], resolve, utils) == Ok(entry)
    ensures forall k :: 0 <= k < |columns| ==> LastWins(columns, k, resolve, utils, updated)
  {
    forall k | 0 <= k < |init| ensures LastWins(columns, k, resolve, utils, updated) {
      assert LastWins(init, k, resolve, utils, cursors);
      forall m | k < m < |init| ensures init[m] == columns[m] {}
    }
  }

  /**
   * The decode loop over the first columns: the first failing column aborts
   * it, so a decode that succeeds decoded every column, none skipped.
   */
  function DecodeColumns(columns: seq<string>, resolve: ColumnResolver, utils: Utils): (r: Result<map<string, Value>>)
    ensures r.Ok? ==> forall k :: 0 <= k < |columns| ==> DecodeColumn(columns[k], resolve, utils).Ok?
    // and conversely: when every column decodes on its own, the whole decode succeeds
    ensures (forall k :: 0 <= k < |columns| ==> DecodeColumn(columns[k], resolve, utils).Ok?) ==> r.Ok?
    ensures r.Ok? ==>
      r.value.Keys == set k | 0 <= k < |columns| && DecodeColumn(columns[k], resolve, utils).Ok? :: DecodeColumn(columns[k], resolve, utils).value.0
    // each key holds the value of the last column stored under it
    ensures r.Ok? ==> forall k :: 0 <= k < |columns| ==> LastWins(columns, k, resolve, utils, r.value)
    decreases |columns|
  {
    if columns == [] then Ok(map[])
    else
      var cursors :- DecodeColumns(columns[..|columns| - 1], resolve, utils);
      var entry :- DecodeColumn(columns[|columns| - 1], resolve, utils);
      LastWinsSnoc(columns, columns[..|columns| - 1], resolve, utils, cursors, entry, cursors[entry.0 := entry.1]);
      Ok(cursors[entry.0 := entry.1])
  }

  /**
   * `decode`: a token that does not unwrap throws; a decoded cursor decoded
   * every column of the payload and holds exactly their resolved keys.
   */
  function DecodeCursor(cursor: string, resolve: ColumnResolver, utils: Utils): (r: Result<map<string, Value>>)
    ensures utils.atob(cursor).None? ==> r == Err(MalformedToken)
    ensures r.Ok? ==> utils.atob(cursor).Some?
    ensures r.Ok? ==> var columns := Split(utils.atob(cursor).value, ',');
      && (forall k :: 0 <= k < |columns| ==> DecodeColumn(columns[k], resolve, utils).Ok?)
      && r.value.Keys == (set k | 0 <= k < |columns| :: DecodeColumn(columns[k], resolve, utils).value.0)
      && forall k :: 0 <= k < |columns| ==> LastWins(columns, k, resolve, utils, r.value)
  {
    match utils.atob(cursor)
    case None => Err(MalformedToken)
    case Some(payload) => DecodeColumns(Split(payload, ','), resolve, utils)
  }

  /** Conversely, a token that unwraps to columns that each decode is accepted. */
  lemma DecodeCursorComplete(cursor: string, resolve: ColumnResolver, utils: Utils)
    requires utils.atob(cursor).Some?
    requires forall k :: 0 <= k < |Split(utils.atob(cursor).value, ',')| ==>
               DecodeColumn(Split(utils.atob(cursor).value, ',')[k], resolve, utils).Ok?
    ensures DecodeCursor(cursor, resolve, utils).Ok?
  {
  }

  /** Once a prefix of the columns fails, the whole decode fails the same way. */
  lemma {:induction false} DecodeColumnsErr(columns: seq<string>, k: nat, resolve: ColumnResolver, utils: Utils)
    requires k <= |columns|
    requires DecodeColumns(columns[..k], resolve, utils).Err?
    ensures DecodeColumns(columns, resolve, utils) == DecodeColumns(columns[..k], resolve, utils)
    decreases |columns| - k
  {
    if k < |columns| {
      assert columns[..k + 1][..k] == columns[..k];
      DecodeColumnsErr(columns, k + 1, resolve, utils);
    } else {
      assert columns[..k] == columns;
    }
  }

  /** Decoding, as the source does it: split the payload, fold the columns into a map. */
  method Decode(cursor: string, resolve: ColumnResolver, utils: Utils) returns (r: Result<map<string, Value>>)
    ensures r == DecodeCursor(cursor, resolve, utils)
  {
    var payload := utils.atob(cursor);
    if payload.None? {
      return Err(MalformedToken);
    }
    var columns := Split(payload.value, ',');
    var cursors: map<string, Value> := map[];
    var i := 0;
    while i < |columns|
      invariant 0 <= i <= |columns|
      invariant DecodeColumns(columns[..i], resolve, utils) == Ok(cursors)
    {
      var entry := DecodeColumn(columns[i], resolve, utils);
      assert columns[..i + 1][..i] == columns[..i];
      if entry.Err? {
        DecodeColumnsErr(columns, i + 1, resolve, utils);
        return Err(entry.error);
      }
      cursors := cursors[entry.value.0 := entry.value.1];
      i := i + 1;
    }
    assert columns[..i] == columns;
    r := Ok(cursors);
  }

  /** What decoding the fields' cursor stores: each field's value under its store key, later keys winning. */
  function StoreMap(fields: seq<KeyValue>): map<string, Value>
  {
    if fields == [] then map[]
    else StoreMap(fields[..|fields| - 1])[fields[|fields| - 1].store := fields[|fields| - 1].value]
  }

  lemma {:induction false} StoreMapLookup(fields: seq<KeyValue>, i: nat)
    requires i < |fields|
    requires forall j, k :: 0 <= j < k < |fields| ==> fields[j].store != fields[k].store
    ensures fields[i].store in StoreMap(fields) && StoreMap(fields)[fields[i].store] == fields[i].value
  {
    if i < |fields| - 1 {
      StoreMapLookup(fields[..|fields| - 1], i);
    }
  }

  /** The store keys of the fields. */
  function Stores(fields: seq<KeyValue>): set<string>
  {
    set i | 0 <= i < |fields| :: fields[i].store
  }

  lemma {:induction false} StoreMapKeys(fields: seq<KeyValue>)
    ensures StoreMap(fields).Keys == Stores(fields)
  {
    if fields != [] {
      var init := fields[..|fields| - 1];
      StoreMapKeys(init);
      var last := |fields| - 1;
      forall x | x in Stores(fields) ensures x in Stores(init) + {fields[last].store} {
        var i :| 0 <= i < |fields| && fields[i].store == x;
        if i < last { assert init[i].store == x; }
      }
      forall x | x in Stores(init) ensures x in Stores(fields) {
        var i :| 0 <= i < |init| && init[i].store == x;
        assert fields[i].store == x;
      }
    }
  }

  /** When each field's value is a function of its store key, so is the stored map. */
  lemma {:induction false} StoreMapOf(fields: seq<KeyValue>, g: string -> Value)
    requires forall i :: 0 <= i < |fields| ==> fields[i].value == g(fields[i].store)
    ensures forall s :: s in StoreMap(fields) ==> StoreMap(fields)[s] == g(s)
  {
    if fields != [] {
      StoreMapOf(fields[..|fields| - 1], g);
    }
  }

  /** The predicate a round trip needs of every field: a clean name that resolves to its own store and type. */
  ghost predicate Resolvable(fields: seq<KeyValue>, resolve: ColumnResolver)
  {
    forall i :: 0 <= i < |fields| ==>
      ',' !in fields[i].name && ':' !in fields[i].name &&
      resolve(fields[i].name) == Ok((fields[i].store, fields[i].keyType))
  }

  lemma DecodeSegment(f: KeyValue, resolve: ColumnResolver, utils: Utils)
    requires Sound(utils)
    requires ':' !in f.name && resolve(f.name) == Ok((f.store, f.keyType))
    ensures DecodeColumn(Segment(f, utils), resolve, utils) == Ok((f.store, f.value))
  {
    var raw := utils.encodeByType(f.keyType, f.value);
    SplitAfter(f.name, ':', raw);
    SplitPlain(raw, ':');
  }

  lemma {:induction false} DecodeSegments(fields: seq<KeyValue>, resolve: ColumnResolver, utils: Utils)
    requires Sound(utils) && Resolvable(fields, resolve)
    ensures DecodeColumns(Segments(fields, utils), resolve, utils) == Ok(StoreMap(fields))
  {
    if fields != [] {
      var init := fields[..|fields| - 1];
      assert Resolvable(init, resolve) by {
        forall i | 0 <= i < |init| ensures init[i] == fields[i] {}
      }
      DecodeSegments(init, resolve, utils);
      assert Segments(fields, utils)[..|fields| - 1] == Segments(init, utils);
      DecodeSegment(fields[|fields| - 1], resolve, utils);
    }
  }

  /**
   * Decoding an encoded cursor stores every field's value under its store key,
   * provided the codec is sound and the names are clean and resolvable.
   */
  lemma DecodeEncode(fields: seq<KeyValue>, resolve: ColumnResolver, utils: Utils)
    requires Sound(utils) && |fields| >= 1 && Resolvable(fields, resolve)
    ensures DecodeCursor(EncodeCursor(fields, utils), resolve, utils) == Ok(StoreMap(fields))
  {
    DecodeSegments(fields, resolve, utils);
  }
}
