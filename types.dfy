/**
 * Values, rows and error outcomes shared by the cursor paginator, and the
 * helpers of the repository's `./utils` module, which the pagination core
 * only calls and which are therefore parameters of this model.
 */
module Types {

  datatype Option<+T> = None | Some(value: T)

  /** Why an operation of the paginator throws instead of returning. */
  datatype Error =
    | UnknownProperty(entity: string, property: string)  // no design type is recorded for entity.property
    | MalformedToken                                     // the opaque token could not be unwrapped
    | MissingValue(column: string)                       // a cursor segment without a ':' part
    | UndecodableValue(column: string)                   // the scalar codec rejected the raw text
    | UnknownAlias(alias: string)                        // no key config carries this alias

  datatype Result<+T> = Ok(value: T) | Err(error: Error) {
    predicate IsFailure() { Err? }

    function PropagateFailure<U>(): Result<U>
      requires Err?
    {
      Err(error)
    }

    function Extract(): T
      requires Ok?
    {
      value
    }
  }

  /** A column value as it travels between rows, cursors and query parameters. */
  datatype Value = Undefined | Str(s: string) | Num(n: int) | Bool(b: bool) | Date(millis: int)

  /** A fetched record: entity properties (or raw column aliases) to values. */
  type Row = map<string, Value>

  /** `row[name]` (or `cursors[key]`), which is `undefined` when there is no such entry. */
  function Field(row: Row, name: string): Value
  {
    if name in row then row[name] else Undefined
  }

  /** The lower-cased name of a property's design type ("number", "string", "date", ...). */
  type KeyType = string

  /** The design types recorded for each (entity class name, property name). */
  type Schema = map<(string, string), KeyType>

  /** The `./utils` helpers: scalar codec, opaque token wrapping and alias derivation. */
  datatype Utils = Utils(
    encodeByType: (KeyType, Value) -> string,
    decodeByType: (KeyType, string) -> Option<Value>,
    btoa: string -> string,
    atob: string -> Option<string>,
    pascalToUnderscore: string -> string)

  /**
   * What the cursor format relies on from `./utils`: the scalar codec and the
   * token wrapping round-trip, and an encoded value never contains one of the
   * two separators of the payload.
   */
  ghost predicate Sound(u: Utils)
  {
    && (forall t, v :: u.decodeByType(t, u.encodeByType(t, v)) == Some(v))
    && (forall t, v :: ',' !in u.encodeByType(t, v) && ':' !in u.encodeByType(t, v))
    && (forall s :: u.atob(u.btoa(s)) == Some(s))
  }

  /** JavaScript truthiness of an optional string: present and not empty. */
  predicate Truthy(s: Option<string>)
  {
    s.Some? && s.value != ""
  }

  /** `s || fallback` for an optional string. */
  function OrElse(s: Option<string>, fallback: string): string
  {
    if Truthy(s) then s.value else fallback
  }

  /** `String.prototype.toLowerCase`, for the ASCII letters. */
  function ToLower(s: string): string
  {
    seq(|s|, i requires 0 <= i < |s| => if 'A' <= s[i] <= 'Z' then (s[i] as int + 32) as char else s[i])
  }
}
