/**
 * Python values as far as the JSON Lines helpers can see them, and the
 * `json` module reduced to an encoder/decoder pair passed in by the caller.
 * The JSON grammar itself is not modelled.
 */
module Json {
  import opened Wrappers
  import PyStr

  /** A Python value. `Null` is Python's `None` (JSON `null`); `Array` is a
      `list`; `Object` is a `dict` with string keys, as its key/value pairs
      in insertion order (the order `json.dumps` writes them in); `Other` is
      any value outside that vocabulary (a tuple, a set, an object of some
      class), named by its type. */
  datatype Value =
    | Null
    | Bool(b: bool)
    | Int(i: int)
    | Str(s: string)
    | Array(items: seq<Value>)
    | Object(fields: seq<(string, Value)>)
    | Other(typeName: string)

  /** `json.dumps(v)`: the encoded text, or `None` when encoding raises. */
  type Dumps = Value -> Option<string>

  /** `json.loads(s)`: the decoded value, or `None` when decoding raises
      `JSONDecodeError`. */
  type Loads = string -> Option<Value>

  /** Text `json.dumps` produces for a dict: never empty, no '\n' anywhere
      (control characters are escaped), and no whitespace at either end
      (it begins with '{' and ends with '}'). */
  predicate LineSafe(s: string)
  {
    && |s| > 0
    && (forall i :: 0 <= i < |s| ==> s[i] != '\n')
    && !PyStr.IsSpace(s[0])
    && !PyStr.IsSpace(s[|s| - 1])
  }

  /** What the writer assumes of `json.dumps`: whenever a dict encodes,
      its text fits on one line. */
  ghost predicate EncodesLines(dumps: Dumps)
  {
    forall v: Value :: v.Object? && dumps(v).Some? ==> LineSafe(dumps(v).value)
  }

  /** What the round trip assumes of the `json` module: a dict's encoding is
      line-safe and decodes back to the same dict. Real `json` does this only
      for some dicts (a tuple decodes as a list, an int key as a string), so
      the round-trip properties speak of the dicts it maps back to
      themselves. */
  ghost predicate Codec(dumps: Dumps, loads: Loads)
  {
    && EncodesLines(dumps)
    && forall v: Value :: v.Object? && dumps(v).Some? ==> loads(dumps(v).value) == Some(v)
  }
}
