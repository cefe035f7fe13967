/**
  The slice of JavaScript's value world that the storage layer inspects.
  Error objects, provider responses and stat results are plain property bags;
  the layer reads a few named properties and otherwise copies values through.
 */
module Js {

  /** One octet of file or stream content. */
  newtype byte = b: int | 0 <= b < 256

  /** A property value. `Opaque` stands for anything the layer only copies
      (a `Date`, a nested object); `Number` keeps integral numbers only. */
  datatype Value = Undefined | Null | Number(n: int) | Str(s: string) | Opaque(id: nat)

  /** An object: its own properties, plus the inherited ones this layer
      reads (`err.name` usually comes from `Error.prototype`). The members
      every object inherits from `Object.prototype` are left out. */
  datatype Object = Object(props: map<string, Value>)

  /** Property read `o[key]`: a missing property reads as `undefined`. */
  function Get(o: Object, key: string): Value
  {
    if key in o.props then o.props[key] else Undefined
  }

  /** `Array.prototype.join` on an array of strings. */
  function Join(parts: seq<string>, sep: string): string
    decreases |parts|
  {
    if |parts| == 0 then ""
    else if |parts| == 1 then parts[0]
    else parts[0] + sep + Join(parts[1..], sep)
  }
}
