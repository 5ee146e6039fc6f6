/**
 The query-language value exchanged with the virtual table: a tagged union
 over null, booleans, numbers, byte strings, arrays and objects.
 */
module Datum {

  newtype byte = x: int | 0 <= x < 256

  /** A byte string, as held by a `datum_string_t` or a `std::string`. */
  type Bytes = seq<byte>

  predicate IsAscii(s: string) {
    forall i | 0 <= i < |s| :: s[i] as int < 128
  }

  /** The bytes of an ASCII literal. */
  function Lit(s: string): (b: Bytes)
    requires IsAscii(s)
    ensures |b| == |s|
  {
    seq(|s|, i requires 0 <= i < |s| => s[i] as int as byte)
  }

  /** Numbers are doubles in the source; their arithmetic plays no part here. */
  datatype Datum =
    | Null
    | Bool(b: bool)
    | Num(n: real)
    | Str(s: Bytes)
    | Arr(items: seq<Datum>)
    | Obj(fields: map<Bytes, Datum>)

  /** Every byte string that occurs in a datum, as a field name or as a string value. */
  function Texts(d: Datum): set<Bytes>
  {
    match d
    case Null => {}
    case Bool(_) => {}
    case Num(_) => {}
    case Str(s) => {s}
    case Arr(items) => set i, t | 0 <= i < |items| && t in Texts(items[i]) :: t
    case Obj(fields) => fields.Keys + set k, t | k in fields && t in Texts(fields[k]) :: t
  }
}
