/**
 * Driver values as `rows.Scan` delivers them into `interface{}` slots,
 * the Go values handed to the target, and the conversion helpers the
 * adapter calls but whose bodies live outside this model.
 */
module Values {
  import opened Wrappers
  import opened Bits64
  import opened Schema

  type Byte = b: int | 0 <= b < 256

  /** A `float32` / `float64`, kept as its bit pattern: no floating-point arithmetic is modelled. */
  datatype F32 = F32(bits: bv32)
  datatype F64 = F64(bits: bv64)

  /** A `time.Time`, kept as an opaque instant with its zone. */
  datatype Time = Time(unixNanos: int, zone: string)

  /** A `civil.Date`. */
  datatype Date = Date(year: int, month: int, day: int)

  /** A `*big.Rat`, the target's exact numeric. */
  datatype Rat = Rat(num: int, den: int)

  /** The dynamic type of a scanned slot. */
  datatype Kind = KNull | KBool | KBytes | KInt64 | KFloat32 | KFloat64 | KString | KTime

  /**
   * The values `database/sql` stores in an `interface{}` slot: nil (SQL NULL),
   * bool, []byte, int64, float32, float64, string and time.Time.
   */
  datatype SqlValue =
    | VNull
    | VBool(b: bool)
    | VBytes(bytes: seq<Byte>)
    | VInt64(i: Int64)
    | VFloat32(f32: F32)
    | VFloat64(f64: F64)
    | VString(s: string)
    | VTime(t: Time)

  function KindOf(v: SqlValue): Kind {
    match v
    case VNull => KNull
    case VBool(_) => KBool
    case VBytes(_) => KBytes
    case VInt64(_) => KInt64
    case VFloat32(_) => KFloat32
    case VFloat64(_) => KFloat64
    case VString(_) => KString
    case VTime(_) => KTime
  }

  /** The Go values a converted column carries to the target. */
  datatype SpValue =
    | SBool(b: bool)
    | SBytes(bytes: seq<Byte>)
    | SDate(d: Date)
    | SInt64(i: Int64)
    | SFloat32(f32: F32)
    | SFloat64(f64: F64)
    | SNumeric(r: Rat)
    | SString(s: string)
    | STime(t: Time)
    | SArray(elems: seq<Option<SpValue>>)

  datatype Error =
    | MissingSchema(colId: string, table: string)
    | CannotConvert(table: string, cause: Error)
    | TypeMismatch(kind: Kind, target: SpTypeName)
    | ArrayNotBytes
    | HelperFailed(msg: string)

  type Outcome<T> = Result<T, Error>

  /** What `common.PrepareValues` returns: the row in column-id order, and whether it failed. */
  datatype Prepared = Prepared(vals: seq<SqlValue>, failed: bool)

  /**
   * The helpers called by the adapter whose bodies are not part of this
   * model, as total functions: text parsers (`convBool`, `convDate`,
   * `convInt64`, `convFloat32`, `convFloat64`, `convNumeric`,
   * `convTimestamp`, `convArray`), the float casts and formatters of Go,
   * `civil.DateOf`, `time.Time.String`, `common.PrepareValues` and
   * `common.ToNotNull`. The configured time zone is folded into the
   * timestamp and array parsers. `prepareValues` takes the table id, the
   * column ids, the result set's column names and the scanned values; the
   * column-name map it is also given is derived from the table id.
   */
  datatype Helpers = Helpers(
    convBool: string -> Outcome<bool>,
    convDate: string -> Outcome<Date>,
    convInt64: string -> Outcome<Int64>,
    convFloat32: string -> Outcome<F32>,
    convFloat64: string -> Outcome<F64>,
    convNumeric: string -> Outcome<Rat>,
    convTimestamp: (string, string) -> Outcome<Time>,
    convArray: (SpType, string, string) -> Outcome<SpValue>,
    dateOf: Time -> Date,
    timeString: Time -> string,
    f32OfInt: Int64 -> F32,
    f64OfInt: Int64 -> F64,
    narrow: F64 -> F32,
    widen: F32 -> F64,
    truncF32: F32 -> Int64,
    truncF64: F64 -> Int64,
    formatF32: F32 -> string,
    formatF64: F64 -> string,
    prepareValues: (string, seq<string>, seq<string>, seq<SqlValue>) -> Prepared,
    toNotNull: string -> bool)

  /** A Go string is a byte string: one char per byte. */
  predicate IsByteString(s: string) {
    forall i :: 0 <= i < |s| ==> s[i] as int < 256
  }

  /** Go `string(b)` for a byte slice b. */
  function BytesToString(b: seq<Byte>): (s: string)
    ensures |s| == |b| && IsByteString(s)
  {
    seq(|b|, i requires 0 <= i < |b| => b[i] as char)
  }

  /** Go `[]byte(s)`. */
  function StringToBytes(s: string): (b: seq<Byte>)
    requires IsByteString(s)
    ensures |b| == |s|
  {
    seq(|s|, i requires 0 <= i < |s| => s[i] as int)
  }

  lemma BytesStringRoundTrip(b: seq<Byte>)
    ensures StringToBytes(BytesToString(b)) == b
  {
  }
}
