/**
 * Per-value conversion of a scanned slot to the Go value the target column
 * expects (`cvtSQLScalar`, `cvtSQLArray`), and the text rendering of a raw
 * row kept as a bad-row sample (`valsToStrings`).
 */
module ScalarConversion {
  import opened Wrappers
  import opened Bits64
  import opened Decimal
  import opened Schema
  import opened Values

  /**
   * The acceptance matrix: the (target type, slot kind) pairs for which a
   * conversion is attempted. Every other pair is a type mismatch.
   */
  const ACCEPTED: set<(SpTypeName, Kind)> := {
    (TBool, KBool), (TBool, KString),
    (TBytes, KBytes),
    (TDate, KString), (TDate, KTime),
    (TInt64, KBytes), (TInt64, KInt64), (TInt64, KFloat32), (TInt64, KFloat64), (TInt64, KString),
    (TFloat32, KBytes), (TFloat32, KInt64), (TFloat32, KFloat32), (TFloat32, KFloat64), (TFloat32, KString),
    (TFloat64, KBytes), (TFloat64, KInt64), (TFloat64, KFloat32), (TFloat64, KFloat64), (TFloat64, KString),
    (TNumeric, KBytes),
    (TString, KBool), (TString, KBytes), (TString, KInt64), (TString, KFloat32),
    (TString, KFloat64), (TString, KString), (TString, KTime),
    (TTimestamp, KString), (TTimestamp, KTime),
    (TJson, KString), (TJson, KBytes)
  }

  predicate Accepted(target: SpTypeName, kind: Kind) {
    (target, kind) in ACCEPTED
  }

  function Lift<T>(r: Outcome<T>, wrap: T -> SpValue): Outcome<SpValue> {
    match r
    case Ok(x) => Ok(wrap(x))
    case Err(e) => Err(e)
  }

  /**
   * `cvtSQLScalar`: converts a non-array slot to the Go value of the target
   * type. `srcTypeName` is the source column's type name, which only the
   * timestamp parser reads.
   */
  function CvtSqlScalar(h: Helpers, srcTypeName: string, target: SpTypeName, v: SqlValue): (r: Outcome<SpValue>)
    ensures r.Ok? ==> Accepted(target, KindOf(v))
    ensures !Accepted(target, KindOf(v)) ==> r == Err(TypeMismatch(KindOf(v), target))
    ensures target == TInt64 && v.VInt64? ==> r == Ok(SInt64(v.i))
    ensures target == TBytes && v.VBytes? ==> r == Ok(SBytes(v.bytes))
    ensures target == TString && v.VString? ==> r == Ok(SString(v.s))
    ensures target == TString && v.VInt64? ==> r.Ok? && r.value.SString? && ParseInt(r.value.s) == Some(v.i as int)
    ensures target == TString && v.VBool? ==> r.Ok? && r.value.SString? && (r.value.s == "true" <==> v.b)
    ensures target in {TJson, TString} && v.VBytes? ==>
      r.Ok? && r.value.SString? && IsByteString(r.value.s) && StringToBytes(r.value.s) == v.bytes
  {
    var mismatch := Err(TypeMismatch(KindOf(v), target));
    match target
    case TBool =>
      (match v
       case VBool(b) => Ok(SBool(b))
       case VString(s) => Lift(h.convBool(s), b => SBool(b))
       case _ => mismatch)
    case TBytes =>
      (match v
       case VBytes(b) => Ok(SBytes(b))
       case _ => mismatch)
    case TDate =>
      (match v
       case VString(s) => Lift(h.convDate(s), d => SDate(d))
       case VTime(t) => Ok(SDate(h.dateOf(t)))
       case _ => mismatch)
    case TInt64 =>
      (match v
       case VBytes(b) => Lift(h.convInt64(BytesToString(b)), i => SInt64(i))
       case VInt64(i) => Ok(SInt64(i))
       case VFloat32(f) => Ok(SInt64(h.truncF32(f)))
       case VFloat64(f) => Ok(SInt64(h.truncF64(f)))
       case VString(s) => Lift(h.convInt64(s), i => SInt64(i))
       case _ => mismatch)
    case TFloat32 =>
      (match v
       case VBytes(b) => Lift(h.convFloat32(BytesToString(b)), f => SFloat32(f))
       case VInt64(i) => Ok(SFloat32(h.f32OfInt(i)))
       case VFloat32(f) => Ok(SFloat32(f))
       case VFloat64(f) => Ok(SFloat32(h.narrow(f)))
       case VString(s) => Lift(h.convFloat32(s), f => SFloat32(f))
       case _ => mismatch)
    case TFloat64 =>
      (match v
       case VBytes(b) => Lift(h.convFloat64(BytesToString(b)), f => SFloat64(f))
       case VInt64(i) => Ok(SFloat64(h.f64OfInt(i)))
       case VFloat32(f) => Ok(SFloat64(h.widen(f)))
       case VFloat64(f) => Ok(SFloat64(f))
       case VString(s) => Lift(h.convFloat64(s), f => SFloat64(f))
       case _ => mismatch)
    case TNumeric =>
      (match v
       case VBytes(b) => Lift(h.convNumeric(BytesToString(b)), q => SNumeric(q))
       case _ => mismatch)
    case TString =>
      (match v
       case VBool(b) => Ok(SString(FormatBool(b)))
       case VBytes(b) => BytesStringRoundTrip(b); Ok(SString(BytesToString(b)))
       case VInt64(i) => ParseFormatInt(i); Ok(SString(FormatInt(i)))
       case VFloat32(f) => Ok(SString(h.formatF32(f)))
       case VFloat64(f) => Ok(SString(h.formatF64(f)))
       case VString(s) => Ok(SString(s))
       case VTime(t) => Ok(SString(h.timeString(t)))
       case _ => mismatch)
    case TTimestamp =>
      (match v
       case VString(s) => Lift(h.convTimestamp(srcTypeName, s), t => STime(t))
       case VTime(t) => Ok(STime(t))
       case _ => mismatch)
    case TJson =>
      (match v
       case VString(s) => Ok(SString(s))
       case VBytes(b) => BytesStringRoundTrip(b); Ok(SString(BytesToString(b)))
       case _ => mismatch)
    case OtherType(_) => mismatch
  }

  /**
   * Whether the text parser that an accepted pair goes through accepts the
   * value: a string, or a byte slice read as a string, is parsed for the
   * boolean, date, integer, float, numeric and timestamp targets; every
   * other accepted pair is converted without a parser.
   */
  predicate ParserAccepts(h: Helpers, srcTypeName: string, target: SpTypeName, v: SqlValue) {
    match v
    case VString(s) =>
      (match target
       case TBool => h.convBool(s).Ok?
       case TDate => h.convDate(s).Ok?
       case TInt64 => h.convInt64(s).Ok?
       case TFloat32 => h.convFloat32(s).Ok?
       case TFloat64 => h.convFloat64(s).Ok?
       case TTimestamp => h.convTimestamp(srcTypeName, s).Ok?
       case _ => true)
    case VBytes(b) =>
      var text := BytesToString(b);
      (match target
       case TInt64 => h.convInt64(text).Ok?
       case TFloat32 => h.convFloat32(text).Ok?
       case TFloat64 => h.convFloat64(text).Ok?
       case TNumeric => h.convNumeric(text).Ok?
       case _ => true)
    case _ => true
  }

  /**
   * A value converts exactly when its (target, kind) pair is in the
   * acceptance matrix and the parser that pair goes through, if any,
   * accepts it.
   */
  lemma CvtSqlScalarOkIff(h: Helpers, srcTypeName: string, target: SpTypeName, v: SqlValue)
    ensures CvtSqlScalar(h, srcTypeName, target, v).Ok? <==>
            Accepted(target, KindOf(v)) && ParserAccepts(h, srcTypeName, target, v)
  {
  }

  /** The pairs that need no conversion hand the value through unchanged. */
  lemma CvtSqlScalarPassThrough(h: Helpers, srcTypeName: string, target: SpTypeName, v: SqlValue)
    ensures var r := CvtSqlScalar(h, srcTypeName, target, v);
            && (target == TBool && v.VBool? ==> r == Ok(SBool(v.b)))
            && (target == TBytes && v.VBytes? ==> r == Ok(SBytes(v.bytes)))
            && (target == TInt64 && v.VInt64? ==> r == Ok(SInt64(v.i)))
            && (target == TFloat32 && v.VFloat32? ==> r == Ok(SFloat32(v.f32)))
            && (target == TFloat64 && v.VFloat64? ==> r == Ok(SFloat64(v.f64)))
            && (target == TString && v.VString? ==> r == Ok(SString(v.s)))
            && (target == TJson && v.VString? ==> r == Ok(SString(v.s)))
            && (target == TTimestamp && v.VTime? ==> r == Ok(STime(v.t)))
  {
  }

  /**
   * `cvtSQLArray`: the driver returns arrays as the text of their literal
   * ("{v1,v2,...}") in a byte slice, which the array parser reads.
   */
  function CvtSqlArray(h: Helpers, srcCd: SrcColumn, spCd: SpColumnDef, v: SqlValue): (r: Outcome<SpValue>)
    ensures !v.VBytes? ==> r == Err(ArrayNotBytes)
  {
    match v
    case VBytes(b) => h.convArray(spCd.t, srcCd.typ.name, BytesToString(b))
    case _ => Err(ArrayNotBytes)
  }

  /** The per-column dispatch of `convertSQLRow`: array columns to the array parser, others to the scalar matrix. */
  function ConvertValue(h: Helpers, srcCd: SrcColumn, spCd: SpColumnDef, v: SqlValue): Outcome<SpValue> {
    if spCd.t.isArray then CvtSqlArray(h, srcCd, spCd, v) else CvtSqlScalar(h, srcCd.typ.name, spCd.t.name, v)
  }

  /** `fmt.Sprintf("%v", b)` for a byte slice: its bytes in decimal, space separated, in brackets. */
  function ByteList(b: seq<Byte>): string {
    if b == [] then "" else if |b| == 1 then NatToDecimal(b[0]) else ByteList(b[..|b| - 1]) + " " + NatToDecimal(b[|b| - 1])
  }

  /** The rendering `valsToStrings` applies to one raw slot: "NULL" for nil, `%v` otherwise. */
  function SampleText(h: Helpers, v: SqlValue): string {
    match v
    case VNull => "NULL"
    case VBool(b) => FormatBool(b)
    case VBytes(b) => "[" + ByteList(b) + "]"
    case VInt64(i) => FormatInt(i)
    case VFloat32(f) => h.formatF32(f)
    case VFloat64(f) => h.formatF64(f)
    case VString(s) => s
    case VTime(t) => h.timeString(t)
  }

  /** `valsToStrings`: the raw row rendered slot by slot for the bad-row sample. */
  function ValsToStrings(h: Helpers, vals: seq<SqlValue>): (r: seq<string>)
    ensures |r| == |vals|
    ensures forall i :: 0 <= i < |vals| && vals[i] == VNull ==> r[i] == "NULL"
    ensures forall i :: 0 <= i < |vals| && vals[i].VString? ==> r[i] == vals[i].s
    ensures forall i :: 0 <= i < |vals| && vals[i].VBool? ==> r[i] == FormatBool(vals[i].b)
  {
    seq(|vals|, i requires 0 <= i < |vals| => SampleText(h, vals[i]))
  }

  /** A byte slice is rendered as Go's `%v` list of its byte values, not as text. */
  lemma ValsToStringsBytes(h: Helpers)
    ensures ValsToStrings(h, [VBytes([1, 2, 3])]) == ["[1 2 3]"]
    ensures ValsToStrings(h, [VBytes([])]) == ["[]"]
  {
    assert NatToDecimal(1) == "1" && NatToDecimal(2) == "2" && NatToDecimal(3) == "3";
    assert ByteList([1, 2, 3]) == "1 2 3" by {
      assert [1, 2, 3][..2] == [1, 2] && [1, 2][..1] == [1];
    }
    var r := ValsToStrings(h, [VBytes([1, 2, 3])]);
    assert r[0] == SampleText(h, VBytes([1, 2, 3])) == "[1 2 3]";
    assert r == ["[1 2 3]"];
    var e := ValsToStrings(h, [VBytes([])]);
    assert e[0] == SampleText(h, VBytes([])) == "[]";
    assert e == ["[]"];
  }

  /** Integer slots are rendered so that they read back as the same integer. */
  lemma ValsToStringsIntegers(h: Helpers, vals: seq<SqlValue>)
    ensures forall i :: 0 <= i < |vals| && vals[i].VInt64? ==> ParseInt(ValsToStrings(h, vals)[i]) == Some(vals[i].i as int)
  {
    forall i | 0 <= i < |vals| && vals[i].VInt64? {
      ParseFormatInt(vals[i].i);
    }
  }
}
