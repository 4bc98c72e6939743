/**
 * The synthetic primary key of key-less tables: each emitted row takes the
 * table's counter, reverses its 64 bits, reads them back as an `int64` and
 * renders that in decimal; the counter is an `int64` that `++` advances.
 */
module SyntheticKeys {
  import opened Bits64
  import opened Wrappers
  import opened Decimal

  /** `fmt.Sprintf("%d", int64(bits.Reverse64(uint64(seq))))`. */
  function SyntheticKeyValue(sequence: Int64): (r: string)
    ensures |r| > 0
  {
    FormatInt(AsSigned(Reverse64(AsUnsigned(sequence))))
  }

  /** The key text is the decimal text of the counter's bits, reversed and read as an `int64`. */
  lemma SyntheticKeyParses(sequence: Int64)
    ensures ParseInt(SyntheticKeyValue(sequence)) == Some(AsSigned(Reverse64(AsUnsigned(sequence))) as int)
  {
    ParseFormatInt(AsSigned(Reverse64(AsUnsigned(sequence))));
  }

  /**
   * The counter's lowest bit becomes the key's sign bit: the key text of an
   * odd counter value starts with '-', that of an even one does not.
   */
  lemma SyntheticKeySign(sequence: Int64)
    ensures SyntheticKeyValue(sequence)[0] == '-' <==> AsUnsigned(sequence) % 2 == 1
  {
    var u := AsUnsigned(sequence);
    var r := Reverse64(u);
    Pow2Values();
    TopBit(r, 64);
    assert ToBits(r, 64)[63] == ToBits(u, 64)[0];
  }

  /** `aux.Sequence++` on an `int64`: wraps from the maximum to the minimum. */
  function NextSequence(s: Int64): (r: Int64)
    ensures AsUnsigned(r) == (AsUnsigned(s) + 1) % TWO_64
  {
    if s == MAX_INT64 then MIN_INT64 else s + 1
  }

  /** The counter after `k` increments from `s`. */
  function SequenceAfter(s: Int64, k: nat): Int64 {
    AsSigned((AsUnsigned(s) + k) % TWO_64)
  }

  lemma SequenceAfterStep(s: Int64, k: nat)
    ensures SequenceAfter(s, 0) == s
    ensures NextSequence(SequenceAfter(s, k)) == SequenceAfter(s, k + 1)
  {
    var u := (AsUnsigned(s) + k) % TWO_64;
    assert AsUnsigned(SequenceAfter(s, k)) == u;
    assert (u + 1) % TWO_64 == (AsUnsigned(s) + k + 1) % TWO_64;
  }

  /** Fewer than 2^64 increments from the same start never reach the same counter value twice. */
  lemma SequenceAfterInjective(s: Int64, a: nat, b: nat)
    requires a < TWO_64 && b < TWO_64
    requires SequenceAfter(s, a) == SequenceAfter(s, b)
    ensures a == b
  {
    var u := AsUnsigned(s);
    var x, y := (u + a) % TWO_64, (u + b) % TWO_64;
    assert x == AsUnsigned(SequenceAfter(s, a)) && y == AsUnsigned(SequenceAfter(s, b));
    assert x == y;
    assert u + a == x || u + a == x + TWO_64;
    assert u + b == y || u + b == y + TWO_64;
  }

  /** Distinct counter values never produce the same key. */
  lemma SyntheticKeyInjective(a: Int64, b: Int64)
    requires SyntheticKeyValue(a) == SyntheticKeyValue(b)
    ensures a == b
  {
    FormatIntInjective(AsSigned(Reverse64(AsUnsigned(a))), AsSigned(Reverse64(AsUnsigned(b))));
    Reverse64Injective(AsUnsigned(a), AsUnsigned(b));
  }

  /**
   * The first two keys of every key-less table: counter 0 gives "0", and
   * counter 1 gives the decimal text of the minimum `int64`.
   */
  lemma SyntheticKeyExamples()
    ensures SyntheticKeyValue(0) == "0"
    ensures SyntheticKeyValue(1) == FormatInt(-9223372036854775808)
    ensures ParseInt(SyntheticKeyValue(1)) == Some(-9223372036854775808)
  {
    Reverse64Zero();
    Reverse64One();
    ParseFormatInt(-9223372036854775808);
  }
}
