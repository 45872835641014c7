/**
 * The numeric boundary between feature/score values and a model's tensors:
 * affine quantization of inputs (round, add the zero point, clamp to the
 * 8-bit range), narrowing to a byte, reading a byte back as a code, and
 * dequantization of outputs. Values are modelled as reals.
 */
module Quantization {
  import opened JavaLang

  /** The tensor element types the classifier tells apart; `OtherType` is any other TFLite type. */
  datatype DataType = Float32 | Int8 | UInt8 | OtherType

  predicate IsQuantized(t: DataType) { t == Int8 || t == UInt8 }

  /** Bytes per input element: 1 for INT8 and UINT8, 4 for every other type. */
  function BytesPerElement(t: DataType): nat { if IsQuantized(t) then 1 else 4 }

  function CodeMin(t: DataType): int { if t == Int8 then -128 else 0 }
  function CodeMax(t: DataType): int { if t == Int8 then 127 else 255 }

  /** Raise a code below `lo` to `lo`, then lower one above `hi` to `hi`. */
  function Clamp(q: int, lo: int, hi: int): (r: int)
    requires lo <= hi
    ensures lo <= r <= hi
    ensures lo <= q <= hi ==> r == q
  {
    if q < lo then lo else if q > hi then hi else q
  }

  /** One input element's code: `Math.round(v / scale + zeroPoint)`, clamped to the type's range. */
  function QuantizeCode(v: real, scale: real, zeroPoint: int, t: DataType): (q: int)
    requires scale > 0.0
    ensures CodeMin(t) <= q <= CodeMax(t)
  {
    Clamp(JavaRound(v / scale + zeroPoint as real), CodeMin(t), CodeMax(t))
  }

  /** Out-of-range values saturate at the ends of the code range; nothing fails. */
  lemma QuantizeSaturates(v: real, scale: real, zeroPoint: int, t: DataType)
    requires scale > 0.0
    ensures v / scale + zeroPoint as real >= CodeMax(t) as real + 0.5 ==>
      QuantizeCode(v, scale, zeroPoint, t) == CodeMax(t)
    ensures v / scale + zeroPoint as real < CodeMin(t) as real - 0.5 ==>
      QuantizeCode(v, scale, zeroPoint, t) == CodeMin(t)
  {
    var x := v / scale + zeroPoint as real;
    var f := (x + 0.5).Floor;
    if x >= CodeMax(t) as real + 0.5 {
      assert f >= CodeMax(t) + 1;
    }
    if x < CodeMin(t) as real - 0.5 {
      assert f <= CodeMin(t) - 1;
    }
  }

  /** Quantization keeps the order of values. */
  lemma QuantizeMonotone(v: real, w: real, scale: real, zeroPoint: int, t: DataType)
    requires scale > 0.0 && v <= w
    ensures QuantizeCode(v, scale, zeroPoint, t) <= QuantizeCode(w, scale, zeroPoint, t)
  {
    assert v / scale <= w / scale by {
      assert (w / scale - v / scale) * scale == w - v;
    }
    JavaRoundMonotone(v / scale + zeroPoint as real, w / scale + zeroPoint as real);
  }

  // ---------------------------------------------------------------------
  // Bytes
  // ---------------------------------------------------------------------

  /** An 8-bit storage unit, as its unsigned value. */
  newtype byte = x: int | 0 <= x < 256

  /** `(byte) q`: keeps the low eight bits; lossless for every INT8 or UINT8 code. */
  function ToByte(q: int): (b: byte)
    ensures -128 <= q <= 127 ==> SignedByte(b) == q
    ensures 0 <= q <= 255 ==> UnsignedByte(b) == q
  {
    (q % 256) as byte
  }

  /** A Java `byte` widened to `int`: sign-extended. */
  function SignedByte(b: byte): (v: int)
    ensures -128 <= v <= 127
  {
    if b < 128 then b as int else b as int - 256
  }

  function UnsignedByte(b: byte): (v: int)
    ensures 0 <= v <= 255
  {
    b as int
  }

  /** The code a stored byte stands for: unsigned for UINT8, signed otherwise. */
  function CodeOf(b: byte, t: DataType): (q: int)
    ensures -128 <= q <= 255
    ensures IsQuantized(t) ==> CodeMin(t) <= q <= CodeMax(t)
    ensures IsQuantized(t) ==> ToByte(q) == b
  {
    if t == UInt8 then UnsignedByte(b) else SignedByte(b)
  }

  // ---------------------------------------------------------------------
  // Dequantization
  // ---------------------------------------------------------------------

  /** `(q - zeroPoint) * scale`, with `q` read with the output type's signedness. */
  function Dequantize(b: byte, scale: real, zeroPoint: int, t: DataType): (v: real)
    ensures t == UInt8 ==> v == (UnsignedByte(b) - zeroPoint) as real * scale
    ensures t != UInt8 ==> v == (SignedByte(b) - zeroPoint) as real * scale
  {
    (CodeOf(b, t) - zeroPoint) as real * scale
  }

  /**
   * Dequantization as `runInference` writes it: `int q = outQ[0][i]`
   * sign-extends the Java byte whatever the output type is.
   */
  function DequantizeAsWritten(b: byte, scale: real, zeroPoint: int): (v: real)
    ensures v == (SignedByte(b) - zeroPoint) as real * scale
  {
    (SignedByte(b) - zeroPoint) as real * scale
  }

  /**
   * The codec round trip: a value that does not saturate comes back from
   * quantize, narrow to a byte, read back and dequantize within half a step.
   */
  lemma QuantizeRoundTrip(v: real, scale: real, zeroPoint: int, t: DataType)
    requires scale > 0.0 && IsQuantized(t)
    requires CodeMin(t) <= (v / scale + zeroPoint as real + 0.5).Floor <= CodeMax(t)
    ensures var back := Dequantize(ToByte(QuantizeCode(v, scale, zeroPoint, t)), scale, zeroPoint, t);
      v - scale / 2.0 < back <= v + scale / 2.0
  {
    var q := QuantizeCode(v, scale, zeroPoint, t);
    var a := (q - zeroPoint) as real;
    assert v / scale - 0.5 < a <= v / scale + 0.5;
    assert CodeOf(ToByte(q), t) == q;
    HalfStepScaled(a, v, scale);
  }

  /** A code within half a step of `v / s` scales back to within `s / 2` of `v`. */
  lemma HalfStepScaled(a: real, v: real, s: real)
    requires s > 0.0 && v / s - 0.5 < a <= v / s + 0.5
    ensures v - s / 2.0 < a * s <= v + s / 2.0
  {
    var y := v / s;
    var d := a - y;
    assert y * s == v;
    assert a * s == v + d * s;
    assert -0.5 * s < d * s <= 0.5 * s;
  }

  /** The code as written and the corrected reading agree on every type but UINT8. */
  lemma AsWrittenAgreesOffUInt8(b: byte, scale: real, zeroPoint: int, t: DataType)
    requires t != UInt8
    ensures DequantizeAsWritten(b, scale, zeroPoint) == Dequantize(b, scale, zeroPoint, t)
  {
  }

  /** For a UINT8 output the code as written reads every code from 128 up as 256 too low. */
  lemma AsWrittenMisreadsUInt8(q: int, scale: real, zeroPoint: int)
    requires 128 <= q <= 255
    ensures DequantizeAsWritten(ToByte(q), scale, zeroPoint)
         == Dequantize(ToByte(q), scale, zeroPoint, UInt8) - 256.0 * scale
  {
    var b := ToByte(q);
    assert UnsignedByte(b) == q;
    assert SignedByte(b) == q - 256;
  }

  /** A UINT8 output byte 200 with scale 1 and zero point 0 means 200.0; the code as written yields -56.0. */
  lemma AsWrittenUInt8Counterexample()
    ensures Dequantize(ToByte(200), 1.0, 0, UInt8) == 200.0
    ensures DequantizeAsWritten(ToByte(200), 1.0, 0) == -56.0
  {
    AsWrittenMisreadsUInt8(200, 1.0, 0);
  }

  // ---------------------------------------------------------------------
  // Tensors and the input buffer
  // ---------------------------------------------------------------------

  /** What the classifier reads from a tensor once: shape, element type, scale and zero point. */
  datatype TensorSpec = TensorSpec(shape: seq<int>, dataType: DataType, scale: real, zeroPoint: int)

  /** Dimensions are never negative and a quantized tensor has a positive scale. */
  predicate ValidSpec(spec: TensorSpec)
  {
    && (forall i :: 0 <= i < |spec.shape| ==> spec.shape[i] >= 0)
    && (IsQuantized(spec.dataType) ==> spec.scale > 0.0)
  }

  /** The element count: the product of the dimensions, in order. */
  function ShapeProduct(shape: seq<int>): (n: int)
    ensures (forall i :: 0 <= i < |shape| ==> shape[i] >= 0) ==> n >= 0
    decreases |shape|
  {
    if shape == [] then 1 else ShapeProduct(shape[..|shape| - 1]) * shape[|shape| - 1]
  }

  /** Input element `i`: the feature, or 0 past the end of the features. */
  function FeatureAt(features: seq<real>, i: int): (v: real)
    ensures 0 <= i < |features| ==> v == features[i]
    ensures !(0 <= i < |features|) ==> v == 0.0
  {
    if 0 <= i < |features| then features[i] else 0.0
  }

  /** The direct buffer handed to the interpreter: one byte per quantized element, or 32-bit floats. */
  datatype InputBuffer = QuantBuffer(bytes: seq<byte>) | FloatBuffer(values: seq<real>)

  function CapacityBytes(buf: InputBuffer): nat
  {
    match buf
    case QuantBuffer(bytes) => |bytes|
    case FloatBuffer(values) => 4 * |values|
  }

  /**
   * The buffer `buildInputBuffer` fills: as many elements as the shape holds,
   * each the clamped code of its feature (quantized) or the feature itself
   * (any other type), with missing features taken as 0.
   */
  function EncodeInput(spec: TensorSpec, features: seq<real>): (buf: InputBuffer)
    requires ValidSpec(spec)
    ensures CapacityBytes(buf) == ShapeProduct(spec.shape) * BytesPerElement(spec.dataType)
    ensures buf.QuantBuffer? <==> IsQuantized(spec.dataType)
    ensures buf.QuantBuffer? ==>
      && |buf.bytes| == ShapeProduct(spec.shape)
      && forall i :: 0 <= i < |buf.bytes| ==>
           CodeOf(buf.bytes[i], spec.dataType)
             == QuantizeCode(FeatureAt(features, i), spec.scale, spec.zeroPoint, spec.dataType)
    ensures buf.FloatBuffer? ==>
      && |buf.values| == ShapeProduct(spec.shape)
      && forall i :: 0 <= i < |buf.values| ==> buf.values[i] == FeatureAt(features, i)
  {
    var n := ShapeProduct(spec.shape);
    if IsQuantized(spec.dataType) then
      QuantBuffer(seq(n, i requires 0 <= i < n =>
        ToByte(QuantizeCode(FeatureAt(features, i), spec.scale, spec.zeroPoint, spec.dataType))))
    else
      FloatBuffer(seq(n, i requires 0 <= i < n => FeatureAt(features, i)))
  }

  /** Every quantized element holds a code inside the type's range. */
  lemma EncodedCodesInRange(spec: TensorSpec, features: seq<real>, i: int)
    requires ValidSpec(spec) && IsQuantized(spec.dataType)
    requires 0 <= i < ShapeProduct(spec.shape)
    ensures var buf := EncodeInput(spec, features);
      CodeMin(spec.dataType) <= CodeOf(buf.bytes[i], spec.dataType) <= CodeMax(spec.dataType)
  {
  }

  /** Positions past the features are encoded exactly as a feature of value 0 would be. */
  lemma {:induction false} PaddingMatchesZeros(spec: TensorSpec, features: seq<real>, k: nat)
    requires ValidSpec(spec)
    ensures EncodeInput(spec, features + seq(k, _ => 0.0)) == EncodeInput(spec, features)
  {
    var padded := features + seq(k, _ => 0.0);
    assert forall i :: FeatureAt(padded, i) == FeatureAt(features, i) by {
      forall i ensures FeatureAt(padded, i) == FeatureAt(features, i) {
        if 0 <= i < |padded| && i >= |features| {
          assert padded[i] == 0.0;
        }
      }
    }
    var n := ShapeProduct(spec.shape);
    var a := EncodeInput(spec, padded);
    var b := EncodeInput(spec, features);
    if IsQuantized(spec.dataType) {
      assert a.bytes == b.bytes;
    } else {
      assert a.values == b.values;
    }
  }
}
