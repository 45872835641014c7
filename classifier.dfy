/**
 * The TensorFlow Lite adapter: checks the feature count against the input
 * tensor, builds the input buffer, runs the interpreter, turns its output into
 * float scores and picks the top class and its label. The interpreter is a
 * pair of functions from the input buffer to the output element at an index.
 */
module Classifier {
  import opened JavaLang
  import opened Quantization

  /** The label table, in class order. */
  const DefaultLabels: seq<string> := ["stationary", "pick_up"]

  /** The number of features computed from an accelerometer window. */
  const FeatureCount: nat := 39

  /** What `predictFeatures` returns: the top label, its score and every score. */
  datatype Prediction = Prediction(topLabel: string, confidence: real, scores: seq<real>)

  /** The exceptions `predictFeatures` can end in. */
  datatype PredictError =
    | IllegalArgument(expected: int, got: int)  // feature count does not match the input tensor
    | IndexOutOfBounds                          // an empty shape, or no output classes

  datatype PredictOutcome = Predicted(prediction: Prediction) | Thrown(error: PredictError)

  /** `k` is the first index that holds the largest score. */
  predicate IsFirstMax(scores: seq<real>, k: int)
  {
    && 0 <= k < |scores|
    && (forall j :: 0 <= j < |scores| ==> scores[j] <= scores[k])
    && (forall j :: 0 <= j < k ==> scores[j] < scores[k])
  }

  /** Ties go to the lowest index, so the top class is determined by the scores. */
  lemma FirstMaxUnique(scores: seq<real>, k: int, m: int)
    requires IsFirstMax(scores, k) && IsFirstMax(scores, m)
    ensures k == m
  {
    assert scores[k] == scores[m];
  }

  /** The top-class scan of `predictFeatures`: a strictly greater score replaces the current best. */
  method SelectTop(scores: seq<real>) returns (topIdx: nat, topVal: real)
    requires |scores| >= 1
    ensures IsFirstMax(scores, topIdx) && topVal == scores[topIdx]
  {
    topIdx := 0;
    topVal := scores[0];
    var i := 1;
    while i < |scores|
      invariant 1 <= i <= |scores|
      invariant topIdx < i && topVal == scores[topIdx]
      invariant forall j :: 0 <= j < i ==> scores[j] <= topVal
      invariant forall j :: 0 <= j < topIdx ==> scores[j] < topVal
    {
      if scores[i] > topVal {
        topVal := scores[i];
        topIdx := i;
      }
      i := i + 1;
    }
  }

  /**
   * The label of class `idx`: the table entry, or `"class_"` followed by the
   * index in decimal when the table is too short.
   */
  function LabelFor(labels: seq<string>, idx: nat): (s: string)
    ensures idx < |labels| ==> s == labels[idx]
    ensures |labels| <= idx ==>
      && |s| > 6 && s[..6] == "class_"
      && AllDigits(s[6..]) && DigitsValue(s[6..]) == idx
      && (|s| > 7 ==> s[6] != '0')
  {
    if idx < |labels| then labels[idx]
    else
      var s := "class_" + ToDecimal(idx);
      assert s[6..] == NatToDigits(idx);
      s
  }

  /** Classes beyond the table get labels that tell them apart. */
  lemma FallbackLabelsDistinct(labels: seq<string>, i: nat, j: nat)
    requires |labels| <= i && |labels| <= j && i != j
    ensures LabelFor(labels, i) != LabelFor(labels, j)
  {
    var si, sj := LabelFor(labels, i), LabelFor(labels, j);
    assert DigitsValue(si[6..]) != DigitsValue(sj[6..]);
  }

  /** `computeFeaturesFromWindow` on an empty window: 39 zeros. */
  function EmptyWindowFeatures(): (f: seq<real>)
    ensures |f| == FeatureCount
    ensures forall i :: 0 <= i < |f| ==> f[i] == 0.0
  {
    seq(FeatureCount, _ => 0.0)
  }

  /**
   * `predictFromWindow` on an empty window hands `buildInputBuffer` 39 zeros:
   * every element of the buffer, padding included, is the encoding of 0.
   */
  lemma EmptyWindowEncodesZeros(spec: TensorSpec)
    requires ValidSpec(spec)
    ensures var buf := EncodeInput(spec, EmptyWindowFeatures());
      && (buf.QuantBuffer? ==> forall i :: 0 <= i < |buf.bytes| ==>
            CodeOf(buf.bytes[i], spec.dataType) == QuantizeCode(0.0, spec.scale, spec.zeroPoint, spec.dataType))
      && (buf.FloatBuffer? ==> forall i :: 0 <= i < |buf.values| ==> buf.values[i] == 0.0)
  {
    var f := EmptyWindowFeatures();
    assert forall i :: FeatureAt(f, i) == 0.0;
  }

  class TFLiteClassifier {
    /** The input tensor's shape, type and quantization parameters. */
    const input: TensorSpec
    /** The output tensor's shape, type and quantization parameters. */
    const output: TensorSpec
    const labels: seq<string>
    /** `interpreter.run` into a `byte[1][n]`: the byte at each output position for an input buffer. */
    const runQuantized: InputBuffer -> nat -> byte
    /** `interpreter.run` into a `float[1][n]`: the value at each output position for an input buffer. */
    const runFloat: InputBuffer -> nat -> real

    /** Tensor dimensions are non-negative and quantized tensors have a positive scale. */
    predicate Valid()
    {
      ValidSpec(input) && ValidSpec(output)
    }

    /** Reads both tensors' parameters once; the label table is fixed. */
    constructor (input: TensorSpec, output: TensorSpec,
                 runQuantized: InputBuffer -> nat -> byte, runFloat: InputBuffer -> nat -> real)
      requires ValidSpec(input) && ValidSpec(output)
      ensures Valid()
      ensures this.input == input && this.output == output
      ensures this.runQuantized == runQuantized && this.runFloat == runFloat
      ensures labels == DefaultLabels
    {
      this.input := input;
      this.output := output;
      this.runQuantized := runQuantized;
      this.runFloat := runFloat;
      labels := DefaultLabels;
    }

    /** The last input dimension: how many features the model takes. */
    function ExpectedFeatureCount(): int
      requires |input.shape| >= 1
    {
      input.shape[|input.shape| - 1]
    }

    /** The last output dimension: how many classes the model scores. */
    function NumClasses(): int
      requires |output.shape| >= 1
    {
      output.shape[|output.shape| - 1]
    }

    /** The features pass the length check of `predictFeatures`. */
    predicate AcceptsFeatures(features: seq<real>)
    {
      |input.shape| >= 1 && |features| == ExpectedFeatureCount()
    }

    /** The output tensor names at least one class. */
    predicate HasClasses()
    {
      |output.shape| >= 1 && NumClasses() >= 1
    }

    /**
     * The scores `runInference` returns for a buffer: the interpreter's output
     * verbatim for FLOAT32, otherwise each byte dequantized.
     */
    function DecodeOutput(inBuf: InputBuffer): (scores: seq<real>)
      requires Valid() && |output.shape| >= 1
      ensures |scores| == NumClasses()
      ensures output.dataType == Float32 ==>
        forall i :: 0 <= i < |scores| ==> scores[i] == runFloat(inBuf)(i)
      ensures output.dataType != Float32 ==>
        forall i :: 0 <= i < |scores| ==>
          scores[i] == Dequantize(runQuantized(inBuf)(i), output.scale, output.zeroPoint, output.dataType)
    {
      var n := NumClasses();
      if output.dataType == Float32 then
        seq(n, i requires 0 <= i < n => runFloat(inBuf)(i))
      else
        seq(n, i requires 0 <= i < n =>
          Dequantize(runQuantized(inBuf)(i), output.scale, output.zeroPoint, output.dataType))
    }

    /** `buildInputBuffer`: multiply out the shape, then fill one element per position. */
    method BuildInputBuffer(features: seq<real>) returns (buf: InputBuffer)
      requires Valid()
      ensures buf == EncodeInput(input, features)
    {
      var numElements := 1;
      for k := 0 to |input.shape|
        invariant numElements == ShapeProduct(input.shape[..k])
      {
        assert input.shape[..k + 1][..k] == input.shape[..k];
        numElements := numElements * input.shape[k];
      }
      assert input.shape[..|input.shape|] == input.shape;
      var quant := input.dataType == UInt8 || input.dataType == Int8;
      if quant {
        var min := if input.dataType == Int8 then -128 else 0;
        var max := if input.dataType == Int8 then 127 else 255;
        var bytes: seq<byte> := [];
        for i := 0 to numElements
          invariant |bytes| == i
          invariant forall j :: 0 <= j < i ==>
            bytes[j] == ToByte(QuantizeCode(FeatureAt(features, j), input.scale, input.zeroPoint, input.dataType))
        {
          var v := if i < |features| then features[i] else 0.0;
          var q: int := JavaRound(v / input.scale + input.zeroPoint as real);
          if q < min { q := min; }
          if q > max { q := max; }
          bytes := bytes + [ToByte(q)];
        }
        buf := QuantBuffer(bytes);
      } else {
        var values: seq<real> := [];
        for i := 0 to numElements
          invariant |values| == i
          invariant forall j :: 0 <= j < i ==> values[j] == FeatureAt(features, j)
        {
          var v := if i < |features| then features[i] else 0.0;
          values := values + [v];
        }
        buf := FloatBuffer(values);
      }
    }

    /**
     * `runInference`: one score per class, copied for a FLOAT32 output and
     * dequantized otherwise. Bytes are read with the output type's signedness.
     */
    method RunInference(inBuf: InputBuffer) returns (scores: seq<real>)
      requires Valid() && |output.shape| >= 1
      ensures scores == DecodeOutput(inBuf)
    {
      var numClasses := output.shape[|output.shape| - 1];
      var a := new real[numClasses];
      if output.dataType == Float32 {
        var out := runFloat(inBuf);
        forall i | 0 <= i < numClasses {
          a[i] := out(i);
        }
      } else {
        var outQ := runQuantized(inBuf);
        for i := 0 to numClasses
          invariant forall j :: 0 <= j < i ==>
            a[j] == Dequantize(outQ(j), output.scale, output.zeroPoint, output.dataType)
        {
          var q := CodeOf(outQ(i), output.dataType);
          a[i] := (q - output.zeroPoint) as real * output.scale;
        }
      }
      scores := a[..];
    }

    /**
     * `predictFeatures`: a feature count other than the last input dimension
     * is refused; otherwise the scores of the encoded features are computed
     * and the first highest one gives the label and the confidence.
     */
    method PredictFeatures(features: seq<real>) returns (r: PredictOutcome)
      requires Valid()
      ensures |input.shape| == 0 ==> r == Thrown(IndexOutOfBounds)
      ensures |input.shape| >= 1 && |features| != ExpectedFeatureCount() ==>
        r == Thrown(IllegalArgument(ExpectedFeatureCount(), |features|))
      ensures AcceptsFeatures(features) && !HasClasses() ==> r == Thrown(IndexOutOfBounds)
      ensures AcceptsFeatures(features) && HasClasses() ==> r.Predicted?
      ensures r.Predicted? ==>
        && AcceptsFeatures(features) && HasClasses()
        && r.prediction.scores == DecodeOutput(EncodeInput(input, features))
        && exists k :: IsFirstMax(r.prediction.scores, k)
             && r.prediction.confidence == r.prediction.scores[k]
             && r.prediction.topLabel == LabelFor(labels, k)
    {
      if |input.shape| == 0 {
        return Thrown(IndexOutOfBounds);
      }
      var expected := input.shape[|input.shape| - 1];
      if |features| != expected {
        return Thrown(IllegalArgument(expected, |features|));
      }
      var inBuf := BuildInputBuffer(features);
      if |output.shape| == 0 {
        return Thrown(IndexOutOfBounds);
      }
      var scores := RunInference(inBuf);
      if |scores| == 0 {
        return Thrown(IndexOutOfBounds);
      }
      var topIdx, topVal := SelectTop(scores);
      var lbl := LabelFor(labels, topIdx);
      r := Predicted(Prediction(lbl, topVal, scores));
    }
  }
}
