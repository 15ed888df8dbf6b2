/**
 * The integer-only forward pass of the 784 -> 256 -> 128 -> 10 MNIST
 * classifier: pixel quantiser, scaled int8 matrix-vector product, dynamic
 * re-quantiser, in-place ReLU, argmax, and the pipeline that composes them.
 */
module Inference {
  import opened MachineInts

  const Q16_SHIFT: nat := 16
  const INPUT_SIZE: nat := 784
  const HIDDEN1_SIZE: nat := 256
  const HIDDEN2_SIZE: nat := 128
  const NUM_CLASSES: nat := 10

  // ===================== Quantiser =====================

  /**
   * One pixel: `((p as f32) / 255.0 * 127.0) as i32`, clamped to the i8
   * range. For a byte the float expression truncates to exactly the floor
   * of p*127/255: that quotient is an integer only at p = 0 and p = 255,
   * where every float step is exact, and is otherwise at least 1/255 away
   * from the next integer, far more than the two roundings can move it.
   * The clamp never changes the value.
   */
  function QuantizePixel(p: u8): (q: i8)
    ensures 0 <= q <= 127
    ensures q == (p as int) * 127 / 255
  {
    var quantized := (p as int) * 127 / 255;
    Clamp(quantized, -128, 127)
  }

  /** `normalize_and_quantize_input`: the pixel map applied to every byte, in order. */
  function NormalizeAndQuantizeInput(input: seq<u8>): (r: seq<i8>)
    ensures |r| == |input|
    ensures forall k :: 0 <= k < |input| ==> 0 <= r[k] <= 127 && r[k] == (input[k] as int) * 127 / 255
  {
    seq(|input|, k requires 0 <= k < |input| => QuantizePixel(input[k]))
  }

  /** A brighter pixel never quantises to a smaller value. */
  lemma QuantizeMonotone(p1: u8, p2: u8)
    requires p1 <= p2
    ensures QuantizePixel(p1) <= QuantizePixel(p2)
  {
  }

  lemma QuantizeFixedPoints()
    ensures QuantizePixel(0) == 0 && QuantizePixel(255) == 127 && QuantizePixel(128) == 63
  {
  }

  // ===================== Scaled matmul =====================

  /** The Rust type `[[i8; COLS]; ROWS]`: `rows` rows of `cols` entries each. */
  predicate IsMatrix(w: seq<seq<i8>>, rows: nat, cols: nat) {
    |w| == rows && forall i :: 0 <= i < rows ==> |w[i]| == cols
  }

  /**
   * Every partial sum of every row's i32 accumulator `sum` lies in the i32
   * range: `sum += ...` never overflows (a debug build would panic).
   */
  predicate AccumulatorFits(w: seq<seq<i8>>, input: seq<i8>, cols: nat) {
    forall i, j :: 0 <= i < |w| && 0 <= j <= cols && j <= |w[i]| && j <= |input| ==> IsI32(DotPrefix(w[i], input, j))
  }

  /** `((sum as i64 * scale_q16 as i64) >> 16) as i32`. */
  function ScaleQ16(sum: i32, scaleQ16: i32): i32 {
    WrapI32(Asr(sum * scaleQ16, Q16_SHIFT))
  }

  /** The product of two i32 values always fits the i64 intermediate. */
  lemma ScaledProductFitsI64(sum: i32, scaleQ16: i32)
    ensures IsI64(sum * scaleQ16)
  {
    MulAbsBound(sum, scaleQ16, 0x8000_0000, 0x8000_0000);
  }

  /** What one layer computes: row i is floor((Σ_j w[i][j]*input[j]) * scale / 2^16), wrapped to i32. */
  function Layer(w: seq<seq<i8>>, rows: nat, cols: nat, input: seq<i8>, scaleQ16: i32): (r: seq<i32>)
    requires IsMatrix(w, rows, cols) && |input| >= cols
    requires AccumulatorFits(w, input, cols)
    ensures |r| == rows
  {
    seq(rows, i requires 0 <= i < rows => ScaleQ16(DotPrefix(w[i], input, cols), scaleQ16))
  }

  /** `int8_matmul_symmetric::<ROWS, COLS>`: nested loops with an i32 accumulator and one push per row. */
  method Int8MatmulSymmetric(weights: seq<seq<i8>>, rows: nat, cols: nat, input: seq<i8>, scaleQ16: i32)
    returns (output: seq<i32>)
    requires IsMatrix(weights, rows, cols)
    requires |input| >= cols
    requires AccumulatorFits(weights, input, cols)
    ensures output == Layer(weights, rows, cols, input, scaleQ16)
  {
    output := [];
    for i := 0 to rows
      invariant |output| == i
      invariant forall k :: 0 <= k < i ==> output[k] == ScaleQ16(DotPrefix(weights[k], input, cols), scaleQ16)
    {
      var sum: i32 := 0;
      for j := 0 to cols
        invariant sum == DotPrefix(weights[i], input, j)
      {
        assert IsI32(DotPrefix(weights[i], input, j + 1));
        sum := sum + (weights[i][j] as int) * (input[j] as int);
      }
      ScaledProductFitsI64(sum, scaleQ16);
      var scaled := Asr(sum * scaleQ16, Q16_SHIFT);
      output := output + [WrapI32(scaled)];
    }
  }

  /** With i8 operands the accumulator cannot overflow for any width up to 131071 columns. */
  lemma AccumulatorFitsForInt8(w: seq<seq<i8>>, rows: nat, cols: nat, input: seq<i8>)
    requires IsMatrix(w, rows, cols) && |input| >= cols
    requires cols <= 131071
    ensures AccumulatorFits(w, input, cols)
  {
    forall i, j | 0 <= i < |w| && 0 <= j <= cols && j <= |w[i]| && j <= |input|
      ensures IsI32(DotPrefix(w[i], input, j))
    {
      DotPrefixBound(w[i], input, j, 128, 128);
      MulLe(j, 131071, 128 * 128);
    }
  }

  /** An all-zero input vector, or a zero scale, makes every output of the layer zero. */
  lemma LayerOfZero(w: seq<seq<i8>>, rows: nat, cols: nat, input: seq<i8>, scaleQ16: i32)
    requires IsMatrix(w, rows, cols) && |input| >= cols
    requires AccumulatorFits(w, input, cols)
    requires scaleQ16 == 0 || forall j :: 0 <= j < cols ==> input[j] == 0
    ensures forall i :: 0 <= i < rows ==> Layer(w, rows, cols, input, scaleQ16)[i] == 0
  {
    forall i | 0 <= i < rows
      ensures Layer(w, rows, cols, input, scaleQ16)[i] == 0
    {
      if scaleQ16 != 0 {
        DotPrefixZero(w[i], input, cols);
      }
      AsrOfZero(Q16_SHIFT);
    }
  }

  /** All-zero weights make every output of the layer zero. */
  lemma LayerOfZeroWeights(w: seq<seq<i8>>, rows: nat, cols: nat, input: seq<i8>, scaleQ16: i32)
    requires IsMatrix(w, rows, cols) && |input| >= cols
    requires AccumulatorFits(w, input, cols)
    requires forall i, j :: 0 <= i < rows && 0 <= j < cols ==> w[i][j] == 0
    ensures forall i :: 0 <= i < rows ==> Layer(w, rows, cols, input, scaleQ16)[i] == 0
  {
    forall i | 0 <= i < rows
      ensures Layer(w, rows, cols, input, scaleQ16)[i] == 0
    {
      DotPrefixZero(w[i], input, cols);
      AsrOfZero(Q16_SHIFT);
    }
  }

  /**
   * For the network's widths (at most 784 columns of i8 data) and a scale of
   * magnitude at most 2^22 (a real scale up to 64), the i64 result of the shift
   * already fits i32: the truncating cast changes nothing and never yields i32::MIN.
   */
  lemma LayerExactForModestScale(w: seq<seq<i8>>, rows: nat, cols: nat, input: seq<i8>, scaleQ16: i32)
    requires IsMatrix(w, rows, cols) && |input| >= cols
    requires cols <= INPUT_SIZE && Abs(scaleQ16) <= 0x40_0000
    ensures AccumulatorFits(w, input, cols)
    ensures forall i :: 0 <= i < rows ==>
      Layer(w, rows, cols, input, scaleQ16)[i] == Asr(DotPrefix(w[i], input, cols) * scaleQ16, Q16_SHIFT) &&
      Layer(w, rows, cols, input, scaleQ16)[i] != I32_MIN
  {
    AccumulatorFitsForInt8(w, rows, cols, input);
    Pow2Values();
    forall i | 0 <= i < rows
      ensures Layer(w, rows, cols, input, scaleQ16)[i] == Asr(DotPrefix(w[i], input, cols) * scaleQ16, Q16_SHIFT)
      ensures Layer(w, rows, cols, input, scaleQ16)[i] != I32_MIN
    {
      var dot := DotPrefix(w[i], input, cols);
      DotPrefixBound(w[i], input, cols, 128, 128);
      MulLe(cols, INPUT_SIZE, 128 * 128);
      MulAbsBound(dot, scaleQ16, 0x100_0000, 0x40_0000);
      var p := dot * scaleQ16;
      AsrMonotone(p, 0x4000_0000_0000, Q16_SHIFT);
      AsrMonotone(-0x4000_0000_0000, p, Q16_SHIFT);
      AsrIsDivision(0x4000_0000_0000, Q16_SHIFT);
      AsrIsDivision(-0x4000_0000_0000, Q16_SHIFT);
    }
  }

  // ===================== ReLU =====================

  /** Element-wise max(x, 0): negatives become 0, everything else is kept. */
  function Relu(s: seq<i8>): (r: seq<i8>)
    ensures |r| == |s|
  {
    seq(|s|, k requires 0 <= k < |s| => if s[k] < 0 then 0 else s[k])
  }

  /** `relu_int8`: clears the negative entries of the buffer in place. */
  method ReluInt8(data: array<i8>)
    modifies data
    ensures data[..] == Relu(old(data[..]))
  {
    for k := 0 to data.Length
      invariant forall j :: 0 <= j < k ==> data[j] == if old(data[j]) < 0 then 0 else old(data[j])
      invariant forall j :: k <= j < data.Length ==> data[j] == old(data[j])
    {
      if data[k] < 0 {
        data[k] := 0;
      }
    }
  }

  /** ReLU leaves no negative entry, keeps the non-negative ones, and is idempotent. */
  lemma ReluProperties(s: seq<i8>)
    ensures |Relu(s)| == |s|
    ensures forall k :: 0 <= k < |s| ==> Relu(s)[k] >= 0
    ensures forall k :: 0 <= k < |s| ==> (s[k] >= 0 ==> Relu(s)[k] == s[k]) && (s[k] < 0 ==> Relu(s)[k] == 0)
    ensures Relu(Relu(s)) == Relu(s)
  {
  }

  // ===================== Argmax =====================

  /**
   * The index `max_by` picks among the first n elements: the running best is
   * replaced whenever the next element is at least as large, so the last of
   * several equal maxima wins.
   */
  function ArgmaxPrefix(data: seq<i32>, n: nat): (r: nat)
    requires 0 < n <= |data|
    ensures r < n
    ensures forall k :: 0 <= k < n ==> data[k] <= data[r]
    ensures forall k :: r < k < n ==> data[k] < data[r]
  {
    if n == 1 then 0
    else
      var best := ArgmaxPrefix(data, n - 1);
      if data[n - 1] >= data[best] then n - 1 else best
  }

  /** `argmax_int32`: the last index of a maximal element, or 0 for an empty slice. */
  function ArgmaxInt32(data: seq<i32>): (r: nat)
    ensures |data| == 0 ==> r == 0
    ensures |data| > 0 ==> r < |data|
    ensures forall k :: 0 <= k < |data| ==> data[k] <= data[r]
    ensures forall k :: r < k < |data| ==> data[k] < data[r]
  {
    if |data| == 0 then 0 else ArgmaxPrefix(data, |data|)
  }

  /** The two properties determine the index: any maximal index with no maximum after it is the argmax. */
  lemma ArgmaxUnique(data: seq<i32>, m: nat)
    requires m < |data|
    requires forall k :: 0 <= k < |data| ==> data[k] <= data[m]
    requires forall k :: m < k < |data| ==> data[k] < data[m]
    ensures ArgmaxInt32(data) == m
  {
  }

  /** On a constant non-empty vector every element ties, so the last index is chosen. */
  lemma ArgmaxOfConstant(data: seq<i32>)
    requires |data| > 0
    requires forall k :: 0 <= k < |data| ==> data[k] == data[0]
    ensures ArgmaxInt32(data) == |data| - 1
  {
    ArgmaxUnique(data, |data| - 1);
  }

  lemma ArgmaxExamples()
    ensures ArgmaxInt32([5, 5, 3]) == 1
    ensures ArgmaxInt32([]) == 0
  {
    ArgmaxUnique([5, 5, 3], 1);
  }

  // ===================== Re-quantiser =====================

  /** `fold(0, |acc, x| acc.max(x.abs()))`: the largest magnitude, 0 for an empty slice. */
  function MaxAbs(s: seq<int>): (m: nat)
    ensures forall k :: 0 <= k < |s| ==> Abs(s[k]) <= m
  {
    if s == [] then 0
    else
      var rest := MaxAbs(s[..|s| - 1]);
      assert forall k :: 0 <= k < |s| - 1 ==> s[..|s| - 1][k] == s[k];
      Max(rest, Abs(s[|s| - 1]))
  }

  /** A bound on every magnitude bounds the fold's result. */
  lemma {:induction false} MaxAbsAtMost(s: seq<int>, bound: nat)
    requires forall k :: 0 <= k < |s| ==> Abs(s[k]) <= bound
    ensures MaxAbs(s) <= bound
  {
    if s != [] {
      var init := s[..|s| - 1];
      assert forall k :: 0 <= k < |init| ==> init[k] == s[k];
      MaxAbsAtMost(init, bound);
    }
  }

  /** The fold's result is attained: it is 0 or the magnitude of some element. */
  lemma {:induction false} MaxAbsAttained(s: seq<int>)
    ensures MaxAbs(s) == 0 || exists k :: 0 <= k < |s| && Abs(s[k]) == MaxAbs(s)
  {
    if s != [] {
      var init := s[..|s| - 1];
      MaxAbsAttained(init);
      if MaxAbs(s) != Abs(s[|s| - 1]) && MaxAbs(s) != 0 {
        var k :| 0 <= k < |init| && Abs(init[k]) == MaxAbs(init);
        assert s[k] == init[k];
      }
    }
  }

  /**
   * The shift loop started at `shift`: it stops at the first shift at which
   * the magnitude, shifted, is at most 127, or at 31.
   */
  function ShiftSearch(maxAbs: nat, shift: nat): (s: nat)
    requires shift <= 31
    ensures shift <= s <= 31
    ensures s == 31 || Asr(maxAbs, s) <= 127
    decreases 31 - shift
  {
    if Asr(maxAbs, shift) > 127 && shift < 31 then ShiftSearch(maxAbs, shift + 1) else shift
  }

  /** No shift the search stepped over brings the magnitude into range. */
  lemma {:induction false} ShiftSearchIsLeast(maxAbs: nat, shift: nat, t: nat)
    requires shift <= 31 && shift <= t < ShiftSearch(maxAbs, shift)
    ensures Asr(maxAbs, t) > 127
    decreases 31 - shift
  {
    if t > shift {
      ShiftSearchIsLeast(maxAbs, shift + 1, t);
    }
  }

  /** Every element shifted right by `shift` and clamped into i8. */
  function ShiftAndClamp(input: seq<i32>, shift: nat): (r: seq<i8>)
    ensures |r| == |input|
  {
    seq(|input|, k requires 0 <= k < |input| => Clamp(Asr(input[k], shift), -128, 127) as i8)
  }

  /** What `int32_to_int8_with_scaling` returns, on input without i32::MIN. */
  function Requantize(input: seq<i32>): (r: seq<i8>)
    requires NoI32Min(input)
    ensures |r| == |input|
  {
    var maxAbs := MaxAbs(input);
    if maxAbs == 0 then seq(|input|, _ => 0)
    else ShiftAndClamp(input, ShiftSearch(maxAbs, 0))
  }

  predicate NoI32Min(s: seq<i32>) {
    forall k :: 0 <= k < |s| ==> s[k] != I32_MIN
  }

  /** `int32_to_int8_with_scaling`: `x.abs()` overflows on i32::MIN, which the source does not handle. */
  method Int32ToInt8WithScaling(input: seq<i32>) returns (result: seq<i8>)
    requires NoI32Min(input)
    ensures result == Requantize(input)
  {
    var maxAbs := MaxAbs(input);
    if maxAbs == 0 {
      result := seq(|input|, _ => 0);
      return;
    }
    var shift: nat := 0;
    var maxVal := maxAbs;
    while maxVal > 127 && shift < 31
      invariant shift <= 31
      invariant maxVal == Asr(maxAbs, shift)
      invariant ShiftSearch(maxAbs, shift) == ShiftSearch(maxAbs, 0)
      decreases 31 - shift
    {
      AsrStep(maxAbs, shift);
      maxVal := Asr(maxVal, 1);
      shift := shift + 1;
    }
    ghost var expected := ShiftAndClamp(input, shift);
    result := [];
    for k := 0 to |input|
      invariant result == expected[..k]
    {
      result := result + [Clamp(Asr(input[k], shift), -128, 127) as i8];
    }
    assert expected[..|input|] == expected;
  }

  /**
   * For i32 input the search never reaches its cap: the chosen shift is the
   * least s with max|x| >> s <= 127, and it is at most 24.
   */
  lemma ShiftIsLeast(maxAbs: nat)
    requires maxAbs <= I32_MAX
    ensures ShiftSearch(maxAbs, 0) <= 24
    ensures Asr(maxAbs, ShiftSearch(maxAbs, 0)) <= 127
    ensures forall t :: 0 <= t < ShiftSearch(maxAbs, 0) ==> Asr(maxAbs, t) > 127
  {
    Pow2Values();
    AsrIsDivision(I32_MAX, 24);
    AsrMonotone(maxAbs, I32_MAX, 24);
    assert Asr(I32_MAX, 24) == 127;
    forall t | 0 <= t < ShiftSearch(maxAbs, 0) ensures Asr(maxAbs, t) > 127 {
      ShiftSearchIsLeast(maxAbs, 0, t);
    }
  }

  /**
   * Away from zero the re-quantiser divides by 2^shift for the least shift
   * that brings the largest magnitude into range (at most 24 for i32 data),
   * and every shifted value already lies in [-128, 127]: the clamp never
   * cuts anything off.
   */
  lemma RequantizeIsExactShift(input: seq<i32>)
    requires NoI32Min(input) && MaxAbs(input) > 0
    ensures
      var shift := ShiftSearch(MaxAbs(input), 0);
      shift <= 24 && Asr(MaxAbs(input), shift) <= 127 &&
      (forall t :: 0 <= t < shift ==> Asr(MaxAbs(input), t) > 127) &&
      (forall k :: 0 <= k < |input| ==> Requantize(input)[k] == Asr(input[k], shift))
  {
    var m: int := MaxAbs(input);
    MaxAbsAtMost(input, I32_MAX);
    ShiftIsLeast(m);
    var shift := ShiftSearch(m, 0);
    forall k | 0 <= k < |input|
      ensures -128 <= Asr(input[k], shift) <= 127
    {
      AsrMonotone(input[k], m, shift);
      AsrMonotone(-m, input[k], shift);
      AsrNegated(m, shift);
    }
  }

  /** The re-quantiser keeps the length, lands in i8, and keeps the sign of every element. */
  lemma RequantizeKeepsSign(input: seq<i32>)
    requires NoI32Min(input)
    ensures |Requantize(input)| == |input|
    ensures forall k :: 0 <= k < |input| ==> -128 <= Requantize(input)[k] <= 127
    ensures forall k :: 0 <= k < |input| ==> (input[k] >= 0 <==> Requantize(input)[k] >= 0)
  {
    var m: int := MaxAbs(input);
    if m == 0 {
      forall k | 0 <= k < |input| ensures input[k] == 0 {
        assert Abs(input[k]) <= m;
      }
    } else {
      RequantizeIsExactShift(input);
      var shift := ShiftSearch(m, 0);
      forall k | 0 <= k < |input| ensures input[k] >= 0 <==> Asr(input[k], shift) >= 0 {
        AsrSign(input[k], shift);
      }
    }
  }

  /**
   * An all-zero (or empty) input maps to zeros, and when every magnitude is
   * at most 127 the re-quantiser is the identity.
   */
  lemma RequantizeIdentity(input: seq<i32>)
    requires NoI32Min(input)
    ensures MaxAbs(input) == 0 ==> forall k :: 0 <= k < |input| ==> Requantize(input)[k] == 0
    ensures MaxAbs(input) <= 127 ==> Requantize(input) == input
  {
    var m: int := MaxAbs(input);
    if m == 0 {
      forall k | 0 <= k < |input| ensures input[k] == 0 {
        assert Abs(input[k]) <= m;
      }
    } else if m <= 127 {
      RequantizeIsExactShift(input);
      assert ShiftSearch(m, 0) == 0;
    }
  }

  // ===================== Pipeline =====================

  predicate ModelShapes(fc1: seq<seq<i8>>, fc2: seq<seq<i8>>, fc3: seq<seq<i8>>) {
    IsMatrix(fc1, HIDDEN1_SIZE, INPUT_SIZE) && IsMatrix(fc2, HIDDEN2_SIZE, HIDDEN1_SIZE) && IsMatrix(fc3, NUM_CLASSES, HIDDEN2_SIZE)
  }

  /** fc1 applied to the quantised image. */
  function Fc1Output(fc1: seq<seq<i8>>, image: seq<u8>, fc1Scale: i32): (r: seq<i32>)
    requires IsMatrix(fc1, HIDDEN1_SIZE, INPUT_SIZE) && |image| >= INPUT_SIZE
    ensures |r| == HIDDEN1_SIZE
  {
    var x := NormalizeAndQuantizeInput(image);
    AccumulatorFitsForInt8(fc1, HIDDEN1_SIZE, INPUT_SIZE, x);
    Layer(fc1, HIDDEN1_SIZE, INPUT_SIZE, x, fc1Scale)
  }

  /** fc2 applied to the re-quantised, rectified fc1 output. */
  function Fc2Output(fc1: seq<seq<i8>>, fc2: seq<seq<i8>>, image: seq<u8>, fc1Scale: i32, fc2Scale: i32): (r: seq<i32>)
    requires IsMatrix(fc1, HIDDEN1_SIZE, INPUT_SIZE) && IsMatrix(fc2, HIDDEN2_SIZE, HIDDEN1_SIZE)
    requires |image| >= INPUT_SIZE
    requires NoI32Min(Fc1Output(fc1, image, fc1Scale))
    ensures |r| == HIDDEN2_SIZE
  {
    var a := Relu(Requantize(Fc1Output(fc1, image, fc1Scale)));
    AccumulatorFitsForInt8(fc2, HIDDEN2_SIZE, HIDDEN1_SIZE, a);
    Layer(fc2, HIDDEN2_SIZE, HIDDEN1_SIZE, a, fc2Scale)
  }

  /**
   * The hidden layers produce no i32::MIN, which the re-quantiser's `abs`
   * cannot take (see PipelineDefinedForModestScales for a sufficient condition).
   */
  predicate HiddenLayersDefined(fc1: seq<seq<i8>>, fc2: seq<seq<i8>>, image: seq<u8>, fc1Scale: i32, fc2Scale: i32)
    requires IsMatrix(fc1, HIDDEN1_SIZE, INPUT_SIZE) && IsMatrix(fc2, HIDDEN2_SIZE, HIDDEN1_SIZE)
    requires |image| >= INPUT_SIZE
  {
    NoI32Min(Fc1Output(fc1, image, fc1Scale)) && NoI32Min(Fc2Output(fc1, fc2, image, fc1Scale, fc2Scale))
  }

  /** fc3 applied to the re-quantised, rectified fc2 output: the ten class scores. */
  function Fc3Output(fc1: seq<seq<i8>>, fc2: seq<seq<i8>>, fc3: seq<seq<i8>>, image: seq<u8>,
                     fc1Scale: i32, fc2Scale: i32, fc3Scale: i32): (r: seq<i32>)
    requires ModelShapes(fc1, fc2, fc3) && |image| >= INPUT_SIZE
    requires HiddenLayersDefined(fc1, fc2, image, fc1Scale, fc2Scale)
    ensures |r| == NUM_CLASSES
  {
    var a := Relu(Requantize(Fc2Output(fc1, fc2, image, fc1Scale, fc2Scale)));
    AccumulatorFitsForInt8(fc3, NUM_CLASSES, HIDDEN2_SIZE, a);
    Layer(fc3, NUM_CLASSES, HIDDEN2_SIZE, a, fc3Scale)
  }

  /** The predicted digit: the argmax of the class scores, always one of 0..9. */
  function Classify(fc1: seq<seq<i8>>, fc2: seq<seq<i8>>, fc3: seq<seq<i8>>, image: seq<u8>,
                    fc1Scale: i32, fc2Scale: i32, fc3Scale: i32): (digit: nat)
    requires ModelShapes(fc1, fc2, fc3) && |image| >= INPUT_SIZE
    requires HiddenLayersDefined(fc1, fc2, image, fc1Scale, fc2Scale)
    ensures digit < NUM_CLASSES
  {
    ArgmaxInt32(Fc3Output(fc1, fc2, fc3, image, fc1Scale, fc2Scale, fc3Scale))
  }

  /** `mnist_inference_pure_int8`: the straight-line forward pass, ReLU applied in place to each hidden buffer. */
  method MnistInferencePureInt8(fc1Weights: seq<seq<i8>>, fc2Weights: seq<seq<i8>>, fc3Weights: seq<seq<i8>>,
                                inputImage: seq<u8>, fc1ScaleQ16: i32, fc2ScaleQ16: i32, fc3ScaleQ16: i32)
    returns (digit: nat)
    requires ModelShapes(fc1Weights, fc2Weights, fc3Weights)
    requires |inputImage| >= INPUT_SIZE
    requires HiddenLayersDefined(fc1Weights, fc2Weights, inputImage, fc1ScaleQ16, fc2ScaleQ16)
    ensures digit == Classify(fc1Weights, fc2Weights, fc3Weights, inputImage, fc1ScaleQ16, fc2ScaleQ16, fc3ScaleQ16)
    ensures digit < NUM_CLASSES
  {
    var normalizedInput := NormalizeAndQuantizeInput(inputImage);

    AccumulatorFitsForInt8(fc1Weights, HIDDEN1_SIZE, INPUT_SIZE, normalizedInput);
    var fc1Output := Int8MatmulSymmetric(fc1Weights, HIDDEN1_SIZE, INPUT_SIZE, normalizedInput, fc1ScaleQ16);
    var fc1Scaled := Int32ToInt8WithScaling(fc1Output);
    var fc1Activations := new i8[|fc1Scaled|](k requires 0 <= k < |fc1Scaled| => fc1Scaled[k]);
    assert fc1Activations[..] == fc1Scaled;
    ReluInt8(fc1Activations);

    AccumulatorFitsForInt8(fc2Weights, HIDDEN2_SIZE, HIDDEN1_SIZE, fc1Activations[..]);
    var fc2Output := Int8MatmulSymmetric(fc2Weights, HIDDEN2_SIZE, HIDDEN1_SIZE, fc1Activations[..], fc2ScaleQ16);
    var fc2Scaled := Int32ToInt8WithScaling(fc2Output);
    var fc2Activations := new i8[|fc2Scaled|](k requires 0 <= k < |fc2Scaled| => fc2Scaled[k]);
    assert fc2Activations[..] == fc2Scaled;
    ReluInt8(fc2Activations);

    AccumulatorFitsForInt8(fc3Weights, NUM_CLASSES, HIDDEN2_SIZE, fc2Activations[..]);
    var finalOutput := Int8MatmulSymmetric(fc3Weights, NUM_CLASSES, HIDDEN2_SIZE, fc2Activations[..], fc3ScaleQ16);
    digit := ArgmaxInt32(finalOutput);
  }

  /** With scales of magnitude at most 2^22 on fc1 and fc2 the pipeline's precondition always holds. */
  lemma PipelineDefinedForModestScales(fc1: seq<seq<i8>>, fc2: seq<seq<i8>>, image: seq<u8>, fc1Scale: i32, fc2Scale: i32)
    requires IsMatrix(fc1, HIDDEN1_SIZE, INPUT_SIZE) && IsMatrix(fc2, HIDDEN2_SIZE, HIDDEN1_SIZE)
    requires |image| >= INPUT_SIZE
    requires Abs(fc1Scale) <= 0x40_0000 && Abs(fc2Scale) <= 0x40_0000
    ensures HiddenLayersDefined(fc1, fc2, image, fc1Scale, fc2Scale)
  {
    var x := NormalizeAndQuantizeInput(image);
    LayerExactForModestScale(fc1, HIDDEN1_SIZE, INPUT_SIZE, x, fc1Scale);
    var a := Relu(Requantize(Fc1Output(fc1, image, fc1Scale)));
    LayerExactForModestScale(fc2, HIDDEN2_SIZE, HIDDEN1_SIZE, a, fc2Scale);
  }

  /** All-zero fc3 weights give ten equal (zero) scores, so the last class, 9, is predicted. */
  lemma ClassifyWithZeroFc3(fc1: seq<seq<i8>>, fc2: seq<seq<i8>>, fc3: seq<seq<i8>>, image: seq<u8>,
                            fc1Scale: i32, fc2Scale: i32, fc3Scale: i32)
    requires ModelShapes(fc1, fc2, fc3) && |image| >= INPUT_SIZE
    requires HiddenLayersDefined(fc1, fc2, image, fc1Scale, fc2Scale)
    requires forall i, j :: 0 <= i < NUM_CLASSES && 0 <= j < HIDDEN2_SIZE ==> fc3[i][j] == 0
    ensures Classify(fc1, fc2, fc3, image, fc1Scale, fc2Scale, fc3Scale) == 9
  {
    var a := Relu(Requantize(Fc2Output(fc1, fc2, image, fc1Scale, fc2Scale)));
    AccumulatorFitsForInt8(fc3, NUM_CLASSES, HIDDEN2_SIZE, a);
    LayerOfZeroWeights(fc3, NUM_CLASSES, HIDDEN2_SIZE, a, fc3Scale);
    ArgmaxOfConstant(Fc3Output(fc1, fc2, fc3, image, fc1Scale, fc2Scale, fc3Scale));
  }

  /** Whenever the final scores are all equal the prediction is 9. */
  lemma ClassifyOfConstantScores(fc1: seq<seq<i8>>, fc2: seq<seq<i8>>, fc3: seq<seq<i8>>, image: seq<u8>,
                                 fc1Scale: i32, fc2Scale: i32, fc3Scale: i32)
    requires ModelShapes(fc1, fc2, fc3) && |image| >= INPUT_SIZE
    requires HiddenLayersDefined(fc1, fc2, image, fc1Scale, fc2Scale)
    requires var out := Fc3Output(fc1, fc2, fc3, image, fc1Scale, fc2Scale, fc3Scale);
      forall k :: 0 <= k < NUM_CLASSES ==> out[k] == out[0]
    ensures Classify(fc1, fc2, fc3, image, fc1Scale, fc2Scale, fc3Scale) == 9
  {
    ArgmaxOfConstant(Fc3Output(fc1, fc2, fc3, image, fc1Scale, fc2Scale, fc3Scale));
  }
}
