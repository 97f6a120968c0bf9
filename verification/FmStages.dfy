/**
 The chunked stages of FM demodulation (`modules/fm_demod.py`): box-car decimation
 with a carried tail, the overlap-save channel filter with carried history and
 decimation phase, and the fractional-position resampler.

 Each stage is a class that carries state from chunk to chunk. Its ghost `input` is
 everything fed so far, and its invariant says that what it has put out is the
 one-shot computation on `input`, however that input was cut into chunks. Samples are
 exact reals; the FFT product is taken by its meaning, a circular convolution.
 */
module FmStages {
  import opened Wrappers
  import opened Arith

  // ---------- box-car ----------

  function Sum(x: seq<real>): real {
    if x == [] then 0.0 else Sum(x[..|x| - 1]) + x[|x| - 1]
  }

  /** Means of the complete runs of `d` samples. */
  function Box(x: seq<real>, d: nat): seq<real>
    requires 0 < d
  {
    if |x| < d then [] else [Sum(x[..d]) / d as real] + Box(x[d..], d)
  }

  /** What the complete runs leave over. */
  function Rest(x: seq<real>, d: nat): seq<real>
    requires 0 < d
  {
    if |x| < d then x else Rest(x[d..], d)
  }

  /** Cutting the input anywhere changes nothing if the remainder is carried. */
  lemma {:induction false} BoxCut(a: seq<real>, b: seq<real>, d: nat)
    requires 0 < d
    ensures Box(a + b, d) == Box(a, d) + Box(Rest(a, d) + b, d)
    ensures Rest(a + b, d) == Rest(Rest(a, d) + b, d)
    decreases |a|
  {
    if |a| >= d {
      assert (a + b)[..d] == a[..d] && (a + b)[d..] == a[d..] + b;
      BoxCut(a[d..], b, d);
    }
  }

  /** A sum is that of its parts, and the sum of one sample is the sample. */
  lemma {:induction false} SumAdds(a: seq<real>, b: seq<real>)
    ensures Sum(a + b) == Sum(a) + Sum(b)
    ensures |a| == 1 ==> Sum(a) == a[0]
    decreases |b|
  {
    if b == [] {
      assert a + b == a;
    } else {
      SumAdds(a, b[..|b| - 1]);
      assert (a + b)[..|a + b| - 1] == a + b[..|b| - 1];
    }
    if |a| == 1 {
      assert a[..0] == [];
    }
  }

  /** How many of `n` samples are in complete runs: `(n // d) * d`. */
  function Used(n: nat, d: nat): nat
    requires 0 < d
  {
    n / d * d
  }

  lemma {:induction false} UsedStep(n: nat, d: nat)
    requires 0 < d
    ensures Used(n, d) <= n
    ensures Used(n, d) == if n < d then 0 else d + Used(n - d, d)
  {
    DivStep(n, d);
    assert n == d * (n / d) + n % d;
    assert n / d * d == d * (n / d);
    if n >= d {
      Distribute(n / d, d);
    } else {
      DivUnique(n, d, 0, n);
    }
  }

  lemma {:induction false} Distribute(q: int, d: int)
    ensures (q - 1) * d == q * d - d
  {
  }

  lemma {:induction false} BoxUsed(x: seq<real>, d: nat)
    requires 0 < d
    ensures Used(|x|, d) <= |x|
    ensures Box(x[..Used(|x|, d)], d) == Box(x, d) && Rest(x[..Used(|x|, d)], d) == []
    ensures Rest(x, d) == x[Used(|x|, d)..]
    decreases |x|
  {
    hide Used, Sum;
    UsedStep(|x|, d);
    if |x| >= d {
      var used := Used(|x|, d);
      BoxUsed(x[d..], d);
      assert x[..used][d..] == x[d..][..used - d];
      assert x[..used][..d] == x[..d];
      assert x[d..][used - d..] == x[used..];
    } else {
      assert x[0..] == x;
    }
  }

  /** `_boxcar`: one output per run, each a sum over the run divided by `d`. */
  method Boxcar(x: seq<real>, d: nat) returns (y: seq<real>)
    requires 0 < d && Rest(x, d) == []
    ensures y == Box(x, d)
  {
    y := [];
    var left := x;
    while |left| > 0
      invariant Box(x, d) == y + Box(left, d) && Rest(left, d) == []
      decreases |left|
    {
      var s := 0.0;
      for j := 0 to d
        invariant j <= |left| && s == Sum(left[..j])
      {
        assert left[..j + 1][..j] == left[..j];
        s := s + left[j];
      }
      y := y + [s / d as real];
      left := left[d..];
    }
  }

  class BoxStage {
    const d: nat
    var tail: seq<real>
    ghost var input: seq<real>

    ghost predicate Valid()
      reads this
    {
      0 < d && tail == Rest(input, d)
    }

    constructor (d: nat)
      requires 0 < d
      ensures Valid() && input == [] && this.d == d
    {
      this.d, tail, input := d, [], [];
    }

    /** The outputs so far are always the one-shot box-car of everything fed so far. */
    method Process(x: seq<real>) returns (y: seq<real>)
      requires Valid()
      modifies this
      ensures Valid() && input == old(input) + x
      ensures Box(old(input), d) + y == Box(input, d)
    {
      hide Used, Box, Rest;
      BoxCut(input, x, d);
      var iq := tail + x;
      BoxUsed(iq, d);
      var used := Used(|iq|, d);
      tail := iq[used..];
      y := Boxcar(iq[..used], d);
      input := input + x;
    }
  }

  // ---------- channel filter ----------

  /** The filter's output at index `i`, from the first `m` taps. */
  function FirSum(taps: seq<real>, x: seq<real>, i: int, m: nat): real
    requires m <= |taps| && m - 1 <= i < |x|
  {
    if m == 0 then 0.0 else FirSum(taps, x, i, m - 1) + taps[m - 1] * x[i - (m - 1)]
  }

  /** A single sample at `p` comes out weighed by tap `i - p`, and by none when there is no such
      tap ... */
  lemma {:induction false} FirOfOne(taps: seq<real>, x: seq<real>, i: int, m: nat, p: nat)
    requires m <= |taps| && m - 1 <= i < |x| && p < |x|
    requires forall k :: 0 <= k < |x| && k != p ==> x[k] == 0.0
    ensures FirSum(taps, x, i, m) == if 0 <= i - p < m then taps[i - p] * x[p] else 0.0
  {
    if m > 0 {
      FirOfOne(taps, x, i, m - 1, p);
    }
  }

  /** ... and what comes out of a sum is the sum of what comes out. */
  lemma {:induction false} FirAdds(taps: seq<real>, x: seq<real>, y: seq<real>, z: seq<real>, i: int, m: nat)
    requires m <= |taps| && m - 1 <= i < |x| == |y| == |z|
    requires forall k :: 0 <= k < |z| ==> z[k] == x[k] + y[k]
    ensures FirSum(taps, z, i, m) == FirSum(taps, x, i, m) + FirSum(taps, y, i, m)
  {
    if m > 0 {
      FirAdds(taps, x, y, z, i, m - 1);
      RealDistribute(x[i - (m - 1)], y[i - (m - 1)], taps[m - 1]);
    }
  }

  /** Linear convolution where every tap meets a sample: the filter's outputs for the
      samples after the first `|taps| - 1`. */
  function Fir(taps: seq<real>, x: seq<real>): (y: seq<real>)
    requires 0 < |taps| && |taps| - 1 <= |x|
    ensures |y| == |x| - (|taps| - 1)
  {
    seq(|x| - (|taps| - 1), k requires 0 <= k < |x| - (|taps| - 1) =>
      FirSum(taps, x, k + |taps| - 1, |taps|))
  }

  /** Only the last `|taps| - 1` earlier samples matter. */
  lemma {:induction false} FirShift(taps: seq<real>, x: seq<real>, s: nat, i: int, m: nat)
    requires m <= |taps| && s <= |x| && s + m - 1 <= i < |x| && s <= i
    ensures FirSum(taps, x, i, m) == FirSum(taps, x[s..], i - s, m)
  {
    if m > 0 {
      FirShift(taps, x, s, i, m - 1);
    }
  }

  lemma {:induction false} FirPrefix(taps: seq<real>, a: seq<real>, b: seq<real>, i: int, m: nat)
    requires m <= |taps| && m - 1 <= i < |a|
    ensures FirSum(taps, a + b, i, m) == FirSum(taps, a, i, m)
  {
    if m > 0 {
      FirPrefix(taps, a, b, i, m - 1);
    }
  }

  lemma {:induction false} FirCut(taps: seq<real>, a: seq<real>, b: seq<real>)
    requires 0 < |taps| && |taps| - 1 <= |a|
    ensures Fir(taps, a + b) == Fir(taps, a) + Fir(taps, a[|a| - (|taps| - 1)..] + b)
  {
    var n, s := |taps| - 1, |a| - (|taps| - 1);
    var tail := a[s..] + b;
    assert (a + b)[s..] == tail;
    forall k | 0 <= k < |a + b| - n
      ensures Fir(taps, a + b)[k] == (Fir(taps, a) + Fir(taps, tail))[k]
    {
      if k < s {
        FirPrefix(taps, a, b, k + n, |taps|);
      } else {
        FirShift(taps, a + b, s, k + n, |taps|);
      }
    }
  }

  /** What the product of two FFTs of size `nfft` gives at index `i`: the circular
      convolution of the taps with `x` zero-padded to `nfft`. */
  function CircSum(taps: seq<real>, x: seq<real>, nfft: nat, i: int, m: nat): real
    requires m <= |taps| && |x| <= nfft && 0 < nfft
  {
    if m == 0 then 0.0
    else
      var at := (i - (m - 1)) % nfft;
      CircSum(taps, x, nfft, i, m - 1) + taps[m - 1] * (if at < |x| then x[at] else 0.0)
  }

  /** Kept indices never wrap around, so there the circular convolution is the linear one. */
  lemma {:induction false} KeptIndicesDoNotWrap(taps: seq<real>, x: seq<real>, nfft: nat, i: int, m: nat)
    requires m <= |taps| && |x| <= nfft && 0 < nfft && m - 1 <= i < |x|
    ensures CircSum(taps, x, nfft, i, m) == FirSum(taps, x, i, m)
  {
    if m > 0 {
      KeptIndicesDoNotWrap(taps, x, nfft, i, m - 1);
      ModSmall(i - (m - 1), nfft);
    }
  }

  lemma {:induction false} ModSmall(a: nat, n: nat)
    requires a < n
    ensures a % n == a
  {
  }

  function BitLength(m: nat): nat {
    if m == 0 then 0 else 1 + BitLength(m / 2)
  }

  function Pow2(k: nat): nat {
    if k == 0 then 1 else 2 * Pow2(k - 1)
  }

  /** `1 << (n - 1).bit_length()` is large enough for `n` samples. */
  lemma {:induction false} FftFits(m: nat)
    ensures m < Pow2(BitLength(m))
  {
    if m > 0 {
      FftFits(m / 2);
    }
  }

  /** Every `d`-th sample from `phase` on. */
  function Every(y: seq<real>, phase: nat, d: nat): seq<real>
    requires 0 < d
    decreases |y| - phase
  {
    if phase >= |y| then [] else [y[phase]] + Every(y, phase + d, d)
  }

  function NextPhase(y: seq<real>, phase: nat, d: nat): nat
    requires 0 < d
    decreases |y| - phase
  {
    if phase >= |y| then phase - |y| else NextPhase(y, phase + d, d)
  }

  /** The source's phase update, and its invariant. */
  lemma {:induction false} PhaseFormula(y: seq<real>, phase: nat, d: nat)
    requires 0 < d
    ensures NextPhase(y, phase, d) == phase + d * |Every(y, phase, d)| - |y|
    ensures phase < |y| + d ==> NextPhase(y, phase, d) < d
    decreases |y| - phase
  {
    if phase < |y| {
      PhaseFormula(y, phase + d, d);
      assert d * (1 + |Every(y, phase + d, d)|) == d + d * |Every(y, phase + d, d)|;
    }
  }

  lemma {:induction false} EveryStep(y: seq<real>, phase: nat, d: nat)
    requires 0 < d
    ensures Every(y, phase, d) == if phase < |y| then [y[phase]] + Every(y, phase + d, d) else []
    ensures NextPhase(y, phase, d) == if phase < |y| then NextPhase(y, phase + d, d) else phase - |y|
  {
  }

  lemma {:induction false} EveryCut(a: seq<real>, b: seq<real>, phase: nat, d: nat)
    requires 0 < d
    ensures Every(a + b, phase, d) == Every(a, phase, d) + Every(b, NextPhase(a, phase, d), d)
    ensures NextPhase(a + b, phase, d) == NextPhase(b, NextPhase(a, phase, d), d)
    decreases |a| - phase
  {
    hide Every, NextPhase;
    EveryStep(a, phase, d);
    if phase < |a| {
      EveryStep(a + b, phase, d);
      EveryCut(a, b, phase + d, d);
      assert (a + b)[phase] == a[phase];
    } else {
      EveryOfTail(a, b, phase, d);
    }
  }

  lemma {:induction false} EveryOfTail(a: seq<real>, b: seq<real>, phase: nat, d: nat)
    requires 0 < d && |a| <= phase
    ensures Every(a + b, phase, d) == Every(b, phase - |a|, d)
    ensures NextPhase(a + b, phase, d) == NextPhase(b, phase - |a|, d)
    decreases |a| + |b| - phase
  {
    hide Every, NextPhase;
    EveryStep(a + b, phase, d);
    EveryStep(b, phase - |a|, d);
    if phase < |a| + |b| {
      EveryOfTail(a, b, phase + d, d);
      assert phase + d - |a| == phase - |a| + d;
      assert (a + b)[phase] == b[phase - |a|];
    }
  }

  /** The one-shot channel filter: zero history, then every `d`-th output. */
  function FilterAll(taps: seq<real>, d: nat, input: seq<real>): seq<real>
    requires 0 < |taps| && 0 < d
  {
    Every(Fir(taps, Copies(|taps| - 1, 0.0) + input), 0, d)
  }

  class FirStage {
    const taps: seq<real>
    const d: nat
    var hist: seq<real>
    var phase: nat
    ghost var input: seq<real>

    ghost predicate Valid()
      reads this
    {
      && 0 < |taps| && 0 < d
      && hist == (Copies(|taps| - 1, 0.0) + input)[|input|..]
      && phase == NextPhase(Fir(taps, Copies(|taps| - 1, 0.0) + input), 0, d)
      && phase < d
    }

    constructor (taps: seq<real>, d: nat)
      requires 0 < |taps| && 0 < d
      ensures Valid() && input == [] && this.taps == taps && this.d == d
    {
      this.taps, this.d := taps, d;
      hist, phase, input := Copies(|taps| - 1, 0.0), 0, [];
    }

    /** Overlap-save: the outputs so far are always the one-shot filter and decimation
        of everything fed so far. */
    method Process(x: seq<real>) returns (out: seq<real>)
      requires Valid()
      modifies this
      ensures Valid() && input == old(input) + x
      ensures FilterAll(taps, d, old(input)) + out == FilterAll(taps, d, input)
    {
      hide Every, NextPhase, Fir;
      var n := |taps| - 1;
      ghost var was := Copies(n, 0.0) + input;
      assert was + x == Copies(n, 0.0) + (input + x);
      FirCut(taps, was, x);
      EveryCut(Fir(taps, was), Fir(taps, hist + x), 0, d);
      var xe := hist + x;
      var y := OverlapSave(xe);
      hist := xe[|xe| - n..];
      out := TakeEvery(y, phase, d);
      PhaseFormula(y, phase, d);
      phase := phase + d * |out| - |y|;
      input := input + x;
      assert hist == (was + x)[|input|..];
    }

    /** The circular convolution by FFT, cut to the indices that are exact. */
    method OverlapSave(xe: seq<real>) returns (y: seq<real>)
      requires 0 < |taps| && |taps| - 1 <= |xe|
      ensures y == Fir(taps, xe)
    {
      var bits := if |xe| == 0 then 1 else BitLength(|xe| - 1);
      var nfft := Pow2(bits);
      if |xe| > 0 {
        FftFits(|xe| - 1);
      }
      y := [];
      for i := |taps| - 1 to |xe|
        invariant |y| == i - (|taps| - 1)
        invariant forall k :: 0 <= k < |y| ==> y[k] == FirSum(taps, xe, k + |taps| - 1, |taps|)
      {
        KeptIndicesDoNotWrap(taps, xe, nfft, i, |taps|);
        y := y + [CircSum(taps, xe, nfft, i, |taps|)];
      }
    }
  }

  method TakeEvery(y: seq<real>, phase: nat, d: nat) returns (out: seq<real>)
    requires 0 < d
    ensures out == Every(y, phase, d)
  {
    out := [];
    var i := phase;
    while i < |y|
      invariant Every(y, phase, d) == out + Every(y, i, d)
      decreases |y| - i
    {
      out := out + [y[i]];
      i := i + d;
    }
  }

  // ---------- what the one-shot computations are ----------

  /** Output `i` of the box-car is the mean of input run `i`. */
  lemma {:induction false} BoxAt(x: seq<real>, d: nat, i: nat)
    requires 0 < d && i < |Box(x, d)|
    ensures i * d + d <= |x|
    ensures Box(x, d)[i] == Sum(x[i * d..i * d + d]) / d as real
    decreases i
  {
    if i > 0 {
      BoxAt(x[d..], d, i - 1);
      Distribute(i, d);
      assert x[d..][(i - 1) * d..(i - 1) * d + d] == x[i * d..i * d + d];
    } else {
      assert 0 * d == 0 && x[0..d] == x[..d];
    }
  }

  /** Output `k` of the decimation is input `phase + k * d`, as long as there is one. */
  lemma {:induction false} EveryAt(y: seq<real>, phase: nat, d: nat, k: nat)
    requires 0 < d
    ensures k < |Every(y, phase, d)| <==> phase + k * d < |y|
    ensures k < |Every(y, phase, d)| ==> Every(y, phase, d)[k] == y[phase + k * d]
    decreases |y| - phase
  {
    if phase < |y| && k > 0 {
      Distribute(k, d);
      EveryAt(y, phase + d, d, k - 1);
    } else if k == 0 {
      assert 0 * d == 0;
    } else {
      assert k * d >= 0;
    }
  }

  /** Output `k` of the channel filter weighs the input samples up to `k * d`, with
      zeros before the first. */
  lemma {:induction false} FilterAllAt(taps: seq<real>, d: nat, input: seq<real>, k: nat)
    requires 0 < |taps| && 0 < d
    ensures k < |FilterAll(taps, d, input)| <==> k * d < |input|
    ensures k < |FilterAll(taps, d, input)| ==>
      0 <= k * d && FilterAll(taps, d, input)[k] == FirSum(taps, Copies(|taps| - 1, 0.0) + input, k * d + |taps| - 1, |taps|)
  {
    assert k * d >= 0;
    EveryAt(Fir(taps, Copies(|taps| - 1, 0.0) + input), 0, d, k);
  }

  // ---------- resampler ----------

  /** Linear interpolation at position `t`. */
  function Interp(x: seq<real>, t: real): real
    requires 0.0 <= t <= (|x| - 1) as real
  {
    var i := t.Floor;
    if i + 1 < |x| then x[i] + (t - i as real) * (x[i + 1] - x[i]) else x[i]
  }

  /** At an integer it is the sample there, and between two samples it moves by the same share
      of their difference as the position does of one. */
  lemma {:induction false} InterpMeans(x: seq<real>, i: nat, t: real)
    requires i < |x|
    ensures Interp(x, i as real) == x[i]
    ensures i + 1 < |x| && i as real <= t <= (i + 1) as real ==>
      Interp(x, t) - x[i] == (t - i as real) * (x[i + 1] - x[i])
  {
    assert (i as real).Floor == i;
    if i + 1 < |x| && i as real <= t <= (i + 1) as real {
      if t == (i + 1) as real {
        assert t.Floor == i + 1;
      } else {
        assert t.Floor == i;
      }
    }
  }

  /** Position of output `k`. */
  function At(k: int, step: real): real {
    k as real * step
  }

  /** `count` is how many outputs fall on or before the last input sample. */
  ghost predicate IsCount(n: nat, step: real, count: nat) {
    && (0 < count ==> At(count - 1, step) <= (n - 1) as real)
    && (n - 1) as real < At(count, step)
  }

  lemma {:induction false} AtStep(k: int, step: real)
    ensures At(k + 1, step) == At(k, step) + step
  {
    assert (k + 1) as real == k as real + 1.0;
    RealDistribute(k as real, 1.0, step);
  }

  lemma {:induction false} AtMonotone(j: int, k: int, step: real)
    requires j <= k && 0.0 < step
    ensures At(j, step) <= At(k, step)
  {
    ScaledOrder(j as real, k as real, step);
  }

  /** The one-shot resampling of `x`: output `k` interpolates `x` at `k * step`. */
  ghost function ResampleAll(x: seq<real>, step: real, count: nat): (y: seq<real>)
    requires 0.0 < step && (0 < count ==> At(count - 1, step) <= (|x| - 1) as real)
    ensures |y| == count
    ensures forall k :: 0 <= k < count ==> InRange(x, step, k) && y[k] == Interp(x, At(k, step))
  {
    if count == 0 then []
    else
      AtMonotone(count - 2, count - 1, step);
      AtMonotone(0, count - 1, step);
      ResampleAll(x, step, count - 1) + [Interp(x, At(count - 1, step))]
  }

  ghost predicate InRange(x: seq<real>, step: real, k: nat) {
    0.0 <= At(k, step) <= (|x| - 1) as real
  }

  lemma {:induction false} InterpPrefix(a: seq<real>, b: seq<real>, t: real)
    requires 0.0 <= t <= (|a| - 1) as real
    ensures Interp(a + b, t) == Interp(a, t)
  {
    var i := t.Floor;
    if i + 1 == |a| {
      assert t == i as real;
    }
  }

  lemma {:induction false} InterpShift(x: seq<real>, s: nat, t: real)
    requires s <= |x| && 0.0 <= t <= (|x| - s - 1) as real
    ensures Interp(x[s..], t) == Interp(x, t + s as real)
  {
    assert (t + s as real).Floor == t.Floor + s;
  }

  lemma {:induction false} RealDistribute(a: real, b: real, step: real)
    ensures (a + b) * step == a * step + b * step
  {
  }

  lemma {:induction false} ScaledOrder(a: real, b: real, step: real)
    requires 0.0 < step
    ensures a <= b ==> a * step <= b * step
    ensures a < b ==> a * step < b * step
  {
    RealDistribute(b - a, a, step);
    if a < b {
      PositiveProduct(b - a, step);
    }
  }

  lemma {:induction false} PositiveProduct(a: real, b: real)
    requires 0.0 < a && 0.0 < b
    ensures 0.0 < a * b
  {
  }

  lemma {:induction false} DivThenMul(u: real, step: real)
    requires 0.0 < step && 0.0 <= u
    ensures u / step * step == u && 0.0 <= u / step
  {
  }

  lemma {:induction false} FloorCount(u: real, step: real)
    requires 0.0 < step && 0.0 <= u
    ensures var q := (u / step).Floor;
      0 <= q && At(q, step) <= u < At(q + 1, step)
  {
    DivThenMul(u, step);
    FloorBounds(u / step, u, step);
  }

  lemma {:induction false} FloorBounds(v: real, u: real, step: real)
    requires 0.0 < step && 0.0 <= v && v * step == u
    ensures At(v.Floor, step) <= u < At(v.Floor + 1, step)
  {
    ScaledBounds(v.Floor, v, v.Floor + 1, step);
  }

  lemma {:induction false} ScaledBounds(q: int, v: real, q': int, step: real)
    requires 0.0 < step && q as real <= v < q' as real
    ensures At(q, step) <= v * step < At(q', step)
  {
    ScaledOrder(q as real, v, step);
    ScaledOrder(v, q' as real, step);
  }

  lemma {:induction false} AtNonNegative(k: nat, step: real)
    requires 0.0 < step
    ensures 0.0 <= At(k, step)
  {
    ScaledOrder(0.0, k as real, step);
  }

  class ResampleStage {
    const step: real
    var pos: real
    var last: Option<real>
    ghost var input: seq<real>
    ghost var count: nat

    ghost predicate Valid()
      reads this
    {
      && 0.0 < step
      && (input == [] ==> last == None && pos == 0.0 && count == 0)
      && (input != [] ==>
            && last == Some(input[|input| - 1])
            && pos == At(count, step) - |input| as real
            && IsCount(|input|, step, count))
    }

    constructor (step: real)
      requires 0.0 < step
      ensures Valid() && input == [] && this.step == step
    {
      this.step, pos, last, input, count := step, 0.0, None, [], 0;
    }

    /** The next output never falls before the last sample kept. */
    lemma {:induction false} PositionLaw()
      requires Valid() && input != []
      ensures -1.0 < pos
    {
    }

    /** The outputs so far are always the one-shot resampling of everything fed so far,
        and all of it. */
    method Process(x: seq<real>) returns (out: seq<real>)
      requires Valid() && x != []
      modifies this
      ensures Valid() && input == old(input) + x && old(count) <= count
      ensures IsCount(|input|, step, count)
      ensures ResampleAll(old(input), step, old(count)) + out == ResampleAll(input, step, count)
    {
      hide Interp, At, ResampleAll, IsCount, Valid;
      var xe := if last.Some? then [last.value] + x else x;
      var p := if last.Some? then pos + 1.0 else pos;
      CountGrows(x);
      ghost var s := |input| + |x| - |xe|;
      ghost var all := input + x;
      StreamPosition(x, xe, p, s);
      ghost var n;
      out, pos, n := Emit(xe, p, s, all, count);
      ResampleLonger(input, x, step, count);
      last := Some(x[|x| - 1]);
      input, count := all, count + n;
      assert all[|all| - 1] == x[|x| - 1];
      AfterChunk();
    }

    lemma {:induction false} CountGrows(x: seq<real>)
      requires Valid()
      ensures 0.0 < step && |if last.Some? then [last.value] + x else x| <= |input| + |x|
      ensures 0 < count ==> At(count - 1, step) <= (|input| - 1) as real
    {
    }

    lemma {:induction false} AfterChunk()
      requires 0.0 < step && input != [] && last == Some(input[|input| - 1])
      requires pos == At(count, step) - |input| as real && IsCount(|input|, step, count)
      ensures Valid()
    {
    }

    /** The outputs that fall on `xe`, and where the next one falls relative to the next
        chunk's first sample. */
    method Emit(xe: seq<real>, p: real, ghost s: nat, ghost all: seq<real>, ghost from: nat)
      returns (out: seq<real>, next: real, ghost n: nat)
      requires 0.0 < step && s <= |all| && xe == all[s..] && xe != []
      requires p + s as real == At(from, step) && 0.0 <= p
      requires 0 < from ==> At(from - 1, step) <= (|all| - 1) as real
      ensures next == At(from + n, step) - |all| as real && IsCount(|all|, step, from + n)
      ensures ResampleAll(all, step, from) + out == ResampleAll(all, step, from + n)
    {
      hide Interp, At, ResampleAll;
      if ((|xe| - 1) as real) < p {
        out, next, n := [], p - |xe| as real, 0;
      } else {
        FloorCount((|xe| - 1) as real - p, step);
        var k := (((|xe| - 1) as real - p) / step).Floor + 1;
        out := Outputs(xe, p, k, s, all, from);
        AtSum(from, k, step);
        AtStep(k - 1, step);
        next, n := p + At(k - 1, step) + step - |xe| as real, k;
      }
    }

    /** The positions of a chunk (with the last earlier sample in front) on the stream. */
    lemma {:induction false} StreamPosition(x: seq<real>, xe: seq<real>, p: real, s: nat)
      requires Valid() && x != []
      requires xe == if last.Some? then [last.value] + x else x
      requires p == if last.Some? then pos + 1.0 else pos
      requires s == |input| + |x| - |xe|
      ensures (input + x)[s..] == xe && p + s as real == At(count, step) && 0.0 <= p
    {
    }

    /** `np.interp` at `p`, `p + step`, ...: `n` positions inside `xe`, which is the
        stream from sample `s` on. */
    method Outputs(xe: seq<real>, p: real, n: nat, ghost s: nat, ghost all: seq<real>, ghost from: nat)
      returns (out: seq<real>)
      requires 0.0 < step && s <= |all| && xe == all[s..]
      requires p + s as real == At(from, step) && 0.0 <= p
      requires 0 < n && p + At(n - 1, step) <= (|xe| - 1) as real
      ensures At(from + n - 1, step) <= (|all| - 1) as real
      ensures |out| == n && (0 < from ==> At(from - 1, step) <= (|all| - 1) as real)
      ensures ResampleAll(all, step, from) + out == ResampleAll(all, step, from + n)
    {
      AtSum(from, n - 1, step);
      AtMonotone(from - 1, from + n - 1, step);
      out := [];
      for j := 0 to n
        invariant |out| == j
        invariant 0 < from + j ==> At(from + j - 1, step) <= (|all| - 1) as real
        invariant ResampleAll(all, step, from) + out == ResampleAll(all, step, from + j)
      {
        AtMonotone(j, n - 1, step);
        AtMonotone(0, j, step);
        AtMonotone(0, from + j, step);
        AtMonotone(from + j, from + n - 1, step);
        AtSum(from, j, step);
        InterpShift(all, s, p + At(j, step));
        assert p + At(j, step) + s as real == At(from + j, step);
        out := out + [Interp(xe, p + At(j, step))];
      }
    }
  }

  lemma {:induction false} AtSum(j: int, k: int, step: real)
    ensures At(j + k, step) == At(j, step) + At(k, step)
  {
    assert (j + k) as real == j as real + k as real;
    RealDistribute(j as real, k as real, step);
  }

  lemma {:induction false} ResampleLonger(a: seq<real>, b: seq<real>, step: real, count: nat)
    requires 0.0 < step && (0 < count ==> At(count - 1, step) <= (|a| - 1) as real)
    ensures ResampleAll(a + b, step, count) == ResampleAll(a, step, count)
  {
    hide Interp, At;
    if count > 0 {
      AtMonotone(count - 2, count - 1, step);
      AtNonNegative(count - 1, step);
      ResampleLonger(a, b, step, count - 1);
      assert InRange(a, step, count - 1);
      InterpPrefix(a, b, At(count - 1, step));
    }
  }

  // ---------- decimation plan ----------

  /** The largest divisor of `total` up to `f`. */
  function LargestDivisor(total: nat, f: nat): (r: nat)
    requires 1 <= f
    ensures 1 <= r <= f && total % r == 0
    ensures forall g :: r < g <= f ==> total % g != 0
  {
    if f == 1 || total % f == 0 then f else LargestDivisor(total, f - 1)
  }

  /** `(fir, total)` in the order the search maximises. */
  predicate NotBelow(fir: nat, total: nat, fir': nat, total': nat) {
    fir' < fir || (fir' == fir && total' <= total)
  }

  function MaxDecimation(sampleRate: real, channelBw: real): nat
    requires 0.0 <= sampleRate
  {
    var target := if 250000.0 < 1.25 * channelBw then 1.25 * channelBw else 250000.0;
    var d := (sampleRate / target).Floor;
    if d < 1 then 1 else d
  }

  /** It is the largest factor that keeps the rate at 250 kHz and at five quarters of the
      channel's bandwidth, or 1 when there is none. */
  lemma {:induction false} MaxDecimationIs(sampleRate: real, channelBw: real)
    requires 0.0 <= sampleRate
    ensures var d := MaxDecimation(sampleRate, channelBw);
      && 1 <= d
      && (1 < d ==> d as real * 250000.0 <= sampleRate && d as real * (1.25 * channelBw) <= sampleRate)
      && ((d + 1) as real * 250000.0 > sampleRate || (d + 1) as real * (1.25 * channelBw) > sampleRate)
  {
    var target := if 250000.0 < 1.25 * channelBw then 1.25 * channelBw else 250000.0;
    var d := MaxDecimation(sampleRate, channelBw);
    FloorCount(sampleRate, target);
    AtMonotone(1, 2, target);
    LessTimes(d, 250000.0, target);
    LessTimes(d, 1.25 * channelBw, target);
  }

  lemma {:induction false} LessTimes(d: nat, a: real, b: real)
    requires a <= b
    ensures d as real * a <= d as real * b
  {
  }

  /** The box-car and FIR factors: all FIR up to 16, else the total in the upper fifth
      below the maximum that gives the FIR the most, the largest such total. */
  method PlanDecimation(sampleRate: real, channelBw: real) returns (box: nat, fir: nat)
    requires 0.0 <= sampleRate
    ensures var dMax := MaxDecimation(sampleRate, channelBw);
      if dMax <= 16 then box == 1 && fir == dMax
      else
        && 4 * dMax / 5 <= box * fir <= dMax && fir == LargestDivisor(box * fir, 16)
        && forall total :: 4 * dMax / 5 <= total <= dMax ==>
             NotBelow(fir, box * fir, LargestDivisor(total, 16), total)
  {
    var dMax := MaxDecimation(sampleRate, channelBw);
    if dMax <= 16 {
      return 1, dMax;
    }
    var low := 4 * dMax / 5;
    fir, box := LargestDivisor(low, 16), low / LargestDivisor(low, 16);
    var best := low;
    ExactQuotient(low, fir);
    for total := low + 1 to dMax + 1
      invariant low <= best <= dMax && best < total
      invariant fir == LargestDivisor(best, 16) && box * fir == best
      invariant forall t :: low <= t < total ==> NotBelow(fir, best, LargestDivisor(t, 16), t)
    {
      var f := LargestDivisor(total, 16);
      if f > fir || (f == fir && total > best) {
        ExactQuotient(total, f);
        fir, best, box := f, total, total / f;
      }
    }
  }

  lemma {:induction false} ExactQuotient(n: nat, d: nat)
    requires 0 < d && n % d == 0
    ensures n / d * d == n
  {
    assert n == d * (n / d) + n % d;
  }

  /** Beyond 74 the plan always reaches the largest FIR factor: 16 consecutive totals
      hold a multiple of 16. */
  lemma {:induction false} LargePlansUseWholeFir(dMax: nat, fir: nat, best: nat)
    requires 75 <= dMax && 1 <= fir <= 16
    requires forall total :: 4 * dMax / 5 <= total <= dMax ==>
      NotBelow(fir, best, LargestDivisor(total, 16), total)
    ensures fir == 16
  {
    var low := 4 * dMax / 5;
    var multiple := (low + 15) / 16 * 16;
    assert low <= multiple <= dMax;
    assert multiple % 16 == 0;
    assert LargestDivisor(multiple, 16) == 16;
  }
}
