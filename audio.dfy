/**
 * Volume estimation and the sensitivity-scaled thresholds
 * (orchestrator/renderer/modules/audio.js; the frequency-weighted estimator is the one
 * orchestrator/renderer/renderer.js and rotating_gliph/main.js use).
 */
module Audio {
  import opened Wrappers
  import opened Stats
  import Config

  // ---------------------------------------------------------------------------
  // Time-domain volume: mean absolute deviation of the bytes from the midpoint 128
  // ---------------------------------------------------------------------------

  function Deviation(b: byte): nat
  {
    if b >= 128 then b - 128 else 128 - b
  }

  function DeviationSum(s: seq<byte>): nat
  {
    if |s| == 0 then 0 else DeviationSum(s[..|s| - 1]) + Deviation(s[|s| - 1])
  }

  /** The mean of |b - 128| over a non-empty frame. */
  function MeanDeviation(s: seq<byte>): real
    requires |s| > 0
  {
    DeviationSum(s) as real / |s| as real
  }

  lemma {:induction false} DeviationSumBound(s: seq<byte>)
    ensures DeviationSum(s) <= 128 * |s|
  {
    if |s| > 0 {
      DeviationSumBound(s[..|s| - 1]);
    }
  }

  /** A non-negative total of at most hi per entry averages to a value in [0, hi]. */
  lemma QuotientBound(total: real, n: real, hi: real)
    requires n > 0.0 && 0.0 <= total <= hi * n
    ensures 0.0 <= total / n <= hi
  {
    var q := total / n;
    assert q * n == total;
    assert (hi - q) * n >= 0.0;
  }

  /** A frame of bytes has a mean deviation in [0, 128]. */
  lemma MeanDeviationBound(s: seq<byte>)
    requires |s| > 0
    ensures 0.0 <= MeanDeviation(s) <= 128.0
  {
    DeviationSumBound(s);
    assert (128 * |s|) as real == 128.0 * |s| as real;
    QuotientBound(DeviationSum(s) as real, |s| as real, 128.0);
  }

  /**
   * `getVolume`: 0 without an analyser, otherwise the mean deviation of the
   * time-domain frame (the analyser always allocates FFT_SIZE bytes, so a present
   * frame is non-empty).
   */
  method GetVolume(timeDomain: array?<byte>) returns (volume: real)
    requires timeDomain != null ==> timeDomain.Length > 0
    ensures timeDomain == null ==> volume == 0.0
    ensures timeDomain != null ==> volume == MeanDeviation(timeDomain[..])
    ensures 0.0 <= volume <= 128.0
  {
    if timeDomain == null {
      return 0.0;
    }
    var sum: nat := 0;
    var i := 0;
    while i < timeDomain.Length
      invariant 0 <= i <= timeDomain.Length
      invariant sum == DeviationSum(timeDomain[..i])
    {
      assert timeDomain[..i + 1][..i] == timeDomain[..i];
      sum := sum + Deviation(timeDomain[i]);
      i := i + 1;
    }
    assert timeDomain[..i] == timeDomain[..];
    volume := sum as real / timeDomain.Length as real;
    MeanDeviationBound(timeDomain[..]);
  }

  // ---------------------------------------------------------------------------
  // Frequency-weighted volume (renderer.js, rotating_gliph): bins below the kick
  // cutoff count twice, the sum is divided by the bin count
  // ---------------------------------------------------------------------------

  const KickHigh: nat := 150
  /** floor(KICK_HIGH / (SAMPLE_RATE / FFT_SIZE)); the bin width 44100/512 is exact in binary. */
  const KickEnd: nat := (KickHigh * Config.FftSize) / Config.SampleRate

  function Weighted(i: nat, b: byte): nat
  {
    if i < KickEnd then 2 * b else b
  }

  function WeightedSum(s: seq<byte>): nat
  {
    if |s| == 0 then 0 else WeightedSum(s[..|s| - 1]) + Weighted(|s| - 1, s[|s| - 1])
  }

  lemma {:induction false} WeightedSumBound(s: seq<byte>)
    ensures WeightedSum(s) <= 510 * |s|
  {
    if |s| > 0 {
      WeightedSumBound(s[..|s| - 1]);
    }
  }

  lemma KickEndIsOneBin()
    ensures KickEnd == 1
  {
  }

  /**
   * Frequency-weighted `getVolume`: 0 without an analyser, otherwise the weighted
   * bin sum over the bin count, which lies in [0, 510] for byte magnitudes.
   */
  method GetWeightedVolume(frequency: array?<byte>) returns (volume: real)
    requires frequency != null ==> frequency.Length > 0
    ensures frequency == null ==> volume == 0.0
    ensures frequency != null ==> volume == WeightedSum(frequency[..]) as real / frequency.Length as real
    ensures 0.0 <= volume <= 510.0
  {
    if frequency == null {
      return 0.0;
    }
    KickEndIsOneBin();
    var sum: nat := 0;
    var i := 0;
    while i < frequency.Length
      invariant 0 <= i <= frequency.Length
      invariant sum == WeightedSum(frequency[..i])
    {
      assert frequency[..i + 1][..i] == frequency[..i];
      if i < KickEnd {
        sum := sum + (frequency[i] as nat) * 2;
      } else {
        sum := sum + frequency[i];
      }
      i := i + 1;
    }
    assert frequency[..i] == frequency[..];
    volume := sum as real / frequency.Length as real;
    WeightedVolumeBound(frequency[..]);
  }

  lemma WeightedVolumeBound(s: seq<byte>)
    requires |s| > 0
    ensures 0.0 <= WeightedSum(s) as real / |s| as real <= 510.0
  {
    WeightedSumBound(s);
    assert (510 * |s|) as real == 510.0 * |s| as real;
    QuotientBound(WeightedSum(s) as real, |s| as real, 510.0);
  }

  // ---------------------------------------------------------------------------
  // History average and sensitivity-scaled thresholds
  // ---------------------------------------------------------------------------

  /** `getAverageVolume`: 0 on an empty history, otherwise the arithmetic mean. */
  function AverageVolume(history: seq<real>): (avg: real)
    ensures |history| == 0 ==> avg == 0.0
    ensures |history| > 0 ==> avg * |history| as real == Sum(history)
    ensures (forall i :: 0 <= i < |history| ==> 0.0 <= history[i]) ==> 0.0 <= avg
  {
    MeanNonNegative(history);
    Mean(history)
  }

  /**
   * `getBeatThreshold`: 1 + (base - 1) / sensitivity. Above 1 whenever the base is;
   * at sensitivity 1 it is the base itself.
   */
  function BeatThreshold(base: real, sensitivity: real): (threshold: real)
    requires sensitivity > 0.0
    ensures base > 1.0 ==> threshold > 1.0
    ensures sensitivity == 1.0 ==> threshold == base
  {
    1.0 + (base - 1.0) / sensitivity
  }

  /** Higher sensitivity lowers the beat threshold. */
  lemma BeatThresholdDecreasing(base: real, s1: real, s2: real)
    requires base > 1.0 && 0.0 < s1 < s2
    ensures BeatThreshold(base, s2) < BeatThreshold(base, s1)
  {
    var d := base - 1.0;
    assert d / s2 < d / s1 by {
      assert d / s2 * s2 == d;
      assert d / s1 * s1 == d;
      assert d / s2 * s1 < d / s2 * s2;
    }
  }

  /** `getMinVolume`: base / sensitivity; positive for a positive base. */
  function MinVolume(base: real, sensitivity: real): (floor: real)
    requires sensitivity > 0.0
    ensures base > 0.0 ==> floor > 0.0
    ensures floor * sensitivity == base
  {
    base / sensitivity
  }

  /** Higher sensitivity lowers the noise floor. */
  lemma MinVolumeDecreasing(base: real, s1: real, s2: real)
    requires base > 0.0 && 0.0 < s1 < s2
    ensures MinVolume(base, s2) < MinVolume(base, s1)
  {
    var f1, f2 := MinVolume(base, s1), MinVolume(base, s2);
    assert f2 > 0.0 && f1 * s1 == base == f2 * s2;
    assert f2 * (s2 - s1) > 0.0;
    assert f2 * s1 < f1 * s1;
  }

  /** `normalizedVolume` of the broadcast: min(volume / 15, 1). */
  function NormalizedVolume(volume: real): (n: real)
    ensures n <= 1.0
    ensures volume <= 15.0 ==> n * 15.0 == volume
    ensures volume >= 15.0 ==> n == 1.0
    ensures volume >= 0.0 ==> n >= 0.0
  {
    var q := volume / 15.0;
    if q < 1.0 then q else 1.0
  }
}
