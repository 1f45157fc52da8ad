/**
 * Trend-based mood classifier (orchestrator/renderer/modules/mood.js).
 *
 * Volume samples enter a bounded energy history. Once the history holds a short
 * window's worth of samples, every sample computes a short-window average and variance
 * and the trend of the short average against the whole history. These samples are
 * buffered while the emotion-change cooldown runs; once it has passed, the buffered
 * values are averaged, classified into a trend category and an energy band, and mapped
 * to an emotion.
 */
module Mood {
  import opened Stats

  // Configuration (MOOD_CONFIG)
  const ShortWindowMs: nat := 500
  const LongWindowMs: nat := 3000
  const SampleInterval: nat := 33
  const RisingThreshold: real := 0.15
  const FallingThreshold: real := -0.15
  const LowEnergy: real := 4.0
  const MediumHighEnergy: real := 10.0
  const HighEnergy: real := 16.0
  const ErraticVariance: real := 100.0
  const ErraticSustainedRatio: real := 0.5
  const MoodChangeCooldownMs: real := 1000.0

  /** Math.ceil(a / b) for naturals. */
  function CeilDiv(a: nat, b: nat): (q: nat)
    requires b > 0
    ensures q * b >= a && (q == 0 || (q - 1) * b < a)
  {
    (a + b - 1) / b
  }

  const ShortWindowSamples: nat := CeilDiv(ShortWindowMs, SampleInterval)
  const LongWindowSamples: nat := CeilDiv(LongWindowMs, SampleInterval)

  lemma WindowSampleCounts()
    ensures ShortWindowSamples == 16 && LongWindowSamples == 91
  {
  }

  datatype Emotion = Happy | Excited | Confused | Surprised | Love | Sad | Sleepy
  datatype Trend = Rising | Falling | Stable | Erratic
  datatype EnergyLevel = Low | Medium | MediumHigh | High

  datatype MoodState = MoodState(emotion: Emotion, trend: Trend, energyLevel: EnergyLevel, confidence: real)

  const InitialMood: MoodState := MoodState(Happy, Stable, Medium, 0.0)

  // ---------------------------------------------------------------------------
  // Pure classification
  // ---------------------------------------------------------------------------

  /** Percentage change of the short average against the baseline; 0 without a positive baseline. */
  function TrendOf(shortAvg: real, longAvg: real): (trend: real)
    ensures longAvg <= 0.0 ==> trend == 0.0
    ensures longAvg > 0.0 ==> trend * longAvg == shortAvg - longAvg
    ensures longAvg > 0.0 ==> (trend > 0.0 <==> shortAvg > longAvg)
  {
    if longAvg > 0.0 then (shortAvg - longAvg) / longAvg else 0.0
  }

  function CountAbove(s: seq<real>, threshold: real): (count: nat)
    ensures count <= |s|
  {
    if |s| == 0 then 0
    else CountAbove(s[..|s| - 1], threshold) + (if s[|s| - 1] > threshold then 1 else 0)
  }

  /**
   * Trend category from the buffered trends and variances: erratic when at least half of
   * the variances exceed ERRATIC_VARIANCE, otherwise rising / falling / stable by the
   * average trend against ±15%.
   */
  function ClassifyTrend(trends: seq<real>, variances: seq<real>): (category: Trend)
    requires |variances| > 0
    ensures category == Erratic <==> 2 * CountAbove(variances, ErraticVariance) >= |variances|
    ensures category == Rising <==> category != Erratic && Mean(trends) > RisingThreshold
    ensures category == Falling <==> category != Erratic && Mean(trends) < FallingThreshold
    ensures category == Stable <==>
      category != Erratic && FallingThreshold <= Mean(trends) <= RisingThreshold
  {
    RatioAtLeastHalf(CountAbove(variances, ErraticVariance), |variances|);
    var ratio := CountAbove(variances, ErraticVariance) as real / |variances| as real;
    if ratio >= ErraticSustainedRatio then Erratic
    else if Mean(trends) > RisingThreshold then Rising
    else if Mean(trends) < FallingThreshold then Falling
    else Stable
  }

  /** A count over a non-empty buffer reaches half of it exactly when twice the count reaches its length. */
  lemma RatioAtLeastHalf(count: nat, n: nat)
    requires n > 0
    ensures count as real / n as real >= ErraticSustainedRatio <==> 2 * count >= n
  {
    var r := count as real / n as real;
    assert r * n as real == count as real;
    if r >= 0.5 {
      assert r * n as real >= 0.5 * n as real;
    } else {
      assert r * n as real < 0.5 * n as real;
    }
  }

  /** Energy band of the averaged short-window energy; exactly one band applies. */
  function ClassifyEnergy(avgEnergy: real): (level: EnergyLevel)
    ensures level == Low <==> avgEnergy < LowEnergy
    ensures level == High <==> avgEnergy > HighEnergy
    ensures level == MediumHigh <==> MediumHighEnergy < avgEnergy <= HighEnergy
    ensures level == Medium <==> LowEnergy <= avgEnergy <= MediumHighEnergy
  {
    if avgEnergy < LowEnergy then Low
    else if avgEnergy > HighEnergy then High
    else if avgEnergy > MediumHighEnergy then MediumHigh
    else Medium
  }

  /**
   * `mapToEmotion`: the fixed emotion table. High energy always gives "excited";
   * confused and surprised are reserved for erratic input, which never gives
   * love, sad or sleepy.
   */
  function MapToEmotion(trend: Trend, energy: EnergyLevel): (emotion: Emotion)
    ensures energy == High ==> emotion == Excited
    ensures trend == Erratic ==> emotion in {Excited, Confused, Surprised}
    ensures emotion in {Confused, Surprised} ==> trend == Erratic
    ensures emotion == Sad ==> trend == Falling && energy == Medium
  {
    match trend
    case Erratic =>
      if energy == High then Excited
      else if energy == MediumHigh then Confused
      else Surprised
    case Rising =>
      if energy == High then Excited
      else if energy == MediumHigh then Happy
      else if energy == Medium then Happy
      else Love
    case Falling =>
      if energy == High then Excited
      else if energy == MediumHigh then Happy
      else if energy == Medium then Sad
      else Sleepy
    case Stable =>
      if energy == High then Excited
      else if energy == MediumHigh then Happy
      else if energy == Medium then Love
      else Sleepy
  }

  function Square(x: real): (r: real)
    ensures r >= 0.0
  {
    if x < 0.0 then assert (-x) * (-x) > 0.0; x * x else x * x
  }

  /** Sum of squared deviations from `m`. */
  function SumSqDev(s: seq<real>, m: real): (r: real)
    ensures r >= 0.0
  {
    if |s| == 0 then 0.0 else SumSqDev(s[..|s| - 1], m) + Square(s[|s| - 1] - m)
  }

  /** Population variance of a non-empty window. */
  function VarianceOf(s: seq<real>): real
    requires |s| > 0
  {
    SumSqDev(s, Mean(s)) / |s| as real
  }

  /** min(len / LONG_WINDOW_SAMPLES, 1). */
  function Confidence(len: nat): (c: real)
    ensures 0.0 <= c <= 1.0
    ensures len >= LongWindowSamples ==> c == 1.0
    ensures len < LongWindowSamples ==> c * LongWindowSamples as real == len as real
  {
    var q := len as real / LongWindowSamples as real;
    if q < 1.0 then q else 1.0
  }

  // ---------------------------------------------------------------------------
  // The classifier state and its transitions as values
  // ---------------------------------------------------------------------------

  datatype Tracker = Tracker(
    history: seq<real>,
    trends: seq<real>,
    energies: seq<real>,
    variances: seq<real>,
    mood: MoodState,
    lastChange: real)

  const InitialTracker: Tracker := Tracker([], [], [], [], InitialMood, 0.0)

  ghost predicate Consistent(t: Tracker)
  {
    && |t.history| <= LongWindowSamples
    && |t.trends| == |t.energies| == |t.variances|
    && 0.0 <= t.mood.confidence <= 1.0
  }

  /** Start of the short window: max(0, len - SHORT_WINDOW_SAMPLES). */
  function ShortStart(len: nat): nat
  {
    if len > ShortWindowSamples then len - ShortWindowSamples else 0
  }

  /**
   * The first half of `updateMood`: the short-window average, the trend against the
   * long window and the short-window variance are appended to the three buffers.
   */
  function Sample(t: Tracker): Tracker
    requires |t.history| > 0
  {
    var short := t.history[ShortStart(|t.history|)..];
    var shortAvg := Mean(short);
    t.(trends := t.trends + [TrendOf(shortAvg, Mean(t.history))],
       energies := t.energies + [shortAvg],
       variances := t.variances + [VarianceOf(short)])
  }

  /**
   * The second half of `updateMood` once the cooldown has passed: the buffers are
   * classified and emptied, and the change time moves to `now` when the emotion changes.
   */
  function Reclassify(t: Tracker, now: real, confidence: real): Tracker
    requires |t.variances| > 0
  {
    var category := ClassifyTrend(t.trends, t.variances);
    var level := ClassifyEnergy(Mean(t.energies));
    var emotion := MapToEmotion(category, level);
    Tracker(t.history, [], [], [], MoodState(emotion, category, level, confidence),
            if emotion != t.mood.emotion then now else t.lastChange)
  }

  /** `updateMood` at time `now`. */
  function Update(t: Tracker, now: real): Tracker
    requires |t.history| > 0
  {
    var sampled := Sample(t);
    var confidence := Confidence(|t.history|);
    if now - t.lastChange >= MoodChangeCooldownMs then Reclassify(sampled, now, confidence)
    else sampled.(mood := sampled.mood.(confidence := confidence))
  }

  /** `recordEnergySample(volume)` at time `now`. */
  function Record(t: Tracker, volume: real, now: real): Tracker
  {
    var history := PushBounded(t.history, volume, LongWindowSamples);
    var t' := t.(history := history);
    if |history| >= ShortWindowSamples then Update(t', now) else t'
  }

  /**
   * The energy history never exceeds LONG_WINDOW_SAMPLES and holds the newest
   * samples in arrival order; every transition keeps the classifier consistent.
   */
  lemma RecordKeepsConsistent(t: Tracker, volume: real, now: real)
    requires Consistent(t)
    ensures Consistent(Record(t, volume, now))
    ensures Record(t, volume, now).history == Last(t.history + [volume], LongWindowSamples)
  {
    WindowSampleCounts();
    PushBoundedKeepsNewest(t.history, volume, LongWindowSamples);
  }

  /** Before the history holds a short window, a sample changes nothing but the history. */
  lemma RecordBeforeShortWindow(t: Tracker, volume: real, now: real)
    requires |PushBounded(t.history, volume, LongWindowSamples)| < ShortWindowSamples
    ensures Record(t, volume, now) == t.(history := PushBounded(t.history, volume, LongWindowSamples))
  {
  }

  /**
   * While the cooldown runs, emotion, trend and energy level keep their values, the
   * change time stays, and each buffer grows by exactly one sample at its end.
   */
  lemma UpdateDuringCooldown(t: Tracker, now: real)
    requires |t.history| > 0 && now - t.lastChange < MoodChangeCooldownMs
    ensures var t' := Update(t, now);
      && t'.mood.emotion == t.mood.emotion
      && t'.mood.trend == t.mood.trend
      && t'.mood.energyLevel == t.mood.energyLevel
      && t'.lastChange == t.lastChange
      && |t'.trends| == |t.trends| + 1 && t'.trends[..|t.trends|] == t.trends
      && |t'.energies| == |t.energies| + 1 && t'.energies[..|t.energies|] == t.energies
      && |t'.variances| == |t.variances| + 1 && t'.variances[..|t.variances|] == t.variances
  {
  }

  /**
   * Once the cooldown has passed, classification runs on the averaged buffers and all
   * three buffers are emptied; the change time moves to `now` exactly when the emotion
   * changes.
   */
  lemma UpdateAfterCooldown(t: Tracker, now: real)
    requires |t.history| > 0 && now - t.lastChange >= MoodChangeCooldownMs
    ensures var t' := Update(t, now);
      && t'.trends == [] && t'.energies == [] && t'.variances == []
      && t'.mood.emotion == MapToEmotion(t'.mood.trend, t'.mood.energyLevel)
      && (t'.lastChange == now <==> t'.mood.emotion != t.mood.emotion || t.lastChange == now)
      && (t'.mood.emotion != t.mood.emotion ==> t'.lastChange == now)
  {
  }

  /**
   * A history of identical samples yields a zero trend sample and a zero variance sample;
   * and when every sample buffered since the last classification came from such a history
   * (all trends 0, no variance above ERRATIC_VARIANCE), the update after the cooldown
   * classifies the trend as stable.
   */
  lemma {:induction false} ConstantHistoryIsStable(t: Tracker, v: real, now: real)
    requires |t.history| > 0 && forall i :: 0 <= i < |t.history| ==> t.history[i] == v
    ensures var t' := Update(t, now);
      now - t.lastChange < MoodChangeCooldownMs ==>
        t'.trends[|t'.trends| - 1] == 0.0 && t'.variances[|t'.variances| - 1] == 0.0
    ensures now - t.lastChange >= MoodChangeCooldownMs &&
            (forall i :: 0 <= i < |t.trends| ==> t.trends[i] == 0.0) &&
            (forall i :: 0 <= i < |t.variances| ==> t.variances[i] <= ErraticVariance) ==>
              Update(t, now).mood.trend == Stable
  {
    var len := |t.history|;
    var short := t.history[ShortStart(len)..];
    MeanOfConstant(t.history, v);
    MeanOfConstant(short, v);
    SumSqDevOfConstant(short, v);
    var sampled := Sample(t);
    if (forall i :: 0 <= i < |t.trends| ==> t.trends[i] == 0.0) &&
       (forall i :: 0 <= i < |t.variances| ==> t.variances[i] <= ErraticVariance) {
      assert sampled.trends == t.trends + [0.0];
      MeanOfConstant(sampled.trends, 0.0);
      CountAboveNone(sampled.variances, ErraticVariance);
    }
  }

  /** Nothing is counted above a threshold no entry exceeds. */
  lemma {:induction false} CountAboveNone(s: seq<real>, threshold: real)
    requires forall i :: 0 <= i < |s| ==> s[i] <= threshold
    ensures CountAbove(s, threshold) == 0
  {
    if |s| > 0 {
      CountAboveNone(s[..|s| - 1], threshold);
    }
  }

  lemma {:induction false} SumOfConstant(s: seq<real>, v: real)
    requires forall i :: 0 <= i < |s| ==> s[i] == v
    ensures Sum(s) == |s| as real * v
  {
    if |s| > 0 {
      SumOfConstant(s[..|s| - 1], v);
    }
  }

  lemma MeanOfConstant(s: seq<real>, v: real)
    requires |s| > 0 && forall i :: 0 <= i < |s| ==> s[i] == v
    ensures Mean(s) == v
  {
    SumOfConstant(s, v);
  }

  lemma {:induction false} SumSqDevOfConstant(s: seq<real>, v: real)
    requires forall i :: 0 <= i < |s| ==> s[i] == v
    ensures SumSqDev(s, v) == 0.0
  {
    if |s| > 0 {
      SumSqDevOfConstant(s[..|s| - 1], v);
    }
  }

  // ---------------------------------------------------------------------------
  // The accumulator loops of mood.js
  // ---------------------------------------------------------------------------

  /** `average(arr, start, end)`: 0 for an empty range, otherwise the mean of arr[start..end]. */
  method Average(arr: seq<real>, start: nat, end: nat) returns (avg: real)
    requires end <= |arr|
    ensures end <= start ==> avg == 0.0
    ensures start < end ==> avg == Mean(arr[start..end])
  {
    if end <= start {
      return 0.0;
    }
    var sum := 0.0;
    var i := start;
    while i < end
      invariant start <= i <= end
      invariant sum == Sum(arr[start..i])
    {
      assert arr[start..i + 1][..i - start] == arr[start..i];
      sum := sum + arr[i];
      i := i + 1;
    }
    avg := sum / (end - start) as real;
  }

  /** `variance(arr, start, end)` over a non-empty range: the population variance, never negative. */
  method Variance(arr: seq<real>, start: nat, end: nat) returns (v: real)
    requires start < end <= |arr|
    ensures v == VarianceOf(arr[start..end])
    ensures v >= 0.0
  {
    var avg := Average(arr, start, end);
    var sumSq := 0.0;
    var i := start;
    while i < end
      invariant start <= i <= end
      invariant sumSq == SumSqDev(arr[start..i], avg)
    {
      assert arr[start..i + 1][..i - start] == arr[start..i];
      assert arr[start..i + 1][i - start] == arr[i];
      var diff := arr[i] - avg;
      sumSq := sumSq + diff * diff;
      assert sumSq == SumSqDev(arr[start..i + 1], avg);
      i := i + 1;
    }
    v := sumSq / (end - start) as real;
  }

  /** `simpleAverage(arr)`: 0 on an empty array, otherwise the mean. */
  method SimpleAverage(arr: seq<real>) returns (avg: real)
    ensures avg == Mean(arr)
  {
    if |arr| == 0 {
      return 0.0;
    }
    var sum := 0.0;
    var i := 0;
    while i < |arr|
      invariant 0 <= i <= |arr|
      invariant sum == Sum(arr[..i])
    {
      assert arr[..i + 1][..i] == arr[..i];
      sum := sum + arr[i];
      i := i + 1;
    }
    assert arr[..i] == arr;
    avg := sum / |arr| as real;
  }

  /** `countAboveThreshold(arr, threshold)`: how many entries strictly exceed the threshold. */
  method CountAboveThreshold(arr: seq<real>, threshold: real) returns (count: nat)
    ensures count == CountAbove(arr, threshold)
    ensures count <= |arr|
  {
    count := 0;
    var i := 0;
    while i < |arr|
      invariant 0 <= i <= |arr|
      invariant count == CountAbove(arr[..i], threshold)
    {
      assert arr[..i + 1][..i] == arr[..i];
      if arr[i] > threshold {
        count := count + 1;
      }
      i := i + 1;
    }
    assert arr[..i] == arr;
  }

  // ---------------------------------------------------------------------------
  // The module-level state of mood.js as an object
  // ---------------------------------------------------------------------------

  class MoodTracker {
    var energyHistory: seq<real>
    var trends: seq<real>
    var energies: seq<real>
    var variances: seq<real>
    var currentMood: MoodState
    var lastEmotionChangeTime: real

    function State(): Tracker
      reads this
    {
      Tracker(energyHistory, trends, energies, variances, currentMood, lastEmotionChangeTime)
    }

    ghost predicate Valid()
      reads this
    {
      Consistent(State())
    }

    constructor ()
      ensures Valid() && State() == InitialTracker
    {
      energyHistory := [];
      trends, energies, variances := [], [], [];
      currentMood := InitialMood;
      lastEmotionChangeTime := 0.0;
    }

    /** `recordEnergySample(volume)`, with `performance.now()` passed in as `now`. */
    method RecordEnergySample(volume: real, now: real)
      requires Valid()
      modifies this
      ensures Valid()
      ensures State() == Record(old(State()), volume, now)
    {
      RecordKeepsConsistent(State(), volume, now);
      energyHistory := energyHistory + [volume];
      if |energyHistory| > LongWindowSamples {
        energyHistory := energyHistory[1..];
      }
      if |energyHistory| >= ShortWindowSamples {
        UpdateMood(now);
      }
    }

    /**
     * The sampling half of `updateMood`: the short-window average and variance and the
     * trend against the whole history are pushed onto the mood-window buffers.
     */
    method PushWindowSample()
      requires |energyHistory| > 0
      modifies this
      ensures State() == Sample(old(State()))
    {
      var len := |energyHistory|;
      var shortStart := if len - ShortWindowSamples > 0 then len - ShortWindowSamples else 0;
      assert shortStart == ShortStart(len);
      var shortAvg := Average(energyHistory, shortStart, len);
      var shortVariance := Variance(energyHistory, shortStart, len);
      var longAvg := Average(energyHistory, 0, len);
      assert energyHistory[0..len] == energyHistory;
      var trend := if longAvg > 0.0 then (shortAvg - longAvg) / longAvg else 0.0;

      trends := trends + [trend];
      energies := energies + [shortAvg];
      variances := variances + [shortVariance];
    }

    /**
     * The classifying half of `updateMood`, run once the cooldown has passed: the
     * buffered values are averaged and classified, the emotion and its change time are
     * updated, and the buffers are cleared. The confidence is left to the caller.
     */
    method ClassifyWindow(now: real)
      requires |variances| > 0 && |trends| > 0
      modifies this
      ensures State() == Reclassify(old(State()), now, old(currentMood.confidence))
    {
      var avgTrend := SimpleAverage(trends);
      var avgEnergy := SimpleAverage(energies);
      var highVarianceCount := CountAboveThreshold(variances, ErraticVariance);
      var highVarianceRatio := highVarianceCount as real / |variances| as real;
      RatioAtLeastHalf(highVarianceCount, |variances|);

      var trendCategory;
      if highVarianceRatio >= ErraticSustainedRatio {
        trendCategory := Erratic;
      } else if avgTrend > RisingThreshold {
        trendCategory := Rising;
      } else if avgTrend < FallingThreshold {
        trendCategory := Falling;
      } else {
        trendCategory := Stable;
      }

      var energyLevel;
      if avgEnergy < LowEnergy {
        energyLevel := Low;
      } else if avgEnergy > HighEnergy {
        energyLevel := High;
      } else if avgEnergy > MediumHighEnergy {
        energyLevel := MediumHigh;
      } else {
        energyLevel := Medium;
      }
      assert trendCategory == ClassifyTrend(trends, variances);
      assert energyLevel == ClassifyEnergy(avgEnergy);

      var emotion := currentMood.emotion;
      var newEmotion := MapToEmotion(trendCategory, energyLevel);
      if newEmotion != currentMood.emotion {
        emotion := newEmotion;
        lastEmotionChangeTime := now;
      }

      trends, energies, variances := [], [], [];
      currentMood := MoodState(emotion, trendCategory, energyLevel, currentMood.confidence);
    }

    /** `updateMood()` at time `now`: sample the windows, classify after the cooldown. */
    method UpdateMood(now: real)
      requires |energyHistory| > 0
      modifies this
      ensures State() == Update(old(State()), now)
    {
      var len := |energyHistory|;
      PushWindowSample();
      var canChangeEmotion := now - lastEmotionChangeTime >= MoodChangeCooldownMs;
      if canChangeEmotion && |trends| > 0 {
        ClassifyWindow(now);
      }
      var confidence := len as real / LongWindowSamples as real;
      currentMood := currentMood.(confidence := if confidence < 1.0 then confidence else 1.0);
      assert currentMood.confidence == Confidence(len);
    }

    /** `getMoodState()`: a copy of the current mood, whose confidence lies in [0, 1]. */
    method GetMoodState() returns (m: MoodState)
      requires Valid()
      ensures m == currentMood
      ensures 0.0 <= m.confidence <= 1.0
    {
      m := currentMood;
    }

    /** `resetMood()`: empty every buffer and restore the initial mood and change time. */
    method ResetMood()
      modifies this
      ensures Valid() && State() == InitialTracker
    {
      energyHistory := [];
      trends, energies, variances := [], [], [];
      currentMood := InitialMood;
      lastEmotionChangeTime := 0.0;
    }
  }
}
