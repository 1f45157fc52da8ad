/**
 * The rotating dodecahedron (rotating_gliph/main.js). On each beat it picks the axis of
 * the loudest frequency band (kick, snare or hi-hat), a rotation direction that follows
 * the sustained energy trend and only flips on a 10% change, and starts a 500 ms eased
 * turn of 25 degrees about that axis.
 */
module Gliph {
  import opened Wrappers
  import opened Stats
  import opened Audio
  import opened Frame

  const GliphHistorySize: nat := 30
  const GliphBeatThreshold: real := 1.25
  const GliphMinVolume: real := 5.0
  const GliphFftSize: nat := 512
  const GliphSampleRate: nat := 44100
  const KickLow: nat := 40
  const SnareHigh: nat := 2500
  const HihatHigh: nat := 8000
  const EnergyHistorySize: nat := 10
  const TotalEnergyHistorySize: nat := 20
  const DirectionChangeThreshold: real := 1.10
  const AnimationDuration: real := 500.0
  /** Math.PI, to the digits a double holds. */
  const Pi: real := 3.141592653589793
  const RotationAmount: real := 25.0 * (Pi / 180.0)

  datatype Axis = X | Y | Z

  datatype Vec3 = Vec3(x: real, y: real, z: real)
  {
    function Get(axis: Axis): real
    {
      match axis
      case X => x
      case Y => y
      case Z => z
    }
  }

  // ---------------------------------------------------------------------------
  // Band energy
  // ---------------------------------------------------------------------------

  /** Math.floor(hz / BIN_WIDTH) with BIN_WIDTH = 44100 / 512. */
  function BandBin(hz: nat): nat
  {
    hz * GliphFftSize / GliphSampleRate
  }

  /** The bins of the three bands: kick [0, 1), snare [1, 29), hi-hat [29, 92). */
  lemma BandBins()
    ensures BandBin(KickLow) == 0 && BandBin(KickHigh) == 1
    ensures BandBin(SnareHigh) == 29 && BandBin(HihatHigh) == 92
  {
  }

  /** The sum of bins lo, lo + 1, ..., end - 1. */
  function BandSum(s: seq<byte>, lo: nat, end: nat): nat
    requires end <= |s|
    decreases end
  {
    if end <= lo then 0 else BandSum(s, lo, end - 1) + s[end - 1]
  }

  lemma {:induction false} BandSumBound(s: seq<byte>, lo: nat, end: nat)
    requires end <= |s|
    ensures BandSum(s, lo, end) <= 255 * (if end <= lo then 0 else end - lo)
    decreases end
  {
    if end > lo {
      BandSumBound(s, lo, end - 1);
    }
  }

  /** `highBin - lowBin || 1`: the bin span, or 1 when it is 0. */
  function Span(lowBin: nat, highBin: nat): int
  {
    if highBin - lowBin == 0 then 1 else highBin - lowBin
  }

  function Min(a: nat, b: nat): nat
  {
    if a <= b then a else b
  }

  /** `getBandEnergy(lowHz, highHz)`: the bins from floor(low/BW) up to, not including, floor(high/BW), capped at the array length, over the span. */
  function BandEnergy(s: seq<byte>, lowHz: nat, highHz: nat): real
  {
    var lowBin, highBin := BandBin(lowHz), BandBin(highHz);
    BandSum(s, lowBin, Min(highBin, |s|)) as real / Span(lowBin, highBin) as real
  }

  /** For a band of at least one bin the energy is a mean bin value, in [0, 255]. */
  lemma BandEnergyBound(s: seq<byte>, lowHz: nat, highHz: nat)
    requires BandBin(lowHz) < BandBin(highHz)
    ensures 0.0 <= BandEnergy(s, lowHz, highHz) <= 255.0
  {
    BinMeanBound(s, BandBin(lowHz), BandBin(highHz));
  }

  lemma BinMeanBound(s: seq<byte>, lowBin: nat, highBin: nat)
    requires lowBin < highBin
    ensures 0.0 <= BandSum(s, lowBin, Min(highBin, |s|)) as real / Span(lowBin, highBin) as real <= 255.0
  {
    var end := Min(highBin, |s|);
    BandSumBound(s, lowBin, end);
    assert BandSum(s, lowBin, end) <= 255 * (highBin - lowBin);
    QuotientBound(BandSum(s, lowBin, end) as real, (highBin - lowBin) as real, 255.0);
  }

  method GetBandEnergy(frequency: array<byte>, lowHz: nat, highHz: nat) returns (energy: real)
    ensures energy == BandEnergy(frequency[..], lowHz, highHz)
  {
    var lowBin, highBin := BandBin(lowHz), BandBin(highHz);
    var end := Min(highBin, frequency.Length);
    var sum: nat := 0;
    var i := lowBin;
    while i < highBin && i < frequency.Length
      invariant lowBin <= i && (i <= end || i == lowBin)
      invariant sum == BandSum(frequency[..], lowBin, Min(i, end))
      decreases highBin - i
    {
      sum := sum + frequency[i];
      i := i + 1;
    }
    energy := sum as real / Span(lowBin, highBin) as real;
  }

  // ---------------------------------------------------------------------------
  // Axis and direction
  // ---------------------------------------------------------------------------

  /** The axis of the dominant band: x on ties with kick, then y, else z. */
  function DominantAxis(kick: real, snare: real, hihat: real): Axis
  {
    if kick >= snare && kick >= hihat then X
    else if snare >= kick && snare >= hihat then Y
    else Z
  }

  function Energy(axis: Axis, kick: real, snare: real, hihat: real): real
  {
    Vec3(kick, snare, hihat).Get(axis)
  }

  /**
   * The chosen band carries the greatest energy; z is chosen only when hi-hat is strictly
   * loudest, and y only when snare beats kick.
   */
  lemma AxisIsDominant(kick: real, snare: real, hihat: real)
    ensures var a := DominantAxis(kick, snare, hihat);
      && Energy(a, kick, snare, hihat) >= kick
      && Energy(a, kick, snare, hihat) >= snare
      && Energy(a, kick, snare, hihat) >= hihat
      && (a == Z ==> hihat > kick && hihat > snare)
      && (a == Y ==> snare > kick)
  {
  }

  /** The mean of the last five totals. */
  function RecentAverage(totals: seq<real>): real
    requires |totals| >= 5
  {
    Sum(totals[|totals| - 5..]) / 5.0
  }

  /** The mean of the older totals, or the recent mean when there are none or it is 0 (`|| recentAvg`). */
  function OlderAverage(totals: seq<real>): real
    requires |totals| >= 5
  {
    var recent := RecentAverage(totals);
    if |totals| == 5 then recent
    else
      var older := Sum(totals[..|totals| - 5]) / (|totals| - 5) as real;
      if older == 0.0 then recent else older
  }

  /** The sticky direction after the totals: flips only on a sustained 10% change. */
  function NextDirection(totals: seq<real>, current: int): int
  {
    if |totals| < 5 then current
    else
      var recent, older := RecentAverage(totals), OlderAverage(totals);
      if recent > older * DirectionChangeThreshold then 1
      else if recent < older / DirectionChangeThreshold then -1
      else current
  }

  /**
   * The direction stays ±1 and only changes with at least five totals. A rise of more
   * than 10% over the older mean turns it to 1; a fall below the older mean / 1.10 turns
   * it to -1 (for a non-negative older mean the two never compete); inside that band it is
   * kept. In particular, when the older average falls back to the recent one (no older
   * totals, or an older mean of 0), a non-negative trend leaves it as it was.
   */
  lemma DirectionSticky(totals: seq<real>, current: int)
    requires current == 1 || current == -1
    ensures NextDirection(totals, current) == 1 || NextDirection(totals, current) == -1
    ensures |totals| < 5 ==> NextDirection(totals, current) == current
    ensures |totals| >= 5 && RecentAverage(totals) > OlderAverage(totals) * DirectionChangeThreshold ==>
              NextDirection(totals, current) == 1
    ensures |totals| >= 5 && OlderAverage(totals) >= 0.0 &&
            RecentAverage(totals) < OlderAverage(totals) / DirectionChangeThreshold ==>
              NextDirection(totals, current) == -1
    ensures |totals| >= 5 &&
            OlderAverage(totals) / DirectionChangeThreshold <= RecentAverage(totals)
              <= OlderAverage(totals) * DirectionChangeThreshold ==>
              NextDirection(totals, current) == current
    ensures |totals| >= 5 && OlderAverage(totals) == RecentAverage(totals) && RecentAverage(totals) >= 0.0 ==>
              NextDirection(totals, current) == current
  {
    if |totals| >= 5 {
      var recent, older := RecentAverage(totals), OlderAverage(totals);
      if older >= 0.0 {
        BandOrdered(older);
      }
      if older == recent && recent >= 0.0 {
        BandOrdered(recent);
      }
    }
  }

  /** For a non-negative mean m, m / 1.10 <= m <= m * 1.10. */
  lemma BandOrdered(m: real)
    requires m >= 0.0
    ensures m / DirectionChangeThreshold <= m <= m * DirectionChangeThreshold
  {
    assert m / DirectionChangeThreshold * DirectionChangeThreshold == m;
  }

  // ---------------------------------------------------------------------------
  // Eased rotation
  // ---------------------------------------------------------------------------

  function EaseOutCubic(t: real): real
  {
    1.0 - (1.0 - t) * (1.0 - t) * (1.0 - t)
  }

  /** The easing starts at 0, ends at 1, and stays within [0, 1] on the way. */
  lemma EaseOutCubicRange(t: real)
    requires 0.0 <= t <= 1.0
    ensures EaseOutCubic(0.0) == 0.0 && EaseOutCubic(1.0) == 1.0
    ensures 0.0 <= EaseOutCubic(t) <= 1.0
  {
    var u := 1.0 - t;
    UnitProduct(u, u);
    UnitProduct(u * u, u);
  }

  lemma UnitProduct(a: real, b: real)
    requires 0.0 <= a <= 1.0 && 0.0 <= b <= 1.0
    ensures 0.0 <= a * b <= b
  {
    assert b - a * b == b * (1.0 - a);
  }

  /** `min(elapsed / 500, 1)`. */
  function Progress(elapsed: real): (p: real)
    ensures p <= 1.0
    ensures elapsed >= AnimationDuration ==> p == 1.0
    ensures elapsed >= 0.0 ==> p >= 0.0
  {
    var q := elapsed / AnimationDuration;
    if q < 1.0 then q else 1.0
  }

  function Lerp(a: real, b: real, e: real): real
  {
    a + (b - a) * e
  }

  function Interpolate(start: Vec3, target: Vec3, e: real): Vec3
  {
    Vec3(Lerp(start.x, target.x, e), Lerp(start.y, target.y, e), Lerp(start.z, target.z, e))
  }

  /** At the end of the animation the rotation has reached its target; at the start it is the start. */
  lemma InterpolateEnds(start: Vec3, target: Vec3)
    ensures Interpolate(start, target, EaseOutCubic(1.0)) == target
    ensures Interpolate(start, target, EaseOutCubic(0.0)) == start
  {
    EaseOutCubicRange(0.0);
  }

  /** `targetRotation[axis] += ROTATION_AMOUNT * direction`. */
  function Turned(target: Vec3, axis: Axis, direction: int): (r: Vec3)
  {
    var d := RotationAmount * direction as real;
    match axis
    case X => target.(x := target.x + d)
    case Y => target.(y := target.y + d)
    case Z => target.(z := target.z + d)
  }

  /** A turn moves only the chosen axis, by exactly ±25 degrees. */
  lemma TurnedMovesOneAxis(target: Vec3, axis: Axis, direction: int)
    requires direction == 1 || direction == -1
    ensures forall a: Axis :: a != axis ==> Turned(target, axis, direction).Get(a) == target.Get(a)
    ensures Turned(target, axis, direction).Get(axis) == target.Get(axis) + (if direction == 1 then RotationAmount else -RotationAmount)
  {
  }

  // ---------------------------------------------------------------------------
  // The energy trend
  // ---------------------------------------------------------------------------

  /** The band histories, the total-energy history and the sticky direction. */
  datatype Trend = Trend(kick: seq<real>, snare: seq<real>, hihat: seq<real>, totals: seq<real>, direction: int)

  ghost predicate TrendInv(tr: Trend)
  {
    && |tr.kick| == |tr.snare| == |tr.hihat| <= EnergyHistorySize
    && |tr.totals| <= TotalEnergyHistorySize
    && (tr.direction == 1 || tr.direction == -1)
  }

  /** The bookkeeping of `getRotationParams` for the band energies k (already boosted), s and h. */
  function Recorded(tr: Trend, k: real, s: real, h: real): Trend
  {
    var totals := PushBounded(tr.totals, k + s + h, TotalEnergyHistorySize);
    Trend(PushBounded(tr.kick, k, EnergyHistorySize), PushBounded(tr.snare, s, EnergyHistorySize),
          PushBounded(tr.hihat, h, EnergyHistorySize), totals, NextDirection(totals, tr.direction))
  }

  /** Recording keeps the histories in step and bounded, and the direction ±1. */
  lemma RecordedKeepsTrend(tr: Trend, k: real, s: real, h: real)
    requires TrendInv(tr)
    ensures TrendInv(Recorded(tr, k, s, h))
  {
    var r := Recorded(tr, k, s, h);
    PushedLength(tr.kick, k, EnergyHistorySize);
    PushedLength(tr.snare, s, EnergyHistorySize);
    PushedLength(tr.hihat, h, EnergyHistorySize);
    PushedLength(tr.totals, k + s + h, TotalEnergyHistorySize);
    DirectionSticky(r.totals, tr.direction);
  }

  /** Each history holds the newest energies of its band (the last 10), and the last 20 totals. */
  lemma RecordedKeepsNewest(tr: Trend, k: real, s: real, h: real)
    requires TrendInv(tr)
    ensures Recorded(tr, k, s, h).kick == Last(tr.kick + [k], EnergyHistorySize)
    ensures Recorded(tr, k, s, h).snare == Last(tr.snare + [s], EnergyHistorySize)
    ensures Recorded(tr, k, s, h).hihat == Last(tr.hihat + [h], EnergyHistorySize)
    ensures Recorded(tr, k, s, h).totals == Last(tr.totals + [k + s + h], TotalEnergyHistorySize)
  {
    PushBoundedKeepsNewest(tr.kick, k, EnergyHistorySize);
    PushBoundedKeepsNewest(tr.snare, s, EnergyHistorySize);
    PushBoundedKeepsNewest(tr.hihat, h, EnergyHistorySize);
    PushBoundedKeepsNewest(tr.totals, k + s + h, TotalEnergyHistorySize);
  }

  lemma PushedLength(h: seq<real>, v: real, cap: nat)
    requires |h| <= cap
    ensures |PushBounded(h, v, cap)| == if |h| < cap then |h| + 1 else |h|
  {
  }

  // ---------------------------------------------------------------------------
  // The spectrum buffer
  // ---------------------------------------------------------------------------

  /** The analyser's bin count, `frequencyBinCount`: half the FFT size. */
  const GliphBins: nat := GliphFftSize / 2

  /**
   * The spectrum buffer after an `audio` message whose `frequencyData` is `data` (None:
   * the message has no such field). The first array allocates a zeroed buffer of its
   * length; an array that fits is copied over the front of the buffer (`set`); a longer
   * one makes `set` throw, which leaves the buffer as it was.
   */
  function Received(buffer: Option<seq<byte>>, data: Option<seq<byte>>): Option<seq<byte>>
  {
    if data.None? then buffer
    else
      var b := if buffer.None? then seq(|data.value|, _ => 0) else buffer.value;
      if |data.value| <= |b| then Some(data.value + b[|data.value|..]) else Some(b)
  }

  /**
   * A message without an array leaves the buffer (null or stale) alone; the first array
   * becomes the buffer; later ones never change its length, overwrite its front when they
   * fit and are dropped when they do not.
   */
  lemma ReceivedSpec(buffer: Option<seq<byte>>, data: Option<seq<byte>>)
    ensures var r := Received(buffer, data);
      && (data.None? ==> r == buffer)
      && (data.Some? ==> r.Some?)
      && (buffer.None? && data.Some? ==> r == data)
      && (buffer.Some? ==> r.Some? && |r.value| == |buffer.value|)
      && (buffer.Some? && data.Some? && |data.value| <= |buffer.value| ==>
            r.value[..|data.value|] == data.value && r.value[|data.value|..] == buffer.value[|data.value|..])
      && (buffer.Some? && data.Some? && |data.value| > |buffer.value| ==> r == buffer)
  {
    if buffer.None? && data.Some? {
      assert data.value + seq(|data.value|, _ => 0)[|data.value|..] == data.value;
    }
  }

  // ---------------------------------------------------------------------------
  // The page's state
  // ---------------------------------------------------------------------------

  class Dodecahedron {
    var history: seq<real>
    var lastBeat: real
    var trend: Trend
    var audioEnabled: bool
    var analyser: bool
    var externalVolume: Option<real>
    var current: Vec3
    var target: Vec3
    var start: Vec3
    var progress: real
    var startTime: real
    /** The module's `frequencyData` buffer; null until the analyser or a message creates it. */
    var frequencyData: array?<byte>

    ghost predicate Valid()
      reads this
    {
      && |history| <= GliphHistorySize
      && TrendInv(trend)
      && progress <= 1.0
      && (analyser ==> frequencyData != null && frequencyData.Length == GliphBins)
    }

    /** The buffer's contents, or None while it is null. */
    ghost function Spectrum(): Option<seq<byte>>
      reads this, frequencyData
    {
      if frequencyData == null then None else Some(frequencyData[..])
    }

    constructor ()
      ensures Valid()
      ensures history == [] && trend == Trend([], [], [], [], 1)
      ensures lastBeat == 0.0 && !audioEnabled && !analyser && externalVolume == None
      ensures current == target == start == Vec3(0.0, 0.0, 0.0) && progress == 1.0 && startTime == 0.0
      ensures frequencyData == null
    {
      history, trend := [], Trend([], [], [], [], 1);
      lastBeat := 0.0;
      audioEnabled, analyser, externalVolume := false, false, None;
      current, target, start := Vec3(0.0, 0.0, 0.0), Vec3(0.0, 0.0, 0.0), Vec3(0.0, 0.0, 0.0);
      progress, startTime := 1.0, 0.0;
      frequencyData := null;
    }

    /**
     * The orchestrator's `audio` message: its volume (None: no `volume` field) is used from
     * now on, audio is on, and its `frequencyData` (None: no such field) goes into the
     * buffer as `Received` says.
     */
    method ReceiveAudio(volume: Option<real>, data: Option<seq<byte>>)
      requires Valid()
      modifies this, frequencyData
      ensures Valid() && audioEnabled && externalVolume == volume
      ensures Spectrum() == Received(old(Spectrum()), data)
      ensures old(frequencyData) != null ==> frequencyData == old(frequencyData)
      ensures history == old(history) && lastBeat == old(lastBeat) && analyser == old(analyser) && trend == old(trend)
    {
      externalVolume := volume;
      audioEnabled := true;
      if data.Some? {
        if frequencyData == null {
          frequencyData := new byte[|data.value|](_ => 0);
          assert frequencyData[..] == seq(|data.value|, _ => 0);
        }
        ghost var before := frequencyData[..];
        if |data.value| <= frequencyData.Length {
          forall i | 0 <= i < |data.value| {
            frequencyData[i] := data.value[i];
          }
          assert frequencyData[..] == data.value + before[|data.value|..];
        }
      }
    }

    /** `initAudio()` succeeded in standalone mode: the analyser and a zeroed buffer of its bin count. */
    method AudioStarted()
      requires Valid()
      modifies this
      ensures Valid() && audioEnabled && analyser && externalVolume == old(externalVolume)
      ensures Spectrum() == Some(seq(GliphBins, _ => 0))
      ensures history == old(history) && lastBeat == old(lastBeat) && trend == old(trend)
    {
      analyser := true;
      frequencyData := new byte[GliphBins](_ => 0);
      assert frequencyData[..] == seq(GliphBins, _ => 0);
      audioEnabled := true;
    }

    /**
     * `getVolume()`: the orchestrator's volume when it sent one; else, with the analyser,
     * the analyser's `reading` is written into the buffer and its weighted estimate
     * returned; else 0. Only the analyser path refreshes the buffer.
     */
    method GetVolume(reading: seq<byte>) returns (volume: real)
      requires Valid()
      requires analyser && externalVolume.None? ==> |reading| == GliphBins
      modifies frequencyData
      ensures volume == SourcedVolume(externalVolume, analyser, reading)
      ensures Spectrum() == if externalVolume.None? && analyser then Some(reading) else old(Spectrum())
    {
      if externalVolume.Some? {
        return externalVolume.value;
      }
      if !analyser {
        return 0.0;
      }
      forall i | 0 <= i < frequencyData.Length {
        frequencyData[i] := reading[i];
      }
      assert frequencyData[..] == reading;
      volume := GetWeightedVolume(frequencyData);
    }

    /**
     * `analyzeAudio(currentTime)`: the history and beat follow the shared beat test with
     * threshold 1.25 and floor 5; a beat records the time, reads the rotation parameters
     * from the buffer and starts a turn about the dominant band's axis in the trend's
     * direction. With the buffer still null, reading the parameters throws: the beat time
     * is recorded but `completed` is false and nothing else changes. `clock` stands for
     * `performance.now()` at the turn.
     */
    method AnalyzeAudio(now: real, reading: seq<byte>, clock: real) returns (beat: bool, completed: bool)
      requires Valid()
      requires analyser && externalVolume.None? ==> |reading| == GliphBins
      modifies this, frequencyData
      ensures Valid() && frequencyData == old(frequencyData)
      ensures Spectrum() == if old(audioEnabled) && old(externalVolume).None? && old(analyser) then Some(reading) else old(Spectrum())
      ensures !old(audioEnabled) ==> !beat && history == old(history)
      ensures old(audioEnabled) ==>
                var volume := SourcedVolume(old(externalVolume), old(analyser), reading);
                && history == PushBounded(old(history), volume, GliphHistorySize)
                && beat == IsBeat(volume, AverageVolume(old(history)), GliphBeatThreshold, GliphMinVolume, now - old(lastBeat))
      ensures lastBeat == if beat then now else old(lastBeat)
      ensures completed <==> !beat || frequencyData != null
      ensures !beat || !completed ==>
                trend == old(trend) && target == old(target) && start == old(start)
                && progress == old(progress) && startTime == old(startTime)
      ensures beat && completed ==>
                var (k, s, h) := Energies(frequencyData[..]);
                && trend == Recorded(old(trend), k, s, h)
                && target == Turned(old(target), DominantAxis(k, s, h), trend.direction)
                && start == old(current) && progress == 0.0 && startTime == clock
      ensures current == old(current)
    {
      beat, completed := false, true;
      if !audioEnabled {
        return;
      }
      var volume := GetVolume(reading);
      var avg := AverageVolume(history);
      history := PushBounded(history, volume, GliphHistorySize);
      PushBoundedKeepsNewest(old(history), volume, GliphHistorySize);
      var timeSinceLastBeat := now - lastBeat;
      if volume > avg * GliphBeatThreshold && timeSinceLastBeat > 300.0 && avg > GliphMinVolume {
        lastBeat := now;
        beat := true;
        var axis, dir;
        completed, axis, dir := RotationParams();
        if completed {
          TriggerRotation(axis, dir, clock);
        }
      }
    }

    /**
     * `getRotationParams()`: the three band energies of the buffer (kick boosted 1.5 times)
     * go into their histories, their total into the trend history; the axis is the dominant
     * band and the direction follows the trend. A null buffer makes the first
     * `getBandEnergy` throw before anything is recorded: `completed` is false.
     */
    method RotationParams() returns (completed: bool, axis: Axis, dir: int)
      requires Valid()
      modifies this
      ensures Valid()
      ensures completed <==> frequencyData != null
      ensures !completed ==> trend == old(trend)
      ensures completed ==>
                var (k, s, h) := Energies(frequencyData[..]);
                trend == Recorded(old(trend), k, s, h) && axis == DominantAxis(k, s, h) && dir == trend.direction
      ensures history == old(history) && lastBeat == old(lastBeat) && audioEnabled == old(audioEnabled)
      ensures analyser == old(analyser) && externalVolume == old(externalVolume) && frequencyData == old(frequencyData)
      ensures current == old(current) && target == old(target) && start == old(start)
      ensures progress == old(progress) && startTime == old(startTime)
    {
      if frequencyData == null {
        return false, X, 1;
      }
      completed := true;
      var kickEnergy := GetBandEnergy(frequencyData, KickLow, KickHigh);
      kickEnergy := kickEnergy * 1.5;
      var snareEnergy := GetBandEnergy(frequencyData, KickHigh, SnareHigh);
      var hihatEnergy := GetBandEnergy(frequencyData, SnareHigh, HihatHigh);
      RecordedKeepsTrend(trend, kickEnergy, snareEnergy, hihatEnergy);
      trend := Record(trend, kickEnergy, snareEnergy, hihatEnergy);
      axis := DominantAxis(kickEnergy, snareEnergy, hihatEnergy);
      dir := trend.direction;
    }

    /** `triggerRotation(axis, direction)`: only the target of that axis moves; the turn restarts. */
    method TriggerRotation(axis: Axis, dir: int, clock: real)
      requires Valid()
      modifies this
      ensures Valid()
      ensures start == old(current) && target == Turned(old(target), axis, dir)
      ensures progress == 0.0 && startTime == clock && current == old(current)
      ensures history == old(history) && lastBeat == old(lastBeat) && audioEnabled == old(audioEnabled)
      ensures trend == old(trend) && analyser == old(analyser) && externalVolume == old(externalVolume)
      ensures frequencyData == old(frequencyData)
    {
      start := current;
      target := Turned(target, axis, dir);
      progress := 0.0;
      startTime := clock;
    }

    /** The progress update of `animate(currentTime)`: ease toward the target until progress reaches 1. */
    method AdvanceAnimation(now: real)
      requires Valid()
      modifies this
      ensures Valid()
      ensures old(progress) >= 1.0 ==> progress == old(progress) && current == old(current)
      ensures old(progress) < 1.0 ==>
                && progress == Progress(now - startTime)
                && current == Interpolate(start, target, EaseOutCubic(progress))
      ensures now - startTime >= AnimationDuration && old(progress) < 1.0 ==> current == target
      ensures start == old(start) && target == old(target) && startTime == old(startTime)
      ensures history == old(history) && lastBeat == old(lastBeat) && trend == old(trend)
      ensures frequencyData == old(frequencyData)
    {
      if progress < 1.0 {
        var elapsed := now - startTime;
        progress := Progress(elapsed);
        var eased := EaseOutCubic(progress);
        current := Interpolate(start, target, eased);
        InterpolateEnds(start, target);
      }
    }

    /**
     * One `animate(currentTime)` frame: the audio analysis, then the progress update. A
     * beat restarts the turn from the current rotation toward the new target. When the
     * analysis throws, the rest of the frame is skipped (the next frame is already
     * requested, so the loop goes on).
     */
    method Animate(now: real, reading: seq<byte>, clock: real) returns (beat: bool, completed: bool)
      requires Valid()
      requires analyser && externalVolume.None? ==> |reading| == GliphBins
      modifies this, frequencyData
      ensures Valid()
      ensures lastBeat == if beat then now else old(lastBeat)
      ensures completed <==> !beat || frequencyData != null
      ensures !completed ==>
                && trend == old(trend) && target == old(target) && start == old(start)
                && current == old(current) && progress == old(progress) && startTime == old(startTime)
      ensures !beat ==> trend == old(trend) && target == old(target) && start == old(start)
      ensures !beat && old(progress) >= 1.0 ==> current == old(current) && progress == old(progress)
      ensures beat && completed ==>
                && start == old(current) && startTime == clock
                && progress == Progress(now - clock)
                && current == Interpolate(old(current), target, EaseOutCubic(progress))
      ensures completed && (old(progress) < 1.0 || beat) ==> (now - startTime >= AnimationDuration ==> current == target)
    {
      beat, completed := AnalyzeAudio(now, reading, clock);
      if completed {
        AdvanceAnimation(now);
      }
    }
  }

  /** The volume `getVolume()` reports: the orchestrator's when it sent one, else the weighted local estimate, else 0. */
  function SourcedVolume(externalVolume: Option<real>, analyser: bool, s: seq<byte>): real
  {
    if externalVolume.Some? then externalVolume.value
    else if !analyser || |s| == 0 then 0.0
    else WeightedSum(s) as real / |s| as real
  }

  /** The band energies of one spectrum: kick (boosted 1.5 times), snare and hi-hat. */
  function Energies(s: seq<byte>): (real, real, real)
  {
    (1.5 * BandEnergy(s, KickLow, KickHigh), BandEnergy(s, KickHigh, SnareHigh), BandEnergy(s, SnareHigh, HihatHigh))
  }

  /**
   * The pushes and shifts of `getRotationParams` as the source writes them: all three band
   * histories are shifted when the kick history passes 10, the totals when they pass 20.
   */
  method Record(tr: Trend, k: real, s: real, h: real) returns (r: Trend)
    requires TrendInv(tr)
    ensures r == Recorded(tr, k, s, h)
  {
    var kick, snare, hihat := tr.kick + [k], tr.snare + [s], tr.hihat + [h];
    if |kick| > EnergyHistorySize {
      kick, snare, hihat := kick[1..], snare[1..], hihat[1..];
    }
    var totals := tr.totals + [k + s + h];
    if |totals| > TotalEnergyHistorySize {
      totals := totals[1..];
    }
    r := Trend(kick, snare, hihat, totals, NextDirection(totals, tr.direction));
  }
}
