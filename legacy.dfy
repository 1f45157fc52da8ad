/**
 * The legacy single-file orchestrator (orchestrator/renderer/renderer.js). It keeps the
 * same window bookkeeping as the module version, with 350-pixel windows, caps of 50 and
 * 15, and grid fill as the starting pattern. Its frame step differs: the volume is the
 * frequency-weighted estimate, the threshold and floor use bases 1.25 and 5, every beat
 * opens a window while there is room, a quiet close is not gated, and every frame
 * broadcasts.
 */
module Legacy {
  import opened Wrappers
  import opened Config
  import opened Stats
  import opened Audio
  import opened Grid
  import opened Windows
  import opened Frame

  const LegacyBeatThresholdBase: real := 1.25
  const LegacyMinVolumeBase: real := 5.0

  /** What the legacy `broadcastAudioData` posts (the raw spectra are not modelled). */
  datatype LegacyBroadcast = LegacyBroadcast(volume: real, beat: bool)

  class Renderer {
    const manager: WindowManager
    var history: seq<real>
    var lastBeat: real
    var lastClose: real
    var sensitivity: real
    var audioEnabled: bool

    ghost predicate Valid()
      reads this, manager
    {
      && manager.Valid() && manager.layout == LegacyLayout
      && sensitivity > 0.0 && |history| <= VolumeHistorySize
    }

    /** The step's timing state; this renderer keeps no broadcast time. */
    function Clock(): Timing
      reads this
    {
      Timing(history, lastBeat, lastClose, 0.0)
    }

    /** The frame as this renderer sees it: thresholds from bases 1.25 and 5, quiet close always on. */
    function Settings(now: real, volume: real, windowCount: nat): Reading
      reads this
      requires sensitivity > 0.0
    {
      Reading(now, volume, windowCount, true,
            BeatThreshold(LegacyBeatThresholdBase, sensitivity), MinVolume(LegacyMinVolumeBase, sensitivity))
    }

    /** The initial state and `init()`'s grid calculation. */
    constructor (width: int, height: int)
      ensures Valid() && fresh(manager)
      ensures Clock() == Timing([], 0.0, 0.0, 0.0) && sensitivity == 1.0 && !audioEnabled
      ensures manager.State() == Regrid(LegacyLayout, Initial(GridFill), width, height)
    {
      manager := new WindowManager(LegacyLayout, GridFill, width, height);
      history := [];
      lastBeat, lastClose := 0.0, 0.0;
      sensitivity := 1.0;
      audioEnabled := false;
    }

    /** `initAudio()` succeeded. */
    method AudioStarted()
      requires Valid()
      modifies this
      ensures Valid()
      ensures audioEnabled && Clock() == old(Clock()) && sensitivity == old(sensitivity)
    {
      audioEnabled := true;
    }

    /** The sensitivity slider. */
    method SetSensitivity(value: real)
      requires Valid() && value > 0.0
      modifies this
      ensures Valid() && sensitivity == value && Clock() == old(Clock()) && audioEnabled == old(audioEnabled)
    {
      sensitivity := value;
    }

    /** The open button. */
    method OpenButton(pick: real, spot: Point) returns (win: Option<Win>)
      requires Valid() && 0.0 <= pick < 1.0
      modifies manager
      ensures Valid()
      ensures win.None? <==> |old(manager.windows)| >= LegacyLayout.maxWindows
                             || forall p: Project :: old(manager.counts)[p] >= LegacyLayout.maxPerProject
      ensures win.None? ==> manager.State() == old(manager.State())
      ensures win.Some? ==> (manager.State(), win) == Created(LegacyLayout, old(manager.State()), win.value.project,
                                                               PlacementOf(win.value))
    {
      win := manager.Create(pick, spot);
    }

    /** The close button closes the newest window. */
    method CloseButton()
      requires Valid()
      modifies manager
      ensures Valid()
      ensures manager.State() == if |old(manager.windows)| > 0 then PopLast(old(manager.State())) else old(manager.State())
    {
      if |manager.windows| > 0 {
        PopLastIsCloseNewest(LegacyLayout, manager.State());
        manager.Close(manager.windows[|manager.windows| - 1].id);
      }
    }

    /** The pattern menu and a window resize both re-grid. */
    method PatternChanged(p: Pattern, width: int, height: int)
      requires Valid()
      modifies manager
      ensures Valid() && manager.State() == Regrid(LegacyLayout, old(manager.State()).(pattern := p), width, height)
    {
      manager.SetPattern(p, width, height);
    }

    method ContainerResized(width: int, height: int)
      requires Valid()
      modifies manager
      ensures Valid() && manager.State() == Regrid(LegacyLayout, old(manager.State()), width, height)
    {
      manager.RecalculateGrid(width, height);
    }

    /**
     * `analyzeLoop(currentTime)`. Without audio nothing changes. Otherwise the history and
     * the beat and close times follow Step for this renderer's frame; a beat opens a
     * window whenever there is room, with no auto-open gate; a quiet close closes the
     * oldest window; and the volume and beat flag are broadcast every frame.
     */
    method AnalyzeLoop(now: real, frequency: array?<byte>, pick: real, spot: Point)
      returns (volume: real, beat: bool, quiet: bool, created: Option<Win>, sent: Option<LegacyBroadcast>)
      requires Valid() && 0.0 <= pick < 1.0
      requires frequency != null ==> frequency.Length > 0
      modifies this, manager
      ensures Valid()
      ensures !old(audioEnabled) ==>
                && Clock() == old(Clock()) && manager.State() == old(manager.State())
                && !beat && !quiet && created.None? && sent.None?
      ensures old(audioEnabled) ==>
                && volume == (if frequency == null then 0.0 else WeightedSum(frequency[..]) as real / frequency.Length as real)
                && sent == Some(LegacyBroadcast(volume, beat))
                && (var (t1, o) := Step(old(Clock()), Settings(now, volume, |old(manager.windows)| + (if created.Some? then 1 else 0)));
                    Clock() == t1.(lastBroadcast := 0.0) && beat == o.beat && quiet == o.quiet)
      ensures created.Some? ==> beat && |old(manager.windows)| < LegacyLayout.maxWindows
      ensures created.None? && beat ==> |old(manager.windows)| >= LegacyLayout.maxWindows
                                        || forall p: Project :: old(manager.counts)[p] >= LegacyLayout.maxPerProject
      ensures created.Some? ==> (manager.State(), created) == Created(LegacyLayout, old(manager.State()), created.value.project,
                                                                    PlacementOf(created.value))
      ensures created.None? && !quiet ==> manager.State() == old(manager.State())
      ensures quiet ==> !beat && manager.State() == ClosedOldest(old(manager.State()))
      ensures sensitivity == old(sensitivity) && audioEnabled == old(audioEnabled)
    {
      if !audioEnabled {
        return 0.0, false, false, None, None;
      }
      volume := GetWeightedVolume(frequency);
      beat, quiet, created := Analyze(now, volume, pick, spot);
      sent := Some(LegacyBroadcast(volume, beat));
    }

    /** The body of `analyzeLoop` once audio is running, up to the broadcast. */
    method Analyze(now: real, volume: real, pick: real, spot: Point) returns (beat: bool, quiet: bool, created: Option<Win>)
      requires Valid() && 0.0 <= pick < 1.0
      modifies this, manager
      ensures Valid()
      ensures var (t1, o) := Step(old(Clock()), Settings(now, volume, |old(manager.windows)| + (if created.Some? then 1 else 0)));
              Clock() == t1.(lastBroadcast := 0.0) && beat == o.beat && quiet == o.quiet
      ensures created.Some? ==> beat && |old(manager.windows)| < LegacyLayout.maxWindows
      ensures created.None? && beat ==> |old(manager.windows)| >= LegacyLayout.maxWindows
                                        || forall p: Project :: old(manager.counts)[p] >= LegacyLayout.maxPerProject
      ensures created.Some? ==> (manager.State(), created) == Created(LegacyLayout, old(manager.State()), created.value.project,
                                                                    PlacementOf(created.value))
      ensures created.None? && !quiet ==> manager.State() == old(manager.State())
      ensures quiet ==> !beat && manager.State() == ClosedOldest(old(manager.State()))
      ensures sensitivity == old(sensitivity) && audioEnabled == old(audioEnabled)
    {
      ghost var t0 := Clock();
      var avg := RecordVolume(volume);
      beat := DetectBeat(now, volume, avg);
      created := OpenOnBeat(beat, pick, spot);
      ghost var f := Settings(now, volume, |manager.windows|);
      quiet := QuietClose(now, volume, avg);
      var o := Outcome(beat, quiet, BroadcastDue(now, 0.0));
      BeatExcludesQuiet(t0, f);
      StepOf(t0, f, o);
    }

    /** The average is taken before the push; the push keeps the newest 30 volumes. */
    method RecordVolume(volume: real) returns (avg: real)
      requires Valid()
      modifies this
      ensures Valid() && avg == AverageVolume(old(history))
      ensures history == PushBounded(old(history), volume, VolumeHistorySize)
      ensures lastBeat == old(lastBeat) && lastClose == old(lastClose)
      ensures sensitivity == old(sensitivity) && audioEnabled == old(audioEnabled)
    {
      avg := AverageVolume(history);
      history := history + [volume];
      if |history| > VolumeHistorySize {
        history := history[1..];
      }
    }

    /** The beat check with the legacy threshold and floor. */
    method DetectBeat(now: real, volume: real, avg: real) returns (beat: bool)
      requires Valid()
      modifies this
      ensures Valid()
      ensures beat == IsBeat(volume, avg, BeatThreshold(LegacyBeatThresholdBase, sensitivity),
                             MinVolume(LegacyMinVolumeBase, sensitivity), now - old(lastBeat))
      ensures lastBeat == if beat then now else old(lastBeat)
      ensures history == old(history) && lastClose == old(lastClose)
      ensures sensitivity == old(sensitivity) && audioEnabled == old(audioEnabled)
    {
      var timeSinceBeat := now - lastBeat;
      beat := false;
      if volume > avg * BeatThreshold(LegacyBeatThresholdBase, sensitivity) && timeSinceBeat > BeatCooldown
         && avg > MinVolume(LegacyMinVolumeBase, sensitivity)
      {
        lastBeat := now;
        beat := true;
      }
    }

    /** A beat opens a window while fewer than MAX_WINDOWS are open. */
    method OpenOnBeat(beat: bool, pick: real, spot: Point) returns (created: Option<Win>)
      requires Valid() && 0.0 <= pick < 1.0
      modifies manager
      ensures Valid()
      ensures created.Some? ==> beat && |old(manager.windows)| < LegacyLayout.maxWindows
      ensures created.None? && beat ==> |old(manager.windows)| >= LegacyLayout.maxWindows
                                        || forall p: Project :: old(manager.counts)[p] >= LegacyLayout.maxPerProject
      ensures created.Some? ==> (manager.State(), created) == Created(LegacyLayout, old(manager.State()), created.value.project,
                                                                    PlacementOf(created.value))
      ensures created.None? ==> manager.State() == old(manager.State())
      ensures |manager.windows| == |old(manager.windows)| + if created.Some? then 1 else 0
    {
      created := None;
      if beat && |manager.windows| < manager.layout.maxWindows {
        ghost var before := manager.State();
        created := manager.Create(pick, spot);
        if created.Some? {
          CreatedOutcome(LegacyLayout, before, created.value.project, PlacementOf(created.value));
        }
      }
    }

    /** The ungated quiet check; a quiet close records the time and closes the oldest window. */
    method QuietClose(now: real, volume: real, avg: real) returns (quiet: bool)
      requires Valid()
      modifies this, manager
      ensures Valid()
      ensures quiet == IsQuiet(true, volume, avg, MinVolume(LegacyMinVolumeBase, sensitivity), now - old(lastClose),
                               |old(manager.windows)|)
      ensures lastClose == if quiet then now else old(lastClose)
      ensures manager.State() == if quiet then ClosedOldest(old(manager.State())) else old(manager.State())
      ensures history == old(history) && lastBeat == old(lastBeat)
      ensures sensitivity == old(sensitivity) && audioEnabled == old(audioEnabled)
    {
      var timeSinceClose := now - lastClose;
      quiet := false;
      if volume < avg * 0.4 && avg > MinVolume(LegacyMinVolumeBase, sensitivity)
         && timeSinceClose > CloseCooldown && |manager.windows| >= MinWindowsToClose
      {
        lastClose := now;
        manager.CloseOldest();
        quiet := true;
      }
    }
  }
}
