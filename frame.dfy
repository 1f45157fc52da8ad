/**
 * The per-frame step of the orchestrator (orchestrator/renderer/modules/main.js,
 * `analyzeLoop`) and its button handlers. Each animation frame measures the volume,
 * compares it with the average of the recent history, opens a window on a beat, closes
 * the oldest window when it goes quiet, and throttles the broadcast to the windows.
 */
module Frame {
  import opened Wrappers
  import opened Config
  import opened Stats
  import opened Audio
  import opened Grid
  import opened Windows

  /** What `broadcastAudioData` posts to the windows (the waveform bytes are not modelled). */
  datatype Broadcast = Broadcast(volume: real, normalizedVolume: real, avgVolume: real, beat: bool)

  /** The timing state `analyzeLoop` reads and writes. */
  datatype Timing = Timing(history: seq<real>, lastBeat: real, lastClose: real, lastBroadcast: real)

  /**
   * One animation frame as the step sees it: the timestamp, the measured volume, the
   * number of windows when the quiet check runs, whether the quiet close is enabled, and
   * the beat threshold and noise floor in force (the sensitivity-scaled values of the
   * caller's audio module).
   */
  datatype Reading = Reading(now: real, volume: real, windowCount: nat, autoOpen: bool,
                             beatThreshold: real, minVolume: real)

  /** Which of the three triggers fired. */
  datatype Outcome = Outcome(beat: bool, quiet: bool, broadcast: bool)

  /** The beat condition: loud against the average, out of the cooldown, above the noise floor. */
  predicate IsBeat(volume: real, avg: real, beatThreshold: real, minVolume: real, sinceBeat: real)
  {
    && volume > avg * beatThreshold
    && sinceBeat > BeatCooldown
    && avg > minVolume
  }

  /** The quiet condition: enabled, quiet against the average, out of the cooldown, enough windows. */
  predicate IsQuiet(autoOpen: bool, volume: real, avg: real, minVolume: real, sinceClose: real, windowCount: nat)
  {
    && autoOpen
    && volume < avg * 0.4
    && avg > minVolume
    && sinceClose > CloseCooldown
    && windowCount >= MinWindowsToClose
  }

  predicate BroadcastDue(now: real, lastBroadcast: real)
  {
    now - lastBroadcast >= BroadcastInterval
  }

  /**
   * The timing part of one frame: the average is taken before the volume is pushed,
   * and each trigger that fires records the frame's time.
   */
  function Step(t: Timing, f: Reading): (Timing, Outcome)
  {
    var o := Decide(t, f);
    (Advanced(t, f, o), o)
  }

  /** The three decisions of a frame, all against the average of the history before the push. */
  function Decide(t: Timing, f: Reading): Outcome
  {
    var avg := AverageVolume(t.history);
    Outcome(IsBeat(f.volume, avg, f.beatThreshold, f.minVolume, f.now - t.lastBeat),
            IsQuiet(f.autoOpen, f.volume, avg, f.minVolume, f.now - t.lastClose, f.windowCount),
            BroadcastDue(f.now, t.lastBroadcast))
  }

  /** The timing after a frame: the volume is pushed and each trigger that fired records the time. */
  function Advanced(t: Timing, f: Reading, o: Outcome): Timing
  {
    Timing(PushBounded(t.history, f.volume, VolumeHistorySize),
           if o.beat then f.now else t.lastBeat,
           if o.quiet then f.now else t.lastClose,
           if o.broadcast then f.now else t.lastBroadcast)
  }

  /** Step, given the three decisions of the frame. */
  lemma StepOf(t: Timing, f: Reading, o: Outcome)
    requires o.beat == IsBeat(f.volume, AverageVolume(t.history), f.beatThreshold, f.minVolume, f.now - t.lastBeat)
    requires o.quiet == IsQuiet(f.autoOpen, f.volume, AverageVolume(t.history), f.minVolume, f.now - t.lastClose, f.windowCount)
    requires o.broadcast == BroadcastDue(f.now, t.lastBroadcast)
    ensures Step(t, f) == (Advanced(t, f, o), o)
  {
  }

  /**
   * A beat and a quiet close never fire in the same frame, as long as the beat threshold
   * is at least 1 and the noise floor is not negative.
   */
  lemma BeatExcludesQuiet(t: Timing, f: Reading)
    requires f.beatThreshold >= 1.0 && f.minVolume >= 0.0
    ensures var o := Step(t, f).1; !(o.beat && o.quiet)
  {
    var avg := AverageVolume(t.history);
    if IsBeat(f.volume, avg, f.beatThreshold, f.minVolume, f.now - t.lastBeat) {
      assert avg > 0.0;
      assert avg * f.beatThreshold - avg == avg * (f.beatThreshold - 1.0);
      assert avg * (f.beatThreshold - 1.0) >= 0.0;
      assert f.volume > avg > avg * 0.4;
    }
  }

  /** The history keeps the newest VOLUME_HISTORY_SIZE volumes, ending with this frame's. */
  lemma StepKeepsHistory(t: Timing, f: Reading)
    requires |t.history| <= VolumeHistorySize
    ensures var h := Step(t, f).0.history;
      && h == Last(t.history + [f.volume], VolumeHistorySize)
      && |h| <= VolumeHistorySize && h[|h| - 1] == f.volume
  {
    PushBoundedKeepsNewest(t.history, f.volume, VolumeHistorySize);
  }

  // ---------------------------------------------------------------------------
  // Runs of frames
  // ---------------------------------------------------------------------------

  /** The timing after a run of frames. */
  function Final(t: Timing, frames: seq<Reading>): Timing
    decreases |frames|
  {
    if |frames| == 0 then t else Final(Step(t, frames[0]).0, frames[1..])
  }

  function Volumes(frames: seq<Reading>): (vs: seq<real>)
    ensures |vs| == |frames|
  {
    if |frames| == 0 then [] else [frames[0].volume] + Volumes(frames[1..])
  }

  /** Over a run, the history receives each frame's volume in turn. */
  lemma {:induction false} RunPushes(t: Timing, frames: seq<Reading>)
    ensures Final(t, frames).history == PushAll(t.history, Volumes(frames), VolumeHistorySize)
    decreases |frames|
  {
    if |frames| > 0 {
      var rest := frames[1..];
      var t1 := Step(t, frames[0]).0;
      RunPushes(t1, rest);
      assert Volumes(frames)[1..] == Volumes(rest);
    }
  }

  /** Over any run the history holds exactly the newest VOLUME_HISTORY_SIZE volumes, in order. */
  lemma RunKeepsHistory(t: Timing, frames: seq<Reading>)
    requires |t.history| <= VolumeHistorySize
    ensures Final(t, frames).history == Last(t.history + Volumes(frames), VolumeHistorySize)
  {
    RunPushes(t, frames);
    PushAllKeepsNewest(t.history, Volumes(frames), VolumeHistorySize);
  }

  datatype Trigger = BeatTrigger | QuietTrigger | BroadcastTrigger

  function LastOf(t: Timing, g: Trigger): real
  {
    match g
    case BeatTrigger => t.lastBeat
    case QuietTrigger => t.lastClose
    case BroadcastTrigger => t.lastBroadcast
  }

  function FiredOf(o: Outcome, g: Trigger): bool
  {
    match g
    case BeatTrigger => o.beat
    case QuietTrigger => o.quiet
    case BroadcastTrigger => o.broadcast
  }

  /** The minimum gap of each trigger: more than 300 ms, more than 800 ms, at least 33 ms. */
  predicate Spaced(g: Trigger, gap: real)
  {
    match g
    case BeatTrigger => gap > BeatCooldown
    case QuietTrigger => gap > CloseCooldown
    case BroadcastTrigger => gap >= BroadcastInterval
  }

  /** The times of the frames in which trigger g fired. */
  function Fired(t: Timing, frames: seq<Reading>, g: Trigger): seq<real>
    decreases |frames|
  {
    if |frames| == 0 then []
    else
      var (t1, o) := Step(t, frames[0]);
      (if FiredOf(o, g) then [frames[0].now] else []) + Fired(t1, frames[1..], g)
  }

  /** A trigger fires only out of its cooldown, and then restarts the cooldown at the frame's time. */
  lemma StepGate(t: Timing, f: Reading, g: Trigger)
    ensures var (t1, o) := Step(t, f);
      && (FiredOf(o, g) ==> Spaced(g, f.now - LastOf(t, g)) && LastOf(t1, g) == f.now)
      && (!FiredOf(o, g) ==> LastOf(t1, g) == LastOf(t, g))
  {
  }

  /** Each time is spaced from the one before it, the first from `base`. */
  predicate SpacedFrom(g: Trigger, base: real, times: seq<real>)
  {
    && (|times| > 0 ==> Spaced(g, times[0] - base))
    && (forall k :: 0 <= k < |times| - 1 ==> Spaced(g, times[k + 1] - times[k]))
  }

  lemma SpacedCons(g: Trigger, base: real, x: real, rest: seq<real>)
    requires Spaced(g, x - base) && SpacedFrom(g, x, rest)
    ensures SpacedFrom(g, base, [x] + rest)
  {
    var times := [x] + rest;
    forall k | 0 <= k < |times| - 1
      ensures Spaced(g, times[k + 1] - times[k])
    {
      if k > 0 {
        assert times[k + 1] - times[k] == rest[k] - rest[k - 1];
      }
    }
  }

  /**
   * Over any run, whatever the volumes, window counts, auto-open toggles and
   * sensitivities, consecutive firings of a trigger are spaced by its cooldown, and so is
   * the first one from the recorded time it starts from.
   */
  lemma {:induction false} FiringsSpaced(t: Timing, frames: seq<Reading>, g: Trigger)
    ensures SpacedFrom(g, LastOf(t, g), Fired(t, frames, g))
    decreases |frames|
  {
    if |frames| > 0 {
      var f, rest := frames[0], frames[1..];
      var (t1, o) := Step(t, f);
      StepGate(t, f, g);
      FiringsSpaced(t1, rest, g);
      if FiredOf(o, g) {
        assert Fired(t, frames, g) == [f.now] + Fired(t1, rest, g);
        SpacedCons(g, LastOf(t, g), f.now, Fired(t1, rest, g));
      } else {
        assert Fired(t, frames, g) == Fired(t1, rest, g);
      }
    }
  }

  // ---------------------------------------------------------------------------
  // The orchestrator
  // ---------------------------------------------------------------------------

  /** The shared `state` object, with the window bookkeeping in `manager`. */
  class Orchestrator {
    const manager: WindowManager
    var history: seq<real>
    var lastBeat: real
    var lastClose: real
    var lastBroadcast: real
    var sensitivity: real
    var audioEnabled: bool
    var autoOpenEnabled: bool

    ghost predicate Valid()
      reads this, manager
    {
      && manager.Valid() && manager.layout == ModuleLayout
      && sensitivity > 0.0 && |history| <= VolumeHistorySize
    }

    function Clock(): Timing
      reads this
    {
      Timing(history, lastBeat, lastClose, lastBroadcast)
    }

    /** The frame as this orchestrator's step sees it: modules/audio.js's threshold and floor. */
    function Settings(now: real, volume: real, windowCount: nat): Reading
      reads this
      requires sensitivity > 0.0
    {
      Reading(now, volume, windowCount, autoOpenEnabled, BeatThreshold(BeatThresholdBase, sensitivity), MinVolume(MinVolumeBase, sensitivity))
    }

    /** state.js's initial values, then `init()`'s grid calculation for the container. */
    constructor (width: int, height: int)
      ensures Valid() && fresh(manager)
      ensures Clock() == Timing([], 0.0, 0.0, 0.0) && sensitivity == 1.0
      ensures !audioEnabled && !autoOpenEnabled
      ensures manager.State() == Regrid(ModuleLayout, Initial(RandomSpot), width, height)
    {
      manager := new WindowManager(ModuleLayout, RandomSpot, width, height);
      history := [];
      lastBeat, lastClose, lastBroadcast := 0.0, 0.0, 0.0;
      sensitivity := 1.0;
      audioEnabled := false;
      autoOpenEnabled := false;
    }

    /** `initAudio()` succeeded: the analyser exists and the loop starts measuring. */
    method AudioStarted()
      requires Valid()
      modifies this
      ensures Valid()
      ensures audioEnabled && Clock() == old(Clock()) && sensitivity == old(sensitivity)
      ensures autoOpenEnabled == old(autoOpenEnabled)
    {
      audioEnabled := true;
    }

    /** Cmd+S flips auto-open. */
    method ToggleAutoOpen()
      requires Valid()
      modifies this
      ensures Valid()
      ensures autoOpenEnabled == !old(autoOpenEnabled)
      ensures Clock() == old(Clock()) && sensitivity == old(sensitivity) && audioEnabled == old(audioEnabled)
    {
      autoOpenEnabled := !autoOpenEnabled;
    }

    /** The sensitivity slider. */
    method SetSensitivity(value: real)
      requires Valid() && value > 0.0
      modifies this
      ensures Valid() && sensitivity == value && Clock() == old(Clock())
      ensures audioEnabled == old(audioEnabled) && autoOpenEnabled == old(autoOpenEnabled)
    {
      sensitivity := value;
    }

    /** The open button: `createVirtualWindow()`. */
    method OpenButton(pick: real, spot: Point) returns (win: Option<Win>)
      requires Valid() && 0.0 <= pick < 1.0
      modifies manager
      ensures Valid()
      ensures win.None? ==> manager.State() == old(manager.State())
      ensures win.Some? ==> (manager.State(), win) == Created(ModuleLayout, old(manager.State()), win.value.project,
                                                               PlacementOf(win.value))
    {
      win := manager.Create(pick, spot);
    }

    /** The close button removes the newest window, the last one in the list. */
    method CloseButton()
      requires Valid()
      modifies manager
      ensures Valid()
      ensures manager.State() == if |old(manager.windows)| > 0 then PopLast(old(manager.State())) else old(manager.State())
    {
      if |manager.windows| > 0 {
        PopLastIsCloseNewest(ModuleLayout, manager.State());
        manager.Close(manager.windows[|manager.windows| - 1].id);
      }
    }

    /** The pattern menu sets the pattern and re-grids; a window resize re-grids. */
    method PatternChanged(p: Pattern, width: int, height: int)
      requires Valid()
      modifies manager
      ensures Valid() && manager.State() == Regrid(ModuleLayout, old(manager.State()).(pattern := p), width, height)
    {
      manager.SetPattern(p, width, height);
    }

    method ContainerResized(width: int, height: int)
      requires Valid()
      modifies manager
      ensures Valid() && manager.State() == Regrid(ModuleLayout, old(manager.State()), width, height)
    {
      manager.RecalculateGrid(width, height);
    }

    /**
     * `analyzeLoop(now)`. Without audio nothing changes. Otherwise the volume of the
     * time-domain frame is measured; the timing follows Step (the quiet check sees the
     * window count after a beat's create); a beat with auto-open on and room opens a
     * window, a quiet close closes the oldest, and a due broadcast carries the volume,
     * its normalised value, the average after the push, and the beat flag. `pick` and
     * `spot` stand for the random choices a create makes.
     */
    method AnalyzeLoop(now: real, timeDomain: array?<byte>, pick: real, spot: Point)
      returns (volume: real, out: Outcome, created: Option<Win>, sent: Option<Broadcast>)
      requires Valid() && 0.0 <= pick < 1.0
      requires timeDomain != null ==> timeDomain.Length > 0
      modifies this, manager
      ensures Valid()
      ensures !old(audioEnabled) ==>
                && Clock() == old(Clock()) && manager.State() == old(manager.State())
                && out == Outcome(false, false, false) && created.None? && sent.None?
      ensures old(audioEnabled) ==>
                && volume == (if timeDomain == null then 0.0 else MeanDeviation(timeDomain[..]))
                && (Clock(), out) == Step(old(Clock()), Settings(now, volume, |old(manager.windows)| + (if created.Some? then 1 else 0)))
                && sent == (if out.broadcast then Some(Broadcast(volume, NormalizedVolume(volume), AverageVolume(history), out.beat))
                            else None)
      ensures created.Some? ==> out.beat && autoOpenEnabled && |old(manager.windows)| < MaxWindows
      ensures created.None? && out.beat && autoOpenEnabled ==>
                |old(manager.windows)| >= MaxWindows || forall p: Project :: old(manager.counts)[p] >= MaxPerProject
      ensures created.Some? ==> (manager.State(), created) == Created(ModuleLayout, old(manager.State()), created.value.project,
                                                                    PlacementOf(created.value))
      ensures created.None? && !out.quiet ==> manager.State() == old(manager.State())
      ensures out.quiet ==> !out.beat && manager.State() == ClosedOldest(old(manager.State()))
      ensures sensitivity == old(sensitivity) && audioEnabled == old(audioEnabled) && autoOpenEnabled == old(autoOpenEnabled)
    {
      if !audioEnabled {
        return 0.0, Outcome(false, false, false), None, None;
      }
      volume := GetVolume(timeDomain);
      out, created, sent := Analyze(now, volume, pick, spot);
    }

    /** The body of `analyzeLoop` once the analyser exists. */
    method Analyze(now: real, volume: real, pick: real, spot: Point)
      returns (out: Outcome, created: Option<Win>, sent: Option<Broadcast>)
      requires Valid() && 0.0 <= pick < 1.0
      modifies this, manager
      ensures Valid()
      ensures (Clock(), out) == Step(old(Clock()), Settings(now, volume, |old(manager.windows)| + (if created.Some? then 1 else 0)))
      ensures sent == (if out.broadcast then Some(Broadcast(volume, NormalizedVolume(volume), AverageVolume(history), out.beat))
                       else None)
      ensures created.Some? ==> out.beat && autoOpenEnabled && |old(manager.windows)| < MaxWindows
      ensures created.None? && out.beat && autoOpenEnabled ==>
                |old(manager.windows)| >= MaxWindows || forall p: Project :: old(manager.counts)[p] >= MaxPerProject
      ensures created.Some? ==> (manager.State(), created) == Created(ModuleLayout, old(manager.State()), created.value.project,
                                                                    PlacementOf(created.value))
      ensures created.None? && !out.quiet ==> manager.State() == old(manager.State())
      ensures out.quiet ==> !out.beat && manager.State() == ClosedOldest(old(manager.State()))
      ensures sensitivity == old(sensitivity) && audioEnabled == old(audioEnabled) && autoOpenEnabled == old(autoOpenEnabled)
    {
      ghost var t0 := Clock();
      var beat, quiet;
      beat, quiet, created := Sense(now, volume, pick, spot);
      var broadcast;
      sent, broadcast := MaybeBroadcast(now, volume, beat);
      out := Outcome(beat, quiet, broadcast);
      ghost var f := Settings(now, volume, |old(manager.windows)| + (if created.Some? then 1 else 0));
      BeatExcludesQuiet(t0, f);
      StepOf(t0, f, out);
    }

    /** The volume history, the beat with its auto-open, and the quiet close, in the source's order. */
    method Sense(now: real, volume: real, pick: real, spot: Point) returns (beat: bool, quiet: bool, created: Option<Win>)
      requires Valid() && 0.0 <= pick < 1.0
      modifies this, manager
      ensures Valid()
      ensures history == PushBounded(old(history), volume, VolumeHistorySize)
      ensures beat == IsBeat(volume, AverageVolume(old(history)), BeatThreshold(BeatThresholdBase, sensitivity),
                             MinVolume(MinVolumeBase, sensitivity), now - old(lastBeat))
      ensures quiet == IsQuiet(autoOpenEnabled, volume, AverageVolume(old(history)), MinVolume(MinVolumeBase, sensitivity),
                               now - old(lastClose), |old(manager.windows)| + (if created.Some? then 1 else 0))
      ensures lastBeat == (if beat then now else old(lastBeat)) && lastClose == (if quiet then now else old(lastClose))
      ensures lastBroadcast == old(lastBroadcast)
      ensures created.Some? ==> beat && autoOpenEnabled && |old(manager.windows)| < MaxWindows
      ensures created.None? && beat && autoOpenEnabled ==>
                |old(manager.windows)| >= MaxWindows || forall p: Project :: old(manager.counts)[p] >= MaxPerProject
      ensures created.Some? ==> (manager.State(), created) == Created(ModuleLayout, old(manager.State()), created.value.project,
                                                                    PlacementOf(created.value))
      ensures created.None? && !quiet ==> manager.State() == old(manager.State())
      ensures quiet ==> created.None? && manager.State() == ClosedOldest(old(manager.State()))
      ensures sensitivity == old(sensitivity) && audioEnabled == old(audioEnabled) && autoOpenEnabled == old(autoOpenEnabled)
    {
      ghost var t0 := Clock();
      var avg := RecordVolume(volume);
      beat := DetectBeat(now, volume, avg);
      created := AutoOpen(beat, pick, spot);
      ghost var f := Settings(now, volume, |manager.windows|);
      quiet := QuietClose(now, volume, avg);
      BeatExcludesQuiet(t0, f);
    }

    /** A beat with auto-open on and fewer than MAX_WINDOWS windows creates one. */
    method AutoOpen(beat: bool, pick: real, spot: Point) returns (created: Option<Win>)
      requires Valid() && 0.0 <= pick < 1.0
      modifies manager
      ensures Valid()
      ensures created.Some? ==> beat && autoOpenEnabled && |old(manager.windows)| < MaxWindows
      ensures created.None? && beat && autoOpenEnabled ==>
                |old(manager.windows)| >= MaxWindows || forall p: Project :: old(manager.counts)[p] >= MaxPerProject
      ensures created.Some? ==> (manager.State(), created) == Created(ModuleLayout, old(manager.State()), created.value.project,
                                                                    PlacementOf(created.value))
      ensures created.None? ==> manager.State() == old(manager.State())
      ensures |manager.windows| == |old(manager.windows)| + if created.Some? then 1 else 0
    {
      created := None;
      if beat && autoOpenEnabled && |manager.windows| < MaxWindows {
        ghost var before := manager.State();
        created := manager.Create(pick, spot);
        if created.Some? {
          CreatedOutcome(ModuleLayout, before, created.value.project, PlacementOf(created.value));
        }
      }
    }

    /** The average is taken before the push; the push keeps the newest 30 volumes. */
    method RecordVolume(volume: real) returns (avg: real)
      requires Valid()
      modifies this
      ensures Valid() && avg == AverageVolume(old(history))
      ensures history == PushBounded(old(history), volume, VolumeHistorySize)
      ensures lastBeat == old(lastBeat) && lastClose == old(lastClose) && lastBroadcast == old(lastBroadcast)
      ensures sensitivity == old(sensitivity) && audioEnabled == old(audioEnabled) && autoOpenEnabled == old(autoOpenEnabled)
    {
      avg := AverageVolume(history);
      history := history + [volume];
      if |history| > VolumeHistorySize {
        history := history[1..];
      }
    }

    /** The beat check; a beat records the frame's time. */
    method DetectBeat(now: real, volume: real, avg: real) returns (beat: bool)
      requires Valid()
      modifies this
      ensures Valid() && beat == IsBeat(volume, avg, BeatThreshold(BeatThresholdBase, sensitivity), MinVolume(MinVolumeBase, sensitivity), now - old(lastBeat))
      ensures lastBeat == if beat then now else old(lastBeat)
      ensures history == old(history) && lastClose == old(lastClose) && lastBroadcast == old(lastBroadcast)
      ensures sensitivity == old(sensitivity) && audioEnabled == old(audioEnabled) && autoOpenEnabled == old(autoOpenEnabled)
    {
      var timeSinceBeat := now - lastBeat;
      beat := false;
      if volume > avg * BeatThreshold(BeatThresholdBase, sensitivity) && timeSinceBeat > BeatCooldown && avg > MinVolume(MinVolumeBase, sensitivity) {
        lastBeat := now;
        beat := true;
      }
    }

    /** The quiet check; a quiet close records the frame's time and closes the oldest window. */
    method QuietClose(now: real, volume: real, avg: real) returns (quiet: bool)
      requires Valid()
      modifies this, manager
      ensures Valid()
      ensures quiet == IsQuiet(autoOpenEnabled, volume, avg, MinVolume(MinVolumeBase, sensitivity), now - old(lastClose), |old(manager.windows)|)
      ensures lastClose == if quiet then now else old(lastClose)
      ensures manager.State() == if quiet then ClosedOldest(old(manager.State())) else old(manager.State())
      ensures history == old(history) && lastBeat == old(lastBeat) && lastBroadcast == old(lastBroadcast)
      ensures sensitivity == old(sensitivity) && audioEnabled == old(audioEnabled) && autoOpenEnabled == old(autoOpenEnabled)
    {
      var timeSinceClose := now - lastClose;
      quiet := false;
      if autoOpenEnabled && volume < avg * 0.4 && avg > MinVolume(MinVolumeBase, sensitivity)
         && timeSinceClose > CloseCooldown && |manager.windows| >= MinWindowsToClose
      {
        lastClose := now;
        manager.CloseOldest();
        quiet := true;
      }
    }

    /** The throttled broadcast. */
    method MaybeBroadcast(now: real, volume: real, beat: bool) returns (sent: Option<Broadcast>, due: bool)
      requires Valid()
      modifies this
      ensures Valid() && due == BroadcastDue(now, old(lastBroadcast))
      ensures lastBroadcast == if due then now else old(lastBroadcast)
      ensures sent == if due then Some(Broadcast(volume, NormalizedVolume(volume), AverageVolume(history), beat)) else None
      ensures history == old(history) && lastBeat == old(lastBeat) && lastClose == old(lastClose)
      ensures sensitivity == old(sensitivity) && audioEnabled == old(audioEnabled) && autoOpenEnabled == old(autoOpenEnabled)
    {
      due := now - lastBroadcast >= BroadcastInterval;
      sent := None;
      if due {
        lastBroadcast := now;
        sent := Some(Broadcast(volume, NormalizedVolume(volume), AverageVolume(history), beat));
      }
    }
  }
}
