/**
 * The orchestrator's static configuration (orchestrator/renderer/modules/config.js)
 * and the list of projects a window can show.
 */
module Config {

  // Window sizing
  const WindowWidth: int := 400
  const WindowHeight: int := 400
  const WindowGap: int := 10
  const TitlebarHeight: int := 18
  const ChromePadding: int := 8

  // Limits
  const MaxWindows: nat := 35
  const MaxPerProject: nat := 7

  // Audio
  const FftSize: nat := 512
  const SampleRate: nat := 44100
  const VolumeHistorySize: nat := 30

  // Beat detection (base values, scaled by sensitivity)
  const BeatThresholdBase: real := 1.3
  const BeatCooldown: real := 300.0
  const MinVolumeBase: real := 2.0

  // Close detection
  const CloseCooldown: real := 800.0
  const MinWindowsToClose: nat := 3

  // Broadcast throttle (30 fps)
  const BroadcastInterval: real := 33.0

  /** The visual pieces a window can host; PROJECTS lists them in this order. */
  datatype Project = CirclingCycle | LucidDream | PitchySoundwave | RotatingGliph | Tlkn2Mslf

  const Projects: seq<Project> := [CirclingCycle, LucidDream, PitchySoundwave, RotatingGliph, Tlkn2Mslf]

  lemma ProjectsListsEveryProject(p: Project)
    ensures p in Projects
  {
  }
}
