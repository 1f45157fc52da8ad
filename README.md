# vibe_codes orchestrator: a Dafny model

This project models the audio-reactive part of the vibe_codes collection. Its centre is
the orchestrator, a control panel that listens to the microphone and opens and closes
small "project" windows to the beat. The model covers these parts:

- **Mood classifier** (`Mood`, from `mood.js`). A bounded energy history and short and
  long window averages give a trend per sample. Trend and variance samples are buffered
  while a cooldown runs, then averaged and classified into a trend category and an energy
  band, which map to one of seven emotions.
- **Volume analysis** (`Audio`, `Stats`). The time-domain mean deviation from 128, the
  legacy frequency-weighted estimate, the history average, and the threshold and noise
  floor scaled by sensitivity.
- **Frame step** (`Frame`, `Legacy`). One `analyzeLoop` frame decides, against the
  average taken before the push, whether there is a beat (open a window), a quiet
  spell (close the oldest window) and a broadcast due. `Frame.Orchestrator` follows the
  module version (auto-open gate, 33 ms throttle). `Legacy.Renderer` follows the
  single-file renderer (weighted volume, bases 1.25 and 5, no gate, broadcast every
  frame).
- **Virtual-window bookkeeping** (`Grid`, `Windows`). The grid size and the cell
  corners, the five placement patterns, the centre-out spiral order, and the
  create/close/close-oldest/close-all/maximize/resize operations. The project counts,
  the ids and the grid occupancy stay consistent across all of them. The operations
  re-grid with the corrected re-assignment (windows beyond the new grid leave it); the
  source's own re-assignment is kept beside it as `Windows.RegridAsWritten` and shown
  under "## Findings" to break that consistency.
- **Electron host** (`Host`, from `orchestrator/main.js`). The host's registry of real
  windows: a 16-window and 7-per-project cap, and a FIFO close-oldest that needs at
  least 5 windows.
- **Rotating dodecahedron** (`Gliph`, from `rotating_gliph/main.js`). Band energies
  choose the rotation axis, a sticky trend direction chooses its sign, and each turn is
  eased.
- **Audio-file playback** (`Playback`). The ID3v2/ID3v1 tag reader, and the
  play/pause/stop/seek/repeat controls.
- **Drawing gallery** (`Gallery`). Image choice and the font-size and window-size
  calculation, with JavaScript's NaN and infinities made explicit.
- **ASCII converter command line** (`AsciiCli`). Argument checks, image ids, line
  filtering and the upsert into a gallery file.
- **Monologue service** (`Llm`). The chat and monologue requests and the clean-up of
  the model's reply. `Text` holds the string helpers they share: trim, lower-case,
  drop a final mark, split and join on newlines.

`Wrappers` holds `Option`. `Config` holds the shared configuration and the list of
projects.

Things that come from outside become parameters of the model:

- clock readings and animation-frame timestamps are `now`/`clock`;
- `Math.random()` is a `pick` in [0, 1);
- the corner chosen by the random and burst patterns is `spot`;
- analyser buffers are byte arrays;
- the language model's answer is `response`;
- the image converter's output is `text`/`frameTexts`;
- the GIF probe's answer is `animated`.

## Model

Paths are relative to the repository root.

| member | source | states |
|---|---|---|
| Stats.PushBoundedKeepsNewest | orchestrator/renderer/modules/main.js:73-76 | push-then-shift keeps the history within its capacity, as the newest entries in arrival order, the pushed value last |
| Stats.PushAllKeepsNewest | orchestrator/renderer/modules/main.js:73-76 | after any number of pushes the history is the last `cap` entries of old history plus new values |
| Stats.MeanWithin | orchestrator/renderer/modules/audio.js:41-44 | the mean of a non-empty history lies between the least and greatest bound of its entries |
| Stats.PickIndex | orchestrator/renderer/modules/windows.js:255 | `Math.floor(Math.random() * n)` is an index below n |
| Audio.GetVolume | orchestrator/renderer/modules/audio.js:29-39 | 0 without an analyser; otherwise the mean of the absolute deviations from 128, which lies in [0, 128] |
| Audio.MeanDeviationBound | orchestrator/renderer/modules/audio.js:34-38 | the mean deviation of any non-empty byte frame lies in [0, 128] |
| Audio.KickEndIsOneBin | orchestrator/renderer/renderer.js:36-37 | floor(150 / (44100 / 512)) is 1: only bin 0 is doubled |
| Audio.GetWeightedVolume | orchestrator/renderer/renderer.js:142-157 | 0 without an analyser; otherwise the weighted bin sum over the bin count, bins below the kick end counted twice, in [0, 510] |
| Audio.WeightedVolumeBound | orchestrator/renderer/renderer.js:149-156 | the weighted mean of any non-empty spectrum lies in [0, 510] |
| Audio.AverageVolume | orchestrator/renderer/modules/audio.js:41-44 | 0 on an empty history; otherwise average times length is the sum; non-negative for non-negative volumes |
| Audio.BeatThreshold | orchestrator/renderer/modules/audio.js:46-48 | a base above 1 gives a threshold above 1; sensitivity 1 gives the base |
| Audio.BeatThresholdDecreasing | orchestrator/renderer/modules/audio.js:46-48 | raising the sensitivity strictly lowers the beat threshold |
| Audio.MinVolume | orchestrator/renderer/modules/audio.js:50-52 | floor times sensitivity is the base; positive for a positive base |
| Audio.MinVolumeDecreasing | orchestrator/renderer/modules/audio.js:50-52 | raising the sensitivity strictly lowers the noise floor |
| Audio.NormalizedVolume | orchestrator/renderer/modules/audio.js:62 | at most 1; volume / 15 up to 15 and 1 from there; non-negative for a non-negative volume |
| Mood.CeilDiv | orchestrator/renderer/modules/mood.js:31-36 | `Math.ceil(a / b)`: the least q with q·b ≥ a |
| Mood.WindowSampleCounts | orchestrator/renderer/modules/mood.js:31-36 | the short window holds 16 samples and the long one 91 |
| Mood.TrendOf | orchestrator/renderer/modules/mood.js:117 | 0 without a positive baseline; otherwise trend · long = short − long, positive exactly when the short average is above the baseline |
| Mood.ClassifyTrend | orchestrator/renderer/modules/mood.js:140-156 | erratic exactly when at least half of the variance samples exceed 100; otherwise rising, falling or stable by the mean trend against ±0.15, each as an if-and-only-if |
| Mood.RatioAtLeastHalf | orchestrator/renderer/modules/mood.js:144-148 | count / n ≥ 0.5 exactly when 2·count ≥ n |
| Mood.ClassifyEnergy | orchestrator/renderer/modules/mood.js:159-167 | each of the four bands holds exactly on its interval (< 4, [4, 10], (10, 16], > 16) |
| Mood.MapToEmotion | orchestrator/renderer/modules/mood.js:227-261 | high energy always gives excited; erratic gives only excited, confused or surprised, and confused and surprised need erratic; sad needs falling with medium energy |
| Mood.Confidence | orchestrator/renderer/modules/mood.js:192 | in [0, 1]; 1 once the history holds 91 samples, otherwise len / 91 |
| Mood.RecordKeepsConsistent | orchestrator/renderer/modules/mood.js:63-75 | a sample keeps the tracker consistent, and the history becomes the last 91 of the old history plus the sample |
| Mood.RecordBeforeShortWindow | orchestrator/renderer/modules/mood.js:71-74 | below 16 samples a sample changes only the history |
| Mood.UpdateDuringCooldown | orchestrator/renderer/modules/mood.js:119-134 | during the cooldown emotion, trend, energy level and change time stay, and each buffer gains exactly one sample at its end |
| Mood.UpdateAfterCooldown | orchestrator/renderer/modules/mood.js:134-185 | after the cooldown the buffers are emptied, the emotion is the table's value for the new trend and band, and the change time moves to `now` when the emotion changes |
| Mood.ConstantHistoryIsStable | orchestrator/renderer/modules/mood.js:105-156 | a history of equal samples buffers a zero trend and a zero variance; when every buffered trend is 0 and no buffered variance exceeds 100, the update after the cooldown classifies the trend as stable |
| Mood.Average | orchestrator/renderer/modules/mood.js:80-87 | 0 for an empty range; otherwise the mean of the slice |
| Mood.Variance | orchestrator/renderer/modules/mood.js:92-100 | the population variance of the slice, never negative |
| Mood.SimpleAverage | orchestrator/renderer/modules/mood.js:199-206 | the mean of the array, 0 when it is empty |
| Mood.CountAboveThreshold | orchestrator/renderer/modules/mood.js:211-217 | the number of entries strictly above the threshold, at most the length |
| Mood.MoodTracker.constructor | orchestrator/renderer/modules/mood.js:39-57 | empty buffers, the initial mood (happy, stable, medium, 0) and change time 0 |
| Mood.MoodTracker.RecordEnergySample | orchestrator/renderer/modules/mood.js:63-75 | the new state is `Record` of the old one and the tracker stays consistent |
| Mood.MoodTracker.PushWindowSample | orchestrator/renderer/modules/mood.js:106-122 | the windows are sampled and the three buffers extended as `Sample` says |
| Mood.MoodTracker.ClassifyWindow | orchestrator/renderer/modules/mood.js:134-193 | the classification step as `Reclassify` says |
| Mood.MoodTracker.UpdateMood | orchestrator/renderer/modules/mood.js:105-194 | the new state is `Update` of the old one |
| Mood.MoodTracker.GetMoodState | orchestrator/renderer/modules/mood.js:273-275 | a copy of the current mood, whose confidence lies in [0, 1] |
| Mood.MoodTracker.ResetMood | orchestrator/renderer/modules/mood.js:280-292 | every buffer empty, the initial mood and change time 0 |
| Grid.CellsAcross | orchestrator/renderer/modules/windows.js:77-81 | at least 1; n cells fit after the leading gap (unless n is the floor of 1) and n + 1 do not |
| Grid.GridPosition | orchestrator/renderer/modules/windows.js:94-105 | the corner lies at least one gap from the top-left and within the last column |
| Grid.GridPositionRoundTrip | orchestrator/renderer/modules/windows.js:94-105 | the cell index is recovered from its corner: distinct cells have distinct corners |
| Grid.CascadePosition | orchestrator/renderer/modules/windows.js:218-224 | the corner stays within 300 px across and 200 px down from the gap |
| Grid.CascadePeriodic | orchestrator/renderer/modules/windows.js:218-224 | the cascade repeats every 20 windows and its x offset every 10 |
| Grid.SpiralOrder | orchestrator/renderer/modules/windows.js:147-182 | the loop computes the spiral listing, which lists every cell index exactly once (a permutation of 0 … cols·rows − 1) and starts at the centre when it lies in the grid |
| Grid.WalkListsAll | orchestrator/renderer/modules/windows.js:156-180 | from any state of the loop that satisfies its invariant, the rest of the walk ends with every cell listed exactly once and the centre first |
| Grid.SpiralListingIsPermutation | orchestrator/renderer/modules/windows.js:147-182 | the listing from the centre is a permutation of the cell indices, centre first when it lies in the grid |
| Grid.SpiralStep | orchestrator/renderer/modules/windows.js:156-180 | one loop iteration keeps the invariant and either moves to a later leg or shortens the current one, never passing the covering radius while cells are missing |
| Grid.GridCovered | orchestrator/renderer/modules/windows.js:156-180 | once the walk reaches the leg whose square holds the grid, every cell has been visited |
| Grid.VisitCell | orchestrator/renderer/modules/windows.js:157-160 | records the current point exactly when it is an unvisited grid cell |
| Grid.MoveAndTurn | orchestrator/renderer/modules/windows.js:162-177 | the move and the turn of one iteration, as `Moved` says |
| Windows.FindIndex | orchestrator/renderer/modules/windows.js:367-368 | the first window with the id, or −1 exactly when none has it |
| Windows.InitialTracked | orchestrator/renderer/modules/state.js:8-42 | the initial state (no windows, counts 0, counter 0) satisfies the bookkeeping |
| Windows.RegridKeepsInv | orchestrator/renderer/modules/windows.js:68-92 | after a re-grid the grid is cols·rows cells, cell i holds window i while windows last and is empty after, only grid indices change, and the bookkeeping holds |
| Windows.ReassignKeepsCounts | orchestrator/renderer/modules/windows.js:86-91 | re-assigning grid indices keeps every project count |
| Windows.StaleGridIndex | orchestrator/renderer/modules/windows.js:86-91 | as written, a window beyond the grid keeps an index that names a cell another window holds; closing it marks that cell free although the holder's grid index still names it, and grid fill then gives the next window that same cell |
| Windows.StaleGridIndexCorrected | orchestrator/renderer/modules/windows.js:86-91 | with windows beyond the grid taken off it, the same scenario keeps one holder per cell |
| Windows.FirstFree | orchestrator/renderer/modules/windows.js:124-128 | the first empty cell, or −1 exactly when every cell is taken |
| Windows.CentreCell | orchestrator/renderer/modules/windows.js:135-137 | the centre cell lies in the grid |
| Windows.PlacedIsFree | orchestrator/renderer/modules/windows.js:111-145 | whatever pattern places a window, the cell it names is empty |
| Windows.Under | orchestrator/renderer/modules/windows.js:253 | exactly the projects below their cap, in PROJECTS order |
| Windows.RandomProject | orchestrator/renderer/modules/windows.js:252-256 | null exactly when every project is at its cap; otherwise a project below it |
| Windows.CreatedOutcome | orchestrator/renderer/modules/windows.js:269-346 | refused, with nothing changed, exactly at the window cap or the project's cap; otherwise the window is appended with the old counter as id, the counter and that project's count rise by one, and only its cell is filled |
| Windows.CreatedKeepsInv | orchestrator/renderer/modules/windows.js:269-346 | a create at a free placement keeps the bookkeeping |
| Windows.ClosedKeepsInv | orchestrator/renderer/modules/windows.js:366-387 | an unknown id changes nothing; otherwise exactly that window goes, the rest keep their order, its cell is freed and its project's count drops by one |
| Windows.ClosedOldestIsFifo | orchestrator/renderer/modules/windows.js:389-394 | below 3 windows nothing changes; otherwise the head of the list goes, which is the window with the smallest id |
| Windows.PopLastIsCloseNewest | orchestrator/renderer/modules/windows.js:398-406 | one round of close-all is closing the newest window |
| Windows.ClosedAllEmpties | orchestrator/renderer/modules/windows.js:396-408 | no windows and every count 0 afterwards; the counter and grid shape stay, and exactly the held cells are freed |
| Windows.ToggledKeepsInv | orchestrator/renderer/modules/windows.js:414-448 | maximize/restore keeps the bookkeeping |
| Windows.ToggleTwiceRestores | orchestrator/renderer/modules/windows.js:414-448 | maximizing fills the container, toggling twice gives back the frame and the flag, and no other window changes |
| Windows.Clamp | orchestrator/renderer/modules/windows.js:57-58 | at least the gap, at most the bound when the bound allows it, and a value already in range stays |
| Windows.ResizedKeepsInv | orchestrator/renderer/modules/windows.js:32-62 | resizing keeps the bookkeeping |
| Windows.ResizedStaysInside | orchestrator/renderer/modules/windows.js:32-62 | the frame takes content plus chrome; its corner stays at least a gap from the top-left, it ends a gap inside when it fits, and a corner already in range stays |
| Windows.AssignCells | orchestrator/renderer/modules/windows.js:83-91 | the fresh grid and the re-assigned windows, as `CellsFor` and `Reassigned` describe |
| Windows.WindowManager.constructor | orchestrator/renderer/modules/main.js:138-139 | the initial state followed by the start-up re-grid |
| Windows.WindowManager.RecalculateGrid | orchestrator/renderer/modules/windows.js:68-92 | the new state is the re-grid of the old one |
| Windows.WindowManager.SetPattern | orchestrator/renderer/modules/main.js:49-52 | the pattern changes and the grid is recomputed |
| Windows.WindowManager.GridFillPosition | orchestrator/renderer/modules/windows.js:122-131 | an empty cell, or −1 exactly when every cell is held |
| Windows.FirstFreeAlong | orchestrator/renderer/modules/windows.js:138-143 | the first position along the listing whose cell is empty, or −1 exactly when every listed cell is held |
| Windows.SpiralPlacementShape | orchestrator/renderer/modules/windows.js:133-145 | the spiral placement is an empty cell, the centre whenever the centre is empty, and −1 with the first corner exactly when every cell is held |
| Windows.WindowManager.SpiralPosition | orchestrator/renderer/modules/windows.js:133-145 | the first empty cell in the spiral listing around the centre (hence the centre whenever it is empty), or −1 with the first corner exactly when every cell is held |
| Windows.WindowManager.NextPosition | orchestrator/renderer/modules/windows.js:111-120 | the grid fill's first empty cell, the spiral's first empty cell along the listing, the cascade corner, or the supplied corner for random and burst |
| Windows.WindowManager.CreateWithProject | orchestrator/renderer/modules/windows.js:269-364 | null with nothing changed at a cap; otherwise a window at a placement the pattern allows, tracked as `Created` says |
| Windows.WindowManager.Track | orchestrator/renderer/modules/windows.js:280-346 | the bookkeeping of a create that passed both caps |
| Windows.WindowManager.Create | orchestrator/renderer/modules/windows.js:258-267 | null exactly at the window cap or when every project is at its cap; otherwise a window of the drawn project |
| Windows.WindowManager.Close | orchestrator/renderer/modules/windows.js:366-387 | the new state is `Closed` of the old one |
| Windows.WindowManager.Untrack | orchestrator/renderer/modules/windows.js:370-380 | closing the window at a list index |
| Windows.WindowManager.FindWindow | orchestrator/renderer/modules/windows.js:367 | the index `FindIndex` names |
| Windows.WindowManager.CloseOldest | orchestrator/renderer/modules/windows.js:389-394 | the new state is `ClosedOldest` of the old one |
| Windows.WindowManager.CloseAll | orchestrator/renderer/modules/windows.js:396-408 | the new state is `ClosedAll` of the old one |
| Windows.WindowManager.PopNewest | orchestrator/renderer/modules/windows.js:398-406 | one round of the close-all loop |
| Windows.WindowManager.ToggleMaximize | orchestrator/renderer/modules/windows.js:414-448 | the new state is `Toggled` of the old one |
| Windows.WindowManager.ResizeWindow | orchestrator/renderer/modules/windows.js:32-62 | the new state is `Resized` of the old one |
| Frame.BeatExcludesQuiet | orchestrator/renderer/modules/main.js:79-109 | with a threshold of at least 1 and a non-negative floor, a beat and a quiet close never fire in the same frame |
| Frame.StepKeepsHistory | orchestrator/renderer/modules/main.js:73-76 | the history keeps the newest 30 volumes, this frame's last |
| Frame.RunKeepsHistory | orchestrator/renderer/modules/main.js:73-76 | over any run of frames the history is exactly the newest 30 volumes, in order |
| Frame.StepGate | orchestrator/renderer/modules/main.js:79-115 | a trigger fires only outside its cooldown, and then records the frame's time |
| Frame.FiringsSpaced | orchestrator/renderer/modules/main.js:79-115 | over any run, firings of beat, close and broadcast are spaced by more than 300 ms, more than 800 ms and at least 33 ms |
| Frame.Orchestrator.constructor | orchestrator/renderer/modules/state.js:12-42 | no history, times 0, sensitivity 1, audio and auto-open off, and the start-up grid |
| Frame.Orchestrator.AudioStarted | orchestrator/renderer/modules/audio.js:9-22 | audio on; nothing else changes |
| Frame.Orchestrator.ToggleAutoOpen | orchestrator/renderer/modules/keyboard.js:74 | auto-open flips; nothing else changes |
| Frame.Orchestrator.SetSensitivity | orchestrator/renderer/modules/main.js:44-47 | the sensitivity takes the value; nothing else changes |
| Frame.Orchestrator.OpenButton | orchestrator/renderer/modules/main.js:34-36 | a create as `Created` says, or nothing changed |
| Frame.Orchestrator.CloseButton | orchestrator/renderer/modules/main.js:38-42 | closes the newest window when there is one |
| Frame.Orchestrator.PatternChanged | orchestrator/renderer/modules/main.js:49-52 | sets the pattern and re-grids |
| Frame.Orchestrator.ContainerResized | orchestrator/renderer/modules/main.js:54-56 | re-grids |
| Frame.Orchestrator.AnalyzeLoop | orchestrator/renderer/modules/main.js:63-121 | without audio nothing changes; otherwise the timing follows `Step`, a beat with auto-open and room creates a window, a quiet close closes the oldest, and a due broadcast carries volume, normalised volume, average and beat |
| Frame.Orchestrator.Analyze | orchestrator/renderer/modules/main.js:69-115 | the frame's body once audio runs, as `Step` says |
| Frame.Orchestrator.Sense | orchestrator/renderer/modules/main.js:69-109 | push, beat with auto-open, and quiet close in the source's order |
| Frame.Orchestrator.AutoOpen | orchestrator/renderer/modules/main.js:88-92 | creates only on a beat with auto-open and fewer than 35 windows |
| Frame.Orchestrator.RecordVolume | orchestrator/renderer/modules/main.js:69-76 | the average is the one before the push; the push keeps the newest 30 |
| Frame.Orchestrator.DetectBeat | orchestrator/renderer/modules/main.js:79-86 | the beat test with the scaled threshold and floor; a beat records the time |
| Frame.Orchestrator.QuietClose | orchestrator/renderer/modules/main.js:97-109 | the gated quiet test; a quiet close records the time and closes the oldest window |
| Frame.Orchestrator.MaybeBroadcast | orchestrator/renderer/modules/main.js:111-115 | broadcasts exactly when 33 ms have passed, with the post-push average |
| Legacy.Renderer.constructor | orchestrator/renderer/renderer.js:53-77 | no history, times 0, sensitivity 1, audio off, grid fill, the start-up grid |
| Legacy.Renderer.AudioStarted | orchestrator/renderer/renderer.js:120-140 | audio on; nothing else changes |
| Legacy.Renderer.SetSensitivity | orchestrator/renderer/renderer.js:106-109 | the sensitivity takes the value |
| Legacy.Renderer.OpenButton | orchestrator/renderer/renderer.js:560-562 | null exactly at 50 windows (15 per project across five projects never binds first); otherwise a create |
| Legacy.Renderer.CloseButton | orchestrator/renderer/renderer.js:564-568 | closes the newest window when there is one |
| Legacy.Renderer.PatternChanged | orchestrator/renderer/renderer.js:111-114 | sets the pattern and re-grids |
| Legacy.Renderer.ContainerResized | orchestrator/renderer/renderer.js:570-572 | re-grids |
| Legacy.Renderer.AnalyzeLoop | orchestrator/renderer/renderer.js:501-554 | the weighted volume; the timing follows `Step`; every beat opens a window while there is room; a quiet close closes the oldest; every frame broadcasts |
| Legacy.Renderer.Analyze | orchestrator/renderer/renderer.js:507-545 | the frame's body up to the broadcast, as `Step` says |
| Legacy.Renderer.RecordVolume | orchestrator/renderer/renderer.js:507-514 | the average before the push; the push keeps the newest 30 |
| Legacy.Renderer.DetectBeat | orchestrator/renderer/renderer.js:517-525 | the beat test with bases 1.25 and 5 |
| Legacy.Renderer.OpenOnBeat | orchestrator/renderer/renderer.js:527-531 | creates only on a beat with fewer than 50 windows, and always then |
| Legacy.Renderer.QuietClose | orchestrator/renderer/renderer.js:534-545 | the ungated quiet test; a close records the time and closes the oldest |
| Host.FindEntry | orchestrator/main.js:106 | the first entry of the window, or −1 exactly when it is not listed |
| Host.Empty | orchestrator/main.js:19-23 | no windows and every project counted 0 |
| Host.OpenedOutcome | orchestrator/main.js:72-102 | refused, with nothing changed, exactly at 16 windows or when every project has 7; otherwise a fresh window of a project under 7 is appended and counted |
| Host.OpenedKeepsInv | orchestrator/main.js:72-102 | opening keeps counts matching the list, both caps, and fresh increasing identities |
| Host.ClosedOutcome | orchestrator/main.js:105-111 | an unlisted window changes nothing; otherwise exactly its entry goes, order kept, and its project's count drops by one |
| Host.ClosedKeepsInv | orchestrator/main.js:105-111 | closing keeps the registry's bookkeeping |
| Host.OldestFirst | orchestrator/main.js:127-140 | a request is made exactly with 5 or more windows, and closing it leaves the list without its first entry |
| Host.WindowHost.constructor | orchestrator/main.js:19-23 | the empty registry |
| Host.WindowHost.OpenProjectWindow | orchestrator/main.js:72-124 | the new registry and the answer are `Opened` of the old one |
| Host.WindowHost.WindowClosed | orchestrator/main.js:105-111 | the new registry is `Closed` of the old one |
| Host.WindowHost.CloseOldestWindow | orchestrator/main.js:127-140 | answers whether it asked, and which window |
| Host.WindowHost.WindowCount | orchestrator/main.js:114 | the number of open windows, at most 16 |
| Gliph.BandBins | rotating_gliph/main.js:78-88 | the kick band is bin 0, the snare bins 1-28, the hi-hat bins 29-91 |
| Gliph.BandEnergyBound | rotating_gliph/main.js:172-182 | a band of at least one bin has energy in [0, 255] |
| Gliph.GetBandEnergy | rotating_gliph/main.js:172-182 | the loop computes `BandEnergy` |
| Gliph.AxisIsDominant | rotating_gliph/main.js:203-211 | the chosen axis carries the greatest energy; z only when hi-hat is strictly loudest, y only when snare beats kick |
| Gliph.DirectionSticky | rotating_gliph/main.js:220-232 | the direction stays ±1, changes only with five or more totals, goes to 1 on a rise above 1.10 × the older mean, to −1 on a fall below the older mean / 1.10 (for a non-negative older mean), stays put inside that band, and so stays put when the older and recent means are equal and non-negative |
| Gliph.EaseOutCubicRange | rotating_gliph/main.js:36-38 | 0 at 0, 1 at 1, and within [0, 1] between |
| Gliph.Progress | rotating_gliph/main.js:287 | at most 1, 1 from 500 ms, non-negative for non-negative elapsed time |
| Gliph.InterpolateEnds | rotating_gliph/main.js:290-293 | the interpolation starts at the start and ends at the target |
| Gliph.TurnedMovesOneAxis | rotating_gliph/main.js:270 | a turn moves only the chosen axis, by exactly ±25 degrees |
| Gliph.RecordedKeepsTrend | rotating_gliph/main.js:192-218 | recording keeps the band histories in step and bounded and the direction ±1 |
| Gliph.RecordedKeepsNewest | rotating_gliph/main.js:192-218 | each band history holds its last 10 energies, the totals their last 20 |
| Gliph.Record | rotating_gliph/main.js:192-218 | the pushes and the shared shift as written equal `Recorded` |
| Gliph.Dodecahedron.constructor | rotating_gliph/main.js:27-33 | rotations 0, progress 1, empty histories, direction 1, audio off, no spectrum buffer |
| Gliph.ReceivedSpec | rotating_gliph/main.js:55-67 | a message without an array leaves the buffer (null or stale) alone; the first array becomes the buffer; later ones never change its length, overwrite its front when they fit and are dropped when they do not |
| Gliph.Dodecahedron.ReceiveAudio | rotating_gliph/main.js:55-67 | the sent volume is used from now on, audio is on, and the buffer becomes `Received` of the old buffer and the sent array |
| Gliph.Dodecahedron.AudioStarted | rotating_gliph/main.js:97-110 | audio and analyser on, with a zeroed buffer of 256 bins |
| Gliph.Dodecahedron.GetVolume | rotating_gliph/main.js:141-162 | the orchestrator's volume when sent, else the weighted estimate of the analyser's reading, else 0; only the analyser path refreshes the buffer |
| Gliph.Dodecahedron.AnalyzeAudio | rotating_gliph/main.js:238-260 | without audio nothing; otherwise the shared beat test with 1.25 and 5, and a beat starts a turn about the dominant axis of the buffer as it stands (possibly stale) in the trend's direction; with a null buffer the beat time is recorded and the analysis stops there |
| Gliph.Dodecahedron.RotationParams | rotating_gliph/main.js:172-235 | with a null buffer it stops before recording anything; otherwise the buffer's energies go into their histories, the axis is the dominant band's and the direction the trend's |
| Gliph.Dodecahedron.TriggerRotation | rotating_gliph/main.js:263-275 | the start is the current rotation, only that axis's target moves, and progress restarts |
| Gliph.Dodecahedron.AdvanceAnimation | rotating_gliph/main.js:284-294 | eases toward the target while progress is below 1, and reaches it after 500 ms |
| Gliph.Dodecahedron.Animate | rotating_gliph/main.js:278-299 | analysis then easing; a beat restarts the turn, and the target is reached after 500 ms; when the analysis stops on a null buffer the rest of the frame is skipped |
| Playback.Metadata.Set | orchestrator/renderer/modules/playback.js:101 | the key takes the text and no other key changes |
| Playback.StripShape | orchestrator/renderer/modules/playback.js:147 | exactly the trailing run of NULs is removed |
| Playback.CleanEnds | orchestrator/renderer/modules/playback.js:147 | a cleaned text neither starts nor ends with white space |
| Playback.CleanIsStretch | orchestrator/renderer/modules/playback.js:147 | the cleaned text is a stretch of its input, and what was cut around it is white space or trailing NULs |
| Playback.CleanKeepsCleanText | orchestrator/renderer/modules/playback.js:147 | a text without trailing NULs or surrounding white space is kept as it is |
| Playback.Latin1 | orchestrator/renderer/modules/playback.js:131-134 | one character per byte |
| Playback.Synchsafe | orchestrator/renderer/modules/playback.js:53-56 | the tag size is below 2^28 |
| Playback.SynchsafeIgnoresTopBits | orchestrator/renderer/modules/playback.js:53-56 | the top bit of every size byte is ignored |
| Playback.SynchsafeRoundTrip | orchestrator/renderer/modules/playback.js:53-56 | decoding the synchsafe encoding of any size below 2^28 gives it back |
| Playback.LayoutOf | orchestrator/renderer/modules/playback.js:66-67 | the id fits inside the frame header (3/6 for v2.2, 4/10 otherwise) |
| Playback.FrameIdLength | orchestrator/renderer/modules/playback.js:71-76 | the id has at most n characters and stops only at a NUL |
| Playback.FrameIdChar | orchestrator/renderer/modules/playback.js:71-76 | each id character is the non-NUL byte at its position |
| Playback.FrameSizeSign | orchestrator/renderer/modules/playback.js:82-93 | a 32-bit frame size counts as positive exactly when its top bit is clear and it is not 0 |
| Playback.FrameAt | orchestrator/renderer/modules/playback.js:69-93 | an accepted frame has a positive size and lies inside the tag |
| Playback.FrameAccepted | orchestrator/renderer/modules/playback.js:69-105 | an accepted frame is the first of the walk and the walk resumes right after it |
| Playback.FrameWithin | orchestrator/renderer/modules/playback.js:69-105 | every walked frame lies inside the tag, has a positive size, and the next one starts right after it |
| Playback.LastFrameWins | orchestrator/renderer/modules/playback.js:95-102 | each key holds the text of its last frame in the walk |
| Playback.ReadFrameId | orchestrator/renderer/modules/playback.js:71-76 | the loop reads `FrameId` |
| Playback.ReadV2 | orchestrator/renderer/modules/playback.js:48-108 | the reader computes `ParseV2` |
| Playback.ReadFrame | orchestrator/renderer/modules/playback.js:70-93 | one header read is `FrameAt` |
| Playback.WalkFrames | orchestrator/renderer/modules/playback.js:69-105 | the loop stores exactly the frames the walk accepts |
| Playback.V1Null | orchestrator/renderer/modules/playback.js:110-124 | null exactly when the trailer is too short or all three slots are empty |
| Playback.V1Slots | orchestrator/renderer/modules/playback.js:114-121 | otherwise exactly the non-empty slots: title at 3, artist at 33, album at 63 |
| Playback.Dispatch | orchestrator/renderer/modules/playback.js:24-46 | "ID3" selects the v2 reader on the first 128 KiB; otherwise "TAG" selects the v1 reader on the last 128 bytes; otherwise null; a result is never empty |
| Playback.ClampTime | orchestrator/renderer/modules/playback.js:300 | within [0, duration]; a time inside stays, one outside goes to the nearer end |
| Playback.ClampIdempotent | orchestrator/renderer/modules/playback.js:298-312 | clamping twice is clamping once, and a time is kept exactly when it is inside |
| Playback.Player.constructor | orchestrator/renderer/modules/playback.js:11-22 | no element, nothing loaded, repeat off |
| Playback.Player.Loaded | orchestrator/renderer/modules/playback.js:157-211 | the previous file is unloaded first, so repeat is off; a fresh element of that length, paused at 0 |
| Playback.Player.Unload | orchestrator/renderer/modules/playback.js:219-253 | no element, not loaded, repeat off |
| Playback.Player.Play | orchestrator/renderer/modules/playback.js:273-279 | true and playing exactly when an element exists |
| Playback.Player.Pause | orchestrator/renderer/modules/playback.js:281-287 | true and paused exactly when an element exists |
| Playback.Player.Stop | orchestrator/renderer/modules/playback.js:289-296 | with an element: paused at 0 |
| Playback.Player.SeekAudio | orchestrator/renderer/modules/playback.js:298-304 | with an element the position is the clamped time; otherwise nothing changes and the answer is false |
| Playback.Player.SeekRelative | orchestrator/renderer/modules/playback.js:306-312 | a seek to the current position plus delta |
| Playback.Player.SetRepeat | orchestrator/renderer/modules/playback.js:314-316 | the repeat flag takes the value |
| Playback.Player.Ended | orchestrator/renderer/modules/playback.js:255-262 | the element is paused at its end; with repeat: back to 0 and playing; otherwise the end is reported and the position stays |
| Text.TrimEndShape | orchestrator/renderer/modules/playback.js:147 | exactly the trailing run of white space is removed |
| Text.TrimStartShape | llm-service/index.js:95 | exactly the leading run of white space is removed |
| Text.TrimEnds | llm-service/index.js:95 | a trimmed text neither starts nor ends with white space |
| Text.TrimIdempotent | llm-service/index.js:95 | trimming twice is trimming once |
| Text.LowerChar | llm-service/index.js:56 | A-Z go to a-z, everything else stays, and no upper-case letter results |
| Text.Lower | llm-service/index.js:56 | the same length, each character lowered |
| Text.LowerIdempotent | llm-service/index.js:56 | lower-casing twice is lower-casing once |
| Text.DropFinalMarkShape | llm-service/index.js:56 | the result starts the text and is shorter by one exactly when the text ends in '.', '!' or '?' |
| Text.Split | ascii-service/cli.py:131 | at least one piece |
| Text.SplitPieces | ascii-service/cli.py:131 | no piece holds a newline |
| Text.JoinSplit | ascii-service/cli.py:131 | joining the pieces with newlines gives the text back |
| Text.SplitJoinBreak | ascii-service/cli.py:131 | newline-free pieces joined, then a newline and more text, split into those pieces followed by the pieces of the rest |
| Text.SplitBreak | ascii-service/cli.py:131 | every newline is a break: the text before it and the text after it split separately, one after the other |
| Text.SplitJoin | llm-service/index.js:86 | splitting the join of newline-free lines gives the lines back |
| Gallery.Div | orchestrator/renderer/modules/gallery.js:64-65 | ordinary division by a non-zero divisor; by zero, an infinity of the dividend's sign, or NaN for 0 / 0 |
| Gallery.MinNum | orchestrator/renderer/modules/gallery.js:66 | NaN exactly when an argument is NaN; otherwise the smaller argument |
| Gallery.MaxNum | orchestrator/renderer/modules/gallery.js:66 | NaN exactly when an argument is NaN; otherwise the larger argument |
| Gallery.FloorNum | orchestrator/renderer/modules/gallery.js:66 | the greatest integer not above a finite value; infinities and NaN unchanged |
| Gallery.Ceil | orchestrator/renderer/modules/gallery.js:85 | the least integer not below the value |
| Gallery.FontSizeRange | orchestrator/renderer/modules/gallery.js:63-67 | NaN exactly for a 0 / 0 quotient; otherwise a whole number from 4 to 10 |
| Gallery.FontSizeFits | orchestrator/renderer/modules/gallery.js:63-67 | unless raised to the minimum, the characters fit both ways |
| Gallery.FontSizeLargest | orchestrator/renderer/modules/gallery.js:63-67 | below 10, one size larger would not fit |
| Gallery.FindImage | orchestrator/renderer/modules/gallery.js:43 | the first image with the id, or −1 exactly when none has it |
| Gallery.GetGalleryImageSpec | orchestrator/renderer/modules/gallery.js:37-50 | null exactly when unloaded or empty; a requested id that exists gives its first image; any result is a gallery image |
| Gallery.GetGalleryImageIds | orchestrator/renderer/modules/gallery.js:55-58 | no ids while unloaded; otherwise the ids in gallery order |
| Gallery.DrawMeDimensions | orchestrator/renderer/modules/gallery.js:74-101 | null exactly while the gallery is unloaded or empty; otherwise the measurements of a gallery image, the requested one when it exists, with the first frame's or the lines' count, and a font size that is a whole number from 4 to 10 except NaN exactly for a 0 / 0 quotient |
| Gallery.MeasureSpec | orchestrator/renderer/modules/gallery.js:78-102 | the line count is frame 0's when animated, else the lines'; the height is lines times size; the width is the least whole number of pixels holding the columns |
| Gallery.MeasureFits | orchestrator/renderer/modules/gallery.js:84-86 | unless the size was raised to the minimum, height and width stay within the box |
| Gallery.ScaledFits | orchestrator/renderer/modules/gallery.js:85-86 | at a size that fits, the scaled height and rounded-up width stay within the box |
| AsciiCli.RefusedSpec | ascii-service/cli.py:86-109 | accepted exactly with one of FILE and `--url` and not HTML for an animated GIF; the input errors come first, each as an if-and-only-if |
| AsciiCli.LastIndexOf | ascii-service/cli.py:100 | the last position of the character, or −1 when absent |
| AsciiCli.BasenameSpec | ascii-service/cli.py:100 | a '/'-free ending of the path, reaching back to its last '/' |
| AsciiCli.StemSpec | ascii-service/cli.py:116 | the stem is what `splitext` keeps (`IsStem`): a beginning of the name that drops nothing when every '.' past the first character has only dots before it, and otherwise a '.' with no further '.' after a stem that is not all dots |
| AsciiCli.StemOnly | ascii-service/cli.py:116 | any beginning of the name that `IsStem` accepts is the stem, so `IsStem` determines it |
| AsciiCli.ImageIdSpec | ascii-service/cli.py:113-118 | `--id` when given; else the stem of the file's basename, which is the basename less its extension and holds no '/'; else "image" |
| AsciiCli.StemOfSlashFree | ascii-service/cli.py:116 | the stem of a '/'-free name is the name less its extension and holds no '/' |
| AsciiCli.KeepLinesSpec | ascii-service/cli.py:131 | every kept line is non-empty and newline-free, and together they hold the text without its newlines |
| AsciiCli.KeepLinesJoin | ascii-service/cli.py:131 | non-empty newline-free lines joined by newlines are kept as they are |
| AsciiCli.KeepLinesBreak | ascii-service/cli.py:131 | every newline is a line break: the lines of two texts joined by a newline are those of the first, then those of the second |
| AsciiCli.KeepLinesOne | ascii-service/cli.py:131 | a newline-free text is one line, kept exactly when it is not empty |
| AsciiCli.NonEmptySpec | ascii-service/cli.py:41 | no kept piece is empty, and together the kept pieces hold the same text |
| AsciiCli.NonEmptyAppend | ascii-service/cli.py:41 | the filter works piece by piece: filtering two lists one after the other is filtering each |
| AsciiCli.NonEmptySingle | ascii-service/cli.py:41 | a single piece is dropped exactly when it is empty |
| AsciiCli.MakeEntrySpec | ascii-service/cli.py:120-137 | a GIF stores, frame by frame, the lines kept from that frame's text, else one `lines` list kept from the text; no stored line is empty; the id, source and columns come from the arguments |
| AsciiCli.LastWith | ascii-service/cli.py:148 | the last index of the id, or −1 when absent |
| AsciiCli.UpsertedSpec | ascii-service/cli.py:148-152 | an existing id is replaced in place at its last index, nothing else changes; a new id is appended |
| AsciiCli.UpsertedIdempotent | ascii-service/cli.py:148-152 | upserting the same entry twice is upserting it once |
| AsciiCli.IndexById | ascii-service/cli.py:148 | the dictionary maps exactly the present ids, each to its last index |
| AsciiCli.GalleryFile.Missing | ascii-service/cli.py:144-145 | a missing file starts with no images |
| AsciiCli.GalleryFile.Loaded | ascii-service/cli.py:141-143 | an existing file's images are kept as stored |
| AsciiCli.GalleryFile.Upsert | ascii-service/cli.py:147-152 | the images become `Upserted` of the old ones |
| Llm.StarterAt | llm-service/prompts.js:42-44 | one of the eight starters, never empty |
| Llm.ChatConversation | llm-service/index.js:45-51 | the system prompt followed by the sent messages in order |
| Llm.ChatReplyShape | llm-service/index.js:56 | the lower-cased response, shorter by at most one final mark, with no upper-case letter |
| Llm.ChatReplyKeepsConformingText | llm-service/index.js:56 | a reply that already follows the rules passes unchanged |
| Llm.MonologueUsesRecentHistory | llm-service/index.js:78-91 | a starter exactly for an empty history; otherwise system prompt plus one user message whose text after the lead splits back into the last ten entries |
| Llm.MonologueReplyShape | llm-service/index.js:95-99 | never empty; the fallback for an empty or lone-mark answer; otherwise the trimmed lower-cased answer, shorter by at most a final mark, starting with no white space |

## Left out

- Windows.RegridKeepsInv: states the corrected re-grid `Windows.Regrid`, where windows beyond the new grid get grid index −1. windows.js:86-91 leaves them with their old index; that version is `Windows.RegridAsWritten`, and `Windows.StaleGridIndex` shows it breaking the one-holder-per-cell bookkeeping.
- Windows.AssignCells: computes the corrected re-assignment (windows beyond the grid get −1), not the source loop, which leaves their index as it was.
- Windows.WindowManager.RecalculateGrid: runs the corrected re-grid, not the stale-index one of windows.js:86-91.
- Windows.WindowManager.constructor: the start-up re-grid is the corrected one (it has no windows yet, so the two versions agree there).
- Windows.WindowManager.SetPattern: re-grids with the corrected re-grid.
- Frame.Orchestrator.constructor: the start-up grid comes from the corrected re-grid (with no windows, the same as the source's).
- Frame.Orchestrator.PatternChanged: re-grids with the corrected re-grid.
- Frame.Orchestrator.ContainerResized: re-grids with the corrected re-grid.
- Legacy.Renderer.constructor: the start-up grid comes from the corrected re-grid (with no windows, the same as renderer.js:184-189's).
- Legacy.Renderer.PatternChanged: re-grids with the corrected re-grid, not renderer.js:184-189's.
- Legacy.Renderer.ContainerResized: re-grids with the corrected re-grid, not renderer.js:184-189's.
- Window corners are integers. The `parseInt` truncation of the real-valued random and burst corners happens before they reach the model, as the supplied `spot`.
- The DOM, Electron's BrowserWindow, iframes and `postMessage` are left out. A window is its record. The orchestrator's `window-count` and `audio` messages are values or return values.
- Floating point is exact real arithmetic: IEEE rounding, and NaN/infinite durations and volumes, are not modelled. The gallery's divisions are the exception: there NaN and the infinities are modelled explicitly.
- `Math.random()`, `performance.now()` and animation-frame timestamps are parameters.
- The random and burst placements (`getRandomPosition`, `getCenterBurstPosition`) are a caller-supplied corner: their geometry draws on `Math.random()` and the container size only.
- The rotating glyph's fallback timed rotation (no microphone) is not modelled, nor an `initAudio` that fails after creating the analyser (main.js:102-108): `Gliph.Dodecahedron.AudioStarted` is the success path.
- The three.js scene and its rendering are left out. The model keeps only the rotation angles.
- The legacy renderer removes a closed window from its list 200 ms later, after a timer. The model removes it at once, like the module version.
- Sensitivity is taken to be positive. The slider gives values above 0, and `parseFloat` of another value is not modelled.
- Playback.Latin1: every ID3 text is decoded one byte to one character, as ISO-8859-1. The UTF-16 and UTF-8 decoders for encodings 1-3 are not modelled, and neither is the windows-1252 mapping of bytes 0x80-0x9F that a browser's `TextDecoder('iso-8859-1')` applies.
- Text.Lower: lower-cases only A-Z. `toLowerCase` maps all of Unicode.
- Gallery.FontSizeRange: the whole-number bound from 4 to 10 holds except for 0 / 0 quotients, where the result is NaN. The source does not guard against them.
- Gallery.FontSizeFits: stated for non-negative column counts.
- Gallery.FontSizeLargest: stated for non-negative column counts.
- Gallery.MeasureFits: stated for non-negative column counts.
- An image with neither `lines` nor `frames` (the source throws on it) is not modelled.
- `loadDrawMeGallery` (a fetch) is a `gallery` parameter that is `None` until loaded.
- The ascii_magic converter, the Pillow GIF probe, file reading and JSON writing are parameters. Terminal and HTML output are left out.
- The language-model call (`ollama.js`) is the `response` parameter.
- `/health` is left out. `/starter` is `StarterAt`.
- The waveform arrays in the broadcasts are not modelled. Of the spectrum array, only its receipt by the rotating glyph is (`Gliph.Received`); the orchestrator's side is a parameter.
- The drag, modal, title and UI modules are not part of this model. The audio-file loading pipeline is modelled only through its effect on the player.

## Findings

| source | as written | input that shows it | evidently intended | confidence | as-written member | corrected member |
|---|---|---|---|---|---|---|
| orchestrator/renderer/modules/windows.js:86-91 | `recalculateGrid` re-assigns only the windows that fit in the new grid. A window beyond it keeps its old grid index, which may name a cell another window now holds (renderer.js:184-189 does the same). | A 2 x 1 grid holds windows 0 and 1, and 2 got no cell. Close 0, create 3 in cell 0, then re-grid. Cell 0 goes to 1 and cell 1 to 2, but 3 keeps index 0. Closing 3 then marks cell 0 free while window 1's grid index still names it, and the next grid-fill create is given cell 0 too. | windows beyond the grid are taken off it (grid index −1), so that each cell has at most one holder | not executed | Windows.StaleGridIndex | Windows.StaleGridIndexCorrected |
