# Beat detector and history buffers of the audio analyser

`audio_sim.py` is a real-time audio visualiser. An audio callback analyses
each block of input and computes three band energies: bass, mid and treble.
It runs a simple beat detector on the bass value and appends the frame to
four bounded history buffers. A plotting callback copies those buffers and
draws them, with a vertical marker at every frame that was a beat.

This project models the part of that program that is exact and sequential:

- the detection and history update done under the lock in `analyze_audio`;
- the module-level state it works on;
- the renderer's snapshot of the history;
- the list of beat-marker positions.

The model has three modules.

- `Bounded` (`bounded.dfy`): a `deque(maxlen=cap)` that is only appended to.
  - `Push` is one append that evicts the oldest item when the deque is full.
  - `LastN` is the "newest n items" view such a deque keeps.
- `BeatDetector` (`beat_detector.dfy`): the detector as a reference
  definition and as a state machine.
  - `Flags(xs)` is the beat flag that every call records, as a function of
    the bass values `xs` received so far. It is defined through `Decide` and
    `LastBeat`, independently of the detector's own state.
  - `Update` is one call of the state machine. It mirrors the code: append
    to the 20-entry window, increment the counter, then test the threshold
    against the mean of the window without its newest value, and test the
    cooldown.
  - `RunReference` proves that running `Update` over any input yields the
    window, counter and last-beat value that the reference definition gives.
- `AudioPipeline` (`pipeline.dfy`): the object that holds the globals.
  - The class `Pipeline` has one field per global. Each deque is a `seq`
    field that is reassigned on append.
  - A ghost `log` of the frames received gives meaning to the fields.
  - `Process` is the locked block as one atomic method. It works through
    `Detect` (lines 41-52) and `Append` (lines 55-58), as the code does.
  - `Valid()` says the fields equal `Replay(log)`, the pure state machine run
    over the log. `Reference`, `Snapshot`, `DetectorBounds` and
    `MarkersSpaced` turn that into the promised properties.

Band energies are parameters of `Process` and are modelled as exact reals.

## The sentinel and the first beat

`last_beat_sample` starts at -1 (audio_sim.py:22), and the cooldown test
is `sample_counter - last_beat_sample >= 15` (audio_sim.py:48, 50). So no
beat fires before counter value 14, even though detection starts once the
window holds 5 values.

- `BeatDetector.SixthCallSilent` proves that a spike after five equal
  values is silent.
- `BeatDetector.FirstBeatAtFourteen` proves that the same pattern of equal
  values followed by a triple fires at call 14.

## Model

| member | source | states |
|---|---|---|
| Bounded.LastN | audio_sim.py:16-20 | the view of a maxlen deque has exactly min(n, number appended) items, and they are the newest ones in arrival order |
| Bounded.Push | audio_sim.py:41 | an append to a deque of capacity cap grows it by one up to cap, never beyond cap, and places the new item last |
| Bounded.PushIsLastN | audio_sim.py:16-20 | a deque of capacity cap, after an append, holds the newest cap items of its old content followed by the new item |
| Bounded.PushLastN | audio_sim.py:55-58 | appending to a deque that holds the newest cap inputs yields the newest cap inputs including the new one |
| Bounded.LastNWithoutNewest | audio_sim.py:47 | the window without its just-appended value is the newest cap - 1 values received before it |
| BeatDetector.Mean | audio_sim.py:47 | the mean of the window (numpy's `mean`, exact) of non-negative band energies is non-negative |
| BeatDetector.Decide | audio_sim.py:46-50 | the fire decision of a call as a function of the earlier bass values and the latest beat: it fires only from the fifth call on and at least 15 past the latest beat |
| BeatDetector.Initial | audio_sim.py:20-22 | the start-up detector: empty window, counter 0, last beat -1; its first call never fires |
| BeatDetector.LastBeat | audio_sim.py:22 | the latest beat's counter: either -1, or a call number in range whose flag is set and after every other set flag |
| BeatDetector.Flags | audio_sim.py:58 | one recorded flag per call |
| BeatDetector.FlagsSnoc | audio_sim.py:58 | a further call appends exactly one flag, decided from the earlier values and the latest beat so far |
| BeatDetector.LastBeatSnoc | audio_sim.py:52 | the last-beat counter moves only when a beat fires, and then to the current counter |
| BeatDetector.FlagsPrefix | audio_sim.py:58 | an earlier recorded flag never changes: the first k flags depend only on the first k values |
| BeatDetector.DecideFromWindow | audio_sim.py:46-50 | the reference decision holds exactly when the window holds at least 5 values, bass exceeds 1.5 times the mean of the window without the new value, and the counter is at least 15 past the last beat |
| BeatDetector.Update | audio_sim.py:41-52 | one call increments the counter by 1, changes the last-beat counter only when it fires (and then to the new counter), and fires only with at least 5 values in the window and the cooldown passed |
| BeatDetector.Run | audio_sim.py:20 | the window never holds more than 20 values |
| BeatDetector.RunReference | audio_sim.py:20-22 | after n calls the window is the newest min(n, 20) bass values, the counter is n, and the last-beat counter is that of the latest recorded beat |
| BeatDetector.UpdateDecides | audio_sim.py:41-52 | from the state reached by the earlier values, a call fires exactly when the reference decides so, and the new state is the reference state one call later |
| BeatDetector.UpdateReference | audio_sim.py:45-52 | the flag a call emits is the reference flag for that call |
| BeatDetector.FlagsLate | audio_sim.py:45-46 | no flag is set during the first 4 calls, and none before counter value 14 |
| BeatDetector.FlagsSpaced | audio_sim.py:48-52 | any two set flags are at least 15 calls apart |
| BeatDetector.LastBeatLate | audio_sim.py:22-23 | without early beats, the last-beat counter is -1 or at least 14 |
| BeatDetector.RunBounds | audio_sim.py:20-22 | the window holds min(counter, 20) values, the counter equals the number of calls, and the last-beat counter is -1 or a call number of at least 14 that does not exceed the counter |
| BeatDetector.ColdStart | audio_sim.py:45-46 | whatever the values, the first four calls record False |
| BeatDetector.SixthCallSilent | audio_sim.py:48-50 | five equal values then a triple: the sixth call does not fire |
| BeatDetector.FirstBeatAtFourteen | audio_sim.py:22-23 | thirteen equal positive values then a triple: call 14 fires, and the same value again at call 15 is held back by the cooldown |
| AudioPipeline.BeatPositions | audio_sim.py:96 | the marker positions are strictly increasing indices of set flags |
| AudioPipeline.BeatPositionsComplete | audio_sim.py:96 | every set flag has a marker |
| AudioPipeline.WindowMarkers | audio_sim.py:96 | the markers of the newest entries of a spaced flag sequence are set flags of the whole sequence, at least 15 apart |
| AudioPipeline.Record | audio_sim.py:55-58 | appending a frame keeps every history buffer within 200 entries and the four at one length, and each buffer ends with the new frame's bass, mid, treble and flag |
| AudioPipeline.Step | audio_sim.py:40-58 | one pass through the locked block keeps the window within 20 and the buffers within 200 |
| AudioPipeline.Replay | audio_sim.py:15-23 | every state reached from start-up has its window and buffers within their capacities |
| AudioPipeline.ReplayDetector | audio_sim.py:41-52 | the detector part of the replayed state is the detector run on the bass values alone |
| AudioPipeline.ReplayHistory | audio_sim.py:16-19 | after n frames the four buffers hold the newest min(n, 200) bass, mid and treble values and recorded flags, index-aligned and in arrival order |
| AudioPipeline.ReplayReference | audio_sim.py:15-23 | the state reached from start-up after n frames is the reference state: newest 20 bass values, counter n, latest beat's counter, newest 200 entries of each buffer |
| AudioPipeline.StepReference | audio_sim.py:40-58 | one pass through the locked block carries the reference state of the frames so far to that of one frame more |
| AudioPipeline.Pipeline.constructor | audio_sim.py:15-23 | start-up: empty deques, counter 0, last beat -1 |
| AudioPipeline.Pipeline.Process | audio_sim.py:40-58 | the locked block keeps `Valid()`, logs the frame, moves the fields by one `Step`, increments the counter by 1, and moves the last-beat counter to the new counter only when it fires |
| AudioPipeline.Pipeline.Detect | audio_sim.py:41-52 | the detection code changes the detector fields exactly as `Update` does and leaves the history alone |
| AudioPipeline.Pipeline.Append | audio_sim.py:55-58 | the four appends change the history exactly as `Record` does and leave the detector alone |
| AudioPipeline.Pipeline.Reference | audio_sim.py:16-22 | every field equals its reference view of the frames processed |
| AudioPipeline.Pipeline.Snapshot | audio_sim.py:65-69 | the four copies have one length, min(frames, 200); they hold the newest frames index-aligned, and their last entries are the newest frame's bass, mid, treble and flag |
| AudioPipeline.Pipeline.DetectorBounds | audio_sim.py:42 | the window holds min(counter, 20) values, the counter is the number of frames processed, and the last-beat counter is -1 or a call number of at least 14 |
| AudioPipeline.Pipeline.MarkersSpaced | audio_sim.py:96 | every drawn marker is a frame whose call fired, and consecutive markers are at least 15 samples apart |
| AudioPipeline.Pipeline.OverflowKeepsNewest | audio_sim.py:16-19 | after 250 frames the history holds 200 entries and starts at the 51st frame |

## Left out

- Spectral analysis (audio_sim.py:29-37): the RMS level, the FFT, the bin frequencies and the band means are floating-point numerics over numpy. The three band energies are parameters of `Process`. In the code, a band with no bins would give NaN; the model has no such value.
- Floating-point rounding: band energies, the mean and the 1.5 factor are exact reals, so a comparison that rounding could tip either way is decided exactly.
- `analyze_audio`'s parameters `indata`, `frames`, `time_info` and `status` are consumed only by the spectral analysis, so they are not modelled.
- Locking and threads (audio_sim.py:15, 40, 65): the locked block is the atomic method `Process`, and the snapshot is the atomic read `Snapshot`. Interleavings are not modelled.
- Independence of the snapshot copies (audio_sim.py:66-69): the copies are `seq` values, so the model cannot express aliasing between them and the deques.
- Plotting and y-axis scaling (audio_sim.py:71-95, 97-109): only the marker positions of line 96 are modelled.
- Console output (audio_sim.py:61-62), and device discovery, stream setup and the pause loop (audio_sim.py:112-179): I/O and process plumbing.
