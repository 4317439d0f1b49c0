# AudioDelay in Dafny

AudioDelay captures audio from one device and plays it back on another a
fixed number of milliseconds later. Its heart is a delay buffer of C frames
of K channels. The capture callback rolls the buffer left by the length of
each captured block and writes the block into the last rows. The playback
callback copies the first rows of the buffer into the block it must fill.
Around it sit the device lists shown in the two selection boxes, the lookup
of the selected captions, the negotiation of sample rate, channel count and
buffer size when audio starts, and the running flag behind the Start/Stop
button.

The model has five modules:

- `Frames` (frames.dfy): frames as sequences of samples, and the window
  arithmetic. `RollLeft` is `np.roll(w, -k, axis=0)`. `Slide(w, b)` is the
  last `|w|` frames of `w + b`, which is the window after writing `b` when
  the buffer accepts `b`. It
  also holds the laws relating writes to the history of everything written.
- `DelayBuffer` (delay_line.dfy): the class `DelayLine` holds the buffer
  as an `array<Frame>`. `Write` is the capture callback and `Read` the
  playback callback, with numpy's slicing and broadcasting rules written out.
- `Devices` (devices.dfy): the device record, the selection captions
  (`"<name> (in: <n>)"`), the filtered lists, and the first-match lookup.
- `Negotiation` (negotiation.dfy): truncation, the sample rate, channel
  count and capacity, and the combined lookup-then-negotiate step.
- `Session` (session.dfy): the class `AudioDelayApp` with the running
  flag, the delay setting and the delay buffer. It models the module-level
  globals `DELAY_MS` and `buffer` as fields of the application object.

Samples are `real` and are never computed with. A device's default sample
rate is an exact `real`, and the capacity is computed with exact rational
arithmetic followed by truncation toward zero, as Python's `int()` does.

The model follows what the code does, including these behaviours a reader
might not expect:

- The capacity is truncated (`int(...)`), not rounded.
- A block longer than the buffer is not cut down to its last C frames. The
  slice assignment raises, and the buffer is left rolled, because line 30
  has already rebound it. `Write` reports failure and states that rolled
  content. The one exception is a one-frame block written into an empty
  buffer (C == 0): the slice selects no rows, numpy broadcasts the single
  row over them, and the write succeeds, leaving the buffer empty.
- A zero-length write also fails when C >= 1, since `buffer[-0:]` selects
  every row.
- A read of more than C frames fails, except when C == 1. In that case
  numpy broadcasts the single row over the whole output block.
- A delay of 0 ms, or a small negative delay that truncates to 0, yields
  an empty buffer rather than an error. Only a negative capacity fails,
  because `np.zeros` raises.
- Stopping does not release the buffer. It only clears the running flag.

## Model

| member | source | states |
|---|---|---|
| `Frames.Silence` | AudioDelay.py:99 | the zero buffer has C frames, each of K samples, every sample 0 |
| `Frames.RollLeft` | AudioDelay.py:30 | rolling keeps the length; the result is the old frames from position k mod C onward followed by the first k mod C frames, so frame i of the result is old frame i + k for every i that does not wrap |
| `Frames.Slide` | AudioDelay.py:30-31 | a write never changes the number of frames held |
| `Frames.RollThenOverwriteIsSlide` | AudioDelay.py:30-31 | rolling left by n and then overwriting the last n rows with the block equals dropping the oldest n frames and appending the block |
| `Frames.SlideEndsWithBlock` | AudioDelay.py:31 | after a write of n <= C frames, the last n frames of the buffer are the block, in order |
| `Frames.SlideShiftsWindow` | AudioDelay.py:30 | after a write of n frames, frame i is the old frame i + n for every i < C - n |
| `Frames.SlideTwice` | AudioDelay.py:30-31 | after accepted writes of b1 and then b2, the window is the last C frames of w + b1 + b2, as one slide by b1 + b2 gives (a single write of b1 + b2 is itself accepted only when it fits) |
| `Frames.WriteAll` | AudioDelay.py:26-32 | a sequence of writes, each of a block the buffer accepts, keeps the buffer length |
| `Frames.WindowLaw` | AudioDelay.py:26-32 | after any sequence of accepted blocks, the buffer is the last C frames of its initial contents followed by everything written |
| `Frames.LagIsCapacity` | AudioDelay.py:30-31 | once accepted blocks totalling at least C frames have been written, position i holds the frame written C - i frames ago, so the front lags the input by exactly C frames |
| `Frames.RampFillsWindow` | AudioDelay.py:30-31 | writing frames 0..C-1 into a silent buffer of capacity C leaves exactly those frames; one more frame C brings frame 1 to the front |
| `Frames.RampScenario` | AudioDelay.py:30-31 | a silent buffer of capacity C fed frames 0..C-1, in accepted blocks of any size, has frame 0 at the front; one more frame brings frame 1 to the front |
| `DelayBuffer.DelayLine.constructor` | AudioDelay.py:99 | a new buffer holds C zero frames of K channels |
| `DelayBuffer.DelayLine.Write` | AudioDelay.py:26-32 | a write keeps C and K; it succeeds exactly when numpy accepts the block (1 <= n <= C, or C == 0 and n <= 1); on success the buffer is the slid window; on failure it is the old buffer rolled left by n |
| `DelayBuffer.DelayLine.Read` | AudioDelay.py:34-40 | a read of count <= C frames fills the output with the buffer's first count frames; with C == 1 every output frame is the single buffered frame; any other count > C fails and leaves the output untouched; the buffer never changes |
| `DelayBuffer.RampThroughLine` | AudioDelay.py:26-40 | calling the capture and playback callbacks in turn on a fresh one-channel buffer plays frame 0 after the ramp 0..C-1, and frame 1 after one more frame |
| `Devices.Decimal` | AudioDelay.py:21-23 | the channel count is spelt in decimal digits with no leading zero, and the digits read back as the count |
| `Devices.LabelReadsBack` | AudioDelay.py:21-23 | a caption built by `Label` starts with the device name and `" (in: "` or `" (out: "`, ends with `")"`, and the text between is all digits whose decimal value is the device's channel count in that direction |
| `Devices.LabelsCollideIff` | AudioDelay.py:21-23 | two devices of the same name get the same `Label` caption in a direction exactly when they have the same channel count in that direction |
| `Devices.EntriesSound` | AudioDelay.py:15-24 | in the filtered list `Entries` builds, every listed entry names a device of the list that has a channel in that direction, under that device's caption, and indices strictly increase (enumeration order) |
| `Devices.EntriesComplete` | AudioDelay.py:19-23 | every device with a channel in a direction is listed for that direction |
| `Devices.EntriesExact` | AudioDelay.py:19-23 | an (index, caption) pair is listed exactly when the device at that index has a channel in that direction and that caption |
| `Devices.ListDevices` | AudioDelay.py:15-24 | the enumeration loop builds exactly the input list and the output list |
| `Devices.Lookup` | AudioDelay.py:89-90 | the lookup fails exactly when no entry carries the caption; otherwise it returns the index of the first entry that does |
| `Devices.LookupSelectsListed` | AudioDelay.py:89-90 | a device found by caption is in the device list, has a channel in that direction and carries that caption |
| `Negotiation.Trunc` | AudioDelay.py:95 | `int()` truncates toward zero: the result is within one of its argument, and never farther from zero |
| `Negotiation.CapacityFrames` | AudioDelay.py:98-99 | for non-negative rate and delay, the capacity is (rate * delay_ms) / 1000 in integer division; it is negative exactly when rate * delay_ms <= -1000 |
| `Negotiation.Negotiate` | AudioDelay.py:95-99 | the rate is the smaller default rate truncated; the channel count is the smaller of the input's capture and the output's playback channels; the capacity is rate * delay_ms / 1000; the only failure is a negative capacity |
| `Negotiation.Configure` | AudioDelay.py:89-99 | a missing input caption fails first, then a missing output caption; otherwise the devices found carry the selected captions and are negotiated; a success always has at least one channel |
| `Session.AudioDelayApp.constructor` | AudioDelay.py:49-72 | the app starts stopped, with the default delay, no buffer and the filtered lists of the catalogue |
| `Session.AudioDelayApp.ToggleAudio` | AudioDelay.py:80-84 | toggling a running app stops it and keeps the buffer and delay; toggling a stopped app records the delay, installs a fresh silent buffer of the negotiated shape when configuration succeeds (and keeps the old one when it fails), and leaves the app running exactly when configuration succeeds and both streams start |
| `Session.AudioDelayApp.StartAudio` | AudioDelay.py:86-108 | the delay setting is always recorded; a lookup or shape error changes neither the buffer nor the flag; otherwise a fresh silent buffer of the negotiated shape replaces the old one, and the flag is set only once both streams have started |
| `Session.AudioDelayApp.StopAudio` | AudioDelay.py:110-118 | stopping clears the running flag and nothing else |

## Left out

- The audio subsystem itself: `sd.query_devices`, stream creation, start, stop and close (AudioDelay.py:16, 92-93, 101-105, 111-116). The catalogue is a parameter of the app's constructor. Whether both streams opened and started is the `streamsStarted` parameter of `StartAudio`. The state of the stream objects, and the `hasattr` tests on them, are not modelled.
- The `threading.Event` handshake between the callbacks (AudioDelay.py:13, 32, 38, 40). The callbacks are modelled as plain calls made one after the other, so torn reads and the blocking wait are outside the model.
- What the audio subsystem does after a callback raises. `Write` and `Read` report the failure as `ok == false`.
- The tkinter window, the default selection of the first entry in each box (an empty list makes it raise), and the parsing of the delay text with `int()` (AudioDelay.py:43-78, 88). The delay reaches `StartAudio` as an integer, and the selections as captions.
- Status printing (AudioDelay.py:27-28, 35-36) and the packaging setup under `__main__` (AudioDelay.py:120-136).
- Binary floating point: rates and products are exact rationals here, so a float product that lands just below an integer is not reproduced.
- The channel axis of numpy's broadcasting. Every block the capture callback receives has K channels, because the stream is opened with that channel count, and `Write` requires it. The output block must be a different array from the buffer.
- `Negotiation.Negotiate`: states the rate bounds only for non-negative default rates, and the capacity quotient only for a non-negative rate and delay. For other inputs the capacity is still the truncation of rate * delay_ms / 1000, and `CapacityFrames` states when it is negative.
- `Negotiation.Configure`: assumes the device list does not change between building the selection lists and starting. The program queries the audio subsystem again for the two selected devices when audio starts (AudioDelay.py:92-93); the model reads their records from the same catalogue the lists were built from, so a device that is unplugged or reconfigured in between is not modelled.
- `Frames.WriteAll`: folds only blocks the buffer accepts, so `WindowLaw`, `LagIsCapacity` and `RampScenario` speak only of such histories. A rejected block leaves the buffer rolled rather than slid; `DelayLine.Write` states that state, and the window laws do not cover what follows it.
