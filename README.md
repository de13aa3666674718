# jetcam capture classes in Dafny

This project models the two capture classes of jetcam and proves properties of the model.

- `Camera` (jetcam/camera.py) owns a V4L2 capture and a background thread. The thread keeps overwriting a single latest-frame slot. The `frame` property returns a copy of that slot, or `None` before the first frame.
- `Microphone` (jetcam/microphone.py) registers a stream callback. For every block the callback sets a loudness level clipped at 1.0. It then pushes the block into a queue of at most 100 blocks, dropping the oldest block when the queue is full. `read` pops the oldest block, or returns `None`.
- Both classes have the same lifecycle: `start` does nothing when already running, `stop` can be called any number of times, and `with` blocks call `start` and `stop`.
- Both have a static `list_devices`. The camera's version probes `/dev/video*` in sorted order. The microphone's version keeps the device-table entries that have input channels.

Files:

- `wrappers.dfy`: `Option` and `Result`. These stand for Python's `None` and for raised exceptions.
- `text.dfy`: Python's order on `str` (used by `sorted`), `int()` on a decimal suffix, `str()` of a number, and the `"WxH"` resolution string.
- `drop_queue.dfy`: what one callback push, and a run of pushes, do to the audio queue.
- `camera.dfy`: class `Camera`, `ListDevices`, and the lemmas about what discovery returns.
- `microphone.dfy`: the level, class `Microphone`, and `ListDevices`.

How the model is built:

- Each lock-guarded block is one atomic method. So are the stream callback and each pass of the capture loop.
- Calls into OpenCV and sounddevice are not modelled. Their outcomes are parameters of the method that makes the call:
  - `Start(opens)`.
  - `CaptureStep(ok, grabbed)` for `ret, frame = cap.read()`.
  - `Start(found, created, started)` for the three sounddevice calls.
  - A probe function from device index to `Probe`.
  - The globbed path list and the device table.
- Each class records the foreign calls it makes, in order, in a `calls` field. That is how the model states that nothing was opened or spawned, or that the capture was released.
- A frame is an `array<bv8>`. So "`frame` returns a copy" is stated as: the result is a freshly allocated array with the stored frame's contents. Changing it cannot change the stored frame.
- An audio block is a sequence of reals. The callback takes the block's rms as an argument, constrained to be the non-negative square root of the block's mean square.

Behaviour of the code worth knowing (the model keeps each one):

- `start` after `stop` keeps `_frame`. So `frame` returns the previous session's last frame rather than `None`. In the same way, `Microphone.start` after `stop` keeps `_level` and the blocks still in `_audio_queue`, so `level` and `read` return the previous session's data. `Camera.Camera.Start` and `Microphone.Microphone.Start` state that these fields are unchanged.
- In `Microphone.start`, `_running = True` is set before `_stream.start()` is called. If `_stream.start()` raises, the microphone is left running over a stream that never started. A later `start` then returns at once. `Start` with `started == false` returns `Err(StreamFailed)` with `running` true.
- When a camera fails to open, `start` raises but leaves the unopened capture in `_cap`. A later successful `start` assigns a new capture to `_cap` without calling `release()` on the one it replaces; `release()` is called only by `stop`, on the capture held at that time.

## Model

| member | source | states |
|---|---|---|
| Camera.Camera.constructor | jetcam/camera.py:14-24 | a new camera has no capture, no frame, no thread and is not running; it keeps the configured device, width, height and fps |
| Camera.Camera.IsRunning | jetcam/camera.py:26-28 | `is_running` holds exactly when a capture thread exists, and exactly when the camera holds an opened capture of its device |
| Camera.Camera.Frame | jetcam/camera.py:30-34 | `None` exactly when no frame has been stored; otherwise a newly allocated copy with the stored frame's contents, so mutating it cannot affect a later `frame` |
| Camera.Camera.Start | jetcam/camera.py:36-58 | running: returns self, no open, no thread, nothing changes; open fails: raises, not running, the unopened capture stays in `_cap`, only the open call was made; open succeeds: open, three `set` calls, one thread spawned, running; the stored frame is kept in every case |
| Camera.Camera.Stop | jetcam/camera.py:60-68 | afterwards not running with no thread and no capture; joins only an existing thread and releases only an existing capture, so a second stop makes no call and changes nothing |
| Camera.Camera.CaptureStep | jetcam/camera.py:70-78 | one loop pass: when not running it exits without reading; when running it reads once, a successful read replaces the stored frame with the read frame and a failed read leaves it |
| Camera.Camera.Enter | jetcam/camera.py:80-81 | entering a `with` block starts the camera, with exactly the outcomes, state and calls `start` has |
| Camera.Camera.Exit | jetcam/camera.py:83-84 | leaving a `with` block stops the camera, with exactly the state and calls of `stop` |
| Camera.IndexOfPath | jetcam/camera.py:92 | `int(path.replace("/dev/video", ""))`, with `ValueError` as `None`; its partner lemmas `Camera.PathOfIndex` and `Camera.IndexOfVideoPath` show it is inverse to forming `/dev/video{n}` |
| Camera.PathOfIndex | jetcam/camera.py:92 | an index read from a path whose suffix has no leading zero gives the path back as `/dev/video{index}` |
| Camera.IndexOfVideoPath | jetcam/camera.py:92 | the path `/dev/video{n}` yields index `n` |
| Camera.Discover | jetcam/camera.py:90-100 | the `for` loop over paths in probing order: no more devices and no more releases than paths; what it returns is stated by `DiscoverFails`, `DiscoverFinds`, `DiscoverReleases`, `DiscoverReleasesReached`, `DiscoverKeepsOrder` and `DiscoverListsOnce` |
| Camera.DiscoverStopsAtError | jetcam/camera.py:91-93 | once `int()` rejects a path, no later path is probed and the result is that of the prefix |
| Camera.ListDevices | jetcam/camera.py:86-101 | the loop over the sorted globbed paths computes exactly `Discover` of them: the devices found (or the rejected path) and the indices released |
| CameraDiscovery.DiscoverFails | jetcam/camera.py:92 | discovery fails exactly when some path's suffix is not a number, and then it reports the first such path |
| CameraDiscovery.DiscoverFinds | jetcam/camera.py:91-99 | the devices found are exactly the probed paths whose probe opens and reads a frame; each has its index parsed from the path suffix and resolution `"WxH"` from the probe |
| CameraDiscovery.DiscoverReleases | jetcam/camera.py:93-100 | every released index belongs to a probed path whose capture opened; when discovery succeeds, every opened probe is released |
| CameraDiscovery.DiscoverReleasesReached | jetcam/camera.py:92-100 | every probe that opened on a path the loop reached is released, including those before a path whose suffix `int()` rejects |
| CameraDiscovery.DiscoverKeepsOrder | jetcam/camera.py:91-99 | devices are listed in the order their paths were probed |
| CameraDiscovery.DiscoverListsOnce | jetcam/camera.py:91-99 | on paths without repeats no two devices share a path, since each pass appends at most one device, for its own path |
| CameraDiscovery.ListedDevices | jetcam/camera.py:86-101 | `list_devices` lists exactly the globbed paths that open and yield a frame, each correctly described, in lexicographic order of path, and, since `glob` returns no path twice, each listed once |
| Text.LexLeTransitive | jetcam/camera.py:91 | Python's string order is transitive |
| Text.LexLeTotal | jetcam/camera.py:91 | any two strings are ordered one way or the other |
| Text.LexLeAntisymmetric | jetcam/camera.py:91 | two strings each at most the other are equal |
| Text.Insert | jetcam/camera.py:91 | inserting into a sorted list keeps it sorted and adds exactly the inserted path |
| Text.SortPaths | jetcam/camera.py:91 | `sorted` returns the same paths (as a multiset) in non-decreasing string order |
| Text.SortKeepsDistinct | jetcam/camera.py:91 | `sorted` of paths without repeats has no repeats |
| Text.SortedUnique | jetcam/camera.py:91 | two sorted arrangements of the same paths are equal, so the sort order is fully determined |
| Text.ParseInt | jetcam/camera.py:92 | the model's `int()` accepts exactly a non-empty string of ASCII decimal digits; a numeral without leading zeros is exactly `str()` of the value it reads, so with `ParseDecimal` the two are inverse |
| Text.Decimal | jetcam/camera.py:99 | `str()` of a width or height is a non-empty digit string without a leading zero |
| Text.ParseDecimal | jetcam/camera.py:99 | `int(str(n)) == n` |
| Text.Resolution | jetcam/camera.py:99 | `f"{w}x{h}"`: the string splits at its first `x` back into exactly the width and height, so it determines both |
| DropQueue.Push | jetcam/microphone.py:73-81 | one push keeps at most 100 blocks; the result is the newest 100 of the old queue followed by the block (append when there is room, drop exactly the oldest and then append when full) |
| DropQueue.PushAll | jetcam/microphone.py:73-81 | any run of pushes without reads leaves the newest 100 of the old queue followed by the pushed blocks, in order |
| DropQueue.OverflowKeepsLast | jetcam/microphone.py:25 | pushing 100+k blocks into the empty queue leaves exactly the last 100 pushed, in their original order |
| Microphone.IsRms | jetcam/microphone.py:70 | `np.sqrt(np.mean(indata ** 2))` as the non-negative root of the mean square of a non-empty block; such an rms is at most 1.0 exactly when the mean square is, so the clip applies exactly to blocks whose mean square exceeds 1.0 |
| Microphone.ClippedLevel | jetcam/microphone.py:72 | the level is `min(rms, 1.0)`: at most both, and equal to one of them |
| Microphone.ConstantBlockLevel | jetcam/microphone.py:70-72 | a block whose samples all equal c ≥ 0 has rms c and level min(c, 1.0) (0.5 gives 0.5, 2.0 gives 1.0) |
| Microphone.InRangeBlockUnclipped | jetcam/microphone.py:70-72 | for samples within [-1.0, 1.0] the rms is at most 1.0, so the level is the rms unclipped |
| Microphone.Microphone.constructor | jetcam/microphone.py:15-25 | a new microphone has no stream, is not running, has level 0.0 and an empty queue |
| Microphone.Microphone.IsRunning | jetcam/microphone.py:27-29 | `is_running` holds exactly when the microphone holds a stream |
| Microphone.Microphone.Level | jetcam/microphone.py:31-35 | the `level` property is always within [0.0, 1.0] |
| Microphone.Microphone.Start | jetcam/microphone.py:37-56 | running: returns self, no new stream and no call; query fails or stream creation fails: raises with nothing changed; `stream.start()` fails: raises with running set over an inactive stream; otherwise running over an active stream; queue and level are kept |
| Microphone.Microphone.Stop | jetcam/microphone.py:58-64 | afterwards not running and no stream; stops and closes only an existing stream, so a second stop makes no call and changes nothing |
| Microphone.Microphone.Callback | jetcam/microphone.py:66-81 | every block sets the level to the clipped rms, whether or not a block is dropped; the queue becomes `Push(old queue, block)` and stays within 100 blocks with the level in [0, 1] |
| Microphone.Microphone.Read | jetcam/microphone.py:83-88 | `None` with the queue unchanged when it is empty, otherwise the oldest block, removed from the front |
| Microphone.Microphone.Enter | jetcam/microphone.py:90-91 | entering a `with` block starts the microphone, with exactly the outcomes, state and calls `start` has |
| Microphone.Microphone.Exit | jetcam/microphone.py:93-94 | leaving a `with` block stops the microphone, with exactly the state and calls of `stop` |
| Microphone.ListDevices | jetcam/microphone.py:96-108 | lists exactly the table entries with more than zero input channels, in table order, each with its position in the full table and its name, channel count and sample rate copied |

## Left out

- Threads, locks, the daemon flag, `join(timeout=3)` and `time.sleep(0.001)`. Each lock-guarded block, each callback and each capture-loop pass is one atomic step. Interleavings, and what happens if the join times out, are not modelled.
- OpenCV and sounddevice themselves. Their results are parameters. The `cap.get` calls in `start` only feed a `print`, so they are neither modelled nor recorded.
- `print` diagnostics, including the callback's `status` report.
- The computation of rms with `np.sqrt` and `np.mean` over float32. Samples are reals, and rms is an argument tied to its block by being the non-negative root of the mean square. Floating-point rounding, NaN and infinity are not modelled.
- The `queue.Empty` branch of the callback (jetcam/microphone.py:80-81). It can only happen when another thread drains the queue between the failed put and the get.
- The timeout of `read`. The model pops at once or returns `None`.
- Camera.ListDevices: the glob result is an input. Its paths are required to begin with `/dev/video` and contain no further `/`, which is what `glob("/dev/video*")` returns; for such paths `replace` removes exactly the prefix.
- Text.ParseInt: Python's `int()` also accepts a leading sign, surrounding whitespace, underscores between digits and non-ASCII decimal digits; the model rejects such suffixes as it rejects any other non-numeral.
- Camera.ListDevices: each probe is a function of the device index. Two paths with the same index therefore probe alike.
- Camera.Camera.Start: the device is an integer index. OpenCV also accepts a path string, which is not modelled.
- The constructors' default arguments (`device=0, width=640, height=480, fps=30` and `device=None, samplerate=16000, channels=1, blocksize=1024`): every argument is passed explicitly. `Microphone.device` is an optional integer; sounddevice also accepts a device-name string, which is not modelled. `Probe` width and height are natural numbers, assuming `int(cap.get(...))` is never negative.
- The callback's `frames` and `time_info` arguments. They are not used by the source.
- examples/live_feed.py, examples/mic_test.py and jetcam/__init__.py. They are not part of this model.
