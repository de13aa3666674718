/** jetcam/camera.py: `Camera`, which owns a V4L2 capture and a background thread that
    keeps overwriting one latest-frame slot, and `list_devices`, which probes the paths
    `/dev/video*` and reports those that open and deliver a frame.

    OpenCV is not modelled: the outcome of each call the camera makes on it is a
    parameter (`opens`, the `(ok, frame)` of a read, a probe per device index), and the
    calls themselves are appended to `calls` so that what was opened, spawned, joined and
    released can be stated. Each lock-guarded block and each pass of the capture loop is
    one atomic method. */
module Camera {
  import opened Wrappers
  import opened Text

  /** A `cv2.VideoCapture`: the device it was created for and whether `isOpened()` held. */
  datatype Capture = Capture(device: int, isOpen: bool)

  /** The `threading.Thread` running the capture loop. */
  datatype Thread = CaptureThread

  /** The properties `start` requests with `cap.set`. */
  datatype Property = FrameWidth | FrameHeight | Fps

  /** The calls a camera makes on OpenCV and on its thread, in the order made. */
  datatype VideoCall =
    | Open(device: int)               // cv2.VideoCapture(device, cv2.CAP_V4L2)
    | Set(property: Property, value: int)
    | SpawnThread                     // Thread(target=_capture_loop, daemon=True).start()
    | Read                            // _cap.read() in the capture loop
    | JoinThread                      // _thread.join(timeout=3)
    | Release                         // _cap.release()

  /** The `RuntimeError` raised by `start` when the device does not open. */
  datatype OpenError = CannotOpen(device: int)

  class Camera {
    const device: int
    const width: int
    const height: int
    const fps: int

    var cap: Option<Capture>
    /** The latest frame (a pixel buffer), `null` until the first successful read. */
    var frame: array?<bv8>
    var running: bool
    var thread: Option<Thread>
    var calls: seq<VideoCall>

    /** A capture thread exists exactly while running, and then the capture is open. */
    ghost predicate Valid()
      reads this
    {
      && (running <==> thread.Some?)
      && (running <==> cap == Some(Capture(device, true)))
      && (cap.Some? ==> cap.value.device == device)
    }

    constructor (device: int, width: int, height: int, fps: int)
      ensures Valid()
      ensures this.device == device && this.width == width
      ensures this.height == height && this.fps == fps
      ensures cap.None? && frame == null && !running && thread.None? && calls == []
    {
      this.device := device;
      this.width := width;
      this.height := height;
      this.fps := fps;
      cap := None;
      frame := null;
      running := false;
      thread := None;
      calls := [];
    }

    /** `is_running`: true exactly when a capture thread exists over an open capture. */
    function IsRunning(): (b: bool)
      reads this
      requires Valid()
      ensures b <==> thread.Some?
      ensures b <==> cap == Some(Capture(device, true))
    {
      running
    }

    /** The `frame` property: `None` before any frame, else a fresh copy of the latest
        one, so that changing the copy cannot change the stored frame. */
    method Frame() returns (r: array?<bv8>)
      ensures r == null <==> frame == null
      ensures r != null ==> fresh(r) && frame != null && r[..] == frame[..]
    {
      if frame == null {
        r := null;
      } else {
        var f := frame;
        r := new bv8[f.Length](i reads f requires 0 <= i < f.Length => f[i]);
      }
    }

    /** `start`: a no-op returning `self` when running; otherwise opens the device
        (raising, with the unopened capture left in `_cap`, if it does not open), requests
        the configured size and rate, and launches the capture thread. A capture left
        by an earlier failed `start` is replaced with no `release()` call made on it. */
    method Start(opens: bool) returns (r: Result<Camera, OpenError>)
      requires Valid()
      modifies this
      ensures Valid() && frame == old(frame)
      ensures old(running) ==>
        && r == Ok(this) && running
        && cap == old(cap) && thread == old(thread) && calls == old(calls)
      ensures !old(running) && !opens ==>
        && r == Err(CannotOpen(device)) && !running
        && cap == Some(Capture(device, false)) && thread.None?
        && calls == old(calls) + [Open(device)]
      ensures !old(running) && opens ==>
        && r == Ok(this) && running
        && cap == Some(Capture(device, true)) && thread == Some(CaptureThread)
        && calls == old(calls) + [Open(device), Set(FrameWidth, width), Set(FrameHeight, height),
                                  Set(Fps, fps), SpawnThread]
    {
      if running {
        return Ok(this);
      }
      cap := Some(Capture(device, opens));
      calls := calls + [Open(device)];
      if !opens {
        return Err(CannotOpen(device));
      }
      calls := calls + [Set(FrameWidth, width), Set(FrameHeight, height), Set(Fps, fps)];
      running := true;
      thread := Some(CaptureThread);
      calls := calls + [SpawnThread];
      r := Ok(this);
    }

    /** `stop`: clears the running flag, joins the thread if there is one and releases
        the capture if there is one. Afterwards neither exists, so a second `stop`
        makes no call and changes nothing. The latest frame is kept. */
    method Stop()
      requires Valid()
      modifies this
      ensures Valid() && !running && thread.None? && cap.None? && frame == old(frame)
      ensures calls == old(calls) + (if old(thread).Some? then [JoinThread] else [])
                                  + (if old(cap).Some? then [Release] else [])
    {
      running := false;
      var joined: seq<VideoCall> := [];
      if thread.Some? {
        joined := [JoinThread];
        thread := None;
      }
      var released: seq<VideoCall> := [];
      if cap.Some? {
        released := [Release];
        cap := None;
      }
      calls := calls + joined + released;
    }

    /** One pass of `_capture_loop`: the `while self._running` test, then one read whose
        outcome is `(ok, grabbed)`. A successful read replaces the latest frame; a failed
        one leaves it (the loop then sleeps); once `running` is cleared the loop exits
        without reading. Returns whether the pass ran. */
    method CaptureStep(ok: bool, grabbed: array<bv8>) returns (ran: bool)
      requires Valid()
      modifies this`frame, this`calls
      ensures ran == running
      ensures calls == old(calls) + (if running then [Read] else [])
      ensures frame == (if running && ok then grabbed else old(frame))
    {
      if !running {
        return false;
      }
      calls := calls + [Read];
      if ok {
        frame := grabbed;
      }
      ran := true;
    }

    /** `__enter__`: `start`, with the same outcome. */
    method Enter(opens: bool) returns (r: Result<Camera, OpenError>)
      requires Valid()
      modifies this
      ensures Valid() && frame == old(frame)
      ensures old(running) ==>
        && r == Ok(this) && running
        && cap == old(cap) && thread == old(thread) && calls == old(calls)
      ensures !old(running) && !opens ==>
        && r == Err(CannotOpen(device)) && !running
        && cap == Some(Capture(device, false)) && thread.None?
        && calls == old(calls) + [Open(device)]
      ensures !old(running) && opens ==>
        && r == Ok(this) && running
        && cap == Some(Capture(device, true)) && thread == Some(CaptureThread)
        && calls == old(calls) + [Open(device), Set(FrameWidth, width), Set(FrameHeight, height),
                                  Set(Fps, fps), SpawnThread]
    {
      r := Start(opens);
    }

    /** `__exit__`: `stop`, on every way out of the `with` block. */
    method Exit()
      requires Valid()
      modifies this
      ensures Valid() && !running && thread.None? && cap.None? && frame == old(frame)
      ensures calls == old(calls) + (if old(thread).Some? then [JoinThread] else [])
                                  + (if old(cap).Some? then [Release] else [])
    {
      Stop();
    }
  }

  // ---------------------------------------------------------------------------
  // list_devices
  // ---------------------------------------------------------------------------

  const VideoPrefix: string := "/dev/video"

  /** A path `glob("/dev/video*")` can return: the prefix, then no further `/`. For such a
      path, `path.replace("/dev/video", "")` is the part after the prefix. */
  predicate IsVideoPath(p: string)
  {
    |p| >= |VideoPrefix| && p[..|VideoPrefix|] == VideoPrefix && '/' !in p[|VideoPrefix|..]
  }

  /** `int(path.replace("/dev/video", ""))`, or `None` where `int` raises `ValueError`. */
  function IndexOfPath(p: string): Option<nat>
  {
    if |p| >= |VideoPrefix| && p[..|VideoPrefix|] == VideoPrefix
    then ParseInt(p[|VideoPrefix|..])
    else None
  }

  /** An index read from a path whose suffix has no leading zero gives the path back as
      `/dev/video{index}`. */
  lemma PathOfIndex(p: string)
    requires IndexOfPath(p).Some?
    requires |p| == |VideoPrefix| + 1 || p[|VideoPrefix|] != '0'
    ensures p == VideoPrefix + Decimal(IndexOfPath(p).value)
  {
  }

  /** The path of device `n` yields index `n`. */
  lemma IndexOfVideoPath(n: nat)
    ensures IndexOfPath(VideoPrefix + Decimal(n)) == Some(n)
  {
  }

  /** What probing one index gives: whether `isOpened()` held, whether `read()` returned
      a frame, and `int(cap.get(...))` of the width and height. */
  datatype Probe = Probe(isOpen: bool, readOk: bool, width: nat, height: nat)

  /** An entry of the returned list: `{"index", "path", "resolution"}`. */
  datatype VideoDevice = VideoDevice(index: nat, path: string, resolution: string)

  predicate Yields(pr: Probe)
  {
    pr.isOpen && pr.readOk
  }

  /** What the loop appends for one path whose index is `i`. */
  function Entry(p: string, i: nat, probe: nat -> Probe): seq<VideoDevice>
  {
    if Yields(probe(i)) then [VideoDevice(i, p, Resolution(probe(i).width, probe(i).height))]
    else []
  }

  /** The loop of `list_devices` over `paths` in the order probed: the devices found, or
      the first path whose suffix `int` rejects; and the indices released so far. */
  function Discover(paths: seq<string>, probe: nat -> Probe): (r: (Result<seq<VideoDevice>, string>, seq<nat>))
    ensures r.0.Ok? ==> |r.0.value| <= |paths|
    ensures |r.1| <= |paths|
    decreases |paths|
  {
    if paths == [] then (Ok([]), [])
    else
      var (prev, released) := Discover(paths[..|paths| - 1], probe);
      var p := paths[|paths| - 1];
      if prev.Err? then (prev, released)
      else match IndexOfPath(p)
        case None => (Err(p), released)
        case Some(i) =>
          (Ok(prev.value + Entry(p, i, probe)), released + if probe(i).isOpen then [i] else [])
  }

  /** One more path probed: the loop's step, unfolded once. */
  lemma DiscoverStep(paths: seq<string>, k: nat, probe: nat -> Probe)
    requires k < |paths| && Discover(paths[..k], probe).0.Ok?
    ensures IndexOfPath(paths[k]).None? ==>
      Discover(paths[..k + 1], probe) == (Err(paths[k]), Discover(paths[..k], probe).1)
    ensures IndexOfPath(paths[k]).Some? ==>
      var i := IndexOfPath(paths[k]).value;
      Discover(paths[..k + 1], probe) ==
        (Ok(Discover(paths[..k], probe).0.value + Entry(paths[k], i, probe)),
         Discover(paths[..k], probe).1 + if probe(i).isOpen then [i] else [])
  {
    assert paths[..k + 1][..k] == paths[..k] && paths[..k + 1][k] == paths[k];
  }

  /** Once a path fails to parse, the remaining paths are never probed. */
  lemma {:induction false} DiscoverStopsAtError(paths: seq<string>, k: nat, probe: nat -> Probe)
    requires k <= |paths| && Discover(paths[..k], probe).0.Err?
    ensures Discover(paths, probe) == Discover(paths[..k], probe)
    decreases |paths| - k
  {
    if k < |paths| {
      assert paths[..k + 1][..k] == paths[..k];
      DiscoverStopsAtError(paths, k + 1, probe);
    } else {
      assert paths[..k] == paths;
    }
  }

  /** `list_devices`: probes the globbed paths in sorted order; returns the devices found
      and the indices whose probe was released, or `Err(path)` for the `ValueError` of
      the first path whose suffix is not a number. */
  method ListDevices(globbed: seq<string>, probe: nat -> Probe)
    returns (r: Result<seq<VideoDevice>, string>, released: seq<nat>)
    requires forall p :: p in globbed ==> IsVideoPath(p)
    ensures (r, released) == Discover(SortPaths(globbed), probe)
  {
    var paths := SortPaths(globbed);
    var devices: seq<VideoDevice> := [];
    released := [];
    var k := 0;
    while k < |paths|
      invariant 0 <= k <= |paths|
      invariant Discover(paths[..k], probe) == (Ok(devices), released)
    {
      var path := paths[k];
      DiscoverStep(paths, k, probe);
      var idx := IndexOfPath(path);
      if idx.None? {
        DiscoverStopsAtError(paths, k + 1, probe);
        return Err(path), released;
      }
      ghost var before, releasedBefore := devices, released;
      var pr := probe(idx.value);
      if pr.isOpen {
        if pr.readOk {
          devices := devices + [VideoDevice(idx.value, path, Resolution(pr.width, pr.height))];
        }
        released := released + [idx.value];
      }
      assert devices == before + Entry(path, idx.value, probe);
      assert released == releasedBefore + if pr.isOpen then [idx.value] else [];
      k := k + 1;
    }
    assert paths[..k] == paths;
    r := Ok(devices);
  }
}

module CameraDiscovery {
  import opened Wrappers
  import opened Text
  import opened Camera

  /** `d` describes the device at `d.path`: its index is the path's suffix, its probe
      opened and read a frame, and its resolution is the probe's "WxH". */
  predicate Describes(d: VideoDevice, probe: nat -> Probe)
  {
    && IndexOfPath(d.path) == Some(d.index)
    && Yields(probe(d.index))
    && d.resolution == Resolution(probe(d.index).width, probe(d.index).height)
  }

  /** Probing fails exactly when some path's suffix is not a number, and then with the
      first such path. */
  lemma {:induction false} DiscoverFails(paths: seq<string>, probe: nat -> Probe)
    ensures Discover(paths, probe).0.Ok? <==> forall k :: 0 <= k < |paths| ==> IndexOfPath(paths[k]).Some?
    ensures Discover(paths, probe).0.Err? ==>
      exists k :: 0 <= k < |paths| && paths[k] == Discover(paths, probe).0.error
        && IndexOfPath(paths[k]).None? && forall j :: 0 <= j < k ==> IndexOfPath(paths[j]).Some?
  {
    if paths != [] {
      var init := paths[..|paths| - 1];
      DiscoverFails(init, probe);
      assert forall k :: 0 <= k < |init| ==> init[k] == paths[k];
    }
  }

  /** With every suffix a number, the devices found are exactly the probed paths that
      open and read a frame, each described by its probe. */
  lemma {:induction false} DiscoverFinds(paths: seq<string>, probe: nat -> Probe)
    requires Discover(paths, probe).0.Ok?
    ensures forall d :: d in Discover(paths, probe).0.value <==>
      (d.path in paths && Describes(d, probe))
  {
    if paths != [] {
      var init, p := paths[..|paths| - 1], paths[|paths| - 1];
      var prev := Discover(init, probe).0;
      assert prev.Ok?;
      var i := IndexOfPath(p).value;
      var found := Discover(paths, probe).0.value;
      assert found == prev.value + Entry(p, i, probe);
      DiscoverFinds(init, probe);
      assert paths == init + [p];
      forall d ensures d in found <==> (d.path in paths && Describes(d, probe)) {
        assert d in found <==> d in prev.value || d in Entry(p, i, probe);
        assert d in Entry(p, i, probe) <==> d.path == p && Describes(d, probe);
        assert d.path in paths <==> d.path in init || d.path == p;
      }
    }
  }

  /** The suffixes of `paths[0]` through `paths[k]` are all numbers. */
  predicate PrefixParses(paths: seq<string>, k: int)
    requires k < |paths|
  {
    forall j :: 0 <= j <= k ==> IndexOfPath(paths[j]).Some?
  }

  /** Every released index is one whose probe opened, and with every suffix a number,
      every opened probe is released. */
  lemma {:induction false} DiscoverReleases(paths: seq<string>, probe: nat -> Probe)
    ensures forall i :: i in Discover(paths, probe).1 ==>
      probe(i).isOpen && exists p :: p in paths && IndexOfPath(p) == Some(i)
    ensures Discover(paths, probe).0.Ok? ==>
      forall p :: p in paths && IndexOfPath(p).Some? && probe(IndexOfPath(p).value).isOpen ==>
        IndexOfPath(p).value in Discover(paths, probe).1
  {
    if paths != [] {
      var init, p := paths[..|paths| - 1], paths[|paths| - 1];
      DiscoverReleases(init, probe);
      assert paths == init + [p];
    }
  }

  /** Releases are only ever appended: what a prefix released, the whole run released. */
  lemma ReleasesExtend(paths: seq<string>, probe: nat -> Probe)
    requires paths != []
    ensures forall i :: i in Discover(paths[..|paths| - 1], probe).1 ==> i in Discover(paths, probe).1
  {
  }

  /** Every probe that opened on a path the loop reached is released, including the
      probes before a path whose suffix `int` rejects. */
  lemma {:induction false} DiscoverReleasesReached(paths: seq<string>, probe: nat -> Probe)
    ensures forall k :: 0 <= k < |paths| && PrefixParses(paths, k) && probe(IndexOfPath(paths[k]).value).isOpen ==>
      IndexOfPath(paths[k]).value in Discover(paths, probe).1
  {
    if paths != [] {
      var init, p := paths[..|paths| - 1], paths[|paths| - 1];
      DiscoverReleasesReached(init, probe);
      ReleasesExtend(paths, probe);
      forall k | 0 <= k < |paths| && PrefixParses(paths, k) && probe(IndexOfPath(paths[k]).value).isOpen
        ensures IndexOfPath(paths[k]).value in Discover(paths, probe).1
      {
        if k < |init| {
          assert init[k] == paths[k];
          assert PrefixParses(init, k);
        } else {
          DiscoverFails(init, probe);
          assert forall j :: 0 <= j < |init| ==> init[j] == paths[j];
          assert Discover(init, probe).0.Ok?;
        }
      }
    }
  }

  /** Devices come out in the order their paths were probed. */
  lemma {:induction false} DiscoverKeepsOrder(paths: seq<string>, probe: nat -> Probe)
    requires Sorted(paths) && Discover(paths, probe).0.Ok?
    ensures var ds := Discover(paths, probe).0.value;
      forall i, j :: 0 <= i < j < |ds| ==> LexLe(ds[i].path, ds[j].path)
  {
    if paths != [] {
      var init, p := paths[..|paths| - 1], paths[|paths| - 1];
      assert Sorted(init);
      DiscoverKeepsOrder(init, probe);
      DiscoverFinds(init, probe);
      var ds := Discover(paths, probe).0.value;
      var prev := Discover(init, probe).0.value;
      forall i, j | 0 <= i < j < |ds| ensures LexLe(ds[i].path, ds[j].path) {
        if j >= |prev| {
          assert ds[j].path == p;
          assert ds[i] in prev;
          var k :| 0 <= k < |init| && init[k] == ds[i].path;
          assert paths[k] == init[k];
        }
      }
    }
  }

  /** On paths without repeats, no two devices share a path: each path is listed at
      most once. */
  lemma {:induction false} DiscoverListsOnce(paths: seq<string>, probe: nat -> Probe)
    requires Distinct(paths) && Discover(paths, probe).0.Ok?
    ensures var ds := Discover(paths, probe).0.value;
      forall i, j :: 0 <= i < j < |ds| ==> ds[i].path != ds[j].path
  {
    if paths != [] {
      var init, p := paths[..|paths| - 1], paths[|paths| - 1];
      assert Distinct(init) by {
        assert forall k :: 0 <= k < |init| ==> init[k] == paths[k];
      }
      DiscoverListsOnce(init, probe);
      DiscoverFinds(init, probe);
      var ds := Discover(paths, probe).0.value;
      var prev := Discover(init, probe).0.value;
      forall i, j | 0 <= i < j < |ds| ensures ds[i].path != ds[j].path {
        if j >= |prev| {
          assert ds[j].path == p;
          assert ds[i] in prev;
          var k :| 0 <= k < |init| && init[k] == ds[i].path;
          assert paths[k] == init[k];
        }
      }
    }
  }

  /** `list_devices` on the globbed paths: when no path is rejected, the result lists
      exactly the globbed paths that open and read a frame, each with its index and
      resolution, in Python's string order of their paths, and, as the globbed paths
      have no repeats, each of them once. */
  lemma ListedDevices(globbed: seq<string>, probe: nat -> Probe)
    requires Discover(SortPaths(globbed), probe).0.Ok?
    ensures var ds := Discover(SortPaths(globbed), probe).0.value;
      && (forall d :: d in ds <==> d.path in globbed && Describes(d, probe))
      && (forall i, j :: 0 <= i < j < |ds| ==> LexLe(ds[i].path, ds[j].path))
      && (Distinct(globbed) ==> forall i, j :: 0 <= i < j < |ds| ==> ds[i].path != ds[j].path)
  {
    var paths := SortPaths(globbed);
    DiscoverFinds(paths, probe);
    DiscoverKeepsOrder(paths, probe);
    if Distinct(globbed) {
      SortKeepsDistinct(globbed);
      DiscoverListsOnce(paths, probe);
    }
    forall p ensures p in paths <==> p in globbed {
      assert p in paths <==> p in multiset(paths);
      assert p in globbed <==> p in multiset(globbed);
    }
  }
}
