/** jetcam/microphone.py: `Microphone`, whose input-stream callback keeps a loudness level
    and feeds a bounded queue of audio blocks that `read` drains, and `list_devices`, which
    keeps the input-capable entries of the device table.

    sounddevice is not modelled: the outcome of each call the microphone makes on it is a
    parameter, and the calls themselves are appended to `calls`. The callback and each
    lock-guarded block are one atomic method. Samples are real numbers, and the callback
    receives the block's root-mean-square alongside the block. */
module Microphone {
  import opened Wrappers
  import opened DropQueue

  /** An `indata` block: its float samples, all channels flattened. */
  type Block = seq<real>

  // ---------------------------------------------------------------------------
  // The level: min(sqrt(mean(indata ** 2)), 1.0)
  // ---------------------------------------------------------------------------

  function SumSquares(b: Block): real
  {
    if b == [] then 0.0 else SumSquares(b[..|b| - 1]) + b[|b| - 1] * b[|b| - 1]
  }

  function MeanSquare(b: Block): real
    requires b != []
  {
    SumSquares(b) / (|b| as real)
  }

  /** `rms` is `np.sqrt(np.mean(b ** 2))`: the non-negative square root of the mean square.
      Such an rms is at most 1.0 exactly when the mean square is, so the clip to 1.0
      applies exactly to blocks whose mean square exceeds 1.0. */
  ghost predicate IsRms(rms: real, b: Block)
    ensures IsRms(rms, b) ==> b != [] && (rms <= 1.0 <==> MeanSquare(b) <= 1.0)
  {
    if b != [] && rms >= 0.0 && rms * rms == MeanSquare(b) then
      RootAtMostOne(rms, MeanSquare(b));
      true
    else
      false
  }

  /** A non-negative root of `m` is at most 1.0 exactly when `m` is. */
  lemma RootAtMostOne(rms: real, m: real)
    requires rms >= 0.0 && rms * rms == m
    ensures rms <= 1.0 <==> m <= 1.0
  {
    if rms < 1.0 {
      SquareStrictlyMonotone(rms, 1.0);
    } else if rms > 1.0 {
      SquareStrictlyMonotone(1.0, rms);
    }
  }

  /** `min(float(rms), 1.0)`. */
  function ClippedLevel(rms: real): (l: real)
    ensures l <= rms && l <= 1.0
    ensures l == rms || l == 1.0
  {
    if 1.0 < rms then 1.0 else rms
  }

  function Constant(c: real, n: nat): Block
  {
    seq(n, _ => c)
  }

  lemma {:induction false} SumSquaresConstant(c: real, n: nat)
    ensures SumSquares(Constant(c, n)) == (n as real) * c * c
  {
    if n > 0 {
      assert Constant(c, n)[..n - 1] == Constant(c, n - 1);
      SumSquaresConstant(c, n - 1);
    }
  }

  lemma SquareStrictlyMonotone(a: real, b: real)
    requires 0.0 <= a < b
    ensures a * a < b * b
  {
    var aa, ab, bb := a * a, a * b, b * b;
    assert aa <= ab;
    assert ab < bb;
  }

  /** Two non-negative numbers with equal squares are equal. */
  lemma SquareRootUnique(x: real, y: real)
    requires x >= 0.0 && y >= 0.0 && x * x == y * y
    ensures x == y
  {
    if x < y {
      SquareStrictlyMonotone(x, y);
    } else if y < x {
      SquareStrictlyMonotone(y, x);
    }
  }

  /** A block whose samples all equal `c >= 0` has level `c`, clipped at 1.0: a block of
      0.5 gives 0.5, a block of 2.0 gives 1.0. */
  lemma ConstantBlockLevel(c: real, n: nat, rms: real)
    requires c >= 0.0 && n > 0 && IsRms(rms, Constant(c, n))
    ensures rms == c
    ensures ClippedLevel(rms) == if c <= 1.0 then c else 1.0
  {
    SumSquaresConstant(c, n);
    assert MeanSquare(Constant(c, n)) == c * c;
    SquareRootUnique(rms, c);
  }

  lemma {:induction false} SumSquaresBounded(b: Block)
    requires forall i :: 0 <= i < |b| ==> -1.0 <= b[i] <= 1.0
    ensures 0.0 <= SumSquares(b) <= |b| as real
  {
    if b != [] {
      var x := b[|b| - 1];
      SumSquaresBounded(b[..|b| - 1]);
      if x >= 0.0 { assert x * x <= x * 1.0; } else { assert x * x <= (-x) * 1.0; }
    }
  }

  /** For samples within [-1.0, 1.0] the clip never applies: the level is the rms itself. */
  lemma InRangeBlockUnclipped(b: Block, rms: real)
    requires IsRms(rms, b)
    requires forall i :: 0 <= i < |b| ==> -1.0 <= b[i] <= 1.0
    ensures rms <= 1.0 && ClippedLevel(rms) == rms
  {
    SumSquaresBounded(b);
    assert MeanSquare(b) <= 1.0;
  }

  // ---------------------------------------------------------------------------
  // The Microphone class
  // ---------------------------------------------------------------------------

  /** A `sd.InputStream`, and whether its `start()` succeeded. */
  datatype Stream = InputStream(active: bool)

  /** The calls a microphone makes on sounddevice, in the order made. */
  datatype AudioCall =
    | QueryDevice        // sd.query_devices(device, 'input')
    | CreateStream       // sd.InputStream(..., callback=_audio_callback)
    | StartStream        // _stream.start()
    | StopStream         // _stream.stop()
    | CloseStream        // _stream.close()

  /** What `start` raises: `query_devices` finds no such input device, or creating or
      starting the stream fails. */
  datatype AudioError = NoInputDevice | StreamFailed

  class Microphone {
    const device: Option<int>
    const samplerate: int
    const channels: int
    const blocksize: int

    var stream: Option<Stream>
    var running: bool
    var level: real
    /** `_audio_queue`, oldest block first. */
    var queue: seq<Block>
    var calls: seq<AudioCall>

    /** The queue is within its bound, the level within [0, 1], and a stream exists
        exactly while running. */
    ghost predicate Valid()
      reads this
    {
      && |queue| <= Capacity
      && 0.0 <= level <= 1.0
      && (running <==> stream.Some?)
    }

    constructor (device: Option<int>, samplerate: int, channels: int, blocksize: int)
      ensures Valid()
      ensures this.device == device && this.samplerate == samplerate
      ensures this.channels == channels && this.blocksize == blocksize
      ensures stream.None? && !running && level == 0.0 && queue == [] && calls == []
    {
      this.device := device;
      this.samplerate := samplerate;
      this.channels := channels;
      this.blocksize := blocksize;
      stream := None;
      running := false;
      level := 0.0;
      queue := [];
      calls := [];
    }

    /** `is_running`: true exactly when the microphone holds a stream. */
    function IsRunning(): (b: bool)
      reads this
      requires Valid()
      ensures b <==> stream.Some?
    {
      running
    }

    /** The `level` property, always within [0.0, 1.0]. */
    function Level(): (l: real)
      reads this
      requires Valid()
      ensures 0.0 <= l <= 1.0
    {
      level
    }

    /** `start`: a no-op returning `self` when running. Otherwise queries the device,
        creates the stream and starts it. A failed query or creation raises with nothing
        changed; a failed `start()` raises after `_running` was already set, leaving a
        running microphone over an inactive stream. The queue and level are kept. */
    method Start(found: bool, created: bool, started: bool) returns (r: Result<Microphone, AudioError>)
      requires Valid()
      modifies this
      ensures Valid() && queue == old(queue) && level == old(level)
      ensures old(running) ==>
        r == Ok(this) && running && stream == old(stream) && calls == old(calls)
      ensures !old(running) && !found ==>
        && r == Err(NoInputDevice) && !running && stream.None?
        && calls == old(calls) + [QueryDevice]
      ensures !old(running) && found && !created ==>
        && r == Err(StreamFailed) && !running && stream.None?
        && calls == old(calls) + [QueryDevice, CreateStream]
      ensures !old(running) && found && created ==>
        && (r == if started then Ok(this) else Err(StreamFailed))
        && running && stream == Some(InputStream(started))
        && calls == old(calls) + [QueryDevice, CreateStream, StartStream]
    {
      if running {
        return Ok(this);
      }
      calls := calls + [QueryDevice];
      if !found {
        return Err(NoInputDevice);
      }
      calls := calls + [CreateStream];
      if !created {
        return Err(StreamFailed);
      }
      stream := Some(InputStream(false));
      running := true;
      calls := calls + [StartStream];
      if !started {
        return Err(StreamFailed);
      }
      stream := Some(InputStream(true));
      r := Ok(this);
    }

    /** `stop`: clears the running flag and stops and closes the stream if there is one.
        Afterwards there is none, so a second `stop` makes no call and changes nothing. */
    method Stop()
      requires Valid()
      modifies this
      ensures Valid() && !running && stream.None?
      ensures queue == old(queue) && level == old(level)
      ensures calls == old(calls) + if old(stream).Some? then [StopStream, CloseStream] else []
    {
      running := false;
      if stream.Some? {
        calls := calls + [StopStream, CloseStream];
        stream := None;
      }
    }

    /** `_audio_callback` for one block whose rms is `rms`: the level becomes the clipped
        rms, whether or not a block is then dropped; the block joins the back of the
        queue, and if the queue was full its single oldest block is dropped first. */
    method Callback(block: Block, rms: real)
      requires Valid() && IsRms(rms, block)
      modifies this`level, this`queue
      ensures Valid()
      ensures level == ClippedLevel(rms)
      ensures queue == Push(old(queue), block)
    {
      level := if 1.0 < rms then 1.0 else rms;
      if |queue| < Capacity {
        queue := queue + [block];
      } else {
        queue := queue[1..];
        queue := queue + [block];
      }
    }

    /** `read`: the oldest queued block, removed, or `None` when the queue is empty. */
    method Read() returns (r: Option<Block>)
      requires Valid()
      modifies this`queue
      ensures Valid()
      ensures old(queue) == [] ==> r.None? && queue == []
      ensures old(queue) != [] ==> r == Some(old(queue)[0]) && queue == old(queue)[1..]
    {
      if queue == [] {
        return None;
      }
      r := Some(queue[0]);
      queue := queue[1..];
    }

    /** `__enter__`: `start`, with the same outcome. */
    method Enter(found: bool, created: bool, started: bool) returns (r: Result<Microphone, AudioError>)
      requires Valid()
      modifies this
      ensures Valid() && queue == old(queue) && level == old(level)
      ensures old(running) ==>
        r == Ok(this) && running && stream == old(stream) && calls == old(calls)
      ensures !old(running) && !found ==>
        && r == Err(NoInputDevice) && !running && stream.None?
        && calls == old(calls) + [QueryDevice]
      ensures !old(running) && found && !created ==>
        && r == Err(StreamFailed) && !running && stream.None?
        && calls == old(calls) + [QueryDevice, CreateStream]
      ensures !old(running) && found && created ==>
        && (r == if started then Ok(this) else Err(StreamFailed))
        && running && stream == Some(InputStream(started))
        && calls == old(calls) + [QueryDevice, CreateStream, StartStream]
    {
      r := Start(found, created, started);
    }

    /** `__exit__`: `stop`, on every way out of the `with` block. */
    method Exit()
      requires Valid()
      modifies this
      ensures Valid() && !running && stream.None?
      ensures queue == old(queue) && level == old(level)
      ensures calls == old(calls) + if old(stream).Some? then [StopStream, CloseStream] else []
    {
      Stop();
    }
  }

  // ---------------------------------------------------------------------------
  // list_devices
  // ---------------------------------------------------------------------------

  /** An entry of `sd.query_devices()`. */
  datatype DeviceInfo = DeviceInfo(name: string, maxInputChannels: int, defaultSamplerate: real)

  /** An entry of the returned list: `{"index", "name", "channels", "samplerate"}`. */
  datatype InputDevice = InputDevice(index: nat, name: string, channels: int, samplerate: real)

  /** `d` is the listing of entry `d.index` of `infos`, copied unchanged. */
  predicate Lists(infos: seq<DeviceInfo>, d: InputDevice)
  {
    && d.index < |infos|
    && infos[d.index].maxInputChannels > 0
    && d.name == infos[d.index].name
    && d.channels == infos[d.index].maxInputChannels
    && d.samplerate == infos[d.index].defaultSamplerate
  }

  /** `list_devices`: the entries with at least one input channel, in table order, each
      with its position in the full table. */
  method ListDevices(infos: seq<DeviceInfo>) returns (r: seq<InputDevice>)
    ensures forall k :: 0 <= k < |r| ==> Lists(infos, r[k])
    ensures forall k, l :: 0 <= k < l < |r| ==> r[k].index < r[l].index
    ensures forall i :: 0 <= i < |infos| && infos[i].maxInputChannels > 0 ==>
      exists k :: 0 <= k < |r| && r[k].index == i
  {
    r := [];
    for i := 0 to |infos|
      invariant forall k :: 0 <= k < |r| ==> Lists(infos, r[k]) && r[k].index < i
      invariant forall k, l :: 0 <= k < l < |r| ==> r[k].index < r[l].index
      invariant forall j :: 0 <= j < i && infos[j].maxInputChannels > 0 ==>
        exists k :: 0 <= k < |r| && r[k].index == j
    {
      var d := infos[i];
      if d.maxInputChannels > 0 {
        ghost var prev := r;
        r := r + [InputDevice(i, d.name, d.maxInputChannels, d.defaultSamplerate)];
        assert forall k :: 0 <= k < |prev| ==> r[k] == prev[k];
        assert r[|prev|].index == i;
      }
    }
  }
}
