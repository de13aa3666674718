/** The audio hand-off of `Microphone` (jetcam/microphone.py): a `queue.Queue(maxsize=100)`
    that the stream callback fills with a drop-oldest policy. The class keeps the queue as a
    `seq`; these functions give what one push, and a run of pushes, make of it. */
module DropQueue {

  /** `maxsize` of the audio queue. */
  const Capacity: nat := 100

  /** The newest `Capacity` elements of `s`, in their original order. */
  function Newest<T>(s: seq<T>): seq<T>
  {
    if |s| <= Capacity then s else s[|s| - Capacity..]
  }

  /** One callback's queue handling: `put_nowait`; on `queue.Full`, one `get_nowait`
      then `put_nowait`. The result is the newest window of the old queue and the block. */
  function Push<T>(q: seq<T>, x: T): (r: seq<T>)
    requires |q| <= Capacity
    ensures |r| <= Capacity
    ensures r == Newest(q + [x])
  {
    if |q| < Capacity then q + [x] else q[1..] + [x]
  }

  /** Keeping the newest window twice is keeping it once over the whole history. */
  lemma NewestAppend<T>(s: seq<T>, t: seq<T>)
    ensures Newest(Newest(s) + t) == Newest(s + t)
  {
  }

  /** A run of callbacks with no `read` in between. */
  function PushAll<T>(q: seq<T>, xs: seq<T>): (r: seq<T>)
    requires |q| <= Capacity
    ensures |r| <= Capacity
    ensures r == Newest(q + xs)
    decreases |xs|
  {
    if xs == [] then
      assert q + xs == q;
      q
    else
      var q' := Push(q, xs[0]);
      NewestAppend(q + [xs[0]], xs[1..]);
      assert q + [xs[0]] + xs[1..] == q + xs;
      PushAll(q', xs[1..])
  }

  /** Pushing `Capacity + k` blocks into an empty queue leaves exactly the last `Capacity`. */
  lemma OverflowKeepsLast<T>(xs: seq<T>)
    requires |xs| >= Capacity
    ensures |PushAll([], xs)| == Capacity
    ensures forall i :: 0 <= i < Capacity ==> PushAll([], xs)[i] == xs[|xs| - Capacity + i]
  {
  }
}
