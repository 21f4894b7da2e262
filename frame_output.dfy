/**
 * The encoder's output sink: a single slot holding the most recent encoded
 * frame. Every write replaces the slot and wakes all waiting viewers; the
 * wake-up is modelled only as a counter of notifications.
 */
module FrameOutput {
  import opened Wrappers
  import opened Text

  /** The frame a viewer finds in the slot after the writes `history`, oldest first. */
  function Latest(history: seq<seq<byte>>): Option<seq<byte>> {
    if history == [] then None else Some(history[|history| - 1])
  }

  class CameraOutput {
    /** The slot; `None` until the encoder writes its first frame. */
    var frame: Option<seq<byte>>
    /** Every frame ever written, oldest first. */
    ghost var history: seq<seq<byte>>
    /** How many times all waiters have been woken. */
    ghost var notifications: nat

    ghost predicate Valid()
      reads this
    {
      notifications == |history| && frame == Latest(history)
    }

    constructor ()
      ensures Valid()
      ensures frame == None && history == [] && notifications == 0
    {
      frame := None;
      history := [];
      notifications := 0;
    }

    /** Stores `buf` as the latest frame, discarding the previous one, and wakes every waiter once. */
    method Write(buf: seq<byte>)
      requires Valid()
      modifies this
      ensures Valid()
      ensures frame == Some(buf)
      ensures history == old(history) + [buf]
      ensures notifications == old(notifications) + 1
    {
      frame := Some(buf);
      history := history + [buf];
      notifications := notifications + 1;
    }
  }

  /** No buffering: of two writes in a row, only the second can be seen. */
  lemma LatestOverwrites(history: seq<seq<byte>>, first: seq<byte>, second: seq<byte>)
    ensures Latest(history + [first] + [second]) == Some(second)
  {
  }
}
