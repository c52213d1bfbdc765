/**
 * The frame queue between a capture worker and the display loop:
 * `queue.Queue(maxsize=1)`, used only through put_nowait and get_nowait.
 */
module FrameQueue {
  import opened Common

  /** A capacity-1 queue: empty, or holding one item. */
  class Mailbox<T> {
    var item: Option<T>

    constructor()
      ensures item.None?
    {
      item := None;
    }

    /**
     * put_nowait: a full queue raises Full, which every caller catches and
     * ignores, so the new item is dropped and the queued one kept.
     */
    method PutNowait(x: T) returns (full: bool)
      modifies this
      ensures full <==> old(item).Some?
      ensures item == (if full then old(item) else Some(x))
    {
      full := item.Some?;
      if !full {
        item := Some(x);
      }
    }

    /** get_nowait: the queued item, or None where the queue raises Empty; the queue is empty afterwards. */
    method GetNowait() returns (r: Option<T>)
      modifies this
      ensures r == old(item) && item.None?
    {
      r := item;
      item := None;
    }
  }

  /** The items currently queued, one slot per queue. */
  function Items<T>(qs: seq<Mailbox<T>>): (r: seq<Option<T>>)
    reads qs
    ensures |r| == |qs| && forall k :: 0 <= k < |qs| ==> r[k] == qs[k].item
  {
    seq(|qs|, k requires 0 <= k < |qs| reads qs => qs[k].item)
  }

  /** One queue per worker: no queue object is shared. */
  predicate Distinct<T>(qs: seq<Mailbox<T>>)
  {
    forall p, q :: 0 <= p < q < |qs| ==> qs[p] != qs[q]
  }
}
