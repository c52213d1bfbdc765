/**
 * The threaded multi-camera runner: one capture worker per camera feeds a
 * single-slot queue, and the display loop draws whatever each queue holds
 * into that camera position's tile of the viewport.
 */
module MultiCameraThreading {
  import opened Common
  import opened OutputNames
  import opened Tiling
  import opened FrameQueue
  import opened FlyCaptureUtils

  /** The video file of each worker, in the order of the camera numbers. */
  function WorkerOutfiles(base: Option<string>, camNums: seq<int>): (r: seq<Option<string>>)
    ensures |r| == |camNums|
    ensures forall k :: 0 <= k < |camNums| ==> r[k] == CamOutfile(base, camNums[k])
  {
    seq(|camNums|, k requires 0 <= k < |camNums| => CamOutfile(base, camNums[k]))
  }

  /** Workers for different cameras never write to the same file, and none writes without a base name. */
  lemma WorkerOutfilesDistinct(base: Option<string>, camNums: seq<int>, p: nat, q: nat)
    requires p < |camNums| && q < |camNums| && camNums[p] != camNums[q]
    ensures base.Some? ==> WorkerOutfiles(base, camNums)[p] != WorkerOutfiles(base, camNums)[q]
    ensures base.None? ==> WorkerOutfiles(base, camNums)[p].None?
  {
    if base.Some? && WorkerOutfiles(base, camNums)[p] == WorkerOutfiles(base, camNums)[q] {
      CamOutfileInjective(base.value, camNums[p], camNums[q]);
    }
  }

  /**
   * One pass of run_func's capture loop: getImage with its default
   * onError 'warn', and on success put_nowait of the converted frame
   * (`frame`, the display conversion of the image), dropped when the queue
   * is full.
   */
  method WorkerStep<T>(cam: Camera, queue: Mailbox<seq<seq<T>>>, acquired: Option<Image>, frame: seq<seq<T>>)
    modifies cam`written, cam`csvRows, queue
    ensures queue.item == (if acquired.Some? && old(queue.item).None? then Some(frame) else old(queue.item))
    ensures cam.written == old(cam.written) + (if acquired.Some? && cam.videoWriter.Some? then [acquired.value] else [])
    ensures cam.csvRows == old(cam.csvRows) +
              (if acquired.Some? && cam.videoWriter.Some? && cam.csvFile.Some? then [acquired.value] else [])
  {
    var got := cam.GetImage("warn", acquired);
    if got.Ok? && got.value.0 {
      var _ := queue.PutNowait(frame);
    }
  }

  /**
   * One pass of the display loop over positions 0 .. n-1. A dead worker
   * ends the loop at its position; otherwise its queue is emptied and a
   * frame found there is drawn into its tile. A frame that does not fit its
   * tile makes numpy raise, which the loop's handler turns into the end of
   * the loop. Esc (key 27) after a complete pass also ends it.
   */
  method DisplayTick<T>(viewport: array2<T>, queues: seq<Mailbox<seq<seq<T>>>>, alive: seq<bool>,
                        g: Grid, h: nat, w: nat, key: int) returns (keepGoing: bool)
    requires 1 <= |queues| && |alive| == |queues| && Distinct(queues)
    requires g == GridShape(|queues|)
    requires viewport.Length0 == h * g.rows && viewport.Length1 == w * g.cols
    modifies viewport, queues
    ensures var frames := old(Items(queues));
            var s := StopAt(alive, frames, h, w);
            (keepGoing <==> s == |queues| && key != 27) &&
            (forall p :: 0 <= p < |queues| ==>
               queues[p].item == (if p < s || (p == s && alive[p]) then None else frames[p])) &&
            forall r, c :: 0 <= r < viewport.Length0 && 0 <= c < viewport.Length1 ==>
              viewport[r, c] == Shown(old(viewport[r, c]), r, c, frames, s, g.cols, h, w)
  {
    ghost var frames := Items(queues);
    ghost var s := StopAt(alive, frames, h, w);
    ghost var orig := Pixels(viewport);
    GridCovers(|queues|);
    DrawnNothing(viewport, frames, g.cols, h, w);
    var k := 0;
    while k < |queues|
      invariant 0 <= k <= s
      invariant forall p :: 0 <= p < |queues| ==> queues[p].item == (if p < k then None else frames[p])
      invariant DrawnUpTo(viewport, orig, frames, k, g.cols, h, w)
    {
      if !alive[k] {
        return false;
      }
      var frame := queues[k].GetNowait();
      if frame.Some? && !Fits(frame.value, h, w) {
        return false;
      }
      DrawStep(viewport, orig, frames, k, frame, g, h, w);
      k := k + 1;
    }
    keepGoing := key != 27;
  }
}
