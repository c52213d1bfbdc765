/**
 * The serial multi-camera runner: the main loop polls each camera in turn
 * and draws every image it gets into that camera's tile of the viewport.
 */
module MultiCameraSeries {
  import opened Common
  import opened OutputNames
  import opened Tiling
  import opened FlyCaptureUtils

  /** The cameras are distinct objects. */
  predicate DistinctCams(cams: seq<Camera>)
  {
    forall p, q :: 0 <= p < q < |cams| ==> cams[p] != cams[q]
  }

  /** The camera objects of a list, as a frame. */
  function CamSet(cams: seq<Camera>): set<Camera>
    ensures forall p :: 0 <= p < |cams| ==> cams[p] in CamSet(cams)
  {
    set cam | cam in cams
  }

  /** The file a camera's writer is opened on, when the run has a base outfile. */
  function SetupFile(base: Option<string>, camNum: int, args: WriterArgs, existing: set<string>): Option<string>
  {
    if base.None? then None
    else
      var plan := WriterPlan(CamOutfile(base, camNum).value, args.fileFormat, args.overwrite, existing);
      if plan.Ok? then Some(plan.value.0) else None
  }

  /**
   * What set-up leaves in one camera: connected, not capturing, and with a
   * writer exactly when the run saves video, open on `file`.
   */
  ghost predicate SetUp(cam: Camera, camNum: int, saving: bool, file: Option<string>)
    reads cam
  {
    cam.Valid() && cam.camNum == camNum && !cam.captureIsOn &&
    (cam.videoWriter.Some? <==> saving) &&
    (saving ==> file.Some? && cam.videoWriter.value.file == file.value)
  }

  /**
   * openVideoWriter called with the series' writer arguments: it fails
   * exactly with WriterFailure, and on success the writer is open on the
   * planned file.
   */
  method OpenWithArgs(cam: Camera, file: string, args: WriterArgs, existing: set<string>,
                      available: seq<(string, bool)>)
    returns (r: Result<string>)
    requires cam.Valid() && DistinctKeys(available)
    modifies cam`videoWriter, cam`fileFormat, cam`csvFile, cam`writerIsOpen, cam`calls
    ensures cam.Valid()
    ensures r.Ok? ==> WriterPlan(file, args.fileFormat, args.overwrite, existing).Ok? &&
                      r.value == WriterPlan(file, args.fileFormat, args.overwrite, existing).value.0 &&
                      cam.videoWriter.Some? && cam.videoWriter.value.file == r.value
    ensures r.Err? <==> WriterFailure(file, args, existing, available).Some?
    ensures r.Err? ==> r.error == WriterFailure(file, args, existing, available).value
  {
    r := cam.OpenVideoWriter(file, args.fileFormat, args.overwrite, args.quality, args.bitrate,
                             args.imgSize, args.embed, args.csvTimestamps, existing, available);
  }

  /**
   * The error one iteration of the set-up loop raises, if any: the
   * camera's construction error, else, when a base outfile is given, the
   * error opening its writer.
   */
  function SetupError(camNum: int, base: Option<string>, mode: ModeArg, videoModes: seq<(string, int)>,
                      args: WriterArgs, existing: set<string>, available: seq<(string, bool)>)
    : (r: Option<Error>)
    requires DistinctKeys(available)
    ensures ConfiguredImgSize(mode, videoModes).Err? ==> r == Some(ConfiguredImgSize(mode, videoModes).error)
    ensures base.None? ==> (r.None? <==> ConfiguredImgSize(mode, videoModes).Ok?)
    ensures base.Some? && r.None? ==> SetupFile(base, camNum, args, existing).Some?
  {
    if ConfiguredImgSize(mode, videoModes).Err? then Some(ConfiguredImgSize(mode, videoModes).error)
    else if base.Some? then WriterFailure(CamOutfile(base, camNum).value, args, existing, available)
    else None
  }

  /** The set-up error of each camera number, in order. */
  function SetupErrors(camNums: seq<int>, base: Option<string>, mode: ModeArg, videoModes: seq<(string, int)>,
                       args: WriterArgs, existing: set<string>, available: seq<(string, bool)>)
    : (r: seq<Option<Error>>)
    requires DistinctKeys(available)
    ensures |r| == |camNums| &&
            forall p :: 0 <= p < |camNums| ==> r[p] == SetupError(camNums[p], base, mode, videoModes, args, existing, available)
  {
    seq(|camNums|, p requires 0 <= p < |camNums| => SetupError(camNums[p], base, mode, videoModes, args, existing, available))
  }

  /** One iteration of the set-up loop: connect, then open the writer when a base outfile is given. */
  method SetupOne(camNum: int, base: Option<string>, mode: ModeArg, videoModes: seq<(string, int)>,
                  args: WriterArgs, existing: set<string>, available: seq<(string, bool)>)
    returns (r: Result<Camera>)
    requires DistinctKeys(available)
    ensures r.Err? <==> SetupError(camNum, base, mode, videoModes, args, existing, available).Some?
    ensures r.Err? ==> r.error == SetupError(camNum, base, mode, videoModes, args, existing, available).value
    ensures r.Ok? ==> fresh(r.value) && SetUp(r.value, camNum, base.Some?, SetupFile(base, camNum, args, existing))
  {
    var c := Camera.Connect(camNum, mode, videoModes);
    if c.Err? {
      return Err(c.error);
    }
    var cam := c.value;
    if base.Some? {
      var outfile := CamOutfile(base, camNum).value;
      var res := OpenWithArgs(cam, outfile, args, existing, available);
      if res.Err? {
        return Err(res.error);
      }
      assert SetupFile(base, camNum, args, existing) == Some(res.value);
    }
    return Ok(cam);
  }

  /** The file each camera's writer is opened on, in the order of the camera numbers. */
  function SetupFiles(base: Option<string>, camNums: seq<int>, args: WriterArgs, existing: set<string>): (fs: seq<Option<string>>)
    ensures |fs| == |camNums|
  {
    seq(|camNums|, k requires 0 <= k < |camNums| => SetupFile(base, camNums[k], args, existing))
  }

  /** Set-up so far: distinct cameras, the k-th one set up for the k-th camera number and the k-th file. */
  ghost predicate AllSetUp(cams: seq<Camera>, camNums: seq<int>, saving: bool, files: seq<Option<string>>)
    reads set cam | cam in cams
  {
    |cams| <= |camNums| && |cams| <= |files| && DistinctCams(cams) &&
    forall p :: 0 <= p < |cams| ==> SetUp(cams[p], camNums[p], saving, files[p])
  }

  lemma AllSetUpAppend(cams: seq<Camera>, camNums: seq<int>, saving: bool, files: seq<Option<string>>, cam: Camera)
    requires AllSetUp(cams, camNums, saving, files) && cam !in cams
    requires |cams| < |camNums| && |cams| < |files|
    requires SetUp(cam, camNums[|cams|], saving, files[|cams|])
    ensures AllSetUp(cams + [cam], camNums, saving, files)
  {
  }

  /**
   * The set-up loop: connect each camera in order, and when a base outfile
   * is given open its writer on root + '-cam' + n + ext. The first failure
   * ends the set-up.
   */
  method SeriesSetup(camNums: seq<int>, base: Option<string>, mode: ModeArg, videoModes: seq<(string, int)>,
                     args: WriterArgs, existing: set<string>, available: seq<(string, bool)>)
    returns (r: Result<seq<Camera>>)
    requires DistinctKeys(available)
    ensures var errs := SetupErrors(camNums, base, mode, videoModes, args, existing, available);
            var f := FirstSome(errs);
            (r.Ok? <==> f == |camNums|) && (r.Err? ==> r.error == errs[f].value)
    ensures r.Ok? ==> |r.value| == |camNums| && AllSetUp(r.value, camNums, base.Some?, SetupFiles(base, camNums, args, existing))
  {
    ghost var files := SetupFiles(base, camNums, args, existing);
    ghost var errs := SetupErrors(camNums, base, mode, videoModes, args, existing, available);
    var cams: seq<Camera> := [];
    var k := 0;
    while k < |camNums|
      invariant k == |cams| && AllSetUp(cams, camNums, base.Some?, files)
      invariant NoneBefore(errs, k)
    {
      var c := SetupOne(camNums[k], base, mode, videoModes, args, existing, available);
      assert errs[k] == SetupError(camNums[k], base, mode, videoModes, args, existing, available);
      if c.Err? {
        FirstSomeAt(errs, k);
        return Err(c.error);
      }
      NoneBeforeStep(errs, k);
      AllSetUpAppend(cams, camNums, base.Some?, files, c.value);
      cams := cams + [c.value];
      k := k + 1;
    }
    FirstSomeAt(errs, k);
    return Ok(cams);
  }

  /** The start loop: startCapture on every camera. */
  method SeriesStart(cams: seq<Camera>)
    requires DistinctCams(cams)
    modifies CamSet(cams)`captureIsOn, CamSet(cams)`calls
    ensures forall p :: 0 <= p < |cams| ==> cams[p].captureIsOn && cams[p].calls == old(cams[p].calls) + [SdkStart]
  {
    var k := 0;
    while k < |cams|
      invariant 0 <= k <= |cams|
      invariant forall p :: 0 <= p < |cams| ==>
                  if p < k then cams[p].captureIsOn && cams[p].calls == old(cams[p].calls) + [SdkStart]
                  else cams[p].calls == old(cams[p].calls)
    {
      cams[k].StartCapture();
      k := k + 1;
    }
  }

  /** What getImage hands the drawing loop: the converted frame when an image was acquired. */
  function Acquired<T>(acquired: seq<Option<Image>>, arrays: seq<seq<seq<T>>>): (frames: seq<Option<seq<seq<T>>>>)
    requires |arrays| == |acquired|
    ensures |frames| == |acquired|
    ensures forall k :: 0 <= k < |acquired| ==> (frames[k].Some? <==> acquired[k].Some?)
    ensures forall k :: 0 <= k < |acquired| && frames[k].Some? ==> frames[k].value == arrays[k]
  {
    seq(|acquired|, k requires 0 <= k < |acquired| => if acquired[k].Some? then Some(arrays[k]) else None)
  }

  function AllAlive(n: nat): (r: seq<bool>)
    ensures |r| == n && forall k :: 0 <= k < n ==> r[k]
  {
    seq(n, _ => true)
  }

  /**
   * Camera c was polled (or not) in this pass: when polled and an image
   * arrived, its writer got the image and its csv file the timestamp row,
   * each only when open; otherwise both are as they were.
   */
  ghost predicate Polled(c: Camera, written0: seq<Image>, rows0: seq<Image>, acquired: Option<Image>, polled: bool)
    reads c
  {
    c.written == written0 + (if polled && acquired.Some? && c.videoWriter.Some? then [acquired.value] else []) &&
    c.csvRows == rows0 +
      (if polled && acquired.Some? && c.videoWriter.Some? && c.csvFile.Some? then [acquired.value] else [])
  }

  /** getImage with its default onError 'warn': the converted frame when an image arrived, None otherwise. */
  method PollCamera<T>(cam: Camera, acquired: Option<Image>, arr: seq<seq<T>>) returns (frame: Option<seq<seq<T>>>)
    modifies cam`written, cam`csvRows
    ensures frame == (if acquired.Some? then Some(arr) else None)
    ensures cam.written == old(cam.written) + (if acquired.Some? && cam.videoWriter.Some? then [acquired.value] else [])
    ensures cam.csvRows == old(cam.csvRows) +
              (if acquired.Some? && cam.videoWriter.Some? && cam.csvFile.Some? then [acquired.value] else [])
  {
    var got := cam.GetImage("warn", acquired);
    frame := if got.Ok? && got.value.0 then Some(arr) else None;
  }

  /**
   * One camera's turn in the main loop: getImage, and when it succeeded
   * the frame is drawn into tile k. A frame that does not fit the tile
   * makes numpy raise (`fits` is false) before anything is drawn.
   */
  method DrawCamera<T>(viewport: array2<T>, ghost orig: seq<seq<T>>, ghost frames: seq<Option<seq<seq<T>>>>,
                       cam: Camera, k: nat, acquired: Option<Image>, arr: seq<seq<T>>, g: Grid, h: nat, w: nat)
    returns (fits: bool)
    requires g.cols >= 1 && k < |frames| && k < g.rows * g.cols
    requires frames[k] == (if acquired.Some? then Some(arr) else None)
    requires forall p :: 0 <= p < k && frames[p].Some? ==> Fits(frames[p].value, h, w)
    requires viewport.Length0 == h * g.rows && viewport.Length1 == w * g.cols
    requires |orig| == viewport.Length0 && forall y :: 0 <= y < viewport.Length0 ==> |orig[y]| == viewport.Length1
    requires DrawnUpTo(viewport, orig, frames, k, g.cols, h, w)
    modifies viewport, cam`written, cam`csvRows
    ensures Polled(cam, old(cam.written), old(cam.csvRows), acquired, true)
    ensures fits <==> !(acquired.Some? && !Fits(arr, h, w))
    ensures fits ==> DrawnUpTo(viewport, orig, frames, k + 1, g.cols, h, w)
    ensures !fits ==> unchanged(viewport)
  {
    var frame := PollCamera(cam, acquired, arr);
    if frame.Some? && !Fits(frame.value, h, w) {
      return false;
    }
    DrawStep(viewport, orig, frames, k, frame, g, h, w);
    return true;
  }

  /**
   * One pass of the main loop: getImage on each camera in list order
   * (`acquired` is what the SDK delivers, `arrays` the display conversion
   * of each image) and the frame drawn into the camera's tile when getImage
   * succeeded. A frame that does not fit its tile makes numpy raise, which
   * ends the runner; otherwise Esc (key 27) ends the loop.
   */
  method SeriesTick<T>(viewport: array2<T>, cams: seq<Camera>, acquired: seq<Option<Image>>,
                       arrays: seq<seq<seq<T>>>, g: Grid, h: nat, w: nat, key: int)
    returns (r: Result<bool>)
    requires 1 <= |cams| && |acquired| == |cams| && |arrays| == |cams| && DistinctCams(cams)
    requires g == GridShape(|cams|) && cams[0].imgSize == (w, h)
    requires viewport.Length0 == h * g.rows && viewport.Length1 == w * g.cols
    modifies viewport, CamSet(cams)`written, CamSet(cams)`csvRows
    ensures var frames := Acquired(acquired, arrays);
            var s := StopAt(AllAlive(|cams|), frames, h, w);
            (r.Err? <==> s < |cams|) && (r.Err? ==> r.error == ValueError) &&
            (r.Ok? ==> r.value == (key != 27)) &&
            (forall p :: 0 <= p < |cams| ==>
               Polled(cams[p], old(cams[p].written), old(cams[p].csvRows), acquired[p], p <= s)) &&
            forall y, x :: 0 <= y < viewport.Length0 && 0 <= x < viewport.Length1 ==>
              viewport[y, x] == Shown(old(viewport[y, x]), y, x, frames, s, g.cols, h, w)
  {
    ghost var frames := Acquired(acquired, arrays);
    ghost var s := StopAt(AllAlive(|cams|), frames, h, w);
    ghost var orig := Pixels(viewport);
    GridCovers(|cams|);
    DrawnNothing(viewport, frames, g.cols, h, w);
    var k := 0;
    while k < |cams|
      invariant 0 <= k <= s
      invariant |orig| == viewport.Length0 && forall y :: 0 <= y < viewport.Length0 ==> |orig[y]| == viewport.Length1
      invariant forall p :: 0 <= p < |cams| ==> Polled(cams[p], old(cams[p].written), old(cams[p].csvRows), acquired[p], p < k)
      invariant DrawnUpTo(viewport, orig, frames, k, g.cols, h, w)
    {
      var fits := DrawCamera(viewport, orig, frames, cams[k], k, acquired[k], arrays[k], g, h, w);
      if !fits {
        return Err(ValueError);
      }
      k := k + 1;
    }
    return Ok(key != 27);
  }

  /**
   * After the loop: stopCapture then close on every camera in order, so
   * each camera is stopped exactly once, its writer closed if it was open,
   * and disconnected.
   */
  method SeriesShutdown(cams: seq<Camera>)
    requires DistinctCams(cams) && forall p :: 0 <= p < |cams| ==> cams[p].Valid()
    modifies CamSet(cams)`captureIsOn, CamSet(cams)`writerIsOpen, CamSet(cams)`calls
    ensures forall p :: 0 <= p < |cams| ==>
              cams[p].Valid() && !cams[p].captureIsOn && !cams[p].writerIsOpen &&
              cams[p].calls == old(cams[p].calls) + [SdkStop] +
                (if old(cams[p].writerIsOpen) then [SdkCloseWriter] + (if cams[p].csvFile.Some? then [SdkCloseCsv] else [])
                 else []) +
                [SdkDisconnect]
  {
    var k := 0;
    while k < |cams|
      invariant 0 <= k <= |cams|
      invariant forall p :: 0 <= p < |cams| ==> cams[p].Valid()
      invariant forall p :: 0 <= p < |cams| ==> cams[p].writerIsOpen == (if p < k then false else old(cams[p].writerIsOpen))
      invariant forall p :: k <= p < |cams| ==> cams[p].calls == old(cams[p].calls)
      invariant forall p :: 0 <= p < k ==>
                  !cams[p].captureIsOn &&
                  cams[p].calls == old(cams[p].calls) + [SdkStop] +
                    (if old(cams[p].writerIsOpen) then [SdkCloseWriter] + (if cams[p].csvFile.Some? then [SdkCloseCsv] else [])
                     else []) +
                    [SdkDisconnect]
    {
      cams[k].StopCapture();
      cams[k].Close();
      k := k + 1;
    }
  }
}
