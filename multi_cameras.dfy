/**
 * The synchronised multi-camera runner: one capture thread per camera puts
 * into a capacity-1 queue, and the display loop copies whatever each queue
 * holds into that camera's slot of an nRows*nCols slot array, shown as a
 * row-major grid. Its command line checks the writer arguments before
 * anything is opened.
 */
module MultiCameras {
  import opened Common
  import opened OutputNames
  import opened Tiling
  import opened FrameQueue
  import opened FlyCaptureUtils

  // ---------------------------------------------------------------------
  // Per-camera output files
  // ---------------------------------------------------------------------

  /** str(n).join(os.path.splitext(outfile)) for each camera, when the outfile is truthy. */
  function CameraOutfiles(outfile: Option<string>, camNums: seq<int>): (r: seq<Option<string>>)
    ensures |r| == |camNums|
    ensures forall k :: 0 <= k < |camNums| ==> r[k] == NumberedOutfile(outfile, camNums[k])
  {
    seq(|camNums|, k requires 0 <= k < |camNums| => NumberedOutfile(outfile, camNums[k]))
  }

  /** Different cameras write different files; an empty or missing outfile opens no writer at all. */
  lemma CameraOutfilesDistinct(outfile: Option<string>, camNums: seq<int>, p: nat, q: nat)
    requires p < |camNums| && q < |camNums| && camNums[p] != camNums[q]
    ensures outfile.Some? && outfile.value != "" ==>
              CameraOutfiles(outfile, camNums)[p].Some? &&
              CameraOutfiles(outfile, camNums)[p] != CameraOutfiles(outfile, camNums)[q]
    ensures outfile.None? || outfile.value == "" ==> CameraOutfiles(outfile, camNums)[p].None?
  {
    if outfile.Some? && outfile.value != "" {
      NumberedOutfileProperties(outfile.value, camNums[p], camNums[q]);
    }
  }

  // ---------------------------------------------------------------------
  // The command line
  // ---------------------------------------------------------------------

  /** The parsed options; a missing -c leaves cam_nums None. The output format is one of argparse's choices. */
  datatype CliArgs = CliArgs(camNums: Option<seq<int>>, videoMode: string, frameRate: string, grabMode: string,
                             output: Option<string>, overwrite: bool, outputFormat: Option<Format>,
                             outputQuality: Option<int>, outputSize: Option<(int, int)>,
                             outputBitrate: Option<int>)

  function OptInt(o: Option<int>): Kw
  {
    if o.Some? then KInt(o.value) else KNone
  }

  /** The namespace argparse returns: one attribute per option, named by its dest (--frame-rate gives frame_rate). */
  function Namespace(a: CliArgs): (ns: map<string, Kw>)
    ensures "frame_rate" in ns && "video_mode" in ns && "grab_mode" in ns
    ensures "framerate" !in ns
  {
    map["cam_nums" := if a.camNums.Some? then KInts(a.camNums.value) else KNone,
        "video_mode" := KStr(a.videoMode),
        "frame_rate" := KStr(a.frameRate),
        "grab_mode" := KStr(a.grabMode),
        "output" := if a.output.Some? then KStr(a.output.value) else KNone,
        "overwrite" := KBool(a.overwrite),
        "output_format" := if a.outputFormat.Some? then KStr(FormatName(a.outputFormat.value)) else KNone,
        "output_quality" := OptInt(a.outputQuality),
        "output_size" := if a.outputSize.Some? then KSize(a.outputSize.value.0, a.outputSize.value.1) else KNone,
        "output_bitrate" := OptInt(a.outputBitrate)]
  }

  /** getattr(args, name): an attribute the parser never set raises AttributeError. */
  function GetAttr(ns: map<string, Kw>, name: string): (r: Result<Kw>)
    ensures r.Ok? <==> name in ns
    ensures r.Ok? ==> r.value == ns[name]
    ensures r.Err? ==> r.error == AttributeError
  {
    if name in ns then Ok(ns[name]) else Err(AttributeError)
  }

  /** The Camera keyword arguments, reading the frame rate from the attribute named `rateAttr`. */
  function CamKwargsFrom(ns: map<string, Kw>, rateAttr: string): Result<map<string, Kw>>
  {
    match (GetAttr(ns, "video_mode"), GetAttr(ns, rateAttr), GetAttr(ns, "grab_mode"))
    case (Ok(m), Ok(f), Ok(g)) => Ok(map["video_mode" := m, "framerate" := f, "grab_mode" := g])
    case (Err(e), _, _) => Err(e)
    case (_, Err(e), _) => Err(e)
    case (_, _, Err(e)) => Err(e)
  }

  /** cam_kwargs as written: it reads args.framerate. */
  function CamKwargsAsWritten(a: CliArgs): Result<map<string, Kw>>
  {
    CamKwargsFrom(Namespace(a), "framerate")
  }

  /** As written, building cam_kwargs raises AttributeError on every command line that gets that far. */
  lemma CamKwargsAsWrittenFails(a: CliArgs)
    ensures CamKwargsAsWritten(a) == Err(AttributeError)
  {
  }

  /** cam_kwargs as intended: the frame rate is the parsed --frame-rate value. */
  function CamKwargs(a: CliArgs): (r: Result<map<string, Kw>>)
    ensures r == Ok(map["video_mode" := KStr(a.videoMode), "framerate" := KStr(a.frameRate),
                        "grab_mode" := KStr(a.grabMode)])
  {
    CamKwargsFrom(Namespace(a), "frame_rate")
  }

  /** Python truthiness of an optional integer argument: None and 0 are false. */
  predicate Truthy(o: Option<int>)
  {
    o.Some? && o.value != 0
  }

  predicate HasOutput(a: CliArgs)
  {
    a.output.Some? && a.output.value != ""
  }

  /**
   * The checks of the command line: at least two cameras, and with an
   * output file a format (given, or from the extension) and the settings
   * that format needs. The result is the format when there is an output.
   */
  function CheckedFormat(a: CliArgs): (r: Result<Option<Format>>)
    ensures r.Ok? && r.value.Some? ==> HasOutput(a)
    ensures r == Ok(Some(MJPG)) ==> Truthy(a.outputQuality)
    ensures r == Ok(Some(H264)) ==> a.outputSize.Some? && Truthy(a.outputBitrate)
  {
    if a.camNums.None? then Err(TypeError)
    else if |a.camNums.value| < 2 then Err(OSError)
    else if !HasOutput(a) then Ok(None)
    else
      var f := if a.outputFormat.Some? then Ok(a.outputFormat.value) else InferFormat(a.output.value);
      if f.Err? then Err(f.error)
      else if f.value == MJPG then
        if Truthy(a.outputQuality) then Ok(Some(MJPG)) else Err(OSError)
      else if f.value == H264 then
        if a.outputSize.None? then Err(OSError)
        else if !Truthy(a.outputBitrate) then Err(OSError)
        else Ok(Some(H264))
      else Ok(Some(AVI))
  }

  /** What the checks reject, and with which error. */
  lemma CheckedFormatErrors(a: CliArgs)
    ensures a.camNums.None? ==> CheckedFormat(a) == Err(TypeError)
    ensures a.camNums.Some? && |a.camNums.value| < 2 ==> CheckedFormat(a) == Err(OSError)
    ensures a.camNums.Some? && |a.camNums.value| >= 2 && !HasOutput(a) ==> CheckedFormat(a) == Ok(None)
    ensures a.camNums.Some? && |a.camNums.value| >= 2 && HasOutput(a) && a.outputFormat.None? ==>
              (InferFormat(a.output.value).Err? ==> CheckedFormat(a) == Err(ValueError)) &&
              (CheckedFormat(a).Ok? ==> CheckedFormat(a).value == Some(InferFormat(a.output.value).value))
    ensures CheckedFormat(a) == Ok(Some(MJPG)) <==>
              a.camNums.Some? && |a.camNums.value| >= 2 && HasOutput(a) && a.outputFormat == Some(MJPG) &&
              Truthy(a.outputQuality)
    ensures HasOutput(a) && a.camNums.Some? && |a.camNums.value| >= 2 ==>
              (CheckedFormat(a) == Ok(Some(H264)) <==>
                 (a.outputFormat == Some(H264) || (a.outputFormat.None? && InferFormat(a.output.value) == Ok(H264))) &&
                 a.outputSize.Some? && Truthy(a.outputBitrate))
  {
  }

  /** The writer keywords every recording run passes: overwrite and the format's name. */
  function BaseKwargs(a: CliArgs, f: Format): map<string, Kw>
  {
    map["overwrite" := KBool(a.overwrite), "file_format" := KStr(FormatName(f))]
  }

  /** writer_kwargs as written: H264 passes width and height keywords. */
  function WriterKwargsAsWritten(a: CliArgs): (r: Result<map<string, Kw>>)
    ensures r.Err? <==> CheckedFormat(a).Err?
  {
    match CheckedFormat(a)
    case Err(e) => Err(e)
    case Ok(None) => Ok(map[])
    case Ok(Some(AVI)) => Ok(BaseKwargs(a, AVI))
    case Ok(Some(MJPG)) => Ok(BaseKwargs(a, MJPG)["quality" := OptInt(a.outputQuality)])
    case Ok(Some(H264)) =>
      Ok(BaseKwargs(a, H264)["width" := KInt(a.outputSize.value.0)]["height" := KInt(a.outputSize.value.1)]
                            ["bitrate" := OptInt(a.outputBitrate)])
  }

  /**
   * openVideoWriter has no width or height parameter: every H264 recording
   * set up by this command line fails with TypeError, while AVI and MJPG
   * keywords bind.
   */
  lemma WriterKwargsAsWrittenBinding(a: CliArgs)
    requires CheckedFormat(a).Ok?
    ensures BindWriterKwargs(WriterKwargsAsWritten(a).value).Err? <==> CheckedFormat(a).value == Some(H264)
  {
    var kw := WriterKwargsAsWritten(a).value;
    if CheckedFormat(a).value == Some(H264) {
      assert "width" in kw && "width" !in WriterParams;
    }
  }

  /** writer_kwargs as intended: the H264 size goes in as img_size. */
  function WriterKwargs(a: CliArgs): (r: Result<map<string, Kw>>)
    ensures r.Err? <==> CheckedFormat(a).Err?
  {
    match CheckedFormat(a)
    case Err(e) => Err(e)
    case Ok(None) => Ok(map[])
    case Ok(Some(AVI)) => Ok(BaseKwargs(a, AVI))
    case Ok(Some(MJPG)) => Ok(BaseKwargs(a, MJPG)["quality" := OptInt(a.outputQuality)])
    case Ok(Some(H264)) =>
      Ok(BaseKwargs(a, H264)["img_size" := KSize(a.outputSize.value.0, a.outputSize.value.1)]
                            ["bitrate" := OptInt(a.outputBitrate)])
  }

  /** The binding of an AVI run's keywords: format and overwrite given, the rest defaulted. */
  lemma BindingAvi(a: CliArgs)
    ensures var b := BindWriterKwargs(BaseKwargs(a, AVI));
            b.Ok? && b.value["file_format"] == KStr("AVI") && b.value["overwrite"] == KBool(a.overwrite) &&
            b.value["quality"] == KInt(75) && b.value["img_size"] == KNone && b.value["bitrate"] == KInt(1000000) &&
            b.value["embed_image_info"] == WriterDefault("embed_image_info") && b.value["csv_timestamps"] == KBool(false)
  {
    assert BaseKwargs(a, AVI).Keys <= WriterParams;
  }

  /** The binding of an MJPG run's keywords: the quality is given too. */
  lemma BindingMjpg(a: CliArgs, q: int)
    ensures var b := BindWriterKwargs(BaseKwargs(a, MJPG)["quality" := KInt(q)]);
            b.Ok? && b.value["file_format"] == KStr("MJPG") && b.value["overwrite"] == KBool(a.overwrite) &&
            b.value["quality"] == KInt(q) && b.value["img_size"] == KNone && b.value["bitrate"] == KInt(1000000) &&
            b.value["embed_image_info"] == WriterDefault("embed_image_info") && b.value["csv_timestamps"] == KBool(false)
  {
    assert BaseKwargs(a, MJPG)["quality" := KInt(q)].Keys <= WriterParams;
  }

  /** The binding of an H264 run's keywords: the image size and bitrate are given too. */
  lemma BindingH264(a: CliArgs, size: (int, int), rate: int)
    ensures var b := BindWriterKwargs(BaseKwargs(a, H264)["img_size" := KSize(size.0, size.1)]["bitrate" := KInt(rate)]);
            b.Ok? && b.value["file_format"] == KStr("H264") && b.value["overwrite"] == KBool(a.overwrite) &&
            b.value["quality"] == KInt(75) && b.value["img_size"] == KSize(size.0, size.1) &&
            b.value["bitrate"] == KInt(rate) &&
            b.value["embed_image_info"] == WriterDefault("embed_image_info") && b.value["csv_timestamps"] == KBool(false)
  {
    assert BaseKwargs(a, H264)["img_size" := KSize(size.0, size.1)]["bitrate" := KInt(rate)].Keys <= WriterParams;
  }

  /**
   * The intended keywords always bind, and openVideoWriter then sees the
   * checked format, the overwrite flag, the given quality, size and bitrate
   * where the format needs them, and its own defaults everywhere else.
   */
  lemma WriterKwargsBinding(a: CliArgs)
    requires CheckedFormat(a).Ok? && CheckedFormat(a).value.Some?
    ensures var f := CheckedFormat(a).value.value;
            var b := BindWriterKwargs(WriterKwargs(a).value);
            b.Ok? &&
            b.value["file_format"] == KStr(FormatName(f)) &&
            b.value["overwrite"] == KBool(a.overwrite) &&
            b.value["quality"] == (if f == MJPG then KInt(a.outputQuality.value) else KInt(75)) &&
            b.value["img_size"] == (if f == H264 then KSize(a.outputSize.value.0, a.outputSize.value.1) else KNone) &&
            b.value["bitrate"] == (if f == H264 then KInt(a.outputBitrate.value) else KInt(1000000)) &&
            b.value["embed_image_info"] == WriterDefault("embed_image_info") &&
            b.value["csv_timestamps"] == KBool(false)
  {
    var f := CheckedFormat(a).value.value;
    if f == MJPG {
      BindingMjpg(a, a.outputQuality.value);
    } else if f == H264 {
      BindingH264(a, a.outputSize.value, a.outputBitrate.value);
    } else {
      BindingAvi(a);
    }
  }

  // ---------------------------------------------------------------------
  // The capture thread
  // ---------------------------------------------------------------------

  /**
   * One pass of the capture loop as written: getImage with onError 'warn',
   * and on success put_nowait of the returned success flag (not the
   * image), dropped when the queue is full.
   */
  method CaptureStepAsWritten(cam: Camera, queue: Mailbox<bool>, acquired: Option<Image>)
    modifies cam`written, cam`csvRows, queue
    ensures queue.item == (if acquired.Some? && old(queue.item).None? then Some(true) else old(queue.item))
    ensures cam.written == old(cam.written) + (if acquired.Some? && cam.videoWriter.Some? then [acquired.value] else [])
    ensures cam.csvRows == old(cam.csvRows) +
              (if acquired.Some? && cam.videoWriter.Some? && cam.csvFile.Some? then [acquired.value] else [])
  {
    var got := cam.GetImage("warn", acquired);
    if got.Ok? && got.value.0 {
      var _ := queue.PutNowait(got.value.0);
    }
  }

  /** One pass of the capture loop as intended: the image itself is offered to the display. */
  method CaptureStep(cam: Camera, queue: Mailbox<Image>, acquired: Option<Image>)
    modifies cam`written, cam`csvRows, queue
    ensures queue.item == (if acquired.Some? && old(queue.item).None? then acquired else old(queue.item))
    ensures cam.written == old(cam.written) + (if acquired.Some? && cam.videoWriter.Some? then [acquired.value] else [])
    ensures cam.csvRows == old(cam.csvRows) +
              (if acquired.Some? && cam.videoWriter.Some? && cam.csvFile.Some? then [acquired.value] else [])
  {
    var got := cam.GetImage("warn", acquired);
    if got.Ok? && got.value.0 {
      var _ := queue.PutNowait(got.value.1.value);
    }
  }

  /**
   * The capture loop as written, until the stop event: an empty queue ends
   * up holding the flag True as soon as one image is acquired, and every
   * image acquired goes to the writer.
   */
  method CaptureLoopAsWritten(cam: Camera, queue: Mailbox<bool>, acquired: seq<Option<Image>>)
    modifies cam`written, cam`csvRows, queue
    ensures queue.item == (if old(queue.item).None? && Images(acquired) != [] then Some(true) else old(queue.item))
    ensures cam.written == old(cam.written) + (if cam.videoWriter.Some? then Images(acquired) else [])
    ensures cam.csvRows == old(cam.csvRows) +
              (if cam.videoWriter.Some? && cam.csvFile.Some? then Images(acquired) else [])
  {
    var k := 0;
    while k < |acquired|
      invariant 0 <= k <= |acquired|
      invariant queue.item == (if old(queue.item).None? && Images(acquired[..k]) != [] then Some(true) else old(queue.item))
      invariant cam.written == old(cam.written) + (if cam.videoWriter.Some? then Images(acquired[..k]) else [])
      invariant cam.csvRows == old(cam.csvRows) +
                  (if cam.videoWriter.Some? && cam.csvFile.Some? then Images(acquired[..k]) else [])
    {
      CaptureStepAsWritten(cam, queue, acquired[k]);
      assert acquired[..k + 1][..k] == acquired[..k];
      k := k + 1;
    }
    assert acquired[..k] == acquired;
  }

  /**
   * The capture loop as intended, until the stop event: `acquired` is what the SDK
   * delivers on each pass. An empty queue ends up holding the first image
   * acquired (the display has not taken it meanwhile), and every image
   * acquired goes to the writer.
   */
  method CaptureLoop(cam: Camera, queue: Mailbox<Image>, acquired: seq<Option<Image>>)
    modifies cam`written, cam`csvRows, queue
    ensures queue.item == (if old(queue.item).None? && Images(acquired) != [] then Some(Images(acquired)[0]) else old(queue.item))
    ensures cam.written == old(cam.written) + (if cam.videoWriter.Some? then Images(acquired) else [])
    ensures cam.csvRows == old(cam.csvRows) +
              (if cam.videoWriter.Some? && cam.csvFile.Some? then Images(acquired) else [])
  {
    var k := 0;
    while k < |acquired|
      invariant 0 <= k <= |acquired|
      invariant queue.item == (if old(queue.item).None? && Images(acquired[..k]) != [] then Some(Images(acquired[..k])[0])
                               else old(queue.item))
      invariant cam.written == old(cam.written) + (if cam.videoWriter.Some? then Images(acquired[..k]) else [])
      invariant cam.csvRows == old(cam.csvRows) +
                  (if cam.videoWriter.Some? && cam.csvFile.Some? then Images(acquired[..k]) else [])
    {
      CaptureStep(cam, queue, acquired[k]);
      assert acquired[..k + 1][..k] == acquired[..k];
      k := k + 1;
    }
    assert acquired[..k] == acquired;
  }

  /**
   * capture_func as written: the loop queues the success flag; after it,
   * cam.stop_capture raises AttributeError, which the handler swallows, so
   * the drain loop never runs; close then stops capture only if the
   * wrapper itself started it. main starts capture with startSyncCapture
   * on the raw SDK handles, so there the wrapper's flag is off and no
   * stop call is made through the wrapper at all.
   */
  method CaptureRunAsWritten(cam: Camera, queue: Mailbox<bool>, acquired: seq<Option<Image>>)
    requires cam.Valid()
    modifies cam`written, cam`csvRows, cam`captureIsOn, cam`writerIsOpen, cam`calls, queue
    ensures queue.item == (if old(queue.item).None? && Images(acquired) != [] then Some(true) else old(queue.item))
    ensures cam.written == old(cam.written) + (if cam.videoWriter.Some? then Images(acquired) else [])
    ensures cam.csvRows == old(cam.csvRows) +
              (if cam.videoWriter.Some? && cam.csvFile.Some? then Images(acquired) else [])
    ensures !cam.captureIsOn && !cam.writerIsOpen
    ensures cam.calls == old(cam.calls) + (if old(cam.captureIsOn) then [SdkStop] else []) +
                         CloseCalls(old(cam.writerIsOpen), cam.csvFile.Some?)
  {
    CaptureLoopAsWritten(cam, queue, acquired);
    cam.Close();
  }

  /** Two appends under the same condition are one append of both parts. */
  lemma AppendWhen<T>(b: bool, s: seq<T>, x: seq<T>, y: seq<T>)
    ensures (s + (if b then x else [])) + (if b then y else []) == s + (if b then x + y else [])
  {
    if b {
      assert (s + x) + y == s + (x + y);
    } else {
      assert s + [] + [] == s;
    }
  }

  /** The images a drain loop writes: those before the first failed getImage. */
  function UntilFailure(drain: seq<Option<Image>>): (r: seq<Image>)
    ensures |r| <= |drain|
    ensures forall k :: 0 <= k < |r| ==> drain[k] == Some(r[k])
    ensures |r| < |drain| ==> drain[|r|].None?
  {
    if drain == [] || drain[0].None? then [] else [drain[0].value] + UntilFailure(drain[1..])
  }

  /** The drain loop: getImage until it fails, each image going to the writer. */
  method Drain(cam: Camera, drain: seq<Option<Image>>)
    modifies cam`written, cam`csvRows
    ensures cam.written == old(cam.written) + (if cam.videoWriter.Some? then UntilFailure(drain) else [])
    ensures cam.csvRows == old(cam.csvRows) +
              (if cam.videoWriter.Some? && cam.csvFile.Some? then UntilFailure(drain) else [])
  {
    ghost var out := UntilFailure(drain);
    var k := 0;
    while k < |drain| && drain[k].Some?
      invariant 0 <= k <= |out|
      invariant cam.written == old(cam.written) + (if cam.videoWriter.Some? then out[..k] else [])
      invariant cam.csvRows == old(cam.csvRows) + (if cam.videoWriter.Some? && cam.csvFile.Some? then out[..k] else [])
    {
      assert k < |out| && drain[k] == Some(out[k]);
      assert out[..k + 1] == out[..k] + [out[k]];
      var _ := cam.GetImage("warn", drain[k]);
      k := k + 1;
    }
    assert k == |out| && out[..k] == out;
  }

  /**
   * capture_func as intended: stop capture through the wrapper (which
   * stops the SDK camera whoever started it), then keep calling getImage,
   * writing what the buffer still holds, until it fails; then close.
   * `drain` is what the SDK delivers after the stop.
   */
  method CaptureRun(cam: Camera, queue: Mailbox<Image>, acquired: seq<Option<Image>>, drain: seq<Option<Image>>)
    requires cam.Valid()
    modifies cam`written, cam`csvRows, cam`captureIsOn, cam`writerIsOpen, cam`calls, queue
    ensures queue.item == (if old(queue.item).None? && Images(acquired) != [] then Some(Images(acquired)[0]) else old(queue.item))
    ensures cam.written == old(cam.written) +
              (if cam.videoWriter.Some? then Images(acquired) + UntilFailure(drain) else [])
    ensures cam.csvRows == old(cam.csvRows) +
              (if cam.videoWriter.Some? && cam.csvFile.Some? then Images(acquired) + UntilFailure(drain) else [])
    ensures !cam.captureIsOn && !cam.writerIsOpen
    ensures cam.calls == old(cam.calls) + [SdkStop] + CloseCalls(old(cam.writerIsOpen), cam.csvFile.Some?)
  {
    ghost var written0, rows0, calls0 := cam.written, cam.csvRows, cam.calls;
    CaptureLoop(cam, queue, acquired);
    cam.StopCapture();
    assert cam.calls == calls0 + [SdkStop];
    Drain(cam, drain);
    AppendWhen(cam.videoWriter.Some?, written0, Images(acquired), UntilFailure(drain));
    AppendWhen(cam.videoWriter.Some? && cam.csvFile.Some?, rows0, Images(acquired), UntilFailure(drain));
    cam.Close();
  }

  // ---------------------------------------------------------------------
  // The display loop
  // ---------------------------------------------------------------------

  /** np.empty(nRows * nCols, dtype=object): one empty slot per grid cell. */
  method NewSlots<T>(n: nat) returns (slots: array<Option<T>>, g: Grid)
    requires n >= 1
    ensures g == GridShape(n) && fresh(slots) && slots.Length == g.rows * g.cols
    ensures forall i :: 0 <= i < slots.Length ==> slots[i].None?
  {
    g := GridShape(n);
    slots := new Option<T>[g.rows * g.cols](_ => None);
  }

  /** Every slot of the grid holds a frame. */
  predicate AllFilled<T>(s: seq<Option<T>>)
  {
    forall i :: 0 <= i < |s| ==> s[i].Some?
  }

  /** One pass of the slot loop on values: slot i takes item i when there is one. */
  function Collected<T>(slots: seq<Option<T>>, items: seq<Option<T>>): (r: seq<Option<T>>)
    requires |items| <= |slots|
    ensures |r| == |slots|
  {
    seq(|slots|, i requires 0 <= i < |slots| => if i < |items| && items[i].Some? then items[i] else slots[i])
  }

  /**
   * One pass of the display loop, with an empty slot shown as a blank tile
   * (see Displayed): slot i takes the item queue i holds, if any, and keeps
   * its value otherwise; every queue is left empty. Esc (key 27) ends the
   * loop.
   */
  method CollectSlots<T>(slots: array<Option<T>>, queues: seq<Mailbox<T>>, key: int) returns (keepGoing: bool)
    requires |queues| <= slots.Length && Distinct(queues)
    modifies slots, queues
    ensures keepGoing <==> key != 27
    ensures forall i :: 0 <= i < slots.Length ==>
              slots[i] == (if i < |queues| && old(queues[i].item).Some? then old(queues[i].item) else old(slots[i]))
    ensures slots[..] == Collected(old(slots[..]), old(Items(queues)))
    ensures forall i :: 0 <= i < |queues| ==> queues[i].item.None?
  {
    ghost var items := Items(queues);
    var i := 0;
    while i < |queues|
      invariant 0 <= i <= |queues|
      invariant forall p :: 0 <= p < |queues| ==> queues[p].item == (if p < i then None else items[p])
      invariant forall p :: 0 <= p < slots.Length ==>
                  slots[p] == (if p < i && items[p].Some? then items[p] else old(slots[p]))
    {
      var img := queues[i].GetNowait();
      if img.Some? {
        slots[i] := img;
      }
      i := i + 1;
    }
    keepGoing := key != 27;
  }

  /**
   * The pass as written: np.block over a grid that still holds an empty
   * slot raises, and the handler around the display loop ends it, so the
   * loop goes on only when Esc was not pressed and every slot holds a frame.
   */
  method CollectSlotsAsWritten<T>(slots: array<Option<T>>, queues: seq<Mailbox<T>>, key: int) returns (keepGoing: bool)
    requires |queues| <= slots.Length && Distinct(queues)
    modifies slots, queues
    ensures keepGoing <==> key != 27 && AllFilled(slots[..])
    ensures slots[..] == Collected(old(slots[..]), old(Items(queues)))
    ensures forall i :: 0 <= i < |queues| ==> queues[i].item.None?
  {
    keepGoing := CollectSlots(slots, queues, key);
    keepGoing := keepGoing && AllFilled(slots[..]);
  }

  /** The slots after a run of passes, each pass given by what the queues held. */
  function AfterPasses<T>(slots: seq<Option<T>>, passes: seq<seq<Option<T>>>): (r: seq<Option<T>>)
    requires forall p :: 0 <= p < |passes| ==> |passes[p]| <= |slots|
    ensures |r| == |slots|
    decreases |passes|
  {
    if passes == [] then slots else AfterPasses(Collected(slots, passes[0]), passes[1..])
  }

  /** A slot past the last camera keeps its value, whatever the queues deliver. */
  lemma {:induction false} SpareSlotStaysEmpty<T>(slots: seq<Option<T>>, passes: seq<seq<Option<T>>>, n: nat)
    requires n < |slots| && slots[n].None?
    requires forall p :: 0 <= p < |passes| ==> |passes[p]| <= n
    ensures AfterPasses(slots, passes)[n].None?
    decreases |passes|
  {
    if passes != [] {
      var next := Collected(slots, passes[0]);
      assert next[n] == slots[n];
      SpareSlotStaysEmpty(next, passes[1..], n);
    }
  }

  /**
   * As written, n cameras on a grid with more cells than n never get past
   * the first pass: from the empty slots of NewSlots, after any passes the
   * slot after the last camera is still empty, so np.block raises.
   */
  lemma SpareSlotEndsDisplay<T>(n: nat, passes: seq<seq<Option<T>>>)
    requires n >= 1 && n < GridShape(n).rows * GridShape(n).cols
    requires forall p :: 0 <= p < |passes| ==> |passes[p]| == n
    ensures !AllFilled(AfterPasses(seq(GridShape(n).rows * GridShape(n).cols, _ => None), passes))
  {
    var empty: seq<Option<T>> := seq(GridShape(n).rows * GridShape(n).cols, _ => None);
    SpareSlotStaysEmpty(empty, passes, n);
  }

  /** Five cameras make a 2 by 3 grid, whose sixth slot no camera fills. */
  lemma FiveCamerasNeverDisplay<T>(passes: seq<seq<Option<T>>>)
    requires forall p :: 0 <= p < |passes| ==> |passes[p]| == 5
    ensures GridShape(5) == Grid(2, 3)
    ensures !AllFilled(AfterPasses(seq(6, _ => None), passes))
  {
    assert ISqrt(1) == 1 && ISqrt(2) == 1 && ISqrt(3) == 1;
    assert ISqrt(4) == 2 && ISqrt(5) == 2;
    assert CeilDiv(5, 2) == 3;
    SpareSlotEndsDisplay(5, passes);
  }

  /** The tiles shown by the corrected loop: each slot's frame, or the blank tile. */
  function Displayed<T>(slots: seq<Option<T>>, blank: T): (r: seq<T>)
    ensures |r| == |slots|
  {
    seq(|slots|, i requires 0 <= i < |slots| => if slots[i].Some? then slots[i].value else blank)
  }

  /**
   * The corrected display shows, at camera k's tile, the last frame camera
   * k delivered, or the blank tile until it delivers one.
   */
  lemma DisplayedAtTile<T>(slots: seq<Option<T>>, blank: T, rows: nat, cols: nat, k: nat)
    requires cols >= 1 && |slots| == rows * cols && k < |slots|
    ensures Tile(k, cols).0 < rows
    ensures Reshape(Displayed(slots, blank), rows, cols)[Tile(k, cols).0][Tile(k, cols).1] ==
            (if slots[k].Some? then slots[k].value else blank)
  {
    ReshapeAtTile(Displayed(slots, blank), rows, cols, k);
  }

  lemma CellInRange(rows: nat, cols: nat, i: nat, j: nat)
    requires i < rows && j < cols
    ensures i * cols + j < rows * cols
  {
    MulMono(i + 1, rows, cols);
  }

  /** viewports.reshape(nRows, nCols): the slots as rows of the grid. */
  function Reshape<T>(s: seq<T>, rows: nat, cols: nat): (g: seq<seq<T>>)
    requires |s| == rows * cols
    ensures |g| == rows && forall i :: 0 <= i < rows ==> |g[i]| == cols
  {
    seq(rows, i requires 0 <= i < rows =>
      seq(cols, j requires 0 <= j < cols => CellInRange(rows, cols, i, j); s[i * cols + j]))
  }

  /** The slot of camera position k appears in the grid at k's tile, so the display is row-major. */
  lemma ReshapeAtTile<T>(s: seq<T>, rows: nat, cols: nat, k: nat)
    requires cols >= 1 && |s| == rows * cols && k < |s|
    ensures Tile(k, cols).0 < rows
    ensures Reshape(s, rows, cols)[Tile(k, cols).0][Tile(k, cols).1] == s[k]
  {
    var t := Tile(k, cols);
    if t.0 >= rows {
      MulMono(rows, t.0, cols);
    }
  }
}
