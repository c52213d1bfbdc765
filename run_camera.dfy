/**
 * The general runner: it resolves the camera numbers given on the command
 * line, chooses single or multi mode, builds the writer keywords, and in
 * multi mode runs each camera in a child process and supervises them.
 */
module RunCamera {
  import opened Common
  import opened OutputNames
  import opened FlyCaptureUtils

  // ---------------------------------------------------------------------
  // The command line
  // ---------------------------------------------------------------------

  /**
   * The parsed options. `noTimestamps` is the value argparse stores for
   * --no-timestamps (store_false: true unless the flag is given).
   */
  datatype Args = Args(camNums: Option<seq<string>>, output: Option<string>, overwrite: bool,
                       outputEncoder: Option<Format>, outputQuality: Option<int>,
                       outputSize: Option<(int, int)>, outputBitrate: Option<int>,
                       noTimestamps: bool, embedImageInfo: Option<seq<string>>, preview: bool)

  predicate Sorted(s: seq<int>)
  {
    forall i, j :: 0 <= i < j < |s| ==> s[i] <= s[j]
  }

  lemma SortedCons(h: int, t: seq<int>)
    requires Sorted(t) && forall y :: y in t ==> h <= y
    ensures Sorted([h] + t)
  {
    var u := [h] + t;
    forall i, j | 0 <= i < j < |u|
      ensures u[i] <= u[j]
    {
      assert u[j] == t[j - 1];
      if i == 0 {
        assert t[j - 1] in t;
      } else {
        assert u[i] == t[i - 1];
      }
    }
  }

  /** x inserted into a sorted list at its place. */
  function Insert(x: int, s: seq<int>): (r: seq<int>)
    requires Sorted(s)
    ensures Sorted(r) && multiset(r) == multiset(s) + multiset{x}
  {
    if s == [] then [x]
    else if x <= s[0] then
      SortedCons(x, s);
      [x] + s
    else
      var t := Insert(x, s[1..]);
      assert multiset(s) == multiset{s[0]} + multiset(s[1..]) by {
        assert s == [s[0]] + s[1..];
      }
      assert forall y :: y in t ==> s[0] <= y by {
        forall y | y in t
          ensures s[0] <= y
        {
          assert y in multiset(t);
          if y != x {
            assert y in multiset(s[1..]);
            var k :| 0 <= k < |s[1..]| && s[1..][k] == y;
            assert s[k + 1] == y;
          }
        }
      }
      SortedCons(s[0], t);
      [s[0]] + t
  }

  /** sorted(): the same numbers, in ascending order. */
  function SortInts(s: seq<int>): (r: seq<int>)
    ensures Sorted(r) && multiset(r) == multiset(s) && |r| == |s|
  {
    if s == [] then []
    else
      var n := |s| - 1;
      var t := SortInts(s[..n]);
      assert multiset(s) == multiset(s[..n]) + multiset{s[n]} by {
        assert s == s[..n] + [s[n]];
      }
      Insert(s[n], t)
  }

  /** The camera index of each (index, serial) pair of the bus. */
  function AvailableNums(available: seq<(int, int)>): (r: seq<int>)
    ensures |r| == |available| && forall k :: 0 <= k < |available| ==> r[k] == available[k].0
  {
    seq(|available|, k requires 0 <= k < |available| => available[k].0)
  }

  /** list(map(int, ...)): every entry parsed in order; one bad entry is a ValueError. */
  function ParseAll(ss: seq<string>): (r: Result<seq<int>>)
    ensures r.Ok? <==> forall i :: 0 <= i < |ss| ==> ParseInt(ss[i]).Ok?
    ensures r.Err? ==> r.error == ValueError
    ensures r.Ok? ==> |r.value| == |ss| && forall i :: 0 <= i < |ss| ==> r.value[i] == ParseInt(ss[i]).value
  {
    if ss == [] then Ok([])
    else
      var head := ParseInt(ss[0]);
      var tail := ParseAll(ss[1..]);
      if head.Err? then Err(head.error)
      else if tail.Err? then Err(tail.error)
      else Ok([head.value] + tail.value)
  }

  /**
   * The camera numbers to run: an empty bus or a missing -c is an OSError;
   * 'all' anywhere in the list means every camera on the bus, sorted;
   * otherwise the entries are parsed in the order given.
   */
  function ResolveCamNums(camNums: Option<seq<string>>, available: seq<(int, int)>): (r: Result<seq<int>>)
    ensures available == [] ==> r == Err(OSError)
    ensures available != [] && (camNums.None? || camNums.value == []) ==> r == Err(OSError)
    ensures available != [] && camNums.Some? && "all" in camNums.value ==>
              r.Ok? && Sorted(r.value) && multiset(r.value) == multiset(AvailableNums(available))
    ensures available != [] && camNums.Some? && camNums.value != [] && "all" !in camNums.value ==>
              r == ParseAll(camNums.value)
    ensures r.Ok? ==> |r.value| >= 1
  {
    if available == [] then Err(OSError)
    else if camNums.None? || camNums.value == [] then Err(OSError)
    else if "all" in camNums.value then Ok(SortInts(AvailableNums(available)))
    else ParseAll(camNums.value)
  }

  datatype RunMode = Single(camNum: int) | Multi(camNums: seq<int>)

  /** More than one camera runs in parallel processes, where there is no preview; one runs in this process. */
  function SelectMode(camNums: seq<int>, preview: bool): (r: Result<RunMode>)
    ensures |camNums| > 1 ==> (r.Ok? <==> !preview) && (r.Ok? ==> r.value == Multi(camNums)) &&
                              (r.Err? ==> r.error == OSError)
    ensures |camNums| == 1 ==> r == Ok(Single(camNums[0]))
    ensures |camNums| == 0 ==> r == Err(IndexError)
  {
    if |camNums| > 1 then
      if preview then Err(OSError) else Ok(Multi(camNums))
    else if |camNums| == 1 then Ok(Single(camNums[0]))
    else Err(IndexError)
  }

  /**
   * With 'all', one camera on the bus gives single mode on that camera;
   * several give multi mode over all of them, which refuses a preview.
   * Resolved numbers are never empty, so the unlisting never fails.
   */
  lemma AllCamerasMode(camNums: seq<string>, available: seq<(int, int)>, preview: bool)
    requires available != [] && "all" in camNums
    ensures var nums := ResolveCamNums(Some(camNums), available).value;
            var m := SelectMode(nums, preview);
            m != Err(IndexError) &&
            (|available| == 1 ==> m == Ok(Single(available[0].0))) &&
            (|available| > 1 ==> (m.Ok? <==> !preview) && (m.Ok? ==> m.value.Multi? && |m.value.camNums| == |available|))
  {
    var nums := ResolveCamNums(Some(camNums), available).value;
    if |available| == 1 {
      assert AvailableNums(available) == [available[0].0];
      assert nums[0] in multiset(nums);
    }
  }

  // ---------------------------------------------------------------------
  // The writer keywords
  // ---------------------------------------------------------------------

  predicate HasOutput(a: Args)
  {
    a.output.Some? && a.output.value != ""
  }

  /** The encoder option as a keyword value: its name, or None to let the extension decide. */
  function EncoderKw(e: Option<Format>): Kw
  {
    if e.Some? then KStr(FormatName(e.value)) else KNone
  }

  /**
   * writer_kwargs as written: with an outfile it always holds an 'encoder'
   * keyword, which openVideoWriter does not accept, so opening the writer
   * raises TypeError on every recording run.
   */
  method WriterKwargsAsWritten(a: Args) returns (kw: map<string, Kw>)
    ensures !HasOutput(a) ==> kw == map[]
    ensures HasOutput(a) ==> "encoder" in kw && BindWriterKwargs(kw) == Err(TypeError)
  {
    kw := map[];
    if HasOutput(a) {
      kw := kw["overwrite" := KBool(a.overwrite)];
      kw := kw["encoder" := EncoderKw(a.outputEncoder)];
      if a.outputQuality.Some? {
        kw := kw["quality" := KInt(a.outputQuality.value)];
      }
      if a.outputSize.Some? {
        kw := kw["img_size" := KSize(a.outputSize.value.0, a.outputSize.value.1)];
      }
      if a.outputBitrate.Some? {
        kw := kw["bitrate" := KInt(a.outputBitrate.value)];
      }
      if a.embedImageInfo.Some? {
        kw := kw["embed_image_info" := KNames(a.embedImageInfo.value)];
      }
      kw := kw["csv_timestamps" := KBool(a.noTimestamps)];
    }
    assert HasOutput(a) ==> "encoder" in kw && "encoder" !in WriterParams;
  }

  /**
   * What openVideoWriter should see for a recording run: each option that
   * was given, and its own default for each one that was not.
   */
  predicate IntendedBinding(a: Args, b: map<string, Kw>)
  {
    WriterParams <= b.Keys &&
    b["file_format"] == EncoderKw(a.outputEncoder) &&
    b["overwrite"] == KBool(a.overwrite) &&
    b["quality"] == (if a.outputQuality.Some? then KInt(a.outputQuality.value) else KInt(75)) &&
    b["img_size"] == (if a.outputSize.Some? then KSize(a.outputSize.value.0, a.outputSize.value.1) else KNone) &&
    b["bitrate"] == (if a.outputBitrate.Some? then KInt(a.outputBitrate.value) else KInt(1000000)) &&
    b["embed_image_info"] ==
      (if a.embedImageInfo.Some? then KNames(a.embedImageInfo.value) else WriterDefault("embed_image_info")) &&
    b["csv_timestamps"] == KBool(a.noTimestamps)
  }

  /**
   * writer_kwargs as intended: the encoder goes in as file_format. Every
   * keyword then binds, and openVideoWriter sees each option that was
   * given and its own default for each one that was not.
   */
  method WriterKwargs(a: Args) returns (kw: map<string, Kw>)
    ensures !HasOutput(a) ==> kw == map[]
    ensures HasOutput(a) ==> BindWriterKwargs(kw).Ok? && IntendedBinding(a, BindWriterKwargs(kw).value)
  {
    kw := map[];
    if HasOutput(a) {
      kw := kw["overwrite" := KBool(a.overwrite)];
      kw := kw["file_format" := EncoderKw(a.outputEncoder)];
      if a.outputQuality.Some? {
        kw := kw["quality" := KInt(a.outputQuality.value)];
      }
      if a.outputSize.Some? {
        kw := kw["img_size" := KSize(a.outputSize.value.0, a.outputSize.value.1)];
      }
      if a.outputBitrate.Some? {
        kw := kw["bitrate" := KInt(a.outputBitrate.value)];
      }
      if a.embedImageInfo.Some? {
        kw := kw["embed_image_info" := KNames(a.embedImageInfo.value)];
      }
      kw := kw["csv_timestamps" := KBool(a.noTimestamps)];
      GivenBindsIntended(a, kw);
    }
  }

  /** The keywords a recording run passes: three always, each optional one exactly when it was given. */
  predicate GivenKwargs(a: Args, kw: map<string, Kw>)
  {
    kw.Keys <= WriterParams &&
    "overwrite" in kw && kw["overwrite"] == KBool(a.overwrite) &&
    "file_format" in kw && kw["file_format"] == EncoderKw(a.outputEncoder) &&
    "csv_timestamps" in kw && kw["csv_timestamps"] == KBool(a.noTimestamps) &&
    ("quality" in kw <==> a.outputQuality.Some?) &&
    (a.outputQuality.Some? ==> kw["quality"] == KInt(a.outputQuality.value)) &&
    ("img_size" in kw <==> a.outputSize.Some?) &&
    (a.outputSize.Some? ==> kw["img_size"] == KSize(a.outputSize.value.0, a.outputSize.value.1)) &&
    ("bitrate" in kw <==> a.outputBitrate.Some?) &&
    (a.outputBitrate.Some? ==> kw["bitrate"] == KInt(a.outputBitrate.value)) &&
    ("embed_image_info" in kw <==> a.embedImageInfo.Some?) &&
    (a.embedImageInfo.Some? ==> kw["embed_image_info"] == KNames(a.embedImageInfo.value))
  }

  /** Binding the given keywords fills in openVideoWriter's defaults for the others. */
  lemma GivenBindsIntended(a: Args, kw: map<string, Kw>)
    requires GivenKwargs(a, kw)
    ensures BindWriterKwargs(kw).Ok? && IntendedBinding(a, BindWriterKwargs(kw).value)
  {
  }

  /**
   * The intended keywords reach openVideoWriter as the given format name
   * (or None), the overwrite flag, the quality and bitrate given or their
   * defaults, the given size, the given embedded properties (or its default
   * list) and the timestamps flag.
   */
  lemma IntendedWriterArgs(a: Args, b: map<string, Kw>)
    requires IntendedBinding(a, b)
    ensures ArgsOfBinding(b) ==
              Ok(WriterArgs(if a.outputEncoder.Some? then Some(FormatName(a.outputEncoder.value)) else None,
                            a.overwrite,
                            if a.outputQuality.Some? then a.outputQuality.value else 75,
                            if a.outputBitrate.Some? then a.outputBitrate.value else 1000000,
                            a.outputSize,
                            InfoNames(if a.embedImageInfo.Some? then a.embedImageInfo.value
                                      else ["timestamp", "frameCounter"]),
                            a.noTimestamps))
  {
  }

  // ---------------------------------------------------------------------
  // The camera process
  // ---------------------------------------------------------------------

  /** getImage with its default onError ('warn') until the stop event: `acquired` is what each pass gets. */
  method AcquireAll(cam: Camera, acquired: seq<Option<Image>>)
    modifies cam`written, cam`csvRows
    ensures cam.written == old(cam.written) + (if cam.videoWriter.Some? then Images(acquired) else [])
    ensures cam.csvRows == old(cam.csvRows) +
              (if cam.videoWriter.Some? && cam.csvFile.Some? then Images(acquired) else [])
  {
    var k := 0;
    while k < |acquired|
      invariant 0 <= k <= |acquired|
      invariant cam.written == old(cam.written) + (if cam.videoWriter.Some? then Images(acquired[..k]) else [])
      invariant cam.csvRows == old(cam.csvRows) +
                  (if cam.videoWriter.Some? && cam.csvFile.Some? then Images(acquired[..k]) else [])
    {
      var _ := cam.GetImage("warn", acquired[k]);
      assert acquired[..k + 1][..k] == acquired[..k];
      k := k + 1;
    }
    assert acquired[..k] == acquired;
  }

  /**
   * The rest of the process body on a connected camera: when set-up
   * succeeded, capture until the stop event; then stopCapture and close,
   * whatever happened before.
   */
  method CaptureAndClose(cam: Camera, start: bool, acquired: seq<Option<Image>>)
    requires cam.Valid()
    modifies cam`captureIsOn, cam`writerIsOpen, cam`calls, cam`written, cam`csvRows
    ensures cam.Valid() && !cam.captureIsOn && !cam.writerIsOpen
    ensures cam.calls == old(cam.calls) + (if start then [SdkStart] else []) + [SdkStop] +
                         CloseCalls(old(cam.writerIsOpen), cam.csvFile.Some?)
    ensures cam.written == old(cam.written) + (if start && cam.videoWriter.Some? then Images(acquired) else [])
    ensures cam.csvRows == old(cam.csvRows) +
              (if start && cam.videoWriter.Some? && cam.csvFile.Some? then Images(acquired) else [])
  {
    if start {
      cam.StartCapture();
      AcquireAll(cam, acquired);
    }
    cam.StopCapture();
    cam.Close();
  }

  /**
   * A camera after its process body: capture off, writer closed and the
   * camera disconnected last; every image acquired went to the writer (and
   * its timestamp to the csv file) when the process got ready, and none
   * when it did not.
   */
  ghost predicate ClosedAfterRun(c: Camera, ready: bool, withWriter: bool, acquired: seq<Option<Image>>)
    reads c
  {
    c.Valid() && !c.captureIsOn && !c.writerIsOpen && c.calls != [] && c.calls[|c.calls| - 1] == SdkDisconnect &&
    (ready ==> (withWriter ==> c.videoWriter.Some?) && c.written == (if c.videoWriter.Some? then Images(acquired) else []) &&
               c.csvRows == (if c.videoWriter.Some? && c.csvFile.Some? then Images(acquired) else [])) &&
    (!ready ==> c.written == [] && c.csvRows == [])
  }

  /** What keeps a camera process from signalling ready: the error its writer set-up raises, if any. */
  function SetupError(outfile: Option<string>, kw: map<string, Kw>, existing: set<string>,
                      available: seq<(string, bool)>): (r: Option<Error>)
    requires DistinctKeys(available)
    ensures outfile.None? ==> r.None?
    ensures outfile.Some? ==> r == OpenFailure(outfile.value, kw, existing, available)
  {
    if outfile.None? then None else OpenFailure(outfile.value, kw, existing, available)
  }

  /**
   * A camera child process. `ready` is its ready event, `errorQueue` what
   * it has put on its error queue, `exitcode` what join observed and
   * `terminated` whether the supervisor terminated it.
   */
  class ParallelCamera {
    const camNum: int
    const name: string
    const outfile: Option<string>
    const writerKwargs: map<string, Kw>
    var ready: bool
    var errorQueue: seq<Error>
    var exitcode: Option<int>
    var terminated: bool

    constructor(camNum: int, outfile: Option<string>, writerKwargs: map<string, Kw>)
      ensures this.camNum == camNum && name == "cam" + IntToString(camNum)
      ensures this.outfile == outfile && this.writerKwargs == writerKwargs
      ensures !ready && errorQueue == [] && exitcode.None? && !terminated
    {
      this.camNum := camNum;
      name := "cam" + IntToString(camNum);
      this.outfile := outfile;
      this.writerKwargs := writerKwargs;
      ready := false;
      errorQueue := [];
      exitcode := None;
      terminated := false;
    }

    /**
     * The process body once the camera is connected: open the writer when
     * there is an outfile, signal ready or queue the error, then capture
     * (only when ready) and close.
     */
    method RunConnected(cam: Camera, existing: set<string>, available: seq<(string, bool)>,
                        acquired: seq<Option<Image>>)
      requires cam.Valid() && cam.written == [] && cam.csvRows == [] && DistinctKeys(available) && !ready
      modifies this`ready, this`errorQueue
      modifies cam`videoWriter, cam`fileFormat, cam`csvFile, cam`writerIsOpen, cam`calls, cam`captureIsOn,
               cam`written, cam`csvRows
      ensures ready <==> SetupError(outfile, writerKwargs, existing, available).None?
      ensures errorQueue == old(errorQueue) + (if ready then [] else [SetupError(outfile, writerKwargs, existing, available).value])
      ensures outfile.Some? && BindWriterKwargs(writerKwargs).Err? ==> !ready && errorQueue == old(errorQueue) + [TypeError]
      ensures ready && outfile.Some? ==>
                cam.videoWriter.Some? && Some(cam.videoWriter.value.file) == PlannedFile(outfile.value, writerKwargs, existing)
      ensures ClosedAfterRun(cam, ready, outfile.Some?, acquired)
    {
      var failed: Option<Error> := None;
      if outfile.Some? {
        failed := OpenWriterWith(cam, outfile.value, writerKwargs, existing, available);
      }
      if failed.None? {
        ready := true;
      } else {
        errorQueue := errorQueue + [failed.value];
      }
      CaptureAndClose(cam, failed.None?, acquired);
    }

    /**
     * The process body: connect, open the writer when there is an outfile,
     * signal ready, then capture until the stop event. Any failure goes on
     * the error queue instead of the ready signal. Stopping and closing are
     * always attempted on a connected camera; with no camera they fail
     * and are ignored.
     */
    method Run(mode: ModeArg, videoModes: seq<(string, int)>, existing: set<string>,
               available: seq<(string, bool)>, acquired: seq<Option<Image>>)
      returns (cam: Option<Camera>)
      requires DistinctKeys(available) && !ready
      modifies this`ready, this`errorQueue
      ensures ConfiguredImgSize(mode, videoModes).Err? ==>
                cam.None? && !ready && errorQueue == old(errorQueue) + [ConfiguredImgSize(mode, videoModes).error]
      ensures ConfiguredImgSize(mode, videoModes).Ok? ==>
                cam.Some? && fresh(cam.value) && ClosedAfterRun(cam.value, ready, outfile.Some?, acquired)
      ensures ConfiguredImgSize(mode, videoModes).Ok? ==>
                (ready <==> SetupError(outfile, writerKwargs, existing, available).None?) &&
                errorQueue == old(errorQueue) +
                  (if ready then [] else [SetupError(outfile, writerKwargs, existing, available).value])
      ensures ConfiguredImgSize(mode, videoModes).Ok? && outfile.Some? && BindWriterKwargs(writerKwargs).Err? ==>
                !ready && errorQueue == old(errorQueue) + [TypeError]
      ensures ConfiguredImgSize(mode, videoModes).Ok? && ready && outfile.Some? ==>
                cam.value.videoWriter.Some? &&
                Some(cam.value.videoWriter.value.file) == PlannedFile(outfile.value, writerKwargs, existing)
      ensures outfile.None? ==> (ready <==> ConfiguredImgSize(mode, videoModes).Ok?)
    {
      var c := Camera.Connect(camNum, mode, videoModes);
      if c.Err? {
        errorQueue := errorQueue + [c.error];
        return None;
      }
      cam := Some(c.value);
      RunConnected(c.value, existing, available, acquired);
    }
  }

  // ---------------------------------------------------------------------
  // The supervisor
  // ---------------------------------------------------------------------

  predicate DistinctProcs(parCams: seq<ParallelCamera>)
  {
    forall p, q :: 0 <= p < q < |parCams| ==> parCams[p] != parCams[q]
  }

  lemma DistinctAppend(parCams: seq<ParallelCamera>, c: ParallelCamera)
    requires DistinctProcs(parCams) && c !in parCams
    ensures DistinctProcs(parCams + [c])
  {
  }

  function ProcSet(parCams: seq<ParallelCamera>): set<ParallelCamera>
    ensures forall p :: 0 <= p < |parCams| ==> parCams[p] in ProcSet(parCams)
  {
    set p | p in parCams
  }

  /** A process just created for camera camNum: its outfile and keywords set, not yet ready, not yet run. */
  ghost predicate Launched(p: ParallelCamera, camNum: int, base: Option<string>, writerKwargs: map<string, Kw>)
    reads p
  {
    p.camNum == camNum && p.outfile == CamOutfile(base, camNum) && p.writerKwargs == writerKwargs &&
    !p.ready && p.errorQueue == [] && p.exitcode.None?
  }

  /** One process of the launch loop, writing the camera's own outfile. */
  method Launch(camNum: int, base: Option<string>, writerKwargs: map<string, Kw>) returns (parCam: ParallelCamera)
    ensures fresh(parCam) && Launched(parCam, camNum, base, writerKwargs)
  {
    parCam := new ParallelCamera(camNum, CamOutfile(base, camNum), writerKwargs);
  }

  /** The launch loop: one process per camera number, in order, each writing root + '-cam' + n + ext. */
  method LaunchAll(camNums: seq<int>, base: Option<string>, writerKwargs: map<string, Kw>)
    returns (parCams: seq<ParallelCamera>)
    ensures |parCams| == |camNums| && DistinctProcs(parCams)
    ensures forall k :: 0 <= k < |camNums| ==> fresh(parCams[k]) && Launched(parCams[k], camNums[k], base, writerKwargs)
  {
    parCams := [];
    var k := 0;
    while k < |camNums|
      invariant 0 <= k <= |camNums| && |parCams| == k && DistinctProcs(parCams)
      invariant forall p :: 0 <= p < k ==> fresh(parCams[p]) && Launched(parCams[p], camNums[p], base, writerKwargs)
    {
      var parCam := Launch(camNums[k], base, writerKwargs);
      DistinctAppend(parCams, parCam);
      ghost var before := parCams;
      parCams := parCams + [parCam];
      assert forall p :: 0 <= p < k ==> parCams[p] == before[p];
      k := k + 1;
    }
  }

  /** The position of the first process with an error queued, or the count when there is none. */
  function FirstErrored(parCams: seq<ParallelCamera>): (s: nat)
    reads ProcSet(parCams)
    ensures s <= |parCams|
    ensures forall i :: 0 <= i < s ==> parCams[i].errorQueue == []
    ensures s < |parCams| ==> parCams[s].errorQueue != []
  {
    if parCams == [] then 0
    else if parCams[0].errorQueue != [] then 0
    else 1 + FirstErrored(parCams[1..])
  }

  /** Python's all() over the readiness flags. */
  method AllSet(flags: array<bool>) returns (all: bool)
    ensures all <==> forall p :: 0 <= p < flags.Length ==> flags[p]
  {
    all := true;
    var j := 0;
    while j < flags.Length
      invariant 0 <= j <= flags.Length
      invariant all <==> forall p :: 0 <= p < j ==> flags[p]
    {
      all := all && flags[j];
      j := j + 1;
    }
  }

  /**
   * One pass of the readiness loop: record each process's ready flag in
   * order; the first process with a queued error has it taken off the
   * queue and ends the wait. Otherwise the wait goes on until all are ready
   * or the timeout has passed.
   */
  method ReadinessPass(parCams: seq<ParallelCamera>, allReady: array<bool>, timedOut: bool)
    returns (keepGoing: bool)
    requires allReady.Length == |parCams| && DistinctProcs(parCams)
    modifies allReady, ProcSet(parCams)`errorQueue
    ensures var s := old(FirstErrored(parCams));
            (forall i :: 0 <= i < allReady.Length ==>
               allReady[i] == (if i <= s then parCams[i].ready else old(allReady[i]))) &&
            (forall i :: 0 <= i < |parCams| ==>
               parCams[i].errorQueue == (if i == s then old(parCams[i].errorQueue)[1..] else old(parCams[i].errorQueue))) &&
            (keepGoing <==> s == |parCams| && !timedOut && exists i :: 0 <= i < allReady.Length && !allReady[i])
  {
    ghost var s := FirstErrored(parCams);
    keepGoing := true;
    var i := 0;
    while i < |parCams|
      invariant 0 <= i <= s && keepGoing
      invariant forall p :: 0 <= p < allReady.Length ==> allReady[p] == (if p < i then parCams[p].ready else old(allReady[p]))
      invariant forall p :: 0 <= p < |parCams| ==> parCams[p].errorQueue == old(parCams[p].errorQueue)
    {
      allReady[i] := parCams[i].ready;
      if parCams[i].errorQueue != [] {
        parCams[i].errorQueue := parCams[i].errorQueue[1..];
        return false;
      }
      i := i + 1;
    }
    var all := AllSet(allReady);
    if all || timedOut {
      keepGoing := false;
    }
  }

  function Not(flags: seq<bool>): (r: seq<bool>)
    ensures |r| == |flags| && forall i :: 0 <= i < |flags| ==> r[i] == !flags[i]
  {
    seq(|flags|, i requires 0 <= i < |flags| => !flags[i])
  }

  /** The names of the processes whose ready flag is false, in launch order. */
  function FailedCameras(allReady: seq<bool>, names: seq<string>): seq<string>
    requires |allReady| == |names|
  {
    Checked(Not(allReady), names)
  }

  /** A name is reported exactly when some process of that name was not ready; nothing is reported when all were. */
  lemma FailedCamerasMeaning(allReady: seq<bool>, names: seq<string>, x: string)
    requires |allReady| == |names|
    ensures x in FailedCameras(allReady, names) <==> exists i :: 0 <= i < |names| && !allReady[i] && names[i] == x
    ensures FailedCameras(allReady, names) == [] <==> forall i :: 0 <= i < |allReady| ==> allReady[i]
  {
    CheckedMembers(Not(allReady), names, x);
    CheckedAllOrNone(Not(allReady), names);
    if exists i :: 0 <= i < |allReady| && !allReady[i] {
      var i :| 0 <= i < |allReady| && !allReady[i];
      CheckedMembers(Not(allReady), names, names[i]);
    }
  }

  /** A process that has not exited, or was killed by a signal, is terminated after its join. */
  predicate MustTerminate(exitcode: Option<int>)
  {
    exitcode.None? || exitcode.value < 0
  }

  /**
   * The join loop of both the failed start-up and the normal shutdown:
   * each process in turn is joined (its exit code is what the join
   * observed) and terminated when MustTerminate holds.
   */
  method JoinAll(parCams: seq<ParallelCamera>, exitcodes: seq<Option<int>>)
    requires |exitcodes| == |parCams| && DistinctProcs(parCams)
    modifies ProcSet(parCams)`exitcode, ProcSet(parCams)`terminated
    ensures forall k :: 0 <= k < |parCams| ==>
              parCams[k].exitcode == exitcodes[k] &&
              parCams[k].terminated == (old(parCams[k].terminated) || MustTerminate(exitcodes[k]))
  {
    var k := 0;
    while k < |parCams|
      invariant 0 <= k <= |parCams|
      invariant forall p :: 0 <= p < |parCams| ==>
                  if p < k then parCams[p].exitcode == exitcodes[p] &&
                                parCams[p].terminated == (old(parCams[p].terminated) || MustTerminate(exitcodes[p]))
                  else parCams[p].terminated == old(parCams[p].terminated)
    {
      parCams[k].exitcode := exitcodes[k];
      if MustTerminate(parCams[k].exitcode) {
        parCams[k].terminated := true;
      }
      k := k + 1;
    }
  }
}
