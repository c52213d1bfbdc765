/**
 * The Qt front end's decisions: which camera rows are checked, what the
 * settings extracted from the widgets are, and how cameras are connected
 * from those settings. Widgets are fields holding their current values;
 * the camera table is a sequence of rows (checked, camera number).
 */
module Gui {
  import opened Common
  import opened OutputNames
  import opened FlyCaptureUtils

  datatype Row = Row(checked: bool, camNum: int)

  /** The embedded-information check boxes, in the order of the defaults table. */
  const EmbedProperties: seq<string> :=
    ["timestamp", "gain", "shutter", "brightness", "exposure", "whiteBalance", "frameCounter",
     "strobePattern", "ROIPosition"]

  /** The output-option widgets; `size` None stands for the text 'Auto'. */
  datatype OutputOptions = OutputOptions(encoder: string, overwrite: bool, saveTimestamps: bool,
                                         quality: int, bitrate: int, size: Option<(int, int)>,
                                         embedChecked: seq<bool>)

  datatype CamKwargs = CamKwargs(videoMode: string, framerate: string, grabMode: string)

  datatype Settings = Settings(camMode: string, camNums: seq<int>, camKwargs: CamKwargs, outfile: Option<string>,
                               writerKwargs: map<string, Kw>, preview: bool, pixelFormat: string)

  function CheckFlags(rows: seq<Row>): (r: seq<bool>)
    ensures |r| == |rows| && forall i :: 0 <= i < |rows| ==> r[i] == rows[i].checked
  {
    seq(|rows|, i requires 0 <= i < |rows| => rows[i].checked)
  }

  function RowNums(rows: seq<Row>): (r: seq<int>)
    ensures |r| == |rows| && forall i :: 0 <= i < |rows| ==> r[i] == rows[i].camNum
  {
    seq(|rows|, i requires 0 <= i < |rows| => rows[i].camNum)
  }

  /** The camera numbers of the checked rows, in table order. */
  function SelectedNums(rows: seq<Row>): seq<int>
  {
    Checked(CheckFlags(rows), RowNums(rows))
  }

  /** A number is selected exactly when some checked row carries it. */
  lemma SelectedNumsMembers(rows: seq<Row>, n: int)
    ensures n in SelectedNums(rows) <==> exists i :: 0 <= i < |rows| && rows[i].checked && rows[i].camNum == n
  {
    CheckedMembers(CheckFlags(rows), RowNums(rows), n);
  }

  /** With only row `row` checked, exactly that row's camera is selected, so single mode's assertion holds. */
  lemma SingleRowSelected(rows: seq<Row>, row: nat)
    requires row < |rows| && forall i :: 0 <= i < |rows| ==> (rows[i].checked <==> i == row)
    ensures SelectedNums(rows) == [rows[row].camNum]
  {
    CheckedSingle(CheckFlags(rows), RowNums(rows), row);
  }

  /** With every row checked, every camera of the table is selected, in table order. */
  lemma AllRowsSelected(rows: seq<Row>)
    requires forall i :: 0 <= i < |rows| ==> rows[i].checked
    ensures SelectedNums(rows) == RowNums(rows)
  {
    CheckedAllOrNone(CheckFlags(rows), RowNums(rows));
  }

  /** The encoder box as a keyword value: 'Auto' leaves the choice to the extension. */
  function EncoderValue(encoder: string): Kw
  {
    if encoder == "Auto" then KNone else KStr(encoder)
  }

  /** The writer keywords of a run that saves, with the encoder stored under `encoderKey`. */
  function WriterKwargsWith(encoderKey: string, o: OutputOptions): map<string, Kw>
    requires |o.embedChecked| == |EmbedProperties|
  {
    map[encoderKey := EncoderValue(o.encoder),
        "overwrite" := KBool(o.overwrite),
        "csv_timestamps" := KBool(o.saveTimestamps),
        "quality" := KInt(o.quality),
        "bitrate" := KInt(o.bitrate),
        "img_size" := if o.size.Some? then KSize(o.size.value.0, o.size.value.1) else KNone,
        "embed_image_info" := KNames(Checked(o.embedChecked, EmbedProperties))]
  }

  /** writer_kwargs as written: the encoder goes in under 'encoder'. */
  function WriterKwargsAsWritten(o: OutputOptions): map<string, Kw>
    requires |o.embedChecked| == |EmbedProperties|
  {
    WriterKwargsWith("encoder", o)
  }

  /** openVideoWriter has no 'encoder' parameter: every connection that opens a writer raises TypeError. */
  lemma WriterKwargsAsWrittenFails(o: OutputOptions)
    requires |o.embedChecked| == |EmbedProperties|
    ensures BindWriterKwargs(WriterKwargsAsWritten(o)) == Err(TypeError)
  {
    assert "encoder" in WriterKwargsAsWritten(o) && "encoder" !in WriterParams;
  }

  /** writer_kwargs as intended: the encoder goes in as file_format. */
  function WriterKwargs(o: OutputOptions): map<string, Kw>
    requires |o.embedChecked| == |EmbedProperties|
  {
    WriterKwargsWith("file_format", o)
  }

  /**
   * The intended keywords bind every parameter of openVideoWriter to its
   * widget, and read as the format name (None for 'Auto'), the checkbox
   * states, the spin boxes, the size and the checked properties in order.
   */
  lemma WriterKwargsBinding(o: OutputOptions)
    requires |o.embedChecked| == |EmbedProperties|
    ensures BoundWriterArgs(WriterKwargs(o)) ==
              Ok(WriterArgs(if o.encoder == "Auto" then None else Some(o.encoder), o.overwrite, o.quality, o.bitrate,
                            o.size, InfoNames(Checked(o.embedChecked, EmbedProperties)), o.saveTimestamps))
  {
    var kw := WriterKwargs(o);
    assert kw.Keys == WriterParams;
    BindAllGiven(kw);
  }

  /** The outfile connect_cameras gives camera `camNum`: numbered in multi mode, as set otherwise. */
  function ConnectOutfile(s: Settings, camNum: int): Option<string>
  {
    if s.camMode == "Multi" && s.outfile.Some? then CamOutfile(s.outfile, camNum) else s.outfile
  }

  /** Whether connect_cameras opens a video writer for camera `camNum`: its outfile is set and non-empty. */
  predicate WritesVideo(s: Settings, camNum: int)
  {
    var outfile := ConnectOutfile(s, camNum);
    outfile.Some? && outfile.value != ""
  }

  /**
   * Camera `c` is connected as camera `camNum`, idle, with a writer exactly
   * when it records, and then on the file openVideoWriter plans for its outfile.
   */
  ghost predicate ConnectedAs(s: Settings, camNum: int, existing: set<string>, c: Camera)
    reads c
  {
    c.Valid() && c.camNum == camNum && !c.captureIsOn && (c.videoWriter.Some? <==> WritesVideo(s, camNum)) &&
    (WritesVideo(s, camNum) ==>
       Some(c.videoWriter.value.file) == PlannedFile(ConnectOutfile(s, camNum).value, s.writerKwargs, existing))
  }

  /**
   * The error connecting camera `camNum` raises, if any: the camera's
   * construction (the video mode lookup), then openVideoWriter with the
   * settings' keywords when the camera records.
   */
  function ConnectError(s: Settings, camNum: int, videoModes: seq<(string, int)>, existing: set<string>,
                        available: seq<(string, bool)>): (r: Option<Error>)
    requires DistinctKeys(available)
    ensures ConfiguredImgSize(ModeName(s.camKwargs.videoMode), videoModes).Err? ==>
              r == Some(ConfiguredImgSize(ModeName(s.camKwargs.videoMode), videoModes).error)
    ensures !WritesVideo(s, camNum) ==> (r.None? <==> ConfiguredImgSize(ModeName(s.camKwargs.videoMode), videoModes).Ok?)
  {
    var size := ConfiguredImgSize(ModeName(s.camKwargs.videoMode), videoModes);
    if size.Err? then Some(size.error)
    else if WritesVideo(s, camNum) then OpenFailure(ConnectOutfile(s, camNum).value, s.writerKwargs, existing, available)
    else None
  }

  /** With the keywords as written, every camera that records fails to connect, with TypeError once its mode is known. */
  lemma ConnectAsWrittenFails(s: Settings, o: OutputOptions, camNum: int, videoModes: seq<(string, int)>,
                              existing: set<string>, available: seq<(string, bool)>)
    requires DistinctKeys(available) && |o.embedChecked| == |EmbedProperties|
    requires s.writerKwargs == WriterKwargsAsWritten(o) && WritesVideo(s, camNum)
    ensures ConnectError(s, camNum, videoModes, existing, available).Some?
    ensures ConfiguredImgSize(ModeName(s.camKwargs.videoMode), videoModes).Ok? ==>
              ConnectError(s, camNum, videoModes, existing, available) == Some(TypeError)
  {
    WriterKwargsAsWrittenFails(o);
  }

  /** The error connecting each camera of camNums raises, if any, in order. */
  function ConnectErrors(s: Settings, camNums: seq<int>, videoModes: seq<(string, int)>, existing: set<string>,
                         available: seq<(string, bool)>): (r: seq<Option<Error>>)
    requires DistinctKeys(available)
    ensures |r| == |camNums| && forall p :: 0 <= p < |camNums| ==> r[p] == ConnectError(s, camNums[p], videoModes, existing, available)
  {
    seq(|camNums|, p requires 0 <= p < |camNums| => ConnectError(s, camNums[p], videoModes, existing, available))
  }

  /** One camera of connect_cameras: connect it, then open its writer when it records. */
  method ConnectOne(s: Settings, camNum: int, videoModes: seq<(string, int)>, existing: set<string>,
                    available: seq<(string, bool)>)
    returns (r: Result<Camera>)
    requires DistinctKeys(available)
    ensures r.Err? <==> ConnectError(s, camNum, videoModes, existing, available).Some?
    ensures r.Err? ==> r.error == ConnectError(s, camNum, videoModes, existing, available).value
    ensures r.Ok? ==> fresh(r.value) && ConnectedAs(s, camNum, existing, r.value)
  {
    var outfile := ConnectOutfile(s, camNum);
    var c := Camera.Connect(camNum, ModeName(s.camKwargs.videoMode), videoModes);
    if c.Err? {
      return Err(c.error);
    }
    var cam := c.value;
    if WritesVideo(s, camNum) {
      var failed := OpenWriterWith(cam, outfile.value, s.writerKwargs, existing, available);
      if failed.Some? {
        return Err(failed.value);
      }
    }
    return Ok(cam);
  }

  /** The handles appended after `before` are the cameras of the settings, in order, each connected as its number. */
  ghost predicate HandlesConnected(s: Settings, existing: set<string>, before: seq<Camera>, handles: seq<Camera>)
    reads set c | c in handles
  {
    |before| <= |handles| <= |before| + |s.camNums| &&
    forall p :: |before| <= p < |handles| ==> ConnectedAs(s, s.camNums[p - |before|], existing, handles[p])
  }

  /** Appending camera k, connected as the k-th number, keeps the handles connected. */
  lemma HandlesConnectedAppend(s: Settings, existing: set<string>, before: seq<Camera>, handles: seq<Camera>, c: Camera)
    requires HandlesConnected(s, existing, before, handles) && |handles| < |before| + |s.camNums|
    requires ConnectedAs(s, s.camNums[|handles| - |before|], existing, c)
    ensures HandlesConnected(s, existing, before, handles + [c])
  {
    forall p | |before| <= p < |handles| + 1
      ensures ConnectedAs(s, s.camNums[p - |before|], existing, (handles + [c])[p])
    {
      if p < |handles| {
        assert (handles + [c])[p] == handles[p];
      }
    }
  }

  class MainWindow {
    var camMode: string
    var rows: seq<Row>
    var previewEnabled: bool
    var previewChecked: bool
    var pixelFormatEnabled: bool
    var pixelFormat: string
    var vidMode: string
    var framerate: string
    var grabMode: string
    var saveOutput: bool
    var outputFile: string
    var options: OutputOptions
    var settings: Option<Settings>
    var camHandles: seq<Camera>

    ghost predicate Valid()
      reads this
    {
      |options.embedChecked| == |EmbedProperties|
    }

    /** The window as built from the defaults: multi mode, every camera on the bus checked, saving on. */
    constructor(available: seq<(int, int)>)
      ensures Valid()
      ensures camMode == "Multi" && |rows| == |available|
      ensures forall i :: 0 <= i < |available| ==> rows[i] == Row(true, available[i].0)
      ensures !previewEnabled && !pixelFormatEnabled && saveOutput && settings.None? && camHandles == []
    {
      camMode := "Multi";
      rows := seq(|available|, i requires 0 <= i < |available| => Row(true, available[i].0));
      previewEnabled := false;
      previewChecked := false;
      pixelFormatEnabled := false;
      pixelFormat := "RGB";
      vidMode := "VM_640x480RGB";
      framerate := "FR_30";
      grabMode := "BUFFER_FRAMES";
      saveOutput := true;
      outputFile := "";
      options := OutputOptions("Auto", false, true, 75, 1000000, None,
                               [true, false, false, false, false, false, false, false, false]);
      settings := None;
      camHandles := [];
    }

    /**
     * In single mode, clicking row `row` leaves exactly that row checked;
     * in multi mode the table is left alone.
     */
    method SetCamTableSelectivity(row: int)
      modifies this`rows
      ensures camMode == "Single" ==>
                |rows| == |old(rows)| &&
                forall i :: 0 <= i < |rows| ==> rows[i] == Row(i == row, old(rows)[i].camNum)
      ensures camMode != "Single" ==> rows == old(rows)
    {
      if camMode == "Single" {
        var i := 0;
        while i < |rows|
          invariant 0 <= i <= |rows| == |old(rows)|
          invariant forall p :: 0 <= p < |rows| ==>
                      rows[p] == (if p < i then Row(p == row, old(rows)[p].camNum) else old(rows)[p])
        {
          rows := rows[i := Row(i == row, rows[i].camNum)];
          i := i + 1;
        }
      }
    }

    /**
     * A new camera mode: 'Multi' checks every row, 'Single' only the first;
     * preview and pixel format are usable in single mode only.
     */
    method OnCameraModeChange(text: string)
      modifies this`rows, this`previewEnabled, this`pixelFormatEnabled
      ensures |rows| == |old(rows)|
      ensures forall i :: 0 <= i < |rows| ==>
                rows[i] == Row(text == "Multi" || (text == "Single" && i == 0), old(rows)[i].camNum)
      ensures previewEnabled == (text == "Single") && pixelFormatEnabled == (text == "Single")
    {
      var i := 0;
      while i < |rows|
        invariant 0 <= i <= |rows| == |old(rows)|
        invariant forall p :: 0 <= p < |rows| ==>
                    rows[p] == (if p < i then Row(text == "Multi" || (text == "Single" && p == 0), old(rows)[p].camNum)
                                else old(rows)[p])
      {
        rows := rows[i := Row(text == "Multi" || (text == "Single" && i == 0), rows[i].camNum)];
        i := i + 1;
      }
      previewEnabled := text == "Single";
      pixelFormatEnabled := text == "Single";
    }

    /**
     * extract_settings: the checked cameras in table order (exactly one in
     * single mode, else AssertionError), the camera options, and with
     * saving on a non-empty file name (else an exception) and its writer
     * keywords. Preview counts only when its box is both usable and checked.
     */
    method ExtractSettings() returns (r: Result<()>)
      requires Valid()
      modifies this`settings
      ensures camMode == "Single" && |SelectedNums(rows)| != 1 ==> r == Err(AssertionError)
      ensures !(camMode == "Single" && |SelectedNums(rows)| != 1) && saveOutput && outputFile == "" ==>
                r == Err(GenericException)
      ensures !(camMode == "Single" && |SelectedNums(rows)| != 1) && !(saveOutput && outputFile == "") ==> r.Ok?
      ensures r.Err? ==> settings == old(settings)
      ensures r.Ok? ==>
                settings == Some(Settings(camMode, SelectedNums(rows), CamKwargs(vidMode, framerate, grabMode),
                                          if saveOutput then Some(outputFile) else None,
                                          if saveOutput then WriterKwargs(options) else map[],
                                          previewEnabled && previewChecked, pixelFormat))
    {
      var preview := previewEnabled && previewChecked;
      var camNums := CollectChecked(CheckFlags(rows), RowNums(rows));
      if camMode == "Single" && |camNums| != 1 {
        return Err(AssertionError);
      }
      var outfile: Option<string> := None;
      var writerKwargs: map<string, Kw> := map[];
      if saveOutput {
        if outputFile == "" {
          return Err(GenericException);
        }
        outfile := Some(outputFile);
        writerKwargs := WriterKwargs(options);
      }
      settings := Some(Settings(camMode, camNums, CamKwargs(vidMode, framerate, grabMode), outfile,
                                writerKwargs, preview, pixelFormat));
      return Ok(());
    }

    /**
     * connect_cameras: no selected camera is an exception; otherwise each
     * camera in order is connected with the extracted camera options, gets
     * a writer when its outfile is non-empty, and is appended to the
     * handles. The first failure ends the loop, after the handles of the
     * cameras before it were appended.
     */
    method ConnectCameras(videoModes: seq<(string, int)>, existing: set<string>, available: seq<(string, bool)>)
      returns (r: Result<()>)
      requires settings.Some? && DistinctKeys(available)
      modifies this`camHandles
      ensures settings.value.camNums == [] ==> r == Err(GenericException) && camHandles == old(camHandles)
      ensures |old(camHandles)| <= |camHandles| <= |old(camHandles)| + |settings.value.camNums|
      ensures camHandles[..|old(camHandles)|] == old(camHandles)
      ensures r.Ok? ==> |camHandles| == |old(camHandles)| + |settings.value.camNums|
      ensures var s := settings.value;
              var errs := ConnectErrors(s, s.camNums, videoModes, existing, available);
              var f := FirstSome(errs);
              s.camNums != [] ==>
                |camHandles| == |old(camHandles)| + f && (r.Ok? <==> f == |s.camNums|) &&
                (r.Err? ==> r.error == errs[f].value)
      ensures forall k :: |old(camHandles)| <= k < |camHandles| ==> fresh(camHandles[k])
      ensures HandlesConnected(settings.value, existing, old(camHandles), camHandles)
    {
      var s := settings.value;
      if s.camNums == [] {
        return Err(GenericException);
      }
      ghost var before := camHandles;
      ghost var errs := ConnectErrors(s, s.camNums, videoModes, existing, available);
      var k := 0;
      while k < |s.camNums|
        invariant 0 <= k <= |s.camNums| && |camHandles| == |before| + k && camHandles[..|before|] == before
        invariant forall p :: |before| <= p < |camHandles| ==> fresh(camHandles[p])
        invariant HandlesConnected(s, existing, before, camHandles)
        invariant NoneBefore(errs, k)
      {
        var c := ConnectOne(s, s.camNums[k], videoModes, existing, available);
        assert errs[k] == ConnectError(s, s.camNums[k], videoModes, existing, available);
        if c.Err? {
          FirstSomeAt(errs, k);
          return Err(c.error);
        }
        NoneBeforeStep(errs, k);
        HandlesConnectedAppend(s, existing, before, camHandles, c.value);
        camHandles := camHandles + [c.value];
        k := k + 1;
      }
      FirstSomeAt(errs, k);
      return Ok(());
    }
  }
}
