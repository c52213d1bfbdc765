# FlyCaptureTools, modelled in Dafny

FlyCaptureTools drives Point Grey / FLIR cameras through the PyCapture2 SDK.
It records video from one or several cameras, shows a live tiled display,
and reads back the information the camera embeds in the top-left pixels of
each frame. This project models its decision-making core and proves
properties of it:

- **The `Camera` wrapper** (`FlyCaptureUtils.py`) becomes a Dafny `class`
  whose fields are updated in place. The fields are the capture and writer
  flags, the open writer target, the csv file, the images written and the
  SDK calls made, in order. The file also holds the lookup-table helpers:
  `enum2dict`, `imgSize_from_vidMode` and `listAvailableModes`.
  `openVideoWriter` is modelled in full: format inference, default
  extension, clobber check, embedded-information flags, the csv file and
  the writer for each format.
- **The embedded-information decoder** (`extract_embedded_image_info.py`)
  becomes functions on frames given as rows of byte pixels, plus the looping
  methods proved equal to them. Also modelled: how the output file names are
  resolved, and how a decoded row is flattened into csv columns.
- **The four runners** (`run_multi_camera_threading.py`,
  `run_multi_camera_series.py`, `run_multi_cameras.py`, `run_camera.py`)
  and the Qt front end (`gui.py`):
  - per-camera output names and the near-square display grid;
  - the single-slot frame queues and the tile writes into the viewport array;
  - the capture, display, set-up, readiness and shutdown loops, as methods
    over the camera objects;
  - the command-line and widget checks, and how the writer keywords bind to
    `openVideoWriter`'s parameters.

The SDK, the file system and the clock are parameters:
- what each `retrieveBuffer` delivers (`acquired`);
- which files already exist (`existing`);
- which embedded properties the camera offers (`available`);
- which mode and frame-rate pairs it supports (`supported`);
- the key pressed, whether a worker is alive, and what `join` observed.

`os.path.splitext` is modelled for POSIX paths (separator `/`).

Modules: `Common` (Option/Result, Python string helpers, `splitext`, `int`
and `str`, `str.replace`, order-preserving filter), `OutputNames`,
`FlyCaptureUtils`, `EmbeddedInfo`, `Tiling`, `FrameQueue`,
`MultiCameraThreading`, `MultiCameraSeries`, `MultiCameras`, `RunCamera`,
`Gui`.

## Model

| member | source | states |
|---|---|---|
| Common.ParseInt | run_camera.py:488 | `int()` of a string succeeds exactly on an optional sign followed by at least one ASCII digit; anything else is a ValueError |
| Common.ParseIntOfIntToString | gui.py:466 | a camera number the table stores as `str(cam_num)` (line 218) reads back through `int()` as the same number, for every integer |
| Common.SplitExt | FlyCaptureUtils.py:414 | `os.path.splitext`: root followed by extension is the path; the extension is empty or a dot followed by no dot or `/`; an extension is only split off behind a non-dot character of the final component |
| Common.SplitExtInsert | run_camera.py:216-217 | splicing a piece with no `.` or `/` between root and extension gives a path whose root is the old root plus the piece, with the same extension |
| Common.SplitExtAppendExt | FlyCaptureUtils.py:405-409 | appending `.` plus a dot-free, slash-free suffix to a path with a named final component makes that suffix the extension and the old path the root |
| Common.CollectChecked | gui.py:463-468 | the append loop over the table returns exactly the checked items, in table order |
| Common.CheckedMembers | gui.py:463-468 | an item is kept exactly when some checked position holds it |
| Common.CheckedAllOrNone | gui.py:510-513 | with every box checked all items are kept in order; with none checked nothing is |
| Common.CheckedSingle | gui.py:469-470 | with only position k checked the result is the single item k |
| OutputNames.CamTag | run_camera.py:217 | the tag `-cam<n>` holds no `.` and no `/`, so it never moves the point where `splitext` cuts |
| OutputNames.CamOutfile | run_camera.py:215-219 | a camera gets a file exactly when a base outfile is given; it starts with the base's root and ends with the base's extension |
| OutputNames.CamOutfileKeepsExtension | run_multi_camera_threading.py:118-120 | the camera's file splits into (base root + `-cam<n>`, base extension) |
| OutputNames.CamOutfileInjective | run_multi_camera_series.py:46-48 | two camera numbers that give the same file are the same number |
| OutputNames.NumberedOutfile | run_multi_cameras.py:98-99 | a numbered file exists exactly when the outfile is given and non-empty |
| OutputNames.NumberedOutfileProperties | run_multi_cameras.py:99 | the numbered file splits into (root + `str(n)`, extension) and differs for different camera numbers |
| FlyCaptureUtils.EnumToDict | FlyCaptureUtils.py:38-42 | an attribute survives exactly when it is not a dunder name and the filter accepts it; nothing is added |
| FlyCaptureUtils.LookupKey | FlyCaptureUtils.py:249 | `VIDEO_MODES[name]` fails (KeyError) exactly when no entry carries the name |
| FlyCaptureUtils.LookupKeyAt | FlyCaptureUtils.py:521 | in a table with distinct keys the lookup of entry i's key is entry i's value |
| FlyCaptureUtils.KeysWithValue | FlyCaptureUtils.py:60 | the reverse lookup lists exactly the names stored with the code, and is empty exactly when no entry has it |
| FlyCaptureUtils.KeysWithValueSingle | FlyCaptureUtils.py:60-63 | with distinct codes the reverse lookup of entry i's code is exactly entry i's name |
| FlyCaptureUtils.KeysWithValueShared | FlyCaptureUtils.py:61-62 | two names sharing a code make the reverse lookup ambiguous (the RuntimeError case) |
| FlyCaptureUtils.SplitOnOnce | FlyCaptureUtils.py:66 | a name with exactly one `x` splits into the two parts around it |
| FlyCaptureUtils.LeadingDigits | FlyCaptureUtils.py:73 | the match of `^[0-9]*` is a prefix of digits that stops at the first non-digit |
| FlyCaptureUtils.LeadingDigitsOf | FlyCaptureUtils.py:73 | digits followed by a non-digit (or nothing) match as exactly those digits, so `480YUV422` gives `480` |
| FlyCaptureUtils.ImgSizeFromModeName | FlyCaptureUtils.py:65-76 | a mode name fails only with ValueError, and succeeds only when it splits at `x` into exactly two parts |
| FlyCaptureUtils.ImgSizeOfStandardName | FlyCaptureUtils.py:65-76 | `VM_<w>x<h><tail>` gives back (w, h) for every tail without `x` that does not start with a digit |
| FlyCaptureUtils.ImgSizeFromVidMode | FlyCaptureUtils.py:44-76 | `imgSize_from_vidMode` fails only with ValueError, IndexError or RuntimeError, and a height is never negative |
| FlyCaptureUtils.ImgSizeOfCode | FlyCaptureUtils.py:59-63 | a code of a table with distinct codes gives the size of its one name |
| FlyCaptureUtils.ImgSizeOfBadCode | FlyCaptureUtils.py:59-63 | a code no name carries is an IndexError; a code two names share is a RuntimeError |
| FlyCaptureUtils.ConfiguredImgSize | FlyCaptureUtils.py:248-276 | a mode given as a code goes straight to `imgSize_from_vidMode` |
| FlyCaptureUtils.ConfiguredImgSizeByName | FlyCaptureUtils.py:248-276 | with distinct names and codes the name-to-code-to-name round trip is the identity: a known name gives the size it spells, an unknown one is a KeyError |
| FlyCaptureUtils.RatePairsMembers | FlyCaptureUtils.py:161-166 | for one mode, a pair is listed exactly when the camera answers true for that mode and rate |
| FlyCaptureUtils.ModePairsSound | FlyCaptureUtils.py:159-167 | every listed pair is a mode and frame rate the camera supports |
| FlyCaptureUtils.ModePairsComplete | FlyCaptureUtils.py:159-167 | every supported mode and frame rate is listed |
| FlyCaptureUtils.ModePairsMembers | FlyCaptureUtils.py:159-167 | a pair is listed exactly when it is a supported (mode name, rate name) pair; a query that raises counts as unsupported |
| FlyCaptureUtils.ListAvailableModes | FlyCaptureUtils.py:145-167 | giving neither or both of `cam_num` and `cam` is a ValueError; otherwise the result is exactly the supported pairs |
| FlyCaptureUtils.InferFormat | FlyCaptureUtils.py:384-395 | inference fails only with ValueError, never yields MJPG, and needs an extension |
| FlyCaptureUtils.ResolveFormat | FlyCaptureUtils.py:384-402 | format resolution fails only with ValueError, and with no format given it is the inference from the extension |
| FlyCaptureUtils.ResolveFormatByName | FlyCaptureUtils.py:398-402 | naming a format, in upper or lower case, selects it whatever the file name says |
| FlyCaptureUtils.WithDefaultExtension | FlyCaptureUtils.py:405-409 | a name with an extension is unchanged; otherwise it is only extended |
| FlyCaptureUtils.DefaultExtensionInfers | FlyCaptureUtils.py:405-409 | the extension added by default is read back by the inference: AVI and MJPG as AVI, H264 as H264 |
| FlyCaptureUtils.AppendedExtension | FlyCaptureUtils.py:385 | a lower-case extension appended to a name with a named final component is exactly the extension the case-insensitive test reads back |
| FlyCaptureUtils.AltFilename | FlyCaptureUtils.py:414-415 | the `-0000` alternative keeps the extension |
| FlyCaptureUtils.WriterPlan | FlyCaptureUtils.py:384-417 | the writer's file and format: errors are ValueError or OSError; the format is the resolved one; the file extends the given name; without overwrite neither it nor its `-0000` variant exists yet; with overwrite a resolvable format always succeeds |
| FlyCaptureUtils.CsvFilename | FlyCaptureUtils.py:440 | the timestamps file has the video's root and ends in `.csv` |
| FlyCaptureUtils.FirstFailure | FlyCaptureUtils.py:429-433 | no failure exactly when every requested name is known and available; otherwise a KeyError or ValueError |
| FlyCaptureUtils.EmbedFlags | FlyCaptureUtils.py:420-434 | the flags cover exactly the camera's properties; they fail exactly when a list (without `all`) names an unknown or unavailable property, with the first such error |
| FlyCaptureUtils.EmbedFlagsMeaning | FlyCaptureUtils.py:422-434 | property by property: false when nothing is embedded, its availability under `all`, and membership in the list otherwise |
| FlyCaptureUtils.AllFlags | FlyCaptureUtils.py:425-427 | the `all` loop gives each property its availability |
| FlyCaptureUtils.NamedFlags | FlyCaptureUtils.py:428-434 | the list loop stops with the first unknown or unavailable name's error, and otherwise sets exactly the listed flags |
| FlyCaptureUtils.BuildEmbedFlags | FlyCaptureUtils.py:420-434 | the flag-building step of `openVideoWriter` computes `EmbedFlags` |
| FlyCaptureUtils.BindWriterKwargs | FlyCaptureUtils.py:338-341 | `**writer_kwargs` is a TypeError exactly when it holds a keyword `openVideoWriter` does not declare; otherwise each parameter takes the given value or its default |
| FlyCaptureUtils.BindAllGiven | FlyCaptureUtils.py:338-341 | keywords that name every parameter bind to themselves |
| FlyCaptureUtils.Images | FlyCaptureUtils.py:322-328 | the images of a run of `getImage` calls: empty exactly when none was acquired |
| FlyCaptureUtils.TargetFor | FlyCaptureUtils.py:460-471 | the writer opened is the AVI, MJPG or H264 writer exactly for that format, on the planned file |
| FlyCaptureUtils.Camera.constructor | FlyCaptureUtils.py:282-289 | a new camera has no capture, no writer, no csv file and nothing written |
| FlyCaptureUtils.Camera.Connect | FlyCaptureUtils.py:248-276 | construction fails exactly when the mode's resolution cannot be found, with that error; otherwise the camera is fresh, idle and records that resolution |
| FlyCaptureUtils.Camera.GetImage | FlyCaptureUtils.py:316-336 | a bad `onError` is a ValueError; a failed acquisition raises only under `error`; an acquired image is returned and goes to the writer, with its timestamp to the csv file, exactly when they exist |
| FlyCaptureUtils.Camera.OpenVideoWriter | FlyCaptureUtils.py:338-474 | a failure before the SDK flags are set changes nothing; an existing csv file is an OSError after the flags are set; otherwise the writer of the planned format is open on the planned file, with the given or configured size, and the calls are the flags, the csv file and the writer, in order |
| FlyCaptureUtils.Camera.OpenPlanned | FlyCaptureUtils.py:436-474 | after the flags: the csv clobber check, then the writer for the format is opened and recorded |
| FlyCaptureUtils.Camera.CloseVideoWriter | FlyCaptureUtils.py:480-481 | closing with no writer ever opened is an AttributeError that changes nothing; otherwise the writer is closed |
| FlyCaptureUtils.Camera.StartCapture | FlyCaptureUtils.py:488-489 | capture is on and one start call is made |
| FlyCaptureUtils.Camera.StopCapture | FlyCaptureUtils.py:495-496 | capture is off and one stop call is made |
| FlyCaptureUtils.Camera.Close | FlyCaptureUtils.py:503-517 | stop only when capturing, close the writer (and csv file) only when open, then disconnect; afterwards nothing is on |
| FlyCaptureUtils.WriterFailure | FlyCaptureUtils.py:384-441 | `openVideoWriter` on bound arguments raises only ValueError, KeyError or OSError; with overwrite on, a resolvable format and valid embed names it does not fail, and it never succeeds without both |
| FlyCaptureUtils.OpenFailure | FlyCaptureUtils.py:338-441 | an undeclared keyword is a TypeError before anything else; otherwise the failures are those of the bound call |
| FlyCaptureUtils.PlannedFile | FlyCaptureUtils.py:404-409 | the file written to starts with the name given |
| FlyCaptureUtils.OpenWriterWith | run_camera.py:83-84 | `cam.openVideoWriter(outfile, **writer_kwargs)` fails exactly with `OpenFailure`, and on success the camera's writer is open on `PlannedFile` |
| EmbeddedInfo.BitsOf | extract_embedded_image_info.py:87 | `np.binary_repr(x, width)` has exactly `width` bits |
| EmbeddedInfo.BinValOfBits | extract_embedded_image_info.py:87-108 | `int(np.binary_repr(x, w), 2)` is x modulo 2^w |
| EmbeddedInfo.Bits | extract_embedded_image_info.py:87 | the bit string of the pixels has eight bits per pixel |
| EmbeddedInfo.BinValOfData | extract_embedded_image_info.py:86-108 | the joined bit string of the pixels reads back as their big-endian value |
| EmbeddedInfo.ByteBits | extract_embedded_image_info.py:87 | a pixel's eight bits read back as the pixel |
| EmbeddedInfo.FourBytes | extract_embedded_image_info.py:86-87 | four pixels form one 32-bit big-endian word |
| EmbeddedInfo.Slice | extract_embedded_image_info.py:86 | Python's clamped slice is never longer than the sequence |
| EmbeddedInfo.DecodeField | extract_embedded_image_info.py:91-108 | decoding fails only with ValueError, and yields a timestamp exactly for `timestamp` and a position exactly for `ROIPosition` |
| EmbeddedInfo.DecodeFourBytes | extract_embedded_image_info.py:91-108 | from four pixels with word v: a timestamp is v's top 7, middle 13 and low 12 bits; an ROI position v's high and low halves; any other property v itself |
| EmbeddedInfo.TimestampBits | extract_embedded_image_info.py:92-94 | bits 0-6, 7-19 and 20-31 of a 32-bit string are the word's top 7, middle 13 and low 12 bits |
| EmbeddedInfo.RoiBits | extract_embedded_image_info.py:104 | bits 0-15 and 16-31 are the word's high and low halves |
| EmbeddedInfo.DecodedFieldBounds | extract_embedded_image_info.py:91-108 | four pixels always decode; second count < 128, cycle count < 8192, cycle offset < 4096, ROI fields < 65536, plain values < 2^32 |
| EmbeddedInfo.DecodeShortData | extract_embedded_image_info.py:86-108 | when row 0 runs out: a timestamp or ROI position needs three pixels and any property at least one, else ValueError; with three or more pixels decoding succeeds |
| EmbeddedInfo.ChannelsAgree | extract_embedded_image_info.py:64-67 | the channel loop accepts exactly the frames whose every channel equals channel 0 |
| EmbeddedInfo.InOrder | extract_embedded_image_info.py:80-83 | the walk visits exactly the requested properties that are in the order |
| EmbeddedInfo.DecodeAll | extract_embedded_image_info.py:78-108 | the walk fails only with ValueError or IndexError |
| EmbeddedInfo.DecodeAllKeys | extract_embedded_image_info.py:78-88 | a successful walk has one entry per requested property, in the fixed order |
| EmbeddedInfo.DecodeAllFields | extract_embedded_image_info.py:86-88 | entry k of a successful walk is decoded from pixels idx+4k .. idx+4k+3 of row 0 |
| EmbeddedInfo.ExtractMeaning | extract_embedded_image_info.py:55-111 | a non-uint8 frame is a TypeError, a colour frame with differing channels a ValueError, an unknown name a ValueError; a result has exactly the requested names, in order, each decoded from the next four pixels of row 0 |
| EmbeddedInfo.InOrderAll | extract_embedded_image_info.py:80-83 | requesting every name of the order keeps the whole order |
| EmbeddedInfo.AllMeansEveryProperty | extract_embedded_image_info.py:55-56 | `all`, alone or in the list, requests every property; otherwise the list itself |
| EmbeddedInfo.ExtractEveryProperty | extract_embedded_image_info.py:55-111 | requesting the whole order decodes every property of it, in order |
| EmbeddedInfo.ExtractInfo | extract_embedded_image_info.py:31-111 | `extractInfo` decodes the requested properties (`all` meaning every one) over the fixed PROPERTIES order, as `ExtractMeaning` and `AllMeansEveryProperty` describe |
| EmbeddedInfo.ExtractOver | extract_embedded_image_info.py:59-111 | the channel loop, the name loop and the walk with its running offset compute `Extract` |
| EmbeddedInfo.DefaultOutfile | extract_embedded_image_info.py:191-193 | the default output starts with the input's root and ends in `-embedded_info.csv` |
| EmbeddedInfo.ResolveOutfiles | extract_embedded_image_info.py:191-195 | a given output list of another length is an OSError; otherwise one output per input, the defaults or the given list |
| EmbeddedInfo.CsvOutfileAsWritten | extract_embedded_image_info.py:202-207 | as written: no extension gains `.csv`, and another extension is rewritten wherever its text occurs in the path; the output always ends in `.csv` |
| EmbeddedInfo.CsvOutfileAsWrittenAgrees | extract_embedded_image_info.py:202-207 | the rule as written names the same file as the corrected one whenever the extension text does not occur in the root |
| EmbeddedInfo.CsvOutfile | extract_embedded_image_info.py:202-207 | the corrected line 207 (see Findings): no extension gains `.csv`; another extension is replaced by `.csv` on the same root |
| EmbeddedInfo.CsvOutfileExtension | extract_embedded_image_info.py:202-207 | the corrected rule keeps directory and root and always leaves `.csv` as the extension |
| EmbeddedInfo.CsvOutfileAsWrittenRewritesDirectory | extract_embedded_image_info.py:207 | `str.replace` also rewrites a directory carrying the same extension text (`a.b/c.b` becomes `a.csv/c.csv`, not `a.b/c.csv`) |
| EmbeddedInfo.SameShapeSameColumns | extract_embedded_image_info.py:217-225 | rows with the same keys and value kinds flatten to the same column names |
| EmbeddedInfo.KindsFollowNames | extract_embedded_image_info.py:91-108 | each entry's kind of value is fixed by its property name |
| EmbeddedInfo.ExtractedKinds | extract_embedded_image_info.py:78-108 | a decoded row's keys are the requested properties in order, each with the kind its name fixes |
| EmbeddedInfo.HeaderFixedByRequest | extract_embedded_image_info.py:228-234 | every frame decoded with the same request flattens to the header written for the first, so the csv writer accepts every row |
| EmbeddedInfo.FlattenNames | extract_embedded_image_info.py:217-225 | a flattened row's columns are the plain ones, then the `timestamp.*` ones, then the `ROIPosition.*` ones |
| Tiling.ISqrt | run_multi_cameras.py:87 | `floor(sqrt(n))`: r² ≤ n < (r+1)² |
| Tiling.CeilDiv | run_multi_cameras.py:88 | `ceil(a / b)`: the least r with b·r ≥ a |
| Tiling.GridShape | run_multi_cameras.py:86-88 | the grid has at least one row and one column |
| Tiling.GridCovers | run_multi_cameras.py:86-89 | the grid has a slot for every camera, no column is left wholly empty, and the rows are the integer square root |
| Tiling.GridNotTooWide | run_multi_camera_series.py:54-56 | the grid is never narrower than tall and at most two columns wider |
| Tiling.Tile | run_multi_camera_threading.py:154 | `np.unravel_index(k, (nRows, nCols))`: the column is below nCols and row·nCols + column = k |
| Tiling.TileInGrid | run_multi_camera_threading.py:154 | every camera position's tile lies inside the grid |
| Tiling.TilesDistinct | run_multi_camera_threading.py:154 | different positions have different tiles |
| Tiling.TileOfPixel | run_multi_camera_threading.py:171 | the tile a pixel lies in is determined by the pixel |
| Tiling.TilesDisjoint | run_multi_camera_threading.py:171 | the tiles of two positions share no pixel |
| Tiling.NewViewport | run_multi_camera_threading.py:101-106 | the viewport is nRows·h by nCols·w, every pixel zero |
| Tiling.WriteTile | run_multi_camera_threading.py:171 | the slice assignment gives tile (i, j) the frame's pixels and leaves every other pixel as it was |
| Tiling.ShownStep | run_multi_camera_threading.py:171 | drawing position k changes exactly the pixels of its tile, and only when it brought a frame |
| Tiling.StopAt | run_multi_camera_threading.py:153-171 | a pass stops at the first position whose worker is dead or whose frame does not fit its tile |
| Tiling.DrawStep | run_multi_camera_threading.py:164-171 | drawing position k keeps the viewport equal to what positions 0 .. k drew over the original pixels |
| FrameQueue.Mailbox.constructor | run_multi_camera_threading.py:124 | `Queue(maxsize=1)` starts empty |
| FrameQueue.Mailbox.PutNowait | run_multi_camera_threading.py:73-76 | `put_nowait` fails (Full) exactly when an item is queued, which then stays; otherwise the item is queued |
| FrameQueue.Mailbox.GetNowait | run_multi_camera_threading.py:165-168 | `get_nowait` returns the queued item (None for Empty) and leaves the queue empty |
| MultiCameraThreading.WorkerOutfiles | run_multi_camera_threading.py:116-122 | worker k writes the camera file of camera number k |
| MultiCameraThreading.WorkerOutfilesDistinct | run_multi_camera_threading.py:116-122 | workers for different cameras never share a file, and without a base name none writes |
| MultiCameraThreading.WorkerStep | run_multi_camera_threading.py:65-76 | an acquired image goes to the writer, and its timestamp row to the csv file when one is open, and its frame to an empty queue; a full queue keeps its frame |
| MultiCameraThreading.DisplayTick | run_multi_camera_threading.py:152-179 | one display pass: every queue up to the stop point is emptied (a dead worker's queue is left as it was), every pixel shows what those positions drew, and the loop goes on exactly when no worker died, no frame misfit and Esc was not pressed |
| MultiCameraSeries.OpenWithArgs | run_multi_camera_series.py:49 | fails exactly with `WriterFailure` and that error; on success the writer is open on the planned file |
| MultiCameraSeries.SetupError | run_multi_camera_series.py:41-49 | an unknown mode's resolution is the error; without a base outfile nothing else fails, and with one a camera that raises nothing has a planned file |
| MultiCameraSeries.SetupOne | run_multi_camera_series.py:41-52 | fails exactly with `SetupError`; a camera set up is fresh, connected as its number, not capturing, with a writer on its own file exactly when the run saves video |
| MultiCameraSeries.SeriesSetup | run_multi_camera_series.py:39-52 | succeeds exactly when no camera number has a `SetupError`, and otherwise fails with the first one's error; on success there is one distinct set-up camera per number, in order, each on its own file |
| MultiCameraSeries.SeriesStart | run_multi_camera_series.py:71-72 | every camera is capturing after exactly one more start call |
| MultiCameraSeries.Acquired | run_multi_camera_series.py:78-83 | a frame is drawn exactly for the cameras that acquired an image |
| MultiCameraSeries.PollCamera | run_multi_camera_series.py:78-83 | the converted frame exactly when an image arrived, which also goes to the writer, and its timestamp row to the csv file when one is open |
| MultiCameraSeries.DrawCamera | run_multi_camera_series.py:76-85 | one camera's turn: it is polled, and its frame is drawn into its tile unless the frame does not fit, which leaves the viewport untouched |
| MultiCameraSeries.SeriesTick | run_multi_camera_series.py:58-93 | one pass: cameras up to the stop point write what they acquired to the writer and the csv file, every pixel shows what those positions drew, a misfit frame is a ValueError, and Esc ends the loop |
| MultiCameraSeries.SeriesShutdown | run_multi_camera_series.py:96-98 | each camera is stopped once, its writer closed if open, and disconnected |
| MultiCameras.CameraOutfiles | run_multi_cameras.py:94-100 | camera k's file is the numbered outfile of camera number k |
| MultiCameras.CameraOutfilesDistinct | run_multi_cameras.py:98-100 | different cameras write different files; an empty or missing outfile opens no writer |
| MultiCameras.Namespace | run_multi_cameras.py:183-184 | the parsed options hold `frame_rate` (the dest of `--frame-rate`) and no `framerate` |
| MultiCameras.GetAttr | run_multi_cameras.py:216-218 | `getattr(args, name)` is an AttributeError exactly when the parser set no such attribute |
| MultiCameras.CamKwargsAsWrittenFails | run_multi_cameras.py:217 | as written, building `cam_kwargs` raises AttributeError on every command line |
| MultiCameras.CamKwargs | run_multi_cameras.py:216-218 | as intended, the camera keywords are the parsed video mode, frame rate and grab mode |
| MultiCameras.CheckedFormat | run_multi_cameras.py:222-253 | a recording format is only chosen with an output; MJPG needs a quality, H264 a size and a bitrate |
| MultiCameras.CheckedFormatErrors | run_multi_cameras.py:222-250 | no `-c` is a TypeError, fewer than two cameras an OSError, an unknown extension a ValueError; MJPG and H264 are accepted exactly with their settings |
| MultiCameras.WriterKwargsAsWritten | run_multi_cameras.py:225-253 | the writer keywords as written fail exactly when the checks fail |
| MultiCameras.WriterKwargsAsWrittenBinding | run_multi_cameras.py:251-252 | as written, binding to `openVideoWriter` fails exactly for H264 |
| MultiCameras.WriterKwargs | run_multi_cameras.py:225-253 | the intended writer keywords fail exactly when the checks fail |
| MultiCameras.WriterKwargsBinding | run_multi_cameras.py:225-253 | the intended keywords always bind: the checked format, the overwrite flag, the quality, size and bitrate where the format needs them and their defaults elsewhere, the default embedded properties, and no csv timestamps |
| MultiCameras.CaptureStepAsWritten | run_multi_cameras.py:50-55 | as written, an acquired image goes to the writer, and its timestamp row to the csv file when one is open, but only the flag `True` reaches an empty queue |
| MultiCameras.CaptureStep | run_multi_cameras.py:50-55 | as intended, an acquired image goes to the writer, and its timestamp row to the csv file when one is open, and to an empty queue |
| MultiCameras.CaptureLoopAsWritten | run_multi_cameras.py:49-55 | as written, every image acquired goes to the writer, and its timestamp row to the csv file when one is open, and an empty queue ends up holding `True` once any image was acquired |
| MultiCameras.CaptureLoop | run_multi_cameras.py:49-55 | as intended (line 53 putting `img`), every image acquired goes to the writer, and its timestamp row to the csv file when one is open, and an empty queue ends up holding the first one |
| MultiCameras.CaptureRunAsWritten | run_multi_cameras.py:44-68 | as written, the loop queues `True`, nothing is drained after it and only the loop's images are written, with their csv rows; `close` issues a stop only when the wrapper's own capture flag was on, which it is not after `startSyncCapture`, then closes the writer and disconnects |
| MultiCameras.UntilFailure | run_multi_cameras.py:59-62 | the drained images are those before the first failed `getImage` |
| MultiCameras.Drain | run_multi_cameras.py:59-62 | the drain loop writes exactly those images, and their csv rows when a csv file is open |
| MultiCameras.CaptureRun | run_multi_cameras.py:44-68 | as intended, the loop's images and then the drained ones are written, with their csv rows, whether or not the wrapper started capture; the camera is stopped once, its writer closed and disconnected |
| MultiCameras.NewSlots | run_multi_cameras.py:86-89 | one empty slot per grid cell |
| MultiCameras.CollectSlots | run_multi_cameras.py:136-153 | the corrected pass (see Findings), with an empty slot shown blank: slot i takes what queue i held, if anything; every queue is left empty; the loop goes on exactly when Esc was not pressed |
| MultiCameras.CollectSlotsAsWritten | run_multi_cameras.py:136-159 | as written: the same slots and queues, but the loop goes on exactly when Esc was not pressed and every slot holds a frame, because `np.block` raises on an empty slot and the handler ends the loop |
| MultiCameras.SpareSlotEndsDisplay | run_multi_cameras.py:86-89 | as written, when the grid has more cells than there are cameras, the slot after the last camera stays empty after any passes from the empty slots, so no pass gets past `np.block` |
| MultiCameras.FiveCamerasNeverDisplay | run_multi_cameras.py:146 | five cameras make a 2 by 3 grid whose sixth slot is never filled |
| MultiCameras.DisplayedAtTile | run_multi_cameras.py:146 | the corrected display shows at camera k's tile the last frame camera k delivered, or the blank tile until it delivers one |
| MultiCameras.Reshape | run_multi_cameras.py:146 | `reshape(nRows, nCols)` gives nRows rows of nCols slots |
| MultiCameras.ReshapeAtTile | run_multi_cameras.py:146 | the slot of camera k appears at k's tile, so the display is row-major |
| RunCamera.SortInts | run_camera.py:486 | `sorted()`: the same numbers, ascending |
| RunCamera.AvailableNums | run_camera.py:486 | the camera index of each bus entry, in order |
| RunCamera.ParseAll | run_camera.py:488 | every entry parses in order, or the whole list is a ValueError |
| RunCamera.ResolveCamNums | run_camera.py:454-488 | an empty bus or a missing `-c` is an OSError; `all` gives every bus camera, sorted; otherwise the parsed list; never empty on success |
| RunCamera.SelectMode | run_camera.py:490-499 | several cameras run in parallel unless a preview is asked for (OSError); one runs in this process; none is an IndexError |
| RunCamera.AllCamerasMode | run_camera.py:485-499 | with `all`, one bus camera gives single mode on it; several give multi mode over all of them, which refuses a preview |
| RunCamera.WriterKwargsAsWritten | run_camera.py:509-521 | as written, a recording run always passes `encoder`, which `openVideoWriter` rejects with TypeError |
| RunCamera.WriterKwargs | run_camera.py:509-521 | as intended, every keyword binds and `openVideoWriter` sees each given option and its own default for the rest |
| RunCamera.IntendedWriterArgs | run_camera.py:509-521 | the intended binding reads as the format name, overwrite flag, quality and bitrate (given or default), size, embedded properties and timestamps flag |
| RunCamera.AcquireAll | run_camera.py:94-95 | every image acquired until the stop event goes to the writer, and its timestamp row to the csv file when one is open |
| RunCamera.CaptureAndClose | run_camera.py:89-111 | capture (start, images to the writer and csv rows) only after a successful set-up; the SDK calls are exactly start, stop, writer and csv close when open, disconnect last |
| RunCamera.ParallelCamera.constructor | run_camera.py:57-67 | the process records its camera, outfile and keywords, named `cam<n>`, not ready, nothing queued |
| RunCamera.ParallelCamera.RunConnected | run_camera.py:82-111 | ready is signalled exactly when the writer set-up raises nothing (always without an outfile); otherwise exactly that error is queued (a TypeError for an undeclared keyword); a writer, when opened, is on the planned file; the camera is closed either way |
| RunCamera.ParallelCamera.Run | run_camera.py:78-117 | a camera that cannot be constructed queues its error; otherwise ready exactly when the set-up raises nothing, that error queued if not, the writer on the planned file, and the camera closed |
| RunCamera.Launch | run_camera.py:214-227 | one fresh process for the camera, writing the camera's own outfile |
| RunCamera.LaunchAll | run_camera.py:213-227 | one distinct fresh process per camera number, in order |
| RunCamera.FirstErrored | run_camera.py:235-242 | the first process with a queued error, or the count when none has one |
| RunCamera.AllSet | run_camera.py:245 | `all(all_ready)` |
| RunCamera.ReadinessPass | run_camera.py:234-246 | one pass records ready flags up to the first errored process, takes its error off the queue, and the wait goes on exactly when there was none, nobody timed out and someone is not ready |
| RunCamera.FailedCamerasMeaning | run_camera.py:249-252 | a name is reported exactly when a process of that name was not ready; nothing is reported exactly when all were |
| RunCamera.JoinAll | run_camera.py:300-304 | every process is joined, and terminated when it has not exited or was killed by a signal |
| Gui.SelectedNumsMembers | gui.py:463-468 | a camera number is selected exactly when some checked row carries it |
| Gui.SingleRowSelected | gui.py:469-470 | with only one row checked exactly that camera is selected, so single mode's assertion holds |
| Gui.AllRowsSelected | gui.py:214-225 | with every row checked (the default) every camera is selected, in table order |
| Gui.WriterKwargsAsWrittenFails | gui.py:487-503 | as written, every connection that opens a writer raises TypeError on the `encoder` keyword |
| Gui.WriterKwargsBinding | gui.py:487-513 | as intended, the keywords bind every parameter to its widget: format name (None for Auto), boxes, spin boxes, size and checked properties in order |
| Gui.ConnectError | gui.py:556-566 | connecting fails on an unknown mode's resolution, and a camera that does not record fails for no other reason |
| Gui.ConnectAsWrittenFails | gui.py:487-503 | as written, connecting any recording camera fails, with TypeError once the mode resolves |
| Gui.ConnectOne | gui.py:552-567 | connecting fails exactly with `ConnectError`; a connected camera is fresh, idle, has its number, with a writer exactly when its outfile is non-empty, open on the planned file |
| Gui.MainWindow.constructor | gui.py:33-55 | the window starts in multi mode with every bus camera checked, preview disabled and saving on |
| Gui.MainWindow.SetCamTableSelectivity | gui.py:528-540 | in single mode clicking a row leaves exactly that row checked; in multi mode the table is unchanged |
| Gui.MainWindow.OnCameraModeChange | gui.py:580-598 | `Multi` checks every row, `Single` only the first; preview and pixel format are usable only in single mode |
| Gui.MainWindow.ExtractSettings | gui.py:453-526 | single mode without exactly one camera is an AssertionError, saving without a file name an exception, and no other input fails; otherwise the settings hold the checked cameras in order and the widget values |
| Gui.MainWindow.ConnectCameras | gui.py:542-567 | no selected camera is an exception; otherwise the cameras before the first failing one are connected and appended in order, each as `ConnectOne` promises, the result is Ok exactly when none fails and the error is the first failure's; earlier handles are kept |

## Left out

- The PyCapture2 SDK, OpenCV, numpy, the file system and the clock are not modelled. Their answers are parameters: acquired images, existing files, embedded-property availability, supported mode/rate pairs, key codes, liveness and exit codes. The calls made on them are recorded as a call list.
- FlyCaptureUtils.Camera.Connect: camera construction's bus lookup, power-up and connect checks, the incompatible mode/rate OSError, and the frame-rate and grab-mode table lookups are SDK or table behaviour outside the resolution lookup. `Connect` models only the video-mode lookup and `img_size`.
- Threads, processes, events, barriers, timeouts and `join` are not modelled as concurrency. Each loop is one pass, or a run over a given sequence of SDK answers. The readiness `while` loop is modelled as one pass (`ReadinessPass`), and the timeout as a flag.
- `img2array`, colour conversion and `imgDepth_from_pixFormat`: the converted frame is a parameter, and the pixel depth is the viewport's element type.
- `np.pad` and the joining of tiles by `np.block` are not modelled. `Reshape` gives the grid of slots, `Displayed` the tiles the corrected loop shows, and `CollectSlotsAsWritten` the end of the loop when `np.block` meets an empty slot.
- MultiCameras.CollectSlots: models the corrected run_multi_cameras.py:89 and 146, where an empty slot is shown as a blank tile, so only Esc ends the loop; as written, the loop also ends through the handler while any slot is empty (see Findings and `CollectSlotsAsWritten`).
- EmbeddedInfo.CsvOutfile: models the corrected extract_embedded_image_info.py:207, replacing only the final extension; as written, `str.replace` rewrites every occurrence of the extension text (see Findings and `CsvOutfileAsWritten`).
- `Tiling.GridShape` requires at least one camera. With none, numpy divides by zero, and every runner fails first (fewer than two cameras, or an empty selection).
- The `--ls` listing, `getAvailableCameras`, printing, warnings and the `input()` prompts are I/O.
- `cycle_seconds` in a decoded timestamp is a float and is not modelled. The other three timestamp fields are.
- `frame.dtype()` on a non-uint8 frame is modelled as a TypeError, the error calling a dtype instance gives; the frame is never converted.
- `int()` whitespace and underscore forms are not modelled; only an optional sign and ASCII digits are.
- The GUI size box goes through `eval`; the model takes the evaluated size, or None for `Auto`.
- The GUI bitrate default `1e6` is a float in the source; it is modelled as the integer 1000000.
- Gui.MainWindow.ExtractSettings: stores the writer keywords with the encoder under `file_format`, the corrected gui.py:488 (see Findings); `ConnectAsWrittenFails` states what the keyword `encoder` does instead, and `ConnectCameras` and `ConnectOne` run on the corrected keywords.
- Gui.MainWindow.ConnectCameras: connects with the keywords `ExtractSettings` stores, so with the corrected `file_format` key; with the `encoder` key as written, every recording camera fails, as `ConnectAsWrittenFails` states.
- MultiCameras.CaptureLoop: models the corrected run_multi_cameras.py:53, putting the image on the queue; `CaptureStep` and `CaptureRun` do too, and `CaptureLoopAsWritten`, `CaptureStepAsWritten` and `CaptureRunAsWritten` model the line as written.
- FlyCaptureUtils.ResolveFormat: `Upper` maps only ASCII letters, while Python's `str.upper` also maps other letters (a format name such as `avı` becomes `AVI` in Python and is a ValueError in the model).
- Tiling.Fits: requires the frame to have exactly the tile's height and width; numpy broadcasting of other shapes into the slot is not modelled.
- `startSyncCapture` in run_multi_cameras.py starts capture on the raw SDK handles, outside the wrapper, so the wrapper's capture flag stays off; it is modelled only through `CaptureRun` and `CaptureRunAsWritten` accepting either flag.
- `BoundWriterArgs` reads only the keyword kinds the runners and the GUI produce; any other kind is taken as a TypeError.
- `OpenVideoWriter` does not add the files it creates to `existing`, so two writers opened in one run are checked against the same set of files.
- `SeriesSetup` stops at the first failure and, like the source, does not close the cameras set up before it.
- The H264 branch that raises RuntimeError when no size is known cannot happen in the model, because a camera always has a resolution once `Connect` succeeds.
- FlyCaptureUtils.Camera.GetImage: after `closeVideoWriter` the writer object stays set, so `getImage` still appends to it, in the source and in the model; what the SDK does with an append to a closed writer (an error or nothing) is not modelled. No runner calls `getImage` after closing the writer.
- `Camera.Close` models the successful path; the `try` blocks that print and swallow SDK errors there are not modelled.
- `MultiCameraSeries.SetupFiles` states only its length; what each entry is, is stated through `SeriesSetup`.
- `single_main` and `run_single_camera.py`: single-camera capture and preview, a keyboard-driven loop over the same `Camera` calls already modelled.
- The GUI's preview window, worker thread, `on_start`/`on_stop`, status text and file dialog are Qt and display code.
- `processClip` and the csv writing itself are file I/O; the header and rows they write are modelled by `FlattenRow` and `HeaderFixedByRequest`.

## Findings

| source | as written | input that shows it | evidently intended | confidence | as-written member | corrected member |
|---|---|---|---|---|---|---|
| extract_embedded_image_info.py:207 | `outfile.replace(ext, '.csv')` replaces every occurrence of the extension text in the whole path | output `a.b/c.b` becomes `a.csv/c.csv` | replace only the final extension: `a.b/c.csv` | high; not executed | EmbeddedInfo.CsvOutfileAsWrittenRewritesDirectory | EmbeddedInfo.CsvOutfileExtension |
| run_multi_cameras.py:146 | `np.block` joins the slot grid, whose slots start as `None` (line 89); a `None` slot cannot be joined to an image, so `np.block` raises and the handler at lines 155-159 ends the display loop | `-c 0 1 2 3 4`: a 2 by 3 grid whose sixth slot no camera fills, so the first pass ends the loop; with any camera count, a pass before every camera has delivered a frame | start every slot as a blank tile, so an empty slot is shown blank | high; not executed | MultiCameras.FiveCamerasNeverDisplay | MultiCameras.DisplayedAtTile |
| run_multi_cameras.py:217 | reads `args.framerate`, but the parser stores `--frame-rate` as `frame_rate` | any command line that reaches line 216, e.g. `-c 0 1` | read `args.frame_rate` | high; not executed | MultiCameras.CamKwargsAsWrittenFails | MultiCameras.CamKwargs |
| run_multi_cameras.py:251-252 | passes `width` and `height` keywords, which `openVideoWriter` does not declare | once line 217 is fixed, or when `main()` is called directly: `-c 0 1 -o out.mp4 --output-size 640 480 --output-bitrate 1000000` raises TypeError | pass `img_size=(W, H)` | high; not executed | MultiCameras.WriterKwargsAsWrittenBinding | MultiCameras.WriterKwargsBinding |
| run_multi_cameras.py:53 | puts `ret` (the success flag) on the frame queue instead of the image | once line 217 is fixed, or when `main()` is called directly: any acquired frame, after which the display loop calls `img2array(True)` | put `img` | high; not executed | MultiCameras.CaptureStepAsWritten | MultiCameras.CaptureStep |
| run_multi_cameras.py:58 | calls `cam.stop_capture()`, which `Camera` does not have; the handler swallows the AttributeError and the drain loop never runs | once line 217 is fixed, or when `main()` is called directly: any run, where frames still buffered at the stop are never written | call `cam.stopCapture()`, then drain | high; not executed | MultiCameras.CaptureRunAsWritten | MultiCameras.CaptureRun |
| run_camera.py:512 | stores the encoder under `encoder`, which `openVideoWriter` does not declare | `-c 0 -o test.avi` raises TypeError on opening the writer | pass it as `file_format` | high; not executed | RunCamera.WriterKwargsAsWritten | RunCamera.WriterKwargs |
| gui.py:488 | stores the encoder under `encoder` | saving with any encoder setting raises TypeError on connecting | pass it as `file_format` | high; not executed | Gui.WriterKwargsAsWrittenFails | Gui.WriterKwargsBinding |
