/**
 * The camera utility library: enumeration tables, video-mode parsing, the
 * mode/frame-rate query, and the Camera object that captures images and
 * writes them to an AVI, MJPG or H264 video file (optionally with a csv file
 * of timestamps and with image information embedded in the pixels).
 *
 * The SDK is not modelled; what the SDK would answer (an acquired image,
 * which embedded properties exist, whether a mode is supported, which files
 * already exist) is passed in, and the calls the object makes on the SDK are
 * recorded in order.
 */
module FlyCaptureUtils {
  import opened Common

  // ---------------------------------------------------------------------
  // enum2dict and lookup tables
  // ---------------------------------------------------------------------

  /** An attribute survives enum2dict when it is not a dunder name and the filter accepts it. */
  predicate KeepKey(k: string, keyFilter: Option<string -> bool>)
  {
    !StartsWith(k, "__") && (keyFilter.None? || keyFilter.value(k))
  }

  /**
   * enum2dict: the attributes of an SDK enumeration class, in order, minus
   * the dunder names and minus the names the optional filter rejects.
   */
  function EnumToDict<V(!new)>(attrs: seq<(string, V)>, keyFilter: Option<string -> bool>): (d: seq<(string, V)>)
    ensures |d| <= |attrs|
    ensures forall e :: e in d <==> e in attrs && KeepKey(e.0, keyFilter)
  {
    if attrs == [] then []
    else
      var n := |attrs| - 1;
      assert attrs == attrs[..n] + [attrs[n]];
      EnumToDict(attrs[..n], keyFilter) + (if KeepKey(attrs[n].0, keyFilter) then [attrs[n]] else [])
  }

  predicate DistinctKeys<V>(table: seq<(string, V)>)
  {
    forall i, j :: 0 <= i < j < |table| ==> table[i].0 != table[j].0
  }

  predicate DistinctCodes(table: seq<(string, int)>)
  {
    forall i, j :: 0 <= i < j < |table| ==> table[i].1 != table[j].1
  }

  /** dict[key]: the value stored under k, or None where Python raises KeyError. */
  function LookupKey<V>(table: seq<(string, V)>, k: string): (r: Option<V>)
    ensures r.None? <==> forall i :: 0 <= i < |table| ==> table[i].0 != k
  {
    if table == [] then None
    else if table[0].0 == k then Some(table[0].1)
    else
      assert forall i :: 1 <= i < |table| ==> table[i] == table[1..][i - 1];
      LookupKey(table[1..], k)
  }

  /** In a table with distinct keys, the lookup of entry i's key is entry i's value. */
  lemma {:induction false} LookupKeyAt<V>(table: seq<(string, V)>, i: nat)
    requires DistinctKeys(table) && i < |table|
    ensures LookupKey(table, table[i].0) == Some(table[i].1)
  {
    if i > 0 {
      assert table[1..][i - 1] == table[i];
      LookupKeyAt(table[1..], i - 1);
    }
  }

  /** `[k for k, v in table.items() if v == code]`, in table order. */
  function KeysWithValue(table: seq<(string, int)>, code: int): (r: seq<string>)
    ensures forall k :: k in r <==> (k, code) in table
    ensures |r| == 0 <==> forall i :: 0 <= i < |table| ==> table[i].1 != code
  {
    if table == [] then []
    else
      assert table == [table[0]] + table[1..];
      assert forall i :: 1 <= i < |table| ==> table[i] == table[1..][i - 1];
      (if table[0].1 == code then [table[0].0] else []) + KeysWithValue(table[1..], code)
  }

  /** With distinct codes, the reverse lookup of entry i's code finds exactly entry i's name. */
  lemma {:induction false} KeysWithValueSingle(table: seq<(string, int)>, i: nat)
    requires DistinctCodes(table) && i < |table|
    ensures KeysWithValue(table, table[i].1) == [table[i].0]
  {
    var code := table[i].1;
    if i == 0 {
      assert forall j :: 0 <= j < |table| - 1 ==> table[1..][j].1 == table[j + 1].1 != code;
    } else {
      assert table[1..][i - 1] == table[i];
      assert table[0].1 != code;
      KeysWithValueSingle(table[1..], i - 1);
    }
  }

  /** Two names with the same code make the reverse lookup ambiguous. */
  lemma KeysWithValueShared(table: seq<(string, int)>, i: nat, j: nat)
    requires i < |table| && j < |table| && i != j
    requires table[i].0 != table[j].0 && table[i].1 == table[j].1
    ensures |KeysWithValue(table, table[i].1)| > 1
  {
    var r := KeysWithValue(table, table[i].1);
    assert table[i] in table && (table[j].0, table[i].1) in table;
    assert table[i].0 in r && table[j].0 in r;
  }

  // ---------------------------------------------------------------------
  // imgSize_from_vidMode
  // ---------------------------------------------------------------------

  /** Index of the first occurrence of c in s, or -1. */
  function IndexOf(s: string, c: char): (r: int)
    ensures -1 <= r < |s|
    ensures r >= 0 ==> s[r] == c && c !in s[..r]
    ensures r < 0 ==> c !in s
  {
    if s == [] then -1
    else if s[0] == c then 0
    else
      var j := IndexOf(s[1..], c);
      assert s == [s[0]] + s[1..];
      if j < 0 then -1
      else
        assert s[..j + 1] == [s[0]] + s[1..][..j];
        j + 1
  }

  /** Python's str.split(c) for a single separator character. */
  function SplitOn(s: string, c: char): (parts: seq<string>)
    ensures |parts| >= 1
    decreases |s|
  {
    var i := IndexOf(s, c);
    if i < 0 then [s] else [s[..i]] + SplitOn(s[i + 1..], c)
  }

  lemma SplitOnOnce(a: string, b: string, c: char)
    requires c !in a && c !in b
    ensures SplitOn(a + [c] + b, c) == [a, b]
  {
    var s := a + [c] + b;
    var i := IndexOf(s, c);
    assert s[|a|] == c;
    assert forall k :: 0 <= k < |a| ==> s[k] == a[k];
    assert forall k :: 0 <= k < i ==> s[..i][k] == s[k];
    assert i == |a|;
    assert s[..|a|] == a;
    assert s[i + 1..] == b;
  }

  /** The match of `^[0-9]*`: the run of ASCII digits at the front of s. */
  function LeadingDigits(s: string): (d: string)
    ensures AllDigits(d) && |d| <= |s| && s[..|d|] == d
    ensures |d| < |s| ==> !IsDigit(s[|d|])
  {
    if s == [] || !IsDigit(s[0]) then []
    else
      assert s == [s[0]] + s[1..];
      [s[0]] + LeadingDigits(s[1..])
  }

  lemma {:induction false} LeadingDigitsOf(d: string, tail: string)
    requires AllDigits(d)
    requires tail == [] || !IsDigit(tail[0])
    ensures LeadingDigits(d + tail) == d
  {
    if d != [] {
      assert (d + tail)[1..] == d[1..] + tail;
      LeadingDigitsOf(d[1..], tail);
    } else {
      assert d + tail == tail;
    }
  }

  /** `re.sub('^VM_', '', s)`: one leading "VM_" removed. */
  function StripModePrefix(s: string): string
  {
    if StartsWith(s, "VM_") then s[3..] else s
  }

  /**
   * The resolution spelled by a video-mode name such as "VM_640x480YUV422":
   * the name must split at 'x' into exactly two parts; the width is the
   * first part without its "VM_" prefix, the height the digits that open the
   * second part. Anything else is a ValueError.
   */
  function ImgSizeFromModeName(name: string): (r: Result<(int, int)>)
    ensures r.Err? ==> r.error == ValueError
    ensures r.Ok? ==> r.value.1 >= 0 && |SplitOn(name, 'x')| == 2
  {
    var parts := SplitOn(name, 'x');
    if |parts| != 2 then Err(ValueError)
    else
      match ParseInt(StripModePrefix(parts[0]))
      case Err(e) => Err(e)
      case Ok(w) =>
        var digits := LeadingDigits(parts[1]);
        if digits == [] then Err(ValueError)
        else
          assert ParseInt(digits).Ok? && digits[0] != '-';
          Ok((w, DigitsValue(digits)))
  }

  /** A standard mode name yields back the width and height it was spelled with. */
  lemma ImgSizeOfStandardName(w: nat, h: nat, tail: string)
    requires 'x' !in tail
    requires tail == [] || !IsDigit(tail[0])
    ensures ImgSizeFromModeName("VM_" + NatToString(w) + "x" + NatToString(h) + tail) == Ok((w, h))
  {
    var a := "VM_" + NatToString(w);
    var b := NatToString(h) + tail;
    var name := "VM_" + NatToString(w) + "x" + NatToString(h) + tail;
    assert name == a + ['x'] + b;
    assert 'x' !in NatToString(w) && 'x' !in NatToString(h);
    assert 'x' !in a;
    assert forall k :: 0 <= k < |b| ==> b[k] != 'x' by {
      forall k | 0 <= k < |b| ensures b[k] != 'x' {
        if k >= |NatToString(h)| {
          assert b[k] == tail[k - |NatToString(h)|];
        }
      }
    }
    SplitOnOnce(a, b, 'x');
    assert StartsWith(a, "VM_") && a[3..] == NatToString(w);
    ParseIntOfIntToString(w);
    LeadingDigitsOf(NatToString(h), tail);
    DigitsOfNat(h);
  }

  /** A video mode is given either by its name or by its SDK code. */
  datatype ModeArg = ModeName(name: string) | ModeCode(code: int)

  /**
   * imgSize_from_vidMode: a code is first turned back into its name through
   * the VIDEO_MODES table (no name: IndexError; several: RuntimeError).
   */
  function ImgSizeFromVidMode(mode: ModeArg, videoModes: seq<(string, int)>): (r: Result<(int, int)>)
    ensures r.Err? ==> r.error in {ValueError, IndexError, RuntimeError}
    ensures r.Ok? ==> r.value.1 >= 0
  {
    match mode
    case ModeName(s) => ImgSizeFromModeName(s)
    case ModeCode(c) =>
      var names := KeysWithValue(videoModes, c);
      if |names| > 1 then Err(RuntimeError)
      else if names == [] then Err(IndexError)
      else ImgSizeFromModeName(names[0])
  }

  /** A code in a table of distinct codes gives the size of its one name. */
  lemma ImgSizeOfCode(videoModes: seq<(string, int)>, i: nat)
    requires DistinctCodes(videoModes) && i < |videoModes|
    ensures ImgSizeFromVidMode(ModeCode(videoModes[i].1), videoModes) ==
            ImgSizeFromModeName(videoModes[i].0)
  {
    KeysWithValueSingle(videoModes, i);
  }

  /** A code absent from the table raises IndexError; a code shared by two names, RuntimeError. */
  lemma ImgSizeOfBadCode(videoModes: seq<(string, int)>, code: int)
    ensures (forall i :: 0 <= i < |videoModes| ==> videoModes[i].1 != code) ==>
            ImgSizeFromVidMode(ModeCode(code), videoModes) == Err(IndexError)
    ensures (exists i, j :: 0 <= i < |videoModes| && 0 <= j < |videoModes| && i != j &&
              videoModes[i].0 != videoModes[j].0 && videoModes[i].1 == code && videoModes[j].1 == code) ==>
            ImgSizeFromVidMode(ModeCode(code), videoModes) == Err(RuntimeError)
  {
    var names := KeysWithValue(videoModes, code);
    if exists i, j :: 0 <= i < |videoModes| && 0 <= j < |videoModes| && i != j &&
              videoModes[i].0 != videoModes[j].0 && videoModes[i].1 == code && videoModes[j].1 == code {
      var i, j :| 0 <= i < |videoModes| && 0 <= j < |videoModes| && i != j &&
              videoModes[i].0 != videoModes[j].0 && videoModes[i].1 == code && videoModes[j].1 == code;
      KeysWithValueShared(videoModes, i, j);
    }
  }

  /**
   * The resolution a Camera records at construction: a mode name is first
   * looked up in VIDEO_MODES (KeyError when absent) and the code then goes
   * back through imgSize_from_vidMode.
   */
  function ConfiguredImgSize(mode: ModeArg, videoModes: seq<(string, int)>): (r: Result<(int, int)>)
    ensures mode.ModeCode? ==> r == ImgSizeFromVidMode(mode, videoModes)
  {
    match mode
    case ModeCode(_) => ImgSizeFromVidMode(mode, videoModes)
    case ModeName(s) =>
      match LookupKey(videoModes, s)
      case None => Err(KeyError)
      case Some(c) => ImgSizeFromVidMode(ModeCode(c), videoModes)
  }

  /**
   * In a table with distinct names and codes, the name-to-code-to-name round
   * trip is the identity: a known mode name gives the size it spells, and an
   * unknown one is a KeyError.
   */
  lemma ConfiguredImgSizeByName(videoModes: seq<(string, int)>, name: string)
    requires DistinctKeys(videoModes) && DistinctCodes(videoModes)
    ensures (exists i :: 0 <= i < |videoModes| && videoModes[i].0 == name) ==>
            ConfiguredImgSize(ModeName(name), videoModes) == ImgSizeFromModeName(name)
    ensures (forall i :: 0 <= i < |videoModes| ==> videoModes[i].0 != name) ==>
            ConfiguredImgSize(ModeName(name), videoModes) == Err(KeyError)
  {
    if exists i :: 0 <= i < |videoModes| && videoModes[i].0 == name {
      var i :| 0 <= i < |videoModes| && videoModes[i].0 == name;
      LookupKeyAt(videoModes, i);
      ImgSizeOfCode(videoModes, i);
    }
  }

  // ---------------------------------------------------------------------
  // listAvailableModes
  // ---------------------------------------------------------------------

  /**
   * The (mode name, frame-rate name) pairs of one mode whose SDK query
   * answered true; a query that raises (None) is skipped like a false one.
   */
  function RatePairs(mode: (string, int), rates: seq<(string, int)>, supported: (int, int) -> Option<bool>): seq<(string, string)>
  {
    if rates == [] then []
    else
      var n := |rates| - 1;
      RatePairs(mode, rates[..n], supported) +
      (if supported(mode.1, rates[n].1) == Some(true) then [(mode.0, rates[n].0)] else [])
  }

  function ModePairs(modes: seq<(string, int)>, rates: seq<(string, int)>, supported: (int, int) -> Option<bool>): seq<(string, string)>
  {
    if modes == [] then []
    else
      var n := |modes| - 1;
      ModePairs(modes[..n], rates, supported) + RatePairs(modes[n], rates, supported)
  }

  /** `p` pairs mode `mode` with a frame rate of `rates` that the camera supports in it. */
  ghost predicate SupportedPair(mode: (string, int), rates: seq<(string, int)>,
                                supported: (int, int) -> Option<bool>, p: (string, string))
  {
    exists j :: 0 <= j < |rates| && supported(mode.1, rates[j].1) == Some(true) && p == (mode.0, rates[j].0)
  }

  lemma {:induction false} RatePairsMembers(mode: (string, int), rates: seq<(string, int)>,
                                            supported: (int, int) -> Option<bool>, p: (string, string))
    ensures p in RatePairs(mode, rates, supported) <==> SupportedPair(mode, rates, supported, p)
  {
    if rates != [] {
      var n := |rates| - 1;
      RatePairsMembers(mode, rates[..n], supported, p);
      if exists j :: 0 <= j < |rates| && supported(mode.1, rates[j].1) == Some(true) && p == (mode.0, rates[j].0) {
        var j :| 0 <= j < |rates| && supported(mode.1, rates[j].1) == Some(true) && p == (mode.0, rates[j].0);
        if j < n {
          assert rates[..n][j] == rates[j];
        }
      }
    }
  }

  /** Every pair listAvailableModes lists is a supported mode and frame rate. */
  lemma {:induction false} ModePairsSound(modes: seq<(string, int)>, rates: seq<(string, int)>,
                                          supported: (int, int) -> Option<bool>, p: (string, string))
    requires p in ModePairs(modes, rates, supported)
    ensures exists i :: 0 <= i < |modes| && SupportedPair(modes[i], rates, supported, p)
  {
    var n := |modes| - 1;
    if p in ModePairs(modes[..n], rates, supported) {
      ModePairsSound(modes[..n], rates, supported, p);
      var i :| 0 <= i < n && SupportedPair(modes[..n][i], rates, supported, p);
      assert modes[..n][i] == modes[i];
    } else {
      RatePairsMembers(modes[n], rates, supported, p);
      assert SupportedPair(modes[n], rates, supported, p);
    }
  }

  /** Every supported mode and frame rate is listed by listAvailableModes. */
  lemma {:induction false} ModePairsComplete(modes: seq<(string, int)>, rates: seq<(string, int)>,
                                             supported: (int, int) -> Option<bool>, p: (string, string), i: int)
    requires 0 <= i < |modes| && SupportedPair(modes[i], rates, supported, p)
    ensures p in ModePairs(modes, rates, supported)
  {
    var n := |modes| - 1;
    if i < n {
      assert modes[..n][i] == modes[i];
      ModePairsComplete(modes[..n], rates, supported, p, i);
    } else {
      RatePairsMembers(modes[n], rates, supported, p);
    }
  }

  /**
   * listAvailableModes lists exactly the pairs of a video mode and a frame
   * rate that the camera reports as supported, each under its name.
   */
  lemma {:induction false} ModePairsMembers(modes: seq<(string, int)>, rates: seq<(string, int)>,
                                            supported: (int, int) -> Option<bool>, p: (string, string))
    ensures p in ModePairs(modes, rates, supported) <==>
            exists i :: 0 <= i < |modes| && SupportedPair(modes[i], rates, supported, p)
  {
    if p in ModePairs(modes, rates, supported) {
      ModePairsSound(modes, rates, supported, p);
    }
    if exists i :: 0 <= i < |modes| && SupportedPair(modes[i], rates, supported, p) {
      var i :| 0 <= i < |modes| && SupportedPair(modes[i], rates, supported, p);
      ModePairsComplete(modes, rates, supported, p, i);
    }
  }

  /**
   * listAvailableModes: exactly one of a camera index and an open camera
   * must be given; then every mode is tried with every frame rate.
   */
  method ListAvailableModes(camNum: Option<int>, haveCam: bool, modes: seq<(string, int)>,
                            rates: seq<(string, int)>, supported: (int, int) -> Option<bool>)
    returns (r: Result<seq<(string, string)>>)
    ensures camNum.None? && !haveCam ==> r == Err(ValueError)
    ensures camNum.Some? && haveCam ==> r == Err(ValueError)
    ensures camNum.Some? != haveCam ==> r == Ok(ModePairs(modes, rates, supported))
  {
    if camNum.None? && !haveCam {
      return Err(ValueError);
    } else if camNum.Some? && haveCam {
      return Err(ValueError);
    }
    var res: seq<(string, string)> := [];
    var i := 0;
    while i < |modes|
      invariant 0 <= i <= |modes|
      invariant res == ModePairs(modes[..i], rates, supported)
    {
      assert modes[..i + 1][..i] == modes[..i];
      var j := 0;
      var row: seq<(string, string)> := [];
      while j < |rates|
        invariant 0 <= j <= |rates|
        invariant row == RatePairs(modes[i], rates[..j], supported)
      {
        assert rates[..j + 1][..j] == rates[..j];
        if supported(modes[i].1, rates[j].1) == Some(true) {
          row := row + [(modes[i].0, rates[j].0)];
        }
        j := j + 1;
      }
      assert rates[..j] == rates;
      res := res + row;
      i := i + 1;
    }
    assert modes[..i] == modes;
    return Ok(res);
  }

  // ---------------------------------------------------------------------
  // Output format and file name of the video writer
  // ---------------------------------------------------------------------

  datatype Format = AVI | MJPG | H264

  /**
   * With no format given, the format follows the (case-insensitive)
   * extension: .avi is AVI, .mp4 is H264; no or another extension is a
   * ValueError.
   */
  function InferFormat(filename: string): (r: Result<Format>)
    ensures r.Err? ==> r.error == ValueError
    ensures r.Ok? ==> r.value != MJPG && Ext(filename) != []
  {
    var ext := Lower(Ext(filename));
    if ext == ".avi" then Ok(AVI)
    else if ext == ".mp4" then Ok(H264)
    else Err(ValueError)
  }

  /** A given format name is upper-cased and must then be AVI, MJPG or H264. */
  function ResolveFormat(filename: string, fileFormat: Option<string>): (r: Result<Format>)
    ensures r.Err? ==> r.error == ValueError
    ensures fileFormat.None? ==> r == InferFormat(filename)
  {
    match fileFormat
    case None => InferFormat(filename)
    case Some(s) =>
      var u := Upper(s);
      if u == "AVI" then Ok(AVI)
      else if u == "MJPG" then Ok(MJPG)
      else if u == "H264" then Ok(H264)
      else Err(ValueError)
  }

  function FormatName(f: Format): string
  {
    match f
    case AVI => "AVI"
    case MJPG => "MJPG"
    case H264 => "H264"
  }

  /** Naming a format, in upper or lower case, selects it whatever the file name says. */
  lemma ResolveFormatByName(filename: string, f: Format)
    ensures ResolveFormat(filename, Some(FormatName(f))) == Ok(f)
    ensures ResolveFormat(filename, Some(Lower(FormatName(f)))) == Ok(f)
  {
    var lo := Lower(FormatName(f));
    match f
    case AVI =>
      assert lo == "avi";
      assert Upper("AVI") == "AVI" && Upper("avi") == "AVI";
    case MJPG =>
      assert lo == "mjpg";
      assert Upper("MJPG") == "MJPG" && Upper("mjpg") == "MJPG";
    case H264 =>
      assert lo == "h264";
      assert Upper("H264") == "H264" && Upper("h264") == "H264";
  }

  function DefaultExtension(f: Format): string
  {
    if f == H264 then ".mp4" else ".avi"
  }

  /** A file name without an extension gets the one its format implies. */
  function WithDefaultExtension(filename: string, f: Format): (r: string)
    ensures Ext(filename) != [] ==> r == filename
    ensures StartsWith(r, filename)
  {
    if Ext(filename) == [] then filename + DefaultExtension(f) else filename
  }

  /** The final path component holds some character other than '.'. */
  predicate HasNamedComponent(p: string)
  {
    exists k :: 0 <= k < |p| && p[k] != '.' && '/' !in p[k..]
  }

  /**
   * The extension added by default is one that the inference recognises:
   * an AVI or MJPG file comes back as AVI, an H264 file as H264.
   */
  lemma DefaultExtensionInfers(filename: string, f: Format)
    requires Ext(filename) == [] && HasNamedComponent(filename)
    ensures InferFormat(WithDefaultExtension(filename, f)) == Ok(if f == MJPG then AVI else f)
  {
    if f == H264 {
      AppendedExtension(filename, ".mp4");
    } else {
      AppendedExtension(filename, ".avi");
    }
  }

  /** A lower-case extension appended to a name without one is the extension that is read back. */
  lemma AppendedExtension(filename: string, ext: string)
    requires Ext(filename) == [] && HasNamedComponent(filename)
    requires |ext| >= 1 && ext[0] == '.' && '.' !in ext[1..] && '/' !in ext[1..]
    requires forall i :: 0 <= i < |ext| ==> !('A' <= ext[i] <= 'Z')
    ensures Lower(Ext(filename + ext)) == ext
  {
    var e := ext[1..];
    assert ext == ['.'] + e;
    assert filename + ext == filename + ['.'] + e;
    SplitExtAppendExt(filename, e);
    LowerFixed(ext);
  }

  lemma LowerFixed(s: string)
    requires forall i :: 0 <= i < |s| ==> !('A' <= s[i] <= 'Z')
    ensures Lower(s) == s
  {
  }

  /** The AVI writer may add "-0000" to the root, so that name is checked too. */
  function AltFilename(filename: string): (r: string)
    ensures Ext(r) == Ext(filename)
  {
    SplitExtInsert(filename, "-0000");
    Root(filename) + "-0000" + Ext(filename)
  }

  /**
   * The format, the final file name and the clobber check of
   * openVideoWriter, given the set of files that already exist.
   */
  function WriterPlan(filename: string, fileFormat: Option<string>, overwrite: bool, existing: set<string>)
    : (r: Result<(string, Format)>)
    ensures r.Err? ==> r.error in {ValueError, OSError}
    ensures r.Ok? ==> ResolveFormat(filename, fileFormat) == Ok(r.value.1)
    ensures r.Ok? ==> StartsWith(r.value.0, filename)
    ensures r.Ok? && !overwrite ==> r.value.0 !in existing && AltFilename(r.value.0) !in existing
    ensures ResolveFormat(filename, fileFormat).Ok? && overwrite ==> r.Ok?
  {
    match ResolveFormat(filename, fileFormat)
    case Err(e) => Err(e)
    case Ok(f) =>
      var file := WithDefaultExtension(filename, f);
      if !overwrite && (file in existing || AltFilename(file) in existing) then Err(OSError)
      else Ok((file, f))
  }

  /** The csv file of timestamps sits beside the video: same root, extension .csv. */
  function CsvFilename(filename: string): (r: string)
    ensures EndsWith(r, ".csv") && StartsWith(r, Root(filename))
  {
    Root(filename) + ".csv"
  }

  // ---------------------------------------------------------------------
  // Embedded image information
  // ---------------------------------------------------------------------

  /**
   * The embed_image_info argument: nothing (None, False or an empty list),
   * the string 'all', or a list of property names (which may itself
   * contain 'all').
   */
  datatype EmbedArg = NoInfo | AllInfo | InfoNames(names: seq<string>)

  predicate EmbedsNothing(embed: EmbedArg)
  {
    embed.NoInfo? || (embed.InfoNames? && embed.names == [])
  }

  predicate EmbedsAll(embed: EmbedArg)
  {
    embed.AllInfo? || (embed.InfoNames? && embed.names != [] && "all" in embed.names)
  }

  /** The property names the camera knows, with whether each is available. */
  function PropertyNames(available: seq<(string, bool)>): set<string>
  {
    set i | 0 <= i < |available| :: available[i].0
  }

  /** The first requested name that is unknown (KeyError) or unavailable (ValueError). */
  function FirstFailure(available: seq<(string, bool)>, names: seq<string>): (r: Option<Error>)
    ensures r.None? <==> forall j :: 0 <= j < |names| ==> LookupKey(available, names[j]) == Some(true)
    ensures r.Some? ==> r.value in {KeyError, ValueError}
  {
    if names == [] then None
    else
      assert forall j :: 1 <= j < |names| ==> names[j] == names[1..][j - 1];
      match LookupKey(available, names[0])
      case None => Some(KeyError)
      case Some(false) => Some(ValueError)
      case Some(true) => FirstFailure(available, names[1..])
  }

  /**
   * The flags handed to the SDK: every known property, false unless
   * requested; with 'all', each property's availability; with a list, true
   * for the listed ones, which must all be known and available.
   */
  function EmbedFlags(available: seq<(string, bool)>, embed: EmbedArg): (r: Result<map<string, bool>>)
    requires DistinctKeys(available)
    ensures r.Ok? ==> r.value.Keys == PropertyNames(available)
    ensures r.Err? <==> (!EmbedsNothing(embed) && !EmbedsAll(embed) &&
                         FirstFailure(available, embed.names).Some?)
    ensures r.Err? ==> r.error == FirstFailure(available, embed.names).value
  {
    if EmbedsNothing(embed) then Ok(NoFlags(available))
    else if EmbedsAll(embed) then Ok(AvailabilityFlags(available))
    else
      match FirstFailure(available, embed.names)
      case Some(e) => Err(e)
      case None => Ok(RequestedFlags(available, embed.names))
  }

  function NoFlags(available: seq<(string, bool)>): map<string, bool>
  {
    map k | k in PropertyNames(available) :: false
  }

  function AvailabilityFlags(available: seq<(string, bool)>): map<string, bool>
  {
    map k | k in PropertyNames(available) :: LookupKey(available, k) == Some(true)
  }

  function RequestedFlags(available: seq<(string, bool)>, names: seq<string>): map<string, bool>
  {
    map k | k in PropertyNames(available) :: k in names
  }

  /** What the flags mean, property by property. */
  lemma EmbedFlagsMeaning(available: seq<(string, bool)>, embed: EmbedArg, i: nat)
    requires DistinctKeys(available) && i < |available|
    ensures EmbedsNothing(embed) ==> EmbedFlags(available, embed) == Ok(EmbedFlags(available, embed).value) &&
                                     !EmbedFlags(available, embed).value[available[i].0]
    ensures EmbedsAll(embed) ==> EmbedFlags(available, embed).Ok? &&
                                 EmbedFlags(available, embed).value[available[i].0] == available[i].1
    ensures !EmbedsNothing(embed) && !EmbedsAll(embed) && EmbedFlags(available, embed).Ok? ==>
            (EmbedFlags(available, embed).value[available[i].0] <==> available[i].0 in embed.names)
  {
    LookupKeyAt(available, i);
  }

  /** The 'all' loop: each known property takes its availability. */
  method AllFlags(available: seq<(string, bool)>) returns (info: map<string, bool>)
    requires DistinctKeys(available)
    ensures info == AvailabilityFlags(available)
  {
    var keys := PropertyNames(available);
    info := map k | k in keys :: false;
    var i := 0;
    while i < |available|
      invariant 0 <= i <= |available|
      invariant info.Keys == keys
      invariant forall j :: 0 <= j < i ==> info[available[j].0] == available[j].1
    {
      info := info[available[i].0 := available[i].1];
      i := i + 1;
    }
    FlagsByEntry(available, info);
  }

  /** A map over the property names that gives each entry's key its availability is AvailabilityFlags. */
  lemma FlagsByEntry(available: seq<(string, bool)>, info: map<string, bool>)
    requires DistinctKeys(available) && info.Keys == PropertyNames(available)
    requires forall j :: 0 <= j < |available| ==> info[available[j].0] == available[j].1
    ensures info == AvailabilityFlags(available)
  {
    forall k | k in info
      ensures info[k] == (LookupKey(available, k) == Some(true))
    {
      var j :| 0 <= j < |available| && available[j].0 == k;
      LookupKeyAt(available, j);
    }
    assert info.Keys == AvailabilityFlags(available).Keys;
  }

  /**
   * The loop over the requested names: each must be known and available,
   * and the first that is not ends the loop with its error.
   */
  method NamedFlags(available: seq<(string, bool)>, names: seq<string>) returns (r: Result<map<string, bool>>)
    ensures FirstFailure(available, names).Some? ==> r == Err(FirstFailure(available, names).value)
    ensures FirstFailure(available, names).None? ==>
              r == Ok(RequestedFlags(available, names))
  {
    var keys := PropertyNames(available);
    var info: map<string, bool> := map k | k in keys :: false;
    var i := 0;
    while i < |names|
      invariant 0 <= i <= |names|
      invariant info.Keys == keys
      invariant FirstFailure(available, names) == FirstFailure(available, names[i..])
      invariant forall k :: k in keys ==> (info[k] <==> k in names[..i])
    {
      assert names[i..][1..] == names[i + 1..];
      assert names[..i + 1] == names[..i] + [names[i]];
      match LookupKey(available, names[i])
      case None =>
        return Err(KeyError);
      case Some(false) =>
        return Err(ValueError);
      case Some(true) =>
        info := info[names[i] := true];
      i := i + 1;
    }
    assert names[..i] == names;
    assert info.Keys == RequestedFlags(available, names).Keys;
    assert forall k :: k in info ==> info[k] == RequestedFlags(available, names)[k];
    assert info == RequestedFlags(available, names);
    return Ok(info);
  }

  /** The flag-building step of openVideoWriter. */
  method BuildEmbedFlags(available: seq<(string, bool)>, embed: EmbedArg) returns (r: Result<map<string, bool>>)
    requires DistinctKeys(available)
    ensures r == EmbedFlags(available, embed)
  {
    if EmbedsNothing(embed) {
      return Ok(NoFlags(available));
    } else if EmbedsAll(embed) {
      var info := AllFlags(available);
      return Ok(info);
    } else {
      r := NamedFlags(available, embed.names);
    }
  }

  // ---------------------------------------------------------------------
  // Keyword arguments of openVideoWriter
  // ---------------------------------------------------------------------

  /** A keyword argument value, as the runners build them. */
  datatype Kw = KNone | KBool(b: bool) | KInt(i: int) | KStr(s: string) | KSize(width: int, height: int)
              | KNames(names: seq<string>) | KInts(ints: seq<int>)

  /** The keyword parameters openVideoWriter declares after the filename. */
  const WriterParams: set<string> :=
    {"file_format", "overwrite", "quality", "bitrate", "img_size", "embed_image_info", "csv_timestamps"}

  /** openVideoWriter's default for each of its keyword parameters. */
  function WriterDefault(p: string): Kw
  {
    if p == "overwrite" || p == "csv_timestamps" then KBool(false)
    else if p == "quality" then KInt(75)
    else if p == "bitrate" then KInt(1000000)
    else if p == "embed_image_info" then KNames(["timestamp", "frameCounter"])
    else KNone
  }

  /**
   * Python's binding of `**writer_kwargs` to openVideoWriter's parameters:
   * an unknown keyword is a TypeError; otherwise every parameter takes the
   * given value or its default.
   */
  function BindWriterKwargs(kw: map<string, Kw>): (r: Result<map<string, Kw>>)
    ensures r.Err? <==> exists k :: k in kw && k !in WriterParams
    ensures r.Err? ==> r.error == TypeError
    ensures r.Ok? ==> r.value.Keys == WriterParams &&
                      forall p :: p in WriterParams ==> r.value[p] == (if p in kw then kw[p] else WriterDefault(p))
  {
    if exists k :: k in kw && k !in WriterParams then Err(TypeError)
    else Ok(map p | p in WriterParams :: if p in kw then kw[p] else WriterDefault(p))
  }

  /** openVideoWriter's parameters after the filename, as values. */
  datatype WriterArgs = WriterArgs(fileFormat: Option<string>, overwrite: bool, quality: int, bitrate: int,
                                   imgSize: Option<(int, int)>, embed: EmbedArg, csvTimestamps: bool)

  /**
   * The bound keywords as openVideoWriter's arguments. Only the value
   * kinds the command line and the GUI produce are read; any other kind
   * is taken as a TypeError.
   */
  function BoundWriterArgs(kw: map<string, Kw>): (r: Result<WriterArgs>)
    ensures BindWriterKwargs(kw).Err? ==> r == Err(TypeError)
    ensures r.Err? ==> r.error == TypeError
  {
    var bound := BindWriterKwargs(kw);
    if bound.Err? then Err(bound.error) else ArgsOfBinding(bound.value)
  }

  /** Keywords that name every parameter bind to themselves. */
  lemma BindAllGiven(kw: map<string, Kw>)
    requires kw.Keys == WriterParams
    ensures BindWriterKwargs(kw) == Ok(kw)
  {
    var b := BindWriterKwargs(kw).value;
    assert b.Keys == kw.Keys;
    assert forall p :: p in b ==> b[p] == kw[p];
    assert b == kw;
  }

  function ArgsOfBinding(b: map<string, Kw>): Result<WriterArgs>
    requires WriterParams <= b.Keys
  {
    match (b["file_format"], b["overwrite"], b["quality"], b["bitrate"], b["img_size"], b["embed_image_info"],
           b["csv_timestamps"])
    case (KNone, KBool(o), KInt(q), KInt(br), KNone, KNames(ns), KBool(c)) =>
      Ok(WriterArgs(None, o, q, br, None, InfoNames(ns), c))
    case (KNone, KBool(o), KInt(q), KInt(br), KSize(w, h), KNames(ns), KBool(c)) =>
      Ok(WriterArgs(None, o, q, br, Some((w, h)), InfoNames(ns), c))
    case (KStr(f), KBool(o), KInt(q), KInt(br), KNone, KNames(ns), KBool(c)) =>
      Ok(WriterArgs(Some(f), o, q, br, None, InfoNames(ns), c))
    case (KStr(f), KBool(o), KInt(q), KInt(br), KSize(w, h), KNames(ns), KBool(c)) =>
      Ok(WriterArgs(Some(f), o, q, br, Some((w, h)), InfoNames(ns), c))
    case _ => Err(TypeError)
  }

  // ---------------------------------------------------------------------
  // The Camera object
  // ---------------------------------------------------------------------

  /** An image handed out by the SDK's buffer, identified by its timestamp. */
  datatype Image = Image(timestamp: nat)

  /** The images acquired, in order, over a run of getImage calls. */
  function Images(acquired: seq<Option<Image>>): (r: seq<Image>)
    ensures |r| <= |acquired|
    ensures r == [] <==> forall k :: 0 <= k < |acquired| ==> acquired[k].None?
  {
    if acquired == [] then []
    else Images(acquired[..|acquired| - 1]) +
         (if acquired[|acquired| - 1].Some? then [acquired[|acquired| - 1].value] else [])
  }

  /** An open video file, with the settings its format takes. */
  datatype WriterTarget =
    | AviWriter(file: string)
    | MjpgWriter(file: string, quality: int)
    | H264Writer(file: string, width: int, height: int, bitrate: int)

  /** The calls the object makes on the SDK and on files, in order. */
  datatype SdkCall =
    | SdkStart
    | SdkStop
    | SdkSetEmbedded(flags: map<string, bool>)
    | SdkOpenCsv(csvFile: string)
    | SdkOpenWriter(target: WriterTarget)
    | SdkCloseWriter
    | SdkCloseCsv
    | SdkDisconnect

  const OnErrorModes: set<string> := {"ignore", "warn", "error"}

  function TargetFor(file: string, f: Format, quality: int, bitrate: int, size: (int, int)): (t: WriterTarget)
    ensures t.file == file
    ensures t.AviWriter? <==> f == AVI
    ensures t.MjpgWriter? <==> f == MJPG
    ensures t.H264Writer? <==> f == H264
  {
    match f
    case AVI => AviWriter(file)
    case MJPG => MjpgWriter(file, quality)
    case H264 => H264Writer(file, size.0, size.1, bitrate)
  }

  /** The SDK calls close makes on a camera whose capture is off: close the writer (and csv file) if open, then disconnect. */
  function CloseCalls(writerOpen: bool, csv: bool): seq<SdkCall>
  {
    (if writerOpen then [SdkCloseWriter] + (if csv then [SdkCloseCsv] else []) else []) + [SdkDisconnect]
  }

  class Camera {
    const camNum: int
    const imgSize: (int, int)
    var captureIsOn: bool
    var writerIsOpen: bool
    var videoWriter: Option<WriterTarget>
    var fileFormat: Option<Format>
    var csvFile: Option<string>
    var written: seq<Image>
    var csvRows: seq<Image>
    var calls: seq<SdkCall>

    /** An open writer has a target, and its format is the one recorded. */
    ghost predicate Valid()
      reads this
    {
      (writerIsOpen ==> videoWriter.Some?) &&
      (videoWriter.Some? <==> fileFormat.Some?)
    }

    /** A freshly connected camera: no capture, no writer, nothing written. */
    constructor(camNum: int, imgSize: (int, int))
      ensures Valid()
      ensures this.camNum == camNum && this.imgSize == imgSize
      ensures !captureIsOn && !writerIsOpen
      ensures videoWriter.None? && csvFile.None?
      ensures written == [] && csvRows == [] && calls == []
    {
      this.camNum := camNum;
      this.imgSize := imgSize;
      captureIsOn := false;
      writerIsOpen := false;
      videoWriter := None;
      fileFormat := None;
      csvFile := None;
      written := [];
      csvRows := [];
      calls := [];
    }

    /**
     * Connecting records the resolution of the configured mode; an unknown
     * mode name or an unusable mode code fails before any camera exists.
     */
    static method Connect(camNum: int, mode: ModeArg, videoModes: seq<(string, int)>)
      returns (r: Result<Camera>)
      ensures r.Err? <==> ConfiguredImgSize(mode, videoModes).Err?
      ensures r.Err? ==> r.error == ConfiguredImgSize(mode, videoModes).error
      ensures r.Ok? ==> fresh(r.value) && r.value.Valid() && r.value.camNum == camNum &&
                        r.value.imgSize == ConfiguredImgSize(mode, videoModes).value &&
                        !r.value.captureIsOn && r.value.videoWriter.None? && r.value.csvFile.None? &&
                        r.value.calls == [] && r.value.written == [] && r.value.csvRows == []
    {
      match ConfiguredImgSize(mode, videoModes)
      case Err(e) =>
        r := Err(e);
      case Ok(size) =>
        var cam := new Camera(camNum, size);
        r := Ok(cam);
    }

    /**
     * getImage: acquire one image (None when the SDK fails); when a writer
     * exists the image is appended to it, and its timestamp to the csv file
     * when there is one. A failure is raised only under onError == 'error'.
     */
    method GetImage(onError: string, acquired: Option<Image>) returns (r: Result<(bool, Option<Image>)>)
      modifies this`written, this`csvRows
      ensures onError !in OnErrorModes ==> r == Err(ValueError)
      ensures onError in OnErrorModes && acquired.None? ==>
                r == (if onError == "error" then Err(SdkError) else Ok((false, None)))
      ensures onError in OnErrorModes && acquired.Some? ==> r == Ok((true, acquired))
      ensures written == old(written) +
                (if r.Ok? && r.value.0 && videoWriter.Some? then [acquired.value] else [])
      ensures csvRows == old(csvRows) +
                (if r.Ok? && r.value.0 && videoWriter.Some? && csvFile.Some? then [acquired.value] else [])
    {
      if onError !in OnErrorModes {
        return Err(ValueError);
      }
      match acquired
      case None =>
        if onError == "error" {
          return Err(SdkError);
        }
        return Ok((false, None));
      case Some(img) =>
        if videoWriter.Some? {
          written := written + [img];
          if csvFile.Some? {
            csvRows := csvRows + [img];
          }
        }
        return Ok((true, acquired));
    }

    /**
     * openVideoWriter. `existing` is the set of files already on disk and
     * `available` the camera's embedded-information properties. A failure
     * before the SDK flags are set changes nothing; a clobbered csv file is
     * detected only after they are set.
     */
    method OpenVideoWriter(filename: string, format: Option<string>, overwrite: bool,
                           quality: int, bitrate: int, imgSizeArg: Option<(int, int)>,
                           embed: EmbedArg, csvTimestamps: bool,
                           existing: set<string>, available: seq<(string, bool)>)
      returns (r: Result<string>)
      requires Valid() && DistinctKeys(available)
      modifies this`videoWriter, this`fileFormat, this`csvFile, this`writerIsOpen, this`calls
      ensures Valid()
      ensures r.Ok? ==> WriterPlan(filename, format, overwrite, existing).Ok? &&
                        r.value == WriterPlan(filename, format, overwrite, existing).value.0 &&
                        videoWriter.Some? && videoWriter.value.file == r.value
      ensures var plan := WriterPlan(filename, format, overwrite, existing);
              var flags := EmbedFlags(available, embed);
              if plan.Err? || flags.Err? then
                r == Err(if plan.Err? then plan.error else flags.error) && unchanged(this)
              else if csvTimestamps && !overwrite && CsvFilename(plan.value.0) in existing then
                r == Err(OSError) && calls == old(calls) + [SdkSetEmbedded(flags.value)] &&
                videoWriter == old(videoWriter) && fileFormat == old(fileFormat) &&
                csvFile == old(csvFile) && writerIsOpen == old(writerIsOpen)
              else
                var target := TargetFor(plan.value.0, plan.value.1, quality, bitrate,
                                        if imgSizeArg.Some? then imgSizeArg.value else imgSize);
                r == Ok(plan.value.0) && writerIsOpen &&
                videoWriter == Some(target) && fileFormat == Some(plan.value.1) &&
                csvFile == (if csvTimestamps then Some(CsvFilename(plan.value.0)) else old(csvFile)) &&
                calls == old(calls) + [SdkSetEmbedded(flags.value)] +
                         (if csvTimestamps then [SdkOpenCsv(CsvFilename(plan.value.0))] else []) +
                         [SdkOpenWriter(target)]
    {
      var plan := WriterPlan(filename, format, overwrite, existing);
      if plan.Err? {
        return Err(plan.error);
      }
      var file, f := plan.value.0, plan.value.1;
      var flags := BuildEmbedFlags(available, embed);
      if flags.Err? {
        return Err(flags.error);
      }
      r := OpenPlanned(file, f, flags.value, overwrite, quality, bitrate, imgSizeArg, csvTimestamps, existing);
    }

    /** The part of openVideoWriter after the file name, format and embedded flags are settled. */
    method OpenPlanned(file: string, f: Format, flags: map<string, bool>, overwrite: bool,
                       quality: int, bitrate: int, imgSizeArg: Option<(int, int)>, csvTimestamps: bool,
                       existing: set<string>)
      returns (r: Result<string>)
      requires Valid()
      modifies this`videoWriter, this`fileFormat, this`csvFile, this`writerIsOpen, this`calls
      ensures Valid()
      ensures if csvTimestamps && !overwrite && CsvFilename(file) in existing then
                r == Err(OSError) && calls == old(calls) + [SdkSetEmbedded(flags)] &&
                videoWriter == old(videoWriter) && fileFormat == old(fileFormat) &&
                csvFile == old(csvFile) && writerIsOpen == old(writerIsOpen)
              else
                var target := TargetFor(file, f, quality, bitrate,
                                        if imgSizeArg.Some? then imgSizeArg.value else imgSize);
                r == Ok(file) && writerIsOpen &&
                videoWriter == Some(target) && fileFormat == Some(f) &&
                csvFile == (if csvTimestamps then Some(CsvFilename(file)) else old(csvFile)) &&
                calls == old(calls) + [SdkSetEmbedded(flags)] +
                         (if csvTimestamps then [SdkOpenCsv(CsvFilename(file))] else []) +
                         [SdkOpenWriter(target)]
    {
      calls := calls + [SdkSetEmbedded(flags)];
      var csvCalls: seq<SdkCall> := [];
      if csvTimestamps {
        var csvName := CsvFilename(file);
        if !overwrite && csvName in existing {
          return Err(OSError);
        }
        csvFile := Some(csvName);
        csvCalls := [SdkOpenCsv(csvName)];
      }
      var size := if imgSizeArg.Some? then imgSizeArg.value else imgSize;
      var target := TargetFor(file, f, quality, bitrate, size);
      videoWriter := Some(target);
      fileFormat := Some(f);
      calls := calls + csvCalls + [SdkOpenWriter(target)];
      writerIsOpen := true;
      return Ok(file);
    }

    /** closeVideoWriter: closing when no writer was ever opened is an AttributeError. */
    method CloseVideoWriter() returns (r: Result<()>)
      requires Valid()
      modifies this`writerIsOpen, this`calls
      ensures Valid()
      ensures old(videoWriter).None? ==> r == Err(AttributeError) && unchanged(this)
      ensures old(videoWriter).Some? ==> r == Ok(()) && !writerIsOpen && calls == old(calls) + [SdkCloseWriter]
    {
      if videoWriter.None? {
        return Err(AttributeError);
      }
      calls := calls + [SdkCloseWriter];
      writerIsOpen := false;
      return Ok(());
    }

    method StartCapture()
      modifies this`captureIsOn, this`calls
      ensures captureIsOn && calls == old(calls) + [SdkStart]
    {
      calls := calls + [SdkStart];
      captureIsOn := true;
    }

    method StopCapture()
      modifies this`captureIsOn, this`calls
      ensures !captureIsOn && calls == old(calls) + [SdkStop]
    {
      calls := calls + [SdkStop];
      captureIsOn := false;
    }

    /**
     * close: stop capture only if it is on, close the writer (and the csv
     * file) only if the writer is open, then disconnect.
     */
    method Close()
      requires Valid()
      modifies this`captureIsOn, this`writerIsOpen, this`calls
      ensures Valid()
      ensures !captureIsOn && !writerIsOpen
      ensures calls == old(calls) + (if old(captureIsOn) then [SdkStop] else []) + CloseCalls(old(writerIsOpen), csvFile.Some?)
    {
      if captureIsOn {
        StopCapture();
      }
      if videoWriter.Some? && writerIsOpen {
        var _ := CloseVideoWriter();
        if csvFile.Some? {
          calls := calls + [SdkCloseCsv];
        }
      }
      calls := calls + [SdkDisconnect];
    }
  }

  /**
   * The error openVideoWriter raises for these arguments, if any: the
   * format or clobber check of the video file, a bad embedded-property
   * name, or the clobber check of the csv file, in that order.
   */
  function WriterFailure(file: string, w: WriterArgs, existing: set<string>, available: seq<(string, bool)>)
    : (r: Option<Error>)
    requires DistinctKeys(available)
    ensures r.Some? ==> r.value in {ValueError, KeyError, OSError}
    ensures w.overwrite && ResolveFormat(file, w.fileFormat).Ok? && EmbedFlags(available, w.embed).Ok? ==> r.None?
    ensures r.None? ==> ResolveFormat(file, w.fileFormat).Ok? && EmbedFlags(available, w.embed).Ok?
  {
    var plan := WriterPlan(file, w.fileFormat, w.overwrite, existing);
    var flags := EmbedFlags(available, w.embed);
    if plan.Err? then Some(plan.error)
    else if flags.Err? then Some(flags.error)
    else if w.csvTimestamps && !w.overwrite && CsvFilename(plan.value.0) in existing then Some(OSError)
    else None
  }

  /** The error cam.openVideoWriter(file, **kw) raises, if any, binding the keywords first. */
  function OpenFailure(file: string, kw: map<string, Kw>, existing: set<string>, available: seq<(string, bool)>)
    : (r: Option<Error>)
    requires DistinctKeys(available)
    ensures BindWriterKwargs(kw).Err? ==> r == Some(TypeError)
    ensures r.Some? ==> r.value in {TypeError, ValueError, KeyError, OSError}
  {
    var args := BoundWriterArgs(kw);
    if args.Err? then Some(args.error) else WriterFailure(file, args.value, existing, available)
  }

  /** The file openVideoWriter(file, **kw) writes to, when the keywords bind and the plan succeeds. */
  function PlannedFile(file: string, kw: map<string, Kw>, existing: set<string>): (r: Option<string>)
    ensures r.Some? ==> StartsWith(r.value, file)
  {
    var args := BoundWriterArgs(kw);
    if args.Err? then None
    else
      var plan := WriterPlan(file, args.value.fileFormat, args.value.overwrite, existing);
      if plan.Err? then None else Some(plan.value.0)
  }

  /** cam.openVideoWriter(outfile, **writer_kwargs), reporting the error it raises, if any. */
  method OpenWriterWith(cam: Camera, file: string, kw: map<string, Kw>, existing: set<string>,
                        available: seq<(string, bool)>)
    returns (failed: Option<Error>)
    requires cam.Valid() && DistinctKeys(available)
    modifies cam`videoWriter, cam`fileFormat, cam`csvFile, cam`writerIsOpen, cam`calls
    ensures cam.Valid()
    ensures failed == OpenFailure(file, kw, existing, available)
    ensures failed.None? ==> PlannedFile(file, kw, existing).Some? && cam.videoWriter.Some? &&
                             cam.videoWriter.value.file == PlannedFile(file, kw, existing).value
  {
    var args := BoundWriterArgs(kw);
    if args.Err? {
      return Some(args.error);
    }
    var w := args.value;
    var res := cam.OpenVideoWriter(file, w.fileFormat, w.overwrite, w.quality, w.bitrate,
                                   w.imgSize, w.embed, w.csvTimestamps, existing, available);
    failed := if res.Err? then Some(res.error) else None;
  }
}
