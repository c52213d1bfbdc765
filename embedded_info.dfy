/**
 * Decoder for the image information the camera embeds in the first pixels of
 * each greyscale frame, and the naming and row layout of the csv files the
 * command-line tool writes.
 *
 * Each embedded property occupies four consecutive pixels of row 0, in the
 * fixed property order, and only the properties that were embedded take
 * pixels. The four bytes are read as a 32-bit big-endian word; the timestamp
 * word splits into 7 + 13 + 12 bits, the ROI position word into 16 + 16.
 */
module EmbeddedInfo {
  import opened Common

  /** Every property the camera can embed, in the order it embeds them. */
  const Properties: seq<string> := ["timestamp", "gain", "shutter", "brightness", "exposure",
                                    "whiteBalance", "frameCounter", "strobePattern",
                                    "GPIOPinState", "ROIPosition"]

  /** The properties argument: the string 'all', or a list of names that may itself hold 'all'. */
  datatype PropertyArg = AllProperties | PropertyList(names: seq<string>)

  function Requested(arg: PropertyArg): seq<string>
  {
    if arg.AllProperties? || "all" in arg.names then Properties else arg.names
  }

  // ---------------------------------------------------------------------
  // Bits and their values
  // ---------------------------------------------------------------------

  function Pow2(n: nat): (r: nat)
    ensures r >= 1
  {
    if n == 0 then 1 else 2 * Pow2(n - 1)
  }

  /** One pixel of a uint8 frame. */
  type byte = x: int | 0 <= x < 256

  /** np.binary_repr(x, width): the low `width` bits of x, most significant first. */
  function BitsOf(x: nat, width: nat): (b: seq<bool>)
    ensures |b| == width
  {
    if width == 0 then [] else BitsOf(x / 2, width - 1) + [x % 2 == 1]
  }

  /** int(b, 2) of a non-empty bit string, most significant bit first. */
  function BinVal(b: seq<bool>): nat
  {
    if b == [] then 0 else 2 * BinVal(b[..|b| - 1]) + (if b[|b| - 1] then 1 else 0)
  }

  /** Euclidean division is unique: a*m + b with 0 <= b < m has quotient a and remainder b. */
  lemma DivModUnique(a: int, b: int, m: int)
    requires m > 0 && 0 <= b < m
    ensures (a * m + b) / m == a && (a * m + b) % m == b
  {
    var n := a * m + b;
    var q, r := n / m, n % m;
    assert n == q * m + r && 0 <= r < m;
    var d := a - q;
    assert d * m == r - b by {
      assert a * m - q * m == r - b;
    }
    if d > 0 {
      MulAtLeast(d, m);
    } else if d < 0 {
      MulAtLeast(-d, m);
    }
  }

  lemma MulAtLeast(d: int, m: int)
    requires d >= 1 && m > 0
    ensures d * m >= m
  {
  }

  lemma {:induction false} Pow2Add(a: nat, b: nat)
    ensures Pow2(a + b) == Pow2(a) * Pow2(b)
  {
    if a > 0 {
      Pow2Add(a - 1, b);
    }
  }

  /** The field widths of the embedded words, as numbers. */
  lemma Pow2Widths()
    ensures Pow2(8) == 256 && Pow2(12) == 0x1000 && Pow2(13) == 0x2000 && Pow2(16) == 0x1_0000 && Pow2(25) == 0x200_0000
  {
    assert Pow2(4) == 16;
    Pow2Add(4, 4);
    Pow2Add(8, 4);
    Pow2Add(12, 1);
    Pow2Add(8, 8);
    Pow2Add(12, 13);
  }

  lemma {:induction false} BinValBound(b: seq<bool>)
    ensures BinVal(b) < Pow2(|b|)
  {
    if b != [] {
      BinValBound(b[..|b| - 1]);
    }
  }

  lemma ShiftStep(x: int, y: int, p: int, c: int)
    ensures 2 * (x * p + y) + c == x * (2 * p) + (2 * y + c)
  {
  }

  /** Reading a + b as one number shifts a left by |b| bits. */
  lemma {:induction false} BinValAppend(a: seq<bool>, b: seq<bool>)
    ensures BinVal(a + b) == BinVal(a) * Pow2(|b|) + BinVal(b)
    decreases |b|
  {
    if b == [] {
      assert a + b == a;
    } else {
      var n := |b| - 1;
      assert (a + b)[..|a + b| - 1] == a + b[..n];
      assert b[..|b| - 1] == b[..n];
      BinValAppend(a, b[..n]);
      var c := if b[n] then 1 else 0;
      ShiftStep(BinVal(a), BinVal(b[..n]), Pow2(n), c);
    }
  }

  lemma HalveStep(x: nat, m: int)
    requires m > 0
    ensures x % (2 * m) == 2 * ((x / 2) % m) + x % 2
  {
    var h, bit := x / 2, x % 2;
    var q, s := h / m, h % m;
    assert x == 2 * h + bit && h == q * m + s && 0 <= s < m;
    ShiftStep(q, s, m, bit);
    assert x == q * (2 * m) + (2 * s + bit);
    DivModUnique(q, 2 * s + bit, 2 * m);
  }

  /** binary_repr followed by int(., 2) gives back x modulo 2^width. */
  lemma {:induction false} BinValOfBits(x: nat, width: nat)
    ensures BinVal(BitsOf(x, width)) == x % Pow2(width)
  {
    if width > 0 {
      var m := Pow2(width - 1);
      var b := BitsOf(x, width);
      assert b[..|b| - 1] == BitsOf(x / 2, width - 1);
      BinValOfBits(x / 2, width - 1);
      assert BinVal(b) == 2 * ((x / 2) % m) + x % 2;
      HalveStep(x, m);
    }
  }

  /** The bit string of a run of pixels: eight bits per pixel, first pixel first. */
  function Bits(data: seq<byte>): (b: seq<bool>)
    ensures |b| == 8 * |data|
  {
    if data == [] then [] else Bits(data[..|data| - 1]) + BitsOf(data[|data| - 1], 8)
  }

  /** The pixels read as one big-endian unsigned number. */
  function BigEndian(data: seq<byte>): nat
  {
    if data == [] then 0 else BigEndian(data[..|data| - 1]) * 256 + data[|data| - 1]
  }

  lemma {:induction false} BinValOfData(data: seq<byte>)
    ensures BinVal(Bits(data)) == BigEndian(data)
  {
    if data != [] {
      var n := |data| - 1;
      var front, last := Bits(data[..n]), BitsOf(data[n], 8);
      assert Bits(data) == front + last;
      BinValOfData(data[..n]);
      BinValAppend(front, last);
      ByteBits(data[n]);
      Pow2Widths();
      assert BinVal(Bits(data)) == BinVal(front) * 256 + BinVal(last);
    }
  }

  /** A pixel's eight bits read back give the pixel. */
  lemma ByteBits(x: byte)
    ensures BinVal(BitsOf(x, 8)) == x
  {
    BinValOfBits(x, 8);
    Pow2Widths();
  }

  lemma FourBytes(data: seq<byte>)
    requires |data| == 4
    ensures BigEndian(data) == (data[0] as int) * 0x100_0000 + (data[1] as int) * 0x1_0000 + (data[2] as int) * 0x100 + data[3]
    ensures BigEndian(data) < 0x1_0000_0000
  {
    var d1, d2, d3 := data[..1], data[..2], data[..3];
    assert d1[..0] == [] && d2[..1] == d1 && d3[..2] == d2 && data[..3] == d3;
    assert BigEndian(d1) == data[0];
    assert BigEndian(d2) == (data[0] as int) * 0x100 + data[1];
    assert BigEndian(d3) == (data[0] as int) * 0x1_0000 + (data[1] as int) * 0x100 + data[2];
  }

  // ---------------------------------------------------------------------
  // Decoding one property
  // ---------------------------------------------------------------------

  /** Python's s[lo:hi] on a sequence: both bounds clamped to its length. */
  function Slice<T>(s: seq<T>, lo: nat, hi: nat): (r: seq<T>)
    ensures |r| <= |s|
  {
    var a := if lo < |s| then lo else |s|;
    var b := if hi < |s| then hi else |s|;
    if a <= b then s[a..b] else []
  }

  /** int(b, 2): an empty bit string is a ValueError. */
  function ParseBin(b: seq<bool>): (r: Result<nat>)
  {
    if b == [] then Err(ValueError) else Ok(BinVal(b))
  }

  /** A decoded value: a plain number, or the fields of a timestamp or an ROI position. */
  datatype Value =
    | Plain(value: nat)
    | Timestamp(secondCount: nat, cycleCount: nat, cycleOffset: nat)
    | RoiPosition(left: nat, top: nat)

  /**
   * Decode one property from its pixels (at most four; fewer when row 0
   * ends early, in which case a field with no bits is a ValueError).
   */
  function DecodeField(prop: string, data: seq<byte>): (r: Result<Value>)
    ensures r.Err? ==> r.error == ValueError
    ensures r.Ok? ==> (r.value.Timestamp? <==> prop == "timestamp") &&
                      (r.value.RoiPosition? <==> prop == "ROIPosition")
  {
    var b := Bits(data);
    if prop == "timestamp" then
      match (ParseBin(Slice(b, 0, 7)), ParseBin(Slice(b, 7, 20)), ParseBin(Slice(b, 20, |b|)))
      case (Ok(s), Ok(c), Ok(o)) => Ok(Timestamp(s, c, o))
      case _ => Err(ValueError)
    else if prop == "ROIPosition" then
      match (ParseBin(Slice(b, 0, 16)), ParseBin(Slice(b, 16, |b|)))
      case (Ok(l), Ok(t)) => Ok(RoiPosition(l, t))
      case _ => Err(ValueError)
    else
      match ParseBin(b)
      case Ok(v) => Ok(Plain(v))
      case Err(e) => Err(e)
  }

  /**
   * The four pixels of a property, read as the big-endian word v: a plain
   * property is v itself (below 2^32); a timestamp is v's top 7, middle 13
   * and low 12 bits; an ROI position is v's high and low 16 bits.
   */
  lemma DecodeFourBytes(prop: string, data: seq<byte>)
    requires |data| == 4
    ensures var v := BigEndian(data);
            DecodeField(prop, data) ==
              if prop == "timestamp" then Ok(Timestamp(v / 0x200_0000, (v / 0x1000) % 0x2000, v % 0x1000))
              else if prop == "ROIPosition" then Ok(RoiPosition(v / 0x1_0000, v % 0x1_0000))
              else Ok(Plain(v))
  {
    var b := Bits(data);
    BinValOfData(data);
    if prop == "timestamp" {
      TimestampBits(b);
    } else if prop == "ROIPosition" {
      RoiBits(b);
    }
  }

  /** Bits 0-6, 7-19 and 20-31 of a 32-bit word are its top 7, middle 13 and low 12 bits. */
  lemma TimestampBits(b: seq<bool>)
    requires |b| == 32
    ensures var v := BinVal(b);
            BinVal(Slice(b, 0, 7)) == v / 0x200_0000 && BinVal(Slice(b, 7, 20)) == (v / 0x1000) % 0x2000 &&
            BinVal(Slice(b, 20, |b|)) == v % 0x1000
  {
    Pow2Widths();
    var b1, b2, b3 := b[..7], b[7..20], b[20..];
    assert Slice(b, 0, 7) == b1 && Slice(b, 7, 20) == b2 && Slice(b, 20, |b|) == b3;
    assert b == b1 + (b2 + b3);
    BinValAppend(b1, b2 + b3);
    BinValAppend(b2, b3);
    BinValBound(b2);
    BinValBound(b3);
    BinValBound(b2 + b3);
    var mid := BinVal(b2) * 0x1000 + BinVal(b3);
    DivModUnique(BinVal(b1), mid, 0x200_0000);
    assert BinVal(b) == (BinVal(b1) * 0x2000 + BinVal(b2)) * 0x1000 + BinVal(b3);
    DivModUnique(BinVal(b1) * 0x2000 + BinVal(b2), BinVal(b3), 0x1000);
    DivModUnique(BinVal(b1), BinVal(b2), 0x2000);
  }

  /** Bits 0-15 and 16-31 of a 32-bit word are its high and low halves. */
  lemma RoiBits(b: seq<bool>)
    requires |b| == 32
    ensures BinVal(Slice(b, 0, 16)) == BinVal(b) / 0x1_0000 && BinVal(Slice(b, 16, |b|)) == BinVal(b) % 0x1_0000
  {
    Pow2Widths();
    var b1, b2 := b[..16], b[16..];
    assert Slice(b, 0, 16) == b1 && Slice(b, 16, |b|) == b2;
    assert b == b1 + b2;
    BinValAppend(b1, b2);
    BinValBound(b2);
    DivModUnique(BinVal(b1), BinVal(b2), 0x1_0000);
  }

  /** The bounds the field widths imply. */
  lemma DecodedFieldBounds(prop: string, data: seq<byte>)
    requires |data| == 4
    ensures DecodeField(prop, data).Ok?
    ensures match DecodeField(prop, data).value
            case Plain(v) => v < 0x1_0000_0000
            case Timestamp(s, c, o) => s < 128 && c < 8192 && o < 4096
            case RoiPosition(l, t) => l < 0x1_0000 && t < 0x1_0000
  {
    DecodeFourBytes(prop, data);
    FourBytes(data);
  }

  /**
   * With fewer pixels the fields run out: a timestamp or ROI position needs
   * at least three pixels, and a plain property at least one.
   */
  lemma DecodeShortData(prop: string, data: seq<byte>)
    ensures (prop == "timestamp" || prop == "ROIPosition") && |data| <= 2 ==> DecodeField(prop, data) == Err(ValueError)
    ensures |data| == 0 ==> DecodeField(prop, data) == Err(ValueError)
    ensures 3 <= |data| ==> DecodeField(prop, data).Ok?
    ensures prop != "timestamp" && prop != "ROIPosition" && 1 <= |data| ==> DecodeField(prop, data).Ok?
  {
  }

  // ---------------------------------------------------------------------
  // Frames
  // ---------------------------------------------------------------------

  /**
   * A frame: rows of pixels, or rows of pixels of `channels` colour
   * components each. Only uint8 frames are decoded, so pixel values are
   * bytes; the dtype is kept as a flag.
   */
  datatype Pixels =
    | Grey(rows: seq<seq<byte>>)
    | Colour(crows: seq<seq<seq<byte>>>, channels: nat)

  datatype Frame = Frame(isUint8: bool, pixels: Pixels)

  /** `np.all(frame[..., 0] == frame[..., k])`. */
  predicate ChannelMatches(rows: seq<seq<seq<byte>>>, k: nat)
  {
    forall r, c :: 0 <= r < |rows| && 0 <= c < |rows[r]| && k < |rows[r][c]| ==> rows[r][c][k] == rows[r][c][0]
  }

  predicate IsGrey(rows: seq<seq<seq<byte>>>, channels: nat)
  {
    forall k :: 1 <= k < channels ==> ChannelMatches(rows, k)
  }

  /** The loop over channels 1.. that rejects a colour frame. */
  method ChannelsAgree(rows: seq<seq<seq<byte>>>, channels: nat) returns (grey: bool)
    ensures grey <==> IsGrey(rows, channels)
  {
    var k := 1;
    while k < channels
      invariant 1 <= k
      invariant forall j :: 1 <= j < k && j < channels ==> ChannelMatches(rows, j)
    {
      if !ChannelMatches(rows, k) {
        return false;
      }
      k := k + 1;
    }
    return true;
  }

  /** Row 0 of the frame (channel 0 of a colour frame), or None when there is no row 0. */
  function Row0(p: Pixels): Option<seq<byte>>
  {
    match p
    case Grey(rows) => if rows == [] then None else Some(rows[0])
    case Colour(rows, channels) =>
      if rows == [] then None
      else Some(seq(|rows[0]|, c requires 0 <= c < |rows[0]| => if rows[0][c] == [] then 0 else rows[0][c][0]))
  }

  // ---------------------------------------------------------------------
  // extractInfo
  // ---------------------------------------------------------------------

  /** The properties of `order` that were requested, in the order of `order`. */
  function InOrder(order: seq<string>, names: seq<string>): (r: seq<string>)
    ensures |r| <= |order|
    ensures forall p :: p in r <==> p in order && p in names
  {
    if order == [] then []
    else
      assert order == [order[0]] + order[1..];
      (if order[0] in names then [order[0]] else []) + InOrder(order[1..], names)
  }

  /**
   * The decoding walk over `order` with the running pixel offset idx: an
   * unrequested property consumes nothing, a requested one the next four
   * pixels of row 0.
   */
  function DecodeAll(row: Option<seq<byte>>, names: seq<string>, order: seq<string>, idx: nat)
    : (r: Result<seq<(string, Value)>>)
    ensures r.Err? ==> r.error in {ValueError, IndexError}
  {
    if order == [] then Ok([])
    else if order[0] !in names then DecodeAll(row, names, order[1..], idx)
    else if row.None? then Err(IndexError)
    else
      match DecodeField(order[0], Slice(row.value, idx, idx + 4))
      case Err(e) => Err(e)
      case Ok(v) =>
        match DecodeAll(row, names, order[1..], idx + 4)
        case Err(e) => Err(e)
        case Ok(rest) => Ok([(order[0], v)] + rest)
  }

  function Keys(res: seq<(string, Value)>): seq<string>
  {
    seq(|res|, i requires 0 <= i < |res| => res[i].0)
  }

  lemma KeysCons(x: (string, Value), rest: seq<(string, Value)>)
    ensures Keys([x] + rest) == [x.0] + Keys(rest)
  {
    assert forall i :: 0 <= i < |rest| ==> ([x] + rest)[i + 1] == rest[i];
  }

  /** A requested first property: the walk decodes its four pixels, then walks on from idx + 4. */
  lemma DecodeAllStep(row: Option<seq<byte>>, names: seq<string>, order: seq<string>, idx: nat)
    requires order != [] && order[0] in names && DecodeAll(row, names, order, idx).Ok?
    ensures row.Some? && DecodeField(order[0], Slice(row.value, idx, idx + 4)).Ok?
    ensures DecodeAll(row, names, order[1..], idx + 4).Ok?
    ensures DecodeAll(row, names, order, idx).value ==
              [(order[0], DecodeField(order[0], Slice(row.value, idx, idx + 4)).value)] +
              DecodeAll(row, names, order[1..], idx + 4).value
  {
  }

  /** A successful walk yields one entry per requested property, in `order`. */
  lemma {:induction false} DecodeAllKeys(row: Option<seq<byte>>, names: seq<string>, order: seq<string>, idx: nat)
    requires DecodeAll(row, names, order, idx).Ok?
    ensures Keys(DecodeAll(row, names, order, idx).value) == InOrder(order, names)
  {
    if order != [] {
      if order[0] !in names {
        DecodeAllKeys(row, names, order[1..], idx);
      } else {
        DecodeAllStep(row, names, order, idx);
        DecodeAllKeys(row, names, order[1..], idx + 4);
        KeysCons((order[0], DecodeField(order[0], Slice(row.value, idx, idx + 4)).value),
                 DecodeAll(row, names, order[1..], idx + 4).value);
      }
    }
  }

  /** Entry k of `res` is the decoding of pixels idx+4k .. idx+4k+3 of `row`. */
  ghost predicate FieldsAt(row: seq<byte>, res: seq<(string, Value)>, idx: nat)
  {
    forall k :: 0 <= k < |res| ==> DecodeField(res[k].0, Slice(row, idx + 4 * k, idx + 4 * k + 4)) == Ok(res[k].1)
  }

  /** FieldsAt extends by one entry decoded from the four pixels in front. */
  lemma FieldsAtCons(row: seq<byte>, x: (string, Value), rest: seq<(string, Value)>, idx: nat)
    requires DecodeField(x.0, Slice(row, idx, idx + 4)) == Ok(x.1) && FieldsAt(row, rest, idx + 4)
    ensures FieldsAt(row, [x] + rest, idx)
  {
    var res := [x] + rest;
    forall k | 0 <= k < |res|
      ensures DecodeField(res[k].0, Slice(row, idx + 4 * k, idx + 4 * k + 4)) == Ok(res[k].1)
    {
      if k > 0 {
        assert res[k] == rest[k - 1];
        assert idx + 4 * k == (idx + 4) + 4 * (k - 1);
      }
    }
  }

  /** The k-th entry of a successful walk is decoded from pixels idx+4k .. idx+4k+3 of row 0. */
  lemma {:induction false} DecodeAllFields(row: Option<seq<byte>>, names: seq<string>, order: seq<string>, idx: nat)
    requires DecodeAll(row, names, order, idx).Ok?
    ensures DecodeAll(row, names, order, idx).value != [] ==> row.Some?
    ensures row.Some? ==> FieldsAt(row.value, DecodeAll(row, names, order, idx).value, idx)
  {
    if order != [] {
      if order[0] !in names {
        DecodeAllFields(row, names, order[1..], idx);
      } else {
        DecodeAllStep(row, names, order, idx);
        DecodeAllFields(row, names, order[1..], idx + 4);
        FieldsAtCons(row.value, (order[0], DecodeField(order[0], Slice(row.value, idx, idx + 4)).value),
                     DecodeAll(row, names, order[1..], idx + 4).value, idx);
      }
    }
  }

  predicate AllKnown(names: seq<string>, order: seq<string>)
  {
    forall i :: 0 <= i < |names| ==> names[i] in order
  }

  /** The frame is uint8 and either two-dimensional or a colour frame with equal, existing channels. */
  predicate PassesFrameChecks(frame: Frame)
  {
    frame.isUint8 &&
    (frame.pixels.Grey? || (IsGrey(frame.pixels.crows, frame.pixels.channels) && frame.pixels.channels >= 1))
  }

  /**
   * extractInfo, as a value, over a property order: the dtype test, the
   * greyscale test, the name test, then the walk over the order from pixel 0.
   */
  function Extract(frame: Frame, names: seq<string>, order: seq<string>): Result<seq<(string, Value)>>
  {
    if !frame.isUint8 then Err(TypeError)
    else if frame.pixels.Colour? && !IsGrey(frame.pixels.crows, frame.pixels.channels) then Err(ValueError)
    else if frame.pixels.Colour? && frame.pixels.channels == 0 then Err(IndexError)
    else if !AllKnown(names, order) then Err(ValueError)
    else DecodeAll(Row0(frame.pixels), names, order, 0)
  }

  /** extractInfo(frame, properties) over the fixed PROPERTIES order. */
  function ExtractSpec(frame: Frame, arg: PropertyArg): Result<seq<(string, Value)>>
  {
    Extract(frame, Requested(arg), Properties)
  }

  /**
   * What extractInfo promises: exactly one entry per requested property, in
   * the fixed property order, each decoded from the next four pixels of
   * row 0; a name outside that order, a frame whose channels differ, or a
   * frame of another dtype is rejected.
   */
  lemma ExtractMeaning(frame: Frame, names: seq<string>, order: seq<string>)
    ensures !frame.isUint8 ==> Extract(frame, names, order) == Err(TypeError)
    ensures frame.isUint8 && frame.pixels.Colour? && !IsGrey(frame.pixels.crows, frame.pixels.channels) ==>
              Extract(frame, names, order) == Err(ValueError)
    ensures PassesFrameChecks(frame) && !AllKnown(names, order) ==> Extract(frame, names, order) == Err(ValueError)
    ensures Extract(frame, names, order).Ok? ==>
              var res := Extract(frame, names, order).value;
              PassesFrameChecks(frame) && AllKnown(names, order) &&
              Keys(res) == InOrder(order, names) &&
              (forall p :: p in Keys(res) <==> p in names) &&
              (res != [] ==> Row0(frame.pixels).Some? && FieldsAt(Row0(frame.pixels).value, res, 0))
  {
    if Extract(frame, names, order).Ok? {
      var res := Extract(frame, names, order).value;
      DecodeAllKeys(Row0(frame.pixels), names, order, 0);
      DecodeAllFields(Row0(frame.pixels), names, order, 0);
      forall p
        ensures p in Keys(res) <==> p in names
      {
        if p in names {
          var i :| 0 <= i < |names| && names[i] == p;
        }
      }
    }
  }

  /** Requesting every name of `order` keeps all of `order`. */
  lemma {:induction false} InOrderAll(order: seq<string>, names: seq<string>)
    requires forall i :: 0 <= i < |order| ==> order[i] in names
    ensures InOrder(order, names) == order
  {
    if order != [] {
      InOrderAll(order[1..], names);
    }
  }

  /** 'all', alone or inside the list, stands for every property. */
  lemma AllMeansEveryProperty(names: seq<string>)
    ensures Requested(AllProperties) == Properties
    ensures "all" in names ==> Requested(PropertyList(names)) == Properties
    ensures "all" !in names ==> Requested(PropertyList(names)) == names
  {
  }

  /** Requesting the whole order decodes every property of it, in that order. */
  lemma ExtractEveryProperty(frame: Frame, order: seq<string>)
    requires Extract(frame, order, order).Ok?
    ensures Keys(Extract(frame, order, order).value) == order
  {
    ExtractMeaning(frame, order, order);
    InOrderAll(order, order);
  }

  /** extractInfo(frame, properties) over the fixed PROPERTIES order. */
  method ExtractInfo(frame: Frame, arg: PropertyArg) returns (r: Result<seq<(string, Value)>>)
    ensures r == ExtractSpec(frame, arg)
  {
    r := ExtractOver(frame, Requested(arg), Properties);
  }

  /**
   * extractInfo with its loops: the channel test over channels 1.., the
   * name test over the request, and the walk over the property order with
   * the running pixel offset.
   */
  method ExtractOver(frame: Frame, names: seq<string>, order: seq<string>) returns (r: Result<seq<(string, Value)>>)
    ensures r == Extract(frame, names, order)
  {
    if !frame.isUint8 {
      return Err(TypeError);
    }
    if frame.pixels.Colour? {
      var grey := ChannelsAgree(frame.pixels.crows, frame.pixels.channels);
      if !grey {
        return Err(ValueError);
      }
      if frame.pixels.channels == 0 {
        return Err(IndexError);
      }
    }
    var i := 0;
    while i < |names|
      invariant 0 <= i <= |names|
      invariant forall j :: 0 <= j < i ==> names[j] in order
    {
      if names[i] !in order {
        return Err(ValueError);
      }
      i := i + 1;
    }
    var row := Row0(frame.pixels);
    var res: seq<(string, Value)> := [];
    var idx := 0;
    var n := 0;
    assert order[0..] == order;
    PrependNothing(DecodeAll(row, names, order, 0));
    while n < |order|
      invariant 0 <= n <= |order|
      invariant DecodeAll(row, names, order, 0) == Prepend(res, DecodeAll(row, names, order[n..], idx))
    {
      var prop := order[n];
      assert order[n..][1..] == order[n + 1..];
      if prop in names {
        if row.None? {
          return Err(IndexError);
        }
        var data := Slice(row.value, idx, idx + 4);
        var field := DecodeField(prop, data);
        if field.Err? {
          return Err(field.error);
        }
        assert DecodeAll(row, names, order[n..], idx) ==
               Prepend([(prop, field.value)], DecodeAll(row, names, order[n + 1..], idx + 4));
        PrependOne(res, (prop, field.value), DecodeAll(row, names, order[n + 1..], idx + 4));
        res := res + [(prop, field.value)];
        idx := idx + 4;
      }
      n := n + 1;
    }
    assert order[n..] == [];
    assert res + [] == res;
    assert AllKnown(names, order);
    return Ok(res);
  }

  /** Entries decoded so far in front of the outcome of the rest of the walk. */
  function Prepend(done: seq<(string, Value)>, rest: Result<seq<(string, Value)>>): Result<seq<(string, Value)>>
  {
    match rest
    case Err(e) => Err(e)
    case Ok(t) => Ok(done + t)
  }

  lemma PrependNothing(rest: Result<seq<(string, Value)>>)
    ensures Prepend([], rest) == rest
  {
    if rest.Ok? {
      assert [] + rest.value == rest.value;
    }
  }

  lemma PrependOne(done: seq<(string, Value)>, e: (string, Value), rest: Result<seq<(string, Value)>>)
    ensures Prepend(done, Prepend([e], rest)) == Prepend(done + [e], rest)
  {
    if rest.Ok? {
      assert done + ([e] + rest.value) == (done + [e]) + rest.value;
    }
  }

  // ---------------------------------------------------------------------
  // The command-line tool: output file names and csv rows
  // ---------------------------------------------------------------------

  /** The default output for an input video: its root plus "-embedded_info.csv". */
  function DefaultOutfile(infile: string): (r: string)
    ensures StartsWith(r, Root(infile)) && EndsWith(r, "-embedded_info.csv")
  {
    Root(infile) + "-embedded_info.csv"
  }

  /** Outputs given explicitly must match the inputs one for one (OSError otherwise). */
  function ResolveOutfiles(infiles: seq<string>, outfiles: Option<seq<string>>): (r: Result<seq<string>>)
    ensures r.Err? <==> outfiles.Some? && |outfiles.value| != |infiles|
    ensures r.Err? ==> r.error == OSError
    ensures r.Ok? ==> |r.value| == |infiles|
    ensures r.Ok? && outfiles.None? ==> forall i :: 0 <= i < |infiles| ==> r.value[i] == DefaultOutfile(infiles[i])
    ensures r.Ok? && outfiles.Some? ==> r.value == outfiles.value
  {
    match outfiles
    case None => Ok(seq(|infiles|, i requires 0 <= i < |infiles| => DefaultOutfile(infiles[i])))
    case Some(outs) => if |outs| != |infiles| then Err(OSError) else Ok(outs)
  }

  /**
   * The csv extension rule as written: no extension gains ".csv"; another
   * extension is replaced through str.replace, which rewrites every
   * occurrence of that text in the whole path. The final extension is
   * always among them, so the output is still a ".csv" file.
   */
  function CsvOutfileAsWritten(outfile: string): (r: string)
    ensures EndsWith(r, ".csv")
  {
    var ext := Ext(outfile);
    if ext == [] then outfile + ".csv"
    else if ext != ".csv" then
      ReplaceAllBeforeExt(Root(outfile), ext, ".csv");
      ReplaceAll(outfile, ext, ".csv")
    else outfile
  }

  /** The text pat occurs in s starting at position i. */
  predicate OccursAt(pat: string, s: string, i: int)
  {
    0 <= i && i + |pat| <= |s| && s[i..i + |pat|] == pat
  }

  /** The text pat occurs somewhere in s. */
  predicate Occurs(pat: string, s: string)
  {
    exists i :: 0 <= i <= |s| && OccursAt(pat, s, i)
  }

  /**
   * An extension cannot overlap itself, so replacing it in root + ext
   * replaces the final one on its own: the root is scanned alone.
   */
  lemma {:induction false} ReplaceAllBeforeExt(root: string, ext: string, rep: string)
    requires |ext| > 0 && ext[0] == '.' && '.' !in ext[1..]
    ensures ReplaceAll(root + ext, ext, rep) == ReplaceAll(root, ext, rep) + rep
    decreases |root|
  {
    var s := root + ext;
    if |root| == 0 {
      assert s == ext && s[|ext|..] == [];
    } else {
      if |root| < |ext| {
        assert s[|root|] == '.' && ext[|root|] in ext[1..];
        assert s[..|ext|] != ext;
      }
      if |root| >= |ext| && s[..|ext|] == ext {
        assert s[|ext|..] == root[|ext|..] + ext;
        ReplaceAllBeforeExt(root[|ext|..], ext, rep);
      } else {
        assert s[1..] == root[1..] + ext;
        ReplaceAllBeforeExt(root[1..], ext, rep);
      }
    }
  }

  /** Text in which the pattern does not occur is left as it is. */
  lemma {:induction false} ReplaceAllAbsent(s: string, pat: string, rep: string)
    requires |pat| > 0 && !Occurs(pat, s)
    ensures ReplaceAll(s, pat, rep) == s
    decreases |s|
  {
    if |s| >= |pat| {
      assert !OccursAt(pat, s, 0) && s[0..0 + |pat|] == s[..|pat|];
      if Occurs(pat, s[1..]) {
        var i :| 0 <= i <= |s[1..]| && OccursAt(pat, s[1..], i);
        assert s[1..][i..i + |pat|] == s[i + 1..i + 1 + |pat|];
        assert OccursAt(pat, s, i + 1);
      }
      ReplaceAllAbsent(s[1..], pat, rep);
    }
  }

  /**
   * The rule as written and the corrected rule name the same file exactly
   * when nothing but the final extension would be rewritten: the extension
   * text does not occur in the root.
   */
  lemma CsvOutfileAsWrittenAgrees(outfile: string)
    requires Ext(outfile) == [] || !Occurs(Ext(outfile), Root(outfile))
    ensures CsvOutfileAsWritten(outfile) == CsvOutfile(outfile)
  {
    var ext := Ext(outfile);
    if ext != [] && ext != ".csv" {
      ReplaceAllBeforeExt(Root(outfile), ext, ".csv");
      ReplaceAllAbsent(Root(outfile), ext, ".csv");
    }
  }

  /** The same rule with only the extension replaced. */
  function CsvOutfile(outfile: string): (r: string)
    ensures Ext(outfile) == [] ==> r == outfile + ".csv"
    ensures Ext(outfile) != [] ==> r == Root(outfile) + ".csv"
  {
    var ext := Ext(outfile);
    if ext == [] then outfile + ".csv"
    else if ext != ".csv" then Root(outfile) + ".csv"
    else outfile
  }

  /**
   * The corrected rule keeps the directory and root and always leaves
   * ".csv" as the extension of a name whose final component is named.
   */
  lemma CsvOutfileExtension(outfile: string)
    requires exists k :: 0 <= k < |outfile| && outfile[k] != '.' && '/' !in outfile[k..]
    ensures SplitExt(CsvOutfile(outfile)) == (Root(outfile), ".csv")
  {
    var root := Root(outfile);
    assert ".csv" == ['.'] + "csv";
    if Ext(outfile) == [] {
      SplitExtAppendExt(outfile, "csv");
      assert outfile + ".csv" == outfile + ['.'] + "csv";
    } else {
      assert root + ".csv" == root + ['.'] + "csv";
      SplitExtAppendExt(root, "csv");
    }
  }

  lemma SampleSplit()
    ensures SplitExt("a.b/c.b") == ("a.b/c", ".b")
  {
    assert "a.b/c.b" == "a.b/c" + ['.'] + "b";
    assert "a.b/c"[4] == 'c';
    SplitExtAppendExt("a.b/c", "b");
  }

  lemma SampleReplace()
    ensures ReplaceAll("a.b/c.b", ".b", ".csv") == "a.csv/c.csv"
  {
    ReplaceHit(".b", ".b", ".csv");
    ReplaceMiss("c.b", ".b", ".csv");
    ReplaceMiss("/c.b", ".b", ".csv");
    ReplaceHit(".b/c.b", ".b", ".csv");
    ReplaceMiss("a.b/c.b", ".b", ".csv");
  }

  /** An occurrence at the front is replaced and the scan goes on after it. */
  lemma ReplaceHit(s: string, pat: string, rep: string)
    requires 0 < |pat| <= |s| && s[..|pat|] == pat
    ensures ReplaceAll(s, pat, rep) == rep + ReplaceAll(s[|pat|..], pat, rep)
  {
  }

  /** A front character that cannot start an occurrence is kept. */
  lemma ReplaceMiss(s: string, pat: string, rep: string)
    requires 0 < |pat| <= |s| && s[0] != pat[0]
    ensures ReplaceAll(s, pat, rep) == [s[0]] + ReplaceAll(s[1..], pat, rep)
  {
    assert s[..|pat|][0] != pat[0];
  }

  /** A directory whose name carries the same extension is rewritten too. */
  lemma CsvOutfileAsWrittenRewritesDirectory()
    ensures CsvOutfileAsWritten("a.b/c.b") == "a.csv/c.csv"
    ensures CsvOutfile("a.b/c.b") == "a.b/c.csv"
  {
    SampleSplit();
    SampleReplace();
  }

  /** A csv cell: every column holds an integer (the float cycle_seconds is not modelled). */
  function FlattenRow(row: seq<(string, Value)>): seq<(string, nat)>
  {
    PlainColumns(row) + TimestampColumns(row) + RoiColumns(row)
  }

  function PlainColumns(row: seq<(string, Value)>): seq<(string, nat)>
  {
    if row == [] then []
    else (if row[0].1.Plain? then [(row[0].0, row[0].1.value)] else []) + PlainColumns(row[1..])
  }

  function TimestampColumns(row: seq<(string, Value)>): seq<(string, nat)>
  {
    if row == [] then []
    else if row[0].1.Timestamp? then
      var t := row[0].1;
      [("timestamp.second_count", t.secondCount), ("timestamp.cycle_count", t.cycleCount),
       ("timestamp.cycle_offset", t.cycleOffset)]
    else TimestampColumns(row[1..])
  }

  function RoiColumns(row: seq<(string, Value)>): seq<(string, nat)>
  {
    if row == [] then []
    else if row[0].1.RoiPosition? then
      [("ROIPosition.left", row[0].1.left), ("ROIPosition.top", row[0].1.top)]
    else RoiColumns(row[1..])
  }

  function ColumnNames(cols: seq<(string, nat)>): seq<string>
  {
    seq(|cols|, i requires 0 <= i < |cols| => cols[i].0)
  }

  /** Two rows with the same keys and the same kinds of values get the same header. */
  predicate SameShape(a: seq<(string, Value)>, b: seq<(string, Value)>)
  {
    |a| == |b| &&
    forall i :: 0 <= i < |a| ==>
      a[i].0 == b[i].0 && a[i].1.Plain? == b[i].1.Plain? &&
      a[i].1.Timestamp? == b[i].1.Timestamp? && a[i].1.RoiPosition? == b[i].1.RoiPosition?
  }

  lemma {:induction false} SameShapeSameColumns(a: seq<(string, Value)>, b: seq<(string, Value)>)
    requires SameShape(a, b)
    ensures ColumnNames(PlainColumns(a)) == ColumnNames(PlainColumns(b))
    ensures ColumnNames(TimestampColumns(a)) == ColumnNames(TimestampColumns(b))
    ensures ColumnNames(RoiColumns(a)) == ColumnNames(RoiColumns(b))
  {
    if a != [] {
      assert SameShape(a[1..], b[1..]);
      SameShapeSameColumns(a[1..], b[1..]);
      var pa := if a[0].1.Plain? then [(a[0].0, a[0].1.value)] else [];
      var pb := if b[0].1.Plain? then [(b[0].0, b[0].1.value)] else [];
      assert ColumnNames(pa + PlainColumns(a[1..])) == ColumnNames(pa) + ColumnNames(PlainColumns(a[1..]));
      assert ColumnNames(pb + PlainColumns(b[1..])) == ColumnNames(pb) + ColumnNames(PlainColumns(b[1..]));
    }
  }

  /** Each entry's kind of value is fixed by its property name. */
  lemma KindsFollowNames(row: seq<byte>, res: seq<(string, Value)>, idx: nat)
    requires FieldsAt(row, res, idx)
    ensures forall i :: 0 <= i < |res| ==>
              (res[i].1.Timestamp? <==> res[i].0 == "timestamp") &&
              (res[i].1.RoiPosition? <==> res[i].0 == "ROIPosition")
  {
    forall i | 0 <= i < |res|
      ensures (res[i].1.Timestamp? <==> res[i].0 == "timestamp") &&
              (res[i].1.RoiPosition? <==> res[i].0 == "ROIPosition")
    {
      assert DecodeField(res[i].0, Slice(row, idx + 4 * i, idx + 4 * i + 4)) == Ok(res[i].1);
    }
  }

  /**
   * Every frame of a clip decoded with the same properties has the header of
   * the first, so the csv writer set up on the first frame accepts every
   * later row.
   */
  lemma HeaderFixedByRequest(f1: Frame, f2: Frame, names: seq<string>, order: seq<string>)
    requires Extract(f1, names, order).Ok? && Extract(f2, names, order).Ok?
    ensures ColumnNames(FlattenRow(Extract(f1, names, order).value)) ==
            ColumnNames(FlattenRow(Extract(f2, names, order).value))
  {
    var a, b := Extract(f1, names, order).value, Extract(f2, names, order).value;
    ExtractedKinds(f1, names, order);
    ExtractedKinds(f2, names, order);
    assert |a| == |Keys(a)| && |b| == |Keys(b)|;
    forall i | 0 <= i < |a|
      ensures a[i].0 == b[i].0
    {
      assert Keys(a)[i] == a[i].0 && Keys(b)[i] == b[i].0;
    }
    SameShapeSameColumns(a, b);
    FlattenNames(a);
    FlattenNames(b);
  }

  /** A decoded row's keys are the requested properties in order, each with the kind of value its name fixes. */
  lemma ExtractedKinds(f: Frame, names: seq<string>, order: seq<string>)
    requires Extract(f, names, order).Ok?
    ensures var res := Extract(f, names, order).value;
            Keys(res) == InOrder(order, names) &&
            forall i :: 0 <= i < |res| ==>
              (res[i].1.Timestamp? <==> res[i].0 == "timestamp") &&
              (res[i].1.RoiPosition? <==> res[i].0 == "ROIPosition")
  {
    var res := Extract(f, names, order).value;
    ExtractMeaning(f, names, order);
    if res != [] {
      KindsFollowNames(Row0(f.pixels).value, res, 0);
    }
  }

  lemma ColumnNamesAppend(x: seq<(string, nat)>, y: seq<(string, nat)>)
    ensures ColumnNames(x + y) == ColumnNames(x) + ColumnNames(y)
  {
  }

  /** The header of a flattened row: the plain columns, then the timestamp ones, then the ROI ones. */
  lemma FlattenNames(a: seq<(string, Value)>)
    ensures ColumnNames(FlattenRow(a)) ==
            ColumnNames(PlainColumns(a)) + ColumnNames(TimestampColumns(a)) + ColumnNames(RoiColumns(a))
  {
    ColumnNamesAppend(PlainColumns(a) + TimestampColumns(a), RoiColumns(a));
    ColumnNamesAppend(PlainColumns(a), TimestampColumns(a));
  }
}
