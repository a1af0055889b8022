/** The structural image check: detect the container, then require that its real end is the end of the
    payload. The accepted payloads form a prefix-free language. */
module ImageCheck {
  import opened Bytes
  import Png
  import Jpeg
  import JpegStreams

  datatype Mime = PngImage | JpegImage | WebpImage
  datatype Result<+T, +E> = Ok(value: T) | Err(error: E)
  datatype Error = UnsupportedFormat | DecodeFailed | TrailingBytes

  const JPEG_SIGNATURE: seq<byte> := [0xFF, 0xD8, 0xFF]
  const RIFF: seq<byte> := [0x52, 0x49, 0x46, 0x46]
  const WEBP: seq<byte> := [0x57, 0x45, 0x42, 0x50]

  function DetectedMime(payload: seq<byte>): Result<Mime, Error> {
    if Png.SIGNATURE <= payload then Ok(PngImage)
    else if JPEG_SIGNATURE <= payload then Ok(JpegImage)
    else if |payload| >= 12 && payload[..4] == RIFF && payload[8..12] == WEBP then Ok(WebpImage)
    else Err(UnsupportedFormat)
  }

  /** The size field of the RIFF header counts every byte after the first eight (section 2.4 of RFC 9649). */
  predicate RiffSizeMatches(payload: seq<byte>) {
    |payload| >= 8 && LE32(payload[4..8]) + 8 == |payload|
  }

  /** The payload is a whole image of its detected format and nothing else. */
  ghost predicate Accepted(payload: seq<byte>) {
    match DetectedMime(payload)
    case Ok(PngImage) => exists cs :: Png.IsFile(payload, cs)
    case Ok(JpegImage) => Jpeg.Accepts(payload)
    case Ok(WebpImage) => RiffSizeMatches(payload)
    case Err(_) => false
  }

  method RejectTrailingBytes(payload: seq<byte>, mime: Mime) returns (r: Result<(), Error>)
    requires DetectedMime(payload) == Ok(mime)
    ensures r.Ok? <==> Accepted(payload)
    ensures r == Err(DecodeFailed) <==> mime == PngImage && Png.Overruns(payload[8..])
    ensures r.Err? ==> r.error in {DecodeFailed, TrailingBytes}
  {
    match mime
    case PngImage =>
      var v := Png.Check(payload);
      r := match v
        case Accepted => Ok(())
        case DecodeFailed => Err(DecodeFailed)
        case TrailingBytes => Err(TrailingBytes);
    case JpegImage =>
      var ok := Jpeg.Check(payload);
      r := if ok then Ok(()) else Err(TrailingBytes);
    case WebpImage =>
      r := if RiffSizeMatches(payload) then Ok(()) else Err(TrailingBytes);
  }

  /** The structural part of `validate_image_bytes`. */
  method ValidateStructure(payload: seq<byte>) returns (r: Result<Mime, Error>)
    ensures r.Ok? <==> Accepted(payload)
    ensures r.Ok? ==> r == DetectedMime(payload)
    ensures r == Err(UnsupportedFormat) <==> DetectedMime(payload).Err?
  {
    r := DetectedMime(payload);
    if r.Ok? {
      var checked := RejectTrailingBytes(payload, r.value);
      if checked.Err? {
        r := Err(checked.error);
      }
    }
  }

  /** The first bytes decide the format. */
  lemma {:induction false} MimeMeans(payload: seq<byte>)
    ensures DetectedMime(payload) == Ok(PngImage) <==>
              |payload| >= 8 && payload[..8] == [137, 80, 78, 71, 13, 10, 26, 10]
    ensures DetectedMime(payload) == Ok(JpegImage) <==> |payload| >= 3 && payload[..3] == [255, 216, 255]
    ensures DetectedMime(payload) == Ok(WebpImage) <==>
              |payload| >= 12 && payload[..4] == [82, 73, 70, 70] && payload[8..12] == [87, 69, 66, 80]
  {
    if |payload| >= 3 && payload[..3] == [255, 216, 255] {
      assert payload[0] == 255;
    }
    if |payload| >= 8 && payload[..8] == [137, 80, 78, 71, 13, 10, 26, 10] {
      assert payload[0] == 137;
    }
    if |payload| >= 12 && payload[..4] == [82, 73, 70, 70] {
      assert payload[0] == 82;
    }
  }

  lemma {:induction false} SameMime(payload: seq<byte>, extra: seq<byte>)
    requires DetectedMime(payload).Ok?
    ensures DetectedMime(payload + extra) == DetectedMime(payload)
  {
    var longer := payload + extra;
    if Png.SIGNATURE <= payload {
      assert longer[..8] == payload[..8];
    } else if JPEG_SIGNATURE <= payload {
      assert longer[..3] == payload[..3];
      assert longer[0] == 0xFF;
    } else {
      assert longer[..4] == payload[..4] && longer[8..12] == payload[8..12];
      assert longer[0] == payload[..4][0] == 0x52;
    }
  }

  /** No accepted payload is a proper prefix of an accepted payload. Whatever is appended, a second
      fabricated end marker included, the longer payload is rejected. */
  lemma {:induction false} PrefixFree(payload: seq<byte>, extra: seq<byte>)
    requires Accepted(payload) && extra != []
    ensures !Accepted(payload + extra)
  {
    SameMime(payload, extra);
    var longer := payload + extra;
    match DetectedMime(payload)
    case Ok(PngImage) =>
      var cs :| Png.IsFile(payload, cs);
      forall ds | Png.IsFile(longer, ds)
        ensures false
      {
        PngExtension(payload, extra, cs, ds);
      }
    case Ok(JpegImage) =>
      JpegStreams.WalkExtends(payload[2..], extra);
      assert longer[2..] == payload[2..] + extra;
    case Ok(WebpImage) =>
      assert longer[4..8] == payload[4..8];
  }

  lemma {:induction false} PngExtension(payload: seq<byte>, extra: seq<byte>, cs: seq<Png.Chunk>, ds: seq<Png.Chunk>)
    requires Png.IsFile(payload, cs) && Png.IsFile(payload + extra, ds)
    ensures extra == []
  {
    var body := (payload + extra)[8..];
    assert body == Png.RenderAll(cs) + extra;
    assert body == Png.RenderAll(ds) + [];
    Png.ParseRender(cs, extra);
    Png.ParseRender(ds, []);
  }

  // ---------------------------------------------------------------- WebP files

  /** A WebP file around its chunks: `RIFF`, the little-endian number of bytes that follow, `WEBP`, the chunks. */
  ghost function WebpFile(body: seq<byte>): seq<byte>
    requires |body| + 4 < 4294967296
  {
    var n := |body| + 4;
    [0x52, 0x49, 0x46, 0x46] + [n % 256, n / 256 % 256, n / 65536 % 256, n / 16777216]
    + [0x57, 0x45, 0x42, 0x50] + body
  }

  lemma {:induction false} WebpLayout(body: seq<byte>, tail: seq<byte>)
    requires |body| + 4 < 4294967296
    ensures var payload := WebpFile(body) + tail;
            && DetectedMime(payload) == Ok(WebpImage) && |payload| == |body| + 12 + |tail|
            && LE32(payload[4..8]) == |body| + 4 && payload[12..] == body + tail
  {
    var n, payload := |body| + 4, WebpFile(body) + tail;
    var a, b, c, d := n % 256, n / 256 % 256, n / 65536 % 256, n / 16777216;
    assert payload[..4] == [0x52, 0x49, 0x46, 0x46] && payload[4..8] == [a, b, c, d];
    assert payload[8..12] == [0x57, 0x45, 0x42, 0x50] && payload[0] == 0x52;
    ByteOrder(a, b, c, d);
    FourBytes(n);
  }

  /** A WebP file is accepted exactly when nothing follows its chunks. */
  lemma {:induction false} WebpAcceptedIffNothingFollows(body: seq<byte>, tail: seq<byte>)
    requires |body| + 4 < 4294967296
    ensures Accepted(WebpFile(body) + tail) <==> tail == []
  {
    WebpLayout(body, tail);
  }

  /** Every accepted WebP payload is such a file, of one body only. */
  lemma {:induction false} AcceptedWebpIsFile(payload: seq<byte>)
    requires Accepted(payload) && DetectedMime(payload) == Ok(WebpImage)
    ensures 12 <= |payload| < 4294967296 + 8 && payload == WebpFile(payload[12..])
  {
    var size, n := payload[4..8], |payload| - 8;
    ByteOrder(size[0], size[1], size[2], size[3]);
    assert size == [size[0], size[1], size[2], size[3]];
    FourBytesOf(size[0], size[1], size[2], size[3]);
    assert size == [n % 256, n / 256 % 256, n / 65536 % 256, n / 16777216];
    Parts(payload);
  }

  lemma {:induction false} Parts(payload: seq<byte>)
    requires 12 <= |payload|
    ensures payload == payload[..4] + payload[4..8] + payload[8..12] + payload[12..]
  {
  }

  lemma {:induction false} WebpBodyIsUnique(body: seq<byte>, other: seq<byte>)
    requires |body| + 4 < 4294967296 && |other| + 4 < 4294967296 && WebpFile(body) == WebpFile(other)
    ensures body == other
  {
    WebpLayout(body, []);
    WebpLayout(other, []);
    assert WebpFile(body) + [] == WebpFile(other) + [];
    assert body + [] == body && other + [] == other;
  }

  // ---------------------------------------------------------------- the smallest files, byte by byte

  lemma {:induction false} SmallestPng(png: seq<byte>)
    requires png == [137, 80, 78, 71, 13, 10, 26, 10, 0, 0, 0, 0, 73, 69, 78, 68, 174, 66, 96, 130]
    ensures Accepted(png)
  {
    assert png[..8] == Png.SIGNATURE;
    var rest := png[8..];
    ByteOrder(0, 0, 0, 0);
    assert rest[..4] == [0, 0, 0, 0] && rest[4..8] == Png.IEND && rest[12..] == [];
    Png.Recognised(png);
  }

  lemma {:induction false} SmallestJpeg(jpeg: seq<byte>)
    requires jpeg == [255, 216, 255, 217]
    ensures Accepted(jpeg)
  {
    JpegStreams.AtMarker(0, 217, []);
    assert jpeg[2..] == JpegStreams.Marker(0, 217) + [];
    assert jpeg[..3] == [255, 216, 255];
  }

  lemma {:induction false} SmallestWebp(webp: seq<byte>)
    requires webp == [82, 73, 70, 70, 4, 0, 0, 0, 87, 69, 66, 80]
    ensures Accepted(webp)
  {
    WebpAcceptedIffNothingFollows([], []);
    assert WebpFile([]) + [] == webp;
  }
}
