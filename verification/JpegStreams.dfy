/** What the JPEG walk does on whole classes of payloads: bytes appended after an accepted end, marker
    streams rendered from their parts, and the streams with several scans that it loses track of. */
module JpegStreams {
  import opened Common
  import opened Bytes
  import opened Jpeg

  // ---------------------------------------------------------------- appended bytes

  lemma {:induction false} DropExtends(s: seq<byte>, t: seq<byte>)
    requires DropFF(s) != []
    ensures DropFF(s + t) == DropFF(s) + t
  {
    if s[0] == FF {
      assert (s + t)[1..] == s[1..] + t;
      DropExtends(s[1..], t);
    }
  }

  lemma {:induction false} ScanExtends(s: seq<byte>, t: seq<byte>)
    ensures Scan(s).Found? ==> Scan(s + t) == Found(Scan(s).rest + t)
    ensures Scan(s).Resume? && Walk(Scan(s).at).Some? ==> Scan(s + t) == Resume(Scan(s).at + t)
    decreases |s|
  {
    if |s| < 2 {
    } else if s[0] != FF {
      assert (s + t)[1..] == s[1..] + t;
      ScanExtends(s[1..], t);
    } else if DropFF(s) != [] {
      var m := DropFF(s);
      DropExtends(s, t);
      assert (m + t)[1..] == m[1..] + t;
      if m[0] == 0 || IsRestart(m[0]) {
        ScanExtends(m[1..], t);
      }
    }
  }

  lemma {:induction false} SegmentExtends(m: seq<byte>, t: seq<byte>)
    requires m != [] && AfterSegment(m).Some?
    ensures AfterSegment(m + t) == Some(AfterSegment(m).value + t)
  {
    assert (m + t)[1..3] == m[1..3];
    var length := BE16(m[1..3]);
    assert (m + t)[1 + length..] == m[1 + length..] + t;
  }

  /** Bytes after the end that the walk found do not change which end it finds. */
  lemma {:induction false} WalkExtends(s: seq<byte>, t: seq<byte>)
    requires Walk(s).Some?
    ensures Walk(s + t) == Some(Walk(s).value + t)
    decreases |s|
  {
    if s[0] != FF {
      assert (s + t)[1..] == s[1..] + t;
      WalkExtends(s[1..], t);
    } else {
      var m := DropFF(s);
      DropExtends(s, t);
      assert (m + t)[1..] == m[1..] + t;
      if m[0] == EOI {
      } else if IsBare(m[0]) {
        WalkExtends(m[1..], t);
      } else {
        SegmentExtends(m, t);
        var rest := AfterSegment(m).value;
        if m[0] != SOS {
          WalkExtends(rest, t);
        } else {
          ScanExtends(rest, t);
          if Scan(rest).Resume? {
            WalkExtends(Scan(rest).at, t);
          }
        }
      }
    }
  }

  // ---------------------------------------------------------------- the bytes before an accepted end

  /** `s` is some bytes, then FF D9, then `rest`. */
  ghost predicate EndsBefore(s: seq<byte>, rest: seq<byte>) {
    |rest| + 2 <= |s| && s[|s| - |rest| - 2..] == [FF, EOI] + rest
  }

  lemma {:induction false} Prepend(x: seq<byte>, s: seq<byte>, rest: seq<byte>)
    requires EndsBefore(s, rest)
    ensures EndsBefore(x + s, rest)
  {
    var k := |s| - |rest| - 2;
    assert (x + s)[|x| + k..] == s[k..];
  }

  lemma {:induction false} DropSuffix(s: seq<byte>) returns (x: seq<byte>)
    requires s != [] && s[0] == FF
    ensures s == x + [FF] + DropFF(s)
  {
    if |s| == 1 || s[1] != FF {
      x := [];
      assert s == [FF] + s[1..];
    } else {
      x := DropSuffix(s[1..]);
      assert s == [FF] + s[1..];
      x := [FF] + x;
    }
  }

  lemma {:induction false} AfterMarker(s: seq<byte>, rest: seq<byte>, x: seq<byte>)
    requires s == x + [FF] + ([EOI] + rest)
    ensures EndsBefore(s, rest)
  {
    assert s == x + ([FF, EOI] + rest);
  }

  lemma {:induction false} ScanEnds(s: seq<byte>) returns (x: seq<byte>)
    ensures Scan(s).Found? ==> EndsBefore(s, Scan(s).rest)
    ensures Scan(s).Resume? ==> s == x + Scan(s).at
    decreases |s|
  {
    x := [];
    if |s| < 2 {
    } else if s[0] != FF {
      var y := ScanEnds(s[1..]);
      x := [s[0]] + y;
      StepBack([s[0]], s[1..], s, y);
    } else if DropFF(s) != [] {
      var m := DropFF(s);
      var x0 := DropSuffix(s);
      x := x0 + [FF];
      assert m == [m[0]] + m[1..];
      if m[0] == 0 || IsRestart(m[0]) {
        var y := ScanEnds(m[1..]);
        Assoc(x, [m[0]], m[1..]);
        StepBack(x + [m[0]], m[1..], s, y);
        x := x + [m[0]] + y;
      } else if m[0] == EOI {
        AfterMarker(s, m[1..], x0);
      }
    }
  }

  lemma {:induction false} StepBack(x: seq<byte>, t: seq<byte>, s: seq<byte>, y: seq<byte>)
    requires s == x + t && Scan(s) == Scan(t)
    requires Scan(t).Found? ==> EndsBefore(t, Scan(t).rest)
    requires Scan(t).Resume? ==> t == y + Scan(t).at
    ensures Scan(s).Found? ==> EndsBefore(s, Scan(s).rest)
    ensures Scan(s).Resume? ==> s == x + y + Scan(s).at
  {
    if Scan(t).Found? {
      Prepend(x, t, Scan(t).rest);
    } else {
      Assoc(x, y, Scan(t).at);
    }
  }

  /** An end that the walk finds is preceded by FF D9. */
  lemma {:induction false} WalkEnds(s: seq<byte>)
    requires Walk(s).Some?
    ensures EndsBefore(s, Walk(s).value)
    decreases |s|
  {
    var rest := Walk(s).value;
    if s[0] != FF {
      WalkEnds(s[1..]);
      assert s == [s[0]] + s[1..];
      Prepend([s[0]], s[1..], rest);
    } else {
      var m := DropFF(s);
      var x := DropSuffix(s);
      assert m == [m[0]] + m[1..];
      if m[0] == EOI {
        AfterMarker(s, rest, x);
      } else if IsBare(m[0]) {
        WalkEnds(m[1..]);
        assert s == x + [FF] + [m[0]] + m[1..];
        Prepend(x + [FF] + [m[0]], m[1..], rest);
      } else {
        var t := AfterSegment(m).value;
        var k := |m| - |t|;
        assert m == m[..k] + t;
        assert s == (x + [FF] + m[..k]) + t;
        if m[0] != SOS {
          WalkEnds(t);
        } else {
          var y := ScanEnds(t);
          if Scan(t).Resume? {
            WalkEnds(Scan(t).at);
            Prepend(y, Scan(t).at, rest);
          }
        }
        Prepend(x + [FF] + m[..k], t, rest);
      }
    }
  }

  /** An accepted payload ends in FF D9. */
  lemma {:induction false} AcceptedEndsInEoi(payload: seq<byte>)
    requires 2 <= |payload| && Accepts(payload)
    ensures 4 <= |payload| && payload[|payload| - 2..] == [FF, EOI]
  {
    WalkEnds(payload[2..]);
    assert payload[2..][|payload| - 4..] == payload[|payload| - 2..];
    assert [FF, EOI] + [] == [FF, EOI];
  }

  // ---------------------------------------------------------------- marker streams

  /** A marker code with the fill bytes that may precede it (section B.1.1.2). */
  ghost function Marker(fill: nat, code: byte): seq<byte> {
    Repeat(FF, fill + 1) + [code]
  }

  /** One unit of entropy-coded data: a plain byte, a stuffed FF, or a restart marker. */
  datatype Unit = Data(b: byte) | Stuffed(fill: nat) | Restart(fill: nat, code: byte)

  ghost predicate ValidUnit(u: Unit) {
    match u
    case Data(b) => b != FF
    case Stuffed(_) => true
    case Restart(_, code) => 0xD0 <= code <= 0xD7
  }

  ghost function RenderUnit(u: Unit): seq<byte> {
    match u
    case Data(b) => [b]
    case Stuffed(fill) => Marker(fill, 0)
    case Restart(fill, code) => Marker(fill, code)
  }

  ghost predicate ValidUnits(us: seq<Unit>) {
    forall i :: 0 <= i < |us| ==> ValidUnit(us[i])
  }

  ghost function RenderUnits(us: seq<Unit>): seq<byte> {
    if us == [] then [] else RenderUnit(us[0]) + RenderUnits(us[1..])
  }

  /** An element of the stream between SOI and EOI. */
  datatype Element =
    | Bare(fill: nat, code: byte)
    | Segment(fill: nat, code: byte, body: seq<byte>)
    | ScanOf(fill: nat, header: seq<byte>, units: seq<Unit>)

  ghost predicate ValidElement(e: Element) {
    match e
    case Bare(_, code) => code == 0x01 || 0xD0 <= code <= 0xD8
    case Segment(_, code, body) =>
      code != 0x00 && code != 0x01 && code != 0xFF && !(0xD0 <= code <= 0xDA) && |body| + 2 < 0x1_0000
    case ScanOf(_, header, units) => |header| + 2 < 0x1_0000 && ValidUnits(units)
  }

  ghost function Code(e: Element): byte {
    if e.ScanOf? then 0xDA else e.code
  }

  /** The bytes of an element after its marker code. */
  ghost function Body(e: Element): seq<byte>
    requires ValidElement(e)
  {
    match e
    case Bare(_, _) => []
    case Segment(_, _, body) => ToBE16(|body| + 2) + body
    case ScanOf(_, header, units) => ToBE16(|header| + 2) + header + RenderUnits(units)
  }

  ghost function RenderElement(e: Element): seq<byte>
    requires ValidElement(e)
  {
    Marker(e.fill, Code(e)) + Body(e)
  }

  ghost predicate ValidStream(es: seq<Element>) {
    forall i :: 0 <= i < |es| ==> ValidElement(es[i])
  }

  ghost function RenderStream(es: seq<Element>): seq<byte>
    requires ValidStream(es)
  {
    if es == [] then [] else RenderElement(es[0]) + RenderStream(es[1..])
  }

  /** SOI, the elements, EOI, and whatever follows. */
  ghost function File(es: seq<Element>, fill: nat, tail: seq<byte>): seq<byte>
    requires ValidStream(es)
  {
    [FF, 0xD8] + (RenderStream(es) + (Marker(fill, EOI) + tail))
  }

  ghost predicate NoFF(s: seq<byte>) { FF !in s }

  /** The element right after a scan is passed over byte by byte, so it must hold no FF after its code.
      A restart marker there would belong to the scan. */
  ghost predicate Resyncs(e: Element)
    requires ValidElement(e)
  {
    NoFF(Body(e)) && !IsRestart(Code(e))
  }

  ghost predicate Followable(es: seq<Element>)
    requires ValidStream(es)
  {
    forall i :: 0 <= i < |es| - 1 && es[i].ScanOf? ==> Resyncs(es[i + 1])
  }

  /** Segments and bare markers, then one scan: nothing stands between the scan and the EOI. */
  ghost predicate SingleScan(es: seq<Element>) {
    && ValidStream(es)
    && es != [] && es[|es| - 1].ScanOf?
    && forall i :: 0 <= i < |es| - 1 ==> !es[i].ScanOf?
  }

  lemma {:induction false} DropMarker(n: nat, code: byte, rest: seq<byte>)
    requires code != FF
    ensures DropFF(Repeat(FF, n) + ([code] + rest)) == [code] + rest
  {
    var s := Repeat(FF, n) + ([code] + rest);
    if n == 0 {
      assert s == [code] + rest;
    } else {
      assert s[0] == FF;
      assert s[1..] == Repeat(FF, n - 1) + ([code] + rest);
      DropMarker(n - 1, code, rest);
    }
  }

  /** At a marker both modes look at its code. */
  lemma {:induction false} AtMarker(fill: nat, code: byte, rest: seq<byte>)
    requires code != FF
    ensures var s := Marker(fill, code) + rest;
            |s| >= 2 && s[0] == FF && DropFF(s) == [code] + rest && ([code] + rest)[1..] == rest
  {
    var s := Marker(fill, code) + rest;
    assert s == Repeat(FF, fill + 1) + ([code] + rest);
    DropMarker(fill + 1, code, rest);
  }

  lemma {:induction false} ScanSkipsUnits(us: seq<Unit>, rest: seq<byte>)
    requires ValidUnits(us) && rest != []
    ensures Scan(RenderUnits(us) + rest) == Scan(rest)
    decreases |us|
  {
    if us == [] {
      assert RenderUnits(us) + rest == rest;
    } else {
      var u, after := us[0], RenderUnits(us[1..]) + rest;
      ScanSkipsUnits(us[1..], rest);
      Assoc(RenderUnit(u), RenderUnits(us[1..]), rest);
      match u {
        case Data(b) => assert ([b] + after)[1..] == after;
        case Stuffed(fill) => AtMarker(fill, 0, after);
        case Restart(fill, code) => AtMarker(fill, code, after);
      }
    }
  }

  lemma {:induction false} WalkSkips(x: seq<byte>, rest: seq<byte>)
    requires NoFF(x) && rest != []
    ensures Walk(x + rest) == Walk(rest)
    decreases |x|
  {
    if x == [] {
      assert x + rest == rest;
    } else {
      assert x[0] in x && (forall b :: b in x[1..] ==> b in x);
      assert (x + rest)[1..] == x[1..] + rest;
      WalkSkips(x[1..], rest);
    }
  }

  lemma {:induction false} SegmentSkips(code: byte, body: seq<byte>, rest: seq<byte>)
    requires |body| + 2 < 0x1_0000
    ensures AfterSegment([code] + (ToBE16(|body| + 2) + body + rest)) == Some(rest)
  {
    var m := [code] + (ToBE16(|body| + 2) + body + rest);
    assert m[1..3] == ToBE16(|body| + 2);
    assert m[1 + (|body| + 2)..] == rest;
  }

  /** In header mode an element that is not a scan is skipped whole. */
  lemma {:induction false} WalkElement(e: Element, rest: seq<byte>)
    requires ValidElement(e) && !e.ScanOf?
    ensures Walk(RenderElement(e) + rest) == Walk(rest)
  {
    Assoc(Marker(e.fill, e.code), Body(e), rest);
    AtMarker(e.fill, e.code, Body(e) + rest);
    if e.Segment? {
      SegmentSkips(e.code, e.body, rest);
    } else {
      assert Body(e) + rest == rest;
    }
  }

  /** In header mode a scan hands over to scan mode, which reaches what follows its data. */
  lemma {:induction false} WalkScanElement(e: Element, rest: seq<byte>)
    requires ValidElement(e) && e.ScanOf? && rest != []
    ensures Walk(RenderElement(e) + rest) ==
              match Scan(rest) case Found(r) => Some(r) case Resume(at) => Walk(at)
  {
    Assoc(Marker(e.fill, SOS), Body(e), rest);
    AtMarker(e.fill, SOS, Body(e) + rest);
    var after := RenderUnits(e.units) + rest;
    Assoc(ToBE16(|e.header| + 2) + e.header, RenderUnits(e.units), rest);
    SegmentSkips(SOS, e.header, after);
    ScanSkipsUnits(e.units, rest);
  }

  /** Scan mode stops at a marker that is neither stuffing nor a restart; EOI ends the walk there and any
      other element is passed over byte by byte. */
  lemma {:induction false} AfterScan(e: Element, rest: seq<byte>)
    requires ValidElement(e) && Resyncs(e) && rest != []
    ensures Scan(RenderElement(e) + rest).Resume?
    ensures Walk(Scan(RenderElement(e) + rest).at) == Walk(rest)
  {
    Assoc(Marker(e.fill, Code(e)), Body(e), rest);
    AtMarker(e.fill, Code(e), Body(e) + rest);
    WalkSkips(Body(e), rest);
    assert [Code(e)] + (Body(e) + rest) == [Code(e)] + Body(e) + rest;
  }

  /** The walk finds the EOI of a well-formed stream, whatever follows, provided that every element right
      after a scan can be passed over. */
  lemma {:induction false} WalkStream(es: seq<Element>, fill: nat, tail: seq<byte>)
    requires ValidStream(es) && Followable(es)
    ensures Walk(RenderStream(es) + (Marker(fill, EOI) + tail)) == Some(tail)
    decreases |es|
  {
    var end := Marker(fill, EOI) + tail;
    AtMarker(fill, EOI, tail);
    if es == [] {
      assert RenderStream(es) + end == end;
    } else {
      var rest := RenderStream(es[1..]) + end;
      Assoc(RenderElement(es[0]), RenderStream(es[1..]), end);
      if !es[0].ScanOf? {
        WalkElement(es[0], rest);
        WalkStream(es[1..], fill, tail);
      } else {
        WalkScanElement(es[0], rest);
        if |es| == 1 {
          assert rest == end;
        } else {
          var next := RenderStream(es[2..]) + end;
          assert es[1..][1..] == es[2..] && es[1..][0] == es[1];
          Assoc(RenderElement(es[1]), RenderStream(es[2..]), end);
          AfterScan(es[1], next);
          WalkStream(es[2..], fill, tail);
        }
      }
    }
  }

  /** A well-formed stream is accepted exactly when nothing follows its EOI. */
  lemma {:induction false} AcceptedIffNothingFollows(es: seq<Element>, fill: nat, tail: seq<byte>)
    requires ValidStream(es) && Followable(es)
    ensures Accepts(File(es, fill, tail)) <==> tail == []
  {
    WalkStream(es, fill, tail);
    assert File(es, fill, tail)[2..] == RenderStream(es) + (Marker(fill, EOI) + tail);
  }

  /** Every single-scan stream qualifies, with no condition on its bytes. */
  lemma {:induction false} SingleScanAcceptedIffNothingFollows(es: seq<Element>, fill: nat, tail: seq<byte>)
    requires SingleScan(es)
    ensures Accepts(File(es, fill, tail)) <==> tail == []
  {
    AcceptedIffNothingFollows(es, fill, tail);
  }

  lemma {:induction false} WalkHeaders(pre: seq<Element>, es: seq<Element>, end: seq<byte>)
    requires ValidStream(pre) && ValidStream(es) && forall i :: 0 <= i < |pre| ==> !pre[i].ScanOf?
    ensures ValidStream(pre + es)
    ensures Walk(RenderStream(pre + es) + end) == Walk(RenderStream(es) + end)
    decreases |pre|
  {
    if pre == [] {
      assert pre + es == es;
    } else {
      var all := pre + es;
      assert all[0] == pre[0] && all[1..] == pre[1..] + es;
      WalkHeaders(pre[1..], es, end);
      Assoc(RenderElement(pre[0]), RenderStream(all[1..]), end);
      WalkElement(pre[0], RenderStream(all[1..]) + end);
    }
  }

  // ---------------------------------------------------------------- several scans

  /** What survives for any stream: if the complete file is accepted, nothing longer is; and if the walk ends
      early in it, no tail helps. A tail can only be accepted where the walk finds no end in the complete file. */
  lemma {:induction false} CompleteFileDecides(es: seq<Element>, fill: nat, tail: seq<byte>)
    requires ValidStream(es)
    ensures var end := Walk(File(es, fill, [])[2..]);
            end.Some? ==> (Accepts(File(es, fill, tail)) <==> end.value == [] && tail == [])
  {
    var whole := File(es, fill, []);
    assert File(es, fill, tail)[2..] == whole[2..] + tail;
    if Walk(whole[2..]).Some? {
      WalkExtends(whole[2..], tail);
    }
  }

  /** So "accepted exactly when nothing follows the EOI" holds of a stream, for all tails, if and only if its
      complete file is accepted. */
  lemma {:induction false} ExactIffCompleteFileAccepted(es: seq<Element>, fill: nat)
    requires ValidStream(es)
    ensures (forall tail :: Accepts(File(es, fill, tail)) <==> tail == []) <==> Accepts(File(es, fill, []))
  {
    if Accepts(File(es, fill, [])) {
      forall tail
        ensures Accepts(File(es, fill, tail)) <==> tail == []
      {
        CompleteFileDecides(es, fill, tail);
      }
    }
  }

  /** Header elements, a scan, an element that is no restart marker, and more. */
  ghost predicate FollowedScan(pre: seq<Element>, scan: Element, next: Element, es: seq<Element>) {
    && ValidStream(pre) && (forall i :: 0 <= i < |pre| ==> !pre[i].ScanOf?)
    && ValidElement(scan) && scan.ScanOf? && ValidElement(next) && !IsRestart(Code(next)) && ValidStream(es)
  }

  ghost function Followed(pre: seq<Element>, scan: Element, next: Element, es: seq<Element>): (all: seq<Element>)
    requires FollowedScan(pre, scan, next, es)
    ensures ValidStream(all)
  {
    pre + ([scan, next] + es)
  }

  /** After a scan the walk resumes on the marker code of the next element, so its length is not used: the walk
      goes on at the first FF of its body, as if a marker began there. */
  lemma {:induction false} ResumesInsideBody(
    pre: seq<Element>, scan: Element, next: Element, es: seq<Element>, fill: nat, tail: seq<byte>,
    x: seq<byte>, z: seq<byte>)
    requires FollowedScan(pre, scan, next, es) && NoFF(x) && Body(next) == x + z
    ensures Walk(File(Followed(pre, scan, next, es), fill, tail)[2..])
         == Walk(z + (RenderStream(es) + (Marker(fill, EOI) + tail)))
  {
    var end, all := Marker(fill, EOI) + tail, [scan, next] + es;
    var rest := RenderStream(es) + end;
    WalkHeaders(pre, all, end);
    RenderTwo(scan, next, es, end);
    WalkScanElement(scan, RenderElement(next) + rest);
    ResumesOnCode(next, rest, x, z);
    assert File(pre + all, fill, tail)[2..] == RenderStream(pre + all) + end;
  }

  lemma {:induction false} SplitBody(code: byte, body: seq<byte>, rest: seq<byte>, x: seq<byte>, z: seq<byte>)
    requires body == x + z
    ensures [code] + (body + rest) == ([code] + x) + (z + rest)
  {
  }

  lemma {:induction false} ResumesOnCode(next: Element, rest: seq<byte>, x: seq<byte>, z: seq<byte>)
    requires ValidElement(next) && !IsRestart(Code(next)) && rest != [] && NoFF(x) && Body(next) == x + z
    ensures var e := Scan(RenderElement(next) + rest);
            e.Resume? && Walk(e.at) == Walk(z + rest)
  {
    var code := Code(next);
    assert code != 0 && code != FF && code != EOI;
    Assoc(Marker(next.fill, code), Body(next), rest);
    AtMarker(next.fill, code, Body(next) + rest);
    SplitBody(code, Body(next), rest, x, z);
    WalkSkips([code] + x, z + rest);
  }

  /** If FF D9 is what stands there, the stream is rejected whatever its real end. */
  lemma {:induction false} RejectedOnceASegmentFollows(
    pre: seq<Element>, scan: Element, next: Element, es: seq<Element>, fill: nat, tail: seq<byte>,
    x: seq<byte>, f: nat, y: seq<byte>)
    requires FollowedScan(pre, scan, next, es) && NoFF(x) && Body(next) == x + (Marker(f, EOI) + y)
    ensures !Accepts(File(Followed(pre, scan, next, es), fill, tail))
  {
    var rest := RenderStream(es) + (Marker(fill, EOI) + tail);
    ResumesInsideBody(pre, scan, next, es, fill, tail, x, Marker(f, EOI) + y);
    Assoc(Marker(f, EOI), y, rest);
    AtMarker(f, EOI, y + rest);
  }

  /** Markers after which the walk reads a length. */
  predicate HasLength(m: byte) { m != FF && m != EOI && m != SOS && !IsBare(m) }

  /** Where the length at the front of `whole` leads, counted from there: nowhere if it is too small or too
      large, to what is left of `whole` with the tail after it, or past `whole` into the tail. */
  ghost function LedTo(whole: seq<byte>, tail: seq<byte>): Option<seq<byte>>
    requires |whole| >= 2
  {
    var length := BE16(whole[..2]);
    if length < 2 || length > |whole| + |tail| then None
    else if length <= |whole| then Some(whole[length..] + tail)
    else Some(tail[length - |whole|..])
  }

  /** If a marker with a length stands there, the two bytes after it are taken for its length, and the walk goes
      on where that length leads. A length that is too small ends the walk: no tail is accepted. One that leads
      to a place in the complete file decides by what stands there. One that leads past the real EOI makes the
      walk skip it: the tail is then read on its own from that point. */
  lemma {:induction false} JumpsByFalseLength(
    pre: seq<Element>, scan: Element, next: Element, es: seq<Element>, fill: nat, tail: seq<byte>,
    x: seq<byte>, f: nat, m: byte, y: seq<byte>)
    requires FollowedScan(pre, scan, next, es) && NoFF(x) && HasLength(m) && Body(next) == x + (Marker(f, m) + y)
    ensures var whole := y + (RenderStream(es) + Marker(fill, EOI));
            |whole| >= 2
            && (Accepts(File(Followed(pre, scan, next, es), fill, tail)) <==>
                  LedTo(whole, tail).Some? && Walk(LedTo(whole, tail).value) == Some([]))
  {
    var end := Marker(fill, EOI);
    var whole := y + (RenderStream(es) + end);
    var rest := RenderStream(es) + (end + tail);
    ResumesInsideBody(pre, scan, next, es, fill, tail, x, Marker(f, m) + y);
    Regroup(Marker(f, m), y, RenderStream(es), end, tail);
    WalkByLength(f, m, whole, tail);
  }

  lemma {:induction false} Regroup(a: seq<byte>, b: seq<byte>, c: seq<byte>, d: seq<byte>, e: seq<byte>)
    ensures (a + b) + (c + (d + e)) == a + ((b + (c + d)) + e)
  {
  }

  lemma {:induction false} WalkByLength(f: nat, m: byte, whole: seq<byte>, tail: seq<byte>)
    requires |whole| >= 2 && HasLength(m)
    ensures Walk(Marker(f, m) + (whole + tail)) ==
              match LedTo(whole, tail) case None => None case Some(t) => Walk(t)
  {
    AtMarker(f, m, whole + tail);
    LengthLeads(m, whole, tail);
  }

  lemma {:induction false} LengthLeads(m: byte, whole: seq<byte>, tail: seq<byte>)
    requires |whole| >= 2
    ensures AfterSegment([m] + (whole + tail)) == LedTo(whole, tail)
  {
    var s, both := [m] + (whole + tail), whole + tail;
    assert s[1..3] == whole[..2];
    var length := BE16(whole[..2]);
    if 2 <= length <= |both| {
      assert s[1 + length..] == both[length..];
      if length <= |whole| {
        assert both[length..] == whole[length..] + tail;
      } else {
        assert both[length..] == tail[length - |whole|..];
      }
    }
  }

  /** A scan header that seems to begin there leads on by its length too, and from there in scan mode. */
  lemma {:induction false} ScansByFalseHeader(
    pre: seq<Element>, scan: Element, next: Element, es: seq<Element>, fill: nat, tail: seq<byte>,
    x: seq<byte>, f: nat, y: seq<byte>)
    requires FollowedScan(pre, scan, next, es) && NoFF(x) && Body(next) == x + (Marker(f, SOS) + y)
    ensures var whole := y + (RenderStream(es) + Marker(fill, EOI));
            |whole| >= 2
            && Walk(File(Followed(pre, scan, next, es), fill, tail)[2..]) ==
                 match LedTo(whole, tail)
                 case None => None
                 case Some(t) => (match Scan(t) case Found(rest) => Some(rest) case Resume(at) => Walk(at))
  {
    var whole := y + (RenderStream(es) + Marker(fill, EOI));
    ResumesInsideBody(pre, scan, next, es, fill, tail, x, Marker(f, SOS) + y);
    Regroup(Marker(f, SOS), y, RenderStream(es), Marker(fill, EOI), tail);
    AtMarker(f, SOS, whole + tail);
    LengthLeads(SOS, whole, tail);
  }

  /** A bare marker that seems to begin there is passed, and the rest of the body is searched on. */
  lemma {:induction false} PassesFalseBareMarker(
    pre: seq<Element>, scan: Element, next: Element, es: seq<Element>, fill: nat, tail: seq<byte>,
    x: seq<byte>, f: nat, m: byte, y: seq<byte>)
    requires FollowedScan(pre, scan, next, es) && NoFF(x) && IsBare(m) && Body(next) == x + (Marker(f, m) + y)
    ensures Walk(File(Followed(pre, scan, next, es), fill, tail)[2..])
         == Walk(y + (RenderStream(es) + (Marker(fill, EOI) + tail)))
  {
    var rest := RenderStream(es) + (Marker(fill, EOI) + tail);
    ResumesInsideBody(pre, scan, next, es, fill, tail, x, Marker(f, m) + y);
    Assoc(Marker(f, m), y, rest);
    AtMarker(f, m, y + rest);
  }

  /** With no marker in the body, the walk is back in step at the element after it. A run of 0xFF at the end of the
      body counts as fill of the next marker. */
  lemma {:induction false} BackInStep(
    pre: seq<Element>, scan: Element, next: Element, es: seq<Element>, fill: nat, tail: seq<byte>,
    x: seq<byte>, n: nat)
    requires FollowedScan(pre, scan, next, es) && NoFF(x) && Body(next) == x + Repeat(FF, n)
    ensures Walk(File(Followed(pre, scan, next, es), fill, tail)[2..])
         == Walk(RenderStream(es) + (Marker(fill, EOI) + tail))
  {
    var rest := RenderStream(es) + (Marker(fill, EOI) + tail);
    ResumesInsideBody(pre, scan, next, es, fill, tail, x, Repeat(FF, n));
    WalkFill(n, rest);
  }

  lemma {:induction false} WalkFill(n: nat, rest: seq<byte>)
    requires |rest| >= 2 && rest[0] == FF
    ensures Walk(Repeat(FF, n) + rest) == Walk(rest)
  {
    DropFill(n, rest);
    if n == 0 {
      assert Repeat(FF, n) + rest == rest;
    }
  }

  lemma {:induction false} DropFill(n: nat, rest: seq<byte>)
    ensures DropFF(Repeat(FF, n) + rest) == DropFF(rest)
  {
    if n == 0 {
      assert Repeat(FF, n) + rest == rest;
    } else {
      DropFill(n - 1, rest);
      assert (Repeat(FF, n) + rest)[1..] == Repeat(FF, n - 1) + rest;
    }
  }

  /** The four cases are all: after its bytes other than 0xFF, a body ends in a run of 0xFF or shows a marker code. */
  lemma {:induction false} BodyHasOneOfTheShapes(s: seq<byte>)
    returns (x: seq<byte>, n: nat, shows: bool, m: byte, y: seq<byte>)
    ensures NoFF(x) && (shows ==> m != FF && s == x + (Marker(n, m) + y)) && (!shows ==> s == x + Repeat(FF, n))
    ensures shows ==> m == EOI || m == SOS || IsBare(m) || HasLength(m)
    decreases |s|
  {
    if s == [] {
      x, n, shows, m, y := [], 0, false, 0, [];
      assert Repeat(FF, 0) == [];
    } else {
      x, n, shows, m, y := BodyHasOneOfTheShapes(s[1..]);
      if s[0] != FF {
        x := [s[0]] + x;
      } else if x == [] {
        n := n + 1;
      } else {
        assert s == [] + (Marker(0, x[0]) + s[2..]) by {
          assert Repeat(FF, 1) == [FF];
          assert s[1] == x[0];
        }
        x, n, shows, m, y := [], 0, true, x[0], s[2..];
      }
    }
  }

  /** When a false length leads past the real EOI, every tail that supplies the missing bytes and then FF D9 is
      accepted, although bytes follow the real EOI. */
  lemma {:induction false} TailAcceptedAfterJump(
    pre: seq<Element>, scan: Element, next: Element, es: seq<Element>, fill: nat, gap: seq<byte>,
    x: seq<byte>, f: nat, m: byte, y: seq<byte>)
    requires FollowedScan(pre, scan, next, es) && NoFF(x) && HasLength(m) && Body(next) == x + (Marker(f, m) + y)
    requires var whole := y + (RenderStream(es) + Marker(fill, EOI));
             gap != [] && BE16(whole[..2]) == |whole| + |gap|
    ensures Accepts(File(Followed(pre, scan, next, es), fill, gap + [FF, EOI]))
  {
    var tail := gap + [FF, EOI];
    JumpsByFalseLength(pre, scan, next, es, fill, tail, x, f, m, y);
    assert LedTo(y + (RenderStream(es) + Marker(fill, EOI)), tail) == Some([FF, EOI]);
    AtMarker(0, EOI, []);
    assert Marker(0, EOI) + [] == [FF, EOI];
  }

  lemma {:induction false} RenderTwo(a: Element, b: Element, es: seq<Element>, end: seq<byte>)
    requires ValidElement(a) && ValidElement(b) && ValidStream([a, b] + es)
    ensures ValidStream(es)
    ensures RenderStream([a, b] + es) + end
         == RenderElement(a) + (RenderElement(b) + (RenderStream(es) + end))
  {
    var all := [a, b] + es;
    assert forall i :: 0 <= i < |es| ==> es[i] == all[i + 2];
    assert all[1..][1..] == es;
    Assoc(RenderElement(a), RenderStream(all[1..]), end);
    Assoc(RenderElement(b), RenderStream(es), end);
  }

  /** So for files of several scans neither half of the promise holds in general: a complete file may be
      rejected, and bytes after the real EOI may be accepted. */
  lemma {:induction false} TwoScansMayBeRejected() returns (es: seq<Element>)
    ensures ValidStream(es) && |es| == 3 && es[0].ScanOf? && es[1].Segment? && es[2].ScanOf?
    ensures !Accepts(File(es, 0, []))
  {
    var scan, table := ScanOf(0, [], [Data(0x11)]), Segment(0, 0xC4, [FF, EOI]);
    es := Followed([], scan, table, [scan]);
    assert Marker(0, EOI) == [FF, EOI];
    assert Body(table) == [0x00, 0x04] + (Marker(0, EOI) + []);
    RejectedOnceASegmentFollows([], scan, table, [scan], 0, [], [0x00, 0x04], 0, []);
  }

  lemma {:induction false} TrailingBytesMayBeAccepted() returns (es: seq<Element>, tail: seq<byte>)
    ensures ValidStream(es) && |es| == 2 && es[0].ScanOf? && es[1].Segment?
    ensures tail != [] && Accepts(File(es, 0, tail))
  {
    var scan, table := ScanOf(0, [], [Data(0x11)]), Segment(0, 0xC4, [FF, 0xE0, 0x00, 0x05]);
    es, tail := Followed([], scan, table, []), [0x41] + [FF, EOI];
    assert Marker(0, 0xE0) == [FF, 0xE0] && Marker(0, EOI) == [FF, EOI];
    assert Body(table) == [0x00, 0x06] + (Marker(0, 0xE0) + [0x00, 0x05]);
    var whole := [0x00, 0x05] + (RenderStream([]) + Marker(0, EOI));
    assert whole[..2] == [0x00, 0x05];
    TailAcceptedAfterJump([], scan, table, [], 0, [0x41], [0x00, 0x06], 0, 0xE0, [0x00, 0x05]);
  }
}
