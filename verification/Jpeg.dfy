/** The JPEG part of `_reject_trailing_bytes`: a walk with a header mode and a scan mode (sections B.1.1.2
    to B.1.1.5 of ITU-T T.81), the marker streams it is meant for, and where it leaves them. */
module Jpeg {
  import opened Common
  import opened Bytes

  const FF: byte := 0xFF
  const EOI: byte := 0xD9
  const SOS: byte := 0xDA

  predicate IsRestart(code: byte) { 0xD0 <= code <= 0xD7 }

  /** Markers that the walk passes without reading a length. */
  predicate IsBare(code: byte) { code == 0xD8 || code == 0x01 || IsRestart(code) }

  // ---------------------------------------------------------------- the walk on the bytes still ahead

  /** What is left after the run of 0xFF bytes at the front. */
  ghost function DropFF(s: seq<byte>): (r: seq<byte>)
    ensures |r| <= |s|
    ensures r != [] ==> r[0] != FF
    ensures s != [] && s[0] == FF ==> |r| < |s|
  {
    if s == [] || s[0] != FF then s else DropFF(s[1..])
  }

  /** The end of a scan: its EOI with the bytes after it, or the point where header mode goes on. */
  datatype ScanEnd = Found(rest: seq<byte>) | Resume(at: seq<byte>)

  ghost function Scan(s: seq<byte>): (e: ScanEnd)
    ensures e.Resume? ==> |e.at| <= |s|
    decreases |s|
  {
    if |s| < 2 then Resume(s)
    else if s[0] != FF then Scan(s[1..])
    else
      var m := DropFF(s);
      if m == [] then Resume(s)
      else if m[0] == 0 || IsRestart(m[0]) then Scan(m[1..])
      else if m[0] == EOI then Found(m[1..])
      else Resume(m)
  }

  /** The bytes after the length-prefixed segment whose marker code is `m[0]`, if it fits. */
  ghost function AfterSegment(m: seq<byte>): (r: Option<seq<byte>>)
    requires m != []
    ensures r.Some? ==> |r.value| + 3 <= |m|
  {
    if |m| < 3 then None
    else
      var length := BE16(m[1..3]);
      if length < 2 || 1 + length > |m| then None else Some(m[1 + length..])
  }

  /** The bytes after the first genuine EOI, if the walk finds one. */
  ghost function Walk(s: seq<byte>): Option<seq<byte>>
    decreases |s|
  {
    if |s| < 2 then None
    else if s[0] != FF then Walk(s[1..])
    else
      var m := DropFF(s);
      if m == [] then None
      else if m[0] == EOI then Some(m[1..])
      else if IsBare(m[0]) then Walk(m[1..])
      else
        match AfterSegment(m)
        case None => None
        case Some(t) =>
          if m[0] != SOS then Walk(t)
          else
            match Scan(t)
            case Found(rest) => Some(rest)
            case Resume(at) => Walk(at)
  }

  // ---------------------------------------------------------------- the code

  /** The first genuine EOI ends the payload: the walk terminates on every payload, reads inside it, and
      reports the position just after the EOI that `Walk` finds. */
  method GenuineEoi(payload: seq<byte>) returns (eoi: Option<nat>)
    requires 2 <= |payload|
    ensures eoi.Some? <==> Walk(payload[2..]).Some?
    ensures eoi.Some? ==> eoi.value <= |payload| && payload[eoi.value..] == Walk(payload[2..]).value
  {
    var position := 2;
    eoi := None;
    while position + 1 < |payload|
      invariant 2 <= position <= |payload|
      invariant eoi == None
      invariant Walk(payload[position..]) == Walk(payload[2..])
      decreases |payload| - position
    {
      if payload[position] != FF {
        Tail(payload, position);
        position := position + 1;
        continue;
      }
      position := SkipFF(payload, position);
      if position >= |payload| {
        return None;
      }
      var marker := payload[position];
      Tail(payload, position);
      if marker == EOI {
        return Some(position + 1);
      }
      if IsBare(marker) {
        position := position + 1;
        continue;
      }
      var end := SegmentEnd(payload, position);
      if end == None {
        return None;
      }
      position := end.value;
      if marker == SOS {
        position, eoi := WalkScan(payload, position);
        if eoi != None {
          return;
        }
      }
    }
  }

  /** The position after the length-prefixed segment whose marker code is at `position`; shared by the
      start-of-scan header and by every other segment. */
  method SegmentEnd(payload: seq<byte>, position: nat) returns (end: Option<nat>)
    requires position < |payload|
    ensures end.None? <==> AfterSegment(payload[position..]).None?
    ensures end.Some? ==> position < end.value <= |payload|
                          && AfterSegment(payload[position..]) == Some(payload[end.value..])
  {
    if position + 2 >= |payload| {
      return None;
    }
    var segmentLength := BE16(payload[position + 1..position + 3]);
    assert payload[position..][1..3] == payload[position + 1..position + 3];
    if segmentLength < 2 || position + 1 + segmentLength > |payload| {
      return None;
    }
    assert payload[position..][1 + segmentLength..] == payload[position + 1 + segmentLength..];
    return Some(position + 1 + segmentLength);
  }

  lemma {:induction false} Tail(p: seq<byte>, i: nat)
    requires i < |p|
    ensures p[i..][1..] == p[i + 1..]
  {
  }

  /** The run of 0xFF bytes that both modes skip before a marker code. */
  method SkipFF(payload: seq<byte>, start: nat) returns (position: nat)
    requires start <= |payload|
    ensures start <= position <= |payload|
    ensures payload[position..] == DropFF(payload[start..])
    ensures start < |payload| && payload[start] == FF ==> start < position
  {
    position := start;
    while position < |payload| && payload[position] == FF
      invariant start <= position <= |payload|
      invariant DropFF(payload[position..]) == DropFF(payload[start..])
    {
      Tail(payload, position);
      position := position + 1;
    }
  }

  /** What scan mode makes of the marker whose code is at `code`. */
  lemma {:induction false} ScanAtMarker(p: seq<byte>, i: nat, code: nat)
    requires i + 1 < |p| && p[i] == FF && i < code <= |p| && p[code..] == DropFF(p[i + 1..])
    ensures Scan(p[i..]) ==
              if code == |p| then Resume(p[i..])
              else if p[code] == 0 || IsRestart(p[code]) then Scan(p[code + 1..])
              else if p[code] == EOI then Found(p[code + 1..])
              else Resume(p[code..])
  {
    Tail(p, i);
    if code < |p| {
      Tail(p, code);
    }
  }

  /** Scan mode: either an EOI is found, or header mode resumes at `position`. */
  method WalkScan(payload: seq<byte>, start: nat) returns (position: nat, eoi: Option<nat>)
    requires start <= |payload|
    ensures start <= position <= |payload|
    ensures eoi.None? ==> Scan(payload[start..]) == Resume(payload[position..])
    ensures eoi.Some? ==> eoi.value <= |payload| && Scan(payload[start..]) == Found(payload[eoi.value..])
  {
    position := start;
    eoi := None;
    while position + 1 < |payload|
      invariant start <= position <= |payload|
      invariant eoi == None
      invariant Scan(payload[position..]) == Scan(payload[start..])
      decreases |payload| - position
    {
      if payload[position] != FF {
        Tail(payload, position);
        position := position + 1;
        continue;
      }
      var codePosition := SkipFF(payload, position + 1);
      ScanAtMarker(payload, position, codePosition);
      if codePosition >= |payload| {
        break;
      }
      var code := payload[codePosition];
      if code == 0 || IsRestart(code) {
        position := codePosition + 1;
        continue;
      }
      if code == EOI {
        eoi := Some(codePosition + 1);
      } else {
        position := codePosition;
      }
      break;
    }
  }

  /** The JPEG verdict: accepted exactly when the first genuine EOI ends the payload. */
  method Check(payload: seq<byte>) returns (ok: bool)
    requires 2 <= |payload|
    ensures ok == Accepts(payload)
  {
    var eoi := GenuineEoi(payload);
    ok := eoi == Some(|payload|);
  }

  ghost predicate Accepts(payload: seq<byte>)
    requires 2 <= |payload|
  {
    Walk(payload[2..]) == Some([])
  }
}
