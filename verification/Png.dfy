/** The PNG half of `_reject_trailing_bytes`: a walk over length-prefixed chunks up to the first IEND
    (sections 3.2 and 4.1.4 of RFC 2083), and the chunk lists that the walk recognises. */
module Png {
  import opened Common
  import opened Bytes

  const SIGNATURE: seq<byte> := [0x89, 0x50, 0x4E, 0x47, 0x0D, 0x0A, 0x1A, 0x0A]
  const IEND: seq<byte> := [0x49, 0x45, 0x4E, 0x44]

  datatype Chunk = Chunk(kind: seq<byte>, data: seq<byte>, crc: seq<byte>)

  ghost predicate ValidChunk(c: Chunk) {
    |c.kind| == 4 && |c.crc| == 4 && |c.data| < 0x1_0000_0000
  }

  ghost function Render(c: Chunk): seq<byte>
    requires ValidChunk(c)
  {
    ToBE32(|c.data|) + c.kind + c.data + c.crc
  }

  ghost predicate ValidChunks(cs: seq<Chunk>) {
    forall i :: 0 <= i < |cs| ==> ValidChunk(cs[i])
  }

  ghost function RenderAll(cs: seq<Chunk>): seq<byte>
    requires ValidChunks(cs)
  {
    if cs == [] then [] else Render(cs[0]) + RenderAll(cs[1..])
  }

  /** A complete chunk list: its only IEND is its last chunk. */
  ghost predicate Complete(cs: seq<Chunk>) {
    && cs != []
    && ValidChunks(cs)
    && cs[|cs| - 1].kind == IEND
    && forall i :: 0 <= i < |cs| - 1 ==> cs[i].kind != IEND
  }

  /** `payload` is the signature followed by the rendering of `cs`, and nothing else. */
  ghost predicate IsFile(payload: seq<byte>, cs: seq<Chunk>) {
    Complete(cs) && payload == SIGNATURE + RenderAll(cs)
  }

  // ---------------------------------------------------------------- the walk on the bytes still ahead

  /** How the walk ends: at the first IEND with `rest` after it, on a chunk that runs over the end, or
      with fewer than twelve bytes left and no IEND seen. */
  datatype Walked = Ended(rest: seq<byte>) | Overrun | NoEnd

  ghost function Walk(s: seq<byte>): Walked
    decreases |s|
  {
    if |s| < 12 then NoEnd
    else
      var end := 12 + BE32(s[..4]);
      if end > |s| then Overrun
      else if s[4..8] == IEND then Ended(s[end..])
      else Walk(s[end..])
  }

  /** The chunk at the front of `s`. */
  ghost function Front(s: seq<byte>): (c: Chunk)
    requires 12 <= |s| && 12 + BE32(s[..4]) <= |s|
    ensures ValidChunk(c)
    ensures s == Render(c) + s[12 + BE32(s[..4])..]
  {
    var n := BE32(s[..4]);
    BE32Injective(ToBE32(n), s[..4]);
    Chunk(s[4..8], s[8..8 + n], s[8 + n..12 + n])
  }

  lemma {:induction false} FrontOfRender(c: Chunk, rest: seq<byte>)
    requires ValidChunk(c)
    ensures var s := Render(c) + rest;
            && |s| >= 12 && 12 + BE32(s[..4]) <= |s| && s[4..8] == c.kind
            && Front(s) == c && s[12 + BE32(s[..4])..] == rest
  {
    var s := Render(c) + rest;
    assert s[..4] == ToBE32(|c.data|);
    var n := |c.data|;
    assert s[8..8 + n] == c.data && s[8 + n..12 + n] == c.crc;
  }

  /** The chunk list the walk went through up to and including the first IEND. */
  ghost function Parse(s: seq<byte>): seq<Chunk>
    requires Walk(s).Ended?
    decreases |s|
  {
    if s[4..8] == IEND then [Front(s)]
    else [Front(s)] + Parse(s[12 + BE32(s[..4])..])
  }

  lemma {:induction false} RenderCons(c: Chunk, cs: seq<Chunk>)
    requires ValidChunk(c) && ValidChunks(cs)
    ensures ValidChunks([c] + cs)
    ensures RenderAll([c] + cs) == Render(c) + RenderAll(cs)
  {
    assert ([c] + cs)[1..] == cs;
  }

  lemma {:induction false} CompleteCons(c: Chunk, cs: seq<Chunk>)
    requires ValidChunk(c) && c.kind != IEND && Complete(cs)
    ensures Complete([c] + cs)
  {
    var all := [c] + cs;
    assert forall i :: 0 < i < |all| ==> all[i] == cs[i - 1];
  }

  /** Parsing then printing gives back the bytes up to the end of the IEND chunk. */
  lemma {:induction false} RenderParse(s: seq<byte>)
    requires Walk(s).Ended?
    ensures Complete(Parse(s))
    ensures s == RenderAll(Parse(s)) + Walk(s).rest
    decreases |s|
  {
    var c, rest := Front(s), s[12 + BE32(s[..4])..];
    if s[4..8] == IEND {
      RenderCons(c, []);
      assert [c] + [] == [c] && Render(c) + RenderAll([]) == Render(c);
    } else {
      RenderParse(rest);
      var cs, end := Parse(rest), Walk(rest).rest;
      RenderCons(c, cs);
      CompleteCons(c, cs);
      calc {
        s;
        Render(c) + rest;
        Render(c) + (RenderAll(cs) + end);
        { Assoc(Render(c), RenderAll(cs), end); }
        RenderAll([c] + cs) + end;
      }
    }
  }

  /** Printing then parsing gives back the list, whatever bytes follow it. */
  lemma {:induction false} ParseRender(cs: seq<Chunk>, rest: seq<byte>)
    requires Complete(cs)
    ensures Walk(RenderAll(cs) + rest) == Ended(rest)
    ensures Parse(RenderAll(cs) + rest) == cs
    decreases |cs|
  {
    var c, tail := cs[0], cs[1..];
    assert cs == [c] + tail;
    var after := RenderAll(tail) + rest;
    Assoc(Render(c), RenderAll(tail), rest);
    FrontOfRender(c, after);
    if |cs| == 1 {
      assert after == rest;
    } else {
      ParseRender(tail, rest);
    }
  }

  /** Bytes after an accepted end do not change where the walk ends. */
  lemma {:induction false} WalkExtends(s: seq<byte>, t: seq<byte>)
    requires Walk(s).Ended?
    ensures Walk(s + t) == Ended(Walk(s).rest + t)
  {
    RenderParse(s);
    var cs, rest := Parse(s), Walk(s).rest;
    Assoc(RenderAll(cs), rest, t);
    ParseRender(cs, rest + t);
  }

  /** `s` is some chunks, none of them IEND, and then a chunk whose length runs past the end. */
  ghost predicate Overruns(s: seq<byte>) {
    exists cs, rest ::
      NoIend(cs) && s == RenderAll(cs) + rest && 12 <= |rest| && |rest| < 12 + BE32(rest[..4])
  }

  ghost predicate NoIend(cs: seq<Chunk>) {
    ValidChunks(cs) && forall i :: 0 <= i < |cs| ==> cs[i].kind != IEND
  }

  lemma {:induction false} WalkThrough(cs: seq<Chunk>, rest: seq<byte>)
    requires NoIend(cs)
    ensures Walk(RenderAll(cs) + rest) == Walk(rest)
    decreases |cs|
  {
    if cs == [] {
      assert RenderAll(cs) + rest == rest;
    } else {
      var after := RenderAll(cs[1..]) + rest;
      Assoc(Render(cs[0]), RenderAll(cs[1..]), rest);
      FrontOfRender(cs[0], after);
      WalkThrough(cs[1..], rest);
    }
  }

  lemma {:induction false} OverrunFound(s: seq<byte>) returns (cs: seq<Chunk>, rest: seq<byte>)
    requires Walk(s) == Overrun
    ensures NoIend(cs) && s == RenderAll(cs) + rest
    ensures 12 <= |rest| && |rest| < 12 + BE32(rest[..4])
    decreases |s|
  {
    if 12 + BE32(s[..4]) > |s| {
      cs, rest := [], s;
    } else {
      var c, tail := Front(s), s[12 + BE32(s[..4])..];
      cs, rest := OverrunFound(tail);
      RenderCons(c, cs);
      Assoc(Render(c), RenderAll(cs), rest);
      cs := [c] + cs;
    }
  }

  lemma {:induction false} OverrunExactly(s: seq<byte>)
    ensures Walk(s) == Overrun <==> Overruns(s)
  {
    if Walk(s) == Overrun {
      var cs, rest := OverrunFound(s);
    }
    if Overruns(s) {
      var cs, rest :|
        NoIend(cs) && s == RenderAll(cs) + rest && 12 <= |rest| && |rest| < 12 + BE32(rest[..4]);
      WalkThrough(cs, rest);
    }
  }

  // ---------------------------------------------------------------- the code

  datatype Verdict = Accepted | DecodeFailed | TrailingBytes

  /** A payload is accepted exactly when it is a file, is reported as undecodable exactly when the walk
      meets a chunk that overruns the payload, and has trailing bytes otherwise. */
  method Check(payload: seq<byte>) returns (v: Verdict)
    requires SIGNATURE <= payload
    ensures v == Accepted <==> exists cs :: IsFile(payload, cs)
    ensures v == DecodeFailed <==> Overruns(payload[8..])
  {
    OverrunExactly(payload[8..]);
    var position := 8;
    var iendEnd: Option<nat> := None;
    while position + 12 <= |payload|
      invariant 8 <= position <= |payload|
      invariant iendEnd == None
      invariant Walk(payload[position..]) == Walk(payload[8..])
      decreases |payload| - position
    {
      ghost var ahead := payload[position..];
      var length := BE32(payload[position..position + 4]);
      assert ahead[..4] == payload[position..position + 4];
      var end := position + 12 + length;
      if end > |payload| {
        NotAFile(payload);
        return DecodeFailed;
      }
      var chunk := payload[position + 4..position + 8];
      assert ahead[4..8] == chunk && ahead[12 + length..] == payload[end..];
      position := end;
      if chunk == IEND {
        iendEnd := Some(end);
        break;
      }
    }
    if iendEnd == None || iendEnd.value != |payload| {
      NotAFile(payload);
      return TrailingBytes;
    }
    Recognised(payload);
    return Accepted;
  }

  lemma {:induction false} Recognised(payload: seq<byte>)
    requires SIGNATURE <= payload && Walk(payload[8..]) == Ended([])
    ensures IsFile(payload, Parse(payload[8..]))
  {
    var cs := Parse(payload[8..]);
    RenderParse(payload[8..]);
    assert payload == SIGNATURE + payload[8..];
    assert RenderAll(cs) + [] == RenderAll(cs);
  }

  lemma {:induction false} NotAFile(payload: seq<byte>)
    requires SIGNATURE <= payload && Walk(payload[8..]) != Ended([])
    ensures !exists cs :: IsFile(payload, cs)
  {
    forall cs | IsFile(payload, cs)
      ensures false
    {
      assert payload[8..] == RenderAll(cs) + [];
      ParseRender(cs, []);
    }
  }

  /** The chunk list of an accepted payload is unique. */
  lemma {:induction false} UniqueChunks(payload: seq<byte>, cs: seq<Chunk>, ds: seq<Chunk>)
    requires IsFile(payload, cs) && IsFile(payload, ds)
    ensures cs == ds
  {
    ParseRender(cs, []);
    ParseRender(ds, []);
    assert payload[8..] == RenderAll(cs) + [] == RenderAll(ds) + [];
  }
}
