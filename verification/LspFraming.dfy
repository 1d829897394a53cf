/**
 The streaming decoder of api-server/src/language-server/lsp-response-buffer.ts.

 `Decode` says what a whole byte stream means; `LspResponseBuffer` is the object that is fed the stream in
 chunks. `Explains` is the account of a stream both are measured against; that its frames include every message of
 the protocol is shown in `LspStandard`.
 */
module LspFraming {
  import opened Sequences
  import opened Unicode
  import Decimal

  const CRLF: seq<Byte> := [13, 10]
  const SEPARATOR: seq<Byte> := [13, 10, 13, 10]

  // "content-length:"
  const HEADER_NAME: seq<Byte> := [99, 111, 110, 116, 101, 110, 116, 45, 108, 101, 110, 103, 116, 104, 58]

  // ---- The header line: /^Content-Length:\s*(\d+)\s*$/i ----

  function Lower(b: Byte): Byte { if 65 <= b <= 90 then b + 32 else b }

  /** Length of the white-space character the bytes start with, 0 if they do not start with one. */
  function SpaceLength(b: seq<Byte>): (n: nat)
    ensures n <= |b| && n <= 3
  {
    if b == [] then 0
    else if 9 <= b[0] <= 13 || b[0] == 32 then 1
    else if |b| >= 2 && b[..2] == [0xC2, 0xA0] then 2
    else if |b| < 3 then 0
    else if b[..3] in {[0xEF, 0xBB, 0xBF], [0xE1, 0x9A, 0x80], [0xE2, 0x81, 0x9F], [0xE3, 0x80, 0x80]} then 3
    else if b[..2] == [0xE2, 0x80] && (0x80 <= b[2] <= 0x8A || b[2] in {0xA8, 0xA9, 0xAF}) then 3
    else 0
  }

  function SkipSpaces(b: seq<Byte>): (rest: seq<Byte>)
    ensures |rest| <= |b|
    decreases |b|
  {
    if SpaceLength(b) == 0 then b else SkipSpaces(b[SpaceLength(b)..])
  }

  function DigitRun(b: seq<Byte>): (n: nat)
    ensures n <= |b| && Decimal.AllDigits(b[..n])
    ensures n < |b| ==> !Decimal.IsDigit(b[n])
  {
    if b == [] || !Decimal.IsDigit(b[0]) then 0
    else
      var n := DigitRun(b[1..]);
      assert forall i :: 1 <= i <= n ==> b[i] == b[1..][..n][i - 1];
      1 + n
  }

  predicate NamesLength(line: seq<Byte>) {
    |line| >= |HEADER_NAME| && forall i :: 0 <= i < |HEADER_NAME| ==> Lower(line[i]) == HEADER_NAME[i]
  }

  function MatchLine(line: seq<Byte>): Option<nat> {
    if !NamesLength(line) then None
    else
      var value := SkipSpaces(line[|HEADER_NAME|..]);
      var n := DigitRun(value);
      if n > 0 && SkipSpaces(value[n..]) == [] then Some(Decimal.Parse(value[..n])) else None
  }

  function FirstLength(lines: seq<seq<Byte>>): Option<nat> {
    if lines == [] then None
    else if MatchLine(lines[0]).Some? then MatchLine(lines[0])
    else FirstLength(lines[1..])
  }

  function ContentLength(header: seq<Byte>): Option<nat> {
    FirstLength(Split(header, CRLF))
  }

  // ---- One frame at the head of a stream ----

  datatype Head = Incomplete | NoLength | Cut(size: nat)

  function NextFrame(b: seq<Byte>): (h: Head)
    ensures h.Cut? ==> 4 <= h.size <= |b|
  {
    var headerEnd := IndexOf(b, SEPARATOR);
    if headerEnd == -1 then Incomplete
    else
      match ContentLength(b[..headerEnd])
      case None => NoLength
      case Some(n) =>
        if |b| < headerEnd + 4 + n then Incomplete else Cut(headerEnd + 4 + n)
  }

  /** What the decoder takes for a frame: a header, the first blank line, and as many bytes as the header announces. */
  predicate IsFrame(f: seq<Byte>) {
    var headerEnd := IndexOf(f, SEPARATOR);
    headerEnd >= 0 && ContentLength(f[..headerEnd]) == Some(|f| - headerEnd - 4)
  }

  // ---- Whole streams ----

  datatype Decoded = Decoded(frames: seq<seq<Byte>>, rest: seq<Byte>, poisoned: bool)

  function Decode(b: seq<Byte>): Decoded
    decreases |b|
  {
    match NextFrame(b)
    case Incomplete => Decoded([], b, false)
    case NoLength => Decoded([], b, true)
    case Cut(n) =>
      var d := Decode(b[n..]);
      d.(frames := [b[..n]] + d.frames)
  }

  predicate AllFrames(frames: seq<seq<Byte>>) {
    forall i :: 0 <= i < |frames| ==> IsFrame(frames[i])
  }

  /** More input changes neither a frame already complete nor a header already rejected. */
  lemma NextFrameExtends(b: seq<Byte>, more: seq<Byte>)
    requires !NextFrame(b).Incomplete?
    ensures NextFrame(b + more) == NextFrame(b)
  {
    IndexOfExtends(b, more, SEPARATOR);
    var k := IndexOf(b, SEPARATOR);
    assert (b + more)[..k] == b[..k];
  }

  lemma CutFrameIsFrame(b: seq<Byte>)
    requires NextFrame(b).Cut?
    ensures IsFrame(b[..NextFrame(b).size])
  {
    var f := b[..NextFrame(b).size];
    var k: nat := IndexOf(b, SEPARATOR);
    SliceOfPrefix(b, |f|, k, k + 4);
    assert OccursAt(f, SEPARATOR, k);
    assert b == f + b[|f|..];
    IndexOfExtends(f, b[|f|..], SEPARATOR);
    SliceOfPrefix(b, |f|, 0, k);
  }

  lemma FrameIsCut(f: seq<Byte>, more: seq<Byte>)
    requires IsFrame(f)
    ensures NextFrame(f + more) == Cut(|f|)
  {
    assert NextFrame(f) == Cut(|f|);
    NextFrameExtends(f, more);
  }

  /** `d` accounts for every byte of `b`, in order, and stopped no earlier and no later than it had to. */
  predicate Explains(d: Decoded, b: seq<Byte>) {
    && b == Concat(d.frames) + d.rest
    && AllFrames(d.frames)
    && Stops(d.rest, d.poisoned)
  }

  /** No blank line; or one after a header that announces no length, and only that is an error; or too few bytes. */
  predicate Stops(rest: seq<Byte>, poisoned: bool) {
    var headerEnd := IndexOf(rest, SEPARATOR);
    if headerEnd == -1 then !poisoned
    else
      match ContentLength(rest[..headerEnd])
      case None => poisoned
      case Some(n) => !poisoned && |rest| < headerEnd + 4 + n
  }

  lemma StopsIff(rest: seq<Byte>)
    ensures forall poisoned ::
              Stops(rest, poisoned) <==> !NextFrame(rest).Cut? && (poisoned <==> NextFrame(rest).NoLength?)
  {
    hide ContentLength;
  }

  lemma ExplainsOneMore(f: seq<Byte>, d: Decoded, b: seq<Byte>)
    requires IsFrame(f) && Explains(d, b)
    ensures Explains(d.(frames := [f] + d.frames), f + b)
  {
    var frames := [f] + d.frames;
    calc {
      f + b;
      f + (Concat(d.frames) + d.rest);
      { Associative(f, Concat(d.frames), d.rest); }
      (f + Concat(d.frames)) + d.rest;
      { assert frames[0] == f && frames[1..] == d.frames; }
      Concat(frames) + d.rest;
    }
  }

  lemma NothingCut(b: seq<Byte>)
    requires !NextFrame(b).Cut?
    ensures Explains(Decoded([], b, NextFrame(b).NoLength?), b)
  {
    StopsIff(b);
    hide NextFrame, Stops;
    assert Concat<Byte>([]) + b == b;
  }

  lemma {:induction false} DecodeExplains(b: seq<Byte>)
    ensures Explains(Decode(b), b)
    decreases |b|
  {
    hide NextFrame, IsFrame, Explains;
    if NextFrame(b).Cut? {
      var n := NextFrame(b).size;
      DecodeExplains(b[n..]);
      CutFrameIsFrame(b);
      ExplainsOneMore(b[..n], Decode(b[n..]), b[n..]);
      assert b == b[..n] + b[n..];
    } else {
      NothingCut(b);
    }
  }

  lemma {:induction false} ExplanationIsUnique(d: Decoded, b: seq<Byte>)
    requires Explains(d, b)
    ensures Decode(b) == d
    decreases |d.frames|
  {
    hide NextFrame, IsFrame, Stops;
    if d.frames == [] {
      StopsIff(b);
      assert b == d.rest;
    } else {
      var f, tail := d.frames[0], Concat(d.frames[1..]) + d.rest;
      assert b == f + tail;
      FrameIsCut(f, tail);
      assert b[..|f|] == f && b[|f|..] == tail;
      ExplanationIsUnique(d.(frames := d.frames[1..]), tail);
      assert d.frames == [f] + d.frames[1..];
    }
  }

  /** The grammar is unambiguous and the decoder finds its one reading: nothing lost, reordered or invented. */
  lemma DecodeIsTheReading(b: seq<Byte>, d: Decoded)
    ensures Decode(b) == d <==> Explains(d, b)
  {
    DecodeExplains(b);
    if Explains(d, b) {
      ExplanationIsUnique(d, b);
    }
  }

  lemma ExplanationsJoin(d: Decoded, e: Decoded, a: seq<Byte>, b: seq<Byte>)
    requires Explains(d, a) && Explains(e, d.rest + b)
    ensures Explains(e.(frames := d.frames + e.frames), a + b)
  {
    calc {
      a + b;
      (Concat(d.frames) + d.rest) + b;
      { Associative(Concat(d.frames), d.rest, b); }
      Concat(d.frames) + (d.rest + b);
      Concat(d.frames) + (Concat(e.frames) + e.rest);
      { Associative(Concat(d.frames), Concat(e.frames), e.rest); }
      (Concat(d.frames) + Concat(e.frames)) + e.rest;
      { ConcatAppends(d.frames, e.frames); }
      Concat(d.frames + e.frames) + e.rest;
    }
  }

  /** Decoding may be interrupted anywhere and resumed from the residue. */
  lemma DecodeResumes(a: seq<Byte>, b: seq<Byte>)
    ensures var d := Decode(a);
            var e := Decode(d.rest + b);
            Decode(a + b) == e.(frames := d.frames + e.frames)
  {
    var d := Decode(a);
    var e := Decode(d.rest + b);
    DecodeExplains(a);
    DecodeExplains(d.rest + b);
    ExplanationsJoin(d, e, a, b);
    ExplanationIsUnique(e.(frames := d.frames + e.frames), a + b);
  }

  lemma FrameDecodesAlone(f: seq<Byte>)
    requires IsFrame(f)
    ensures Decode(f) == Decoded([f], [], false)
  {
    hide Decode, IsFrame, ContentLength;
    assert Concat([f]) + [] == f;
    ExplanationIsUnique(Decoded([f], [], false), f);
  }

  /** Every emitted frame decodes, alone, to itself. */
  lemma EmittedFramesAreSelfDelimiting(b: seq<Byte>, i: nat)
    requires i < |Decode(b).frames|
    ensures Decode(Decode(b).frames[i]) == Decoded([Decode(b).frames[i]], [], false)
  {
    DecodeExplains(b);
    FrameDecodesAlone(Decode(b).frames[i]);
  }

  lemma {:induction false} FramesTakeRoom(frames: seq<seq<Byte>>, k: nat)
    requires AllFrames(frames) && k < |frames|
    ensures |Concat(frames)| >= |frames[k]| + 4 * (|frames| - 1)
    decreases |frames|
  {
    hide IsFrame;
    var rest := frames[1..];
    assert forall i :: 0 <= i < |rest| ==> rest[i] == frames[i + 1];
    FrameTakesRoom(frames[0]);
    if k > 0 {
      FramesTakeRoom(rest, k - 1);
    } else if rest != [] {
      FramesTakeRoom(rest, 0);
      FrameTakesRoom(rest[0]);
    }
  }

  lemma FrameTakesRoom(f: seq<Byte>)
    requires IsFrame(f)
    ensures |f| >= 4
  {}

  /** A stream that is found whole among its own frames is one frame, with nothing before or after it. */
  lemma WholeStreamIsOneFrame(b: seq<Byte>)
    ensures b in Decode(b).frames <==> Decode(b) == Decoded([b], [], false)
  {
    hide Decode, IsFrame, NextFrame;
    var d := Decode(b);
    DecodeExplains(b);
    if b in d.frames {
      var k :| 0 <= k < |d.frames| && d.frames[k] == b;
      FramesTakeRoom(d.frames, k);
      assert d.frames == [b] && d.rest == [];
      FrameDecodesAlone(b);
    }
  }

  /** A rejected header is never passed: whatever arrives later is kept and nothing more is emitted. */
  lemma PoisonIsPermanent(a: seq<Byte>, b: seq<Byte>)
    requires Decode(a).poisoned
    ensures Decode(a + b) == Decoded(Decode(a).frames, Decode(a).rest + b, true)
  {
    DecodeExplains(a);
    NextFrameExtends(Decode(a).rest, b);
    DecodeResumes(a, b);
  }

  // ---- Chunked delivery ----

  /** What the object has done so far: the frames it emitted, the bytes it holds, whether the last call threw. */
  function Receive(d: Decoded, chunk: seq<Byte>): Decoded {
    var e := Decode(d.rest + chunk);
    e.(frames := d.frames + e.frames)
  }

  function ReceiveAll(chunks: seq<seq<Byte>>): Decoded {
    if chunks == [] then Decoded([], [], false)
    else Receive(ReceiveAll(chunks[..|chunks| - 1]), chunks[|chunks| - 1])
  }

  /** However the stream is cut, the outcome is that of one call on the whole of it. */
  lemma {:induction false} ChunkInvariance(chunks: seq<seq<Byte>>)
    ensures ReceiveAll(chunks) == Decode(Concat(chunks))
  {
    if chunks != [] {
      var n := |chunks| - 1;
      ChunkInvariance(chunks[..n]);
      DecodeResumes(Concat(chunks[..n]), chunks[n]);
      ConcatSplitsLast(chunks);
    }
  }

  /** The object throws on some chunk exactly when the whole stream is poisoned, and from then on every time. */
  lemma {:induction false} ThrowsOnceThrowsForever(chunks: seq<seq<Byte>>, i: nat, j: nat)
    requires i <= j <= |chunks| && ReceiveAll(chunks[..i]).poisoned
    ensures ReceiveAll(chunks[..j]).poisoned
    ensures ReceiveAll(chunks[..j]).frames == ReceiveAll(chunks[..i]).frames
  {
    hide Decode, NextFrame, ReceiveAll;
    ChunkInvariance(chunks[..i]);
    ChunkInvariance(chunks[..j]);
    assert chunks[..j] == chunks[..i] + chunks[i..j];
    ConcatAppends(chunks[..i], chunks[i..j]);
    PoisonIsPermanent(Concat(chunks[..i]), Concat(chunks[i..j]));
  }

  lemma DecodeStops(b: seq<Byte>)
    requires !NextFrame(b).Cut?
    ensures Decode(b) == Decoded([], b, NextFrame(b).NoLength?)
  {}

  /** The loop's claim: `frames` have been cut from `received` and `buffer` is still to be decoded. */
  ghost predicate Pending(received: seq<Byte>, frames: seq<seq<Byte>>, buffer: seq<Byte>) {
    Decode(received) == Decode(buffer).(frames := frames + Decode(buffer).frames)
  }

  lemma PendingStarts(received: seq<Byte>)
    ensures Pending(received, [], received)
  {
    assert [] + Decode(received).frames == Decode(received).frames;
  }

  lemma PendingSteps(received: seq<Byte>, frames: seq<seq<Byte>>, buffer: seq<Byte>)
    requires Pending(received, frames, buffer) && NextFrame(buffer).Cut?
    ensures var n := NextFrame(buffer).size;
            Pending(received, frames + [buffer[..n]], buffer[n..])
  {
    var n := NextFrame(buffer).size;
    Associative(frames, [buffer[..n]], Decode(buffer[n..]).frames);
  }

  lemma PendingStops(received: seq<Byte>, frames: seq<seq<Byte>>, buffer: seq<Byte>)
    requires Pending(received, frames, buffer) && !NextFrame(buffer).Cut?
    ensures Decode(received) == Decoded(frames, buffer, NextFrame(buffer).NoLength?)
  {
    DecodeStops(buffer);
    assert frames + [] == frames;
  }

  lemma NothingLost(frames: seq<seq<Byte>>, buffer: seq<Byte>, n: nat)
    requires n <= |buffer|
    ensures Concat(frames + [buffer[..n]]) + buffer[n..] == Concat(frames) + buffer
  {
    calc {
      Concat(frames + [buffer[..n]]) + buffer[n..];
      { ConcatAppends(frames, [buffer[..n]]); assert Concat([buffer[..n]]) == buffer[..n]; }
      (Concat(frames) + buffer[..n]) + buffer[n..];
      { Associative(Concat(frames), buffer[..n], buffer[n..]); assert buffer == buffer[..n] + buffer[n..]; }
      Concat(frames) + buffer;
    }
  }

  lemma NothingLostBefore(
    emitted: seq<seq<Byte>>, frames: seq<seq<Byte>>, buffer: seq<Byte>, kept: seq<Byte>, chunk: seq<Byte>)
    requires Concat(frames) + buffer == kept + chunk
    ensures Concat(emitted + frames) + buffer == Concat(emitted) + kept + chunk
  {
    calc {
      Concat(emitted + frames) + buffer;
      { ConcatAppends(emitted, frames); }
      (Concat(emitted) + Concat(frames)) + buffer;
      { Associative(Concat(emitted), Concat(frames), buffer); }
      Concat(emitted) + (kept + chunk);
      { Associative(Concat(emitted), kept, chunk); }
      Concat(emitted) + kept + chunk;
    }
  }

  class LspResponseBuffer {
    var buffer: seq<Byte>
    var emitted: seq<seq<Byte>>  // every 'message' event so far, in order

    constructor ()
      ensures buffer == [] && emitted == []
    {
      buffer, emitted := [], [];
    }

    /** Returns true when the call throws 'Content-Length header not found'. */
    method OnData(chunk: seq<Byte>) returns (threw: bool)
      modifies this
      ensures Decoded(emitted, buffer, threw) ==
              Receive(Decoded(old(emitted), old(buffer), false), chunk)
      ensures Concat(emitted) + buffer == Concat(old(emitted)) + old(buffer) + chunk
    {
      hide Pending, ContentLength;
      buffer := buffer + chunk;
      ghost var received := buffer;
      ghost var frames: seq<seq<Byte>> := [];  // emitted by this call
      PendingStarts(received);
      while true
        invariant emitted == old(emitted) + frames
        invariant received == Concat(frames) + buffer
        invariant Pending(received, frames, buffer)
        decreases |buffer|
      {
        var headerEnd := IndexOf(buffer, SEPARATOR);
        if headerEnd == -1 {
          threw := false;
          break;
        }
        var contentLength := FindContentLength(buffer[..headerEnd]);
        if contentLength.None? {
          threw := true;
          break;
        }
        var frameLength := headerEnd + 4 + contentLength.value;
        if |buffer| < frameLength {
          threw := false;
          break;
        }
        PendingSteps(received, frames, buffer);
        var raw := buffer[..frameLength];
        NothingLost(frames, buffer, frameLength);
        buffer := buffer[frameLength..];
        Associative(old(emitted), frames, [raw]);
        emitted := emitted + [raw];
        frames := frames + [raw];
      }
      PendingStops(received, frames, buffer);
      NothingLostBefore(old(emitted), frames, buffer, old(buffer), chunk);
    }
  }

  method FindContentLength(header: seq<Byte>) returns (length: Option<nat>)
    ensures length == ContentLength(header)
  {
    var lines := Split(header, CRLF);
    length := None;
    for i := 0 to |lines|
      invariant length == None && FirstLength(lines) == FirstLength(lines[i..])
    {
      assert lines[i..][1..] == lines[i + 1..];
      var m := MatchLine(lines[i]);
      if m.Some? {
        length := m;
        break;
      }
    }
  }
}
