/**
 The sending side of the framing. `LspMessage.format` (cli/lib/lsp/lsp_message.dart) and both rewriting
 functions (api-server/src/language-server/lsp-uri-transformer.ts) announce the length of a text in UTF-16
 units; a receiver that follows the protocol, such as `LspFraming.Decode`, counts bytes.
 */
module LspText {
  import opened Sequences
  import opened Unicode
  import opened LspFraming
  import Decimal

  const SEPARATOR_TEXT := "\r\n\r\n"

  const HEADER_PREFIX := "Content-Length: "

  function HeaderText(n: nat): string { HEADER_PREFIX + Decimal.Print(n) }

  /** The framed message: note that the announced length is the text's `.length`. */
  function Frame(content: string): string { Headed(Utf16Length(content), content) }

  /** The protocol's own frame around a body of bytes. */
  function FrameOf(body: seq<Byte>): seq<Byte> {
    Utf8(HeaderText(|body|)) + SEPARATOR + body
  }

  lemma HeaderTextHasNoReturn(n: nat)
    ensures '\r' !in HeaderText(n)
  {
    forall i | 0 <= i < 16 ensures HEADER_PREFIX[i] != '\r' {
      PrefixCharacter(i);
    }
  }

  /** A text with a length in front, whatever the length says. */
  function Headed(n: nat, content: string): string { HeaderText(n) + SEPARATOR_TEXT + content }

  lemma HeadedSplits(n: nat, content: string)
    ensures var k := IndexOf(Headed(n, content), SEPARATOR_TEXT);
            k >= 0 && Headed(n, content)[k + 4..] == content
  {
    HeaderTextHasNoReturn(n);
    HeaderEndsAtSeparator(HeaderText(n), SEPARATOR_TEXT, content);
  }

  /** Up to the first separator, a sent message names the number of its UTF-16 units; the content follows. */
  lemma FrameSplits(content: string)
    ensures var f, k := Frame(content), IndexOf(Frame(content), "\r\n\r\n");
            && 16 <= k && f[..16] == "Content-Length: " && f[k + 4..] == content
            && Decimal.AllDigits(Utf8(f[16..k])) && Decimal.Parse(Utf8(f[16..k])) == |Units(content)|
  {
    hide Utf8, Utf16Length, Decimal.Parse;
    var n := Utf16Length(content);
    HeadedSplits(n, content);
    HeaderTextHasNoReturn(n);
    HeaderEndsAtSeparator(HeaderText(n), SEPARATOR_TEXT, content);
    UnitsSpellTheText(content);
    Decimal.ParseUndoesPrint(n);
    assert Frame(content)[..|HeaderText(n)|] == HeaderText(n);
    assert Frame(content)[16..|HeaderText(n)|] == Decimal.Print(n);
  }

  // ---- A printed header is read back ----

  lemma PrefixCharacter(i: nat)
    requires i < 16
    ensures HEADER_PREFIX[i] as int < 0x80 && HEADER_PREFIX[i] != '\r'
    ensures i < 15 ==> Lower(HEADER_PREFIX[i] as Byte) == HEADER_NAME[i]
  {}

  lemma PrefixIsAscii()
    ensures IsAscii(HEADER_PREFIX)
  {
    forall i | 0 <= i < 16 ensures HEADER_PREFIX[i] as int < 0x80 {
      PrefixCharacter(i);
    }
  }

  lemma PrefixBytes()
    ensures |Utf8(HEADER_PREFIX)| == 16 && Utf8(HEADER_PREFIX)[0] == 67 && Utf8(HEADER_PREFIX)[15] == 32
    ensures forall i :: 0 <= i < 15 ==> Lower(Utf8(HEADER_PREFIX)[i]) == HEADER_NAME[i]
    ensures 13 !in Utf8(HEADER_PREFIX)
  {
    hide Utf8, Lower, IsAscii;
    PrefixIsAscii();
    AsciiIsItsOwnEncoding(HEADER_PREFIX);
    forall i | 0 <= i < 16 ensures Utf8(HEADER_PREFIX)[i] != 13 {
      PrefixCharacter(i);
    }
    forall i | 0 <= i < 15 ensures Lower(Utf8(HEADER_PREFIX)[i]) == HEADER_NAME[i] {
      PrefixCharacter(i);
    }
  }

  lemma HeaderBytes(n: nat)
    ensures var line, digits := Utf8(HeaderText(n)), Utf8(Decimal.Print(n));
            && |line| == 16 + |digits| && line[0] == 67 && line[15] == 32
            && line[16..] == digits && NamesLength(line) && 13 !in line
  {
    hide Utf8, Decimal.Print;
    Utf8Appends(HEADER_PREFIX, Decimal.Print(n));
    PrefixBytes();
    Utf8KeepsOutAscii(Decimal.Print(n), '\r');
  }

  lemma {:induction false} DigitRunIsAll(b: seq<Byte>)
    requires Decimal.AllDigits(b)
    ensures DigitRun(b) == |b|
  {
    if b != [] {
      DigitRunIsAll(b[1..]);
    }
  }

  lemma SplitWithoutReturn(line: seq<Byte>)
    requires 13 !in line
    ensures ContentLength(line) == MatchLine(line)
  {
    hide MatchLine;
    OccurrenceStartsWithHead(line, CRLF);
    var lines := Split(line, CRLF);
    assert lines == [line];
    assert FirstLength(lines[1..]) == None;
  }

  lemma MatchPrinted(line: seq<Byte>, digits: seq<Byte>)
    requires NamesLength(line) && |line| > 16 && line[15] == 32 && line[16..] == digits
    requires Decimal.AllDigits(digits)
    ensures MatchLine(line) == Some(Decimal.Parse(digits))
  {
    hide Decimal.Parse, SpaceLength, DigitRun;
    var value := line[15..];
    DigitRunIsAll(digits);
    assert value[0] == 32 && value[1..] == digits && value[1] == digits[0];
    SkipOneSpace(value);
    assert digits[..|digits|] == digits && digits[|digits|..] == [];
    SkipNothing();
  }

  lemma SkipOneSpace(value: seq<Byte>)
    requires |value| > 1 && value[0] == 32 && Decimal.IsDigit(value[1])
    ensures SkipSpaces(value) == value[1..]
  {
    assert SpaceLength(value) == 1;
    var digits := value[1..];
    assert digits[0] == value[1];
    assert SpaceLength(digits) == 0 by { DigitIsNoSpace(digits); }
  }

  lemma DigitIsNoSpace(b: seq<Byte>)
    requires b != [] && Decimal.IsDigit(b[0])
    ensures SpaceLength(b) == 0
  {
    if |b| >= 2 {
      assert b[..2][0] == b[0];
    }
    if |b| >= 3 {
      assert b[..3][0] == b[0];
    }
  }

  lemma SkipNothing()
    ensures SkipSpaces([]) == []
  {}

  lemma HeaderIsRead(n: nat)
    ensures ContentLength(Utf8(HeaderText(n))) == Some(n)
  {
    hide Utf8, ContentLength, MatchLine, HeaderText, NamesLength;
    HeaderBytes(n);
    SplitWithoutReturn(Utf8(HeaderText(n)));
    Decimal.PrintsDigits(n);
    Decimal.ParseUndoesPrint(n);
    MatchPrinted(Utf8(HeaderText(n)), Utf8(Decimal.Print(n)));
  }

  /** A well-formed header announcing `n` cuts `n` bytes of whatever follows it. */
  lemma HeaderCuts(n: nat, rest: seq<Byte>)
    requires n <= |rest|
    ensures var b := Utf8(HeaderText(n)) + SEPARATOR + rest;
            var f := FrameOf(rest[..n]);
            && IsFrame(f) && NextFrame(b) == Cut(|f|) && b[..|f|] == f && b[|f|..] == rest[n..]
  {
    hide Utf8, ContentLength, HeaderText, IndexOf;
    var h, b, f := Utf8(HeaderText(n)), Utf8(HeaderText(n)) + SEPARATOR + rest, FrameOf(rest[..n]);
    HeaderBytes(n);
    HeaderIsRead(n);
    HeaderEndsAtSeparator(h, SEPARATOR, rest);
    HeaderEndsAtSeparator(h, SEPARATOR, rest[..n]);
    Associative(h + SEPARATOR, rest[..n], rest[n..]);
    assert rest == rest[..n] + rest[n..];
    assert b == f + rest[n..];
  }

  lemma FrameOfIsFrame(body: seq<Byte>)
    ensures IsFrame(FrameOf(body))
  {
    HeaderCuts(|body|, body);
    assert body[..|body|] == body;
  }

  function FramesOf(bodies: seq<seq<Byte>>): seq<seq<Byte>> {
    seq(|bodies|, i requires 0 <= i < |bodies| => FrameOf(bodies[i]))
  }

  /** Framing and decoding are inverse on every list of byte bodies, however the stream is cut. */
  lemma FramingRoundTrip(bodies: seq<seq<Byte>>, chunks: seq<seq<Byte>>)
    requires Concat(chunks) == Concat(FramesOf(bodies))
    ensures ReceiveAll(chunks) == Decoded(FramesOf(bodies), [], false)
  {
    var frames := FramesOf(bodies);
    forall i | 0 <= i < |frames| ensures IsFrame(frames[i]) {
      FrameOfIsFrame(bodies[i]);
    }
    assert Concat(frames) + [] == Concat(frames);
    assert Explains(Decoded(frames, [], false), Concat(frames));
    ExplanationIsUnique(Decoded(frames, [], false), Concat(frames));
    ChunkInvariance(chunks);
  }

  // ---- Announced length against bytes sent ----

  lemma HeadedOnTheWire(n: nat, s: string)
    ensures Utf8(Headed(n, s)) == Utf8(HeaderText(n)) + SEPARATOR + Utf8(s)
  {
    Utf8Appends(HeaderText(n) + SEPARATOR_TEXT, s);
    Utf8Appends(HeaderText(n), SEPARATOR_TEXT);
    AsciiIsItsOwnEncoding(SEPARATOR_TEXT);
    assert Utf8(SEPARATOR_TEXT) == SEPARATOR;
  }

  lemma FrameOnTheWire(s: string)
    ensures Utf8(Frame(s)) == Utf8(HeaderText(Utf16Length(s))) + SEPARATOR + Utf8(s)
  {
    HeadedOnTheWire(Utf16Length(s), s);
  }

  /** The text a byte-counting sender's frame spells, and no other text spells it. */
  lemma FrameSpells(s: string, text: string)
    ensures Utf8(text) == FrameOf(Utf8(s)) <==> text == Headed(|Utf8(s)|, s)
  {
    HeadedOnTheWire(|Utf8(s)|, s);
    if Utf8(text) == FrameOf(Utf8(s)) {
      Utf8Injective(text, Headed(|Utf8(s)|, s));
    }
  }

  /** The bytes of `s` its announced length covers, and the bytes it leaves behind. */
  function Covered(s: string): seq<Byte> {
    LengthDrift(s);
    Utf8(s)[..Utf16Length(s)]
  }

  function Stray(s: string): seq<Byte> {
    LengthDrift(s);
    Utf8(s)[Utf16Length(s)..]
  }

  lemma StrayIsTheDrift(s: string)
    ensures |Stray(s)| == |Utf8(s)| - Utf16Length(s)
    ensures Stray(s) == [] <==> IsAscii(s)
  {
    LengthDrift(s);
  }

  /** What a byte-counting receiver makes of a sent message and of all that follows it. */
  lemma SentMessageDecodes(s: string, more: seq<Byte>)
    ensures var d := Decode(Stray(s) + more);
            Decode(Utf8(Frame(s)) + more) == d.(frames := [FrameOf(Covered(s))] + d.frames)
  {
    hide Utf8, Utf16Length, HeaderText, NextFrame, IsFrame, Frame;
    var n := Utf16Length(s);
    var rest := Utf8(s) + more;
    LengthDrift(s);
    FrameOnTheWire(s);
    Associative(Utf8(HeaderText(n)) + SEPARATOR, Utf8(s), more);
    HeaderCuts(n, rest);
    assert rest[..n] == Covered(s);
    assert rest[n..] == Stray(s) + more;
  }

  /** The sent text is the frame it claims to be exactly when it is ASCII. */
  lemma SentFrameIsIntact(s: string)
    ensures FrameOf(Covered(s)) == Utf8(Frame(s)) <==> IsAscii(s)
  {
    LengthDrift(s);
    FrameOnTheWire(s);
    var h := Utf8(HeaderText(Utf16Length(s))) + SEPARATOR;
    if FrameOf(Covered(s)) == Utf8(Frame(s)) {
      assert |h + Covered(s)| == |h + Utf8(s)|;
    }
  }

  function Wire(contents: seq<string>): seq<Byte> {
    if contents == [] then [] else Utf8(Frame(contents[0])) + Wire(contents[1..])
  }

  function WireFrames(contents: seq<string>): seq<seq<Byte>> {
    if contents == [] then [] else [Utf8(Frame(contents[0]))] + WireFrames(contents[1..])
  }

  predicate AllAscii(contents: seq<string>) {
    forall i :: 0 <= i < |contents| ==> IsAscii(contents[i])
  }

  /** A stream of sent messages arrives as those messages exactly when every one of them is ASCII. */
  lemma {:induction false} StreamIsIntactIffAscii(contents: seq<string>)
    ensures Decode(Wire(contents)) == Decoded(WireFrames(contents), [], false) <==> AllAscii(contents)
  {
    if contents != [] {
      var s, rest := contents[0], Wire(contents[1..]);
      StreamIsIntactIffAscii(contents[1..]);
      SentMessageDecodes(s, rest);
      SentFrameIsIntact(s);
      StrayIsTheDrift(s);
      assert AllAscii(contents) <==> IsAscii(s) && AllAscii(contents[1..]) by {
        assert forall i :: 1 <= i < |contents| ==> contents[i] == contents[1..][i - 1];
      }
      var d := Decode(Stray(s) + rest);
      assert ([FrameOf(Covered(s))] + d.frames)[0] == FrameOf(Covered(s));
      assert ([FrameOf(Covered(s))] + d.frames)[1..] == d.frames;
      assert WireFrames(contents)[0] == Utf8(Frame(s));
      assert WireFrames(contents)[1..] == WireFrames(contents[1..]);
      if IsAscii(s) {
        assert Stray(s) + rest == rest;
      }
    }
  }

  lemma OneMessageStream(content: string)
    ensures Decode(Utf8(Frame(content))) == Decoded([Utf8(Frame(content))], [], false) <==> IsAscii(content)
  {
    hide Decode, Utf8, Frame;
    StreamIsIntactIffAscii([content]);
    assert Wire([content]) == Utf8(Frame(content)) && WireFrames([content]) == [Utf8(Frame(content))];
    assert AllAscii([content]) <==> IsAscii(content) by {
      assert [content][0] == content;
    }
  }

  lemma NoReturnNoFrame(b: seq<Byte>)
    requires 13 !in b
    ensures Decode(b) == Decoded([], b, false)
  {
    OccurrenceStartsWithHead(b, SEPARATOR);
  }

  lemma StrayKeepsOutReturns(s: string)
    requires '\r' !in s
    ensures 13 !in Stray(s)
  {
    Utf8KeepsOutAscii(s, '\r');
    LengthDrift(s);
  }

  /**
   A serialised message holds no raw carriage return. For such a text the residue is the drift itself: one
   frame comes out, short by as many bytes as the text has over units.
   */
  lemma ResidueIsTheDrift(s: string)
    requires '\r' !in s
    ensures Decode(Utf8(Frame(s))) == Decoded([FrameOf(Covered(s))], Stray(s), false)
    ensures Decode(Utf8(Frame(s))).rest == [] <==> IsAscii(s)
  {
    SentMessageDecodes(s, []);
    assert Utf8(Frame(s)) + [] == Utf8(Frame(s)) && Stray(s) + [] == Stray(s);
    StrayKeepsOutReturns(s);
    NoReturnNoFrame(Stray(s));
    StrayIsTheDrift(s);
  }

  /**
   With carriage returns allowed: nothing is left over exactly when the bytes past the announced length are
   themselves whole frames. For an ASCII text there are none; `StrayBytesMayBeAFrame` gives a text with one.
   */
  lemma ResidueIsEmptyIff(s: string)
    ensures Decode(Utf8(Frame(s))).rest == [] <==> exists frames :: AllFrames(frames) && Concat(frames) == Stray(s)
  {
    hide Utf8, Utf16Length, Frame, Stray, IsFrame, NextFrame, FrameOf;
    SentMessageDecodes(s, []);
    assert Utf8(Frame(s)) + [] == Utf8(Frame(s)) && Stray(s) + [] == Stray(s);
    var d := Decode(Stray(s));
    DecodeExplains(Stray(s));
    if d.rest == [] {
      assert AllFrames(d.frames) && Concat(d.frames) + [] == Concat(d.frames);
    }
    forall frames | AllFrames(frames) && Concat(frames) == Stray(s) ensures d.rest == [] {
      FramesDecodeWhole(frames);
    }
  }

  lemma FramesDecodeWhole(frames: seq<seq<Byte>>)
    requires AllFrames(frames)
    ensures Decode(Concat(frames)) == Decoded(frames, [], false)
  {
    assert Concat(frames) + [] == Concat(frames);
    assert NextFrame([]).Incomplete?;
    ExplanationIsUnique(Decoded(frames, [], false), Concat(frames));
  }

  // ---- The message after a non-ASCII one ----

  /** Bytes the header pattern accepts after the name: white space, digits, and parts of multi-byte white space. */
  predicate AfterName(b: Byte) { 9 <= b <= 13 || b == 32 || Decimal.IsDigit(b) || b >= 0x80 }

  predicate AllAfterName(b: seq<Byte>) { forall i :: 0 <= i < |b| ==> AfterName(b[i]) }

  lemma SpaceIsAfterName(b: seq<Byte>)
    ensures AllAfterName(b[..SpaceLength(b)])
  {
    var n := SpaceLength(b);
    if n == 2 {
      assert b[0] == b[..2][0] && b[1] == b[..2][1];
    } else if n == 3 {
      assert b[0] == b[..3][0] && b[1] == b[..3][1] && b[2] == b[..3][2];
      assert b[0] == b[..2][0] && b[1] == b[..2][1];
    }
  }

  lemma AllAfterNameJoins(b: seq<Byte>, n: nat)
    requires n <= |b| && AllAfterName(b[..n]) && AllAfterName(b[n..])
    ensures AllAfterName(b)
  {
    assert b == b[..n] + b[n..];
  }

  /** What is left after skipping decides the whole: the skipped bytes are all acceptable. */
  lemma {:induction false} SkippedAreAfterName(b: seq<Byte>)
    requires AllAfterName(SkipSpaces(b))
    ensures AllAfterName(b)
    decreases |b|
  {
    var k := SpaceLength(b);
    if k > 0 {
      SkippedAreAfterName(b[k..]);
      SpaceIsAfterName(b);
      AllAfterNameJoins(b, k);
    }
  }

  lemma MatchedTail(line: seq<Byte>)
    requires MatchLine(line).Some?
    ensures AllAfterName(line[|HEADER_NAME|..])
  {
    hide SkipSpaces, Decimal.Parse;
    var value := SkipSpaces(line[|HEADER_NAME|..]);
    var n := DigitRun(value);
    SkippedAreAfterName(value[n..]);
    AllAfterNameJoins(value, n);
    SkippedAreAfterName(line[|HEADER_NAME|..]);
  }

  lemma NameHasOneC(line: seq<Byte>, k: nat)
    requires NamesLength(line) && 0 < k < |HEADER_NAME|
    ensures line[k] != 67
  {
    assert Lower(line[k]) == HEADER_NAME[k];
  }

  lemma ShiftedHeaderIsRejected(stray: seq<Byte>, n: nat)
    requires stray != []
    ensures MatchLine(stray + Utf8(HeaderText(n))) == None
  {
    hide SkipSpaces, DigitRun, Decimal.Parse, Utf8, HeaderText;
    var line := stray + Utf8(HeaderText(n));
    HeaderBytes(n);
    assert line[|stray|] == 67;
    if MatchLine(line).Some? {
      if |stray| < |HEADER_NAME| {
        NameHasOneC(line, |stray|);
      } else {
        assert line[|HEADER_NAME|..][|stray| - |HEADER_NAME|] == 67;
        MatchedTail(line);
      }
    }
  }

  lemma ShiftedFrameIsRejected(stray: seq<Byte>, n: nat, rest: seq<Byte>)
    requires stray != [] && 13 !in stray
    ensures NextFrame(stray + (Utf8(HeaderText(n)) + SEPARATOR + rest)).NoLength?
  {
    hide Utf8, HeaderText, MatchLine, ContentLength;
    var h := Utf8(HeaderText(n));
    HeaderBytes(n);
    ShiftedHeaderIsRejected(stray, n);
    SplitWithoutReturn(stray + h);
    HeaderEndsAtSeparator(stray + h, SEPARATOR, rest);
    assert stray + (h + SEPARATOR + rest) == stray + h + SEPARATOR + rest;
  }

  /**
   The message after a non-ASCII one is lost, and so is everything after it: its header is read behind the
   stray bytes, no length is found, and the connection emits nothing ever again.
   */
  lemma NonAsciiMessageSilencesTheStream(s: string, t: string, more: seq<Byte>)
    requires '\r' !in s && !IsAscii(s)
    ensures var d := Decode(Utf8(Frame(s)) + (Utf8(Frame(t)) + more));
            d.poisoned && d.frames == [FrameOf(Covered(s))]
  {
    hide Utf8, Decode, NextFrame, Stray, HeaderText, Covered;
    var n := Utf16Length(t);
    SentMessageDecodes(s, Utf8(Frame(t)) + more);
    StrayIsTheDrift(s);
    StrayKeepsOutReturns(s);
    FrameOnTheWire(t);
    Associative(Utf8(HeaderText(n)) + SEPARATOR, Utf8(t), more);
    ShiftedFrameIsRejected(Stray(s), n, Utf8(t) + more);
    DecodeStops(Stray(s) + (Utf8(Frame(t)) + more));
  }

  /**
   Without the carriage-return condition the residue may be empty although the text is not ASCII: here the 21
   stray bytes are themselves a complete frame.
   */
  lemma StrayBytesMayBeAFrame()
    ensures exists s :: !IsAscii(s) && Decode(Utf8(Frame(s))).rest == []
  {
    hide Accents, Utf8, Utf16Length, Frame, Decode, FrameOf;
    var tail := Frame("");
    var s := Accents(21) + tail;
    EmptyFrame();
    AccentsDrift(21);
    Utf8Appends(Accents(21), tail);
    Utf16Appends(Accents(21), tail);
    assert Stray(s) == Utf8(tail) == FrameOf([]);
    SentMessageDecodes(s, []);
    assert Utf8(Frame(s)) + [] == Utf8(Frame(s)) && Stray(s) + [] == FrameOf([]);
    FrameOfIsFrame([]);
    FrameDecodesAlone(FrameOf([]));
    assert s[0] == '\U{e9}';
  }

  lemma EmptyFrame()
    ensures Utf8(Frame("")) == FrameOf([]) && |FrameOf([])| == 21 == Utf16Length(Frame(""))
  {
    hide Utf8, Utf16Length;
    EmptyFrameText();
    FrameOnTheWire("");
    assert Utf8("") == [] && Utf16Length("") == 0 by { AsciiIsItsOwnEncoding(""); }
    AsciiIsItsOwnEncoding(Frame(""));
  }

  lemma EmptyFrameText()
    ensures |Frame("")| == 21 && IsAscii(Frame(""))
  {
    hide Utf8;
    assert Utf16Length("") == 0 && Decimal.Print(0) == "0";
    assert Frame("") == HEADER_PREFIX + "0" + SEPARATOR_TEXT;
    PrefixIsAscii();
    forall i | 0 <= i < 21 ensures Frame("")[i] as int < 0x80 {
      assert i < 16 ==> Frame("")[i] == HEADER_PREFIX[i];
      assert 17 <= i ==> Frame("")[i] == SEPARATOR_TEXT[i - 17];
    }
  }

  function Accents(n: nat): string {
    if n == 0 then "" else ['\U{e9}'] + Accents(n - 1)
  }

  lemma {:induction false} AccentsDrift(n: nat)
    ensures |Accents(n)| == n == Utf16Length(Accents(n)) && |Utf8(Accents(n))| == 2 * n
    ensures n > 0 ==> Accents(n)[0] == '\U{e9}'
  {
    if n > 0 {
      AccentsDrift(n - 1);
      assert Accents(n)[1..] == Accents(n - 1);
    }
  }
}
