/**
 Messages as the Language Server Protocol 3.17, Base Protocol, "Header Part", writes them, defined without the
 decoder: header fields in any order, one of them the length of the body in bytes, an empty line, the body. The name
 of the length field may be written in any case, blanks may stand around its value, and zeros before it.
 */
module LspStandard {
  import opened Sequences
  import opened Unicode
  import opened LspFraming
  import opened LspHeader
  import opened LspText
  import Decimal

  /** The field that announces a length: its name, blanks, digits, blanks. */
  datatype LengthField = LengthField(name: seq<Byte>, lead: seq<Byte>, digits: seq<Byte>, trail: seq<Byte>)

  /** Header fields before and after the length, and the body. */
  datatype Message = Message(before: seq<seq<Byte>>, length: LengthField, after: seq<seq<Byte>>, body: seq<Byte>)

  predicate IsField(line: seq<Byte>) { line != [] && 13 !in line }

  predicate IsBlank(b: Byte) { b == 32 || b == 9 }

  predicate AllBlank(b: seq<Byte>) { forall i :: 0 <= i < |b| ==> IsBlank(b[i]) }

  /** The line starts with the name of the length field, in any case. */
  predicate NamedLength(line: seq<Byte>) {
    |line| >= 15 && forall i :: 0 <= i < 15 ==> SameLetter(line[i] as char, "Content-Length:"[i])
  }

  predicate Announces(f: LengthField, n: nat) {
    && |f.name| == 15 && NamedLength(f.name)
    && AllBlank(f.lead) && AllBlank(f.trail)
    && f.digits != [] && Decimal.AllDigits(f.digits) && Decimal.Parse(f.digits) == n
  }

  function LineOf(f: LengthField): seq<Byte> { f.name + (f.lead + (f.digits + f.trail)) }

  /** The fields hold no carriage return, and the length is announced by the first field of its name. */
  predicate IsStandard(m: Message) {
    && (forall i :: 0 <= i < |m.before| ==> IsField(m.before[i]) && !NamedLength(m.before[i]))
    && Announces(m.length, |m.body|)
    && (forall i :: 0 <= i < |m.after| ==> IsField(m.after[i]))
  }

  function Fields(m: Message): seq<seq<Byte>> { m.before + [LineOf(m.length)] + m.after }

  function Lines(fields: seq<seq<Byte>>): seq<Byte>
    requires fields != []
  {
    if |fields| == 1 then fields[0] else fields[0] + [13, 10] + Lines(fields[1..])
  }

  function Written(m: Message): seq<Byte> { Lines(Fields(m)) + [13, 10, 13, 10] + m.body }

  predicate AllFields(fields: seq<seq<Byte>>) { forall i :: 0 <= i < |fields| ==> IsField(fields[i]) }

  lemma NamedLengthIff(line: seq<Byte>)
    ensures NamedLength(line) <==> NamesLength(line)
  {
    hide SameLetter, Lower;
    if |line| >= 15 {
      forall i | 0 <= i < 15
        ensures Lower(line[i]) == HEADER_NAME[i] <==> SameLetter(line[i] as char, "Content-Length:"[i])
      {
        NameLetter(line[i], i);
        if SameLetter(line[i] as char, "Content-Length:"[i]) {
          LetterIsLow(line[i], i);
        }
      }
    }
  }

  lemma LetterIsLow(b: Byte, i: nat)
    requires i < 15 && SameLetter(b as char, "Content-Length:"[i])
    ensures b < 0x80 && b != 13
  {}

  lemma LengthLineIsField(f: LengthField, n: nat)
    requires Announces(f, n)
    ensures IsField(LineOf(f))
  {
    hide SameLetter;
    forall i | 0 <= i < |f.name| ensures f.name[i] != 13 {
      LetterIsLow(f.name[i], i);
    }
    assert 13 !in f.name && 13 !in f.lead && 13 !in f.digits && 13 !in f.trail;
  }

  lemma FieldsAreFields(m: Message)
    requires IsStandard(m)
    ensures AllFields(Fields(m))
  {
    hide NamedLength, LineOf;
    LengthLineIsField(m.length, |m.body|);
    var n := |m.before|;
    assert forall i :: 0 <= i < n ==> Fields(m)[i] == m.before[i];
    assert forall i :: n < i < |Fields(m)| ==> Fields(m)[i] == m.after[i - n - 1];
  }

  lemma {:induction false} LinesStartOnAField(fields: seq<seq<Byte>>)
    requires fields != [] && AllFields(fields)
    ensures Lines(fields) != [] && Lines(fields)[0] != 13
  {
    assert IsField(fields[0]);
    assert fields[0][0] in fields[0];
  }

  lemma SplitAtHead(field: seq<Byte>, rest: seq<Byte>)
    requires IsField(field)
    ensures Split(field, CRLF) == [field]
    ensures Split(field + CRLF + rest, CRLF) == [field] + Split(rest, CRLF)
  {
    OccurrenceStartsWithHead(field, CRLF);
    HeaderEndsAtSeparator(field, CRLF, rest);
  }

  lemma {:induction false} SplitUndoesLines(fields: seq<seq<Byte>>)
    requires fields != [] && AllFields(fields)
    ensures Split(Lines(fields), CRLF) == fields
    decreases |fields|
  {
    hide Split, IsField;
    var rest := fields[1..];
    assert fields == [fields[0]] + rest;
    if |fields| == 1 {
      SplitAtHead(fields[0], []);
    } else {
      assert forall i :: 0 <= i < |rest| ==> rest[i] == fields[i + 1];
      SplitUndoesLines(rest);
      SplitAtHead(fields[0], Lines(rest));
    }
  }

  /** A blank line is not found in a field, nor where one ends and the next begins. */
  lemma BlankLineIsLater(line: seq<Byte>, t: seq<Byte>)
    requires 13 !in line && t != [] && t[0] != 13 && IndexOf(t, SEPARATOR) >= 0
    ensures IndexOf(line + CRLF + t, SEPARATOR) == |line| + 2 + IndexOf(t, SEPARATOR)
  {
    var s, n, k := line + CRLF + t, |line| + 2, IndexOf(t, SEPARATOR);
    assert s[n + k..n + k + 4] == t[k..k + 4];
    assert OccursAt(s, SEPARATOR, n + k);
    var j := IndexOf(s, SEPARATOR);
    var found := s[j..j + 4];
    assert found[0] == s[j] && found[2] == s[j + 2];
    assert n <= j;
    assert t[j - n..j - n + 4] == s[j..j + 4];
    assert OccursAt(t, SEPARATOR, j - n);
  }

  lemma {:induction false} HeaderEndsAtBlankLine(fields: seq<seq<Byte>>, body: seq<Byte>)
    requires fields != [] && AllFields(fields)
    ensures IndexOf(Lines(fields) + SEPARATOR + body, SEPARATOR) == |Lines(fields)|
    decreases |fields|
  {
    assert IsField(fields[0]);
    if |fields| == 1 {
      HeaderEndsAtSeparator(fields[0], SEPARATOR, body);
    } else {
      var rest := fields[1..];
      assert forall i :: 0 <= i < |rest| ==> rest[i] == fields[i + 1];
      HeaderEndsAtBlankLine(rest, body);
      LinesStartOnAField(rest);
      var t := Lines(rest) + SEPARATOR + body;
      BlankLineIsLater(fields[0], t);
      assert Lines(fields) + SEPARATOR + body == fields[0] + CRLF + t;
    }
  }

  lemma {:induction false} LengthIsFound(before: seq<seq<Byte>>, line: seq<Byte>, after: seq<seq<Byte>>, n: nat)
    requires forall i :: 0 <= i < |before| ==> !NamesLength(before[i])
    requires MatchLine(line) == Some(n)
    ensures FirstLength(before + [line] + after) == Some(n)
    decreases |before|
  {
    var fields := before + [line] + after;
    if before == [] {
      assert fields[0] == line;
    } else {
      LengthIsFound(before[1..], line, after, n);
      assert fields[0] == before[0] && fields[1..] == before[1..] + [line] + after;
    }
  }

  lemma {:induction false} BlanksAreSkipped(blanks: seq<Byte>, rest: seq<Byte>)
    requires AllBlank(blanks) && SpaceLength(rest) == 0
    ensures SkipSpaces(blanks + rest) == rest
    decreases |blanks|
  {
    if blanks == [] {
      assert blanks + rest == rest;
    } else {
      assert IsBlank(blanks[0]);
      assert (blanks + rest)[0] == blanks[0] && (blanks + rest)[1..] == blanks[1..] + rest;
      assert SpaceLength(blanks + rest) == 1;
      BlanksAreSkipped(blanks[1..], rest);
    }
  }

  lemma {:induction false} DigitsStopAtBlank(digits: seq<Byte>, trail: seq<Byte>)
    requires Decimal.AllDigits(digits) && AllBlank(trail)
    ensures DigitRun(digits + trail) == |digits|
    decreases |digits|
  {
    if digits == [] {
      assert digits + trail == trail;
      assert trail != [] ==> IsBlank(trail[0]);
    } else {
      assert (digits + trail)[0] == digits[0] && (digits + trail)[1..] == digits[1..] + trail;
      DigitsStopAtBlank(digits[1..], trail);
    }
  }

  lemma LengthLineMatches(f: LengthField, n: nat)
    requires Announces(f, n)
    ensures MatchLine(LineOf(f)) == Some(n)
  {
    hide SkipSpaces, SpaceLength, DigitRun, Decimal.Parse;
    var line, value := LineOf(f), f.digits + f.trail;
    LineNamesLength(f, n);
    assert line[|HEADER_NAME|..] == f.lead + value;
    DigitIsNoSpace(value);
    BlanksAreSkipped(f.lead, value);
    DigitsStopAtBlank(f.digits, f.trail);
    assert value[..|f.digits|] == f.digits && value[|f.digits|..] == f.trail;
    NothingIsNoSpace();
    BlanksAreSkipped(f.trail, []);
    assert f.trail + [] == f.trail;
  }

  lemma LineNamesLength(f: LengthField, n: nat)
    requires Announces(f, n)
    ensures NamesLength(LineOf(f))
  {
    hide SameLetter;
    assert forall i :: 0 <= i < 15 ==> LineOf(f)[i] == f.name[i];
    NamedLengthIff(LineOf(f));
  }

  lemma NothingIsNoSpace()
    ensures SpaceLength([]) == 0
  {}

  /** Every message of the standard is a frame to the decoder, exactly as long as it is. */
  lemma StandardMessageIsFrame(m: Message)
    requires IsStandard(m)
    ensures IsFrame(Written(m))
  {
    hide MatchLine, NamesLength, NamedLength, Lines, Split, LineOf, Announces;
    var fields := Fields(m);
    var header := Lines(fields);
    FieldsAreFields(m);
    HeaderEndsAtBlankLine(fields, m.body);
    SplitUndoesLines(fields);
    LengthLineMatches(m.length, |m.body|);
    forall i | 0 <= i < |m.before| ensures !NamesLength(m.before[i]) {
      NamedLengthIff(m.before[i]);
    }
    LengthIsFound(m.before, LineOf(m.length), m.after, |m.body|);
    assert Written(m)[..|header|] == header;
  }

  /** And a stream of them, cut anyhow, comes out as those messages, with nothing left over. */
  lemma StandardStreamDecodes(messages: seq<Message>, chunks: seq<seq<Byte>>)
    requires forall i :: 0 <= i < |messages| ==> IsStandard(messages[i])
    requires Concat(chunks) == Concat(seq(|messages|, i requires 0 <= i < |messages| => Written(messages[i])))
    ensures ReceiveAll(chunks)
            == Decoded(seq(|messages|, i requires 0 <= i < |messages| => Written(messages[i])), [], false)
  {
    hide IsStandard, IsFrame, Written;
    var frames := seq(|messages|, i requires 0 <= i < |messages| => Written(messages[i]));
    forall i | 0 <= i < |frames| ensures IsFrame(frames[i]) {
      StandardMessageIsFrame(messages[i]);
    }
    FramesDecodeWhole(frames);
    ChunkInvariance(chunks);
  }

  // ---- What this repository's senders write ----

  function NameBytes(): seq<Byte> { seq(15, i requires 0 <= i < 15 => "Content-Length:"[i] as Byte) }

  /** The standard's own message around a body: the length in its plainest form and nothing else. */
  function Plain(body: seq<Byte>): Message {
    Message([], LengthField(NameBytes(), [32], Utf8(Decimal.Print(|body|)), []), [], body)
  }

  lemma PlainIsStandard(body: seq<Byte>)
    ensures IsStandard(Plain(body))
  {
    hide SameLetter;
    Decimal.ParseUndoesPrint(|body|);
    forall i | 0 <= i < 15 ensures SameLetter(NameBytes()[i] as char, "Content-Length:"[i]) {
      SameAsItself(i);
    }
  }

  lemma SameAsItself(i: nat)
    requires i < 15
    ensures SameLetter("Content-Length:"[i] as Byte as char, "Content-Length:"[i])
  {}

  lemma AsciiBytes(s: string, b: seq<Byte>)
    requires IsAscii(s) && |b| == |s| && forall i :: 0 <= i < |s| ==> b[i] as int == s[i] as int
    ensures Utf8(s) == b
  {
    AsciiIsItsOwnEncoding(s);
  }

  lemma NameOnTheWire()
    ensures Utf8(HEADER_PREFIX) == NameBytes() + [32]
  {
    hide Utf8, IsAscii, NameBytes;
    PrefixIsAscii();
    NameHasFifteen();
    forall i | 0 <= i < 16 ensures (NameBytes() + [32])[i] as int == HEADER_PREFIX[i] as int {
      PrefixIsName(i);
    }
    AsciiBytes(HEADER_PREFIX, NameBytes() + [32]);
  }

  lemma NameHasFifteen()
    ensures |NameBytes()| == 15 && |HEADER_PREFIX| == 16
  {}

  lemma PlainIsWritten(body: seq<Byte>)
    ensures Written(Plain(body)) == FrameOf(body)
  {
    hide Utf8, Decimal.Print, NameBytes;
    var f := Plain(body).length;
    NameOnTheWire();
    Utf8Appends(HEADER_PREFIX, Decimal.Print(|body|));
    assert LineOf(f) == Utf8(HeaderText(|body|));
    assert Fields(Plain(body)) == [LineOf(f)];
  }

  lemma PrefixIsName(i: nat)
    requires i < 16
    ensures |NameBytes()| == 15 && (NameBytes() + [32])[i] as int == HEADER_PREFIX[i] as int
  {}

  /** A message as it is sent is a message of the standard if and only if its text is ASCII. */
  lemma SentIsStandardIff(content: string)
    ensures (exists m :: IsStandard(m) && Written(m) == Utf8(Frame(content))) <==> IsAscii(content)
  {
    hide IsStandard, Written, Frame, Utf8, Plain;
    if IsAscii(content) {
      PlainIsStandard(Utf8(content));
      PlainIsWritten(Utf8(content));
      AsciiIsItsOwnEncoding(content);
      FrameOnTheWire(content);
      assert Written(Plain(Utf8(content))) == Utf8(Frame(content));
    } else if m :| IsStandard(m) && Written(m) == Utf8(Frame(content)) {
      OneStandardMessage(m);
      OneMessageStream(content);
      assert false;
    }
  }

  lemma OneStandardMessage(m: Message)
    requires IsStandard(m)
    ensures Decode(Written(m)) == Decoded([Written(m)], [], false)
  {
    hide IsStandard, Written, IsFrame, Decode;
    StandardMessageIsFrame(m);
    FrameDecodesAlone(Written(m));
  }
}
