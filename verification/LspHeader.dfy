/**
 The header pattern of the decoder, /^Content-Length:\s*(\d+)\s*$/i, as a property of the line's text. `LspFraming`
 finds the match in the bytes, from left to right; here it is any way of cutting the text into the pattern's parts.
 */
module LspHeader {
  import opened Sequences
  import opened Unicode
  import opened LspFraming
  import Decimal

  /** The flag `i`: the same character, or the other case of a letter. */
  predicate SameLetter(a: char, c: char) {
    || a == c
    || ('a' <= c <= 'z' && a as int == c as int - 32)
    || ('A' <= c <= 'Z' && a as int == c as int + 32)
  }

  predicate IsName(s: string) {
    |s| == 15 && forall i :: 0 <= i < 15 ==> SameLetter(s[i], "Content-Length:"[i])
  }

  /** What `\s` matches. */
  predicate IsSpace(c: char) {
    || c as int in {0x09, 0x0A, 0x0B, 0x0C, 0x0D, 0x20, 0xA0, 0x1680, 0x2028, 0x2029, 0x202F, 0x205F, 0x3000, 0xFEFF}
    || 0x2000 <= c as int <= 0x200A
  }

  predicate AllSpaces(s: string) { forall i :: 0 <= i < |s| ==> IsSpace(s[i]) }

  predicate AllNumerals(s: string) { forall i :: 0 <= i < |s| ==> '0' <= s[i] <= '9' }

  lemma NumeralsAreDigits(s: string)
    requires AllNumerals(s)
    ensures Decimal.AllDigits(Utf8(s)) && |Utf8(s)| == |s|
  {
    AsciiIsItsOwnEncoding(s);
  }

  /** The line is the name, white space, digits and white space, and the digits spell `n`. */
  ghost predicate Matches(line: string, name: string, lead: string, digits: string, trail: string, n: nat) {
    && line == name + (lead + (digits + trail))
    && IsName(name) && AllSpaces(lead) && AllSpaces(trail)
    && digits != "" && AllNumerals(digits)
    && (NumeralsAreDigits(digits); Decimal.Parse(Utf8(digits)) == n)
  }

  // ---- White space ----

  lemma SpaceIsASpace(c: char, rest: seq<Byte>)
    ensures SpaceLength(EncodeChar(c) + rest) == if IsSpace(c) then |EncodeChar(c)| else 0
  {
    var e, b := EncodeChar(c), EncodeChar(c) + rest;
    EncodingIsTheStandards(c);
    assert b[0] == e[0] && (|e| >= 2 ==> b[..2] == e[..2]) && (|e| >= 3 ==> b[..3] == e[..3]);
  }

  function Leading(s: string): (n: nat)
    ensures n <= |s| && AllSpaces(s[..n])
    ensures n < |s| ==> !IsSpace(s[n])
  {
    if s == "" || !IsSpace(s[0]) then 0
    else
      var n := Leading(s[1..]);
      assert forall i :: 1 <= i < n + 1 ==> s[i] == s[1..][..n][i - 1];
      1 + n
  }

  lemma {:induction false} LeadingIs(s: string, n: nat)
    requires n <= |s| && (forall i :: 0 <= i < n ==> IsSpace(s[i])) && (n < |s| ==> !IsSpace(s[n]))
    ensures Leading(s) == n
    decreases n
  {
    if n > 0 {
      LeadingIs(s[1..], n - 1);
    }
  }

  lemma {:induction false} LeadingIsSkipped(s: string)
    ensures SkipSpaces(Utf8(s)) == Utf8(s[Leading(s)..])
  {
    hide SpaceLength, IsSpace;
    if s == "" {
      assert SpaceLength([]) == 0;
    } else {
      SpaceIsASpace(s[0], Utf8(s[1..]));
      if IsSpace(s[0]) {
        LeadingIsSkipped(s[1..]);
        assert Utf8(s)[|EncodeChar(s[0])|..] == Utf8(s[1..]);
        assert s[Leading(s)..] == s[1..][Leading(s[1..])..];
      }
    }
  }

  lemma LeadingOfSpaces(lead: string, rest: string)
    requires AllSpaces(lead) && (rest != "" ==> !IsSpace(rest[0]))
    ensures Leading(lead + rest) == |lead| && (lead + rest)[|lead|..] == rest
  {
    var s, n := lead + rest, |lead|;
    assert forall i :: 0 <= i < n ==> s[i] == lead[i];
    assert rest != "" ==> s[n] == rest[0];
    LeadingIs(s, n);
  }

  // ---- ASCII at the head of a text ----

  /** Leading bytes below 0x80 are leading characters. */
  lemma {:induction false} AsciiHead(s: string, k: nat)
    requires k <= |Utf8(s)| && forall i :: 0 <= i < k ==> Utf8(s)[i] < 0x80
    ensures k <= |s| && Utf8(s)[k..] == Utf8(s[k..])
    ensures forall i :: 0 <= i < k ==> s[i] as int == Utf8(s)[i] as int
    decreases k
  {
    if k == 0 {
      assert s[0..] == s;
    } else {
      EncodingIsTheStandards(s[0]);
      assert Utf8(s)[0] == EncodeChar(s[0])[0];
      assert Utf8(s)[1..] == Utf8(s[1..]);
      AsciiHead(s[1..], k - 1);
      assert s[k..] == s[1..][k - 1..];
    }
  }

  lemma AsciiStart(head: string, rest: string)
    requires IsAscii(head)
    ensures Utf8(head + rest) == Utf8(head) + Utf8(rest) && |Utf8(head)| == |head|
    ensures forall i :: 0 <= i < |head| ==> Utf8(head + rest)[i] as int == head[i] as int
  {
    Utf8Appends(head, rest);
    AsciiIsItsOwnEncoding(head);
  }

  lemma NameLetter(b: Byte, i: nat)
    requires i < 15
    ensures Lower(b) == HEADER_NAME[i] <==> b < 0x80 && SameLetter(b as char, "Content-Length:"[i])
  {}

  /** The name at the head of the bytes is the name at the head of the text. */
  lemma NamesIff(line: string)
    ensures NamesLength(Utf8(line)) <==> |line| >= 15 && IsName(line[..15])
    ensures NamesLength(Utf8(line)) ==> Utf8(line)[15..] == Utf8(line[15..])
  {
    hide NamesLength, IsName, Utf8;
    if NamesLength(Utf8(line)) {
      NamedBytes(line);
    } else if |line| >= 15 && IsName(line[..15]) {
      NamedText(line);
    }
  }

  lemma NamedBytes(line: string)
    requires NamesLength(Utf8(line))
    ensures |line| >= 15 && IsName(line[..15]) && Utf8(line)[15..] == Utf8(line[15..])
  {
    hide SameLetter, Lower, Utf8;
    forall i | 0 <= i < 15 ensures Utf8(line)[i] < 0x80 && SameLetter(Utf8(line)[i] as char, "Content-Length:"[i]) {
      NameLetter(Utf8(line)[i], i);
    }
    AsciiHead(line, 15);
    assert forall i :: 0 <= i < 15 ==> line[..15][i] == Utf8(line)[i] as char;
  }

  lemma NamedText(line: string)
    requires |line| >= 15 && IsName(line[..15])
    ensures NamesLength(Utf8(line))
  {
    hide SameLetter, Lower, Utf8;
    NameIsAscii(line[..15]);
    AsciiStart(line[..15], line[15..]);
    assert line == line[..15] + line[15..];
    forall i | 0 <= i < 15 ensures Lower(Utf8(line)[i]) == HEADER_NAME[i] {
      assert Utf8(line)[i] as int == line[..15][i] as int;
      NameLetter(Utf8(line)[i], i);
    }
  }

  lemma NameIsAscii(s: string)
    requires IsName(s)
    ensures IsAscii(s)
  {
    forall i | 0 <= i < |s| ensures s[i] as int < 0x80 {
      LetterIsAscii(s[i], i);
    }
  }

  lemma LetterIsAscii(a: char, i: nat)
    requires i < 15 && SameLetter(a, "Content-Length:"[i])
    ensures a as int < 0x80
  {}

  // ---- The digits ----

  lemma DigitsAreNumerals(s: string)
    ensures var n := DigitRun(Utf8(s));
            && n <= |s| && AllNumerals(s[..n]) && Utf8(s[..n]) == Utf8(s)[..n] && Utf8(s[n..]) == Utf8(s)[n..]
  {
    hide Utf8, DigitRun;
    var b, n := Utf8(s), DigitRun(Utf8(s));
    assert forall i :: 0 <= i < n ==> b[i] == b[..n][i];
    AsciiHead(s, n);
    AsciiIsItsOwnEncoding(s[..n]);
    forall i | 0 <= i < n ensures Utf8(s[..n])[i] == b[i] {
      assert s[..n][i] == s[i];
    }
    assert Utf8(s[..n]) == b[..n];
  }

  lemma {:induction false} DigitRunIs(b: seq<Byte>, n: nat)
    requires n <= |b| && (forall i :: 0 <= i < n ==> 48 <= b[i] <= 57) && (n < |b| ==> !(48 <= b[n] <= 57))
    ensures DigitRun(b) == n
    decreases n
  {
    if n > 0 {
      DigitRunIs(b[1..], n - 1);
    }
  }

  lemma RunOfNumerals(digits: string, rest: string)
    requires AllNumerals(digits) && (rest != "" ==> !('0' <= rest[0] <= '9'))
    ensures DigitRun(Utf8(digits + rest)) == |digits|
    ensures Utf8(digits + rest)[..|digits|] == Utf8(digits) && Utf8(digits + rest)[|digits|..] == Utf8(rest)
  {
    AsciiStart(digits, rest);
    if rest != "" {
      EncodingIsTheStandards(rest[0]);
    }
    DigitRunIs(Utf8(digits + rest), |digits|);
  }

  // ---- The pattern ----

  /** The decoder's reading of a line's bytes is a match of the pattern with its text, and every match is that one. */
  lemma HeaderPatternIff(line: string, n: nat)
    ensures MatchLine(Utf8(line)) == Some(n)
            <==> exists name, lead, digits, trail :: Matches(line, name, lead, digits, trail, n)
  {
    if MatchLine(Utf8(line)) == Some(n) {
      FoundMatches(line, n);
    } else if name, lead, digits, trail :| Matches(line, name, lead, digits, trail, n) {
      MatchIsFound(line, name, lead, digits, trail, n);
      assert false;
    }
  }

  lemma MatchIsFound(line: string, name: string, lead: string, digits: string, trail: string, n: nat)
    requires Matches(line, name, lead, digits, trail, n)
    ensures MatchLine(Utf8(line)) == Some(n)
  {
    hide SkipSpaces, Utf8, DigitRun, Leading, IsSpace, Decimal.Parse, NamesLength;
    var value := digits + trail;
    assert line[..15] == name && line[15..] == lead + value;
    NamesIff(line);
    NumeralIsNoSpace(digits[0]);
    LeadingOfSpaces(lead, value);
    LeadingIsSkipped(lead + value);
    assert trail != "" ==> IsSpace(trail[0]);
    if trail != "" { SpaceIsNoNumeral(trail[0]); }
    RunOfNumerals(digits, trail);
    LeadingOfSpaces(trail, "");
    assert trail + "" == trail;
    LeadingIsSkipped(trail);
    NoBytes();
  }

  lemma NoBytes()
    ensures Utf8("") == []
  {}

  lemma OnlyNothingIsEmpty(s: string)
    requires Utf8(s) == []
    ensures s == ""
  {}

  lemma NumeralIsNoSpace(c: char)
    requires '0' <= c <= '9'
    ensures !IsSpace(c)
  {}

  lemma SpaceIsNoNumeral(c: char)
    requires IsSpace(c)
    ensures !('0' <= c <= '9')
  {}

  /** The parts of the text that the decoder's reading of the bytes after the name goes through. */
  lemma Parts(rest: string) returns (lead: string, digits: string, trail: string)
    requires var value := SkipSpaces(Utf8(rest));
             DigitRun(value) > 0 && SkipSpaces(value[DigitRun(value)..]) == []
    ensures rest == lead + (digits + trail) && AllSpaces(lead) && AllSpaces(trail)
    ensures digits != "" && AllNumerals(digits)
    ensures var value := SkipSpaces(Utf8(rest)); Utf8(digits) == value[..DigitRun(value)]
  {
    hide SkipSpaces, DigitRun, Leading, IsSpace, Utf8;
    LeadingIsSkipped(rest);
    lead := rest[..Leading(rest)];
    var value := rest[Leading(rest)..];
    DigitsAreNumerals(value);
    var k := DigitRun(Utf8(value));
    digits, trail := value[..k], value[k..];
    LeadingIsSkipped(trail);
    OnlyNothingIsEmpty(trail[Leading(trail)..]);
    assert trail == trail[..Leading(trail)];
    assert value == digits + trail;
  }

  lemma FoundMatches(line: string, n: nat)
    requires MatchLine(Utf8(line)) == Some(n)
    ensures exists name, lead, digits, trail :: Matches(line, name, lead, digits, trail, n)
  {
    hide SkipSpaces, DigitRun, IsSpace, IsName, Decimal.Parse, NamesLength, Utf8;
    NamesIff(line);
    var lead, digits, trail := Parts(line[15..]);
    assert line == line[..15] + line[15..];
    assert Matches(line, line[..15], lead, digits, trail, n);
  }
}
