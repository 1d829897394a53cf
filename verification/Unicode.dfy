/**
 Text and its two lengths. A `string` here is a sequence of Unicode scalar values; JavaScript and Dart report
 its length in UTF-16 units, the wire carries its UTF-8 bytes (RFC 3629, section 3).
 */
module Unicode {
  import opened Sequences

  newtype Byte = x: int | 0 <= x < 256

  function Trail(n: nat): Byte { (0x80 + n % 64) as Byte }

  function EncodeChar(c: char): (bytes: seq<Byte>)
    ensures 1 <= |bytes| <= 4
  {
    var n := c as int;
    if n < 0x80 then [n as Byte]
    else if n < 0x800 then [(0xC0 + n / 64) as Byte, Trail(n)]
    else if n < 0x10000 then [(0xE0 + n / 4096) as Byte, Trail(n / 64), Trail(n)]
    else [(0xF0 + n / 262144) as Byte, Trail(n / 4096), Trail(n / 64), Trail(n)]
  }

  function Utf8(s: string): (bytes: seq<Byte>) {
    if s == "" then [] else EncodeChar(s[0]) + Utf8(s[1..])
  }

  function Utf16Length(s: string): nat {
    if s == "" then 0 else (if s[0] as int < 0x10000 then 1 else 2) + Utf16Length(s[1..])
  }

  predicate IsAscii(s: string) {
    forall i :: 0 <= i < |s| ==> s[i] as int < 0x80
  }

  lemma {:induction false} Utf8Appends(s: string, t: string)
    ensures Utf8(s + t) == Utf8(s) + Utf8(t)
  {
    if s == "" {
      assert s + t == t;
    } else {
      calc {
        Utf8(s + t);
        { assert (s + t)[0] == s[0] && (s + t)[1..] == s[1..] + t; }
        EncodeChar(s[0]) + Utf8(s[1..] + t);
        { Utf8Appends(s[1..], t); }
        EncodeChar(s[0]) + (Utf8(s[1..]) + Utf8(t));
        { Associative(EncodeChar(s[0]), Utf8(s[1..]), Utf8(t)); }
        (EncodeChar(s[0]) + Utf8(s[1..])) + Utf8(t);
        Utf8(s) + Utf8(t);
      }
    }
  }

  lemma {:induction false} Utf16Appends(s: string, t: string)
    ensures Utf16Length(s + t) == Utf16Length(s) + Utf16Length(t)
  {
    if s == "" {
      assert s + t == t;
    } else {
      Utf16Appends(s[1..], t);
      assert (s + t)[0] == s[0] && (s + t)[1..] == s[1..] + t;
    }
  }

  /** ASCII text is its own encoding, one byte and one unit a character. */
  lemma {:induction false} AsciiIsItsOwnEncoding(s: string)
    requires IsAscii(s)
    ensures |Utf8(s)| == |s| == Utf16Length(s)
    ensures forall i :: 0 <= i < |s| ==> Utf8(s)[i] == s[i] as Byte
  {
    if s != "" {
      assert forall i :: 0 <= i < |s[1..]| ==> s[1..][i] == s[i + 1];
      AsciiIsItsOwnEncoding(s[1..]);
      assert Utf8(s) == [s[0] as Byte] + Utf8(s[1..]);
    }
  }

  /** The two lengths of a text bound each other, and they meet on ASCII text only. */
  lemma {:induction false} LengthDrift(s: string)
    ensures Utf16Length(s) <= |Utf8(s)| <= 3 * Utf16Length(s)
    ensures Utf16Length(s) == |Utf8(s)| <==> IsAscii(s)
  {
    if s != "" {
      LengthDrift(s[1..]);
      assert IsAscii(s) <==> s[0] as int < 0x80 && IsAscii(s[1..]) by {
        assert forall i :: 1 <= i < |s| ==> s[i] == s[1..][i - 1];
      }
    }
  }

  // ---- What `.length` counts ----

  /** The UTF-16 units of a text: a character from 0x10000 on is a surrogate pair. */
  function Units(s: string): seq<int> {
    if s == "" then []
    else
      var n := s[0] as int;
      (if n < 0x10000 then [n] else [0xD800 + (n - 0x10000) / 0x400, 0xDC00 + (n - 0x10000) % 0x400]) + Units(s[1..])
  }

  /** What a sequence of units spells, if it spells a text. */
  function Spell(units: seq<int>): Option<string>
    decreases |units|
  {
    if units == [] then Some("")
    else if 0 <= units[0] < 0xD800 || 0xE000 <= units[0] < 0x10000 then Before(units[0] as char, Spell(units[1..]))
    else if 0xD800 <= units[0] < 0xDC00 && |units| > 1 && 0xDC00 <= units[1] < 0xE000 then
      Before((0x10000 + (units[0] - 0xD800) * 0x400 + (units[1] - 0xDC00)) as char, Spell(units[2..]))
    else None
  }

  function Before(c: char, rest: Option<string>): Option<string> {
    match rest
    case None => None
    case Some(s) => Some([c] + s)
  }

  /** `Utf16Length` is the number of units, and the units are the text's: it can be read back from them. */
  lemma {:induction false} UnitsSpellTheText(s: string)
    ensures |Units(s)| == Utf16Length(s)
    ensures Spell(Units(s)) == Some(s)
  {
    if s != "" {
      UnitsSpellTheText(s[1..]);
      var n := s[0] as int;
      var head := if n < 0x10000 then [n] else [0xD800 + (n - 0x10000) / 0x400, 0xDC00 + (n - 0x10000) % 0x400];
      assert Units(s)[|head|..] == Units(s[1..]);
      assert s == [s[0]] + s[1..];
    }
  }

  /** Positions of `s` whose character is at least `n`. */
  function From(s: string, n: int): set<int> { set i | 0 <= i < |s| && s[i] as int >= n }

  lemma FromLast(s: string, n: int)
    requires s != ""
    ensures |From(s, n)| == |From(s[..|s| - 1], n)| + if s[|s| - 1] as int >= n then 1 else 0
  {
    var last := |s| - 1;
    assert From(s, n) == From(s[..last], n) + (if s[last] as int >= n then {last} else {});
  }

  lemma LastCounts(s: string)
    requires s != ""
    ensures var last := |s| - 1;
            && Utf16Length(s) == Utf16Length(s[..last]) + (if s[last] as int < 0x10000 then 1 else 2)
            && |Utf8(s)| == |Utf8(s[..last])| + |EncodeChar(s[last])|
  {
    var last := |s| - 1;
    assert s == s[..last] + [s[last]];
    Utf16Appends(s[..last], [s[last]]);
    Utf8Appends(s[..last], [s[last]]);
    assert [s[last]][1..] == "";
  }

  /** The announced length is the number of characters, those from 0x10000 on counted twice. */
  lemma {:induction false} Utf16LengthIs(s: string)
    ensures Utf16Length(s) == |s| + |set i | 0 <= i < |s| && s[i] as int >= 0x10000|
  {
    assert From(s, 0x10000) == set i | 0 <= i < |s| && s[i] as int >= 0x10000;
    if s != "" {
      var init := s[..|s| - 1];
      Utf16LengthIs(init);
      assert From(init, 0x10000) == set i | 0 <= i < |init| && init[i] as int >= 0x10000;
      FromLast(s, 0x10000);
      LastCounts(s);
    }
  }

  lemma {:induction false} DriftFrom(s: string)
    ensures |Utf8(s)| == Utf16Length(s) + |From(s, 0x80)| + |From(s, 0x800)|
  {
    if s != "" {
      DriftFrom(s[..|s| - 1]);
      FromLast(s, 0x80);
      FromLast(s, 0x800);
      LastCounts(s);
    }
  }

  /** The bytes exceed the units by one for each character from 0x80 to 0x7FF, and by two for each from 0x800 on. */
  lemma DriftIs(s: string)
    ensures |Utf8(s)| - Utf16Length(s)
            == |set i | 0 <= i < |s| && 0x80 <= s[i] as int < 0x800|
               + 2 * |set i | 0 <= i < |s| && s[i] as int >= 0x800|
  {
    DriftFrom(s);
    var middle := set i | 0 <= i < |s| && 0x80 <= s[i] as int < 0x800;
    var high := set i | 0 <= i < |s| && s[i] as int >= 0x800;
    assert From(s, 0x800) == high;
    assert From(s, 0x80) == middle + high && middle !! high;
  }

  // ---- Reading the bytes back ----

  /** The number of bytes a lead byte announces. */
  function Announced(lead: Byte): nat {
    if lead < 0x80 then 1 else if lead < 0xE0 then 2 else if lead < 0xF0 then 3 else 4
  }

  /** The bits a lead byte has above `mark`, then six of each continuation byte. */
  function Value(b: seq<Byte>, mark: int): int
    requires b != []
  {
    if |b| == 1 then b[0] as int - mark
    else Value(b[..|b| - 1], mark) * 64 + (b[|b| - 1] as int - 0x80)
  }

  function Mark(lead: Byte): int {
    if lead < 0x80 then 0 else if lead < 0xE0 then 0xC0 else if lead < 0xF0 then 0xE0 else 0xF0
  }

  function Spelled(b: seq<Byte>): int
    requires b != []
  {
    Value(b, Mark(b[0]))
  }

  lemma EncodingIsReadable(c: char)
    ensures |EncodeChar(c)| == Announced(EncodeChar(c)[0])
    ensures Spelled(EncodeChar(c)) == c as int
  {
    var n, b := c as int, EncodeChar(c);
    assert n / 4096 == n / 64 / 64 && n / 262144 == n / 64 / 64 / 64;
    Values(b, Mark(b[0]));
  }

  lemma Values(b: seq<Byte>, mark: int)
    requires b != []
    ensures |b| == 1 ==> Value(b, mark) == b[0] as int - mark
    ensures |b| == 2 ==> Value(b, mark) == (b[0] as int - mark) * 64 + (b[1] as int - 0x80)
    ensures |b| == 3 ==>
              Value(b, mark) == ((b[0] as int - mark) * 64 + (b[1] as int - 0x80)) * 64 + (b[2] as int - 0x80)
    ensures |b| == 4 ==>
              Value(b, mark) == (((b[0] as int - mark) * 64 + (b[1] as int - 0x80)) * 64 + (b[2] as int - 0x80)) * 64
                                + (b[3] as int - 0x80)
  {
    if 2 <= |b| <= 4 {
      Values(b[..|b| - 1], mark);
    }
  }

  /** Section 3 of RFC 3629: how many bytes, which lead byte, then continuation bytes, and the value they carry. */
  lemma EncodingIsTheStandards(c: char)
    ensures var n, b := c as int, EncodeChar(c);
            && |b| == (if n < 0x80 then 1 else if n < 0x800 then 2 else if n < 0x10000 then 3 else 4)
            && (forall i :: 1 <= i < |b| ==> 0x80 <= b[i] < 0xC0)
            && (match |b|
                case 1 => n == b[0] as int
                case 2 => 0xC0 <= b[0] < 0xE0 && n == (b[0] as int - 0xC0) * 0x40 + (b[1] as int - 0x80)
                case 3 =>
                  && 0xE0 <= b[0] < 0xF0
                  && n == (b[0] as int - 0xE0) * 0x1000 + (b[1] as int - 0x80) * 0x40 + (b[2] as int - 0x80)
                case _ =>
                  && 0xF0 <= b[0] < 0xF8
                  && n == (b[0] as int - 0xF0) * 0x40000 + (b[1] as int - 0x80) * 0x1000
                          + (b[2] as int - 0x80) * 0x40 + (b[3] as int - 0x80))
  {
    EncodingIsReadable(c);
    Values(EncodeChar(c), Mark(EncodeChar(c)[0]));
  }

  /** No character's encoding is a prefix of another's. */
  lemma EncodingIsPrefixFree(c: char, d: char, x: seq<Byte>, y: seq<Byte>)
    requires EncodeChar(c) + x == EncodeChar(d) + y
    ensures c == d && x == y
  {
    var e, f := EncodeChar(c), EncodeChar(d);
    EncodingIsReadable(c);
    EncodingIsReadable(d);
    assert e[0] == (e + x)[0] == (f + y)[0] == f[0];
    assert e == (e + x)[..|e|] == (f + y)[..|f|] == f;
    assert x == (e + x)[|e|..] == (f + y)[|f|..] == y;
  }

  /** Bytes that encode a text encode no other. */
  lemma {:induction false} Utf8Injective(s: string, t: string)
    requires Utf8(s) == Utf8(t)
    ensures s == t
  {
    if s != "" && t != "" {
      EncodingIsPrefixFree(s[0], t[0], Utf8(s[1..]), Utf8(t[1..]));
      Utf8Injective(s[1..], t[1..]);
      assert s == [s[0]] + s[1..] && t == [t[0]] + t[1..];
    }
  }

  /** Bytes below 0x80 stand for themselves: a carriage return on the wire is a carriage return in the text. */
  lemma {:induction false} Utf8KeepsOutAscii(s: string, c: char)
    requires c as int < 0x80 && c !in s
    ensures c as Byte !in Utf8(s)
  {
    if s != "" {
      Utf8KeepsOutAscii(s[1..], c);
      assert s[0] != c;
      assert c as Byte !in EncodeChar(s[0]);
    }
  }
}
