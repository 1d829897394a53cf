/**
 A JSON codec that meets what `LspPipeline` asks of one: the compact text `JSON.stringify` prints, read back by
 recursive descent. Numbers are integers here.
 */
module JsonText {
  import opened Sequences
  import opened Unicode
  import Decimal
  import opened LspFraming
  import opened UriTransformer
  import opened LspPipeline

  // ---- Strings ----

  function Hex(n: nat): (c: char)
    requires n < 16
    ensures c !in {'\r', '"', '\\'}
  {
    if n < 10 then (48 + n) as char else (87 + n) as char
  }

  function Unhex(c: char): Option<nat> {
    if '0' <= c <= '9' then Some(c as int - 48)
    else if 'a' <= c <= 'f' then Some(c as int - 87)
    else None
  }

  function Escape(c: char): (e: string)
    ensures e != "" && e[0] != '"' && '\r' !in e
  {
    if c == '"' then "\\\""
    else if c == '\\' then "\\\\"
    else if c == '\n' then "\\n"
    else if c == '\r' then "\\r"
    else if c == '\t' then "\\t"
    else if c as int == 8 then "\\b"
    else if c as int == 12 then "\\f"
    else if c as int < 32 then ['\\', 'u', '0', '0', Hex(c as int / 16), Hex(c as int % 16)]
    else [c]
  }

  /** What follows a backslash. */
  function Unescape(s: string): (r: Option<(char, string)>)
    ensures r.Some? ==> |r.value.1| < |s|
  {
    if s == "" then None
    else if s[0] == '"' || s[0] == '\\' || s[0] == '/' then Some((s[0], s[1..]))
    else if s[0] == 'n' then Some(('\n', s[1..]))
    else if s[0] == 'r' then Some(('\r', s[1..]))
    else if s[0] == 't' then Some(('\t', s[1..]))
    else if s[0] == 'b' then Some((8 as char, s[1..]))
    else if s[0] == 'f' then Some((12 as char, s[1..]))
    else if |s| >= 5 && s[..3] == "u00" && Unhex(s[3]).Some? && Unhex(s[4]).Some? then
      Some(((Unhex(s[3]).value * 16 + Unhex(s[4]).value) as char, s[5..]))
    else None
  }

  function ReadChar(s: string): (r: Option<(char, string)>)
    ensures r.Some? ==> |r.value.1| < |s|
  {
    if s == "" || s[0] == '"' || s[0] as int < 32 then None
    else if s[0] == '\\' then Unescape(s[1..])
    else Some((s[0], s[1..]))
  }

  /** The characters of a string and its closing quote. */
  function Body(t: string): string {
    if t == "" then "\"" else Escape(t[0]) + Body(t[1..])
  }

  function ReadBody(s: string): (r: Option<(string, string)>)
    ensures r.Some? ==> |r.value.1| < |s|
    decreases |s|
  {
    if s != "" && s[0] == '"' then Some(("", s[1..]))
    else
      match ReadChar(s)
      case None => None
      case Some((c, more)) =>
        match ReadBody(more)
        case None => None
        case Some((t, rest)) => Some(([c] + t, rest))
  }

  lemma HexRoundTrip(n: nat)
    requires n < 16
    ensures Unhex(Hex(n)) == Some(n)
  {}

  lemma CharRoundTrip(c: char, more: string)
    ensures ReadChar(Escape(c) + more) == Some((c, more))
  {
    var s := Escape(c) + more;
    assert s[|Escape(c)|..] == more;
    if c as int < 32 && |Escape(c)| == 6 {
      HexRoundTrip(c as int / 16);
      HexRoundTrip(c as int % 16);
      assert s[1..][..3] == "u00" && s[1..][5..] == more;
    } else if |Escape(c)| == 2 {
      assert s[1..][1..] == more;
    }
  }

  lemma {:induction false} BodyRoundTrip(t: string, rest: string)
    ensures ReadBody(Body(t) + rest) == Some((t, rest))
    ensures '\r' !in Body(t)
  {
    if t == "" {
      assert (Body(t) + rest)[1..] == rest;
    } else {
      hide ReadChar, Escape;
      var more := Body(t[1..]) + rest;
      Associative(Escape(t[0]), Body(t[1..]), rest);
      CharRoundTrip(t[0], more);
      BodyRoundTrip(t[1..], rest);
      assert (Escape(t[0]) + more)[0] == Escape(t[0])[0];
      assert [t[0]] + t[1..] == t;
    }
  }

  // ---- Numbers ----

  function Numeral(n: int): (s: string)
    ensures s != "" && (s[0] == '-' || '0' <= s[0] <= '9')
  {
    if n < 0 then "-" + Decimal.Print(-n) else Decimal.Print(n)
  }

  function DigitCount(s: string): (n: nat)
    ensures n <= |s| && forall i :: 0 <= i < n ==> '0' <= s[i] <= '9'
  {
    if s == "" || !('0' <= s[0] <= '9') then 0
    else
      var n := DigitCount(s[1..]);
      assert forall i :: 1 <= i <= n ==> s[i] == s[1..][i - 1];
      1 + n
  }

  lemma DigitsEncode(d: string)
    requires forall i :: 0 <= i < |d| ==> '0' <= d[i] <= '9'
    ensures Decimal.AllDigits(Utf8(d))
  {
    AsciiIsItsOwnEncoding(d);
  }

  function ReadNatural(s: string): (r: Option<(nat, string)>)
    ensures r.Some? ==> |r.value.1| < |s|
  {
    var n := DigitCount(s);
    DigitsEncode(s[..n]);
    if n == 0 then None else Some((Decimal.Parse(Utf8(s[..n])), s[n..]))
  }

  function ReadNumber(s: string): (r: Option<(int, string)>)
    requires s != ""
    ensures r.Some? ==> |r.value.1| < |s|
  {
    if s[0] == '-' then
      match ReadNatural(s[1..])
      case None => None
      case Some((n, rest)) => Some((0 - n, rest))
    else
      match ReadNatural(s)
      case None => None
      case Some((n, rest)) => Some((n, rest))
  }

  /** A numeral needs something other than a digit behind it. */
  predicate Ends(rest: string) { rest == "" || !('0' <= rest[0] <= '9') }

  lemma {:induction false} DigitCountStops(d: string, rest: string)
    requires Ends(rest) && forall i :: 0 <= i < |d| ==> '0' <= d[i] <= '9'
    ensures DigitCount(d + rest) == |d|
  {
    if d == "" {
      assert d + rest == rest;
    } else {
      assert (d + rest)[0] == d[0] && (d + rest)[1..] == d[1..] + rest;
      DigitCountStops(d[1..], rest);
    }
  }

  lemma NaturalRoundTrip(n: nat, rest: string)
    requires Ends(rest)
    ensures ReadNatural(Decimal.Print(n) + rest) == Some((n, rest))
  {
    hide Decimal.Print, Decimal.Parse, Utf8;
    var d := Decimal.Print(n);
    DigitCountStops(d, rest);
    assert (d + rest)[..|d|] == d && (d + rest)[|d|..] == rest;
    Decimal.ParseUndoesPrint(n);
  }

  lemma NumberRoundTrip(n: int, rest: string)
    requires Ends(rest)
    ensures ReadNumber(Numeral(n) + rest) == Some((n, rest))
  {
    hide Decimal.Print, ReadNatural, DigitCount, Decimal.Parse, Utf8;
    if n < 0 {
      NegativeRoundTrip(n, rest);
    } else {
      NaturalRoundTrip(n, rest);
      Unsigned(n, rest);
    }
  }

  lemma NegativeRoundTrip(n: int, rest: string)
    requires n < 0 && Ends(rest)
    ensures ReadNumber(Numeral(n) + rest) == Some((n, rest))
  {
    hide Decimal.Print, ReadNatural, DigitCount, Decimal.Parse, Utf8;
    var s := Numeral(n) + rest;
    assert s[0] == '-' && s[1..] == Decimal.Print(-n) + rest;
    NaturalRoundTrip(-n, rest);
    hide Numeral;
  }

  lemma Unsigned(n: nat, rest: string)
    ensures (Numeral(n) + rest)[0] != '-' && Numeral(n) + rest == Decimal.Print(n) + rest
  {
    hide Decimal.Print;
    assert (Numeral(n) + rest)[0] == Decimal.Print(n)[0];
  }

  // ---- Values ----

  function Comma(first: bool): string { if first then "" else "," }

  function Write(v: Json): (s: string)
    ensures s != "" && s[0] !in {']', '}', ','}
  {
    match v
    case Null => "null"
    case Bool(b) => if b then "true" else "false"
    case Number(n) => Numeral(n)
    case Str(t) => "\"" + Body(t)
    case Arr(items) => "[" + WriteItems(items, true)
    case Obj(members) => "{" + WriteMembers(members, true)
  }

  function WriteItems(items: seq<Json>, first: bool): string {
    if items == [] then "]" else Comma(first) + (Write(items[0]) + WriteItems(items[1..], false))
  }

  function WriteMember(m: Member): string { "\"" + (Body(m.key) + (":" + Write(m.value))) }

  function WriteMembers(members: seq<Member>, first: bool): string {
    if members == [] then "}" else Comma(first) + (WriteMember(members[0]) + WriteMembers(members[1..], false))
  }

  function Read(s: string): (r: Option<(Json, string)>)
    ensures r.Some? ==> |r.value.1| < |s|
    decreases |s|, 0
  {
    if s == "" then None
    else if StartsWith(s, "null") then Some((Null, s[4..]))
    else if StartsWith(s, "true") then Some((Bool(true), s[4..]))
    else if StartsWith(s, "false") then Some((Bool(false), s[5..]))
    else if s[0] == '"' then
      match ReadBody(s[1..])
      case None => None
      case Some((t, rest)) => Some((Str(t), rest))
    else if s[0] == '[' then
      match ReadItems(s[1..], true)
      case None => None
      case Some((items, rest)) => Some((Arr(items), rest))
    else if s[0] == '{' then
      match ReadMembers(s[1..], true)
      case None => None
      case Some((members, rest)) => Some((Obj(members), rest))
    else
      match ReadNumber(s)
      case None => None
      case Some((n, rest)) => Some((Number(n), rest))
  }

  function ReadItems(s: string, first: bool): (r: Option<(seq<Json>, string)>)
    ensures r.Some? ==> |r.value.1| < |s|
    decreases |s|, 1
  {
    if s == "" then None
    else if s[0] == ']' then Some(([], s[1..]))
    else if !first && s[0] != ',' then None
    else
      match Read(if first then s else s[1..])
      case None => None
      case Some((v, more)) =>
        match ReadItems(more, false)
        case None => None
        case Some((items, rest)) => Some(([v] + items, rest))
  }

  function ReadMember(s: string): (r: Option<(Member, string)>)
    ensures r.Some? ==> |r.value.1| < |s|
    decreases |s|, 0
  {
    if s == "" || s[0] != '"' then None
    else
      match ReadBody(s[1..])
      case None => None
      case Some((key, more)) =>
        if more == "" || more[0] != ':' then None
        else
          match Read(more[1..])
          case None => None
          case Some((v, rest)) => Some((Member(key, v), rest))
  }

  function ReadMembers(s: string, first: bool): (r: Option<(seq<Member>, string)>)
    ensures r.Some? ==> |r.value.1| < |s|
    decreases |s|, 1
  {
    if s == "" then None
    else if s[0] == '}' then Some(([], s[1..]))
    else if !first && s[0] != ',' then None
    else
      match ReadMember(if first then s else s[1..])
      case None => None
      case Some((m, more)) =>
        match ReadMembers(more, false)
        case None => None
        case Some((members, rest)) => Some(([m] + members, rest))
  }

  lemma LiteralRoundTrip(v: Json, rest: string)
    requires v.Null? || v.Bool?
    ensures Read(Write(v) + rest) == Some((v, rest))
  {
    var s := Write(v) + rest;
    assert s[..|Write(v)|] == Write(v) && s[|Write(v)|..] == rest;
    assert s[0] == Write(v)[0];
    if v == Bool(true) {
      assert s[..4][0] == 't' && "null"[0] == 'n';
    } else if v == Bool(false) {
      assert s[..4][0] == 'f' && "null"[0] == 'n' && "true"[0] == 't';
    }
  }

  /** Nothing but the literals starts with their first letters. */
  lemma NoLiteral(s: string)
    requires s != "" && s[0] !in {'n', 't', 'f'}
    ensures !StartsWith(s, "null") && !StartsWith(s, "true") && !StartsWith(s, "false")
  {
    if |s| >= 4 {
      assert s[..4][0] == s[0] && "null"[0] == 'n' && "true"[0] == 't';
    }
    if |s| >= 5 {
      assert s[..5][0] == s[0] && "false"[0] == 'f';
    }
  }

  lemma ReadNumeral(s: string)
    requires s != "" && (s[0] == '-' || '0' <= s[0] <= '9')
    ensures Read(s) == match ReadNumber(s) case None => None case Some((n, rest)) => Some((Number(n), rest))
  {
    NoLiteral(s);
  }

  /** Reading undoes writing, and leaves what follows alone. */
  lemma {:induction false} ReadUndoesWrite(v: Json, rest: string)
    requires Ends(rest)
    ensures Read(Write(v) + rest) == Some((v, rest))
    decreases v
  {
    hide ReadNumber, ReadBody, Body, ReadItems, ReadMembers, WriteItems, WriteMembers, StartsWith;
    var s := Write(v) + rest;
    match v
    case Null | Bool(_) =>
      LiteralRoundTrip(v, rest);
    case Number(n) =>
      ReadNumeral(s);
      NumberRoundTrip(n, rest);
    case Str(t) =>
      NoLiteral(s);
      assert s[1..] == Body(t) + rest;
      BodyRoundTrip(t, rest);
    case Arr(items) =>
      NoLiteral(s);
      assert s[1..] == WriteItems(items, true) + rest;
      ItemsRoundTrip(items, true, rest);
    case Obj(members) =>
      NoLiteral(s);
      assert s[1..] == WriteMembers(members, true) + rest;
      MembersRoundTrip(members, true, rest);
  }

  lemma {:induction false} ItemsRoundTrip(items: seq<Json>, first: bool, rest: string)
    ensures ReadItems(WriteItems(items, first) + rest, first) == Some((items, rest))
    ensures !first ==> Ends(WriteItems(items, first) + rest)
    decreases items
  {
    hide Read, Write;
    var s := WriteItems(items, first) + rest;
    if items == [] {
      assert s[1..] == rest;
    } else {
      var tail := WriteItems(items[1..], false) + rest;
      assert s == Comma(first) + (Write(items[0]) + tail);
      ItemsRoundTrip(items[1..], false, rest);
      ReadUndoesWrite(items[0], tail);
      assert (Write(items[0]) + tail)[0] == Write(items[0])[0];
      assert (if first then s else s[1..]) == Write(items[0]) + tail;
      assert [items[0]] + items[1..] == items;
    }
  }

  lemma {:induction false} MembersRoundTrip(members: seq<Member>, first: bool, rest: string)
    ensures ReadMembers(WriteMembers(members, first) + rest, first) == Some((members, rest))
    ensures !first ==> Ends(WriteMembers(members, first) + rest)
    decreases members
  {
    hide ReadMember, WriteMember;
    var s := WriteMembers(members, first) + rest;
    if members == [] {
      assert s[1..] == rest;
    } else {
      var tail := WriteMembers(members[1..], false) + rest;
      assert s == Comma(first) + (WriteMember(members[0]) + tail);
      MembersRoundTrip(members[1..], false, rest);
      MemberRoundTrip(members[0], tail);
      assert (if first then s else s[1..]) == WriteMember(members[0]) + tail;
      assert [members[0]] + members[1..] == members;
    }
  }

  lemma {:induction false} MemberRoundTrip(m: Member, rest: string)
    requires Ends(rest)
    ensures ReadMember(WriteMember(m) + rest) == Some((m, rest))
    ensures (WriteMember(m) + rest)[0] == '"'
    decreases m
  {
    hide Read, Write, ReadBody, Body;
    var s := WriteMember(m) + rest;
    var more := ":" + Write(m.value) + rest;
    assert s[1..] == Body(m.key) + more;
    BodyRoundTrip(m.key, more);
    assert more[1..] == Write(m.value) + rest;
    ReadUndoesWrite(m.value, rest);
  }

  // ---- No raw carriage return ----

  lemma {:induction false} WritesNoReturn(v: Json)
    ensures '\r' !in Write(v)
    decreases v
  {
    match v
    case Null =>
    case Bool(_) =>
    case Number(n) =>
    case Str(t) => BodyRoundTrip(t, "");
    case Arr(items) => ItemsWriteNoReturn(items, true);
    case Obj(members) => MembersWriteNoReturn(members, true);
  }

  lemma {:induction false} ItemsWriteNoReturn(items: seq<Json>, first: bool)
    ensures '\r' !in WriteItems(items, first)
    decreases items
  {
    hide Write;
    if items != [] {
      WritesNoReturn(items[0]);
      ItemsWriteNoReturn(items[1..], false);
    }
  }

  lemma {:induction false} MembersWriteNoReturn(members: seq<Member>, first: bool)
    ensures '\r' !in WriteMembers(members, first)
    decreases members
  {
    hide Write, Body;
    if members != [] {
      BodyRoundTrip(members[0].key, "");
      WritesNoReturn(members[0].value);
      MembersWriteNoReturn(members[1..], false);
    }
  }

  // ---- ASCII texts are those of ASCII trees ----

  predicate AsciiTree(v: Json) {
    match v
    case Str(t) => IsAscii(t)
    case Arr(items) => forall i :: 0 <= i < |items| ==> AsciiTree(items[i])
    case Obj(members) => forall i :: 0 <= i < |members| ==> IsAscii(members[i].key) && AsciiTree(members[i].value)
    case _ => true
  }

  lemma AsciiJoins(s: string, t: string)
    ensures IsAscii(s + t) <==> IsAscii(s) && IsAscii(t)
  {
    assert forall i :: 0 <= i < |s| ==> (s + t)[i] == s[i];
    assert forall i :: 0 <= i < |t| ==> (s + t)[|s| + i] == t[i];
  }

  lemma {:induction false} BodyIsAsciiIff(t: string)
    ensures IsAscii(Body(t)) <==> IsAscii(t)
  {
    if t != "" {
      BodyIsAsciiIff(t[1..]);
      AsciiJoins(Escape(t[0]), Body(t[1..]));
      AsciiJoins([t[0]], t[1..]);
      assert t == [t[0]] + t[1..];
      EscapeIsAsciiIff(t[0]);
    }
  }

  lemma EscapeIsAsciiIff(c: char)
    ensures IsAscii(Escape(c)) <==> IsAscii([c])
  {
    assert Escape(c)[0] == c || c as int < 0x80;
  }

  lemma {:induction false} WriteIsAsciiIff(v: Json)
    ensures IsAscii(Write(v)) <==> AsciiTree(v)
    decreases v
  {
    match v
    case Null =>
    case Bool(_) =>
    case Number(n) =>
    case Str(t) =>
      AsciiJoins("\"", Body(t));
      BodyIsAsciiIff(t);
    case Arr(items) =>
      AsciiJoins("[", WriteItems(items, true));
      ItemsAreAsciiIff(items, true);
    case Obj(members) =>
      AsciiJoins("{", WriteMembers(members, true));
      MembersAreAsciiIff(members, true);
  }

  lemma {:induction false} ItemsAreAsciiIff(items: seq<Json>, first: bool)
    ensures IsAscii(WriteItems(items, first)) <==> AsciiTree(Arr(items))
    decreases items
  {
    hide Write;
    if items != [] {
      var head, tail := Write(items[0]), WriteItems(items[1..], false);
      AsciiJoins(Comma(first), head + tail);
      AsciiJoins(head, tail);
      WriteIsAsciiIff(items[0]);
      ItemsAreAsciiIff(items[1..], false);
      assert forall i :: 1 <= i < |items| ==> items[i] == items[1..][i - 1];
    }
  }

  lemma {:induction false} MembersAreAsciiIff(members: seq<Member>, first: bool)
    ensures IsAscii(WriteMembers(members, first)) <==> AsciiTree(Obj(members))
    decreases members
  {
    hide Write, Body;
    if members != [] {
      var m, tail := members[0], WriteMembers(members[1..], false);
      AsciiJoins(Comma(first), WriteMember(m) + tail);
      AsciiJoins(WriteMember(m), tail);
      AsciiJoins("\"", Body(m.key) + (":" + Write(m.value)));
      AsciiJoins(Body(m.key), ":" + Write(m.value));
      AsciiJoins(":", Write(m.value));
      BodyIsAsciiIff(m.key);
      WriteIsAsciiIff(m.value);
      MembersAreAsciiIff(members[1..], false);
      assert forall i :: 1 <= i < |members| ==> members[i] == members[1..][i - 1];
    }
  }

  // ---- The codec ----

  function ReadAll(text: string): Option<Json> {
    match Read(text)
    case None => None
    case Some((v, rest)) => if rest == "" then Some(v) else None
  }

  const COMPACT := Codec(Write, ReadAll)

  lemma CompactUnderstandsItself()
    ensures Understands(COMPACT, COMPACT)
  {
    hide Read, Write;
    forall v: Json ensures ReadAll(Write(v)) == Some(v) && '\r' !in Write(v) {
      assert Write(v) + "" == Write(v);
      ReadUndoesWrite(v, "");
      WritesNoReturn(v);
    }
  }

  /**
   End to end with this codec, nothing assumed: the request's bytes, cut anyhow, arrive as one intact frame with
   nothing left over exactly when every key and every string of the rewritten tree is ASCII, and the frame is the
   rewritten request.
   */
  lemma CompactRequestArrives(root: string, j: Json, chunks: seq<seq<Byte>>)
    requires UniqueKeys(j) && j.Obj?
    requires Concat(chunks) == Utf8(TransformMessage(COMPACT, ToContainer, root, Format(COMPACT, j)))
    ensures ReceiveAll(chunks) == Decoded([Concat(chunks)], [], false) <==> AsciiTree(Rewrite(ToContainer, root, j))
    ensures forall text :: Utf8(text) == Concat(chunks) ==>
              Parse(COMPACT, text) == Some(Rewrite(ToContainer, root, j))
  {
    hide Understands, Rewrite, Write, AsciiTree;
    CompactUnderstandsItself();
    RequestArrives(COMPACT, COMPACT, COMPACT, root, j, chunks);
    WriteIsAsciiIff(Rewrite(ToContainer, root, j));
  }

  /** Nothing in the text needs an escape. */
  predicate IsPlain(t: string) { forall i :: 0 <= i < |t| ==> t[i] as int >= 32 && t[i] != '"' && t[i] != '\\' }

  lemma {:induction false} PlainBody(t: string)
    requires IsPlain(t)
    ensures Body(t) == t + "\""
  {
    if t != "" {
      PlainBody(t[1..]);
      assert t == [t[0]] + t[1..];
    }
  }

  /** What the text looks like: plain strings as they are, commas between, a colon after each key. */
  lemma PlainStringIsWritten(t: string)
    requires IsPlain(t)
    ensures Write(Str(t)) == "\"" + t + "\""
  {
    PlainBody(t);
  }

  lemma Bracketed(open: string, a: string, b: string, close: string)
    ensures open + ("" + (a + ("," + (b + close)))) == open + a + "," + b + close
  {
    Associative(a, ",", b + close);
    Associative(a + ",", b, close);
    Associative(open, a + "," + b, close);
    Associative(open, a + ",", b);
    Associative(open, a, ",");
    assert "" + (a + ("," + (b + close))) == a + ("," + (b + close));
  }

  lemma PairIsWritten(v: Json, w: Json)
    ensures Write(Arr([v, w])) == "[" + Write(v) + "," + Write(w) + "]"
  {
    var a, b := Write(v), Write(w);
    var items := [v, w];
    assert items[1..] == [w] && [w][1..] == [];
    assert Write(Arr(items)) == "[" + WriteItems(items, true);
    hide Write;
    assert WriteItems(items, true) == "" + (a + WriteItems([w], false));
    assert WriteItems([w], false) == "," + (b + WriteItems([], false));
    hide *;
    Bracketed("[", a, b, "]");
  }

  lemma MemberIsWritten(key: string, v: Json)
    requires IsPlain(key)
    ensures WriteMember(Member(key, v)) == "\"" + key + "\":" + Write(v)
  {
    hide Write;
    PlainBody(key);
  }

  lemma ObjectIsWritten(m: Member, n: Member)
    ensures Write(Obj([m, n])) == "{" + WriteMember(m) + "," + WriteMember(n) + "}"
  {
    var a, b := WriteMember(m), WriteMember(n);
    var members := [m, n];
    assert members[1..] == [n] && [n][1..] == [];
    assert Write(Obj(members)) == "{" + WriteMembers(members, true);
    hide Write, WriteMember;
    assert WriteMembers(members, true) == "" + (a + WriteMembers([n], false));
    assert WriteMembers([n], false) == "," + (b + WriteMembers([], false));
    hide *;
    Bracketed("{", a, b, "}");
  }
}
