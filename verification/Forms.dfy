/** The form serializer and the standard parser that inverts it. */
module Forms {
  type Byte = b: int | 0 <= b < 256

  type Bytes = seq<Byte>

  datatype Entry = Entry(name: Bytes, value: Bytes)

  datatype Result = Encoded(text: Bytes) | TooLarge

  const MAX_FORM_ENTRIES: nat := 1000
  const MAX_ENCODED_FORM_BYTES: nat := 0x10_0000

  const AMPERSAND: Byte := 0x26
  const EQUALS: Byte := 0x3D
  const PLUS: Byte := 0x2B
  const PERCENT: Byte := 0x25
  const SPACE: Byte := 0x20

  /** U+FFFD, encoded. */
  const REPLACEMENT: Bytes := [0xEF, 0xBF, 0xBD]

  // ---------------------------------------------------------------- UTF-8

  predicate Continues(b: Byte) {
    0x80 <= b <= 0xBF
  }

  /** The bytes allowed after a lead byte: overlong forms, surrogates and values above U+10FFFF are shut out. */
  predicate Follows(lead: Byte, b: Byte) {
    && Continues(b)
    && (lead == 0xE0 ==> 0xA0 <= b)
    && (lead == 0xED ==> b <= 0x9F)
    && (lead == 0xF0 ==> 0x90 <= b)
    && (lead == 0xF4 ==> b <= 0x8F)
  }

  /** The length of the encoded scalar value s starts with; 0 when it starts with none. */
  function RuneLength(s: Bytes): (n: nat)
    requires s != []
    ensures n <= 4 && n <= |s|
  {
    if s[0] < 0x80 then
      1
    else if 0xC2 <= s[0] <= 0xDF && |s| >= 2 && Follows(s[0], s[1]) then
      2
    else if 0xE0 <= s[0] <= 0xEF && |s| >= 3 && Follows(s[0], s[1]) && Continues(s[2]) then
      3
    else if 0xF0 <= s[0] <= 0xF4 && |s| >= 4 && Follows(s[0], s[1]) && Continues(s[2]) && Continues(s[3]) then
      4
    else
      0
  }

  predicate ValidUTF8(s: Bytes) {
    s == [] || (RuneLength(s) > 0 && ValidUTF8(s[RuneLength(s)..]))
  }

  /** Each run of invalid bytes becomes one replacement character; inRun: one was just written. */
  function ToValidUTF8(s: Bytes, inRun: bool): Bytes {
    if s == [] then
      []
    else if RuneLength(s) == 0 then
      (if inRun then [] else REPLACEMENT) + ToValidUTF8(s[1..], true)
    else
      s[..RuneLength(s)] + ToValidUTF8(s[RuneLength(s)..], false)
  }

  predicate Scalar(c: int) {
    0 <= c < 0xD800 || 0xE000 <= c < 0x11_0000
  }

  /** The definition of UTF-8, section 3 of RFC 3629. */
  function EncodeScalar(c: int): Bytes
    requires Scalar(c)
  {
    if c < 0x80 then
      [c]
    else if c < 0x800 then
      [0xC0 + c / 64, 0x80 + c % 64]
    else if c < 0x1_0000 then
      [0xE0 + c / 4096, 0x80 + c / 64 % 64, 0x80 + c % 64]
    else
      [0xF0 + c / 262144, 0x80 + c / 4096 % 64, 0x80 + c / 64 % 64, 0x80 + c % 64]
  }

  /** The scalar value encoded at the start of s. */
  function FirstScalar(s: Bytes): int
    requires s != []
  {
    var n := RuneLength(s);
    if n == 4 then
      (s[0] as int - 0xF0) * 262144 + (s[1] as int - 0x80) * 4096 + (s[2] as int - 0x80) * 64 + (s[3] as int - 0x80)
    else if n == 3 then
      (s[0] as int - 0xE0) * 4096 + (s[1] as int - 0x80) * 64 + (s[2] as int - 0x80)
    else if n == 2 then
      (s[0] as int - 0xC0) * 64 + (s[1] as int - 0x80)
    else
      s[0]
  }

  lemma Halves(high: int, low: int)
    requires 0 <= low < 64
    ensures (high * 64 + low) / 64 == high && (high * 64 + low) % 64 == low
  {
  }

  lemma RuneIsScalar(s: Bytes)
    requires s != [] && RuneLength(s) > 0
    ensures Scalar(FirstScalar(s)) && s[..RuneLength(s)] == EncodeScalar(FirstScalar(s))
  {
    var n := RuneLength(s);
    var c := FirstScalar(s);
    if n == 1 {
      assert s[..1] == [c];
    } else if n == 2 {
      Halves(s[0] as int - 0xC0, s[1] as int - 0x80);
    } else if n == 3 {
      var high := (s[0] as int - 0xE0) * 64 + (s[1] as int - 0x80);
      Halves(high, s[2] as int - 0x80);
      Halves(s[0] as int - 0xE0, s[1] as int - 0x80);
      assert c == high * 64 + (s[2] as int - 0x80);
    } else {
      var top := (s[0] as int - 0xF0) * 64 + (s[1] as int - 0x80);
      var high := top * 64 + (s[2] as int - 0x80);
      Halves(high, s[3] as int - 0x80);
      Halves(top, s[2] as int - 0x80);
      Halves(s[0] as int - 0xF0, s[1] as int - 0x80);
      assert c == high * 64 + (s[3] as int - 0x80);
    }
  }

  lemma ScalarIsRune(c: int, rest: Bytes)
    requires Scalar(c)
    ensures RuneLength(EncodeScalar(c) + rest) == |EncodeScalar(c)|
  {
  }

  function EncodeText(text: seq<int>): Bytes
    requires forall c <- text :: Scalar(c)
  {
    if text == [] then [] else EncodeScalar(text[0]) + EncodeText(text[1..])
  }

  /** A byte string is valid exactly when it is the encoding of some text. */
  lemma {:induction false} ValidMeansText(s: Bytes) returns (text: seq<int>)
    requires ValidUTF8(s)
    ensures forall c <- text :: Scalar(c)
    ensures EncodeText(text) == s
  {
    if s == [] {
      text := [];
    } else {
      var n := RuneLength(s);
      RuneIsScalar(s);
      var rest := ValidMeansText(s[n..]);
      text := [FirstScalar(s)] + rest;
      assert text[1..] == rest && s == s[..n] + s[n..];
    }
  }

  lemma {:induction false} TextIsValid(text: seq<int>)
    requires forall c <- text :: Scalar(c)
    ensures ValidUTF8(EncodeText(text))
  {
    if text != [] {
      TextIsValid(text[1..]);
      ScalarIsRune(text[0], EncodeText(text[1..]));
      ValidJoin(EncodeScalar(text[0]), EncodeText(text[1..]));
    }
  }

  lemma ValidJoin(rune: Bytes, rest: Bytes)
    requires rune != [] && RuneLength(rune + rest) == |rune| && ValidUTF8(rest)
    ensures ValidUTF8(rune + rest)
  {
    assert (rune + rest)[|rune|..] == rest;
  }

  lemma RuneAlone(s: Bytes, rest: Bytes)
    requires s != [] && RuneLength(s) > 0
    ensures RuneLength(s[..RuneLength(s)] + rest) == RuneLength(s)
  {
    var n := RuneLength(s);
    var t := s[..n] + rest;
    assert forall i :: 0 <= i < n ==> t[i] == s[i];
  }

  lemma {:induction false} RepairIsValid(s: Bytes, inRun: bool)
    ensures ValidUTF8(ToValidUTF8(s, inRun))
    decreases |s|
  {
    if s == [] {
    } else if RuneLength(s) == 0 {
      RepairIsValid(s[1..], true);
      if !inRun {
        ValidJoin(REPLACEMENT, ToValidUTF8(s[1..], true));
      } else {
        assert ToValidUTF8(s, inRun) == ToValidUTF8(s[1..], true);
      }
    } else {
      var n := RuneLength(s);
      RepairIsValid(s[n..], false);
      RuneAlone(s, ToValidUTF8(s[n..], false));
      ValidJoin(s[..n], ToValidUTF8(s[n..], false));
    }
  }

  /** The repair leaves a byte string alone exactly when it is valid. */
  lemma RepairKeepsExactly(s: Bytes)
    ensures ToValidUTF8(s, false) == s <==> ValidUTF8(s)
  {
    RepairIsValid(s, false);
    if ValidUTF8(s) {
      RepairKeeps(s, false);
    }
  }

  lemma {:induction false} RepairKeeps(s: Bytes, inRun: bool)
    requires ValidUTF8(s)
    ensures ToValidUTF8(s, inRun) == s
    decreases |s|
  {
    if s != [] {
      RepairKeeps(s[RuneLength(s)..], false);
      assert s == s[..RuneLength(s)] + s[RuneLength(s)..];
    }
  }

  lemma {:induction false} RepairJoin(valid: Bytes, rest: Bytes, inRun: bool)
    requires ValidUTF8(valid)
    ensures valid != [] ==> ToValidUTF8(valid + rest, inRun) == valid + ToValidUTF8(rest, false)
    decreases |valid|
  {
    hide RuneLength;
    if valid != [] {
      var n := RuneLength(valid);
      RuneAlone(valid, valid[n..] + rest);
      assert valid[..n] + (valid[n..] + rest) == valid + rest;
      assert (valid + rest)[n..] == valid[n..] + rest;
      if valid[n..] == [] {
        assert valid[n..] + rest == rest;
      } else {
        RepairJoin(valid[n..], rest, false);
      }
      assert valid[..n] + (valid[n..] + ToValidUTF8(rest, false)) == valid + ToValidUTF8(rest, false);
    }
  }

  lemma {:induction false} RunSwallowed(run: Bytes, rest: Bytes)
    requires forall i :: 0 <= i < |run| ==> RuneLength((run + rest)[i..]) == 0
    ensures ToValidUTF8(run + rest, true) == ToValidUTF8(rest, true)
    decreases |run|
  {
    if run == [] {
      assert run + rest == rest;
    } else {
      assert (run + rest)[0..] == run + rest && (run + rest)[1..] == run[1..] + rest;
      forall i | 0 <= i < |run[1..]|
        ensures RuneLength((run[1..] + rest)[i..]) == 0
      {
        assert (run[1..] + rest)[i..] == (run + rest)[i + 1..];
      }
      RunSwallowed(run[1..], rest);
    }
  }

  /** The repair puts one U+FFFD in place of each longest run of bytes that no scalar value starts at. */
  lemma RepairReplacesRun(valid: Bytes, run: Bytes, rest: Bytes)
    requires ValidUTF8(valid) && run != [] && (rest == [] || RuneLength(rest) > 0)
    requires forall i :: 0 <= i < |run| ==> RuneLength((run + rest)[i..]) == 0
    ensures ToValidUTF8(valid + (run + rest), false)
         == valid + (EncodeScalar(0xFFFD) + ToValidUTF8(rest, false))
  {
    hide RuneLength, ToValidUTF8;
    RepairJoin(valid, run + rest, false);
    if valid == [] {
      assert valid + (run + rest) == run + rest;
    }
    RunReplaced(run, rest);
    assert valid == [] ==> valid + (REPLACEMENT + ToValidUTF8(rest, false)) == REPLACEMENT + ToValidUTF8(rest, false);
    assert REPLACEMENT == EncodeScalar(0xFFFD);
  }

  lemma RunReplaced(run: Bytes, rest: Bytes)
    requires run != [] && (rest == [] || RuneLength(rest) > 0)
    requires forall i :: 0 <= i < |run| ==> RuneLength((run + rest)[i..]) == 0
    ensures ToValidUTF8(run + rest, false) == REPLACEMENT + ToValidUTF8(rest, false)
  {
    hide RuneLength;
    var whole := run + rest;
    assert whole[0..] == whole && whole[1..] == run[1..] + rest;
    forall i | 0 <= i < |run[1..]|
      ensures RuneLength((run[1..] + rest)[i..]) == 0
    {
      assert (run[1..] + rest)[i..] == whole[i + 1..];
    }
    RunSwallowed(run[1..], rest);
    assert ToValidUTF8(rest, true) == ToValidUTF8(rest, false);
  }

  // ---------------------------------------------------------------- the serializer

  predicate Literal(b: Byte) {
    || 0x61 <= b <= 0x7A
    || 0x41 <= b <= 0x5A
    || 0x30 <= b <= 0x39
    || b == 0x2A
    || b == 0x2D
    || b == 0x2E
    || b == 0x5F
  }

  function HexDigit(n: int): Byte
    requires 0 <= n < 16
  {
    if n < 10 then 0x30 + n else 0x41 + n - 10
  }

  function EncodeByte(b: Byte): Bytes {
    if Literal(b) then [b]
    else if b == SPACE then [PLUS]
    else [PERCENT, HexDigit(b / 16), HexDigit(b % 16)]
  }

  function EncodeBytes(s: Bytes): Bytes {
    if s == [] then [] else EncodeByte(s[0]) + EncodeBytes(s[1..])
  }

  predicate Digit(c: char) {
    '0' <= c <= '9' || 'A' <= c <= 'F'
  }

  /** By section 1.3 of the WHATWG URL Standard: letters, digits and four marks stay as they are, a
      space becomes a plus sign, and any other byte a percent sign and two upper-case digits. */
  lemma EncodesByte(b: Byte)
    ensures var c, e := b as char, EncodeByte(b);
      if 'a' <= c <= 'z' || 'A' <= c <= 'Z' || '0' <= c <= '9' || c == '*' || c == '-' || c == '.' || c == '_' then
        e == [b]
      else if c == ' ' then
        e == ['+' as int]
      else
        |e| == 3 && e[0] == '%' as int && Digit(e[1] as char) && Digit(e[2] as char)
  {
  }

  function Component(s: Bytes): Bytes {
    EncodeBytes(ToValidUTF8(s, false))
  }

  function Pair(e: Entry): Bytes {
    Component(e.name) + [EQUALS] + Component(e.value)
  }

  function Joined(es: seq<Entry>): Bytes {
    if es == [] then []
    else if |es| == 1 then Pair(es[0])
    else Pair(es[0]) + ([AMPERSAND] + Joined(es[1..]))
  }

  // ---------------------------------------------------------------- the standard parser

  /** The parser of section 5.1 of the WHATWG URL Standard, and percent-decoding of section 1.3. */
  function HexValue(b: Byte): (n: int)
    ensures -1 <= n < 16
  {
    if 0x30 <= b <= 0x39 then b - 0x30
    else if 0x41 <= b <= 0x46 then b - 0x41 + 10
    else if 0x61 <= b <= 0x66 then b - 0x61 + 10
    else -1
  }

  function PercentDecode(s: Bytes): Bytes {
    if s == [] then
      []
    else if s[0] == PERCENT && |s| >= 3 && HexValue(s[1]) >= 0 && HexValue(s[2]) >= 0 then
      [HexValue(s[1]) * 16 + HexValue(s[2])] + PercentDecode(s[3..])
    else
      [s[0]] + PercentDecode(s[1..])
  }

  function PlusToSpace(s: Bytes): (t: Bytes)
    ensures |t| == |s|
    ensures forall i :: 0 <= i < |s| ==> t[i] == if s[i] == PLUS then SPACE else s[i]
  {
    if s == [] then [] else [if s[0] == PLUS then SPACE else s[0]] + PlusToSpace(s[1..])
  }

  function DecodeComponent(s: Bytes): Bytes {
    PercentDecode(PlusToSpace(s))
  }

  /** The index of the first b in s, or the length of s. */
  function IndexOf(s: Bytes, b: Byte): (i: nat)
    ensures i <= |s| && b !in s[..i] && (i < |s| ==> s[i] == b)
  {
    if s == [] || s[0] == b then
      0
    else
      var i := 1 + IndexOf(s[1..], b);
      assert s[..i] == [s[0]] + s[1..][..i - 1];
      i
  }

  function ParsePiece(s: Bytes): seq<Entry> {
    if s == [] then
      []
    else
      var i := IndexOf(s, EQUALS);
      if i < |s| then [Entry(DecodeComponent(s[..i]), DecodeComponent(s[i + 1..]))]
      else [Entry(DecodeComponent(s), [])]
  }

  function Parse(s: Bytes): seq<Entry> {
    var i := IndexOf(s, AMPERSAND);
    if i == |s| then ParsePiece(s) else ParsePiece(s[..i]) + Parse(s[i + 1..])
  }

  // ---------------------------------------------------------------- the inverse

  /** The bytes the serializer writes for a name or a value. */
  predicate Plain(b: Byte) {
    Literal(b) || b == PLUS || b == PERCENT
  }

  lemma {:induction false} EncodedIsPlain(s: Bytes)
    ensures forall b <- EncodeBytes(s) :: Plain(b)
  {
    if s != [] {
      EncodedIsPlain(s[1..]);
      assert forall b <- EncodeByte(s[0]) :: Plain(b);
    }
  }

  lemma HexRoundTrip(b: Byte)
    ensures HexValue(HexDigit(b / 16)) * 16 + HexValue(HexDigit(b % 16)) == b
    ensures HexValue(HexDigit(b / 16)) >= 0 && HexValue(HexDigit(b % 16)) >= 0
    ensures HexDigit(b / 16) != PLUS && HexDigit(b % 16) != PLUS
  {
  }

  lemma {:induction false} PlusToSpaceJoin(s: Bytes, t: Bytes)
    ensures PlusToSpace(s + t) == PlusToSpace(s) + PlusToSpace(t)
  {
  }

  lemma DecodeByte(b: Byte, rest: Bytes)
    ensures DecodeComponent(EncodeByte(b) + rest) == [b] + DecodeComponent(rest)
  {
    var e := EncodeByte(b);
    PlusToSpaceJoin(e, rest);
    var p := PlusToSpace(e) + PlusToSpace(rest);
    HexRoundTrip(b);
    if |e| == 1 {
      assert PlusToSpace(e) == [b] && b != PERCENT;
      assert p[1..] == PlusToSpace(rest);
    } else {
      assert PlusToSpace(e) == e;
      assert p[3..] == PlusToSpace(rest);
    }
  }

  /** Decoding gives back any bytes at all, valid or not. */
  lemma {:induction false} DecodeEncode(s: Bytes)
    ensures DecodeComponent(EncodeBytes(s)) == s
  {
    if s != [] {
      DecodeByte(s[0], EncodeBytes(s[1..]));
      DecodeEncode(s[1..]);
    }
  }

  lemma {:induction false} FirstAt(s: Bytes, b: Byte, i: nat)
    requires i <= |s| && b !in s[..i] && (i < |s| ==> s[i] == b)
    ensures IndexOf(s, b) == i
  {
  }

  function Repaired(e: Entry): Entry {
    Entry(ToValidUTF8(e.name, false), ToValidUTF8(e.value, false))
  }

  function RepairedAll(es: seq<Entry>): (rs: seq<Entry>)
    ensures |rs| == |es| && forall i :: 0 <= i < |es| ==> rs[i] == Repaired(es[i])
  {
    seq(|es|, i requires 0 <= i < |es| => Repaired(es[i]))
  }

  lemma PairIsPlain(e: Entry)
    ensures AMPERSAND !in Pair(e)
    ensures IndexOf(Pair(e), EQUALS) == |Component(e.name)|
  {
    EncodedIsPlain(ToValidUTF8(e.name, false));
    EncodedIsPlain(ToValidUTF8(e.value, false));
    var s, i := Pair(e), |Component(e.name)|;
    assert s[..i] == Component(e.name);
    FirstAt(s, EQUALS, i);
  }

  lemma ParsePair(e: Entry)
    ensures ParsePiece(Pair(e)) == [Repaired(e)]
  {
    PairIsPlain(e);
    var s, i := Pair(e), |Component(e.name)|;
    assert s[..i] == Component(e.name) && s[i + 1..] == Component(e.value);
    DecodeEncode(ToValidUTF8(e.name, false));
    DecodeEncode(ToValidUTF8(e.value, false));
  }

  lemma ParseFirst(piece: Bytes, rest: Bytes)
    requires AMPERSAND !in piece
    ensures Parse(piece) == ParsePiece(piece)
    ensures Parse(piece + ([AMPERSAND] + rest)) == ParsePiece(piece) + Parse(rest)
  {
    var s, i := piece + ([AMPERSAND] + rest), |piece|;
    assert s[..i] == piece && s[i + 1..] == rest;
    FirstAt(s, AMPERSAND, i);
    assert piece[..i] == piece;
    FirstAt(piece, AMPERSAND, i);
  }

  /** Parsing gives back the entries in order, each with its invalid bytes replaced. */
  lemma {:induction false} ParseJoined(es: seq<Entry>)
    ensures Parse(Joined(es)) == RepairedAll(es)
  {
    hide Pair, Repaired;
    if es != [] {
      PairIsPlain(es[0]);
      ParsePair(es[0]);
      if |es| > 1 {
        ParseFirst(Pair(es[0]), Joined(es[1..]));
        ParseJoined(es[1..]);
        assert RepairedAll(es) == [Repaired(es[0])] + RepairedAll(es[1..]);
      } else {
        ParseFirst(Pair(es[0]), []);
        assert RepairedAll(es) == [Repaired(es[0])];
      }
    }
  }

  predicate ValidEntry(e: Entry) {
    ValidUTF8(e.name) && ValidUTF8(e.value)
  }

  predicate ValidEntries(es: seq<Entry>) {
    forall e <- es :: ValidEntry(e)
  }

  /** The parser inverts the serializer on valid entries, and on no others. */
  lemma RoundTripExactly(es: seq<Entry>)
    ensures Parse(Joined(es)) == es <==> ValidEntries(es)
  {
    ParseJoined(es);
    forall i | 0 <= i < |es|
      ensures Repaired(es[i]) == es[i] <==> ValidEntry(es[i])
    {
      RepairKeepsExactly(es[i].name);
      RepairKeepsExactly(es[i].value);
    }
    if Parse(Joined(es)) == es {
      forall i | 0 <= i < |es| ensures ValidEntry(es[i]) {
        assert RepairedAll(es)[i] == es[i];
      }
    }
    if ValidEntries(es) {
      assert RepairedAll(es) == es;
    }
  }

  /** A name of one stray continuation byte comes back as a replacement character. */
  lemma StrayByte()
    ensures var es := [Entry([0x80], [])];
            Parse(Joined(es)) == [Entry(REPLACEMENT, [])] && Parse(Joined(es)) != es
  {
    var e := Entry([0x80], []);
    ParseJoined([e]);
    assert RuneLength([0x80]) == 0 && ToValidUTF8([], true) == [];
    assert Repaired(e) == Entry(REPLACEMENT, []);
    assert RepairedAll([e]) == [Repaired(e)];
    assert |REPLACEMENT| == 3;
  }

  /** Whatever is submitted, what the parser reads is valid UTF-8. */
  lemma ParsedIsValid(es: seq<Entry>)
    ensures ValidEntries(Parse(Joined(es)))
  {
    ParseJoined(es);
    forall i | 0 <= i < |es| ensures ValidEntry(RepairedAll(es)[i]) {
      RepairIsValid(es[i].name, false);
      RepairIsValid(es[i].value, false);
    }
  }

  // ---------------------------------------------------------------- the loops

  lemma {:induction false} EncodeBytesLast(s: Bytes, b: Byte)
    ensures EncodeBytes(s + [b]) == EncodeBytes(s) + EncodeByte(b)
  {
    if s == [] {
      assert s + [b] == [b] && EncodeBytes([b]) == EncodeByte(b);
    } else {
      assert (s + [b])[1..] == s[1..] + [b];
      EncodeBytesLast(s[1..], b);
    }
  }

  lemma Regroup(p: Bytes, q: Bytes, r: Bytes)
    ensures p + ([AMPERSAND] + (q + ([AMPERSAND] + r))) == p + ([AMPERSAND] + q) + ([AMPERSAND] + r)
  {
  }

  lemma {:induction false} JoinedLast(es: seq<Entry>, e: Entry)
    ensures Joined(es + [e]) == if es == [] then Pair(e) else Joined(es) + ([AMPERSAND] + Pair(e))
  {
    if |es| > 1 {
      assert (es + [e])[1..] == es[1..] + [e];
      JoinedLast(es[1..], e);
      Regroup(Pair(es[0]), Joined(es[1..]), Pair(e));
    } else if |es| == 1 {
      assert (es + [e])[1..] == [e];
    }
  }

  lemma {:induction false} JoinedGrows(es: seq<Entry>, k: nat)
    requires k <= |es|
    ensures |Joined(es[..k])| <= |Joined(es)|
    decreases |es| - k
  {
    if k < |es| {
      JoinedGrows(es, k + 1);
      JoinedLast(es[..k], es[k]);
      assert es[..k + 1] == es[..k] + [es[k]];
    } else {
      assert es[..k] == es;
    }
  }

  /** The text after one more entry. */
  lemma Written(es: seq<Entry>, index: nat)
    requires index < |es|
    ensures (if index != 0 then Joined(es[..index]) + [AMPERSAND] else Joined(es[..index]))
              + Component(es[index].name) + [EQUALS] + Component(es[index].value)
      == Joined(es[..index + 1])
  {
    hide Component;
    var before, e := Joined(es[..index]), es[index];
    JoinedLast(es[..index], e);
    assert es[..index + 1] == es[..index] + [e];
    Assemble(before, Component(e.name), Component(e.value));
  }

  lemma Assemble(before: Bytes, name: Bytes, value: Bytes)
    ensures before + [AMPERSAND] + name + [EQUALS] + value == before + ([AMPERSAND] + (name + [EQUALS] + value))
    ensures before == [] ==> before + name + [EQUALS] + value == name + [EQUALS] + value
  {
  }

  method EncodeFormComponent(value: Bytes) returns (encoded: Bytes)
    ensures encoded == Component(value)
    ensures DecodeComponent(encoded) == ToValidUTF8(value, false)
    ensures forall b <- encoded :: Plain(b)
  {
    var valid := ToValidUTF8(value, false);
    encoded := [];
    for i := 0 to |valid|
      invariant encoded == EncodeBytes(valid[..i])
    {
      var character := valid[i];
      EncodeBytesLast(valid[..i], character);
      assert valid[..i + 1] == valid[..i] + [character];
      if Literal(character) {
        encoded := encoded + [character];
      } else if character == SPACE {
        encoded := encoded + [PLUS];
      } else {
        encoded := encoded + [PERCENT, HexDigit(character / 16), HexDigit(character % 16)];
      }
    }
    assert valid[..|valid|] == valid;
    EncodedIsPlain(valid);
    DecodeEncode(valid);
  }

  predicate Oversized(es: seq<Entry>) {
    |es| > MAX_FORM_ENTRIES || |Joined(es)| > MAX_ENCODED_FORM_BYTES
  }

  /** Too large exactly when the whole text is; otherwise a text the parser turns back into the entries. */
  method EncodeURLEncodedLimited(entries: seq<Entry>) returns (r: Result)
    ensures r.TooLarge? <==> Oversized(entries)
    ensures r.Encoded? ==> r.text == Joined(entries) && |r.text| <= MAX_ENCODED_FORM_BYTES
    ensures r.Encoded? ==> Parse(r.text) == RepairedAll(entries)
    ensures r.Encoded? && ValidEntries(entries) ==> Parse(r.text) == entries
  {
    if |entries| > MAX_FORM_ENTRIES {
      return TooLarge;
    }
    var encoded: Bytes := [];
    for index := 0 to |entries|
      invariant encoded == Joined(entries[..index])
      invariant |encoded| <= MAX_ENCODED_FORM_BYTES
    {
      var entry := entries[index];
      Written(entries, index);
      if index != 0 {
        encoded := encoded + [AMPERSAND];
      }
      var name := EncodeFormComponent(entry.name);
      encoded := encoded + name;
      encoded := encoded + [EQUALS];
      var value := EncodeFormComponent(entry.value);
      encoded := encoded + value;
      if |encoded| > MAX_ENCODED_FORM_BYTES {
        JoinedGrows(entries, index + 1);
        return TooLarge;
      }
    }
    assert entries[..|entries|] == entries;
    ParseJoined(entries);
    RoundTripExactly(entries);
    return Encoded(encoded);
  }

  /** Without the error, an oversized form reads as an empty one. */
  method EncodeURLEncoded(entries: seq<Entry>) returns (text: Bytes)
    ensures Parse(text) == if Oversized(entries) then [] else RepairedAll(entries)
  {
    var r := EncodeURLEncodedLimited(entries);
    match r {
      case Encoded(encoded) => text := encoded;
      case TooLarge => text := [];
    }
  }
}
