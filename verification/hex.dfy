/** The hexadecimal codec (section 8 of RFC 4648, written in lower case). Inputs are ASCII. */
module Hex {
  import opened Wrappers
  import opened Errors
  import opened Sequences
  import opened Plog

  type Nibble = n: int | 0 <= n < 16

  const DIGITS := "0123456789abcdef"

  function Digit(n: Nibble): char {
    DIGITS[n]
  }

  function EncodeHex(bytes: Bytes): (s: string)
    ensures |s| == 2 * |bytes|
  {
    if bytes == [] then ""
    else EncodeHex(Init(bytes)) + [Digit(Last(bytes) / 16), Digit(Last(bytes) % 16)]
  }

  function DigitValue(c: char): Option<Nibble> {
    if '0' <= c <= '9' then Some(c as int - '0' as int)
    else if 'a' <= c <= 'f' then Some(c as int - 'a' as int + 10)
    else if 'A' <= c <= 'F' then Some(c as int - 'A' as int + 10)
    else None
  }

  /** `u8::from_str_radix` on two characters: a leading `+` is a sign, not a digit. */
  function ParseChunk(a: char, b: char): Option<Byte> {
    if a == '+' then
      (match DigitValue(b) case None => None case Some(lo) => Some(lo))
    else match DigitValue(a)
      case None => None
      case Some(hi) =>
        match DigitValue(b)
        case None => None
        case Some(lo) => Some(16 * hi + lo)
  }

  predicate IsSpace(c: char) {
    c == ' ' || '\t' <= c <= '\r'
  }

  function TrimStart(s: string): string {
    if s != "" && IsSpace(s[0]) then TrimStart(s[1..]) else s
  }

  function TrimEnd(s: string): string {
    if s != "" && IsSpace(Last(s)) then TrimEnd(Init(s)) else s
  }

  /** What is left to decode: trimmed, without one `0x` prefix. */
  function Body(s: string): string {
    var t := TrimEnd(TrimStart(s));
    if "0x" <= t then t[2..] else t
  }

  function DecodeChunks(s: string): Result<Bytes, Error>
    requires |s| % 2 == 0
  {
    if s == "" then Success([])
    else
      var before :- DecodeChunks(s[..|s| - 2]);
      match ParseChunk(s[|s| - 2], s[|s| - 1])
      case None => Failure(Encoding)
      case Some(b) => Success(before + [b])
  }

  function DecodeHex(s: string): Result<Bytes, Error> {
    if |Body(s)| % 2 != 0 then Failure(Encoding) else DecodeChunks(Body(s))
  }

  function DecodeHex32(s: string): Result<Bytes, Error> {
    var v :- DecodeHex(s);
    if |v| == 32 then Success(v) else Failure(Encoding)
  }

  predicate IsDigit(c: char) {
    '0' <= c <= '9' || 'a' <= c <= 'f' || 'A' <= c <= 'F'
  }

  /** The place of a lower-case digit among the sixteen, in either case. */
  function Worth(c: char): Nibble
    requires IsDigit(c)
  {
    if c <= '9' then c as int - '0' as int
    else if c <= 'F' then 10 + (c as int - 'A' as int)
    else 10 + (c as int - 'a' as int)
  }

  predicate IsLowerDigit(c: char) {
    '0' <= c <= '9' || 'a' <= c <= 'f'
  }

  lemma DigitMeaning(c: char)
    ensures DigitValue(c) == if IsDigit(c) then Some(Worth(c)) else None
  {
  }

  /** Each byte is written as two lower-case digits, the high half first. */
  lemma {:induction false} EncodedAt(bytes: Bytes, i: nat)
    requires i < |bytes|
    ensures |EncodeHex(bytes)| == 2 * |bytes|
    ensures var hi, lo := EncodeHex(bytes)[2 * i], EncodeHex(bytes)[2 * i + 1];
      IsLowerDigit(hi) && IsLowerDigit(lo) && 16 * Worth(hi) + Worth(lo) == bytes[i]
  {
    var n := |bytes| - 1;
    assert EncodeHex(bytes) == EncodeHex(Init(bytes)) + [Digit(Last(bytes) / 16), Digit(Last(bytes) % 16)];
    if i < n {
      EncodedAt(Init(bytes), i);
    } else {
      LowerDigits(bytes[n] / 16);
      LowerDigits(bytes[n] % 16);
    }
  }

  lemma LowerDigits(n: Nibble)
    ensures IsLowerDigit(Digit(n)) && Worth(Digit(n)) == n
  {
  }

  /** The chunk at `i` is two digits, or a sign and a digit. */
  predicate ChunkAt(s: string, i: nat)
    requires i + 1 < |s|
  {
    (s[i] == '+' || IsDigit(s[i])) && IsDigit(s[i + 1])
  }

  function ByteAt(s: string, i: nat): Byte
    requires i + 1 < |s| && ChunkAt(s, i)
  {
    (if s[i] == '+' then 0 else 16 * Worth(s[i])) + Worth(s[i + 1])
  }

  lemma ChunkMeaning(s: string, i: nat)
    requires i + 1 < |s|
    ensures ParseChunk(s[i], s[i + 1]) == if ChunkAt(s, i) then Some(ByteAt(s, i)) else None
  {
    hide DigitValue, Worth, IsDigit;
    DigitMeaning(s[i]);
    DigitMeaning(s[i + 1]);
    assert !IsDigit('+') by { DigitMeaning('+'); NotADigit(); }
  }

  lemma NotADigit()
    ensures !IsDigit('+') && !IsDigit('x')
  {
  }

  predicate AllChunks(s: string) {
    |s| % 2 == 0 && forall k :: 0 <= k < |s| / 2 ==> ChunkAt(s, 2 * k)
  }

  /** Decoding the body succeeds iff it is made of such chunks, and each gives one byte. */
  lemma {:induction false} ChunksDecode(s: string)
    requires |s| % 2 == 0
    ensures DecodeChunks(s).Success? <==> AllChunks(s)
    ensures AllChunks(s) ==> var r := DecodeChunks(s).value;
      |r| == |s| / 2 && forall k :: 0 <= k < |r| ==> r[k] == ByteAt(s, 2 * k)
    ensures DecodeChunks(s).Failure? ==> DecodeChunks(s).error == Encoding
  {
    hide ParseChunk, IsDigit, Worth;
    if s != "" {
      var m := |s| / 2 - 1;
      var head := s[..|s| - 2];
      ChunksDecode(head);
      ChunkMeaning(s, 2 * m);
      assert forall k :: 0 <= k < m ==> ChunkAt(head, 2 * k) == ChunkAt(s, 2 * k);
      if AllChunks(s) {
        assert forall k :: 0 <= k < m ==> ByteAt(head, 2 * k) == ByteAt(s, 2 * k);
      }
    }
  }

  /**
    What decoding does to any input, taken apart into surrounding whitespace and a core: one leading `0x`
    goes, and what is left decodes iff it is made of chunks, byte by byte.
   */
  lemma DecodeExactly(before: string, core: string, after: string)
    requires AllSpaces(before) && AllSpaces(after) && Tight(core)
    ensures var body, r := (if "0x" <= core then core[2..] else core), DecodeHex(before + core + after);
      && (r.Success? <==> AllChunks(body))
      && (r.Success? ==> |r.value| == |body| / 2 && forall k :: 0 <= k < |r.value| ==> r.value[k] == ByteAt(body, 2 * k))
      && (r.Failure? ==> r.error == Encoding)
  {
    hide DecodeChunks, ByteAt, ChunkAt, TrimStart, TrimEnd;
    TrimPadded(before, core, after);
    var body := if "0x" <= core then core[2..] else core;
    if |body| % 2 == 0 {
      ChunksDecode(body);
    }
  }

  predicate AllDigits(s: string) {
    forall i :: 0 <= i < |s| ==> IsDigit(s[i])
  }

  function LowerChar(c: char): char {
    if 'A' <= c <= 'F' then (c as int - 'A' as int + 'a' as int) as char else c
  }

  function Lower(s: string): string {
    seq(|s|, i requires 0 <= i < |s| => LowerChar(s[i]))
  }

  lemma DigitsRoundTrip(n: Nibble)
    ensures DigitValue(Digit(n)) == Some(n) && !IsSpace(Digit(n))
    ensures Digit(n) != '+' && Digit(n) != 'x'
  {
  }

  lemma LowerDigit(c: char)
    requires IsDigit(c)
    ensures Digit(DigitValue(c).value) == LowerChar(c) && c != '+'
  {
  }

  lemma ByteRoundTrip(b: Byte)
    ensures ParseChunk(Digit(b / 16), Digit(b % 16)) == Some(b)
    ensures IsDigit(Digit(b / 16)) && IsDigit(Digit(b % 16))
  {
    DigitsRoundTrip(b / 16);
    DigitsRoundTrip(b % 16);
    assert 16 * (b / 16) + b % 16 == b;
  }

  lemma {:induction false} DecodeEncodeChunks(bytes: Bytes)
    ensures DecodeChunks(EncodeHex(bytes)) == Success(bytes)
    ensures AllDigits(EncodeHex(bytes))
  {
    hide ParseChunk, DigitValue;
    if bytes != [] {
      var s := EncodeHex(bytes);
      DecodeEncodeChunks(Init(bytes));
      ByteRoundTrip(Last(bytes));
      assert s[..|s| - 2] == EncodeHex(Init(bytes));
      assert bytes == Init(bytes) + [Last(bytes)];
    }
  }

  /** Nothing but blanks, tabs, line feeds, vertical tabs, form feeds and carriage returns. */
  predicate AllSpaces(s: string) {
    forall i :: 0 <= i < |s| ==> s[i] in " \t\n\U{000b}\U{000c}\r"
  }

  /** Neither starts nor ends with whitespace. */
  predicate Tight(s: string) {
    s == "" || (s[0] !in " \t\n\U{000b}\U{000c}\r" && Last(s) !in " \t\n\U{000b}\U{000c}\r")
  }

  lemma SpaceMeaning(c: char)
    ensures IsSpace(c) <==> c in " \t\n\U{000b}\U{000c}\r"
  {
    assert " \t\n\U{000b}\U{000c}\r" == [' ', '\t', '\n', '\U{000b}', '\U{000c}', '\r'];
  }

  lemma {:induction false} TrimStartPadding(before: string, s: string)
    requires AllSpaces(before) && (s == "" || !IsSpace(s[0]))
    ensures TrimStart(before + s) == s
  {
    hide IsSpace;
    if before == "" {
      assert before + s == s;
    } else {
      SpaceMeaning(before[0]);
      TrimStartPadding(before[1..], s);
      assert (before + s)[1..] == before[1..] + s;
    }
  }

  lemma {:induction false} TrimEndPadding(s: string, after: string)
    requires AllSpaces(after) && (s == "" || !IsSpace(Last(s)))
    ensures TrimEnd(s + after) == s
  {
    hide IsSpace;
    if after == "" {
      assert s + after == s;
    } else {
      SpaceMeaning(Last(after));
      TrimEndPadding(s, Init(after));
      assert Init(s + after) == s + Init(after);
    }
  }

  lemma TrimPadded(before: string, s: string, after: string)
    requires AllSpaces(before) && AllSpaces(after) && Tight(s)
    ensures TrimEnd(TrimStart(before + s + after)) == s
  {
    if s != "" {
      SpaceMeaning(s[0]);
      SpaceMeaning(Last(s));
    }
    hide IsSpace;
    if s == "" {
      assert before + s + after == (before + after) + "";
      TrimStartPadding(before + after, "");
    } else {
      assert before + s + after == before + (s + after);
      TrimStartPadding(before, s + after);
      TrimEndPadding(s, after);
    }
  }

  lemma HexIsTight(hex: string)
    requires AllDigits(hex)
    ensures Tight(hex) && Tight("0x" + hex) && !("0x" <= hex)
  {
    assert !IsDigit('x') && "0x"[1] == 'x';
  }

  lemma BodyOfPadded(hex: string, before: string, prefixed: bool, after: string)
    requires AllSpaces(before) && AllSpaces(after)
    requires AllDigits(hex)
    ensures Body(before + (if prefixed then "0x" else "") + hex + after) == hex
  {
    var core := (if prefixed then "0x" else "") + hex;
    HexIsTight(hex);
    assert before + (if prefixed then "0x" else "") + hex + after == before + core + after;
    TrimPadded(before, core, after);
    if prefixed {
      assert core[2..] == hex;
    } else {
      assert core == hex;
    }
  }

  lemma DecodeOfBody(s: string, bytes: Bytes)
    requires Body(s) == EncodeHex(bytes)
    ensures DecodeHex(s) == Success(bytes)
  {
    hide Body, EncodeHex, DecodeChunks;
    DecodeEncodeChunks(bytes);
  }

  /** Decoding inverts encoding, also behind a `0x` prefix and within surrounding whitespace. */
  lemma DecodeInvertsEncode(bytes: Bytes, before: string, prefixed: bool, after: string)
    requires AllSpaces(before) && AllSpaces(after)
    ensures DecodeHex(before + (if prefixed then "0x" else "") + EncodeHex(bytes) + after) == Success(bytes)
  {
    var s := before + (if prefixed then "0x" else "") + EncodeHex(bytes) + after;
    DecodeEncodeChunks(bytes);
    BodyOfPadded(EncodeHex(bytes), before, prefixed, after);
    DecodeOfBody(s, bytes);
  }

  predicate HasSign(s: string) {
    exists i :: 0 <= i < |s| && s[i] == '+'
  }

  lemma {:induction false} DecodedLength(s: string)
    requires |s| % 2 == 0 && DecodeChunks(s).Success?
    ensures |DecodeChunks(s).value| == |s| / 2
  {
    hide ParseChunk;
    if s != "" {
      DecodedLength(s[..|s| - 2]);
    }
  }

  lemma {:induction false} DecodedSigns(s: string)
    requires |s| % 2 == 0 && DecodeChunks(s).Success?
    ensures AllDigits(s) <==> !HasSign(s)
  {
    hide ParseChunk, IsDigit, HasSign, AllDigits;
    if s == "" {
      NoSigns();
    } else {
      var n := |s| - 2;
      DecodedSigns(s[..n]);
      EncodedChunk(s[n], s[n + 1]);
      assert s == s[..n] + [s[n], s[n + 1]];
      SignOf(s[..n], s[n], s[n + 1]);
    }
  }

  lemma NoSigns()
    ensures AllDigits("") && !HasSign("")
  {
  }

  lemma LowerSnoc(head: string, a: char, b: char)
    ensures Lower(head + [a, b]) == Lower(head) + [LowerChar(a), LowerChar(b)]
  {
    hide LowerChar;
  }

  lemma EncodeSnoc(before: Bytes, byte: Byte)
    ensures EncodeHex(before + [byte]) == EncodeHex(before) + [Digit(byte / 16), Digit(byte % 16)]
  {
    hide Digit;
    SnocParts(before, byte);
  }

  lemma {:induction false} EncodeDecodeChunks(s: string)
    requires |s| % 2 == 0 && DecodeChunks(s).Success?
    ensures !HasSign(s) <==> EncodeHex(DecodeChunks(s).value) == Lower(s)
  {
    hide ParseChunk, LowerChar, Digit, IsDigit, HasSign, EncodeHex, Lower;
    if s == "" {
      NoSigns();
      EmptyRoundTrip();
    } else {
      var n := |s| - 2;
      var head, a, b := s[..n], s[n], s[n + 1];
      var before, byte := DecodeChunks(head).value, ParseChunk(a, b).value;
      EncodeDecodeChunks(head);
      DecodedLength(head);
      EncodedChunk(a, b);
      assert s == head + [a, b];
      LowerSnoc(head, a, b);
      EncodeSnoc(before, byte);
      SignOf(head, a, b);
      LowerLength(head);
      SplitEqual(EncodeHex(before), [Digit(byte / 16), Digit(byte % 16)], Lower(head), [LowerChar(a), LowerChar(b)]);
    }
  }

  lemma LowerLength(s: string)
    ensures |Lower(s)| == |s|
  {
  }

  lemma EmptyRoundTrip()
    ensures EncodeHex([]) == Lower("") == ""
  {
  }

  lemma SplitEqual(a: string, b: string, c: string, d: string)
    requires |a| == |c|
    ensures a + b == c + d <==> a == c && b == d
  {
    if a + b == c + d {
      assert a == (a + b)[..|a|] && c == (c + d)[..|c|];
      assert b == (a + b)[|a|..] && d == (c + d)[|c|..];
    }
  }

  lemma SignOf(head: string, a: char, b: char)
    ensures HasSign(head + [a, b]) <==> HasSign(head) || a == '+' || b == '+'
    ensures AllDigits(head + [a, b]) <==> AllDigits(head) && IsDigit(a) && IsDigit(b)
  {
    var s := head + [a, b];
    assert s[|head|] == a && s[|head| + 1] == b;
    assert forall i :: 0 <= i < |head| ==> s[i] == head[i];
  }

  lemma UnsignedChunk(a: char, b: char)
    requires ParseChunk(a, b).Some? && a != '+'
    ensures IsDigit(a) && IsDigit(b)
    ensures var byte := ParseChunk(a, b).value;
      Digit(byte / 16) == LowerChar(a) && Digit(byte % 16) == LowerChar(b)
  {
    DigitMeaning(a);
    DigitMeaning(b);
    hide DigitValue, LowerChar, Digit, Worth, IsDigit;
    LowerDigit(a);
    LowerDigit(b);
    Halves(DigitValue(a).value, DigitValue(b).value);
  }

  lemma Halves(hi: Nibble, lo: Nibble)
    ensures var h: int, l: int := hi, lo; (16 * h + l) / 16 == h && (16 * h + l) % 16 == l
  {
  }

  lemma SignedChunk(b: char)
    requires ParseChunk('+', b).Some?
    ensures IsDigit(b) && b != '+'
    ensures Digit(ParseChunk('+', b).value / 16) == '0'
  {
  }

  /** A chunk that parses re-encodes to itself in lower case unless it starts with a sign. */
  lemma EncodedChunk(a: char, b: char)
    requires ParseChunk(a, b).Some?
    ensures IsDigit(b) && b != '+' && (IsDigit(a) <==> a != '+')
    ensures var byte := ParseChunk(a, b).value;
      a != '+' <==> [Digit(byte / 16), Digit(byte % 16)] == [LowerChar(a), LowerChar(b)]
  {
    if a == '+' {
      SignedChunk(b);
    } else {
      UnsignedChunk(a, b);
      LowerDigit(b);
    }
  }

  /**
    Re-encoding what was decoded gives back the lower-cased body, exactly when the body holds no `+`:
    the number parser underneath takes a leading `+` in a two-character chunk for a sign.
   */
  lemma EncodeInvertsDecode(s: string)
    requires DecodeHex(s).Success?
    ensures EncodeHex(DecodeHex(s).value) == Lower(Body(s)) <==> !HasSign(Body(s))
    ensures !HasSign(Body(s)) <==> AllDigits(Body(s))
  {
    EncodeDecodeChunks(Body(s));
    DecodedSigns(Body(s));
  }

  lemma TightBody(s: string)
    requires Tight(s) && |s| == 2 && s[1] != 'x'
    ensures Body(s) == s
  {
  }

  lemma OneByte(b: Byte, s: string)
    requires |s| == 2 && ParseChunk(s[0], s[1]) == Some(b)
    ensures DecodeChunks(s) == Success([b])
    ensures EncodeHex([b]) == [Digit(b / 16), Digit(b % 16)]
  {
    var none: Bytes := [];
    assert s[..0] == "";
    assert none + [b] == [b];
    SnocParts(none, b);
  }

  /** The inputs that show it: a signed digit decodes, and comes back with a zero for the sign. */
  lemma SignedChunkDecodes(c: char, b: Byte)
    requires DigitValue(c) == Some(b)
    ensures DecodeHex(['+', c]) == Success([b]) && EncodeHex([b]) == ['0', LowerChar(c)]
  {
    LowerDigit(c);
    TightBody(['+', c]);
    OneByte(b, ['+', c]);
    assert b / 16 == 0 && b % 16 == b;
    assert Digit(0) == '0';
  }

  /** Every even-length body of hexadecimal digits decodes. */
  lemma {:induction false} DigitsDecode(s: string)
    requires |s| % 2 == 0 && AllDigits(s)
    ensures DecodeChunks(s).Success?
  {
    if s != "" {
      DigitsDecode(s[..|s| - 2]);
      assert IsDigit(s[|s| - 2]) && IsDigit(s[|s| - 1]);
      LowerDigit(s[|s| - 2]);
    }
  }

  /** The 32-byte form succeeds exactly for a decodable body of 64 characters. */
  lemma Decode32Length(s: string)
    ensures DecodeHex32(s).Success? <==> DecodeHex(s).Success? && |Body(s)| == 64
    ensures DecodeHex32(s).Success? ==> DecodeHex32(s) == DecodeHex(s) && |DecodeHex32(s).value| == 32
  {
    if DecodeHex(s).Success? {
      DecodedLength(Body(s));
    }
  }
}
