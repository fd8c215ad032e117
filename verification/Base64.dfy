/**
 Base64 (RFC 4648 sections 4 and 5) and base16 as Go's encoding packages read and write them:
 decoders drop CR and LF, ignore trailing bits, and the padded and unpadded forms are distinct.
 */
module Base64 {
  import opened Prelude

  datatype Alphabet = Std | Url
  type sextet = x: int | 0 <= x < 64

  function CharOf(a: Alphabet, x: sextet): octet {
    if x < 26 then ('A' as int + x) as char
    else if x < 52 then ('a' as int + (x - 26)) as char
    else if x < 62 then ('0' as int + (x - 52)) as char
    else if x == 62 then (if a.Std? then '+' else '-')
    else (if a.Std? then '/' else '_')
  }

  function IndexOf(a: Alphabet, c: char): Option<sextet> {
    if 'A' <= c <= 'Z' then Some(c as int - 'A' as int)
    else if 'a' <= c <= 'z' then Some(c as int - 'a' as int + 26)
    else if '0' <= c <= '9' then Some(c as int - '0' as int + 52)
    else if c == (if a.Std? then '+' else '-') then Some(62)
    else if c == (if a.Std? then '/' else '_') then Some(63)
    else None
  }

  predicate InAlphabet(a: Alphabet, s: string) {
    forall i :: 0 <= i < |s| ==> IndexOf(a, s[i]).Some?
  }

  /** The unpadded encoding (`RawStdEncoding`, `RawURLEncoding`). */
  function EncodeRaw(a: Alphabet, b: seq<byte>): (s: text)
    ensures InAlphabet(a, s)
    ensures |s| == (4 * |b| + 2) / 3
  {
    if |b| == 0 then []
    else if |b| == 1 then [CharOf(a, b[0] / 4), CharOf(a, b[0] % 4 * 16)]
    else if |b| == 2 then
      [CharOf(a, b[0] / 4), CharOf(a, b[0] % 4 * 16 + b[1] / 16), CharOf(a, b[1] % 16 * 4)]
    else EncodeTriple(a, b[0], b[1], b[2]) + EncodeRaw(a, b[3..])
  }

  function EncodeTriple(a: Alphabet, b0: byte, b1: byte, b2: byte): (s: text)
    ensures |s| == 4 && InAlphabet(a, s)
  {
    [CharOf(a, b0 / 4), CharOf(a, b0 % 4 * 16 + b1 / 16), CharOf(a, b1 % 16 * 4 + b2 / 64), CharOf(a, b2 % 64)]
  }

  /** The padded encoding (`StdEncoding`). */
  function EncodePadded(a: Alphabet, b: seq<byte>): text {
    EncodeRaw(a, b) + Padding(|b|)
  }

  function Padding(n: nat): text {
    if n % 3 == 1 then "==" else if n % 3 == 2 then "=" else ""
  }

  function DropNewlines(s: string): string {
    if s == "" then ""
    else if s[0] == '\n' || s[0] == '\r' then DropNewlines(s[1..])
    else [s[0]] + DropNewlines(s[1..])
  }

  function Decode(a: Alphabet, padded: bool, s: string): Option<seq<byte>> {
    DecodeQuanta(a, padded, DropNewlines(s))
  }

  function DecodeQuanta(a: Alphabet, padded: bool, s: string): Option<seq<byte>> {
    if s == "" then Some([])
    else if |s| >= 4 && InAlphabet(a, s[..4]) then
      match DecodeQuanta(a, padded, s[4..])
      case None => None
      case Some(rest) => Some(DecodeQuantum(a, s[..4]) + rest)
    else if padded then
      if |s| != 4 || s[3] != '=' then None
      else if s[2] == '=' then DecodeTail(a, s[..2]) else DecodeTail(a, s[..3])
    else DecodeTail(a, s)
  }

  function DecodeQuantum(a: Alphabet, s: string): (b: seq<byte>)
    requires |s| == 4 && InAlphabet(a, s)
    ensures |b| == 3
  {
    var x0, x1 := IndexOf(a, s[0]).value, IndexOf(a, s[1]).value;
    var x2, x3 := IndexOf(a, s[2]).value, IndexOf(a, s[3]).value;
    [x0 * 4 + x1 / 16, x1 % 16 * 16 + x2 / 4, x2 % 4 * 64 + x3]
  }

  /** A final quantum of two or three characters. */
  function DecodeTail(a: Alphabet, s: string): Option<seq<byte>> {
    if (|s| != 2 && |s| != 3) || !InAlphabet(a, s) then None
    else
      var x0, x1 := IndexOf(a, s[0]).value, IndexOf(a, s[1]).value;
      if |s| == 2 then Some([x0 * 4 + x1 / 16])
      else Some([x0 * 4 + x1 / 16, x1 % 16 * 16 + IndexOf(a, s[2]).value / 4])
  }

  lemma {:induction false} NoNewlines(s: string)
    requires forall i :: 0 <= i < |s| ==> s[i] != '\n' && s[i] != '\r'
    ensures DropNewlines(s) == s
  {
    if s != "" {
      NoNewlines(s[1..]);
      assert [s[0]] + s[1..] == s;
    }
  }

  /** A short text is a final quantum. */
  lemma TailDecodes(a: Alphabet, s: string)
    requires 2 <= |s| <= 3 && forall i :: 0 <= i < |s| ==> s[i] != '\n' && s[i] != '\r'
    ensures Decode(a, false, s) == DecodeTail(a, s)
  { NoNewlines(s); }

  lemma IndexOfCharOf(a: Alphabet, x: sextet)
    ensures IndexOf(a, CharOf(a, x)) == Some(x)
  {}

  lemma QuantumOfSextets(a: Alphabet, x0: sextet, x1: sextet, x2: sextet, x3: sextet)
    ensures InAlphabet(a, [CharOf(a, x0), CharOf(a, x1), CharOf(a, x2), CharOf(a, x3)])
    ensures DecodeQuantum(a, [CharOf(a, x0), CharOf(a, x1), CharOf(a, x2), CharOf(a, x3)]) ==
            [x0 * 4 + x1 / 16, x1 % 16 * 16 + x2 / 4, x2 % 4 * 64 + x3]
  {
    IndexOfCharOf(a, x0);
    IndexOfCharOf(a, x1);
    IndexOfCharOf(a, x2);
    IndexOfCharOf(a, x3);
  }

  lemma Regroup(b0: byte, b1: byte, b2: byte)
    ensures b0 / 4 * 4 + (b0 % 4 * 16 + b1 / 16) / 16 == b0
    ensures (b0 % 4 * 16 + b1 / 16) % 16 * 16 + (b1 % 16 * 4 + b2 / 64) / 4 == b1
    ensures (b1 % 16 * 4 + b2 / 64) % 4 * 64 + b2 % 64 == b2
  {}

  lemma TripleRoundTrip(a: Alphabet, b0: byte, b1: byte, b2: byte)
    ensures DecodeQuantum(a, EncodeTriple(a, b0, b1, b2)) == [b0, b1, b2]
  {
    QuantumOfSextets(a, b0 / 4, b0 % 4 * 16 + b1 / 16, b1 % 16 * 4 + b2 / 64, b2 % 64);
    Regroup(b0, b1, b2);
  }

  lemma QuantaStep(a: Alphabet, padded: bool, head: string, rest: string)
    requires |head| == 4 && InAlphabet(a, head) && DecodeQuanta(a, padded, rest).Some?
    ensures DecodeQuanta(a, padded, head + rest) ==
            Some(DecodeQuantum(a, head) + DecodeQuanta(a, padded, rest).value)
  {}

  lemma TailRoundTrip(a: Alphabet, b: seq<byte>)
    requires 1 <= |b| <= 2
    ensures DecodeTail(a, EncodeRaw(a, b)) == Some(b)
  {
    hide IndexOf, CharOf;
    var b1 := if |b| == 1 then 0 else b[1];
    IndexOfCharOf(a, b[0] / 4);
    IndexOfCharOf(a, b[0] % 4 * 16 + b1 / 16);
    IndexOfCharOf(a, b1 % 16 * 4);
    Regroup(b[0], b1, 0);
    assert b == if |b| == 1 then [b[0]] else [b[0], b1];
  }

  lemma TailPadded(a: Alphabet, b: seq<byte>)
    requires 1 <= |b| <= 2
    ensures DecodeQuanta(a, true, EncodePadded(a, b)) == DecodeTail(a, EncodeRaw(a, b))
  {}

  lemma {:induction false} EncodeStep(a: Alphabet, b: seq<byte>)
    requires |b| >= 3
    ensures EncodeRaw(a, b) == EncodeTriple(a, b[0], b[1], b[2]) + EncodeRaw(a, b[3..])
    ensures EncodePadded(a, b) == EncodeTriple(a, b[0], b[1], b[2]) + EncodePadded(a, b[3..])
  {
    var head, rest := EncodeTriple(a, b[0], b[1], b[2]), EncodeRaw(a, b[3..]);
    assert |b[3..]| % 3 == |b| % 3;
    assert EncodeRaw(a, b) == head + rest;
    assert EncodePadded(a, b) == head + rest + Padding(|b|);
  }

  lemma {:induction false} QuantaRoundTrip(a: Alphabet, padded: bool, b: seq<byte>)
    ensures DecodeQuanta(a, padded, if padded then EncodePadded(a, b) else EncodeRaw(a, b)) == Some(b)
  {
    if |b| >= 3 {
      var head := EncodeTriple(a, b[0], b[1], b[2]);
      var rest := if padded then EncodePadded(a, b[3..]) else EncodeRaw(a, b[3..]);
      QuantaRoundTrip(a, padded, b[3..]);
      TripleRoundTrip(a, b[0], b[1], b[2]);
      QuantaStep(a, padded, head, rest);
      EncodeStep(a, b);
      assert b == [b[0], b[1], b[2]] + b[3..];
    } else if b != [] {
      TailRoundTrip(a, b);
      if padded { TailPadded(a, b); }
    }
  }

  /** Decoding undoes encoding, padded and unpadded, in both alphabets. */
  lemma {:induction false} RoundTrip(a: Alphabet, padded: bool, b: seq<byte>)
    ensures Decode(a, padded, if padded then EncodePadded(a, b) else EncodeRaw(a, b)) == Some(b)
  {
    NoNewlines(if padded then EncodePadded(a, b) else EncodeRaw(a, b));
    QuantaRoundTrip(a, padded, b);
  }

  lemma {:induction false} DropNewlinesShortens(s: string)
    ensures |DropNewlines(s)| <= |s|
  {
    if s != "" { DropNewlinesShortens(s[1..]); }
  }

  /** The decoded length is fixed by the length without newlines, up to two pad characters. */
  lemma {:induction false} DecodedLength(a: Alphabet, padded: bool, s: string)
    requires Decode(a, padded, s).Some?
    ensures var n, m := |DropNewlines(s)|, |Decode(a, padded, s).value|;
            if padded then n % 4 == 0 && 3 * n / 4 - 2 <= m <= 3 * n / 4 else m == 3 * n / 4
  {
    QuantaLength(a, padded, DropNewlines(s));
  }

  lemma {:induction false} QuantaLength(a: Alphabet, padded: bool, s: string)
    requires DecodeQuanta(a, padded, s).Some?
    ensures var n, m := |s|, |DecodeQuanta(a, padded, s).value|;
            if padded then n % 4 == 0 && 3 * n / 4 - 2 <= m <= 3 * n / 4 else m == 3 * n / 4
  {
    if |s| >= 4 && InAlphabet(a, s[..4]) { QuantaLength(a, padded, s[4..]); }
  }

  function NibbleOf(c: char): Option<int> {
    if '0' <= c <= '9' then Some(c as int - '0' as int)
    else if 'a' <= c <= 'f' then Some(c as int - 'a' as int + 10)
    else if 'A' <= c <= 'F' then Some(c as int - 'A' as int + 10)
    else None
  }

  function HexChar(x: int): octet
    requires 0 <= x < 16
  {
    if x < 10 then ('0' as int + x) as char else ('a' as int + (x - 10)) as char
  }

  function HexEncode(b: seq<byte>): (s: text)
    ensures |s| == 2 * |b|
    ensures InAlphabet(Std, s)
  {
    if b == [] then [] else [HexChar(b[0] / 16), HexChar(b[0] % 16)] + HexEncode(b[1..])
  }

  /** `hex.DecodeString`: either case, whole pairs only. */
  function HexDecode(s: string): Option<seq<byte>> {
    if s == "" then Some([])
    else if |s| == 1 || NibbleOf(s[0]).None? || NibbleOf(s[1]).None? then None
    else match HexDecode(s[2..])
      case None => None
      case Some(rest) => Some([NibbleOf(s[0]).value * 16 + NibbleOf(s[1]).value] + rest)
  }

  lemma {:induction false} HexRoundTrip(b: seq<byte>)
    ensures HexDecode(HexEncode(b)) == Some(b)
  {
    if b != [] {
      HexRoundTrip(b[1..]);
      assert HexEncode(b)[2..] == HexEncode(b[1..]);
      assert b == [b[0]] + b[1..];
    }
  }

  lemma {:induction false} HexDecodedLength(s: string)
    requires HexDecode(s).Some?
    ensures 2 * |HexDecode(s).value| == |s|
  {
    if s != "" { HexDecodedLength(s[2..]); }
  }

  // The alphabets, and what a decoder accepts.

  /** The corners of both alphabets (tables 1 and 2 of RFC 4648) and of base16, where either case is read. */
  lemma Alphabets(a: Alphabet)
    ensures CharOf(a, 0) == 'A' && CharOf(a, 25) == 'Z' && CharOf(a, 26) == 'a' && CharOf(a, 51) == 'z'
    ensures CharOf(a, 52) == '0' && CharOf(a, 61) == '9'
    ensures CharOf(Std, 62) == '+' && CharOf(Std, 63) == '/' && CharOf(Url, 62) == '-' && CharOf(Url, 63) == '_'
    ensures HexChar(0) == '0' && HexChar(9) == '9' && HexChar(10) == 'a' && HexChar(15) == 'f'
    ensures NibbleOf('A') == NibbleOf('a') == Some(10) && NibbleOf('F') == NibbleOf('f') == Some(15)
  {}

  /** Test vectors of section 10 of RFC 4648. */
  lemma KnownTexts()
    ensures EncodePadded(Std, [102]) == "Zg==" && EncodePadded(Std, [102, 111]) == "Zm8="
    ensures EncodePadded(Std, [102, 111, 111]) == "Zm9v" && HexEncode([102]) == "66"
  {
    var foo: seq<byte> := [102, 111, 111];
    assert foo[3..] == [];
    assert EncodeRaw(Std, foo) == EncodeTriple(Std, 102, 111, 111) + EncodeRaw(Std, foo[3..]);
  }

  lemma {:induction false} DropNewlinesAt(x: string, c: char, y: string)
    requires c == '\n' || c == '\r'
    ensures DropNewlines(x + [c] + y) == DropNewlines(x + y)
  {
    if x == "" {
      assert (x + [c] + y)[1..] == y && x + y == y;
    } else {
      DropNewlinesAt(x[1..], c, y);
      assert (x + [c] + y)[1..] == x[1..] + [c] + y && (x + y)[1..] == x[1..] + y;
    }
  }

  /** A line break anywhere in the text changes nothing. */
  lemma DecodeIgnoresNewlines(a: Alphabet, padded: bool, x: string, c: char, y: string)
    requires c == '\n' || c == '\r'
    ensures Decode(a, padded, x + [c] + y) == Decode(a, padded, x + y)
  {
    hide DropNewlines, DecodeQuanta;
    DropNewlinesAt(x, c, y);
  }

  lemma {:induction false} QuantaInAlphabet(a: Alphabet, s: string)
    requires DecodeQuanta(a, false, s).Some?
    ensures InAlphabet(a, s) && |s| % 4 != 1
  {
    hide IndexOf;
    if |s| >= 4 && InAlphabet(a, s[..4]) {
      QuantaInAlphabet(a, s[4..]);
      assert forall i :: 0 <= i < |s| ==> s[i] == if i < 4 then s[..4][i] else s[4..][i - 4];
    }
  }

  lemma {:induction false} QuantaDecode(a: Alphabet, s: string)
    requires InAlphabet(a, s) && |s| % 4 != 1
    ensures DecodeQuanta(a, false, s).Some?
  {
    hide IndexOf;
    if |s| >= 4 {
      assert InAlphabet(a, s[..4]) && InAlphabet(a, s[4..]);
      QuantaDecode(a, s[4..]);
    }
  }

  /** Without padding, exactly the texts over the alphabet that do not end in a single character are read. */
  lemma DecodesExactly(a: Alphabet, s: string)
    ensures Decode(a, false, s).Some? <==> InAlphabet(a, DropNewlines(s)) && |DropNewlines(s)| % 4 != 1
  {
    hide DropNewlines, DecodeQuanta, IndexOf;
    if Decode(a, false, s).Some? { QuantaInAlphabet(a, DropNewlines(s)); }
    if InAlphabet(a, DropNewlines(s)) && |DropNewlines(s)| % 4 != 1 { QuantaDecode(a, DropNewlines(s)); }
  }

  /** With padding, whole groups of four are read, and what stands before one or two pad characters as without them. */
  lemma {:induction false} QuantaPadded(a: Alphabet, s: string, pad: nat)
    requires |s| % 4 == 0 && pad <= 2 && pad <= |s| && s[|s| - pad..] == "=="[..pad] && InAlphabet(a, s[..|s| - pad])
    ensures DecodeQuanta(a, true, s) == DecodeQuanta(a, false, s[..|s| - pad]) && DecodeQuanta(a, true, s).Some?
  {
    hide IndexOf;
    if |s| == 4 && pad > 0 {
      assert s[3] == s[|s| - pad..][pad - 1] == '=' && (pad == 2 ==> s[2] == s[|s| - pad..][0] == '=');
      assert pad == 1 ==> s[2] == s[..3][2];
      assert s[..4] == s && !InAlphabet(a, s) by { EqualsIsNoCode(a); }
    } else if s != "" {
      var rest := s[4..];
      assert s[..4] == s[..|s| - pad][..4] && s[..|s| - pad][4..] == rest[..|rest| - pad];
      assert rest[|rest| - pad..] == s[|s| - pad..];
      QuantaPadded(a, rest, pad);
    }
  }

  lemma EqualsIsNoCode(a: Alphabet)
    ensures IndexOf(a, '=').None?
  {}

  lemma {:induction false} QuantaAccepted(a: Alphabet, s: string) returns (pad: nat)
    requires DecodeQuanta(a, true, s).Some?
    ensures |s| % 4 == 0 && pad <= 2 && pad <= |s| && s[|s| - pad..] == "=="[..pad] && InAlphabet(a, s[..|s| - pad])
  {
    hide IndexOf;
    if s == "" {
      pad := 0;
    } else if |s| >= 4 && InAlphabet(a, s[..4]) {
      pad := QuantaAccepted(a, s[4..]);
      assert s[|s| - pad..] == s[4..][|s| - 4 - pad..];
      assert s[..|s| - pad] == s[..4] + s[4..][..|s| - 4 - pad];
    } else {
      pad := if s[2] == '=' then 2 else 1;
    }
  }

  /** With padding, exactly the texts of whole groups are read that are over the alphabet before at most two pads. */
  lemma DecodesPaddedExactly(a: Alphabet, s: string)
    ensures var t := DropNewlines(s);
            Decode(a, true, s).Some? <==>
            |t| % 4 == 0 && exists pad: nat :: pad <= 2 && pad <= |t| && t[|t| - pad..] == "=="[..pad] &&
                                               InAlphabet(a, t[..|t| - pad])
  {
    hide DropNewlines, DecodeQuanta, IndexOf;
    var t := DropNewlines(s);
    if Decode(a, true, s).Some? { var pad := QuantaAccepted(a, t); }
    if |t| % 4 == 0 {
      if pad: nat :| pad <= 2 && pad <= |t| && t[|t| - pad..] == "=="[..pad] && InAlphabet(a, t[..|t| - pad]) {
        QuantaPadded(a, t, pad);
      }
    }
  }

  /** Hex is read exactly if it consists of whole pairs of digits, and then byte by byte. */
  lemma {:induction false} HexDecodesExactly(s: string)
    ensures HexDecode(s).Some? <==> |s| % 2 == 0 && forall i :: 0 <= i < |s| ==> NibbleOf(s[i]).Some?
    ensures HexDecode(s).Some? ==>
              var b := HexDecode(s).value;
              |s| == 2 * |b| && forall i :: 0 <= i < |b| ==>
                                  NibbleOf(s[2 * i]) == Some(b[i] / 16) && NibbleOf(s[2 * i + 1]) == Some(b[i] % 16)
  {
    hide NibbleOf;
    if |s| >= 2 {
      HexDecodesExactly(s[2..]);
      assert forall i :: 2 <= i < |s| ==> s[i] == s[2..][i - 2];
      NibbleRange(s[0]);
      NibbleRange(s[1]);
      if HexDecode(s).Some? {
        var b, rest := HexDecode(s).value, HexDecode(s[2..]).value;
        forall i | 0 <= i < |b|
          ensures NibbleOf(s[2 * i]) == Some(b[i] / 16) && NibbleOf(s[2 * i + 1]) == Some(b[i] % 16)
        { if i > 0 { assert b[i] == rest[i - 1] && s[2 * i] == s[2..][2 * (i - 1)]; } }
      }
    }
  }

  lemma NibbleRange(c: char)
    ensures NibbleOf(c).Some? ==> 0 <= NibbleOf(c).value < 16
  {}
}
