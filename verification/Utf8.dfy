/**
 UTF-8 as Go's encoding/json treats it: `json.Marshal` writes every byte that does not start a
 well-formed sequence as U+FFFD, so a string survives a marshal/unmarshal trip only if it is well formed.
 */
module Utf8 {
  import opened Prelude

  predicate Between(c: octet, lo: int, hi: int) { lo <= c as int <= hi }
  predicate Trails(c: octet) { Between(c, 0x80, 0xBF) }

  /** Width of the well-formed sequence at the start of `s`, 0 when there is none. */
  function Width(s: text): (w: nat)
    ensures w <= 4 && w <= |s|
  {
    if |s| >= 1 && Between(s[0], 0, 0x7F) then 1
    else if |s| >= 2 && Between(s[0], 0xC2, 0xDF) && Trails(s[1]) then 2
    else if |s| >= 3 && Between(s[0], 0xE0, 0xEF) && Trails(s[1]) && Trails(s[2])
            && (s[0] as int == 0xE0 ==> Between(s[1], 0xA0, 0xBF))
            && (s[0] as int == 0xED ==> Between(s[1], 0x80, 0x9F)) then 3
    else if |s| >= 4 && Between(s[0], 0xF0, 0xF4) && Trails(s[1]) && Trails(s[2]) && Trails(s[3])
            && (s[0] as int == 0xF0 ==> Between(s[1], 0x90, 0xBF))
            && (s[0] as int == 0xF4 ==> Between(s[1], 0x80, 0x8F)) then 4
    else 0
  }

  predicate WellFormed(s: text) {
    s == [] || (Width(s) > 0 && WellFormed(s[Width(s)..]))
  }

  const REPLACEMENT: text := [0xEF as char, 0xBF as char, 0xBD as char]

  /** What is left of `s` after a JSON marshal and unmarshal. */
  function Coerced(s: text): text {
    if s == [] then []
    else if Width(s) == 0 then REPLACEMENT + Coerced(s[1..])
    else s[..Width(s)] + Coerced(s[Width(s)..])
  }

  lemma {:induction false} CoercedLength(s: text)
    ensures |Coerced(s)| >= |s|
    ensures |Coerced(s)| == |s| ==> WellFormed(s)
  {
    hide Width;
    if s != [] {
      CoercedLength(s[if Width(s) == 0 then 1 else Width(s)..]);
    }
  }

  /** Exactly the well-formed strings survive. */
  lemma {:induction false} CoercedIdentity(s: text)
    ensures Coerced(s) == s <==> WellFormed(s)
  {
    hide Width;
    CoercedLength(s);
    if WellFormed(s) && s != [] {
      CoercedIdentity(s[Width(s)..]);
      assert s == s[..Width(s)] + s[Width(s)..];
    }
  }

  lemma WidthOfPrefix(s: text, t: text)
    requires Width(s) > 0
    ensures Width(s[..Width(s)] + t) == Width(s)
  {}

  lemma {:induction false} CoercedWellFormed(s: text)
    ensures WellFormed(Coerced(s))
  {
    if s != [] {
      var w := Width(s);
      var rest := Coerced(s[if w == 0 then 1 else w..]);
      CoercedWellFormed(s[if w == 0 then 1 else w..]);
      if w == 0 {
        assert (REPLACEMENT + rest)[3..] == rest;
      } else {
        WidthOfPrefix(s, rest);
        assert (s[..w] + rest)[w..] == rest;
      }
    }
  }

  predicate Ascii(s: string) { forall i :: 0 <= i < |s| ==> s[i] as int < 0x80 }

  lemma {:induction false} AsciiWellFormed(s: text)
    requires Ascii(s)
    ensures WellFormed(s)
  {
    if s != [] { AsciiWellFormed(s[1..]); }
  }

  // Width against the definition of the encoding (section 3 of RFC 3629).

  predicate Scalar(c: nat) { c < 0xD800 || 0xE000 <= c <= 0x10FFFF }

  /** The bytes of a code point. */
  function Encoded(c: nat): (s: text)
    requires Scalar(c)
    ensures 1 <= |s| <= 4
  {
    if c < 0x80 then [c as char]
    else if c < 0x800 then [(0xC0 + c / 64) as char, (0x80 + c % 64) as char]
    else if c < 0x10000 then [(0xE0 + c / 4096) as char, (0x80 + c / 64 % 64) as char, (0x80 + c % 64) as char]
    else [(0xF0 + c / 262144) as char, (0x80 + c / 4096 % 64) as char, (0x80 + c / 64 % 64) as char,
          (0x80 + c % 64) as char]
  }

  /** The replacement is U+FFFD. */
  lemma ReplacementCharacter()
    ensures REPLACEMENT == Encoded(0xFFFD)
  {}

  lemma ShortHasWidth(c: nat, rest: text)
    requires c < 0x800
    ensures Width(Encoded(c) + rest) == |Encoded(c)|
  {
    var e := Encoded(c);
    assert (e + rest)[..|e|] == e;
  }

  lemma ThreeHasWidth(c: nat, rest: text)
    requires Scalar(c) && 0x800 <= c < 0x10000
    ensures Width(Encoded(c) + rest) == |Encoded(c)|
  {
    var e := Encoded(c);
    assert (e + rest)[0] == e[0] && (e + rest)[1] == e[1] && (e + rest)[2] == e[2];
  }

  lemma FourHasWidth(c: nat, rest: text)
    requires 0x10000 <= c <= 0x10FFFF
    ensures Width(Encoded(c) + rest) == |Encoded(c)|
  {
    var e := Encoded(c);
    assert (e + rest)[0] == e[0] && (e + rest)[1] == e[1] && (e + rest)[2] == e[2] && (e + rest)[3] == e[3];
  }

  lemma EncodedHasWidth(c: nat, rest: text)
    requires Scalar(c)
    ensures Width(Encoded(c) + rest) == |Encoded(c)|
  {
    hide Width, Encoded;
    if c < 0x800 { ShortHasWidth(c, rest); } else if c < 0x10000 { ThreeHasWidth(c, rest); }
        else { FourHasWidth(c, rest); }
  }

  /** The base-64 digits of a number. */
  lemma Digits(x: nat, y: nat, z: nat)
    requires y < 64 && z < 64
    ensures (x * 64 + y) / 64 == x && (x * 64 + y) % 64 == y
    ensures var c := x * 4096 + y * 64 + z; c / 4096 == x && c / 64 % 64 == y && c % 64 == z && c / 64 == x * 64 + y
  {}

  lemma FourDigits(x: nat, y: nat, z: nat, u: nat)
    requires y < 64 && z < 64 && u < 64
    ensures var c := x * 262144 + y * 4096 + z * 64 + u;
            c / 262144 == x && c / 4096 % 64 == y && c / 64 % 64 == z && c % 64 == u
  {
    var c := x * 262144 + y * 4096 + z * 64 + u;
    Digits(x * 64 + y, z, u);
    Digits(x, y, 0);
    assert c == (x * 64 + y) * 4096 + z * 64 + u;
    assert c / 262144 == x;
  }

  lemma ShortIsEncoded(s: text) returns (c: nat)
    requires 1 <= Width(s) <= 2
    ensures Scalar(c) && Encoded(c) == s[..Width(s)]
  {
    if Width(s) == 1 {
      c := s[0] as int;
    } else {
      var x, y := s[0] as int - 0xC0, s[1] as int - 0x80;
      Digits(x, y, 0);
      c := x * 64 + y;
      assert Encoded(c) == [s[0], s[1]] == s[..2];
    }
  }

  lemma ThreeIsEncoded(s: text) returns (c: nat)
    requires Width(s) == 3
    ensures Scalar(c) && Encoded(c) == s[..3]
  {
    var x, y, z := s[0] as int - 0xE0, s[1] as int - 0x80, s[2] as int - 0x80;
    Digits(x, y, z);
    c := x * 4096 + y * 64 + z;
    assert 0x800 <= c < 0x10000 && Scalar(c);
    assert Encoded(c) == [s[0], s[1], s[2]] == s[..3];
  }

  lemma FourIsEncoded(s: text) returns (c: nat)
    requires Width(s) == 4
    ensures Scalar(c) && Encoded(c) == s[..4]
  {
    var x, y, z, u := s[0] as int - 0xF0, s[1] as int - 0x80, s[2] as int - 0x80, s[3] as int - 0x80;
    FourDigits(x, y, z, u);
    c := x * 262144 + y * 4096 + z * 64 + u;
    assert 0x10000 <= c <= 0x10FFFF;
    assert Encoded(c) == [s[0], s[1], s[2], s[3]] == s[..4];
  }

  lemma WidthIsEncoded(s: text) returns (c: nat)
    requires Width(s) > 0
    ensures Scalar(c) && Encoded(c) == s[..Width(s)]
  {
    hide Width, Encoded;
    if Width(s) <= 2 { c := ShortIsEncoded(s); } else if Width(s) == 3 { c := ThreeIsEncoded(s); }
        else { c := FourIsEncoded(s); }
  }

  function EncodedAll(cs: seq<nat>): text
    requires forall c :: c in cs ==> Scalar(c)
  { if cs == [] then [] else Encoded(cs[0]) + EncodedAll(cs[1..]) }

  lemma {:induction false} EncodedAllWellFormed(cs: seq<nat>)
    requires forall c :: c in cs ==> Scalar(c)
    ensures WellFormed(EncodedAll(cs))
  {
    hide Width;
    if cs != [] {
      EncodedAllWellFormed(cs[1..]);
      EncodedHasWidth(cs[0], EncodedAll(cs[1..]));
      assert EncodedAll(cs)[|Encoded(cs[0])|..] == EncodedAll(cs[1..]);
    }
  }

  lemma {:induction false} WellFormedDecodes(s: text) returns (cs: seq<nat>)
    requires WellFormed(s)
    ensures (forall c :: c in cs ==> Scalar(c)) && EncodedAll(cs) == s
  {
    hide Width, Encoded;
    if s == [] {
      cs := [];
    } else {
      var c := WidthIsEncoded(s);
      var rest := WellFormedDecodes(s[Width(s)..]);
      cs := [c] + rest;
      assert cs[1..] == rest && s == s[..Width(s)] + s[Width(s)..];
    }
  }

  /** A string is well formed exactly if it encodes some sequence of Unicode scalar values. */
  lemma WellFormedExactly(s: text)
    ensures WellFormed(s) <==> exists cs: seq<nat> :: (forall c :: c in cs ==> Scalar(c)) && EncodedAll(cs) == s
  {
    hide WellFormed, EncodedAll;
    if WellFormed(s) { var cs := WellFormedDecodes(s); }
    if cs: seq<nat> :| (forall c :: c in cs ==> Scalar(c)) && EncodedAll(cs) == s { EncodedAllWellFormed(cs); }
  }

  predicate Starts(c: nat, s: text)
    requires Scalar(c)
  { |Encoded(c)| <= |s| && s[..|Encoded(c)|] == Encoded(c) }

  lemma ReplacedFirst(b: octet, y: text)
    requires forall c :: Scalar(c) ==> !Starts(c, [b] + y)
    ensures Coerced([b] + y) == Encoded(0xFFFD) + Coerced(y)
  {
    ReplacementCharacter();
    hide Width, Encoded, REPLACEMENT;
    if Width([b] + y) > 0 {
      var c := WidthIsEncoded([b] + y);
      assert false;
    }
    assert ([b] + y)[1..] == y;
  }

  lemma CoercedStep(x: text, rest: text)
    requires x != [] && Width(x) > 0
    ensures Coerced(x + rest) == x[..Width(x)] + Coerced(x[Width(x)..] + rest)
  {
    hide Width;
    var w := Width(x);
    WidthOfPrefix(x, x[w..] + rest);
    assert x[..w] + (x[w..] + rest) == x + rest;
    assert (x + rest)[w..] == x[w..] + rest && (x + rest)[..w] == x[..w];
  }

  /** Well-formed parts are kept, and a byte that starts no code point becomes one replacement character. */
  lemma {:induction false} CoercedAt(x: text, b: octet, y: text)
    requires WellFormed(x) && forall c :: Scalar(c) ==> !Starts(c, [b] + y)
    ensures Coerced(x + ([b] + y)) == x + Encoded(0xFFFD) + Coerced(y)
  {
    hide Width, Encoded, Coerced;
    if x == [] {
      assert x + ([b] + y) == [b] + y;
      ReplacedFirst(b, y);
    } else {
      CoercedAt(x[Width(x)..], b, y);
      CoercedStep(x, [b] + y);
      assert x == x[..Width(x)] + x[Width(x)..];
    }
  }
}
