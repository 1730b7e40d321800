/**
 * UTF-8 (RFC 3629): the names that core::str::from_utf8 accepts are the ones that spell characters.
 */
module Utf8Text {
  import opened Bytes
  import opened Names

  /** A Unicode scalar value: a code point that is not a surrogate. */
  predicate Scalar(c: nat) {
    c < 0xD800 || 0xE000 <= c < 0x110000
  }

  /** The encoding of section 3 of RFC 3629. */
  function Encoded(c: nat): (s: seq<byte>)
    requires Scalar(c)
    ensures 1 <= |s| <= 4
  {
    if c < 0x80 then [c]
    else if c < 0x800 then [0xC0 + c / 64, 0x80 + c % 64]
    else if c < 0x10000 then [0xE0 + c / 4096, 0x80 + c / 64 % 64, 0x80 + c % 64]
    else [0xF0 + c / 262144, 0x80 + c / 4096 % 64, 0x80 + c / 64 % 64, 0x80 + c % 64]
  }

  ghost predicate AllScalars(cs: seq<nat>) {
    forall i :: 0 <= i < |cs| ==> Scalar(cs[i])
  }

  ghost function Spell(cs: seq<nat>): seq<byte>
    requires AllScalars(cs)
  {
    if cs == [] then [] else Encoded(cs[0]) + Spell(cs[1..])
  }

  lemma Digits(a: nat, b: nat, c: nat, d: nat)
    requires b < 64 && c < 64 && d < 64
    ensures var n := a * 262144 + b * 4096 + c * 64 + d;
            n / 262144 == a && n / 4096 == a * 64 + b && n / 4096 % 64 == b && n / 64 % 64 == c && n % 64 == d
  {
    var n := a * 262144 + b * 4096 + c * 64 + d;
    DivTwice(n);
    LastDigit(a * 4096 + b * 64 + c, d);
    LastDigit(a * 64 + b, c);
    LastDigit(a, b);
  }

  lemma LastDigit(n: nat, d: nat)
    requires d < 64
    ensures (n * 64 + d) / 64 == n && (n * 64 + d) % 64 == d
  {
  }

  lemma DivTwice(n: nat)
    ensures n / 4096 == n / 64 / 64 && n / 262144 == n / 64 / 64 / 64
  {
  }

  lemma TwoBytes(s: seq<byte>) returns (c: nat)
    requires s != [] && Utf8Step(s) == 2
    ensures Scalar(c) && Encoded(c) == s[..2]
  {
    var b0: int, b1: int := s[0] - 0xC0, s[1] - 0x80;
    c := b0 * 64 + b1;
    Digits(0, 0, b0, b1);
  }

  lemma ThreeBytes(s: seq<byte>) returns (c: nat)
    requires s != [] && Utf8Step(s) == 3
    ensures Scalar(c) && Encoded(c) == s[..3]
  {
    var b0: int, b1: int, b2: int := s[0] - 0xE0, s[1] - 0x80, s[2] - 0x80;
    c := b0 * 4096 + b1 * 64 + b2;
    Digits(0, b0, b1, b2);
  }

  lemma FourBytes(s: seq<byte>) returns (c: nat)
    requires s != [] && Utf8Step(s) == 4
    ensures Scalar(c) && Encoded(c) == s[..4]
  {
    var b0: int, b1: int, b2: int, b3: int := s[0] - 0xF0, s[1] - 0x80, s[2] - 0x80, s[3] - 0x80;
    c := b0 * 262144 + b1 * 4096 + b2 * 64 + b3;
    Digits(b0, b1, b2, b3);
  }

  /** The first character of s, if its first bytes are one. */
  lemma FirstChar(s: seq<byte>) returns (c: nat)
    requires s != [] && Utf8Step(s) > 0
    ensures Scalar(c) && Encoded(c) == s[..Utf8Step(s)]
  {
    match Utf8Step(s)
    case 1 => c := s[0];
    case 2 => c := TwoBytes(s);
    case 3 => c := ThreeBytes(s);
    case _ => c := FourBytes(s);
  }

  lemma EncodedStep(c: nat, s: seq<byte>)
    requires Scalar(c)
    ensures Utf8Step(Encoded(c) + s) == |Encoded(c)|
  {
    var e := Encoded(c);
    var t := e + s;
    assert t[0] == e[0];
    if c < 0x80 {
    } else if c < 0x800 {
      assert t[1] == e[1];
    } else if c < 0x10000 {
      assert t[1] == e[1] && t[2] == e[2];
    } else {
      assert t[1] == e[1] && t[2] == e[2] && t[3] == e[3];
    }
  }

  /** A byte string is well-formed exactly when it spells some characters. */
  lemma {:induction false} Utf8Spells(s: seq<byte>)
    ensures Utf8(s) <==> exists cs :: AllScalars(cs) && Spell(cs) == s
  {
    if Utf8(s) {
      var cs := Read(s);
    }
    if cs :| AllScalars(cs) && Spell(cs) == s {
      SpellIsUtf8(cs);
    }
  }

  lemma {:induction false} Read(s: seq<byte>) returns (cs: seq<nat>)
    requires Utf8(s)
    ensures AllScalars(cs) && Spell(cs) == s
    decreases |s|
  {
    if s == [] {
      cs := [];
    } else {
      var c := FirstChar(s);
      var rest := Read(s[Utf8Step(s)..]);
      cs := [c] + rest;
      assert cs[1..] == rest;
    }
  }

  lemma {:induction false} SpellIsUtf8(cs: seq<nat>)
    requires AllScalars(cs)
    ensures Utf8(Spell(cs))
  {
    if cs != [] {
      var e, t := Encoded(cs[0]), Spell(cs[1..]);
      EncodedStep(cs[0], t);
      SpellIsUtf8(cs[1..]);
      assert (e + t)[|e|..] == t;
    }
  }
}
