/** Text as bytes: UTF-8 as section 3 of RFC 3629 defines it, strict as Rust's
    `String::from_utf8` is. */
module Utf8 {
  import opened Basics
  import Text

  newtype Byte = x: int | 0 <= x < 256

  function EncodeChar(c: char): (bytes: seq<Byte>)
    ensures |bytes| == Text.Utf8Width(c)
  {
    var n := c as int;
    if n < 0x80 then [n as Byte]
    else if n < 0x800 then [(0xC0 + n / 64) as Byte, Tail(n)]
    else if n < 0x1_0000 then [(0xE0 + n / 4096) as Byte, Tail(n / 64), Tail(n)]
    else [(0xF0 + n / 262_144) as Byte, Tail(n / 4096), Tail(n / 64), Tail(n)]
  }

  /** A continuation byte for the low six bits. */
  function Tail(n: nat): Byte {
    (0x80 + n % 64) as Byte
  }

  predicate IsTail(b: Byte) {
    0x80 <= b < 0xC0
  }

  function Encode(s: string): (bytes: seq<Byte>)
    ensures |bytes| == Text.Utf8Length(s)
  {
    if s == "" then [] else EncodeChar(s[0]) + Encode(s[1..])
  }

  predicate IsScalar(n: int) {
    0 <= n < 0xD800 || 0xE000 <= n < 0x11_0000
  }

  /** The character of `width` bytes whose value is `n`: no overlong form, no surrogate. */
  function CharOf(n: int, least: int, width: nat): Option<(char, nat)> {
    if IsScalar(n) && least <= n then Some((n as char, width)) else None
  }

  /** The first character and its width. */
  function DecodeFirst(b: seq<Byte>): (first: Option<(char, nat)>)
    requires b != []
    ensures first.Some? ==> 0 < first.value.1 <= |b|
  {
    var lead := b[0] as int;
    if lead < 0x80 then Some((lead as char, 1))
    else if 0xC0 <= lead < 0xE0 && 2 <= |b| && IsTail(b[1]) then
      CharOf((lead - 0xC0) * 64 + Low(b[1]), 0x80, 2)
    else if 0xE0 <= lead < 0xF0 && 3 <= |b| && IsTail(b[1]) && IsTail(b[2]) then
      CharOf((lead - 0xE0) * 4096 + Low(b[1]) * 64 + Low(b[2]), 0x800, 3)
    else if 0xF0 <= lead < 0xF8 && 4 <= |b| && IsTail(b[1]) && IsTail(b[2]) && IsTail(b[3]) then
      CharOf((lead - 0xF0) * 262_144 + Low(b[1]) * 4096 + Low(b[2]) * 64 + Low(b[3]), 0x1_0000, 4)
    else None
  }

  function Low(b: Byte): int {
    b as int - 0x80
  }

  function Decode(b: seq<Byte>): Option<string>
    decreases |b|
  {
    if b == [] then Some("")
    else
      var first := DecodeFirst(b);
      if first.None? then None
      else
        var rest := Decode(b[first.value.1..]);
        if rest.None? then None else Some([first.value.0] + rest.value)
  }

  lemma DecodeOfEncodeChar(c: char, rest: seq<Byte>)
    ensures EncodeChar(c) + rest != []
    ensures DecodeFirst(EncodeChar(c) + rest) == Some((c, Text.Utf8Width(c)))
  {
    var b := EncodeChar(c) + rest;
    assert forall i :: 0 <= i < |EncodeChar(c)| ==> b[i] == EncodeChar(c)[i];
    CharIsScalar(c);
    SixBits(c as int);
  }

  lemma CharIsScalar(c: char)
    ensures IsScalar(c as int)
  {
  }

  /** A number is its six-bit digits. */
  lemma SixBits(n: nat)
    ensures n == n / 64 * 64 + n % 64
    ensures n == n / 4096 * 4096 + n / 64 % 64 * 64 + n % 64
    ensures n == n / 262_144 * 262_144 + n / 4096 % 64 * 4096 + n / 64 % 64 * 64 + n % 64
  {
    assert n / 4096 == n / 64 / 64 && n / 262_144 == n / 4096 / 64;
  }

  lemma TwoDigits(a: nat, x: nat)
    requires x < 64
    ensures (a * 64 + x) / 64 == a && (a * 64 + x) % 64 == x
  {
  }

  lemma ThreeDigits(a: nat, x: nat, y: nat)
    requires x < 64 && y < 64
    ensures var n := a * 4096 + x * 64 + y; n / 4096 == a && n / 64 % 64 == x && n % 64 == y
  {
    TwoDigits(a * 64 + x, y);
    assert (a * 4096 + x * 64 + y) / 64 == a * 64 + x;
    TwoDigits(a, x);
  }

  lemma FourDigits(a: nat, x: nat, y: nat, z: nat)
    requires x < 64 && y < 64 && z < 64
    ensures var n := a * 262_144 + x * 4096 + y * 64 + z;
            n / 262_144 == a && n / 4096 % 64 == x && n / 64 % 64 == y && n % 64 == z
  {
    var n := a * 262_144 + x * 4096 + y * 64 + z;
    TwoDigits(a * 4096 + x * 64 + y, z);
    assert n / 64 == a * 4096 + x * 64 + y;
    ThreeDigits(a, x, y);
    assert n / 4096 == n / 64 / 64 && n / 262_144 == n / 64 / 4096;
  }

  lemma TwoByteForm(a: nat, x: nat)
    requires a < 32 && x < 64 && 0x80 <= a * 64 + x
    ensures EncodeChar((a * 64 + x) as char) == [(0xC0 + a) as Byte, (0x80 + x) as Byte]
  {
    TwoDigits(a, x);
  }

  lemma ThreeByteForm(a: nat, x: nat, y: nat)
    requires a < 16 && x < 64 && y < 64
    requires var n := a * 4096 + x * 64 + y; 0x800 <= n && IsScalar(n)
    ensures EncodeChar((a * 4096 + x * 64 + y) as char)
         == [(0xE0 + a) as Byte, (0x80 + x) as Byte, (0x80 + y) as Byte]
  {
    ThreeDigits(a, x, y);
  }

  lemma FourByteForm(a: nat, x: nat, y: nat, z: nat)
    requires a < 8 && x < 64 && y < 64 && z < 64
    requires var n := a * 262_144 + x * 4096 + y * 64 + z; 0x1_0000 <= n && IsScalar(n)
    ensures EncodeChar((a * 262_144 + x * 4096 + y * 64 + z) as char)
         == [(0xF0 + a) as Byte, (0x80 + x) as Byte, (0x80 + y) as Byte, (0x80 + z) as Byte]
  {
    FourDigits(a, x, y, z);
  }

  /** What decodes to a character is its encoding: overlong forms do not. */
  lemma EncodeOfDecodeFirst(b: seq<Byte>)
    requires b != []
    ensures var first := DecodeFirst(b);
            first.Some? ==>
              && first.value.1 == Text.Utf8Width(first.value.0)
              && EncodeChar(first.value.0) == b[..first.value.1]
  {
    var lead, first := b[0] as int, DecodeFirst(b);
    if first.Some? && first.value.1 > 1 {
      hide EncodeChar;
      if first.value.1 == 2 {
        TwoByteForm(lead - 0xC0, Low(b[1]));
      } else if first.value.1 == 3 {
        ThreeByteForm(lead - 0xE0, Low(b[1]), Low(b[2]));
      } else {
        FourByteForm(lead - 0xF0, Low(b[1]), Low(b[2]), Low(b[3]));
      }
    }
  }

  /** Decoding undoes encoding and accepts nothing else: bytes decode exactly when they are
      some text's, and to that text. */
  lemma {:induction false} DecodeIff(b: seq<Byte>, s: string)
    ensures Decode(b) == Some(s) <==> b == Encode(s)
    decreases |b|
  {
    hide EncodeChar, DecodeFirst;
    if b != [] {
      var first := DecodeFirst(b);
      if Decode(b) == Some(s) {
        var width := first.value.1;
        EncodeOfDecodeFirst(b);
        DecodeIff(b[width..], s[1..]);
        assert b == b[..width] + b[width..];
      }
      if b == Encode(s) {
        DecodeOfEncodeChar(s[0], Encode(s[1..]));
        var width := Text.Utf8Width(s[0]);
        assert b[width..] == Encode(s[1..]);
        DecodeIff(b[width..], s[1..]);
        assert [s[0]] + s[1..] == s;
      }
    }
  }
}
