/** UTF-8 on the wire: Go writes it, and the browser's TextDecoder reads it in streaming
    mode, keeping the bytes of an unfinished character for the next chunk. */
module Utf8 {

  type byte = b: int | 0 <= b < 256

  function EncodeChar(c: char): seq<byte> {
    var n := c as int;
    if n < 0x80 then [n]
    else if n < 0x800 then [0xC0 + n / 64, 0x80 + n % 64]
    else if n < 0x10000 then [0xE0 + n / 4096, 0x80 + n / 64 % 64, 0x80 + n % 64]
    else [0xF0 + n / 262144, 0x80 + n / 4096 % 64, 0x80 + n / 64 % 64, 0x80 + n % 64]
  }

  function Encode(s: string): seq<byte> {
    if s == "" then [] else EncodeChar(s[0]) + Encode(s[1..])
  }

  /** How many bytes the character led by `b` takes. */
  function Need(b: byte): nat {
    if 0xC0 <= b < 0xE0 then 2 else if 0xE0 <= b < 0xF0 then 3 else if 0xF0 <= b < 0xF8 then 4 else 1
  }

  function CodePoint(bs: seq<byte>): int
    requires 1 <= |bs| <= 4
  {
    if |bs| == 1 then bs[0] as int
    else if |bs| == 2 then (bs[0] as int - 0xC0) * 64 + (bs[1] as int - 0x80)
    else if |bs| == 3 then (bs[0] as int - 0xE0) * 4096 + (bs[1] as int - 0x80) * 64 + (bs[2] as int - 0x80)
    else (bs[0] as int - 0xF0) * 262144 + (bs[1] as int - 0x80) * 4096 + (bs[2] as int - 0x80) * 64
         + (bs[3] as int - 0x80)
  }

  /** The character a complete byte group stands for; U+FFFD for one that stands for none. */
  function DecodeChar(bs: seq<byte>): char
    requires 1 <= |bs| <= 4
  {
    var n := CodePoint(bs);
    if 0 <= n < 0xD800 || 0xE000 <= n < 0x11_0000 then n as char else '\U{FFFD}'
  }

  /** The text of the complete characters of `bs`. */
  function Decoded(bs: seq<byte>): string
    decreases |bs|
  {
    if bs == [] || |bs| < Need(bs[0]) then ""
    else [DecodeChar(bs[..Need(bs[0])])] + Decoded(bs[Need(bs[0])..])
  }

  /** The bytes of the unfinished last character. */
  function Pending(bs: seq<byte>): seq<byte>
    decreases |bs|
  {
    if bs == [] || |bs| < Need(bs[0]) then bs else Pending(bs[Need(bs[0])..])
  }

  /** Decoding may stop anywhere and go on with the pending bytes. */
  lemma {:induction false} DecodeInParts(a: seq<byte>, b: seq<byte>)
    ensures Decoded(a + b) == Decoded(a) + Decoded(Pending(a) + b)
    ensures Pending(a + b) == Pending(Pending(a) + b)
    decreases |a|
  {
    if a != [] && Need(a[0]) <= |a| {
      var k := Need(a[0]);
      assert (a + b)[..k] == a[..k] && (a + b)[k..] == a[k..] + b;
      DecodeInParts(a[k..], b);
    }
  }

  /** The encoding of section 3 of RFC 3629, at each length and at the boundaries between them. */
  lemma EncodedAsInRFC3629()
    ensures EncodeChar('A') == [0x41] && EncodeChar('\U{7F}') == [0x7F]
    ensures EncodeChar('\U{80}') == [0xC2, 0x80] && EncodeChar('\U{E5}') == [0xC3, 0xA5]
    ensures EncodeChar('\U{7FF}') == [0xDF, 0xBF] && EncodeChar('\U{800}') == [0xE0, 0xA0, 0x80]
    ensures EncodeChar('\U{20AC}') == [0xE2, 0x82, 0xAC] && EncodeChar('\U{FFFF}') == [0xEF, 0xBF, 0xBF]
    ensures EncodeChar('\U{10000}') == [0xF0, 0x90, 0x80, 0x80] && EncodeChar('\U{1F600}') == [0xF0, 0x9F, 0x98, 0x80]
  {
  }

  lemma CharRoundTrip(c: char)
    ensures var bs := EncodeChar(c); 1 <= |bs| <= 4 && Need(bs[0]) == |bs| && DecodeChar(bs) == c
  {
    var n := c as int;
    assert n == n / 64 * 64 + n % 64 && n / 64 == n / 4096 * 64 + n / 64 % 64
        && n / 4096 == n / 262144 * 64 + n / 4096 % 64;
    assert n >= 0x800 && n < 0x10000 ==> CodePoint(EncodeChar(c)) == n;
    assert n >= 0x10000 ==> CodePoint(EncodeChar(c)) == n;
  }

  /** Decoding undoes encoding and leaves nothing pending. */
  lemma {:induction false} RoundTrip(s: string)
    ensures Decoded(Encode(s)) == s && Pending(Encode(s)) == []
    decreases |s|
  {
    if s != "" {
      var c, bs := EncodeChar(s[0]), Encode(s);
      CharRoundTrip(s[0]);
      RoundTrip(s[1..]);
      assert bs[0] == c[0] && bs[..|c|] == c && bs[|c|..] == Encode(s[1..]);
    }
  }

  lemma {:induction false} EncodeAppend(s: string, t: string)
    ensures Encode(s + t) == Encode(s) + Encode(t)
    decreases |s|
  {
    if s == "" {
      assert s + t == t;
    } else {
      assert (s + t)[1..] == s[1..] + t;
      EncodeAppend(s[1..], t);
    }
  }
}
