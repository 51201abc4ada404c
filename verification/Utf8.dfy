/** UTF-8 (RFC 3629), as strings cross the bridge. */
module Utf8 {
  import opened Prelude

  function EncodeChar(c: char): (b: bytes)
    ensures 1 <= |b| <= 4
  {
    var n := c as int;
    if n < 0x80 then [n]
    else if n < 0x800 then [0xC0 + n / 0x40, 0x80 + n % 0x40]
    else if n < 0x1_0000 then [0xE0 + n / 0x1000, 0x80 + n / 0x40 % 0x40, 0x80 + n % 0x40]
    else [0xF0 + n / 0x4_0000, 0x80 + n / 0x1000 % 0x40, 0x80 + n / 0x40 % 0x40, 0x80 + n % 0x40]
  }

  function Encode(s: string): bytes {
    if s == "" then [] else EncodeChar(s[0]) + Encode(s[1..])
  }

  /** How many bytes a leading byte announces. */
  function Length(lead: byte): nat {
    if lead < 0x80 then 1 else if lead < 0xE0 then 2 else if lead < 0xF0 then 3 else 4
  }

  /** The number that the bytes of one character spell. */
  function Spelled(b: seq<int>): int
    requires 1 <= |b| <= 4
  {
    if |b| == 1 then b[0]
    else if |b| == 2 then (b[0] - 0xC0) * 0x40 + (b[1] - 0x80)
    else if |b| == 3 then (b[0] - 0xE0) * 0x1000 + (b[1] - 0x80) * 0x40 + (b[2] - 0x80)
    else (b[0] - 0xF0) * 0x4_0000 + (b[1] - 0x80) * 0x1000 + (b[2] - 0x80) * 0x40 + (b[3] - 0x80)
  }

  predicate IsScalar(n: int) {
    0 <= n < 0xD800 || 0xE000 <= n < 0x11_0000
  }

  /** The first character, if it is well-formed; overlong forms, surrogates and stray bytes are not. */
  function DecodeFirst(b: bytes): Option<char>
    requires b != []
  {
    var n := Length(b[0]);
    if |b| < n then None
    else if !IsScalar(Spelled(b[..n])) then None
    else
      var c := Spelled(b[..n]) as char;
      if EncodeChar(c) == b[..n] then Some(c) else None
  }

  function Decode(b: bytes): Option<string>
    decreases |b|
  {
    if b == [] then Some("")
    else match DecodeFirst(b)
      case None => None
      case Some(c) =>
        match Decode(b[Length(b[0])..])
        case None => None
        case Some(s) => Some([c] + s)
  }

  lemma {:induction false} CharSpelled(c: char)
    ensures Length(EncodeChar(c)[0]) == |EncodeChar(c)|
    ensures Spelled(EncodeChar(c)) == c as int && IsScalar(c as int)
  {
    var n := c as int;
    if 0x80 <= n < 0x800 {
      assert n / 0x40 < 0x20;
    } else if 0x800 <= n < 0x1_0000 {
      assert n / 0x1000 < 0x10 && n / 0x40 == n / 0x1000 * 0x40 + n / 0x40 % 0x40;
    } else if 0x1_0000 <= n {
      assert n / 0x40 == n / 0x1000 * 0x40 + n / 0x40 % 0x40 && n / 0x1000 == n / 0x4_0000 * 0x40 + n / 0x1000 % 0x40;
    }
  }

  lemma {:induction false} FirstOf(c: char, rest: bytes)
    ensures DecodeFirst(EncodeChar(c) + rest) == Some(c)
    ensures var b := EncodeChar(c) + rest; b[Length(b[0])..] == rest
  {
    var b := EncodeChar(c) + rest;
    CharSpelled(c);
    assert b[0] == EncodeChar(c)[0] && b[..|EncodeChar(c)|] == EncodeChar(c);
  }

  lemma {:induction false} EncodingDecodes(s: string)
    ensures Decode(Encode(s)) == Some(s)
  {
    if s != "" {
      FirstOf(s[0], Encode(s[1..]));
      EncodingDecodes(s[1..]);
      assert s == [s[0]] + s[1..];
    }
  }

  lemma {:induction false} DecodedIsEncoding(b: bytes)
    ensures Decode(b).Some? ==> Encode(Decode(b).value) == b
    decreases |b|
  {
    if b != [] && Decode(b).Some? {
      var n, s := Length(b[0]), Decode(b).value;
      assert b == b[..n] + b[n..];
      assert s[1..] == Decode(b[n..]).value;
      DecodedIsEncoding(b[n..]);
    }
  }

  /** Bytes decode to a string exactly if they are its encoding. */
  lemma {:induction false} DecodeInvertsEncode(b: bytes, s: string)
    ensures Decode(b) == Some(s) <==> b == Encode(s)
  {
    EncodingDecodes(s);
    DecodedIsEncoding(b);
  }
}
