/** The text formats as the standards define them, character by character. */
module Standards {
  import opened Prelude
  import opened Base64
  import Utf8

  /** The examples of section 7 of RFC 3629. */
  lemma {:induction false} Utf8Vectors()
    ensures Utf8.Encode("A") == [0x41]
    ensures Utf8.Encode("\U{2262}") == [0xE2, 0x89, 0xA2]
    ensures Utf8.Encode("\U{0391}") == [0xCE, 0x91]
    ensures Utf8.Encode("\U{233B4}") == [0xF0, 0xA3, 0x8E, 0xB4]
  {
  }

  /** The alphabet of section 5 of RFC 4648: three runs of consecutive characters, and the last two. */
  lemma {:induction false} Alphabet(x: sextet)
    ensures ToChar(0) == 'A' && ToChar(25) == 'Z' && ToChar(26) == 'a' && ToChar(51) == 'z'
    ensures ToChar(52) == '0' && ToChar(61) == '9' && ToChar(62) == '-' && ToChar(63) == '_'
    ensures x !in {25, 51, 61, 62, 63} ==> ToChar(x + 1) as int == ToChar(x) as int + 1
  {
  }

  // Three bytes are four fields of six bits

  function Halved(n: nat, k: nat): nat {
    if k == 0 then n else Halved(n / 2, k - 1)
  }

  lemma {:induction false} SplitBits(n: nat, high: nat, low: nat)
    ensures Bits(n, high + low) == Bits(Halved(n, low), high) + Bits(n, low)
  {
    if low == 0 {
      assert Bits(n, high) + [] == Bits(n, high);
    } else {
      SplitBits(n / 2, high, low - 1);
      Associative(Bits(Halved(n, low), high), Bits(n / 2, low - 1), [n % 2 == 1]);
    }
  }

  lemma {:induction false} HigherPart(k: nat, n: nat, width: nat)
    ensures Bits(k * Power2(width) + n, width) == Bits(n, width)
  {
    if width > 0 {
      var p := k * Power2(width - 1);
      assert k * Power2(width) == 2 * p;
      HigherPart(k, n / 2, width - 1);
      assert (2 * p + n) / 2 == p + n / 2 && (2 * p + n) % 2 == n % 2;
    }
  }

  lemma {:induction false} UpperPart(upper: nat, lower: nat, width: nat)
    requires lower < Power2(width)
    ensures Halved(upper * Power2(width) + lower, width) == upper
  {
    if width > 0 {
      var p := upper * Power2(width - 1);
      assert upper * Power2(width) == 2 * p;
      assert (2 * p + lower) / 2 == p + lower / 2;
      UpperPart(upper, lower / 2, width - 1);
    }
  }

  /** The bits of a number in two parts are the bits of the parts. */
  lemma {:induction false} Parts(n: nat, upper: nat, lower: nat, high: nat, low: nat)
    requires lower < Power2(low) && n == upper * Power2(low) + lower
    ensures Bits(n, high + low) == Bits(upper, high) + Bits(lower, low)
  {
    SplitBits(n, high, low);
    UpperPart(upper, lower, low);
    HigherPart(upper, lower, low);
  }

  const TWO: nat := 2
  const FOUR: nat := 4

  lemma {:induction false} SmallPowers()
    ensures Power2(TWO) == 4 && Power2(FOUR) == 16 && Power2(SEXTET) == 64
  {
    assert Power2(4) == 4 * Power2(2) && Power2(6) == 4 * Power2(4);
  }

  lemma {:induction false} FirstByte(a: byte)
    ensures Bits(a, BYTE) == Bits(a / 4, SEXTET) + Bits(a % 4, TWO)
  {
    SmallPowers();
    Parts(a, a / 4, a % 4, SEXTET, TWO);
  }

  lemma {:induction false} SecondByte(b: byte)
    ensures Bits(b, BYTE) == Bits(b / 16, FOUR) + Bits(b % 16, FOUR)
  {
    SmallPowers();
    Parts(b, b / 16, b % 16, FOUR, FOUR);
  }

  lemma {:induction false} ThirdByte(c: byte)
    ensures Bits(c, BYTE) == Bits(c / 64, TWO) + Bits(c % 64, SEXTET)
  {
    SmallPowers();
    Parts(c, c / 64, c % 64, TWO, SEXTET);
  }

  /** A field of six bits is a part of one byte, and a part of the next. */
  lemma {:induction false} SecondField(field: nat, x: nat, y: nat)
    requires field == x * 16 + y && y < 16
    ensures Bits(field, SEXTET) == Bits(x, TWO) + Bits(y, FOUR)
  {
    SmallPowers();
    Parts(field, x, y, TWO, FOUR);
  }

  lemma {:induction false} ThirdField(field: nat, x: nat, y: nat)
    requires field == x * 4 + y && y < 4
    ensures Bits(field, SEXTET) == Bits(x, FOUR) + Bits(y, TWO)
  {
    SmallPowers();
    Parts(field, x, y, FOUR, TWO);
  }

  function Fields(a: byte, b: byte, c: byte): seq<sextet> {
    [a / 4, a % 4 * 16 + b / 16, b % 16 * 4 + c / 64, c % 64]
  }

  lemma {:induction false} SameStream(a: byte, b: byte, c: byte)
    ensures Stream(Fields(a, b, c), SEXTET) == Stream([a, b, c], BYTE)
  {
    var x, y, z, w := a / 4, a % 4 * 16 + b / 16, b % 16 * 4 + c / 64, c % 64;
    var q, r, s, t := Bits(a % 4, TWO), Bits(b / 16, FOUR), Bits(b % 16, FOUR), Bits(c / 64, TWO);
    assert Bits(a, BYTE) == Bits(x, SEXTET) + q by { FirstByte(a); }
    assert Bits(b, BYTE) == r + s by { SecondByte(b); }
    assert Bits(c, BYTE) == t + Bits(w, SEXTET) by { ThirdByte(c); }
    assert Bits(y, SEXTET) == q + r by { SecondField(y, a % 4, b / 16); }
    assert Bits(z, SEXTET) == s + t by { ThirdField(z, b % 16, c / 64); }
    Joined(a, b, c, x, y, z, w, q, r, s, t, BYTE, SEXTET);
  }

  lemma {:induction false} Joined(a: nat, b: nat, c: nat, x: nat, y: nat, z: nat, w: nat,
                                  q: seq<bool>, r: seq<bool>, s: seq<bool>, t: seq<bool>, eight: nat, six: nat)
    requires Bits(a, eight) == Bits(x, six) + q && Bits(y, six) == q + r && Bits(b, eight) == r + s
    requires Bits(z, six) == s + t && Bits(c, eight) == t + Bits(w, six)
    ensures Stream([x, y, z, w], six) == Stream([a, b, c], eight)
  {
    assert [x, y, z, w] == [x] + [y, z, w];
    StreamOfOneMore(x, [y, z, w], six);
    StreamOfThree(y, z, w, six);
    StreamOfThree(a, b, c, eight);
    Regrouped(Bits(x, six), q, r, s, t, Bits(w, six));
  }

  lemma {:induction false} Regrouped(p: seq<bool>, q: seq<bool>, r: seq<bool>, s: seq<bool>, t: seq<bool>, u: seq<bool>)
    ensures p + ((q + r) + ((s + t) + u)) == (p + q) + ((r + s) + (t + u))
  {
  }

  lemma {:induction false} StreamOfTwo(a: nat, b: nat, width: nat)
    ensures Stream([a], width) == Bits(a, width) && Stream([a, b], width) == Bits(a, width) + Bits(b, width)
  {
    assert [a, b] == [a] + [b] && [b] == [b] + [] && [a] == [a] + [];
    StreamOfOneMore(a, [b], width);
    StreamOfOneMore(a, [], width);
    StreamOfOneMore(b, [], width);
    assert Bits(a, width) + [] == Bits(a, width) && Bits(b, width) + [] == Bits(b, width);
  }

  lemma {:induction false} StreamOfThree(a: nat, b: nat, c: nat, width: nat)
    ensures Stream([a, b, c], width) == Bits(a, width) + (Bits(b, width) + Bits(c, width))
  {
    assert [a, b, c] == [a] + [b, c];
    StreamOfOneMore(a, [b, c], width);
    StreamOfTwo(b, c, width);
  }

  lemma {:induction false} StreamAppend(xs: seq<nat>, ys: seq<nat>, width: nat)
    ensures Stream(xs + ys, width) == Stream(xs, width) + Stream(ys, width)
  {
    if xs == [] {
      assert xs + ys == ys;
    } else {
      StreamAppend(xs[1..], ys, width);
      assert xs + ys == [xs[0]] + (xs[1..] + ys);
      StreamOfOneMore(xs[0], xs[1..] + ys, width);
      Associative(Bits(xs[0], width), Stream(xs[1..], width), Stream(ys, width));
    }
  }

  lemma {:induction false} PaddedAfter(xs: seq<nat>, later: seq<bool>, width: nat)
    requires width > 0 && Fit(xs, width)
    ensures Padded(Stream(xs, width) + later, width) == Stream(xs, width) + Padded(later, width)
  {
    var rest := Leftover(later, width);
    GroupsOfStream(xs, width, later);
    if rest != [] {
      Associative(Stream(xs, width), later, Zeros(width - |rest|));
    }
  }

  /** The definition of section 4 of RFC 4648: three bytes are written as four characters, and so on with the rest. */
  lemma {:induction false} ThreeBytesAreFourCharacters(a: byte, b: byte, c: byte, rest: bytes)
    ensures Pack([a, b, c] + rest) == [a / 4, a % 4 * 16 + b / 16, b % 16 * 4 + c / 64, c % 64] + Pack(rest)
  {
    var f, later := Fields(a, b, c), Stream(rest, BYTE);
    Widths();
    SameStream(a, b, c);
    StreamAppend([a, b, c], rest, BYTE);
    PaddedAfter(f, later, SEXTET);
    GroupsOfStream(f, SEXTET, Padded(later, SEXTET));
  }

  lemma {:induction false} NoBits(width: nat)
    ensures Bits(0, width) == Zeros(width)
  {
    NothingSet(width);
    OnlyZeros(Bits(0, width));
  }

  lemma {:induction false} NothingSet(width: nat)
    ensures true !in Bits(0, width)
  {
    if width > 0 {
      NothingSet(width - 1);
    }
  }

  /** What is left at the end: one byte makes two characters, two make three, with zeros for what is missing. */
  lemma {:induction false} OneByteAtTheEnd(a: byte)
    ensures Pack([a]) == [a / 4, a % 4 * 16]
  {
    var x, y := a / 4, a % 4 * 16;
    var rest := Bits(a % 4, TWO);
    Widths();
    assert Bits(a, BYTE) == Bits(x, SEXTET) + rest by { FirstByte(a); }
    assert Bits(y, SEXTET) == rest + Zeros(FOUR) by {
      SecondField(y, a % 4, 0);
      NoBits(FOUR);
    }
    StreamOfTwo(a, a, BYTE);
    StreamOfTwo(x, y, SEXTET);
    PaddedAfter([x], rest, SEXTET);
    WholeAlready([x, y]);
  }

  lemma {:induction false} WholeAlready(xs: seq<sextet>)
    ensures Groups(Stream(xs, SEXTET), SEXTET) == xs
  {
    Widths();
    GroupsOfStream(xs, SEXTET, []);
    assert Stream(xs, SEXTET) + [] == Stream(xs, SEXTET) && xs + [] == xs;
  }

  lemma {:induction false} TwoBytesAtTheEnd(a: byte, b: byte)
    ensures Pack([a, b]) == [a / 4, a % 4 * 16 + b / 16, b % 16 * 4]
  {
    var x, y, z := a / 4, a % 4 * 16 + b / 16, b % 16 * 4;
    var q, r, s := Bits(a % 4, TWO), Bits(b / 16, FOUR), Bits(b % 16, FOUR);
    Widths();
    assert Bits(a, BYTE) == Bits(x, SEXTET) + q by { FirstByte(a); }
    assert Bits(b, BYTE) == r + s by { SecondByte(b); }
    assert Bits(y, SEXTET) == q + r by { SecondField(y, a % 4, b / 16); }
    assert Bits(z, SEXTET) == s + Zeros(TWO) by {
      ThirdField(z, b % 16, 0);
      NoBits(TWO);
    }
    TwoJoined(a, b, x, y, q, r, s, BYTE, SEXTET);
    PaddedAfter([x, y], s, SEXTET);
    ThreeOfTwo(x, y, z, SEXTET);
    WholeAlready([x, y, z]);
  }

  lemma {:induction false} TwoJoined(a: nat, b: nat, x: nat, y: nat, q: seq<bool>, r: seq<bool>, s: seq<bool>, eight: nat, six: nat)
    requires Bits(a, eight) == Bits(x, six) + q && Bits(y, six) == q + r && Bits(b, eight) == r + s
    ensures Stream([a, b], eight) == Stream([x, y], six) + s
  {
    StreamOfTwo(a, b, eight);
    StreamOfTwo(x, y, six);
  }

  lemma {:induction false} ThreeOfTwo(x: nat, y: nat, z: nat, width: nat)
    ensures Stream([x, y, z], width) == Stream([x, y], width) + Bits(z, width)
  {
    StreamOfThree(x, y, z, width);
    StreamOfTwo(x, y, width);
    Associative(Bits(x, width), Bits(y, width), Bits(z, width));
  }
}
