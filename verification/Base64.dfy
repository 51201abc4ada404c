/**
 Base64 with the URL-safe alphabet of section 5 of RFC 4648, padding omitted
 (section 3.2), and a decoder that refuses stray trailing bits (section 3.5).
 */
module Base64 {
  import opened Prelude

  type sextet = x: int | 0 <= x < 64

  function ToChar(x: sextet): char {
    if x < 26 then ('A' as int + x) as char
    else if x < 52 then ('a' as int + (x - 26)) as char
    else if x < 62 then ('0' as int + (x - 52)) as char
    else if x == 62 then '-' else '_'
  }

  function FromChar(c: char): Option<sextet> {
    if 'A' <= c <= 'Z' then Some(c as int - 'A' as int)
    else if 'a' <= c <= 'z' then Some(c as int - 'a' as int + 26)
    else if '0' <= c <= '9' then Some(c as int - '0' as int + 52)
    else if c == '-' then Some(62)
    else if c == '_' then Some(63)
    else None
  }

  lemma {:induction false} CharsAreSextets(x: sextet, c: char)
    ensures FromChar(c) == Some(x) <==> c == ToChar(x)
    ensures ToChar(x) != '.'
  {
  }

  // Numbers as bits, the highest first

  function Power2(width: nat): nat {
    if width == 0 then 1 else 2 * Power2(width - 1)
  }

  function Bits(n: nat, width: nat): (r: seq<bool>)
    ensures |r| == width
  {
    if width == 0 then [] else Bits(n / 2, width - 1) + [n % 2 == 1]
  }

  function Number(bits: seq<bool>): (n: nat)
    ensures n < Power2(|bits|)
  {
    if bits == [] then 0
    else
      var front := Number(bits[..|bits| - 1]);
      if bits[|bits| - 1] then 2 * front + 1 else 2 * front
  }

  lemma {:induction false} BitsOfNumber(bits: seq<bool>)
    ensures Bits(Number(bits), |bits|) == bits
  {
    if bits != [] {
      BitsOfNumber(bits[..|bits| - 1]);
      assert Number(bits) / 2 == Number(bits[..|bits| - 1]);
      assert bits == bits[..|bits| - 1] + [bits[|bits| - 1]];
    }
  }

  lemma {:induction false} NumberOfBits(n: nat, width: nat)
    requires n < Power2(width)
    ensures Number(Bits(n, width)) == n
  {
    if width > 0 {
      NumberOfBits(n / 2, width - 1);
      var bits := Bits(n, width);
      assert bits[..|bits| - 1] == Bits(n / 2, width - 1) && bits[|bits| - 1] == (n % 2 == 1);
    }
  }

  // Numbers of one width, joined to a stream of bits and cut from it again

  predicate Fit(xs: seq<nat>, width: nat) {
    forall i :: 0 <= i < |xs| ==> xs[i] < Power2(width)
  }

  function Stream(xs: seq<nat>, width: nat): seq<bool> {
    if xs == [] then [] else Bits(xs[0], width) + Stream(xs[1..], width)
  }

  function Groups(bits: seq<bool>, width: nat): (xs: seq<nat>)
    requires width > 0
    ensures Fit(xs, width)
  {
    if |bits| < width then [] else [Number(bits[..width])] + Groups(bits[width..], width)
  }

  /** The bits that do not fill a group. */
  function Leftover(bits: seq<bool>, width: nat): (rest: seq<bool>)
    requires width > 0
    ensures |rest| < width
  {
    if |bits| < width then bits else Leftover(bits[width..], width)
  }

  lemma {:induction false} StreamOfOneMore(x: nat, xs: seq<nat>, width: nat)
    ensures Stream([x] + xs, width) == Bits(x, width) + Stream(xs, width)
  {
    assert ([x] + xs)[1..] == xs;
  }

  lemma {:induction false} Rejoined(first: seq<bool>, front: seq<bool>, back: seq<bool>, later: seq<bool>)
    requires front + back == later
    ensures first + front + back == first + later
  {
  }

  lemma {:induction false} StreamOfFirst(bits: seq<bool>, width: nat)
    requires 0 < width <= |bits|
    ensures Stream(Groups(bits, width), width) == bits[..width] + Stream(Groups(bits[width..], width), width)
  {
    BitsOfNumber(bits[..width]);
    StreamOfOneMore(Number(bits[..width]), Groups(bits[width..], width), width);
  }

  lemma {:induction false} StreamOfGroups(bits: seq<bool>, width: nat)
    requires width > 0
    ensures Stream(Groups(bits, width), width) + Leftover(bits, width) == bits
  {
    if |bits| < width {
      assert [] + bits == bits;
    } else {
      var later := bits[width..];
      StreamOfGroups(later, width);
      StreamOfFirst(bits, width);
      Rejoined(bits[..width], Stream(Groups(later, width), width), Leftover(later, width), later);
      assert bits[..width] + later == bits;
    }
  }

  lemma {:induction false} GroupsOfStream(xs: seq<nat>, width: nat, more: seq<bool>)
    requires width > 0 && Fit(xs, width)
    ensures Groups(Stream(xs, width) + more, width) == xs + Groups(more, width)
    ensures Leftover(Stream(xs, width) + more, width) == Leftover(more, width)
  {
    if xs == [] {
      assert [] + more == more && xs + Groups(more, width) == Groups(more, width);
    } else {
      var first, rest := Bits(xs[0], width), Stream(xs[1..], width);
      GroupsOfStream(xs[1..], width, more);
      NumberOfBits(xs[0], width);
      Associative(first, rest, more);
      assert (first + (rest + more))[..width] == first && (first + (rest + more))[width..] == rest + more;
      assert xs == [xs[0]] + xs[1..];
      Associative([xs[0]], xs[1..], Groups(more, width));
    }
  }

  function Zeros(n: nat): (bits: seq<bool>)
    ensures |bits| == n && true !in bits
  {
    if n == 0 then [] else [false] + Zeros(n - 1)
  }

  lemma {:induction false} OnlyZeros(bits: seq<bool>)
    requires true !in bits
    ensures bits == Zeros(|bits|)
  {
    forall i | 0 <= i < |bits| ensures bits[i] == Zeros(|bits|)[i] {
      assert bits[i] in bits && Zeros(|bits|)[i] in Zeros(|bits|);
    }
  }

  /** Filled up with zeros to a whole number of groups. */
  function Padded(bits: seq<bool>, width: nat): seq<bool>
    requires width > 0
  {
    var rest := Leftover(bits, width);
    if rest == [] then bits else bits + Zeros(width - |rest|)
  }

  lemma {:induction false} PaddedIsWhole(bits: seq<bool>, width: nat)
    requires width > 0
    ensures Leftover(Padded(bits, width), width) == []
  {
    var xs, rest := Groups(bits, width), Leftover(bits, width);
    if rest != [] {
      var zeros := Zeros(width - |rest|);
      StreamOfGroups(bits, width);
      Associative(Stream(xs, width), rest, zeros);
      GroupsOfStream(xs, width, rest + zeros);
      assert (rest + zeros)[width..] == [];
    }
  }

  lemma {:induction false} WholeIfShort(bits: seq<bool>, width: nat)
    requires width > 0 && |bits| < 2 * width && Leftover(bits, width) == []
    ensures |bits| == 0 || |bits| == width
  {
    if |bits| >= width {
      assert Leftover(bits[width..], width) == bits[width..];
    }
  }

  /** No other number of zeros, less than a group, makes the groups whole. */
  lemma {:induction false} PaddingIsUnique(bits: seq<bool>, zeros: seq<bool>, width: nat)
    requires width > 0 && |zeros| < width && true !in zeros && Leftover(bits + zeros, width) == []
    ensures Padded(bits, width) == bits + zeros
  {
    var xs, rest := Groups(bits, width), Leftover(bits, width);
    assert Leftover(rest + zeros, width) == [] by {
      StreamOfGroups(bits, width);
      Associative(Stream(xs, width), rest, zeros);
      GroupsOfStream(xs, width, rest + zeros);
    }
    WholeIfShort(rest + zeros, width);
    OnlyZeros(zeros);
    if rest == [] {
      assert bits + zeros == bits;
    }
  }

  // Bytes and sextets

  const BYTE: nat := 8
  const SEXTET: nat := 6

  lemma {:induction false} Widths()
    ensures Power2(BYTE) == 256 && Power2(SEXTET) == 64
  {
    assert Power2(4) == 16;
    assert Power2(6) == 64;
  }

  function Pack(b: bytes): seq<sextet> {
    var xs := Groups(Padded(Stream(b, BYTE), SEXTET), SEXTET);
    Widths();
    assert forall i :: 0 <= i < |xs| ==> xs[i] < 64;
    xs
  }

  /** Fails if a sextet is left over, or stray bits are set. */
  function Unpack(x: seq<sextet>): Option<bytes> {
    var bits := Stream(x, SEXTET);
    var rest := Leftover(bits, BYTE);
    if |rest| >= SEXTET || true in rest then None
    else
      var xs := Groups(bits, BYTE);
      Widths();
      assert forall i :: 0 <= i < |xs| ==> xs[i] < 256;
      Some(xs)
  }

  lemma {:induction false} StreamOfPack(b: bytes)
    ensures Stream(Pack(b), SEXTET) == Padded(Stream(b, BYTE), SEXTET)
  {
    var padded := Padded(Stream(b, BYTE), SEXTET);
    PaddedIsWhole(Stream(b, BYTE), SEXTET);
    StreamOfGroups(padded, SEXTET);
    assert Stream(Pack(b), SEXTET) + [] == Stream(Pack(b), SEXTET);
  }

  lemma {:induction false} UnpackOfPack(b: bytes)
    ensures Unpack(Pack(b)) == Some(b)
  {
    var bits := Stream(b, BYTE);
    var rest := Leftover(bits, SEXTET);
    var zeros := if rest == [] then [] else Zeros(SEXTET - |rest|);
    StreamOfPack(b);
    assert Stream(Pack(b), SEXTET) == bits + zeros by {
      assert bits + [] == bits;
    }
    Widths();
    GroupsOfStream(b, BYTE, zeros);
    assert Groups(zeros, BYTE) == [] && b + [] == b;
    assert Leftover(zeros, BYTE) == zeros;
  }

  lemma {:induction false} PackOfUnpack(x: seq<sextet>)
    requires Unpack(x).Some?
    ensures Pack(Unpack(x).value) == x
  {
    var bits, b := Stream(x, SEXTET), Unpack(x).value;
    var rest := Leftover(bits, BYTE);
    Widths();
    StreamOfGroups(bits, BYTE);
    assert bits == Stream(b, BYTE) + rest;
    GroupsOfStream(x, SEXTET, []);
    assert bits + [] == bits && x + [] == x;
    PaddingIsUnique(Stream(b, BYTE), rest, SEXTET);
  }

  // Texts

  function Spell(x: seq<sextet>): string {
    if x == [] then "" else [ToChar(x[0])] + Spell(x[1..])
  }

  function Sextets(s: string): Option<seq<sextet>> {
    if s == "" then Some([])
    else match (FromChar(s[0]), Sextets(s[1..]))
      case (Some(x), Some(xs)) => Some([x] + xs)
      case _ => None
  }

  function Encode(b: bytes): string {
    Spell(Pack(b))
  }

  function Decode(s: string): Option<bytes> {
    match Sextets(s)
    case None => None
    case Some(x) => Unpack(x)
  }

  lemma {:induction false} SextetsInvertSpell(s: string, x: seq<sextet>)
    ensures Sextets(s) == Some(x) <==> s == Spell(x)
  {
    if s != "" && x != [] {
      SextetsInvertSpell(s[1..], x[1..]);
      CharsAreSextets(x[0], s[0]);
      assert s == [s[0]] + s[1..] && x == [x[0]] + x[1..];
      if Sextets(s) == Some(x) {
        assert Sextets(s[1..]).Some?;
        assert Sextets(s).value[1..] == Sextets(s[1..]).value;
      }
      if s == Spell(x) {
        assert Spell(x)[1..] == Spell(x[1..]);
      }
    }
  }

  /** A text decodes to `b` exactly when it is the encoding of `b`: the two are inverse on all inputs. */
  lemma {:induction false} DecodeInvertsEncode(s: string, b: bytes)
    ensures Decode(s) == Some(b) <==> s == Encode(b)
  {
    UnpackOfPack(b);
    SextetsInvertSpell(s, Pack(b));
    if Decode(s).Some? {
      PackOfUnpack(Sextets(s).value);
    }
  }

  lemma {:induction false} SpellHasNoDot(x: seq<sextet>)
    ensures '.' !in Spell(x)
  {
    if x != [] {
      CharsAreSextets(x[0], '.');
      SpellHasNoDot(x[1..]);
    }
  }

  lemma {:induction false} EncodeHasNoDot(b: bytes)
    ensures '.' !in Encode(b)
  {
    SpellHasNoDot(Pack(b));
  }
}
