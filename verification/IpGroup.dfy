/** The key that separates the rooms of the signaling server. */
module IpGroup {
  import opened Model
  import opened Text

  datatype IpAddr =
    | V4(a: u8, b: u8, c: u8, d: u8)
    | V6(s0: u16, s1: u16, s2: u16, s3: u16, s4: u16, s5: u16, s6: u16, s7: u16)

  function GetIpGroup(ip: IpAddr): string {
    match ip
    case V4(a, b, c, d) => Join(Decimals([a, b, c, d]), '.')
    case V6(s0, s1, s2, s3, _, _, _, _) => Join(Hexadecimals([s0, s1, s2, s3]), ':')
  }

  function Decimals(ns: seq<nat>): (ss: seq<string>)
    ensures |ss| == |ns|
  {
    if ns == [] then [] else [Number(ns[0], 10)] + Decimals(ns[1..])
  }

  function Hexadecimals(ns: seq<nat>): (ss: seq<string>)
    ensures |ss| == |ns|
  {
    if ns == [] then [] else [Number(ns[0], 16)] + Hexadecimals(ns[1..])
  }

  lemma {:induction false} DecimalsReadBack(ns: seq<nat>, ms: seq<nat>)
    ensures Decimals(ns) == Decimals(ms) <==> ns == ms
    ensures forall s :: s in Decimals(ns) ==> '.' !in s
  {
    if ns != [] {
      NumberHasOnlyDigits(ns[0], 10);
      NumberReadsBack(ns[0], 10);
      DecimalsReadBack(ns[1..], if ms == [] then [] else ms[1..]);
      if ms != [] {
        NumberReadsBack(ms[0], 10);
        assert ns == [ns[0]] + ns[1..] && ms == [ms[0]] + ms[1..];
        assert Decimals(ns)[0] == Number(ns[0], 10) && Decimals(ms)[0] == Number(ms[0], 10);
        assert Decimals(ns)[1..] == Decimals(ns[1..]) && Decimals(ms)[1..] == Decimals(ms[1..]);
      }
    }
  }

  lemma {:induction false} DecimalAt(ns: seq<nat>, i: nat)
    requires i < |ns|
    ensures Decimals(ns)[i] == Number(ns[i], 10)
  {
    if i > 0 {
      DecimalAt(ns[1..], i - 1);
    }
  }

  lemma {:induction false} HexadecimalsReadBack(ns: seq<nat>, ms: seq<nat>)
    ensures Hexadecimals(ns) == Hexadecimals(ms) <==> ns == ms
    ensures forall s :: s in Hexadecimals(ns) ==> ':' !in s && '.' !in s
  {
    if ns != [] {
      NumberHasOnlyDigits(ns[0], 16);
      NumberReadsBack(ns[0], 16);
      HexadecimalsReadBack(ns[1..], if ms == [] then [] else ms[1..]);
      if ms != [] {
        NumberReadsBack(ms[0], 16);
        assert ns == [ns[0]] + ns[1..] && ms == [ms[0]] + ms[1..];
        assert Hexadecimals(ns)[0] == Number(ns[0], 16) && Hexadecimals(ms)[0] == Number(ms[0], 16);
        assert Hexadecimals(ns)[1..] == Hexadecimals(ns[1..]) && Hexadecimals(ms)[1..] == Hexadecimals(ms[1..]);
      }
    }
  }

  lemma {:induction false} HexadecimalAt(ns: seq<nat>, i: nat)
    requires i < |ns|
    ensures Hexadecimals(ns)[i] == Number(ns[i], 16)
  {
    if i > 0 {
      HexadecimalAt(ns[1..], i - 1);
    }
  }

  lemma {:induction false} JoinAddsNoOther(parts: seq<string>, sep: char, c: char)
    requires |parts| >= 1 && c != sep && forall p :: p in parts ==> c !in p
    ensures c !in Join(parts, sep)
  {
    if |parts| > 1 {
      JoinAddsNoOther(parts[1..], sep, c);
    }
    assert parts[0] in parts;
  }

  /** What two addresses have in common if they share a room. */
  predicate SameNetwork(x: IpAddr, y: IpAddr) {
    match (x, y)
    case (V4(_, _, _, _), V4(_, _, _, _)) => x == y
    case (V6(x0, x1, x2, x3, _, _, _, _), V6(y0, y1, y2, y3, _, _, _, _)) => x0 == y0 && x1 == y1 && x2 == y2 && x3 == y3
    case _ => false
  }

  lemma {:induction false} V4Groups(x: IpAddr, y: IpAddr)
    requires x.V4? && y.V4?
    ensures GetIpGroup(x) == GetIpGroup(y) <==> x == y
    ensures var parts := Split(GetIpGroup(x), '.');
      && |parts| == 4 && NumberValue(parts[0], 10) == x.a && NumberValue(parts[1], 10) == x.b
      && NumberValue(parts[2], 10) == x.c && NumberValue(parts[3], 10) == x.d
  {
    var ns, ms: seq<nat> := [x.a, x.b, x.c, x.d], [y.a, y.b, y.c, y.d];
    DecimalsReadBack(ns, ms);
    DecimalsReadBack(ms, ns);
    SplitJoin(Decimals(ns), '.');
    SplitJoin(Decimals(ms), '.');
    forall i | 0 <= i < 4 ensures NumberValue(Decimals(ns)[i], 10) == ns[i] {
      DecimalAt(ns, i);
      NumberReadsBack(ns[i], 10);
    }
    assert ns == ms ==> ns[0] == ms[0] && ns[1] == ms[1] && ns[2] == ms[2] && ns[3] == ms[3];
  }

  lemma {:induction false} V6Groups(x: IpAddr, y: IpAddr)
    requires x.V6? && y.V6?
    ensures GetIpGroup(x) == GetIpGroup(y) <==> SameNetwork(x, y)
    ensures |Split(GetIpGroup(x), '.')| == 1
    ensures var parts := Split(GetIpGroup(x), ':');
      && |parts| == 4 && NumberValue(parts[0], 16) == x.s0 && NumberValue(parts[1], 16) == x.s1
      && NumberValue(parts[2], 16) == x.s2 && NumberValue(parts[3], 16) == x.s3
  {
    var ns, ms: seq<nat> := [x.s0, x.s1, x.s2, x.s3], [y.s0, y.s1, y.s2, y.s3];
    HexadecimalsReadBack(ns, ms);
    HexadecimalsReadBack(ms, ns);
    SplitJoin(Hexadecimals(ns), ':');
    SplitJoin(Hexadecimals(ms), ':');
    forall i | 0 <= i < 4 ensures NumberValue(Hexadecimals(ns)[i], 16) == ns[i] {
      HexadecimalAt(ns, i);
      NumberReadsBack(ns[i], 16);
    }
    JoinAddsNoOther(Hexadecimals(ns), ':', '.');
    SplitField(GetIpGroup(x), '.');
    assert ns == ms ==> ns[0] == ms[0] && ns[1] == ms[1] && ns[2] == ms[2] && ns[3] == ms[3];
  }

  /** Two addresses share a room if and only if they are the same IPv4 address, or IPv6 addresses of the same /64. */
  lemma {:induction false} GroupsSeparateNetworks(x: IpAddr, y: IpAddr)
    ensures GetIpGroup(x) == GetIpGroup(y) <==> SameNetwork(x, y)
  {
    if x.V4? {
      V4Groups(x, if y.V4? then y else x);
      if y.V6? {
        V6Groups(y, y);
      }
    } else {
      V6Groups(x, if y.V6? then y else x);
      if y.V4? {
        V4Groups(y, y);
      }
    }
  }
}
