/** Splitting and joining text at a separator, and printing numbers. */
module Text {
  function Split(s: string, sep: char): (parts: seq<string>)
    ensures |parts| >= 1
  {
    if s == "" then [""]
    else if s[0] == sep then [""] + Split(s[1..], sep)
    else
      var rest := Split(s[1..], sep);
      [[s[0]] + rest[0]] + rest[1..]
  }

  function Join(parts: seq<string>, sep: char): string
    requires |parts| >= 1
  {
    if |parts| == 1 then parts[0] else parts[0] + [sep] + Join(parts[1..], sep)
  }

  lemma {:induction false} SplitField(field: string, sep: char)
    requires sep !in field
    ensures Split(field, sep) == [field]
  {
    if field != "" {
      SplitField(field[1..], sep);
      assert field == [field[0]] + field[1..];
    }
  }

  lemma {:induction false} SplitFieldThen(field: string, sep: char, rest: string)
    requires sep !in field
    ensures Split(field + [sep] + rest, sep) == [field] + Split(rest, sep)
  {
    var s := field + [sep] + rest;
    if field == "" {
      assert s[1..] == rest;
    } else {
      SplitFieldThen(field[1..], sep, rest);
      assert s[1..] == field[1..] + [sep] + rest;
      assert field == [field[0]] + field[1..];
    }
  }

  /** Fields that do not contain the separator survive a join and a split. */
  lemma {:induction false} SplitJoin(parts: seq<string>, sep: char)
    requires |parts| >= 1
    requires forall p :: p in parts ==> sep !in p
    ensures Split(Join(parts, sep), sep) == parts
  {
    assert parts[0] in parts;
    if |parts| == 1 {
      SplitField(parts[0], sep);
    } else {
      SplitJoin(parts[1..], sep);
      SplitFieldThen(parts[0], sep, Join(parts[1..], sep));
      assert Join(parts, sep) == parts[0] + [sep] + Join(parts[1..], sep);
    }
  }

  /** One digit of a number in a base up to sixteen, in lower case. */
  function Digit(d: nat): char
    requires d < 16
  {
    if d < 10 then ('0' as int + d) as char else ('a' as int + (d - 10)) as char
  }

  function DigitValue(c: char): nat {
    if '0' <= c <= '9' then c as int - '0' as int
    else if 'a' <= c <= 'f' then c as int - 'a' as int + 10
    else 0
  }

  /** The shortest positional notation of a number. */
  function Number(n: nat, base: nat): (s: string)
    requires 2 <= base <= 16
  {
    if n < base then [Digit(n)] else Number(n / base, base) + [Digit(n % base)]
  }

  function NumberValue(s: string, base: nat): nat {
    if s == "" then 0 else NumberValue(s[..|s| - 1], base) * base + DigitValue(s[|s| - 1])
  }

  lemma {:induction false} DigitReadsBack(d: nat)
    requires d < 16
    ensures DigitValue(Digit(d)) == d
    ensures '0' <= Digit(d) <= '9' || 'a' <= Digit(d) <= 'f'
  {
  }

  lemma {:induction false} ValueOfSnoc(s: string, c: char, base: nat)
    ensures NumberValue(s + [c], base) == NumberValue(s, base) * base + DigitValue(c)
  {
    assert (s + [c])[..|s + [c]| - 1] == s;
  }

  lemma {:induction false} QuotientAndRest(n: nat, base: nat, quotient: nat)
    requires base > 0 && quotient == n / base
    ensures quotient * base + n % base == n
  {
  }

  lemma {:induction false} ValueOfNumber(n: nat, base: nat)
    requires 2 <= base <= 16 && n >= base
    ensures NumberValue(Number(n, base), base) == NumberValue(Number(n / base, base), base) * base + n % base
  {
    DigitReadsBack(n % base);
    ValueOfSnoc(Number(n / base, base), Digit(n % base), base);
  }

  lemma {:induction false} ValueOfDigit(d: nat, base: nat)
    requires d < base <= 16
    ensures NumberValue([Digit(d)], base) == d
  {
    DigitReadsBack(d);
    assert [] + [Digit(d)] == [Digit(d)];
    ValueOfSnoc([], Digit(d), base);
  }

  lemma {:induction false} NumberReadsBack(n: nat, base: nat)
    requires 2 <= base <= 16
    ensures NumberValue(Number(n, base), base) == n
    decreases n
  {
    if n < base {
      ValueOfDigit(n, base);
    } else {
      NumberReadsBack(n / base, base);
      ValueOfNumber(n, base);
      QuotientAndRest(n, base, NumberValue(Number(n / base, base), base));
    }
  }

  lemma {:induction false} NumberHasOnlyDigits(n: nat, base: nat)
    requires 2 <= base <= 16
    ensures forall c :: c in Number(n, base) ==> '0' <= c <= '9' || 'a' <= c <= 'f'
    decreases n
  {
    if n < base {
      DigitReadsBack(n);
    } else {
      NumberHasOnlyDigits(n / base, base);
      DigitReadsBack(n % base);
    }
  }
}
