/** A bounded map that forgets the key it has not seen for the longest time. */
module LruCache {
  import opened Prelude

  datatype Entry = Entry(key: string, nonce: bytes)

  /** The entries, most recently used first. */
  type Lru = seq<Entry>

  const CAPACITY: nat := 200

  function Without(c: Lru, key: string): (r: Lru)
    ensures |r| <= |c|
  {
    if c == [] then [] else (if c[0].key == key then [] else [c[0]]) + Without(c[1..], key)
  }

  function Put(c: Lru, key: string, nonce: bytes): Lru {
    var grown := [Entry(key, nonce)] + Without(c, key);
    if |grown| > CAPACITY then grown[..CAPACITY] else grown
  }

  function Get(c: Lru, key: string): Option<bytes> {
    if c == [] then None else if c[0].key == key then Some(c[0].nonce) else Get(c[1..], key)
  }

  function Keys(c: Lru): (ks: seq<string>)
    ensures |ks| == |c|
  {
    if c == [] then [] else [c[0].key] + Keys(c[1..])
  }

  // The same for keys alone

  function WithoutKey(ks: seq<string>, key: string): seq<string> {
    if ks == [] then [] else (if ks[0] == key then [] else [ks[0]]) + WithoutKey(ks[1..], key)
  }

  function PutKey(ks: seq<string>, key: string): seq<string> {
    var grown := [key] + WithoutKey(ks, key);
    if |grown| > CAPACITY then grown[..CAPACITY] else grown
  }

  lemma {:induction false} KeysOfWithout(c: Lru, key: string)
    ensures Keys(Without(c, key)) == WithoutKey(Keys(c), key)
  {
    if c != [] {
      KeysOfWithout(c[1..], key);
      var rest := Without(c[1..], key);
      assert ([c[0]] + rest)[1..] == rest;
      assert [] + rest == rest && [] + WithoutKey(Keys(c[1..]), key) == WithoutKey(Keys(c[1..]), key);
    }
  }

  lemma {:induction false} KeysOfFront(c: Lru, n: nat)
    requires n <= |c|
    ensures Keys(c[..n]) == Keys(c)[..n]
  {
    if n > 0 {
      KeysOfFront(c[1..], n - 1);
      assert c[..n][1..] == c[1..][..n - 1] && c[..n][0] == c[0];
    }
  }

  /** Which keys are kept, and in which order, does not depend on the values. */
  lemma {:induction false} KeysOfPut(c: Lru, key: string, nonce: bytes)
    ensures Keys(Put(c, key, nonce)) == PutKey(Keys(c), key)
  {
    var grown := [Entry(key, nonce)] + Without(c, key);
    KeysOfWithout(c, key);
    assert grown[1..] == Without(c, key);
    if |grown| > CAPACITY {
      KeysOfFront(grown, CAPACITY);
    }
  }

  ghost predicate Distinct(ks: seq<string>) {
    forall i, j :: 0 <= i < j < |ks| ==> ks[i] != ks[j]
  }

  lemma {:induction false} RestIsDistinct(ks: seq<string>)
    requires ks != [] && Distinct(ks)
    ensures Distinct(ks[1..]) && ks[0] !in ks[1..]
  {
    var rest := ks[1..];
    assert forall i :: 0 <= i < |rest| ==> rest[i] == ks[i + 1];
  }

  lemma {:induction false} ConsIsDistinct(first: string, rest: seq<string>)
    requires Distinct(rest) && first !in rest
    ensures Distinct([first] + rest)
  {
  }

  lemma {:induction false} WithoutKeyMeans(ks: seq<string>, key: string)
    requires Distinct(ks)
    ensures var r := WithoutKey(ks, key);
      && Distinct(r) && key !in r && (forall x :: x != key ==> (x in r <==> x in ks))
      && |r| == |ks| - (if key in ks then 1 else 0)
      && (key !in ks ==> r == ks)
  {
    if ks != [] {
      var rest, without := ks[1..], WithoutKey(ks[1..], key);
      RestIsDistinct(ks);
      WithoutKeyMeans(rest, key);
      assert ks == [ks[0]] + rest;
      if ks[0] == key {
        assert [] + without == without;
      } else {
        assert ks[0] !in without;
        ConsIsDistinct(ks[0], without);
      }
    }
  }

  /** Keys stay distinct and within bounds; the used key comes first; only if a new key finds the cache full is one lost, the oldest. */
  lemma {:induction false} PutKeyMeans(ks: seq<string>, key: string)
    requires Distinct(ks) && |ks| <= 200
    ensures var r := PutKey(ks, key);
      && Distinct(r) && |r| <= 200 && r[0] == key
      && if key !in ks && |ks| == 200 then r == [key] + ks[..199]
         else forall x :: x in r <==> x == key || x in ks
  {
    WithoutKeyMeans(ks, key);
    var grown := [key] + WithoutKey(ks, key);
    if |grown| > CAPACITY {
      assert grown[..CAPACITY] == [key] + ks[..CAPACITY - 1];
    }
  }

  lemma {:induction false} GetOfWithout(c: Lru, key: string, x: string)
    ensures Get(Without(c, key), x) == if x == key then None else Get(c, x)
  {
    if c != [] {
      GetOfWithout(c[1..], key, x);
      var rest := Without(c[1..], key);
      assert ([c[0]] + rest)[1..] == rest && [] + rest == rest;
    }
  }

  lemma {:induction false} GetOfFront(c: Lru, n: nat, x: string)
    requires n <= |c|
    ensures Get(c[..n], x) == None || Get(c[..n], x) == Get(c, x)
  {
    if n > 0 {
      GetOfFront(c[1..], n - 1, x);
      assert c[..n][1..] == c[1..][..n - 1] && c[..n][0] == c[0];
    }
  }

  /** What is found after a put: the new value; the others unchanged, unless forgotten. */
  lemma {:induction false} GetAfterPut(c: Lru, key: string, nonce: bytes, x: string)
    ensures var r := Put(c, key, nonce);
      if x == key then Get(r, x) == Some(nonce) else Get(r, x) == None || Get(r, x) == Get(c, x)
  {
    var grown := [Entry(key, nonce)] + Without(c, key);
    assert grown[1..] == Without(c, key);
    GetOfWithout(c, key, x);
    if |grown| > CAPACITY {
      GetOfFront(grown, CAPACITY, x);
      assert grown[..CAPACITY][0] == Entry(key, nonce);
    }
  }
}
