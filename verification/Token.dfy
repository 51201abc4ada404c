/**
 The five-part signed token and its verification. Hashing, signing and
 signature verification are parameters; nothing is assumed of the hash.
 */
module Token {
  import opened Prelude
  import opened Text
  import Base64

  datatype SigningKey = SigningKey(der: bytes, sign: bytes -> bytes)

  datatype VerifyingKey = VerifyingKey(der: bytes, signatureMethod: string, verify: (bytes, bytes) -> bool)

  /** `vk` is the public half of the Ed25519 key `sk`: what `sk` signs, `vk` verifies. */
  ghost predicate Matches(sk: SigningKey, vk: VerifyingKey) {
    && vk.der == sk.der
    && vk.signatureMethod == "ed25519"
    && forall digest :: vk.verify(digest, sk.sign(digest))
  }

  /** Slicing the first five of fewer than five parts panics. */
  datatype Verdict = Accepted | Rejected | Panicked

  function GenerateTokenNonce(hash: bytes -> bytes, key: SigningKey, salt: bytes): string {
    var digest := hash(key.der + salt);
    Join(["sha256", Base64.Encode(digest), Base64.Encode(salt), "ed25519", Base64.Encode(key.sign(digest))], '.')
  }

  function GenerateTokenTimestamp(hash: bytes -> bytes, key: SigningKey, now: nat): string {
    GenerateTokenNonce(hash, key, LittleEndian(now, 8))
  }

  function ExtractSignatureIdentifier(token: string): Option<string> {
    var parts := Split(token, '.');
    if |parts| > 3 then Some(parts[3]) else None
  }

  function VerifyTokenWithResult(hash: bytes -> bytes, key: VerifyingKey, token: string, verifySalt: bytes -> bool): Verdict {
    var parts := Split(token, '.');
    if |parts| < 5 then Panicked
    else if parts[0] != "sha256" then Rejected
    else if parts[3] != key.signatureMethod then Rejected
    else match Base64.Decode(parts[2])
      case None => Rejected
      case Some(salt) =>
        if !verifySalt(salt) then Rejected
        else
          var digest := hash(key.der + salt);
          if Base64.Encode(digest) != parts[1] then Rejected
          else match Base64.Decode(parts[4])
            case None => Rejected
            case Some(signature) => if key.verify(digest, signature) then Accepted else Rejected
  }

  function VerifyTokenNonce(hash: bytes -> bytes, key: VerifyingKey, token: string, nonce: bytes): Verdict {
    VerifyTokenWithResult(hash, key, token, salt => salt == nonce)
  }

  const U64: nat := 0x1_0000_0000_0000_0000

  /** Unsigned 64-bit subtraction, which wraps around. */
  function WrappingSub(a: nat, b: nat): nat
    requires a < U64 && b < U64
  {
    if a >= b then a - b else U64 + a - b
  }

  function FreshEnough(now: nat, salt: bytes): bool
    requires now < U64
  {
    |salt| == 8 && FromLittleEndian(salt) < U64 && WrappingSub(now, FromLittleEndian(salt)) <= 60 * 60
  }

  function VerifyTokenTimestamp(hash: bytes -> bytes, key: VerifyingKey, token: string, now: nat): Verdict
    requires now < U64
  {
    VerifyTokenWithResult(hash, key, token, salt => FreshEnough(now, salt))
  }

  /** The five fields a token must have to be accepted for a salt and a signature. */
  function Fields(hash: bytes -> bytes, key: VerifyingKey, salt: bytes, signature: bytes): seq<string> {
    ["sha256", Base64.Encode(hash(key.der + salt)), Base64.Encode(salt), key.signatureMethod, Base64.Encode(signature)]
  }

  /** Acceptance, declaratively, for every token: the first five fields spell some salt and signature that pass. */
  lemma {:induction false} AcceptedIff(hash: bytes -> bytes, key: VerifyingKey, token: string, verifySalt: bytes -> bool)
    ensures VerifyTokenWithResult(hash, key, token, verifySalt) == Accepted
      <==> |Split(token, '.')| >= 5 && exists salt, signature ::
             && Split(token, '.')[..5] == Fields(hash, key, salt, signature)
             && verifySalt(salt) && key.verify(hash(key.der + salt), signature)
    ensures VerifyTokenWithResult(hash, key, token, verifySalt) == Panicked <==> |Split(token, '.')| < 5
  {
    var parts := Split(token, '.');
    if |parts| >= 5 {
      assert parts[..5] == [parts[0], parts[1], parts[2], parts[3], parts[4]];
      if VerifyTokenWithResult(hash, key, token, verifySalt) == Accepted {
        var salt, signature := Base64.Decode(parts[2]).value, Base64.Decode(parts[4]).value;
        Base64.DecodeInvertsEncode(parts[2], salt);
        Base64.DecodeInvertsEncode(parts[4], signature);
        assert parts[..5] == Fields(hash, key, salt, signature);
      }
      if exists salt, signature ::
          && parts[..5] == Fields(hash, key, salt, signature)
          && verifySalt(salt) && key.verify(hash(key.der + salt), signature)
      {
        var salt, signature :|
          && parts[..5] == Fields(hash, key, salt, signature)
          && verifySalt(salt) && key.verify(hash(key.der + salt), signature);
        var f := Fields(hash, key, salt, signature);
        assert parts[0] == f[0] && parts[1] == f[1] && parts[2] == f[2] && parts[3] == f[3] && parts[4] == f[4];
        Base64.DecodeInvertsEncode(parts[2], salt);
        Base64.DecodeInvertsEncode(parts[4], signature);
      }
    }
  }

  lemma {:induction false} GeneratedParts(hash: bytes -> bytes, key: SigningKey, salt: bytes)
    ensures Split(GenerateTokenNonce(hash, key, salt), '.')
         == ["sha256", Base64.Encode(hash(key.der + salt)), Base64.Encode(salt), "ed25519",
             Base64.Encode(key.sign(hash(key.der + salt)))]
  {
    var digest := hash(key.der + salt);
    Base64.EncodeHasNoDot(digest);
    Base64.EncodeHasNoDot(salt);
    Base64.EncodeHasNoDot(key.sign(digest));
    SplitJoin(["sha256", Base64.Encode(digest), Base64.Encode(salt), "ed25519", Base64.Encode(key.sign(digest))], '.');
  }

  /** Verifying a generated token comes down to the check of its salt. */
  lemma {:induction false} GeneratedTokenVerdict(hash: bytes -> bytes, sk: SigningKey, vk: VerifyingKey, salt: bytes, verifySalt: bytes -> bool)
    requires Matches(sk, vk)
    ensures VerifyTokenWithResult(hash, vk, GenerateTokenNonce(hash, sk, salt), verifySalt)
         == (if verifySalt(salt) then Accepted else Rejected)
  {
    GeneratedParts(hash, sk, salt);
    Base64.DecodeInvertsEncode(Base64.Encode(salt), salt);
    var signature := sk.sign(hash(sk.der + salt));
    Base64.DecodeInvertsEncode(Base64.Encode(signature), signature);
  }

  /** Round trip of the nonce form: five parts, accepted for its own nonce and for no other. */
  lemma {:induction false} NonceRoundTrip(hash: bytes -> bytes, sk: SigningKey, vk: VerifyingKey, n: bytes, m: bytes)
    requires Matches(sk, vk)
    ensures |Split(GenerateTokenNonce(hash, sk, n), '.')| == 5
    ensures ExtractSignatureIdentifier(GenerateTokenNonce(hash, sk, n)) == Some(vk.signatureMethod)
    ensures VerifyTokenNonce(hash, vk, GenerateTokenNonce(hash, sk, n), m) == Accepted <==> n == m
  {
    GeneratedParts(hash, sk, n);
    GeneratedTokenVerdict(hash, sk, vk, n, salt => salt == m);
  }

  lemma {:induction false} U64IsEightBytes()
    ensures Pow256(8) == U64
  {
    assert Pow256(4) == 0x1_0000_0000;
    assert Pow256(8) == 256 * (256 * (256 * (256 * Pow256(4))));
  }

  /**
   Round trip of the timestamp form. With wrap-around the window is the last
   hour, and for a clock within the first hour of the epoch also the last
   seconds before 2^64.
   */
  lemma {:induction false} TimestampRoundTrip(hash: bytes -> bytes, sk: SigningKey, vk: VerifyingKey, t: nat, now: nat)
    requires Matches(sk, vk) && t < U64 && now < U64
    ensures VerifyTokenTimestamp(hash, vk, GenerateTokenTimestamp(hash, sk, t), now) == Accepted
       <==> t <= now <= t + 3600 || U64 + now <= t + 3600
    ensures now >= 3600 ==>
      (VerifyTokenTimestamp(hash, vk, GenerateTokenTimestamp(hash, sk, t), now) == Accepted <==> t <= now <= t + 3600)
  {
    U64IsEightBytes();
    LittleEndianReadsBack(t, 8);
    GeneratedTokenVerdict(hash, sk, vk, LittleEndian(t, 8), salt => FreshEnough(now, salt));
  }

  /** Parts after the fifth are never looked at. */
  lemma {:induction false} ExtraPartsAreIgnored(hash: bytes -> bytes, key: VerifyingKey, token: string, more: string, verifySalt: bytes -> bool)
    requires |Split(token, '.')| >= 5
    ensures VerifyTokenWithResult(hash, key, token + "." + more, verifySalt)
         == VerifyTokenWithResult(hash, key, token, verifySalt)
  {
    SplitOfConcat(token, more);
  }

  lemma {:induction false} SplitUnfolds(s: string)
    requires s != ""
    ensures var rest := Split(s[1..], '.');
      Split(s, '.') == if s[0] == '.' then [""] + rest else [[s[0]] + rest[0]] + rest[1..]
  {
  }

  lemma {:induction false} FirstGrows(c: char, rest: seq<string>, b: seq<string>)
    requires rest != []
    ensures [[c] + (rest + b)[0]] + (rest + b)[1..] == [[c] + rest[0]] + rest[1..] + b
  {
  }

  lemma {:induction false} SplitOfConcat(s: string, more: string)
    ensures Split(s + "." + more, '.') == Split(s, '.') + Split(more, '.')
  {
    var whole := s + "." + more;
    SplitUnfolds(whole);
    if s == "" {
      assert whole[1..] == more;
    } else {
      SplitOfConcat(s[1..], more);
      SplitUnfolds(s);
      assert whole[0] == s[0] && whole[1..] == s[1..] + "." + more;
      FirstGrows(s[0], Split(s[1..], '.'), Split(more, '.'));
      Associative([""], Split(s[1..], '.'), Split(more, '.'));
    }
  }
}
