/**
 Chunked strings: a byte stream is cut into 16 KiB binary messages and closed
 by a string message.
 */
module Framing {
  import opened Prelude
  import opened Channel

  const CHUNK_SIZE: nat := 16 * 1024

  /** `b` cut every `n` bytes; the last piece may be shorter. */
  function Cut(b: bytes, n: nat): seq<bytes>
    requires n > 0
  {
    if b == [] then [] else if |b| <= n then [b] else [b[..n]] + Cut(b[n..], n)
  }

  function Chunks(b: bytes): seq<bytes> {
    Cut(b, CHUNK_SIZE)
  }

  /** What it means to be cut every `n` bytes, without saying how. */
  ghost predicate IsCutOf(pieces: seq<bytes>, b: bytes, n: nat) {
    && Concat(pieces) == b
    && (forall i :: 0 <= i < |pieces| - 1 ==> |pieces[i]| == n)
    && (pieces != [] ==> 0 < |pieces[|pieces| - 1]| <= n)
  }

  /** The cut exists and is the only one. */
  lemma {:induction false} CutIsCanonical(pieces: seq<bytes>, b: bytes, n: nat)
    requires n > 0
    ensures IsCutOf(pieces, b, n) <==> pieces == Cut(b, n)
    decreases |b|
  {
    if |b| <= n {
      CutShort(pieces, b, n);
    } else {
      var rest := if pieces == [] then [] else pieces[1..];
      CutIsCanonical(rest, b[n..], n);
      CutStep(pieces, b, n);
      assert pieces != [] ==> pieces == [pieces[0]] + rest;
    }
  }

  lemma {:induction false} CutCount(b: bytes, n: nat)
    requires n > 0
    ensures |Cut(b, n)| == (|b| + n - 1) / n
    decreases |b|
  {
    if b == [] {
      DivisionIs(n - 1, n, 0);
    } else if |b| <= n {
      DivisionIs(|b| + n - 1, n, 1);
    } else {
      CutCount(b[n..], n);
      DivisionIs(|b| + n - 1, n, 1 + (|b| - 1) / n);
    }
  }

  lemma {:induction false} CutShort(pieces: seq<bytes>, b: bytes, n: nat)
    requires |b| <= n && n > 0
    ensures IsCutOf(pieces, b, n) <==> pieces == Cut(b, n)
  {
    if |pieces| > 1 {
      LastPieceIsThere(pieces);
    } else if |pieces| == 1 {
      assert Concat(pieces) == pieces[0] + Concat([]) == pieces[0];
      assert pieces == [pieces[0]];
    }
  }

  lemma {:induction false} DivisionIs(x: nat, n: nat, q: nat)
    requires n > 0 && n * q <= x < n * q + n
    ensures x / n == q
  {
    var d := x / n;
    assert n * d <= x < n * d + n;
    assert d < q ==> n * (d + 1) <= n * q;
    assert d > q ==> n * (q + 1) <= n * d;
  }

  lemma {:induction false} LastPieceIsThere(pieces: seq<bytes>)
    requires |pieces| > 1
    ensures |Concat(pieces)| >= |pieces[0]| + |pieces[|pieces| - 1]|
  {
    var k := |pieces| - 1;
    assert pieces == [pieces[0]] + (pieces[1..k] + [pieces[k]]);
    ConcatSnoc(pieces[1..k], pieces[k]);
    assert pieces[1..] == pieces[1..k] + [pieces[k]];
  }

  lemma {:induction false} CutStep(pieces: seq<bytes>, b: bytes, n: nat)
    requires 0 < n < |b|
    ensures IsCutOf(pieces, b, n) <==>
      pieces != [] && pieces[0] == b[..n] && IsCutOf(pieces[1..], b[n..], n)
  {
    if pieces != [] {
      var rest := pieces[1..];
      assert Concat(pieces) == pieces[0] + Concat(rest);
      assert b == b[..n] + b[n..];
      if IsCutOf(pieces, b, n) {
        assert |pieces| > 1 by {
          assert rest == [] ==> Concat(rest) == [];
        }
        assert |pieces[0]| == n;
        assert pieces[0] == b[..n] && Concat(rest) == b[n..];
        assert forall i :: 0 <= i < |rest| ==> rest[i] == pieces[i + 1];
      }
      if pieces[0] == b[..n] && IsCutOf(rest, b[n..], n) {
        assert rest != [];
        assert forall i :: 0 < i < |pieces| ==> pieces[i] == rest[i - 1];
      }
    }
  }

  function Binaries(pieces: seq<bytes>): (ms: seq<Message>)
    ensures |ms| == |pieces|
  {
    if pieces == [] then [] else [Binary(pieces[0])] + Binaries(pieces[1..])
  }

  /** The messages that carry a string sent in chunks. */
  function Framed(b: bytes): seq<Message> {
    Binaries(Chunks(b)) + [DELIMITER]
  }

  /** The per-chunk callback: the chunks it has taken. It may refuse to take more than some number. */
  class ChunkCallback {
    var taken: seq<bytes>
    const limit: Option<nat>

    constructor (limit: Option<nat>)
      ensures taken == [] && this.limit == limit
    {
      taken := [];
      this.limit := limit;
    }

    method Call(chunk: bytes) returns (ok: bool)
      modifies this
      ensures ok == (limit.None? || |old(taken)| < limit.value)
      ensures taken == old(taken) + if ok then [chunk] else []
    {
      ok := limit.None? || |taken| < limit.value;
      if ok {
        taken := taken + [chunk];
      }
    }
  }

  /** How many of `n` calls succeed. */
  function Allowed(limit: Option<nat>, n: nat): nat {
    if limit.Some? && limit.value < n then limit.value else n
  }

  lemma {:induction false} CutFirst(piece: bytes, tail: bytes, n: nat)
    requires n > 0 && |piece| == n
    ensures Cut(piece + tail, n) == [piece] + Cut(tail, n)
  {
    var b := piece + tail;
    if tail == [] {
      assert b == piece;
    } else {
      assert b[..n] == piece && b[n..] == tail;
    }
  }

  lemma {:induction false} CutPrefix(front: seq<bytes>, rest: bytes, n: nat)
    requires n > 0 && forall p :: p in front ==> |p| == n
    ensures Cut(Concat(front) + rest, n) == front + Cut(rest, n)
  {
    if front == [] {
      assert Concat(front) + rest == rest;
    } else {
      assert front[0] in front;
      CutPrefix(front[1..], rest, n);
      CutFirst(front[0], Concat(front[1..]) + rest, n);
      Associative(front[0], Concat(front[1..]), rest);
      Associative([front[0]], front[1..], Cut(rest, n));
      assert front == [front[0]] + front[1..];
    }
  }

  /** So far the full chunks `out` have been emitted and `rest` is still to be cut. */
  ghost predicate Cutting(all: bytes, out: seq<bytes>, rest: bytes) {
    && all == Concat(out) + rest
    && forall p :: p in out ==> |p| == CHUNK_SIZE
  }

  lemma {:induction false} CutOne(all: bytes, out: seq<bytes>, chunk: bytes, rest: bytes)
    requires Cutting(all, out, chunk + rest) && |chunk| == CHUNK_SIZE
    ensures Cutting(all, out + [chunk], rest)
    ensures |Chunks(all)| > |out| && Chunks(all)[..|out|] == out
  {
    ConcatSnoc(out, chunk);
    CutPrefix(out + [chunk], rest, CHUNK_SIZE);
    assert Concat(out) + (chunk + rest) == Concat(out) + chunk + rest;
  }

  lemma {:induction false} CutLast(all: bytes, out: seq<bytes>, rest: bytes)
    requires Cutting(all, out, rest) && |rest| < CHUNK_SIZE
    ensures Chunks(all) == out + if rest == [] then [] else [rest]
  {
    CutPrefix(out, rest, CHUNK_SIZE);
  }

  /** How far a callback gets that takes the chunks in order. */
  ghost predicate TookWhatItCould(chunks: seq<bytes>, limit: Option<nat>, taken: seq<bytes>) {
    taken == chunks[..Allowed(limit, |chunks|)]
  }

  lemma {:induction false} StoppedShort(chunks: seq<bytes>, limit: Option<nat>, taken: seq<bytes>)
    requires |taken| < |chunks| && chunks[..|taken|] == taken && limit == Some(|taken|)
    ensures TookWhatItCould(chunks, limit, taken) && taken != chunks
  {
  }

  lemma {:induction false} TookAll(chunks: seq<bytes>, limit: Option<nat>, taken: seq<bytes>)
    requires taken == chunks && (limit.Some? ==> |taken| <= limit.value)
    ensures TookWhatItCould(chunks, limit, taken)
  {
    assert chunks[..|chunks|] == chunks;
  }

  /**
   Hands the callback the canonical chunks of everything that arrives, however
   it was fragmented; if the callback fails, a prefix of them.
   */
  method ProcessInChunks(callback: ChunkCallback, rx: Receiver<bytes>) returns (ok: bool)
    requires callback.taken == []
    modifies callback, rx
    ensures var chunks := Chunks(Concat(old(rx.queue)));
      TookWhatItCould(chunks, callback.limit, callback.taken) && ok == (callback.taken == chunks)
    ensures ok ==> rx.queue == []
  {
    ghost var all := Concat(rx.queue);
    var buffer: bytes := [];
    while true
      invariant Cutting(all, callback.taken, buffer + Concat(rx.queue)) && |buffer| < CHUNK_SIZE
      invariant callback.limit.Some? ==> |callback.taken| <= callback.limit.value
      decreases |rx.queue|
    {
      var data := rx.Recv();
      if data.None? {
        assert buffer + Concat(rx.queue) == buffer;
        break;
      }
      ghost var queue, later := rx.queue, Concat(rx.queue);
      assert buffer + (data.value + later) == buffer + data.value + later;
      buffer := buffer + data.value;
      while |buffer| >= CHUNK_SIZE
        invariant Cutting(all, callback.taken, buffer + later) && rx.queue == queue
        invariant callback.limit.Some? ==> |callback.taken| <= callback.limit.value
        decreases |buffer|
      {
        var chunk := buffer[..CHUNK_SIZE];
        assert buffer + later == chunk + (buffer[CHUNK_SIZE..] + later);
        buffer := buffer[CHUNK_SIZE..];
        CutOne(all, callback.taken, chunk, buffer + later);
        var sent := callback.Call(chunk);
        if !sent {
          StoppedShort(Chunks(all), callback.limit, callback.taken);
          return false;
        }
      }
    }
    ghost var out := callback.taken;
    CutLast(all, out, buffer);
    ok := true;
    if buffer != [] {
      ok := callback.Call(buffer);
    }
    assert Chunks(all)[..|out|] == out;
    if ok {
      TookAll(Chunks(all), callback.limit, callback.taken);
    } else {
      StoppedShort(Chunks(all), callback.limit, callback.taken);
    }
  }

  method SendStringInChunks(callback: ChunkCallback, text: bytes) returns (ok: bool)
    requires callback.taken == []
    modifies callback
    ensures TookWhatItCould(Chunks(text), callback.limit, callback.taken)
    ensures ok == (callback.taken == Chunks(text))
  {
    var rx := new Receiver([text]);
    assert Concat([text]) == text + Concat([]) == text;
    ok := ProcessInChunks(callback, rx);
  }

  /** The bytes a chunked string delivers, and what is left of the queue afterwards. */
  function Gathered(q: seq<Message>): bytes {
    if q == [] || q[0].isString then [] else q[0].data + Gathered(q[1..])
  }

  function AfterGathering(q: seq<Message>): seq<Message> {
    if q == [] then [] else if q[0].isString then q[1..] else AfterGathering(q[1..])
  }

  method ReceiveStringFromChunks(rx: Receiver<Message>) returns (text: bytes)
    modifies rx
    ensures text == Gathered(old(rx.queue))
    ensures rx.queue == AfterGathering(old(rx.queue))
  {
    text := [];
    ghost var q := rx.queue;
    while true
      invariant Gathered(q) == text + Gathered(rx.queue)
      invariant AfterGathering(q) == AfterGathering(rx.queue)
      decreases |rx.queue|
    {
      ghost var before := rx.queue;
      var message := rx.Recv();
      if message.None? || message.value.isString {
        break;
      }
      assert Gathered(before) == message.value.data + Gathered(before[1..]);
      text := text + message.value.data;
    }
  }

  lemma {:induction false} GatherPieces(pieces: seq<bytes>, closing: Message, further: seq<Message>)
    requires closing.isString
    ensures Gathered(Binaries(pieces) + [closing] + further) == Concat(pieces)
    ensures AfterGathering(Binaries(pieces) + [closing] + further) == further
  {
    var q := Binaries(pieces) + [closing] + further;
    if pieces != [] {
      GatherPieces(pieces[1..], closing, further);
      assert q[1..] == Binaries(pieces[1..]) + [closing] + further;
    }
  }

  /** On the wire: pieces of 16 KiB, the last one possibly shorter, and the string "0". */
  lemma {:induction false} FramedIsCut(text: bytes)
    ensures Framed(text) == Binaries(Chunks(text)) + [Message(true, [48])]
    ensures IsCutOf(Chunks(text), text, 16_384)
  {
    CutIsCanonical(Chunks(text), text, 16_384);
  }

  /** The framing composes: what was sent in chunks is received, and nothing after it is touched. */
  lemma {:induction false} FramingRoundTrip(text: bytes, further: seq<Message>)
    ensures Gathered(Framed(text) + further) == text
    ensures AfterGathering(Framed(text) + further) == further
  {
    GatherPieces(Chunks(text), DELIMITER, further);
    CutIsCanonical(Chunks(text), text, CHUNK_SIZE);
    assert Framed(text) + further == Binaries(Chunks(text)) + [DELIMITER] + further;
  }
}
