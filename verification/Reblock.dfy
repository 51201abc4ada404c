/** The receiving application's end of a file: chunks are gathered into blocks of one mebibyte. */
module Reblock {
  import opened Prelude
  import opened Channel
  import opened Framing

  const BUFFER_SIZE: nat := 1024 * 1024

  /** The blocks made of `pieces` when `buffer` is already held. */
  function Blocks(buffer: bytes, pieces: seq<bytes>): seq<bytes>
    decreases |pieces|
  {
    if pieces == [] then
      if buffer == [] then [] else [buffer]
    else
      var grown := buffer + pieces[0];
      if |grown| >= BUFFER_SIZE then [grown] + Blocks([], pieces[1..]) else Blocks(grown, pieces[1..])
  }

  method BufferReceiver(input: Receiver<bytes>) returns (blocks: seq<bytes>)
    modifies input
    ensures blocks == Blocks([], old(input.queue))
    ensures input.queue == []
  {
    var buffer: bytes := [];
    blocks := [];
    ghost var all := input.queue;
    while true
      invariant Blocks([], all) == blocks + Blocks(buffer, input.queue)
      decreases |input.queue|
    {
      var data := input.Recv();
      if data.None? {
        break;
      }
      buffer := buffer + data.value;
      if |buffer| >= BUFFER_SIZE {
        blocks := blocks + [buffer];
        buffer := [];
      }
    }
    if buffer != [] {
      blocks := blocks + [buffer];
    }
  }

  /** Order and content are kept, no block is empty, and only the last may be short. */
  lemma {:induction false} BlocksKeepContent(buffer: bytes, pieces: seq<bytes>)
    ensures Concat(Blocks(buffer, pieces)) == buffer + Concat(pieces)
    ensures forall i :: 0 <= i < |Blocks(buffer, pieces)| ==> Blocks(buffer, pieces)[i] != []
    ensures forall i :: 0 <= i < |Blocks(buffer, pieces)| - 1 ==> |Blocks(buffer, pieces)[i]| >= BUFFER_SIZE
    decreases |pieces|
  {
    if pieces == [] {
      assert Concat([buffer]) == buffer + Concat([]);
    } else {
      var grown := buffer + pieces[0];
      assert buffer + (pieces[0] + Concat(pieces[1..])) == grown + Concat(pieces[1..]);
      if |grown| >= BUFFER_SIZE {
        BlocksKeepContent([], pieces[1..]);
      } else {
        BlocksKeepContent(grown, pieces[1..]);
      }
    }
  }

  /** Canonical 16 KiB chunks are re-blocked into canonical 1 MiB blocks, since 64 * 16384 = 1048576. */
  lemma {:induction false} ChunksBecomeBlocks(buffer: bytes, b: bytes)
    requires |buffer| < BUFFER_SIZE && |buffer| % CHUNK_SIZE == 0
    ensures Blocks(buffer, Chunks(b)) == Cut(buffer + b, BUFFER_SIZE)
    decreases |b|
  {
    if b == [] {
      assert buffer + b == buffer;
    } else if |b| <= CHUNK_SIZE {
      var grown := buffer + b;
      assert [b][1..] == [];
      assert |grown| <= BUFFER_SIZE;
    } else {
      var grown := buffer + b[..CHUNK_SIZE];
      var rest := b[CHUNK_SIZE..];
      assert buffer + b == grown + rest;
      assert Chunks(b)[1..] == Chunks(rest);
      if |grown| >= BUFFER_SIZE {
        ChunksBecomeBlocks([], rest);
        assert [] + rest == rest;
        assert (grown + rest)[..BUFFER_SIZE] == grown && (grown + rest)[BUFFER_SIZE..] == rest;
      } else {
        ChunksBecomeBlocks(grown, rest);
      }
    }
  }

  /** A received file as the application sees it; its content can be taken once. */
  class RTCFileReceiver {
    const fileId: string
    var slot: Option<Receiver<bytes>>

    constructor (fileId: string, content: Receiver<bytes>)
      ensures this.fileId == fileId && slot == Some(content)
    {
      this.fileId := fileId;
      slot := Some(content);
    }

    method Receive() returns (result: Option<seq<bytes>>)
      modifies this, if slot.Some? then {slot.value} else {}
      ensures slot == None
      ensures result == if old(slot).None? then None else Some(Blocks([], old(if slot.Some? then slot.value.queue else [])))
    {
      if slot.None? {
        return None;
      }
      var rx := slot.value;
      slot := None;
      var blocks := BufferReceiver(rx);
      result := Some(blocks);
    }
  }
}
