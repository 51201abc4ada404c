/** The sender's loop over the files that the application hands over. */
module SenderLoop {
  import opened Prelude
  import opened Channel
  import opened Framing
  import opened Protocol
  import opened S = Sender

  lemma {:induction false} PieceIsSent(pieces: seq<bytes>, k: nat)
    requires k < |pieces|
    ensures SendAll<Event>(Binaries(pieces[k..])) == [Send(Binary(pieces[k]))] + SendAll<Event>(Binaries(pieces[k + 1..]))
  {
    assert pieces[k..][1..] == pieces[k + 1..];
    var ms := Binaries(pieces[k..]);
    assert ms[0] == Binary(pieces[k]) && ms[1..] == Binaries(pieces[k + 1..]);
  }

  /** Hands the channel every chunk that the callback has taken. */
  method SendTaken(journal: Journal<Event>, chunks: seq<bytes>)
    modifies journal
    ensures journal.trace == old(journal.trace) + SendAll(Binaries(chunks))
  {
    ghost var goal := journal.trace + SendAll(Binaries(chunks));
    for i := 0 to |chunks|
      invariant goal == journal.trace + SendAll(Binaries(chunks[i..]))
    {
      PieceIsSent(chunks, i);
      Associative(journal.trace, [Send(Binary(chunks[i]))], SendAll(Binaries(chunks[i + 1..])));
      journal.Do(Send(Binary(chunks[i])));
    }
  }

  // Files handed over, on a channel that may fail

  /** The channel fails after so many messages of a file. */
  datatype Fault = Fault(after: nat, error: string)

  datatype Attempt = Attempt(transfer: Transfer, fault: Option<Fault>)

  /** All messages of a file. */
  function Whole(cfg: SenderConfig, token: string, t: Transfer): seq<Message> {
    [StringMessage(cfg.json.header.show(FileHeader(t.id, token)))] + Binaries(Chunks(Concat(t.pieces)))
  }

  function SendAttempt(cfg: SenderConfig, granted: map<string, string>, a: Attempt): seq<Doing> {
    var t := a.transfer;
    if t.id !in granted then [Tell(FileFailed(t.id, "Failed to get file token"))]
    else
      var ms := Whole(cfg, granted[t.id], t);
      if a.fault.None? || a.fault.value.after >= |ms| then SendAll(ms)
      else SendAll(ms[..a.fault.value.after]) + [Tell(FileFailed(t.id, a.fault.value.error))]
  }

  function SendAttempts(cfg: SenderConfig, granted: map<string, string>, attempts: seq<Attempt>): seq<Doing> {
    if attempts == [] then [] else SendAttempt(cfg, granted, attempts[0]) + SendAttempts(cfg, granted, attempts[1..])
  }

  lemma {:induction false} HeaderFirst(header: Message, chunks: seq<bytes>, n: nat)
    requires n <= |chunks|
    ensures var ms := [header] + Binaries(chunks);
      |ms| == 1 + |chunks| && SendAll<Event>(ms[..1 + n]) == [Send(header)] + SendAll<Event>(Binaries(chunks[..n]))
  {
    var ms, front := [header] + Binaries(chunks), ([header] + Binaries(chunks))[..1 + n];
    BinariesOfFront(chunks, n);
    assert front[0] == header && front[1..] == Binaries(chunks)[..n];
  }

  lemma {:induction false} BinariesOfFront(chunks: seq<bytes>, n: nat)
    requires n <= |chunks|
    ensures |Binaries(chunks)| == |chunks| && Binaries(chunks[..n]) == Binaries(chunks)[..n]
  {
    if n > 0 {
      BinariesOfFront(chunks[1..], n - 1);
      assert chunks[..n][1..] == chunks[1..][..n - 1] && chunks[..n][0] == chunks[0];
    }
  }

  method SendOneFile(cfg: SenderConfig, granted: map<string, string>, journal: Journal<Event>, a: Attempt)
    modifies journal
    ensures journal.trace == old(journal.trace) + SendAttempt(cfg, granted, a)
  {
    var t := a.transfer;
    if t.id !in granted {
      journal.Do(Tell(FileFailed(t.id, "Failed to get file token")));
      return;
    }
    if a.fault.Some? && a.fault.value.after == 0 {
      journal.Do(Tell(FileFailed(t.id, a.fault.value.error)));
      return;
    }
    ghost var before, chunks := journal.trace, Chunks(Concat(t.pieces));
    var header := StringMessage(cfg.json.header.show(FileHeader(t.id, granted[t.id])));
    journal.Do(Send(header));
    var callback := new ChunkCallback(if a.fault.None? then None else Some(a.fault.value.after - 1));
    var pieces := new Receiver(t.pieces);
    var ok := ProcessInChunks(callback, pieces);
    ghost var n := Allowed(callback.limit, |chunks|);
    assert callback.taken == chunks[..n];
    HeaderFirst(header, chunks, n);
    SendTaken(journal, callback.taken);
    Associative(before, [Send(header)], SendAll(Binaries(chunks[..n])));
    if !ok {
      Associative(before, [Send(header)] + SendAll(Binaries(chunks[..n])), [Tell(FileFailed(t.id, a.fault.value.error))]);
      journal.Do(Tell(FileFailed(t.id, a.fault.value.error)));
    }
  }

  /** A file that fails is reported, and the next one is tried. Only the delimiter must not fail. */
  method SendAllFiles(cfg: SenderConfig, granted: map<string, string>, journal: Journal<Event>, sending: Receiver<Attempt>, delimiterFails: bool)
    returns (ok: bool)
    modifies journal, sending
    ensures journal.trace == old(journal.trace) + SendAttempts(cfg, granted, old(sending.queue)) + if ok then [Send(DELIMITER)] else []
    ensures sending.queue == [] && ok == !delimiterFails
  {
    ghost var goal := journal.trace + SendAttempts(cfg, granted, sending.queue);
    while true
      invariant goal == journal.trace + SendAttempts(cfg, granted, sending.queue)
      decreases |sending.queue|
    {
      ghost var before, queue := journal.trace, sending.queue;
      var a := sending.Recv();
      if a.None? {
        assert before + [] == before;
        break;
      }
      SendOneFile(cfg, granted, journal, a.value);
      Associative(before, SendAttempt(cfg, granted, a.value), SendAttempts(cfg, granted, queue[1..]));
    }
    if delimiterFails {
      return false;
    }
    journal.Do(Send(DELIMITER));
    ok := true;
  }

  // What the loop comes to

  function Transfers(attempts: seq<Attempt>): seq<Transfer> {
    if attempts == [] then [] else [attempts[0].transfer] + Transfers(attempts[1..])
  }

  /** On a channel that does not fail, it sends what the sender's reaction to a selection sends. */
  lemma {:induction false} WithoutFaults(cfg: SenderConfig, granted: map<string, string>, attempts: seq<Attempt>)
    requires forall a :: a in attempts ==> a.fault.None?
    ensures SendAttempts(cfg, granted, attempts) == SendEach(cfg, granted, Transfers(attempts))
  {
    if attempts != [] {
      var a := attempts[0];
      assert a in attempts;
      WithoutFaults(cfg, granted, attempts[1..]);
      if a.transfer.id in granted {
        var ms := Whole(cfg, granted[a.transfer.id], a.transfer);
        assert ms[1..] == Binaries(Chunks(Concat(a.transfer.pieces)));
      }
    }
  }

  /** Whatever fails: of each granted file a beginning is sent, and it is reported if and only if that is not the whole. */
  lemma {:induction false} SentOrReported(cfg: SenderConfig, granted: map<string, string>, a: Attempt)
    requires a.transfer.id in granted
    ensures var es, whole := SendAttempt(cfg, granted, a), Whole(cfg, granted[a.transfer.id], a.transfer);
      && Sends(es) <= whole
      && (Tells(es) == [] <==> Sends(es) == whole)
      && (Tells(es) != [] ==> a.fault.Some? && Tells(es) == [FileFailed(a.transfer.id, a.fault.value.error)])
  {
    var whole := Whole(cfg, granted[a.transfer.id], a.transfer);
    if a.fault.None? || a.fault.value.after >= |whole| {
      SendsOfSendAll<Event>(whole);
    } else {
      var sent, report := whole[..a.fault.value.after], Tell(FileFailed(a.transfer.id, a.fault.value.error));
      SendsOfSendAll<Event>(sent);
      OneEffect(report);
      SendsTellsAppend(SendAll(sent), [report]);
      assert sent + [] == sent;
    }
  }
}
