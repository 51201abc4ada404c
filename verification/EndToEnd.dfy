/** What a session comes to, in the terms of its users. */
module EndToEnd {
  import opened Prelude
  import opened Model
  import opened Framing
  import opened TwoTasks
  import opened Protocol
  import opened Pin
  import opened S = Sender
  import opened R = Receiver
  import opened Session
  import opened SessionTheorem
  import Reblock
  import Token

  // The ways a session can end

  /** Each side is content with the other's token. */
  predicate BothTrust(c: Session) {
    && Trusts(c.r.hash, c.r.expecting, SenderToken(c), SessionNonce(c))
    && Trusts(c.s.hash, c.s.expecting, ReceiverToken(c), SessionNonce(c))
  }

  /** Each side's user gives a right PIN in time, where one is set. */
  predicate BothPass(c: Session) {
    Passes(c.r.pin, c.s.guesses) && Passes(c.s.pin, c.r.guesses)
  }

  /** Both sides are in the file transfer and hold the same nonce, file list and tokens. */
  predicate TransferAgreed(c: Session, s: SenderResult, r: ReceiverResult) {
    && s == Sent(SessionNonce(c), Tokens(c))
    && (r == Received(Agreement(SessionNonce(c), c.s.files, Tokens(c))) || r == ReceiveFailed)
  }

  /**
   In every interleaving, when neither side can move, the session has come to
   the transfer, or was declined, or has failed on both sides; and which of
   these it is follows from keys, PINs and the user's choice alone. With an
   empty PIN at the receiver it always fails, with one at the sender it goes on.
   */
  lemma {:induction false} EverySessionEndsInOneOfThreeWays(c: Session, turns: seq<Turn>)
    requires Honest(c) && Interleaving(c, turns) && Stuck(Both(c), Reached(c, turns))
    ensures var w := Reached(c, turns);
      && w.sender.ctl.SenderDone? && w.receiver.ctl.ReceiverDone?
      && var s, r := w.sender.ctl.result, w.receiver.ctl.result;
        if !BothTrust(c) || !BothPass(c) || IsEmptyPin(c.r.pin) then s == SendFailed && r == ReceiveFailed
        else match c.r.choice
          case Select(_) => TransferAgreed(c, s, r)
          case Decline => s == SendDeclined && r == ReceiveDeclined
          case NoChoice => s == SendFailed && r == Unanswered
  {
    EveryInterleavingEndsAsExpected(c, turns);
    ExpectedInOneOfThreeWays(c);
  }

  lemma {:induction false} ExpectedInOneOfThreeWays(c: Session)
    ensures var e := Expected(c);
      if !BothTrust(c) || !BothPass(c) || IsEmptyPin(c.r.pin) then e.sender == SendFailed && e.receiver == ReceiveFailed
      else match c.r.choice
        case Select(_) => TransferAgreed(c, e.sender, e.receiver)
        case Decline => e.sender == SendDeclined && e.receiver == ReceiveDeclined
        case NoChoice => e.sender == SendFailed && e.receiver == Unanswered
  {
  }

  /** A side that expects no key, or the other side's own, is content with its token. */
  lemma {:induction false} RightKeysAreTrusted(c: Session)
    requires c.s.hash == c.r.hash
    requires c.r.expecting.Some? ==> Token.Matches(c.s.key, c.r.expecting.value)
    requires c.s.expecting.Some? ==> Token.Matches(c.r.key, c.s.expecting.value)
    ensures BothTrust(c)
  {
    var nonce := SessionNonce(c);
    if c.r.expecting.Some? {
      Token.NonceRoundTrip(c.s.hash, c.s.key, c.r.expecting.value, nonce, nonce);
    }
    if c.s.expecting.Some? {
      Token.NonceRoundTrip(c.r.hash, c.r.key, c.s.expecting.value, nonce, nonce);
    }
  }

  // The files, end to end

  /** A file as the receiving application gets it. */
  datatype Arrival = Arrival(id: string, blocks: seq<bytes>)

  /** The chunks that follow for the file `id`. */
  function ChunksOf(id: string, log: seq<Event>): seq<bytes> {
    if log != [] && log[0].FileData? && log[0].id == id then [log[0].data] + ChunksOf(id, log[1..]) else []
  }

  /** The files an application was given, each with its content as its receiver delivers it. */
  function Arrivals(log: seq<Event>): seq<Arrival> {
    if log == [] then []
    else if log[0].FileOpened? then
      [Arrival(log[0].id, Reblock.Blocks([], ChunksOf(log[0].id, log[1..])))] + Arrivals(log[1..])
    else Arrivals(log[1..])
  }

  /** What should arrive: every file in full, cut into blocks of one mebibyte. */
  function Delivered(ts: seq<Transfer>): (files: seq<Arrival>)
    ensures |files| == |ts|
  {
    if ts == [] then []
    else [Arrival(ts[0].id, Cut(Concat(ts[0].pieces), Reblock.BUFFER_SIZE))] + Delivered(ts[1..])
  }

  lemma {:induction false} OneChunkMore(id: string, data: bytes, log: seq<Event>)
    ensures ChunksOf(id, [FileData(id, data)] + log) == [data] + ChunksOf(id, log)
  {
    assert ([FileData(id, data)] + log)[1..] == log;
  }

  lemma {:induction false} ChunksAreRead(id: string, chunks: seq<bytes>, rest: seq<Event>)
    requires rest == [] || !rest[0].FileData?
    ensures ChunksOf(id, DataEvents(id, chunks) + rest) == chunks
  {
    if chunks == [] {
      assert [] + rest == rest;
    } else {
      ChunksAreRead(id, chunks[1..], rest);
      OneChunkMore(id, chunks[0], DataEvents(id, chunks[1..]) + rest);
      Associative([FileData(id, chunks[0])], DataEvents(id, chunks[1..]), rest);
    }
  }

  lemma {:induction false} OneEventMore(e: Event, log: seq<Event>)
    requires !e.FileOpened?
    ensures Arrivals([e] + log) == Arrivals(log)
  {
    assert ([e] + log)[1..] == log;
  }

  lemma {:induction false} DataOpensNothing(id: string, chunks: seq<bytes>, rest: seq<Event>)
    ensures Arrivals(DataEvents(id, chunks) + rest) == Arrivals(rest)
  {
    if chunks == [] {
      assert [] + rest == rest;
    } else {
      DataOpensNothing(id, chunks[1..], rest);
      Associative([FileData(id, chunks[0])], DataEvents(id, chunks[1..]), rest);
      OneEventMore(FileData(id, chunks[0]), DataEvents(id, chunks[1..]) + rest);
    }
  }

  lemma {:induction false} OpenedFileMore(id: string, chunks: seq<bytes>, rest: seq<Event>)
    ensures Arrivals([FileOpened(id)] + (DataEvents(id, chunks) + ([FileClosed(id)] + rest)))
         == [Arrival(id, Reblock.Blocks([], chunks))] + Arrivals(rest)
  {
    var end := [FileClosed(id)] + rest;
    var log := DataEvents(id, chunks) + end;
    ChunksAreRead(id, chunks, end);
    DataOpensNothing(id, chunks, end);
    OneEventMore(FileClosed(id), rest);
    assert ([FileOpened(id)] + log)[1..] == log;
  }

  lemma {:induction false} LogOfListedFile(files: seq<FileDto>, t: Transfer, rest: seq<Event>)
    requires Listed(files, t.id)
    ensures FileLog(files, t) + rest
         == [FileOpened(t.id)] + (DataEvents(t.id, Chunks(Concat(t.pieces))) + ([FileClosed(t.id)] + rest))
  {
    var data := DataEvents(t.id, Chunks(Concat(t.pieces)));
    Associative([FileOpened(t.id)], data, [FileClosed(t.id)]);
    Associative([FileOpened(t.id)], data + [FileClosed(t.id)], rest);
    Associative(data, [FileClosed(t.id)], rest);
  }

  lemma {:induction false} ArrivalsOfFile(files: seq<FileDto>, t: Transfer, rest: seq<Event>)
    requires Listed(files, t.id)
    ensures Arrivals(FileLog(files, t) + rest)
         == [Arrival(t.id, Cut(Concat(t.pieces), Reblock.BUFFER_SIZE))] + Arrivals(rest)
  {
    var b := Concat(t.pieces);
    LogOfListedFile(files, t, rest);
    OpenedFileMore(t.id, Chunks(b), rest);
    Reblock.ChunksBecomeBlocks([], b);
    assert [] + b == b;
  }

  ghost predicate AllListed(files: seq<FileDto>, ts: seq<Transfer>) {
    forall t :: t in ts ==> exists f :: f in files && f.id == t.id
  }

  lemma {:induction false} ArrivalsOfFiles(files: seq<FileDto>, ts: seq<Transfer>)
    requires AllListed(files, ts)
    ensures Arrivals(FilesLog(files, ts)) == Delivered(ts)
  {
    if ts != [] {
      assert ts[0] in ts;
      ArrivalsOfFiles(files, ts[1..]);
      ArrivalsOfFile(files, ts[0], FilesLog(files, ts[1..]));
    }
  }

  lemma {:induction false} NothingOpened(before: seq<Event>, log: seq<Event>)
    requires forall e :: e in before ==> !e.FileOpened?
    ensures Arrivals(before + log) == Arrivals(log)
  {
    if before == [] {
      assert before + log == log;
    } else {
      NothingOpened(before[1..], log);
      assert (before + log)[1..] == before[1..] + log;
    }
  }

  /** The honest case: keys and PINs are right, and everything handed over was selected and is in the file list. */
  ghost predicate GoesWell(c: Session) {
    && Honest(c) && BothTrust(c) && BothPass(c) && !IsEmptyPin(c.r.pin) && c.r.choice.Select?
    && c.s.transfers != [] && AllListed(c.s.files, c.s.transfers)
    && forall t :: t in c.s.transfers ==> t.id in c.r.choice.ids
  }

  lemma {:induction false} AllAreGranted(tokens: map<string, string>, ts: seq<Transfer>)
    requires forall t :: t in ts ==> t.id in tokens
    ensures Granted(tokens, ts) == ts && RefusedLog(tokens, ts) == []
  {
    if ts != [] {
      assert ts[0] in ts;
      AllAreGranted(tokens, ts[1..]);
    }
  }

  lemma {:induction false} PromptsOpenNothing(n: nat)
    ensures forall e :: e in Prompts(n) ==> !e.FileOpened?
  {
    if n > 0 {
      PromptsOpenNothing(n - 1);
    }
  }

  /** What the receiver tells before the transfer. */
  function BeforeFiles(c: Session): seq<Event> {
    GuardLog(c.r.pin, c.s.guesses) + PromptLog(c.s.pin, c.r.guesses, 0) + [StatusChanged(Connected), FilesListed(c.s.files)]
  }

  lemma {:induction false} NothingOpenedBefore(c: Session)
    ensures forall e :: e in BeforeFiles(c) ==> !e.FileOpened?
  {
    if c.s.pin.Some? {
      PromptsOpenNothing(Min(FirstMatch(c.r.guesses, c.s.pin.value.pin) + 1, c.s.pin.value.maxTries));
    }
    var prompts := PromptLog(c.s.pin, c.r.guesses, 0);
    assert forall e :: e in prompts ==> !e.FileOpened?;
  }

  /**
   End to end, in every interleaving and however the application cuts its
   files into pieces: the receiver opens exactly these files, in this order,
   each delivers exactly its bytes in blocks of one mebibyte, and the transfer
   is left by the end delimiter.
   */
  lemma {:induction false} HonestTransferDelivers(c: Session, turns: seq<Turn>)
    requires GoesWell(c) && Interleaving(c, turns) && Stuck(Both(c), Reached(c, turns))
    ensures var w := Reached(c, turns);
      && w.receiver.ctl == ReceiverDone(Received(Agreement(SessionNonce(c), c.s.files, Tokens(c))))
      && w.sender.ctl == SenderDone(Sent(SessionNonce(c), Tokens(c)))
      && Arrivals(w.receiver.log) == Delivered(c.s.transfers)
  {
    EveryInterleavingEndsAsExpected(c, turns);
    AllAreGranted(Tokens(c), c.s.transfers);
    assert c.s.transfers[|c.s.transfers| - 1] in c.s.transfers;
    ExpectedOfTransfer(c);
    NothingOpenedBefore(c);
    NothingOpened(BeforeFiles(c), FilesLog(c.s.files, c.s.transfers));
    ArrivalsOfFiles(c.s.files, c.s.transfers);
  }

  lemma {:induction false} ExpectedOfTransfer(c: Session)
    requires BothTrust(c) && BothPass(c) && !IsEmptyPin(c.r.pin) && c.r.choice.Select?
    ensures var e, ts := Expected(c), Granted(Tokens(c), c.s.transfers);
      && e.sender == Sent(SessionNonce(c), Tokens(c)) && e.receiverLog == BeforeFiles(c) + FilesLog(c.s.files, ts)
      && e.receiver == if EndsCleanly(c.s.files, ts) then Received(Agreement(SessionNonce(c), c.s.files, Tokens(c))) else ReceiveFailed
  {
  }

  /** Each delivered file is its bytes, whatever pieces they were handed over in. */
  lemma {:induction false} DeliveredInFull(ts: seq<Transfer>, k: nat)
    requires k < |ts|
    ensures Delivered(ts)[k].id == ts[k].id
    ensures IsCutOf(Delivered(ts)[k].blocks, Concat(ts[k].pieces), 1_048_576)
  {
    CutIsCanonical(Cut(Concat(ts[0].pieces), 1_048_576), Concat(ts[0].pieces), 1_048_576);
    if k > 0 {
      DeliveredInFull(ts[1..], k - 1);
    }
  }

  /**
   A transfer of nothing always fails at the receiver, although the sender
   takes it for sent: the end delimiter is clean only if it finds a file open.
   */
  lemma {:induction false} ReceivedOnlyIfLastFileIsListed(c: Session, turns: seq<Turn>)
    requires Honest(c) && BothTrust(c) && BothPass(c) && !IsEmptyPin(c.r.pin) && c.r.choice.Select?
    requires Interleaving(c, turns) && Stuck(Both(c), Reached(c, turns))
    ensures var w, ts := Reached(c, turns), Granted(Tokens(c), c.s.transfers);
      && w.sender.ctl == SenderDone(Sent(SessionNonce(c), Tokens(c)))
      && w.receiver.ctl.ReceiverDone?
      && (w.receiver.ctl.result.Received? <==> ts != [] && exists f :: f in c.s.files && f.id == ts[|ts| - 1].id)
      && (w.receiver.ctl.result == ReceiveFailed <==> !w.receiver.ctl.result.Received?)
  {
    EveryInterleavingEndsAsExpected(c, turns);
    ExpectedOfTransfer(c);
  }

  // Why the receiver's PIN must not be empty

  /** Some interleaving brings the session to the file transfer. */
  ghost predicate TransferReachable(c: Session) {
    exists turns :: Interleaving(c, turns) && TransferAt(Reached(c, turns))
  }

  predicate TransferAt(w: Scene) {
    w.sender.ctl.SenderDone? && w.sender.ctl.result.Sent? && w.receiver.ctl.ReceiverDone?
  }

  /**
   If all else is right, the transfer is reached if and only if the receiver's
   PIN, where it has one, is not empty: an empty one is accepted unasked, and
   the attempt that comes nevertheless is taken for the sender's verdict.
   */
  lemma {:induction false} TransferNeedsReceiverPin(c: Session)
    requires Honest(c) && BothTrust(c) && BothPass(c) && c.r.choice.Select?
    ensures TransferReachable(c) <==> !IsEmptyPin(c.r.pin)
  {
    SessionSettles(c);
    ExpectedInOneOfThreeWays(c);
    var end :| LeadsTo(Both(c), Begin(c), end) && Ended(c, end);
    var run :| Possible(Both(c), Begin(c), run) && After(Both(c), Begin(c), run) == end;
    if !IsEmptyPin(c.r.pin) {
      assert Interleaving(c, run) && TransferAt(Reached(c, run));
    }
    if TransferReachable(c) {
      var turns :| Interleaving(c, turns) && TransferAt(Reached(c, turns));
      SentStaysSent(c, turns);
    }
  }

  /** A side that is done stays as it is, whatever the other does. */
  lemma {:induction false} DoneStaysDone(c: Session, w: Scene, turns: seq<Turn>)
    requires Possible(Both(c), w, turns) && TransferAt(w)
    ensures After(Both(c), w, turns).sender.ctl == w.sender.ctl
    decreases |turns|
  {
    if turns != [] {
      DoneStaysDone(c, Step(Both(c), w, turns[0]), turns[1..]);
    }
  }

  lemma {:induction false} SentStaysSent(c: Session, turns: seq<Turn>)
    requires Honest(c) && Interleaving(c, turns) && TransferAt(Reached(c, turns))
    ensures Expected(c).sender.Sent?
  {
    EveryInterleavingEndsAsExpected(c, turns);
    var w := Reached(c, turns);
    var end :| LeadsTo(Both(c), w, end) && Ended(c, end);
    var rest :| Possible(Both(c), w, rest) && After(Both(c), w, rest) == end;
    DoneStaysDone(c, w, rest);
  }
}
