/** The last phase of a session: the selection is granted and the files are transferred. */
module SessionFiles {
  import opened Prelude
  import opened Model
  import opened Channel
  import opened Framing
  import opened TwoTasks
  import opened Protocol
  import opened S = Sender
  import opened R = Receiver
  import opened Session

  // Chunked strings are gathered by whichever state waits for them

  lemma {:induction false} SenderGathers(cfg: SenderConfig, nonce: bytes, token: string, paired: bool, buffer: bytes, pieces: seq<bytes>)
    ensures var n := OnSelection(cfg, nonce, token, paired, buffer + Concat(pieces), Some(DELIMITER));
      Run(SenderTask(cfg), AwaitSelection(nonce, token, paired, buffer), Binaries(pieces) + [DELIMITER])
      == Outcome(n.effects, n.next, [])
    decreases |pieces|
  {
    var ctl := AwaitSelection(nonce, token, paired, buffer);
    if pieces == [] {
      assert Binaries(pieces) + [DELIMITER] == [DELIMITER] && buffer + Concat(pieces) == buffer;
      RunOne(SenderTask(cfg), ctl, DELIMITER);
    } else {
      assert (Binaries(pieces) + [DELIMITER])[1..] == Binaries(pieces[1..]) + [DELIMITER];
      SenderGathers(cfg, nonce, token, paired, buffer + pieces[0], pieces[1..]);
      Associative(buffer, pieces[0], Concat(pieces[1..]));
    }
  }

  lemma {:induction false} ReceiverGathersStatus(cfg: ReceiverConfig, nonce: bytes, buffer: bytes, pieces: seq<bytes>)
    ensures var n := OnPinStatus(cfg, nonce, buffer + Concat(pieces), Some(DELIMITER));
      Run(ReceiverTask(cfg), AwaitPinStatus(nonce, buffer), Binaries(pieces) + [DELIMITER]) == Outcome(n.effects, n.next, [])
    decreases |pieces|
  {
    var ctl := AwaitPinStatus(nonce, buffer);
    if pieces == [] {
      assert Binaries(pieces) + [DELIMITER] == [DELIMITER] && buffer + Concat(pieces) == buffer;
      RunOne(ReceiverTask(cfg), ctl, DELIMITER);
    } else {
      assert (Binaries(pieces) + [DELIMITER])[1..] == Binaries(pieces[1..]) + [DELIMITER];
      ReceiverGathersStatus(cfg, nonce, buffer + pieces[0], pieces[1..]);
      Associative(buffer, pieces[0], Concat(pieces[1..]));
    }
  }

  lemma {:induction false} ReceiverGathersReply(cfg: ReceiverConfig, nonce: bytes, guesses: seq<string>, buffer: bytes, pieces: seq<bytes>)
    ensures var n := R.OnPinReply(cfg, nonce, guesses, buffer + Concat(pieces), Some(DELIMITER));
      Run(ReceiverTask(cfg), ReceiverCtl.AwaitPinReply(nonce, guesses, buffer), Binaries(pieces) + [DELIMITER])
      == Outcome(n.effects, n.next, [])
    decreases |pieces|
  {
    var ctl := ReceiverCtl.AwaitPinReply(nonce, guesses, buffer);
    if pieces == [] {
      assert Binaries(pieces) + [DELIMITER] == [DELIMITER] && buffer + Concat(pieces) == buffer;
      RunOne(ReceiverTask(cfg), ctl, DELIMITER);
    } else {
      assert (Binaries(pieces) + [DELIMITER])[1..] == Binaries(pieces[1..]) + [DELIMITER];
      ReceiverGathersReply(cfg, nonce, guesses, buffer + pieces[0], pieces[1..]);
      Associative(buffer, pieces[0], Concat(pieces[1..]));
    }
  }

  lemma {:induction false} FramedGivesBack(b: bytes)
    ensures [] + Concat(Chunks(b)) == b
  {
    CutIsCanonical(Chunks(b), b, CHUNK_SIZE);
  }

  // The files on the wire

  function Header(json: Json, tokens: map<string, string>, t: Transfer): Message
    requires t.id in tokens
  {
    StringMessage(json.header.show(FileHeader(t.id, tokens[t.id])))
  }

  function FileMessages(json: Json, tokens: map<string, string>, t: Transfer): seq<Message>
    requires t.id in tokens
  {
    [Header(json, tokens, t)] + Binaries(Chunks(Concat(t.pieces)))
  }

  ghost predicate AllGranted(tokens: map<string, string>, ts: seq<Transfer>) {
    forall t :: t in ts ==> t.id in tokens
  }

  function FilesMessages(json: Json, tokens: map<string, string>, ts: seq<Transfer>): seq<Message>
    requires forall t :: t in ts ==> t.id in tokens
  {
    if ts == [] then [] else FileMessages(json, tokens, ts[0]) + FilesMessages(json, tokens, ts[1..])
  }

  lemma {:induction false} GrantedAreGranted(tokens: map<string, string>, ts: seq<Transfer>)
    ensures AllGranted(tokens, Granted(tokens, ts))
  {
    if ts != [] {
      GrantedAreGranted(tokens, ts[1..]);
    }
  }

  lemma {:induction false} WhatIsSent(cfg: SenderConfig, tokens: map<string, string>, ts: seq<Transfer>)
    ensures AllGranted(tokens, Granted(tokens, ts))
    ensures Sends(SendEach(cfg, tokens, ts)) == FilesMessages(cfg.json, tokens, Granted(tokens, ts))
    ensures Tells(SendEach(cfg, tokens, ts)) == RefusedLog(tokens, ts)
  {
    GrantedAreGranted(tokens, ts);
    if ts != [] {
      var first, rest := SendFile(cfg, tokens, ts[0]), SendEach(cfg, tokens, ts[1..]);
      WhatIsSent(cfg, tokens, ts[1..]);
      SendsTellsAppend(first, rest);
      if ts[0].id in tokens {
        var data := Binaries(Chunks(Concat(ts[0].pieces)));
        SendsTellsAppend([Send(Header(cfg.json, tokens, ts[0]))], SendAll<Event>(data));
        SendsOfSendAll<Event>(data);
        Singletons(Header(cfg.json, tokens, ts[0]), FileClosed(""));
        var g := Granted(tokens, ts);
        assert g[0] == ts[0] && g[1..] == Granted(tokens, ts[1..]);
      } else {
        Singletons(DELIMITER, FileFailed(ts[0].id, "Failed to get file token"));
        assert Granted(tokens, ts) == Granted(tokens, ts[1..]);
      }
    }
  }

  lemma {:induction false} Singletons(m: Message, e: Event)
    ensures Sends<Event>([Send(m)]) == [m] && Tells<Event>([Send(m)]) == []
    ensures Sends<Event>([Tell(e)]) == [] && Tells<Event>([Tell(e)]) == [e]
  {
    var sending: seq<Doing>, telling: seq<Doing> := [Send(m)], [Tell(e)];
    assert sending[1..] == [] && telling[1..] == [];
  }

  // Reading them

  /** What is told while a file's messages are read, before it is closed. */
  function OpenLog(files: seq<FileDto>, t: Transfer): seq<Event> {
    var chunks := Chunks(Concat(t.pieces));
    if Listed(files, t.id) then [FileOpened(t.id)] + DataEvents(t.id, chunks)
    else [FileFailed(t.id, "File not found in file list")] + StrayEvents(chunks)
  }

  function CloseLog(open: Option<string>): seq<Event> {
    if open.Some? then [FileClosed(open.value)] else []
  }

  lemma {:induction false} ReadData(cfg: ReceiverConfig, agreed: Agreement, open: Option<string>, verdicts: seq<FileVerdict>, chunks: seq<bytes>)
    ensures var o := Run(ReceiverTask(cfg), AwaitFiles(agreed, open, verdicts), Binaries(chunks));
      && o.ctl == AwaitFiles(agreed, open, verdicts) && o.unread == []
      && Tells(o.effects) == if open.Some? then DataEvents(open.value, chunks) else StrayEvents(chunks)
  {
    if chunks != [] {
      ReadData(cfg, agreed, open, verdicts, chunks[1..]);
      var ctl := AwaitFiles(agreed, open, verdicts);
      var r := R.React(cfg, ctl, Some(Binary(chunks[0])));
      SendsTellsAppend(r.effects, Run(ReceiverTask(cfg), ctl, Binaries(chunks[1..])).effects);
    }
  }

  lemma {:induction false} ReadHeader(cfg: ReceiverConfig, agreed: Agreement, open: Option<string>, verdicts: seq<FileVerdict>, t: Transfer)
    requires cfg.json.Lawful() && t.id in agreed.tokens
    ensures var r := OnFiles(cfg, agreed, open, verdicts, Some(Header(cfg.json, agreed.tokens, t)));
      && r.next == AwaitFiles(agreed, if Listed(agreed.files, t.id) then Some(t.id) else None,
                              if open.Some? then Tail(verdicts) else verdicts)
      && Tells(r.effects) == CloseLog(open)
           + [if Listed(agreed.files, t.id) then FileOpened(t.id) else FileFailed(t.id, "File not found in file list")]
  {
    var h := FileHeader(t.id, agreed.tokens[t.id]);
    assert cfg.json.header.parse(cfg.json.header.show(h)) == Some(h);
    var o := OpenFile(agreed, h);
    assert |o.effects| == 1 && o.effects[0].Tell?;
    assert o.effects == [Tell(o.effects[0].event)];
    Singletons(DELIMITER, o.effects[0].event);
    if open.Some? {
      TellsOfClosing(cfg, open.value, verdicts);
      SendsTellsAppend(CloseFile(cfg, open.value, verdicts), o.effects);
    }
  }

  lemma {:induction false} OpenLogStep(files: seq<FileDto>, before: seq<Event>, t: Transfer)
    ensures var chunks := Chunks(Concat(t.pieces));
      before + [if Listed(files, t.id) then FileOpened(t.id) else FileFailed(t.id, "File not found in file list")]
        + (if Listed(files, t.id) then DataEvents(t.id, chunks) else StrayEvents(chunks))
      == before + OpenLog(files, t)
  {
    var chunks := Chunks(Concat(t.pieces));
    if Listed(files, t.id) {
      Associative(before, [FileOpened(t.id)], DataEvents(t.id, chunks));
    } else {
      Associative(before, [FileFailed(t.id, "File not found in file list")], StrayEvents(chunks));
    }
  }

  lemma {:induction false} TellsOfClosing(cfg: ReceiverConfig, id: string, verdicts: seq<FileVerdict>)
    ensures Tells(CloseFile(cfg, id, verdicts)) == [FileClosed(id)]
  {
    var es := CloseFile(cfg, id, verdicts);
    assert es == [es[0]] + [es[1]];
    SendsTellsAppend([es[0]], [es[1]]);
    Singletons(es[1].message, es[0].event);
  }

  /** The run over one file, whatever file was open before. */
  lemma {:induction false} ReadFile(cfg: ReceiverConfig, agreed: Agreement, open: Option<string>, verdicts: seq<FileVerdict>, t: Transfer)
    requires cfg.json.Lawful() && t.id in agreed.tokens
    ensures var o := Run(ReceiverTask(cfg), AwaitFiles(agreed, open, verdicts), FileMessages(cfg.json, agreed.tokens, t));
      && o.ctl == AwaitFiles(agreed, if Listed(agreed.files, t.id) then Some(t.id) else None,
                             if open.Some? then Tail(verdicts) else verdicts)
      && o.unread == []
      && Tells(o.effects) == CloseLog(open) + OpenLog(agreed.files, t)
  {
    var chunks := Chunks(Concat(t.pieces));
    var m := Header(cfg.json, agreed.tokens, t);
    var r := OnFiles(cfg, agreed, open, verdicts, Some(m));
    ReadHeader(cfg, agreed, open, verdicts, t);
    ReadData(cfg, agreed, r.next.open, r.next.verdicts, chunks);
    var ctl := AwaitFiles(agreed, open, verdicts);
    RunOne(ReceiverTask(cfg), ctl, m);
    RunBoth(ReceiverTask(cfg), ctl, [m], Binaries(chunks));
    OpenLogStep(agreed.files, CloseLog(open), t);
  }

  /** The run over all files and the end delimiter. */
  lemma {:induction false} ReadFiles(cfg: ReceiverConfig, agreed: Agreement, open: Option<string>, verdicts: seq<FileVerdict>, ts: seq<Transfer>)
    requires cfg.json.Lawful() && AllGranted(agreed.tokens, ts)
    ensures var o := Run(ReceiverTask(cfg), AwaitFiles(agreed, open, verdicts), FilesMessages(cfg.json, agreed.tokens, ts) + [DELIMITER]);
      && o.ctl == ReceiverDone(if EndsCleanly(agreed.files, ts) || (ts == [] && open.Some?) then Received(agreed) else ReceiveFailed)
      && o.unread == []
      && Tells(o.effects) == CloseLog(open) + FilesLog(agreed.files, ts)
    decreases |ts|
  {
    var ctl := AwaitFiles(agreed, open, verdicts);
    if ts == [] {
      assert FilesMessages(cfg.json, agreed.tokens, ts) + [DELIMITER] == [DELIMITER];
      RunOne(ReceiverTask(cfg), ctl, DELIMITER);
      if open.Some? {
        TellsOfClosing(cfg, open.value, verdicts);
        assert CloseFile(cfg, open.value, verdicts) + [] == CloseFile(cfg, open.value, verdicts);
      }
      assert CloseLog(open) + [] == CloseLog(open);
    } else {
      assert ts[0] in ts;
      var first := FileMessages(cfg.json, agreed.tokens, ts[0]);
      var rest := FilesMessages(cfg.json, agreed.tokens, ts[1..]) + [DELIMITER];
      Associative(first, FilesMessages(cfg.json, agreed.tokens, ts[1..]), [DELIMITER]);
      var next := if Listed(agreed.files, ts[0].id) then Some(ts[0].id) else None;
      ReadFile(cfg, agreed, open, verdicts, ts[0]);
      RunBoth(ReceiverTask(cfg), ctl, first, rest);
      ReadFiles(cfg, agreed, next, if open.Some? then Tail(verdicts) else verdicts, ts[1..]);
      FilesLogStep(agreed.files, open, ts);
      assert ts[|ts| - 1] == if |ts| > 1 then ts[1..][|ts| - 2] else ts[0];
    }
  }

  lemma {:induction false} FilesLogStep(files: seq<FileDto>, open: Option<string>, ts: seq<Transfer>)
    requires ts != []
    ensures CloseLog(open) + FilesLog(files, ts)
         == (CloseLog(open) + OpenLog(files, ts[0]))
            + (CloseLog(if Listed(files, ts[0].id) then Some(ts[0].id) else None) + FilesLog(files, ts[1..]))
  {
    var end := CloseLog(if Listed(files, ts[0].id) then Some(ts[0].id) else None);
    assert FileLog(files, ts[0]) == OpenLog(files, ts[0]) + end;
    Associative(OpenLog(files, ts[0]), end, FilesLog(files, ts[1..]));
    Associative(CloseLog(open), OpenLog(files, ts[0]), end + FilesLog(files, ts[1..]));
  }

  // The phase

  lemma {:induction false} Sandwiched(e: Event, es: seq<Doing>, m: Message)
    ensures Sends([Tell(e)] + es + [Send(m)]) == Sends(es) + [m]
    ensures Tells([Tell(e)] + es + [Send(m)]) == [e] + Tells(es)
  {
    SendsTellsAppend([Tell(e)] + es, [Send(m)]);
    SendsTellsAppend([Tell(e)], es);
    Singletons(m, e);
    assert [] + Sends(es) == Sends(es) && [e] + Tells(es) + [] == [e] + Tells(es);
  }

  lemma {:induction false} SelectionIsAnswered(cfg: SenderConfig, nonce: bytes, tokens: map<string, string>)
    ensures var n := S.SendFiles(cfg, nonce, tokens);
      var ts := Granted(tokens, cfg.transfers);
      && AllGranted(tokens, ts)
      && Sends(n.effects) == FilesMessages(cfg.json, tokens, ts) + [DELIMITER]
      && Tells(n.effects) == [SelectionMade(tokens.Keys)] + RefusedLog(tokens, cfg.transfers)
  {
    WhatIsSent(cfg, tokens, cfg.transfers);
    Sandwiched(SelectionMade(tokens.Keys), SendEach(cfg, tokens, cfg.transfers), DELIMITER);
  }

  lemma {:induction false} FilesPhase(c: Session, token: string, slog: seq<Event>, rlog: seq<Event>)
    requires Honest(c) && c.r.choice.Select?
    requires Expected(c) == ExpectedChoice(c, slog, rlog)
    ensures var nonce := SessionNonce(c);
      Settles(c, Pause(AwaitSelection(nonce, token, false, []), slog,
                       AwaitFiles(Agreement(nonce, c.s.files, Tokens(c)), None, c.r.verdicts), rlog,
                       [], Framed(c.s.json.fileList.show(ListOk(Tokens(c))))))
  {
    var nonce, tokens := SessionNonce(c), Tokens(c);
    var agreed := Agreement(nonce, c.s.files, tokens);
    var text := c.s.json.fileList.show(ListOk(tokens));
    var sctl, rctl := AwaitSelection(nonce, token, false, []), AwaitFiles(agreed, None, c.r.verdicts);
    assert c.s.json.fileList.parse(text) == Some(ListOk(tokens));
    FramedGivesBack(text);
    SenderGathers(c.s, nonce, token, false, [], Chunks(text));
    SelectionIsAnswered(c.s, nonce, tokens);
    var n := S.SendFiles(c.s, nonce, tokens);
    Associative(slog, [SelectionMade(tokens.Keys)], RefusedLog(tokens, c.s.transfers));
    FilesAreRead(c, agreed, slog + Tells(n.effects), rlog);
    assert [] + Sends(n.effects) == Sends(n.effects);
    SenderGoesOn(c, sctl, slog, rctl, rlog, [], Framed(text));
  }

  lemma {:induction false} FilesAreRead(c: Session, agreed: Agreement, slog: seq<Event>, rlog: seq<Event>)
    requires Honest(c) && agreed == Agreement(SessionNonce(c), c.s.files, Tokens(c))
    requires var ts := Granted(agreed.tokens, c.s.transfers);
      && AllGranted(agreed.tokens, ts)
      && Expected(c) == Ending(Sent(agreed.nonce, agreed.tokens), slog,
           if EndsCleanly(agreed.files, ts) then Received(agreed) else ReceiveFailed, rlog + FilesLog(agreed.files, ts))
    ensures var ts := Granted(agreed.tokens, c.s.transfers);
      Settles(c, Pause(AwaitResponse(agreed.nonce, agreed.tokens), slog, AwaitFiles(agreed, None, c.r.verdicts), rlog,
                       FilesMessages(c.s.json, agreed.tokens, ts) + [DELIMITER], []))
  {
    var ts := Granted(agreed.tokens, c.s.transfers);
    var wire := FilesMessages(c.s.json, agreed.tokens, ts) + [DELIMITER];
    var rctl := AwaitFiles(agreed, None, c.r.verdicts);
    ReadFiles(c.r, agreed, None, c.r.verdicts, ts);
    var p := Run(ReceiverTask(c.r), rctl, wire);
    assert CloseLog(None) + FilesLog(agreed.files, ts) == FilesLog(agreed.files, ts);
    assert [] + Sends(p.effects) == Sends(p.effects);
    LastResponse(c, agreed.nonce, agreed.tokens, slog, p.ctl.result, rlog + Tells(p.effects), Sends(p.effects));
    ReceiverGoesOn(c, AwaitResponse(agreed.nonce, agreed.tokens), slog, rctl, rlog, wire, []);
  }

  lemma {:induction false} LastMessageIsHeard(c: Session, nonce: bytes, tokens: map<string, string>, slog: seq<Event>, result: ReceiverResult, rlog: seq<Event>, toSender: seq<Message>)
    requires Expected(c) == Ending(Sent(nonce, tokens), slog, result, rlog) && toSender != []
    ensures Settles(c, Pause(AwaitResponse(nonce, tokens), slog, ReceiverDone(result), rlog, [], toSender))
  {
    var sctl := AwaitResponse(nonce, tokens);
    var o := Run(SenderTask(c.s), sctl, toSender);
    var r := S.React(c.s, sctl, Some(toSender[0]));
    RunFirst(SenderTask(c.s), sctl, toSender);
    NothingLeft(SenderTask(c.s), r.next, toSender[1..]);
    assert o.ctl == SenderDone(Sent(nonce, tokens)) && o.effects == [] && slog + [] == slog;
    SettlesWhenEnded(c, Pause(o.ctl, slog, ReceiverDone(result), rlog, [], o.unread));
    SenderGoesOn(c, sctl, slog, ReceiverDone(result), rlog, [], toSender);
  }

  lemma {:induction false} CloseIsHeard(c: Session, nonce: bytes, tokens: map<string, string>, slog: seq<Event>, result: ReceiverResult, rlog: seq<Event>)
    requires Expected(c) == Ending(Sent(nonce, tokens), slog, result, rlog)
    ensures Settles(c, Pause(AwaitResponse(nonce, tokens), slog, ReceiverDone(result), rlog, [], []))
  {
    SettlesWhenEnded(c, Pause(SenderDone(Sent(nonce, tokens)), slog, ReceiverDone(result), rlog, [], []));
    SenderHearsClose(c, AwaitResponse(nonce, tokens), slog, result, rlog, []);
  }

  /** Finally the sender waits for one message, or for the end. */
  lemma {:induction false} LastResponse(c: Session, nonce: bytes, tokens: map<string, string>, slog: seq<Event>, result: ReceiverResult, rlog: seq<Event>, toSender: seq<Message>)
    requires Expected(c) == Ending(Sent(nonce, tokens), slog, result, rlog)
    ensures Settles(c, Pause(AwaitResponse(nonce, tokens), slog, ReceiverDone(result), rlog, [], toSender))
  {
    if toSender == [] {
      CloseIsHeard(c, nonce, tokens, slog, result, rlog);
    } else {
      LastMessageIsHeard(c, nonce, tokens, slog, result, rlog, toSender);
    }
  }
}
