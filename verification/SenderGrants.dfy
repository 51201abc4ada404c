/** Which files the sender hands over, and to which tokens, whatever messages arrive. */
module SenderGrants {
  import opened Prelude
  import opened Model
  import opened Channel
  import opened Framing
  import opened TwoTasks
  import opened Protocol
  import opened S = Sender
  import opened SenderSafety
  import opened SessionFiles
  import opened Session
  import Token

  // From admission to the selection

  /** What the sender does from admission on, given the messages that follow. */
  function Granting(d: Dialogue, b: nat): seq<Doing>
    requires d.Identified() && b <= |d.q|
  {
    SendFileList(d.cfg, d.Nonce(), d.Reply().value.token).effects
    + From(d, AwaitSelection(d.Nonce(), d.Reply().value.token, false, []), b)
  }

  /** The file list is sent at the moment of admission, and not before; the selection is then awaited from the message after it. */
  lemma {:induction false} AdmissionSendsList(d: Dialogue, a: nat, b: nat)
    requires d.Admits(a, b)
    ensures a <= |d.q| && b <= |d.q| && d.Effects() == Before(d, a) + Granting(d, b) && CONNECTED !in Before(d, a)
  {
    AdmittedCourse(d, a, b);
    BeforeDoesNotConnect(d, a);
  }

  // The selection

  /** What the sender does with a complete answer to its file list. */
  function Decide(cfg: SenderConfig, nonce: bytes, token: string, paired: bool, text: bytes): S.Next {
    OnSelection(cfg, nonce, token, paired, text, None)
  }

  /** The answer is complete at the next string message, or when the channel is closed. */
  lemma {:induction false} AnswerIsGathered(cfg: SenderConfig, nonce: bytes, token: string, paired: bool, buffer: bytes, q: seq<Message>)
    ensures var n := Decide(cfg, nonce, token, paired, buffer + Gathered(q));
      RunToClose(cfg, AwaitSelection(nonce, token, paired, buffer), q)
      == S.Then(n.effects, RunToClose(cfg, n.next, AfterGathering(q)))
    decreases |q|
  {
    var ctl := AwaitSelection(nonce, token, paired, buffer);
    if q == [] {
      RunToCloseLast(cfg, ctl, q);
      RunToCloseLast(cfg, Decide(cfg, nonce, token, paired, buffer).next, q);
      assert buffer + [] == buffer;
    } else {
      RunToCloseFirst(cfg, ctl, q);
      if q[0].isString {
        assert buffer + [] == buffer;
      } else {
        AnswerIsGathered(cfg, nonce, token, paired, buffer + q[0].data, q[1..]);
        Associative(buffer, q[0].data, Gathered(q[1..]));
        var n := RunToClose(cfg, AwaitSelection(nonce, token, paired, buffer + q[0].data), q[1..]);
        assert [] + n.effects == n.effects;
      }
    }
  }

  /** The verdict on a receiver that wants to pair: its token is checked against the key it now gives. */
  function PairVerdict(cfg: SenderConfig, nonce: bytes, token: string, publicKey: string): Option<Token.Verdict> {
    match Token.ExtractSignatureIdentifier(token)
    case None => None
    case Some(identifier) =>
      match cfg.parsePublicKey(publicKey, identifier)
      case None => None
      case Some(key) => Some(Token.VerifyTokenNonce(cfg.hash, key, token, nonce))
  }

  /** The pair exchange succeeds, whether or not the user agrees to pair. */
  predicate PairGoesOn(cfg: SenderConfig, nonce: bytes, token: string, publicKey: string) {
    PairVerdict(cfg, nonce, token, publicKey) == Some(Token.Accepted) && cfg.pairAnswer.Some?
  }

  function PairReplies(cfg: SenderConfig, nonce: bytes, token: string, publicKey: string): seq<Message> {
    if PairVerdict(cfg, nonce, token, publicKey) == Some(Token.Rejected) then
      [StringMessage(cfg.json.pair.show(PairInvalidSignature))]
    else if PairGoesOn(cfg, nonce, token, publicKey) then
      [StringMessage(cfg.json.pair.show(if cfg.pairAnswer.value then PairOk(publicKey) else PairDeclined))]
    else []
  }

  /** The answer that a chunked string brings; it may also be ended by the close. */
  function Answer(cfg: SenderConfig, q: seq<Message>): Option<FileListResponse> {
    cfg.json.fileList.parse(Gathered(q))
  }

  function GrantIn(answer: Option<FileListResponse>): Option<map<string, string>> {
    if answer.Some? && answer.value.ListOk? then Some(answer.value.files) else None
  }

  /** The tokens the receiver granted: in its answer, or in the one after a pair exchange. */
  function Grant(cfg: SenderConfig, nonce: bytes, token: string, q: seq<Message>): Option<map<string, string>> {
    var answer := Answer(cfg, q);
    if answer.Some? && answer.value.ListPair? then
      if PairGoesOn(cfg, nonce, token, answer.value.publicKey) then GrantIn(Answer(cfg, AfterGathering(q))) else None
    else GrantIn(answer)
  }

  function PairTalk(cfg: SenderConfig, nonce: bytes, token: string, q: seq<Message>): seq<Message> {
    var answer := Answer(cfg, q);
    if answer.Some? && answer.value.ListPair? then PairReplies(cfg, nonce, token, answer.value.publicKey) else []
  }

  /** The files on the wire: those with a token, each under its own id and token, closed by the delimiter. */
  function Handed(cfg: SenderConfig, grant: Option<map<string, string>>): seq<Message> {
    match grant
    case None => []
    case Some(tokens) =>
      SelectionIsAnswered(cfg, [], tokens);
      FilesMessages(cfg.json, tokens, Granted(tokens, cfg.transfers)) + [DELIMITER]
  }

  lemma {:induction false} AfterFilesSilence(cfg: SenderConfig, nonce: bytes, tokens: map<string, string>, q: seq<Message>)
    ensures RunToClose(cfg, AwaitResponse(nonce, tokens), q).effects == []
  {
    var ctl, done := AwaitResponse(nonce, tokens), SenderDone(Sent(nonce, tokens));
    if q == [] {
      RunToCloseLast(cfg, ctl, q);
      assert UponClose(cfg, done) == Reaction([], done);
    } else {
      RunToCloseFirst(cfg, ctl, q);
      RunToCloseLast(cfg, done, q[1..]);
    }
  }

  lemma {:induction false} DirectDecision(cfg: SenderConfig, nonce: bytes, token: string, paired: bool, text: bytes, later: seq<Message>)
    requires var answer := cfg.json.fileList.parse(text); paired || answer.None? || !answer.value.ListPair?
    ensures var n := Decide(cfg, nonce, token, paired, text);
      Sends(n.effects + RunToClose(cfg, n.next, later).effects) == Handed(cfg, GrantIn(cfg.json.fileList.parse(text)))
  {
    var n, grant := Decide(cfg, nonce, token, paired, text), GrantIn(cfg.json.fileList.parse(text));
    if grant.Some? {
      AfterFilesSilence(cfg, nonce, grant.value, later);
      SelectionIsAnswered(cfg, nonce, grant.value);
      assert n.effects + [] == n.effects;
    } else {
      RunToCloseLast(cfg, n.next, later);
      assert n.effects + [] == n.effects;
      if n.effects != [] {
        OneEffect(n.effects[0]);
        assert n.effects == [n.effects[0]];
      }
    }
  }

  /** An answer other than a wish to pair. */
  lemma {:induction false} DirectAnswer(cfg: SenderConfig, nonce: bytes, token: string, paired: bool, q: seq<Message>)
    requires var answer := Answer(cfg, q); paired || answer.None? || !answer.value.ListPair?
    ensures Sends(RunToClose(cfg, AwaitSelection(nonce, token, paired, []), q).effects)
         == Handed(cfg, GrantIn(Answer(cfg, q)))
  {
    AnswerIsGathered(cfg, nonce, token, paired, [], q);
    assert [] + Gathered(q) == Gathered(q);
    DirectDecision(cfg, nonce, token, paired, Gathered(q), AfterGathering(q));
  }

  lemma {:induction false} PairEffects(cfg: SenderConfig, nonce: bytes, token: string, publicKey: string)
    ensures var n := OnPair(cfg, nonce, token, publicKey);
      && Sends(n.effects) == PairReplies(cfg, nonce, token, publicKey)
      && n.next == (if PairGoesOn(cfg, nonce, token, publicKey) then AwaitSelection(nonce, token, true, []) else SenderDone(SendFailed))
  {
    var n := OnPair(cfg, nonce, token, publicKey);
    if |n.effects| == 2 {
      assert n.effects == [n.effects[0]] + [n.effects[1]];
      OneEffect(n.effects[0]);
      OneEffect(n.effects[1]);
      SendsTellsAppend([n.effects[0]], [n.effects[1]]);
    } else if |n.effects| == 1 {
      OneEffect(n.effects[0]);
      assert n.effects == [n.effects[0]];
    }
  }

  /**
   Whatever arrives after the file list until the channel is closed: all the
   sender sends is its part of a pair exchange and the files that were
   granted, and nothing if none were.
   */
  lemma {:induction false} OnlyGrantedFiles(cfg: SenderConfig, nonce: bytes, token: string, q: seq<Message>)
    ensures Sends(RunToClose(cfg, AwaitSelection(nonce, token, false, []), q).effects)
         == PairTalk(cfg, nonce, token, q) + Handed(cfg, Grant(cfg, nonce, token, q))
  {
    var answer := Answer(cfg, q);
    if answer.Some? && answer.value.ListPair? {
      PairedAnswer(cfg, nonce, token, q, answer.value.publicKey);
    } else {
      DirectAnswer(cfg, nonce, token, false, q);
      var handed := Handed(cfg, Grant(cfg, nonce, token, q));
      assert [] + handed == handed;
    }
  }

  lemma {:induction false} PairedAnswer(cfg: SenderConfig, nonce: bytes, token: string, q: seq<Message>, publicKey: string)
    requires Answer(cfg, q) == Some(ListPair(publicKey))
    ensures Sends(RunToClose(cfg, AwaitSelection(nonce, token, false, []), q).effects)
         == PairTalk(cfg, nonce, token, q) + Handed(cfg, Grant(cfg, nonce, token, q))
  {
    var n, later := OnPair(cfg, nonce, token, publicKey), AfterGathering(q);
    AnswerIsGathered(cfg, nonce, token, false, [], q);
    assert [] + Gathered(q) == Gathered(q);
    PairEffects(cfg, nonce, token, publicKey);
    SendsTellsAppend(n.effects, RunToClose(cfg, n.next, later).effects);
    if PairGoesOn(cfg, nonce, token, publicKey) {
      DirectAnswer(cfg, nonce, token, true, later);
    } else {
      RunToCloseLast(cfg, n.next, later);
    }
  }

  // What the sender tells its application about the answer

  /** Of an answer that is no wish to pair, or comes after one. */
  function ToldOf(cfg: SenderConfig, answer: Option<FileListResponse>): seq<Event> {
    match answer
    case None => []
    case Some(ListOk(tokens)) => [SelectionMade(tokens.Keys)] + RefusedLog(tokens, cfg.transfers)
    case Some(ListDeclined) => [StatusChanged(Declined)]
    case Some(ListInvalidSignature) => [StatusChanged(RTCStatus.Error("Invalid signature (not expected)"))]
    case Some(ListPair(_)) => [StatusChanged(RTCStatus.Error("Unexpected pair response"))]
  }

  function EndOf(nonce: bytes, answer: Option<FileListResponse>): SenderCtl {
    match answer
    case Some(ListOk(tokens)) => SenderDone(Sent(nonce, tokens))
    case Some(ListDeclined) => SenderDone(SendDeclined)
    case _ => SenderDone(SendFailed)
  }

  lemma {:induction false} DirectTold(cfg: SenderConfig, nonce: bytes, token: string, paired: bool, q: seq<Message>)
    requires paired || Answer(cfg, q).None? || !Answer(cfg, q).value.ListPair?
    ensures var o := RunToClose(cfg, AwaitSelection(nonce, token, paired, []), q);
      Tells(o.effects) == ToldOf(cfg, Answer(cfg, q)) && o.next == EndOf(nonce, Answer(cfg, q))
  {
    var answer, later := Answer(cfg, q), AfterGathering(q);
    var n := Decide(cfg, nonce, token, paired, Gathered(q));
    AnswerIsGathered(cfg, nonce, token, paired, [], q);
    assert [] + Gathered(q) == Gathered(q);
    if answer.Some? && answer.value.ListOk? {
      AfterFilesSilence(cfg, nonce, answer.value.files, later);
      FilesEnd(cfg, nonce, answer.value.files, later);
      SelectionIsAnswered(cfg, nonce, answer.value.files);
      assert n.effects + [] == n.effects;
    } else {
      RunToCloseLast(cfg, n.next, later);
      assert n.effects + [] == n.effects;
      if n.effects != [] {
        OneEffect(n.effects[0]);
        assert n.effects == [n.effects[0]];
      }
    }
  }

  lemma {:induction false} FilesEnd(cfg: SenderConfig, nonce: bytes, tokens: map<string, string>, q: seq<Message>)
    ensures RunToClose(cfg, AwaitResponse(nonce, tokens), q).next == SenderDone(Sent(nonce, tokens))
  {
    var ctl, done := AwaitResponse(nonce, tokens), SenderDone(Sent(nonce, tokens));
    if q == [] {
      RunToCloseLast(cfg, ctl, q);
      assert UponClose(cfg, done) == Reaction([], done);
    } else {
      RunToCloseFirst(cfg, ctl, q);
      RunToCloseLast(cfg, done, q[1..]);
    }
  }

  lemma {:induction false} PairTold(cfg: SenderConfig, nonce: bytes, token: string, publicKey: string)
    ensures Tells(OnPair(cfg, nonce, token, publicKey).effects)
         == if PairVerdict(cfg, nonce, token, publicKey) == Some(Token.Accepted) then [PairPrompted] else []
  {
    var n := OnPair(cfg, nonce, token, publicKey);
    if |n.effects| == 2 {
      assert n.effects == [n.effects[0]] + [n.effects[1]];
      OneEffect(n.effects[0]);
      OneEffect(n.effects[1]);
      SendsTellsAppend([n.effects[0]], [n.effects[1]]);
    } else if |n.effects| == 1 {
      OneEffect(n.effects[0]);
      assert n.effects == [n.effects[0]];
    }
  }

  /**
   Whatever arrives after the file list until the channel is closed: what the
   application is told of the answer, and how the sender ends. A wish to pair
   is put to the user only if the token verifies with the key that is given,
   and the answer that counts is then the next one.
   */
  lemma {:induction false} AnswerIsTold(cfg: SenderConfig, nonce: bytes, token: string, q: seq<Message>)
    ensures var o, answer := RunToClose(cfg, AwaitSelection(nonce, token, false, []), q), Answer(cfg, q);
      if answer.Some? && answer.value.ListPair? then
        var next := Answer(cfg, AfterGathering(q));
        if PairVerdict(cfg, nonce, token, answer.value.publicKey) != Some(Token.Accepted) then
          Tells(o.effects) == [] && o.next == SenderDone(SendFailed)
        else if cfg.pairAnswer.None? then Tells(o.effects) == [PairPrompted] && o.next == SenderDone(SendFailed)
        else Tells(o.effects) == [PairPrompted] + ToldOf(cfg, next) && o.next == EndOf(nonce, next)
      else Tells(o.effects) == ToldOf(cfg, answer) && o.next == EndOf(nonce, answer)
  {
    var answer := Answer(cfg, q);
    if answer.Some? && answer.value.ListPair? {
      var n, later := OnPair(cfg, nonce, token, answer.value.publicKey), AfterGathering(q);
      AnswerIsGathered(cfg, nonce, token, false, [], q);
      assert [] + Gathered(q) == Gathered(q);
      PairEffects(cfg, nonce, token, answer.value.publicKey);
      PairTold(cfg, nonce, token, answer.value.publicKey);
      SendsTellsAppend(n.effects, RunToClose(cfg, n.next, later).effects);
      if PairGoesOn(cfg, nonce, token, answer.value.publicKey) {
        DirectTold(cfg, nonce, token, true, later);
      } else {
        RunToCloseLast(cfg, n.next, later);
      }
    } else {
      DirectTold(cfg, nonce, token, false, q);
    }
  }

  /** A header among the files handed over names a transfer of the application and its granted token. */
  ghost predicate IsHeaderOf(json: Json, tokens: map<string, string>, ts: seq<Transfer>, m: Message) {
    exists t :: t in ts && t.id in tokens && m == Header(json, tokens, t)
  }

  /** Every header among the files handed over names a transfer of the application and its granted token. */
  lemma {:induction false} HeadersAreGranted(cfg: SenderConfig, tokens: map<string, string>, m: Message)
    requires m in Handed(cfg, Some(tokens)) && m.isString && m != DELIMITER
    ensures IsHeaderOf(cfg.json, tokens, cfg.transfers, m)
  {
    SelectionIsAnswered(cfg, [], tokens);
    HeaderOf(cfg.json, tokens, Granted(tokens, cfg.transfers), m);
    var t :| t in Granted(tokens, cfg.transfers) && t.id in tokens && m == Header(cfg.json, tokens, t);
    GrantedAreTransfers(tokens, cfg.transfers, t);
  }

  lemma {:induction false} HeaderOf(json: Json, tokens: map<string, string>, ts: seq<Transfer>, m: Message)
    requires AllGranted(tokens, ts) && m in FilesMessages(json, tokens, ts) && m.isString
    ensures IsHeaderOf(json, tokens, ts, m)
  {
    var data := Binaries(Chunks(Concat(ts[0].pieces)));
    if m == Header(json, tokens, ts[0]) {
      assert ts[0] in ts;
    } else {
      assert m !in data by {
        if m in data {
          BinariesAreBinary(Chunks(Concat(ts[0].pieces)), m);
        }
      }
      HeaderOf(json, tokens, ts[1..], m);
      var t :| t in ts[1..] && t.id in tokens && m == Header(json, tokens, t);
      assert t in ts;
    }
  }

  lemma {:induction false} BinariesAreBinary(pieces: seq<bytes>, m: Message)
    requires m in Binaries(pieces)
    ensures !m.isString
  {
    if m != Binary(pieces[0]) {
      BinariesAreBinary(pieces[1..], m);
    }
  }

  lemma {:induction false} GrantedAreTransfers(tokens: map<string, string>, ts: seq<Transfer>, t: Transfer)
    requires t in Granted(tokens, ts)
    ensures t in ts && t.id in tokens
  {
    if ts[0].id !in tokens || t != ts[0] {
      GrantedAreTransfers(tokens, ts[1..], t);
    }
  }

  /** In a whole dialogue: what precedes admission, and then nothing but the file list, a pair exchange and granted files. */
  lemma {:induction false} FilesOnlyAsGranted(d: Dialogue, a: nat, b: nat)
    requires d.Admits(a, b)
    ensures a <= |d.q| && b <= |d.q|
    ensures var nonce, token := d.Nonce(), d.Reply().value.token;
      Sends(d.Effects()) == Sends(Before(d, a)) + Framed(d.cfg.json.pinSending.show(Files(d.cfg.files)))
        + PairTalk(d.cfg, nonce, token, d.q[b..]) + Handed(d.cfg, Grant(d.cfg, nonce, token, d.q[b..]))
  {
    AdmissionSendsList(d, a, b);
    SentFromAdmission(d, b);
    SendsTellsAppend(Before(d, a), Granting(d, b));
    var nonce, token := d.Nonce(), d.Reply().value.token;
    var framed := Framed(d.cfg.json.pinSending.show(Files(d.cfg.files)));
    var talk, handed := PairTalk(d.cfg, nonce, token, d.q[b..]), Handed(d.cfg, Grant(d.cfg, nonce, token, d.q[b..]));
    Associative(Sends(Before(d, a)), framed, talk + handed);
    Associative(Sends(Before(d, a)) + framed, talk, handed);
  }

  lemma {:induction false} SentFromAdmission(d: Dialogue, b: nat)
    requires d.Identified() && b <= |d.q|
    ensures var nonce, token := d.Nonce(), d.Reply().value.token;
      Sends(Granting(d, b)) == Framed(d.cfg.json.pinSending.show(Files(d.cfg.files)))
        + (PairTalk(d.cfg, nonce, token, d.q[b..]) + Handed(d.cfg, Grant(d.cfg, nonce, token, d.q[b..])))
  {
    var nonce, token := d.Nonce(), d.Reply().value.token;
    var list := SendFileList(d.cfg, nonce, token).effects;
    var framed := Framed(d.cfg.json.pinSending.show(Files(d.cfg.files)));
    SendsTellsAppend(list, From(d, AwaitSelection(nonce, token, false, []), b));
    SendsTellsAppend([CONNECTED], SendAll<Event>(framed));
    SendsOfSendAll<Event>(framed);
    OneEffect(CONNECTED);
    assert [] + framed == framed;
    OnlyGrantedFiles(d.cfg, nonce, token, d.q[b..]);
  }
}
