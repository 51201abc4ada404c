/** What `accept_offer` spawns: the receiving peer, as a reaction to each received message. */
module Receiver {
  import opened Prelude
  import opened Model
  import opened Channel
  import opened Framing
  import opened TwoTasks
  import opened Protocol
  import opened Pin
  import Sender
  import Base64
  import Token

  /** The user's answer to the file list; the selection channel may also be dropped unanswered. */
  datatype Choice = Select(ids: set<string>) | Decline | NoChoice

  /** The application's verdict on a received file. */
  datatype FileVerdict = FileVerdict(success: bool, error: Option<string>)

  datatype ReceiverConfig = ReceiverConfig(
    json: Json,
    hash: bytes -> bytes,
    key: Token.SigningKey,
    expecting: Option<Token.VerifyingKey>,
    nonce: bytes,
    pin: Option<PinConfig>,
    // the token drawn for each selected file
    fileToken: string -> string,
    // what the application will answer
    guesses: seq<string>,
    choice: Choice,
    verdicts: seq<FileVerdict>)

  /** What was agreed on before the files are transferred. */
  datatype Agreement = Agreement(nonce: bytes, files: seq<FileDto>, tokens: map<string, string>)

  datatype ReceiverResult =
    | Received(agreed: Agreement)      // left by the end delimiter
    | Interrupted(agreed: Agreement)   // the channel was closed before
    | ReceiveDeclined
    | Unanswered
    | ReceiveFailed

  /** Where the receiver waits. */
  datatype ReceiverCtl =
    | AwaitNonce
    | AwaitToken(nonce: bytes)
    | AwaitPin(nonce: bytes, tries: nat)
    | AwaitPinStatus(nonce: bytes, buffer: bytes)
    | AwaitPinReply(nonce: bytes, guesses: seq<string>, buffer: bytes)
    | AwaitFiles(agreed: Agreement, open: Option<string>, verdicts: seq<FileVerdict>)
    | ReceiverDone(result: ReceiverResult)

  type Next = Reaction<ReceiverCtl, Event>

  const FAILED: Next := Reaction([], ReceiverDone(ReceiveFailed))

  function Then(es: seq<Doing>, n: Next): Next {
    n.(effects := es + n.effects)
  }

  function Start(): Next {
    Reaction([], AwaitNonce)
  }

  function OnNonce(cfg: ReceiverConfig, m: Option<Message>): Next {
    match Sender.ReceiveNonce(cfg.json, m)
    case None => FAILED
    case Some(remote) =>
      Reaction([Send(StringMessage(cfg.json.nonce.show(Base64.Encode(cfg.nonce))))], AwaitToken(remote + cfg.nonce))
  }

  function TokenReply(cfg: ReceiverConfig, reply: TokenResponse): Doing {
    Send(StringMessage(cfg.json.tokenResponse.show(reply)))
  }

  function OnToken(cfg: ReceiverConfig, nonce: bytes, m: Option<Message>): Next {
    if m.None? || !m.value.isString then FAILED
    else match cfg.json.tokenRequest.parse(m.value.data)
      case None => FAILED
      case Some(remote) =>
        if cfg.expecting.None? then ReplyWithToken(cfg, nonce)
        else match Token.VerifyTokenNonce(cfg.hash, cfg.expecting.value, remote, nonce)
          case Panicked => FAILED
          case Rejected => Reaction([TokenReply(cfg, TokenInvalidSignature)], ReceiverDone(ReceiveFailed))
          case Accepted => ReplyWithToken(cfg, nonce)
  }

  function ReplyWithToken(cfg: ReceiverConfig, nonce: bytes): Next {
    var token := Token.GenerateTokenNonce(cfg.hash, cfg.key, nonce);
    match cfg.pin
    case None => Reaction([TokenReply(cfg, TokenOk(token))], AwaitPinStatus(nonce, []))
    case Some(pin) =>
      Then([TokenReply(cfg, TokenPinRequired(token)), Announce(PinRequired)], CheckPin(cfg, pin, nonce, "", 0, false))
  }

  // The receiver's own PIN

  function Notice(cfg: ReceiverConfig, result: VerifyPinResult): seq<Message> {
    [StringMessage(cfg.json.pinReceiving.show(if result.NoticeWanted? then PinWanted else PinTriesExceeded))]
  }

  function CheckPin(cfg: ReceiverConfig, pin: PinConfig, nonce: bytes, remote: string, tries: nat, notice: bool): Next {
    var n := NoticesOf(r => Notice(cfg, r));
    if remote == pin.pin then
      Reaction([Send(StringMessage(cfg.json.pinReceiving.show(PinAccepted)))], AwaitPinStatus(nonce, []))
    else if tries >= pin.maxTries then Reaction(n.exceeded, ReceiverDone(ReceiveFailed))
    else Reaction(Asking(n, tries, notice), AwaitPin(nonce, tries))
  }

  function OnPin(cfg: ReceiverConfig, nonce: bytes, tries: nat, m: Option<Message>): Next {
    if m.None? || cfg.pin.None? then FAILED
    else match cfg.json.pin.parse(m.value.data)
      case None => FAILED
      case Some(remote) => CheckPin(cfg, cfg.pin.value, nonce, remote, tries + 1, false)
  }

  // The sender's PIN, which the receiver has to give, and the file list

  function OnPinStatus(cfg: ReceiverConfig, nonce: bytes, buffer: bytes, m: Option<Message>): Next {
    if m.Some? && !m.value.isString then Reaction([], AwaitPinStatus(nonce, buffer + m.value.data))
    else match cfg.json.pinSending.parse(buffer)
      case None => FAILED
      case Some(Files(files)) => Choose(cfg, nonce, files)
      case Some(SendingPinWanted) => PromptForPin(cfg, nonce, cfg.guesses)
      case Some(SendingPinTriesExceeded) =>
        Reaction([Announce(RTCStatus.Error("Unexpected TooManyAttempts response"))], ReceiverDone(ReceiveFailed))
  }

  function PromptForPin(cfg: ReceiverConfig, nonce: bytes, guesses: seq<string>): Next {
    Then(Prompting(),
      if guesses == [] then FAILED
      else Reaction([PinAttempt(cfg.json, guesses[0])], AwaitPinReply(nonce, guesses[1..], [])))
  }

  function OnPinReply(cfg: ReceiverConfig, nonce: bytes, guesses: seq<string>, buffer: bytes, m: Option<Message>): Next {
    if m.Some? && !m.value.isString then Reaction([], AwaitPinReply(nonce, guesses, buffer + m.value.data))
    else match cfg.json.pinSending.parse(buffer)
      case None => FAILED
      case Some(Files(files)) => Choose(cfg, nonce, files)
      case Some(SendingPinWanted) => PromptForPin(cfg, nonce, guesses)
      case Some(SendingPinTriesExceeded) => Reaction([Announce(TooManyAttempts)], ReceiverDone(ReceiveFailed))
  }

  function Choose(cfg: ReceiverConfig, nonce: bytes, files: seq<FileDto>): Next {
    Then([Announce(Connected), Tell(FilesListed(files))],
      match cfg.choice
      case NoChoice => Reaction([], ReceiverDone(Unanswered))
      case Decline => Reaction(SendAll(Framed(cfg.json.fileList.show(ListDeclined))), ReceiverDone(ReceiveDeclined))
      case Select(ids) =>
        var tokens := map id | id in ids :: cfg.fileToken(id);
        Reaction(SendAll(Framed(cfg.json.fileList.show(ListOk(tokens)))),
          AwaitFiles(Agreement(nonce, files, tokens), None, cfg.verdicts)))
  }

  // The files

  function Response(id: string, verdicts: seq<FileVerdict>): SendFileResponse {
    if verdicts == [] then SendFileResponse(id, false, Some("Failed to receive file result"))
    else if verdicts[0].success then SendFileResponse(id, true, None)
    else SendFileResponse(id, false, Some(if verdicts[0].error.Some? then verdicts[0].error.value else "Unknown error"))
  }

  function Tail<T>(s: seq<T>): seq<T> {
    if s == [] then [] else s[1..]
  }

  predicate Listed(files: seq<FileDto>, id: string) {
    exists f :: f in files && f.id == id
  }

  /** What a string message does as a file header; `open` is the file it opens. */
  datatype Opening = Opening(effects: seq<Doing>, open: Option<string>)

  function OpenFile(agreed: Agreement, h: FileHeader): Opening {
    if h.id !in agreed.tokens then Opening([Tell(FileFailed(h.id, "File not found"))], None)
    else if h.token != agreed.tokens[h.id] then Opening([Tell(FileFailed(h.id, "Invalid token"))], None)
    else if !Listed(agreed.files, h.id) then Opening([Tell(FileFailed(h.id, "File not found in file list"))], None)
    else Opening([Tell(FileOpened(h.id))], Some(h.id))
  }

  /** The end of the open file: its stream ends and its result is sent. */
  function CloseFile(cfg: ReceiverConfig, id: string, verdicts: seq<FileVerdict>): seq<Doing> {
    [Tell(FileClosed(id)), Send(StringMessage(cfg.json.fileResponse.show(Response(id, verdicts))))]
  }

  function OnHeader(cfg: ReceiverConfig, agreed: Agreement, verdicts: seq<FileVerdict>, m: Message): Next {
    match cfg.json.header.parse(m.data)
    case None => FAILED
    case Some(h) =>
      var o := OpenFile(agreed, h);
      Reaction(o.effects, AwaitFiles(agreed, o.open, verdicts))
  }

  function OnFiles(cfg: ReceiverConfig, agreed: Agreement, open: Option<string>, verdicts: seq<FileVerdict>, m: Option<Message>): Next {
    match m
    case None =>
      Reaction(if open.Some? then [Tell(FileClosed(open.value))] else [], ReceiverDone(Interrupted(agreed)))
    case Some(message) =>
      if message.isString then
        if open.None? then OnHeader(cfg, agreed, verdicts, message)
        else Then(CloseFile(cfg, open.value, verdicts),
          if IsDelimiter(message) then Reaction([], ReceiverDone(Received(agreed)))
          else OnHeader(cfg, agreed, Tail(verdicts), message))
      else
        Reaction(
          [Tell(if open.Some? then FileData(open.value, message.data)
                else FileFailed("unknown", "Received binary data without a header"))],
          AwaitFiles(agreed, open, verdicts))
  }

  function React(cfg: ReceiverConfig, ctl: ReceiverCtl, m: Option<Message>): Next {
    match ctl
    case AwaitNonce => OnNonce(cfg, m)
    case AwaitToken(nonce) => OnToken(cfg, nonce, m)
    case AwaitPin(nonce, tries) => OnPin(cfg, nonce, tries, m)
    case AwaitPinStatus(nonce, buffer) => OnPinStatus(cfg, nonce, buffer, m)
    case AwaitPinReply(nonce, guesses, buffer) => OnPinReply(cfg, nonce, guesses, buffer, m)
    case AwaitFiles(agreed, open, verdicts) => OnFiles(cfg, agreed, open, verdicts, m)
    case ReceiverDone(_) => Reaction([], ctl)
  }

  function ReceiverTask(cfg: ReceiverConfig): Task<ReceiverCtl, Event> {
    Task((ctl, m) => React(cfg, ctl, m), (ctl: ReceiverCtl) => ctl.ReceiverDone?)
  }

  // Until the channel is closed

  /** How many more receives on a closed channel there can be. */
  function Patience(cfg: ReceiverConfig, ctl: ReceiverCtl): nat {
    if ctl.ReceiverDone? then 0
    else if ctl.AwaitPinStatus? then |cfg.guesses| + 3
    else if ctl.AwaitPinReply? then |ctl.guesses| + 2
    else 1
  }

  /** A receive on a closed channel brings the end nearer. */
  lemma {:induction false} CloseBringsEnd(cfg: ReceiverConfig, ctl: ReceiverCtl)
    requires !ctl.ReceiverDone?
    ensures Patience(cfg, React(cfg, ctl, None).next) < Patience(cfg, ctl)
  {
  }

  /** What happens once the channel is closed and empty. */
  function UponClose(cfg: ReceiverConfig, ctl: ReceiverCtl): Next
    decreases Patience(cfg, ctl)
  {
    if ctl.ReceiverDone? then Reaction([], ctl)
    else
      CloseBringsEnd(cfg, ctl);
      var r := React(cfg, ctl, None);
      Then(r.effects, UponClose(cfg, r.next))
  }

  /** A whole run on `q`, after which the channel is closed. */
  function RunToClose(cfg: ReceiverConfig, ctl: ReceiverCtl, q: seq<Message>): Next {
    var o := Run(ReceiverTask(cfg), ctl, q);
    Then(o.effects, UponClose(cfg, o.ctl))
  }

  lemma {:induction false} RunToCloseFirst(cfg: ReceiverConfig, ctl: ReceiverCtl, q: seq<Message>)
    requires !ctl.ReceiverDone? && q != []
    ensures var r := React(cfg, ctl, Some(q[0])); RunToClose(cfg, ctl, q) == Then(r.effects, RunToClose(cfg, r.next, q[1..]))
  {
    var r := React(cfg, ctl, Some(q[0]));
    RunFirst(ReceiverTask(cfg), ctl, q);
    var rest := Run(ReceiverTask(cfg), r.next, q[1..]);
    Associative(r.effects, rest.effects, UponClose(cfg, rest.ctl).effects);
  }

  lemma {:induction false} RunToCloseLast(cfg: ReceiverConfig, ctl: ReceiverCtl, q: seq<Message>)
    requires ctl.ReceiverDone? || q == []
    ensures RunToClose(cfg, ctl, q) == UponClose(cfg, ctl)
  {
    NothingLeft(ReceiverTask(cfg), ctl, q);
    var n := UponClose(cfg, ctl);
    assert [] + n.effects == n.effects;
  }
}
