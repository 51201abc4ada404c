/** The messages of a transfer session, and what a session tells its application. */
module Protocol {
  import opened Prelude
  import opened Model
  import opened Channel

  datatype TokenResponse = TokenOk(token: string) | TokenPinRequired(token: string) | TokenInvalidSignature

  datatype PinReceivingResponse = PinAccepted | PinWanted | PinTriesExceeded

  datatype PinSendingResponse = Files(files: seq<FileDto>) | SendingPinWanted | SendingPinTriesExceeded

  datatype FileListResponse =
    | ListOk(files: map<string, string>)
    | ListPair(publicKey: string)
    | ListDeclined
    | ListInvalidSignature

  datatype PairResponse = PairOk(publicKey: string) | PairDeclined | PairInvalidSignature

  datatype FileHeader = FileHeader(id: string, token: string)

  datatype SendFileResponse = SendFileResponse(id: string, success: bool, error: Option<string>)

  /** A printer and a parser of one kind of message. */
  datatype Codec<!T> = Codec(show: T -> bytes, parse: bytes -> Option<T>)

  ghost predicate RoundTrips<T(!new)>(c: Codec<T>) {
    forall x :: c.parse(c.show(x)) == Some(x)
  }

  /** The JSON form of every kind of message. */
  datatype Json = Json(
    nonce: Codec<string>,
    tokenRequest: Codec<string>,
    tokenResponse: Codec<TokenResponse>,
    pin: Codec<string>,
    pinReceiving: Codec<PinReceivingResponse>,
    pinSending: Codec<PinSendingResponse>,
    fileList: Codec<FileListResponse>,
    pair: Codec<PairResponse>,
    header: Codec<FileHeader>,
    fileResponse: Codec<SendFileResponse>)
  {
    /** What the session relies on: printing is undone by parsing, no text is no message, and "0" is no file header. */
    ghost predicate Lawful() {
      && RoundTrips(nonce) && RoundTrips(tokenRequest) && RoundTrips(tokenResponse)
      && RoundTrips(pin) && RoundTrips(pinReceiving) && RoundTrips(pinSending)
      && RoundTrips(fileList) && RoundTrips(pair) && RoundTrips(header) && RoundTrips(fileResponse)
      && fileList.parse([]) == None && pinSending.parse([]) == None
      && header.parse(DELIMITER.data) == None
      && forall h :: |header.show(h)| > 1
    }
  }

  /** What a session tells its application, on whichever channel. */
  datatype Event =
    | StatusChanged(status: RTCStatus)
    | PinPrompted
    | PairPrompted
    | FilesListed(files: seq<FileDto>)
    | SelectionMade(ids: set<string>)
    | FileFailed(id: string, error: string)
    | FileOpened(id: string)
    | FileData(id: string, data: bytes)
    | FileClosed(id: string)

  type Doing = Effect<Event>

  function Announce(status: RTCStatus): Doing {
    Tell(StatusChanged(status))
  }
}
