/** The bridge format byte by byte and field by field, and which values it is meant for. */
module BridgeLayout {
  import opened Prelude
  import opened Model
  import opened Protocol
  import opened BridgeCodec
  import Utf8

  lemma {:induction false} FourBytes(n: nat)
    requires n < 0x1_0000_0000
    ensures LittleEndian(n, 4) == [n % 256, n / 256 % 256, n / 256 / 256 % 256, n / 256 / 256 / 256]
  {
    var b := n / 256;
    var c := b / 256;
    var d := c / 256;
    assert d < 256;
    assert LittleEndian(d, 1) == [d] + LittleEndian(d / 256, 0);
    assert LittleEndian(c, 2) == [c % 256] + LittleEndian(d, 1);
    assert LittleEndian(b, 3) == [b % 256] + LittleEndian(c, 2);
    assert LittleEndian(n, 4) == [n % 256] + LittleEndian(b, 3);
  }

  /** Signed numbers of 32 bits, lengths and tags: two's complement, the lowest byte first. */
  lemma {:induction false} I32Layout(x: i32)
    ensures var n := if x < 0 then x + 0x1_0000_0000 else x;
      I32.enc(x) == [n % 256, n / 256 % 256, n / 256 / 256 % 256, n / 256 / 256 / 256]
  {
    FourBytes(if x < 0 then x + 0x1_0000_0000 else x);
    CarriedWrites(Unsigned(4), ToSigned, FromSigned, x);
  }

  // How formats made of others write

  lemma {:induction false} CarriedWrites<T, U>(f: Format<T>, to: T -> Option<U>, from: U -> T, u: U)
    ensures Carried(f, to, from, Any).enc(u) == f.enc(from(u))
  {
  }

  lemma {:induction false} BothWrite<T, U>(f: Format<T>, g: Format<U>, x: T, y: U)
    ensures Both(f, g).enc((x, y)) == f.enc(x) + g.enc(y)
  {
  }

  lemma {:induction false} ByteLayout(x: u8)
    ensures U8.enc(x) == [x]
  {
    assert LittleEndian(x, 1) == [x % 256] + LittleEndian(x / 256, 0);
    CarriedWrites(Unsigned(1), ToU8, FromU8, x);
  }

  lemma {:induction false} SmallLayouts(x: u8, y: u16, z: bool)
    ensures U8.enc(x) == [x] && U16.enc(y) == [y % 256, y / 256] && BOOL.enc(z) == [if z then 1 else 0]
  {
    ByteLayout(x);
    ByteLayout(FromBool(z));
    CarriedWrites(U8, ToBool, FromBool, z);
    CarriedWrites(Unsigned(2), ToU16, FromU16, y);
    var high := y / 256;
    assert high < 256;
    assert LittleEndian(high, 1) == [high % 256] + LittleEndian(high / 256, 0);
    assert LittleEndian(y, 2) == [y % 256] + LittleEndian(high, 1);
  }

  lemma {:induction false} BytesAsTheyAre(b: bytes)
    ensures EncodeAll(U8, b) == b
  {
    if b != [] {
      BytesAsTheyAre(b[1..]);
      ByteLayout(b[0]);
      assert b == [b[0]] + b[1..];
    }
  }

  /** A string is the number of its bytes, and its bytes. */
  lemma {:induction false} StringLayout(s: string)
    requires |Utf8.Encode(s)| < 0x8000_0000
    ensures STRING.enc(s) == I32.enc(|Utf8.Encode(s)|) + Utf8.Encode(s)
  {
    CarriedWrites(BYTES, Utf8.Decode, Utf8.Encode, s);
    ListWrites(U8, Utf8.Encode(s));
    BytesAsTheyAre(Utf8.Encode(s));
  }

  lemma {:induction false} ListWrites<T>(f: Format<T>, xs: seq<T>)
    requires |xs| < 0x8000_0000
    ensures Vec(f).enc(xs) == I32.enc(|xs|) + EncodeAll(f, xs)
  {
  }

  /** A list is the number of its elements, and its elements; an option is a flag, and its value if it has one. */
  lemma {:induction false} CollectionLayouts<T>(f: Format<T>, xs: seq<T>, x: T)
    requires |xs| + 1 < 0x8000_0000
    ensures Vec(f).enc([]) == I32.enc(0)
    ensures Vec(f).enc([x] + xs) == I32.enc(|xs| + 1) + (f.enc(x) + EncodeAll(f, xs))
    ensures Optional(f).enc(None) == BOOL.enc(false) && Optional(f).enc(Some(x)) == BOOL.enc(true) + f.enc(x)
  {
    assert ([x] + xs)[1..] == xs;
    assert I32.enc(0) + [] == I32.enc(0);
  }

  // The fields of records, in the order of the program

  lemma {:induction false} FileLayout(f: FileDto)
    ensures FILE_DTO.enc(f) ==
      STRING.enc(f.id) + (STRING.enc(f.fileName) + (U64.enc(f.size) + (STRING.enc(f.fileType)
      + (Optional(STRING).enc(f.sha256) + (Optional(STRING).enc(f.preview) + Optional(FILE_METADATA).enc(f.metadata))))))
  {
    var last := (f.preview, f.metadata);
    var tail: FileTail := (f.fileType, (f.sha256, last));
    CarriedWrites(FILE_FIELDS, FileOf, FileFieldsOf, f);
    BothWrite(STRING, Both(STRING, Both(U64, FILE_TAIL)), f.id, (f.fileName, (f.size, tail)));
    BothWrite(STRING, Both(U64, FILE_TAIL), f.fileName, (f.size, tail));
    BothWrite(U64, FILE_TAIL, f.size, tail);
    BothWrite(STRING, Both(Optional(STRING), Both(Optional(STRING), Optional(FILE_METADATA))), f.fileType, (f.sha256, last));
    BothWrite(Optional(STRING), Both(Optional(STRING), Optional(FILE_METADATA)), f.sha256, last);
    BothWrite(Optional(STRING), Optional(FILE_METADATA), f.preview, f.metadata);
  }

  lemma {:induction false} MetadataLayout(m: FileMetadata)
    ensures FILE_METADATA.enc(m) == Optional(STRING).enc(m.modified) + Optional(STRING).enc(m.accessed)
  {
    CarriedWrites(METADATA_FIELDS, MetadataOf, MetadataFieldsOf, m);
    BothWrite(Optional(STRING), Optional(STRING), m.modified, m.accessed);
  }

  lemma {:induction false} ClientLayout(c: ClientInfo)
    ensures CLIENT_INFO.enc(c) ==
      UUID.enc(c.id) + (STRING.enc(c.alias) + (STRING.enc(c.version)
      + (Optional(STRING).enc(c.deviceModel) + (Optional(DEVICE_TYPE).enc(c.deviceType) + STRING.enc(c.token)))))
  {
    var last := (c.deviceType, c.token);
    var tail: ClientTail := (c.deviceModel, last);
    CarriedWrites(CLIENT_FIELDS, ClientOf, ClientFieldsOf, c);
    BothWrite(UUID, Both(STRING, Both(STRING, CLIENT_TAIL)), c.id, (c.alias, (c.version, tail)));
    BothWrite(STRING, Both(STRING, CLIENT_TAIL), c.alias, (c.version, tail));
    BothWrite(STRING, CLIENT_TAIL, c.version, tail);
    BothWrite(Optional(STRING), Both(Optional(DEVICE_TYPE), STRING), c.deviceModel, last);
    BothWrite(Optional(DEVICE_TYPE), STRING, c.deviceType, c.token);
  }

  lemma {:induction false} ResponseLayout(r: SendFileResponse)
    ensures SEND_FILE_RESPONSE.enc(r) == STRING.enc(r.id) + (BOOL.enc(r.success) + Optional(STRING).enc(r.error))
  {
    CarriedWrites(RESPONSE_FIELDS, ResponseOf, ResponseFieldsOf, r);
    BothWrite(STRING, Both(BOOL, Optional(STRING)), r.id, (r.success, r.error));
    BothWrite(BOOL, Optional(STRING), r.success, r.error);
  }

  lemma {:induction false} PinLayout(p: PinConfig)
    ensures PIN_CONFIG.enc(p) == STRING.enc(p.pin) + [p.maxTries]
  {
    CarriedWrites(PIN_FIELDS, PinOf, PinFieldsOf, p);
    BothWrite(STRING, U8, p.pin, p.maxTries);
    ByteLayout(p.maxTries);
  }

  lemma {:induction false} SdpLayout(s: WsServerSdpMessage)
    ensures SDP_MESSAGE.enc(s) == CLIENT_INFO.enc(s.peer) + (STRING.enc(s.sessionId) + STRING.enc(s.sdp))
  {
    CarriedWrites(SDP_FIELDS, SdpOf, SdpFieldsOf, s);
    BothWrite(CLIENT_INFO, Both(STRING, STRING), s.peer, (s.sessionId, s.sdp));
    BothWrite(STRING, STRING, s.sessionId, s.sdp);
  }

  // The tags of unions, in the order of the program

  lemma {:induction false} StatusLayout(s: RTCStatus)
    ensures RTC_STATUS.enc(s) == match s
      case SdpExchanged => I32.enc(0)
      case Connected => I32.enc(1)
      case PinRequired => I32.enc(2)
      case TooManyAttempts => I32.enc(3)
      case Declined => I32.enc(4)
      case Sending => I32.enc(5)
      case Finished => I32.enc(6)
      case Error(text) => I32.enc(7) + STRING.enc(text)
  {
  }

  lemma {:induction false} DeviceTypeLayout(t: DeviceType)
    ensures DEVICE_TYPE.enc(t) == I32.enc(match t case Mobile => 0 case Desktop => 1 case Web => 2 case Headless => 3 case Server => 4)
  {
    CarriedWrites(I32, DeviceTypeOf, DeviceTypeTag, t);
  }

  lemma {:induction false} MessageLayout(m: WsServerMessage)
    ensures SERVER_MESSAGE.enc(m) == match m
      case WsHello(client, peers) => I32.enc(0) + (CLIENT_INFO.enc(client) + CLIENT_INFOS.enc(peers))
      case WsJoin(peer) => I32.enc(1) + CLIENT_INFO.enc(peer)
      case WsUpdate(peer) => I32.enc(2) + CLIENT_INFO.enc(peer)
      case WsLeft(id) => I32.enc(3) + UUID.enc(id)
      case WsOffer(sdp) => I32.enc(4) + SDP_MESSAGE.enc(sdp)
      case WsAnswer(sdp) => I32.enc(5) + SDP_MESSAGE.enc(sdp)
      case WsError(code) => I32.enc(6) + U16.enc(code)
  {
    MessageWrites(BODIES, m);
    if m.WsHello? {
      BothWrite(CLIENT_INFO, CLIENT_INFOS, m.client, m.peers);
    }
  }

  lemma {:induction false} MessageWrites(f: Bodies, m: WsServerMessage)
    ensures Messages(f).enc(m) == match m
      case WsHello(client, peers) => I32.enc(0) + f.hello.enc((client, peers))
      case WsJoin(peer) => I32.enc(1) + f.peer.enc(peer)
      case WsUpdate(peer) => I32.enc(2) + f.peer.enc(peer)
      case WsLeft(id) => I32.enc(3) + f.id.enc(id)
      case WsOffer(sdp) => I32.enc(4) + f.sdp.enc(sdp)
      case WsAnswer(sdp) => I32.enc(5) + f.sdp.enc(sdp)
      case WsError(code) => I32.enc(6) + f.code.enc(code)
  {
    assert Messages(f).enc(m) == I32.enc(Tag(m)) + EncodeBody(f, m);
    match m
    case WsHello(_, _) => assert Tag(m) == 0;
    case WsJoin(_) => assert Tag(m) == 1;
    case WsUpdate(_) => assert Tag(m) == 2;
    case WsLeft(_) => assert Tag(m) == 3;
    case WsOffer(_) => assert Tag(m) == 4;
    case WsAnswer(_) => assert Tag(m) == 5;
    case WsError(_) => assert Tag(m) == 6;
  }

  // What the formats are meant for

  lemma {:induction false} IdsFit(id: string)
    ensures UUID.fits(id) <==> IsUuid(id)
  {
    U8IsFaithful();
    if IsUuid(id) {
      UuidReadsBack(id);
    }
  }

  lemma {:induction false} ClientFits(c: ClientInfo)
    ensures CLIENT_INFO.fits(c) <==>
      IsUuid(c.id) && StringFits(c.alias) && StringFits(c.version) && OptionFits(c.deviceModel) && StringFits(c.token)
  {
    var last := (c.deviceType, c.token);
    var tail: ClientTail := (c.deviceModel, last);
    CarriedFits(CLIENT_FIELDS, ClientOf, ClientFieldsOf, c);
    I32IsFaithful();
    IdsFit(c.id);
    StringsFit(c.alias);
    StringsFit(c.version);
    StringsFit(c.token);
    OptionalStringFits(c.deviceModel);
    if c.deviceType.Some? {
      CarriedFits(I32, DeviceTypeOf, DeviceTypeTag, c.deviceType.value);
    }
    PairFits(UUID, Both(STRING, Both(STRING, CLIENT_TAIL)), c.id, (c.alias, (c.version, tail)));
    PairFits(STRING, Both(STRING, CLIENT_TAIL), c.alias, (c.version, tail));
    PairFits(STRING, CLIENT_TAIL, c.version, tail);
    PairFits(Optional(STRING), Both(Optional(DEVICE_TYPE), STRING), c.deviceModel, last);
    PairFits(Optional(DEVICE_TYPE), STRING, c.deviceType, c.token);
  }

  lemma {:induction false} ResponseFits(r: SendFileResponse)
    ensures SEND_FILE_RESPONSE.fits(r) <==> StringFits(r.id) && OptionFits(r.error)
  {
    CarriedFits(RESPONSE_FIELDS, ResponseOf, ResponseFieldsOf, r);
    PairFits(STRING, Both(BOOL, Optional(STRING)), r.id, (r.success, r.error));
    PairFits(BOOL, Optional(STRING), r.success, r.error);
    BoolIsFaithful();
    StringsFit(r.id);
    OptionalStringFits(r.error);
  }

  lemma {:induction false} PinFits(p: PinConfig)
    ensures PIN_CONFIG.fits(p) <==> StringFits(p.pin)
  {
    CarriedFits(PIN_FIELDS, PinOf, PinFieldsOf, p);
    PairFits(STRING, U8, p.pin, p.maxTries);
    U8IsFaithful();
    StringsFit(p.pin);
  }

  lemma {:induction false} StatusFits(s: RTCStatus)
    ensures RTC_STATUS.fits(s) <==> (s.Error? ==> StringFits(s.message))
  {
    if s.Error? {
      StringsFit(s.message);
    }
  }

  lemma {:induction false} SdpFits(s: WsServerSdpMessage)
    ensures SDP_MESSAGE.fits(s) <==> CLIENT_INFO.fits(s.peer) && StringFits(s.sessionId) && StringFits(s.sdp)
  {
    CarriedFits(SDP_FIELDS, SdpOf, SdpFieldsOf, s);
    PairFits(CLIENT_INFO, Both(STRING, STRING), s.peer, (s.sessionId, s.sdp));
    PairFits(STRING, STRING, s.sessionId, s.sdp);
    StringsFit(s.sessionId);
    StringsFit(s.sdp);
  }

  /** A message of the server fits exactly if what it carries does. */
  lemma {:induction false} MessageFits(m: WsServerMessage)
    ensures SERVER_MESSAGE.fits(m) <==> match m
      case WsHello(client, peers) =>
        CLIENT_INFO.fits(client) && |peers| < 0x8000_0000 && forall i :: 0 <= i < |peers| ==> CLIENT_INFO.fits(peers[i])
      case WsJoin(peer) => CLIENT_INFO.fits(peer)
      case WsUpdate(peer) => CLIENT_INFO.fits(peer)
      case WsLeft(id) => IsUuid(id)
      case WsOffer(sdp) => SDP_MESSAGE.fits(sdp)
      case WsAnswer(sdp) => SDP_MESSAGE.fits(sdp)
      case WsError(_) => true
  {
    match m
    case WsHello(client, peers) => PairFits(CLIENT_INFO, CLIENT_INFOS, client, peers);
    case WsLeft(id) => IdsFit(id);
    case WsError(code) => U16IsFaithful();
    case _ =>
  }
}
