/**
 The binary format in which values cross the bridge between the application
 and the core: each type has an encoder that appends to a cursor and a decoder
 that advances one. Numbers are little-endian.
 */
module BridgeCodec {
  import opened Prelude
  import opened Model
  import opened Protocol
  import Utf8

  type i32 = x: int | -0x8000_0000 <= x < 0x8000_0000

  /** A decoded value, and what the cursor has still before it. */
  datatype Read<+T> = Read(value: T, rest: bytes)

  /** An encoder, its decoder, and the values they are meant for. The decoder fails where the program panics. */
  datatype Format<!T> = Format(enc: T -> bytes, dec: bytes -> Option<Read<T>>, fits: T -> bool)

  /** Decoding an encoding followed by anything returns the value and leaves exactly what followed. */
  ghost predicate Faithful<T(!new)>(f: Format<T>) {
    forall x, rest :: f.fits(x) ==> f.dec(f.enc(x) + rest) == Some(Read(x, rest))
  }

  // Numbers

  function TakeNumber(b: bytes, width: nat): Option<Read<nat>> {
    if |b| < width then None else Some(Read(FromLittleEndian(b[..width]), b[width..]))
  }

  lemma {:induction false} NumberIsTaken(n: nat, width: nat, rest: bytes)
    requires n < Pow256(width)
    ensures TakeNumber(LittleEndian(n, width) + rest, width) == Some(Read(n, rest))
  {
    var b := LittleEndian(n, width) + rest;
    LittleEndianReadsBack(n, width);
    assert b[..width] == LittleEndian(n, width) && b[width..] == rest;
  }

  function Unsigned(width: nat): Format<nat> {
    Format((n: nat) => LittleEndian(n, width), b => TakeNumber(b, width), (n: nat) => n < Pow256(width))
  }

  lemma {:induction false} UnsignedIsFaithful(width: nat)
    ensures Faithful(Unsigned(width))
  {
    forall n: nat, rest: bytes | n < Pow256(width)
      ensures TakeNumber(LittleEndian(n, width) + rest, width) == Some(Read(n, rest))
    {
      NumberIsTaken(n, width, rest);
    }
  }

  // Formats made of others

  /** Another type carried by a known format; reading it may fail. */
  function Carried<T, U>(f: Format<T>, to: T -> Option<U>, from: U -> T, fits: U -> bool): Format<U> {
    Format(
      (u: U) => f.enc(from(u)),
      b => match f.dec(b)
        case None => None
        case Some(r) => (match to(r.value) case None => None case Some(u) => Some(Read(u, r.rest))),
      (u: U) => f.fits(from(u)) && fits(u))
  }

  lemma {:induction false} CarriedIsFaithful<T(!new), U(!new)>(f: Format<T>, to: T -> Option<U>, from: U -> T, fits: U -> bool)
    requires Faithful(f) && forall u :: fits(u) ==> to(from(u)) == Some(u)
    ensures Faithful(Carried(f, to, from, fits))
  {
    var g := Carried(f, to, from, fits);
    forall u, rest | g.fits(u) ensures g.dec(g.enc(u) + rest) == Some(Read(u, rest)) {
      assert f.dec(f.enc(from(u)) + rest) == Some(Read(from(u), rest));
    }
  }

  /** One value after the other. */
  function Both<T, U>(f: Format<T>, g: Format<U>): Format<(T, U)> {
    Format(
      (p: (T, U)) => f.enc(p.0) + g.enc(p.1),
      b => match f.dec(b)
        case None => None
        case Some(r) => (match g.dec(r.rest) case None => None case Some(q) => Some(Read((r.value, q.value), q.rest))),
      (p: (T, U)) => f.fits(p.0) && g.fits(p.1))
  }

  lemma {:induction false} BothIsFaithful<T(!new), U(!new)>(f: Format<T>, g: Format<U>)
    requires Faithful(f) && Faithful(g)
    ensures Faithful(Both(f, g))
  {
    var h := Both(f, g);
    forall p, rest | h.fits(p) ensures h.dec(h.enc(p) + rest) == Some(Read(p, rest)) {
      Associative(f.enc(p.0), g.enc(p.1), rest);
      assert f.dec(f.enc(p.0) + (g.enc(p.1) + rest)) == Some(Read(p.0, g.enc(p.1) + rest));
      assert g.dec(g.enc(p.1) + rest) == Some(Read(p.1, rest));
    }
  }

  predicate Any<T>(x: T) {
    true
  }

  function ToU8(n: nat): Option<u8> {
    if n < 0x100 then Some(n) else None
  }

  function ToU16(n: nat): Option<u16> {
    if n < 0x1_0000 then Some(n) else None
  }

  function ToU64(n: nat): Option<u64> {
    if n < 0x1_0000_0000_0000_0000 then Some(n) else None
  }

  function FromU8(x: u8): nat { x }
  function FromU16(x: u16): nat { x }
  function FromU64(x: u64): nat { x }

  const U8: Format<u8> := Carried(Unsigned(1), ToU8, FromU8, Any)
  const U16: Format<u16> := Carried(Unsigned(2), ToU16, FromU16, Any)
  const U64: Format<u64> := Carried(Unsigned(8), ToU64, FromU64, Any)

  /** Two's complement in 32 bits. */
  function FromSigned(x: i32): nat {
    if x < 0 then x + 0x1_0000_0000 else x
  }

  function ToSigned(n: nat): Option<i32> {
    if n < 0x8000_0000 then Some(n) else if n < 0x1_0000_0000 then Some(n - 0x1_0000_0000) else None
  }

  const I32: Format<i32> := Carried(Unsigned(4), ToSigned, FromSigned, Any)

  function ToBool(n: u8): Option<bool> {
    Some(n != 0)
  }

  function FromBool(x: bool): u8 {
    if x then 1 else 0
  }

  const BOOL: Format<bool> := Carried(U8, ToBool, FromBool, Any)

  /** The length of a collection, cut down to 32 bits. */
  function Truncated(n: nat): i32 {
    var low := n % 0x1_0000_0000;
    if low < 0x8000_0000 then low else low - 0x1_0000_0000
  }

  function EncodeAll<T>(f: Format<T>, xs: seq<T>): bytes {
    if xs == [] then [] else f.enc(xs[0]) + EncodeAll(f, xs[1..])
  }

  function DecodeAll<T>(f: Format<T>, n: nat, b: bytes): Option<Read<seq<T>>> {
    if n == 0 then Some(Read([], b))
    else match f.dec(b)
      case None => None
      case Some(first) =>
        match DecodeAll(f, n - 1, first.rest)
        case None => None
        case Some(others) => Some(Read([first.value] + others.value, others.rest))
  }

  function EncodeVec<T>(f: Format<T>, xs: seq<T>): bytes {
    I32.enc(Truncated(|xs|)) + EncodeAll(f, xs)
  }

  /** A counted loop; a negative count means no round at all. */
  function DecodeVec<T>(f: Format<T>, b: bytes): Option<Read<seq<T>>> {
    match I32.dec(b)
    case None => None
    case Some(n) => DecodeAll(f, if n.value < 0 then 0 else n.value, n.rest)
  }

  predicate AllFit<T>(f: Format<T>, xs: seq<T>) {
    |xs| < 0x8000_0000 && forall i :: 0 <= i < |xs| ==> f.fits(xs[i])
  }

  function Vec<T>(f: Format<T>): Format<seq<T>> {
    Format((xs: seq<T>) => EncodeVec(f, xs), b => DecodeVec(f, b), (xs: seq<T>) => AllFit(f, xs))
  }

  function Optional<T>(f: Format<T>): Format<Option<T>> {
    Format(
      (x: Option<T>) => if x.Some? then BOOL.enc(true) + f.enc(x.value) else BOOL.enc(false),
      b => match BOOL.dec(b)
        case None => None
        case Some(r) =>
          if !r.value then Some(Read(None, r.rest))
          else (match f.dec(r.rest) case None => None case Some(q) => Some(Read(Some(q.value), q.rest))),
      (x: Option<T>) => x.Some? ==> f.fits(x.value))
  }

  lemma {:induction false} Powers()
    ensures Pow256(1) == 0x100 && Pow256(2) == 0x1_0000 && Pow256(4) == 0x1_0000_0000 && Pow256(8) == 0x1_0000_0000_0000_0000
  {
    assert Pow256(2) == 256 * (256 * Pow256(0));
    assert Pow256(4) == 256 * (256 * Pow256(2));
    assert Pow256(8) == 256 * (256 * (256 * (256 * Pow256(4))));
  }

  lemma {:induction false} U8IsFaithful()
    ensures Faithful(U8) && forall x :: U8.fits(x)
  {
    Powers();
    UnsignedIsFaithful(1);
    CarriedIsFaithful(Unsigned(1), ToU8, FromU8, Any);
  }

  lemma {:induction false} U16IsFaithful()
    ensures Faithful(U16) && forall x :: U16.fits(x)
  {
    Powers();
    UnsignedIsFaithful(2);
    CarriedIsFaithful(Unsigned(2), ToU16, FromU16, Any);
  }

  lemma {:induction false} U64IsFaithful()
    ensures Faithful(U64) && forall x :: U64.fits(x)
  {
    Powers();
    UnsignedIsFaithful(8);
    CarriedIsFaithful(Unsigned(8), ToU64, FromU64, Any);
  }

  lemma {:induction false} I32IsFaithful()
    ensures Faithful(I32) && forall x :: I32.fits(x)
  {
    Powers();
    UnsignedIsFaithful(4);
    CarriedIsFaithful(Unsigned(4), ToSigned, FromSigned, Any);
  }

  lemma {:induction false} BoolIsFaithful()
    ensures Faithful(BOOL) && forall x :: BOOL.fits(x)
  {
    U8IsFaithful();
    CarriedIsFaithful(U8, ToBool, FromBool, Any);
  }

  // Collections

  lemma {:induction false} AllAreRead<T(!new)>(f: Format<T>, xs: seq<T>, rest: bytes)
    requires Faithful(f) && forall i :: 0 <= i < |xs| ==> f.fits(xs[i])
    ensures DecodeAll(f, |xs|, EncodeAll(f, xs) + rest) == Some(Read(xs, rest))
  {
    if xs == [] {
      assert EncodeAll(f, xs) + rest == rest;
    } else {
      var more := EncodeAll(f, xs[1..]);
      Associative(f.enc(xs[0]), more, rest);
      assert f.dec(f.enc(xs[0]) + (more + rest)) == Some(Read(xs[0], more + rest));
      AllAreRead(f, xs[1..], rest);
      assert xs == [xs[0]] + xs[1..];
    }
  }

  lemma {:induction false} LengthIsRead(n: i32, rest: bytes)
    ensures I32.dec(I32.enc(n) + rest) == Some(Read(n, rest))
  {
    I32IsFaithful();
  }

  lemma {:induction false} OneVecIsRead<T(!new)>(f: Format<T>, xs: seq<T>, rest: bytes)
    requires Faithful(f) && AllFit(f, xs)
    ensures DecodeVec(f, EncodeVec(f, xs) + rest) == Some(Read(xs, rest))
  {
    var n, all := Truncated(|xs|), EncodeAll(f, xs);
    assert n == |xs|;
    Associative(I32.enc(n), all, rest);
    LengthIsRead(n, all + rest);
    AllAreRead(f, xs, rest);
  }

  lemma {:induction false} VecIsFaithful<T(!new)>(f: Format<T>)
    requires Faithful(f)
    ensures Faithful(Vec(f))
  {
    forall xs: seq<T>, rest: bytes | AllFit(f, xs) ensures DecodeVec(f, EncodeVec(f, xs) + rest) == Some(Read(xs, rest)) {
      OneVecIsRead(f, xs, rest);
    }
  }

  /** A negative length, which no encoder writes for a collection that fits, reads as an empty collection. */
  lemma {:induction false} NegativeLengthIsEmpty<T>(f: Format<T>, n: i32, rest: bytes)
    requires n < 0
    ensures DecodeVec(f, I32.enc(n) + rest) == Some(Read([], rest))
  {
    LengthIsRead(n, rest);
  }

  lemma {:induction false} FlagIsRead(x: bool, rest: bytes)
    ensures BOOL.dec(BOOL.enc(x) + rest) == Some(Read(x, rest))
  {
    BoolIsFaithful();
  }

  lemma {:induction false} OptionalIsFaithful<T(!new)>(f: Format<T>)
    requires Faithful(f)
    ensures Faithful(Optional(f))
  {
    var g := Optional(f);
    forall x: Option<T>, rest | g.fits(x) ensures g.dec(g.enc(x) + rest) == Some(Read(x, rest)) {
      if x.Some? {
        Associative(BOOL.enc(true), f.enc(x.value), rest);
        FlagIsRead(true, f.enc(x.value) + rest);
        assert f.dec(f.enc(x.value) + rest) == Some(Read(x.value, rest));
      } else {
        FlagIsRead(false, rest);
      }
    }
  }

  // Strings

  const BYTES: Format<bytes> := Vec(U8)

  const STRING: Format<string> := Carried(BYTES, Utf8.Decode, Utf8.Encode, Any)

  /** The sixteen bytes of a UUID are kept as as many characters. */
  predicate IsUuid(id: string) {
    |id| == 16 && forall i :: 0 <= i < 16 ==> id[i] < 256 as char
  }

  function UuidBytes(id: string): bytes {
    if id == "" then [] else [id[0] as int % 256] + UuidBytes(id[1..])
  }

  function UuidText(b: bytes): string {
    if b == [] then "" else [b[0] as char] + UuidText(b[1..])
  }

  function ToUuid(b: bytes): Option<string> {
    if |b| == 16 then Some(UuidText(b)) else None
  }

  const UUID: Format<string> := Carried(BYTES, ToUuid, UuidBytes, IsUuid)

  lemma {:induction false} UuidReadsBack(id: string)
    requires forall i :: 0 <= i < |id| ==> id[i] < 256 as char
    ensures UuidText(UuidBytes(id)) == id && |UuidBytes(id)| == |id|
  {
    if id != "" {
      UuidReadsBack(id[1..]);
      assert UuidBytes(id)[1..] == UuidBytes(id[1..]) && UuidBytes(id)[0] == id[0] as int;
      assert id == [id[0]] + id[1..];
    }
  }

  lemma {:induction false} StringIsFaithful()
    ensures Faithful(STRING)
  {
    U8IsFaithful();
    VecIsFaithful(U8);
    forall s: string ensures Utf8.Decode(Utf8.Encode(s)) == Some(s) {
      Utf8.DecodeInvertsEncode(Utf8.Encode(s), s);
    }
    CarriedIsFaithful(BYTES, Utf8.Decode, Utf8.Encode, Any);
  }

  lemma {:induction false} UuidIsFaithful()
    ensures Faithful(UUID)
  {
    U8IsFaithful();
    VecIsFaithful(U8);
    forall id: string | IsUuid(id) ensures ToUuid(UuidBytes(id)) == Some(id) {
      UuidReadsBack(id);
    }
    CarriedIsFaithful(BYTES, ToUuid, UuidBytes, IsUuid);
  }

  /** Strings of fewer than 2^31 bytes fit. */
  lemma {:induction false} StringsFit(s: string)
    ensures STRING.fits(s) <==> |Utf8.Encode(s)| < 0x8000_0000
  {
    U8IsFaithful();
  }

  // Sets, in whatever order they are enumerated

  const STRINGS: Format<seq<string>> := Vec(STRING)

  function Elements(xs: seq<string>): set<string> {
    set x | x in xs
  }

  function DecodeHashSet(b: bytes): Option<Read<set<string>>> {
    match STRINGS.dec(b)
    case None => None
    case Some(r) => Some(Read(Elements(r.value), r.rest))
  }

  /** Every enumeration of a set encodes to something that decodes to the set. */
  lemma {:induction false} HashSetInAnyOrder(s: set<string>, order: seq<string>, rest: bytes)
    requires Elements(order) == s && STRINGS.fits(order)
    ensures DecodeHashSet(STRINGS.enc(order) + rest) == Some(Read(s, rest))
  {
    StringIsFaithful();
    VecIsFaithful(STRING);
  }

  // Records and enumerations

  function DeviceTypeTag(t: DeviceType): i32 {
    match t case Mobile => 0 case Desktop => 1 case Web => 2 case Headless => 3 case Server => 4
  }

  function DeviceTypeOf(tag: i32): Option<DeviceType> {
    if tag == 0 then Some(Mobile) else if tag == 1 then Some(Desktop) else if tag == 2 then Some(Web)
    else if tag == 3 then Some(Headless) else if tag == 4 then Some(Server) else None
  }

  const DEVICE_TYPE: Format<DeviceType> := Carried(I32, DeviceTypeOf, DeviceTypeTag, Any)

  lemma {:induction false} DeviceTypeIsFaithful()
    ensures Faithful(DEVICE_TYPE)
  {
    I32IsFaithful();
    CarriedIsFaithful(I32, DeviceTypeOf, DeviceTypeTag, Any);
  }

  type MetadataFields = (Option<string>, Option<string>)

  function MetadataOf(p: MetadataFields): Option<FileMetadata> { Some(FileMetadata(p.0, p.1)) }
  function MetadataFieldsOf(m: FileMetadata): MetadataFields { (m.modified, m.accessed) }

  const METADATA_FIELDS: Format<MetadataFields> := Both(Optional(STRING), Optional(STRING))
  const FILE_METADATA: Format<FileMetadata> := Carried(METADATA_FIELDS, MetadataOf, MetadataFieldsOf, Any)

  lemma {:induction false} FileMetadataIsFaithful()
    ensures Faithful(FILE_METADATA)
  {
    StringIsFaithful();
    OptionalIsFaithful(STRING);
    BothIsFaithful(Optional(STRING), Optional(STRING));
    CarriedIsFaithful(METADATA_FIELDS, MetadataOf, MetadataFieldsOf, Any);
  }

  type FileTail = (string, (Option<string>, (Option<string>, Option<FileMetadata>)))
  type FileFields = (string, (string, (u64, FileTail)))

  function FileOf(p: FileFields): Option<FileDto> {
    var t := p.1.1.1;
    Some(FileDto(p.0, p.1.0, p.1.1.0, t.0, t.1.0, t.1.1.0, t.1.1.1))
  }

  function FileFieldsOf(f: FileDto): FileFields {
    (f.id, (f.fileName, (f.size, (f.fileType, (f.sha256, (f.preview, f.metadata))))))
  }

  const FILE_TAIL: Format<FileTail> := Both(STRING, Both(Optional(STRING), Both(Optional(STRING), Optional(FILE_METADATA))))
  const FILE_FIELDS: Format<FileFields> := Both(STRING, Both(STRING, Both(U64, FILE_TAIL)))
  const FILE_DTO: Format<FileDto> := Carried(FILE_FIELDS, FileOf, FileFieldsOf, Any)
  const FILE_DTOS: Format<seq<FileDto>> := Vec(FILE_DTO)

  lemma {:induction false} FileTailIsFaithful()
    ensures Faithful(FILE_TAIL)
  {
    StringIsFaithful();
    FileMetadataIsFaithful();
    OptionalIsFaithful(STRING);
    OptionalIsFaithful(FILE_METADATA);
    BothIsFaithful(Optional(STRING), Optional(FILE_METADATA));
    BothIsFaithful(Optional(STRING), Both(Optional(STRING), Optional(FILE_METADATA)));
    BothIsFaithful(STRING, Both(Optional(STRING), Both(Optional(STRING), Optional(FILE_METADATA))));
  }

  /** The file list round trip, through nested records, options and the list itself. */
  lemma {:induction false} FileDtosAreFaithful()
    ensures Faithful(FILE_DTO) && Faithful(FILE_DTOS)
  {
    StringIsFaithful();
    U64IsFaithful();
    FileTailIsFaithful();
    BothIsFaithful(U64, FILE_TAIL);
    BothIsFaithful(STRING, Both(U64, FILE_TAIL));
    BothIsFaithful(STRING, Both(STRING, Both(U64, FILE_TAIL)));
    CarriedIsFaithful(FILE_FIELDS, FileOf, FileFieldsOf, Any);
    VecIsFaithful(FILE_DTO);
  }

  type ClientTail = (Option<string>, (Option<DeviceType>, string))
  type ClientFields = (string, (string, (string, ClientTail)))

  function ClientOf(p: ClientFields): Option<ClientInfo> {
    var t := p.1.1.1;
    Some(ClientInfo(p.0, p.1.0, p.1.1.0, t.0, t.1.0, t.1.1))
  }

  function ClientFieldsOf(c: ClientInfo): ClientFields {
    (c.id, (c.alias, (c.version, (c.deviceModel, (c.deviceType, c.token)))))
  }

  const CLIENT_TAIL: Format<ClientTail> := Both(Optional(STRING), Both(Optional(DEVICE_TYPE), STRING))
  const CLIENT_FIELDS: Format<ClientFields> := Both(UUID, Both(STRING, Both(STRING, CLIENT_TAIL)))
  const CLIENT_INFO: Format<ClientInfo> := Carried(CLIENT_FIELDS, ClientOf, ClientFieldsOf, Any)
  const CLIENT_INFOS: Format<seq<ClientInfo>> := Vec(CLIENT_INFO)

  lemma {:induction false} ClientTailIsFaithful()
    ensures Faithful(CLIENT_TAIL)
  {
    StringIsFaithful();
    DeviceTypeIsFaithful();
    OptionalIsFaithful(STRING);
    OptionalIsFaithful(DEVICE_TYPE);
    BothIsFaithful(Optional(DEVICE_TYPE), STRING);
    BothIsFaithful(Optional(STRING), Both(Optional(DEVICE_TYPE), STRING));
  }

  lemma {:induction false} ClientInfosAreFaithful()
    ensures Faithful(CLIENT_INFO) && Faithful(CLIENT_INFOS)
  {
    StringIsFaithful();
    UuidIsFaithful();
    ClientTailIsFaithful();
    BothIsFaithful(STRING, CLIENT_TAIL);
    BothIsFaithful(STRING, Both(STRING, CLIENT_TAIL));
    BothIsFaithful(UUID, Both(STRING, Both(STRING, CLIENT_TAIL)));
    CarriedIsFaithful(CLIENT_FIELDS, ClientOf, ClientFieldsOf, Any);
    VecIsFaithful(CLIENT_INFO);
  }

  type ResponseFields = (string, (bool, Option<string>))

  function ResponseOf(p: ResponseFields): Option<SendFileResponse> { Some(SendFileResponse(p.0, p.1.0, p.1.1)) }
  function ResponseFieldsOf(r: SendFileResponse): ResponseFields { (r.id, (r.success, r.error)) }

  const RESPONSE_FIELDS: Format<ResponseFields> := Both(STRING, Both(BOOL, Optional(STRING)))
  const SEND_FILE_RESPONSE: Format<SendFileResponse> := Carried(RESPONSE_FIELDS, ResponseOf, ResponseFieldsOf, Any)

  lemma {:induction false} SendFileResponseIsFaithful()
    ensures Faithful(SEND_FILE_RESPONSE)
  {
    StringIsFaithful();
    BoolIsFaithful();
    OptionalIsFaithful(STRING);
    BothIsFaithful(BOOL, Optional(STRING));
    BothIsFaithful(STRING, Both(BOOL, Optional(STRING)));
    CarriedIsFaithful(RESPONSE_FIELDS, ResponseOf, ResponseFieldsOf, Any);
  }

  type PinFields = (string, u8)

  function PinOf(p: PinFields): Option<PinConfig> { Some(PinConfig(p.0, p.1)) }
  function PinFieldsOf(c: PinConfig): PinFields { (c.pin, c.maxTries) }

  const PIN_FIELDS: Format<PinFields> := Both(STRING, U8)
  const PIN_CONFIG: Format<PinConfig> := Carried(PIN_FIELDS, PinOf, PinFieldsOf, Any)

  lemma {:induction false} PinConfigIsFaithful()
    ensures Faithful(PIN_CONFIG) && Faithful(Optional(PIN_CONFIG))
  {
    StringIsFaithful();
    U8IsFaithful();
    BothIsFaithful(STRING, U8);
    CarriedIsFaithful(PIN_FIELDS, PinOf, PinFieldsOf, Any);
    OptionalIsFaithful(PIN_CONFIG);
  }

  type SdpFields = (ClientInfo, (string, string))

  function SdpOf(p: SdpFields): Option<WsServerSdpMessage> { Some(WsServerSdpMessage(p.0, p.1.0, p.1.1)) }
  function SdpFieldsOf(m: WsServerSdpMessage): SdpFields { (m.peer, (m.sessionId, m.sdp)) }

  const SDP_FIELDS: Format<SdpFields> := Both(CLIENT_INFO, Both(STRING, STRING))
  const SDP_MESSAGE: Format<WsServerSdpMessage> := Carried(SDP_FIELDS, SdpOf, SdpFieldsOf, Any)

  lemma {:induction false} SdpMessageIsFaithful()
    ensures Faithful(SDP_MESSAGE)
  {
    StringIsFaithful();
    ClientInfosAreFaithful();
    BothIsFaithful(STRING, STRING);
    BothIsFaithful(CLIENT_INFO, Both(STRING, STRING));
    CarriedIsFaithful(SDP_FIELDS, SdpOf, SdpFieldsOf, Any);
  }

  // Tagged unions

  function StatusTag(s: RTCStatus): i32 {
    match s
    case SdpExchanged => 0
    case Connected => 1
    case PinRequired => 2
    case TooManyAttempts => 3
    case Declined => 4
    case Sending => 5
    case Finished => 6
    case Error(_) => 7
  }

  function EncodeStatus(s: RTCStatus): bytes {
    if s.Error? then I32.enc(StatusTag(s)) + STRING.enc(s.message) else I32.enc(StatusTag(s))
  }

  function ReadAs<T, U>(r: Option<Read<T>>, make: T -> U): Option<Read<U>> {
    match r case None => None case Some(q) => Some(Read(make(q.value), q.rest))
  }

  function DecodeStatus(b: bytes): Option<Read<RTCStatus>> {
    match I32.dec(b)
    case None => None
    case Some(r) =>
      if r.value == 0 then Some(Read(SdpExchanged, r.rest))
      else if r.value == 1 then Some(Read(Connected, r.rest))
      else if r.value == 2 then Some(Read(PinRequired, r.rest))
      else if r.value == 3 then Some(Read(TooManyAttempts, r.rest))
      else if r.value == 4 then Some(Read(Declined, r.rest))
      else if r.value == 5 then Some(Read(Sending, r.rest))
      else if r.value == 6 then Some(Read(Finished, r.rest))
      else if r.value == 7 then ReadAs(STRING.dec(r.rest), (m: string) => RTCStatus.Error(m))
      else None
  }

  const RTC_STATUS: Format<RTCStatus> :=
    Format((s: RTCStatus) => EncodeStatus(s), b => DecodeStatus(b), (s: RTCStatus) => s.Error? ==> STRING.fits(s.message))

  lemma {:induction false} StatusIsRead(s: RTCStatus, rest: bytes)
    requires s.Error? ==> STRING.fits(s.message)
    ensures DecodeStatus(EncodeStatus(s) + rest) == Some(Read(s, rest))
  {
    if s.Error? {
      StringIsFaithful();
      Associative(I32.enc(7), STRING.enc(s.message), rest);
      LengthIsRead(7, STRING.enc(s.message) + rest);
      assert STRING.dec(STRING.enc(s.message) + rest) == Some(Read(s.message, rest));
    } else {
      LengthIsRead(StatusTag(s), rest);
    }
  }

  lemma {:induction false} StatusIsFaithful()
    ensures Faithful(RTC_STATUS)
  {
    forall s: RTCStatus, rest: bytes | s.Error? ==> STRING.fits(s.message)
      ensures DecodeStatus(EncodeStatus(s) + rest) == Some(Read(s, rest))
    {
      StatusIsRead(s, rest);
    }
  }

  function Tag(m: WsServerMessage): i32 {
    match m
    case WsHello(_, _) => 0
    case WsJoin(_) => 1
    case WsUpdate(_) => 2
    case WsLeft(_) => 3
    case WsOffer(_) => 4
    case WsAnswer(_) => 5
    case WsError(_) => 6
  }

  /** The formats of what the messages of the signaling server carry. */
  datatype Bodies = Bodies(
    hello: Format<(ClientInfo, seq<ClientInfo>)>, peer: Format<ClientInfo>, id: Format<string>,
    sdp: Format<WsServerSdpMessage>, code: Format<u16>)

  function EncodeBody(f: Bodies, m: WsServerMessage): bytes {
    match m
    case WsHello(client, peers) => f.hello.enc((client, peers))
    case WsJoin(peer) => f.peer.enc(peer)
    case WsUpdate(peer) => f.peer.enc(peer)
    case WsLeft(id) => f.id.enc(id)
    case WsOffer(sdp) => f.sdp.enc(sdp)
    case WsAnswer(sdp) => f.sdp.enc(sdp)
    case WsError(code) => f.code.enc(code)
  }

  function DecodeBody(f: Bodies, tag: i32, b: bytes): Option<Read<WsServerMessage>> {
    if tag == 0 then ReadAs(f.hello.dec(b), (p: (ClientInfo, seq<ClientInfo>)) => WsHello(p.0, p.1))
    else if tag == 1 then ReadAs(f.peer.dec(b), (c: ClientInfo) => WsJoin(c))
    else if tag == 2 then ReadAs(f.peer.dec(b), (c: ClientInfo) => WsUpdate(c))
    else if tag == 3 then ReadAs(f.id.dec(b), (id: string) => WsLeft(id))
    else if tag == 4 then ReadAs(f.sdp.dec(b), (m: WsServerSdpMessage) => WsOffer(m))
    else if tag == 5 then ReadAs(f.sdp.dec(b), (m: WsServerSdpMessage) => WsAnswer(m))
    else if tag == 6 then ReadAs(f.code.dec(b), (code: u16) => WsError(code))
    else None
  }

  predicate BodyFits(f: Bodies, m: WsServerMessage) {
    match m
    case WsHello(client, peers) => f.hello.fits((client, peers))
    case WsJoin(peer) => f.peer.fits(peer)
    case WsUpdate(peer) => f.peer.fits(peer)
    case WsLeft(id) => f.id.fits(id)
    case WsOffer(sdp) => f.sdp.fits(sdp)
    case WsAnswer(sdp) => f.sdp.fits(sdp)
    case WsError(code) => f.code.fits(code)
  }

  function Messages(f: Bodies): Format<WsServerMessage> {
    Format(
      (m: WsServerMessage) => I32.enc(Tag(m)) + EncodeBody(f, m),
      b => match I32.dec(b) case None => None case Some(tag) => DecodeBody(f, tag.value, tag.rest),
      (m: WsServerMessage) => BodyFits(f, m))
  }

  lemma {:induction false} BodyIsRead(f: Bodies, m: WsServerMessage, rest: bytes)
    requires Faithful(f.hello) && Faithful(f.peer) && Faithful(f.id) && Faithful(f.sdp) && Faithful(f.code) && BodyFits(f, m)
    ensures DecodeBody(f, Tag(m), EncodeBody(f, m) + rest) == Some(Read(m, rest))
  {
    match m
    case WsHello(client, peers) => assert f.hello.dec(f.hello.enc((client, peers)) + rest) == Some(Read((client, peers), rest));
    case WsJoin(peer) => assert f.peer.dec(f.peer.enc(peer) + rest) == Some(Read(peer, rest));
    case WsUpdate(peer) => assert f.peer.dec(f.peer.enc(peer) + rest) == Some(Read(peer, rest));
    case WsLeft(id) => assert f.id.dec(f.id.enc(id) + rest) == Some(Read(id, rest));
    case WsOffer(sdp) => assert f.sdp.dec(f.sdp.enc(sdp) + rest) == Some(Read(sdp, rest));
    case WsAnswer(sdp) => assert f.sdp.dec(f.sdp.enc(sdp) + rest) == Some(Read(sdp, rest));
    case WsError(code) => assert f.code.dec(f.code.enc(code) + rest) == Some(Read(code, rest));
  }

  lemma {:induction false} MessagesAreFaithful(f: Bodies)
    requires Faithful(f.hello) && Faithful(f.peer) && Faithful(f.id) && Faithful(f.sdp) && Faithful(f.code)
    ensures Faithful(Messages(f))
  {
    var g := Messages(f);
    forall m, rest | g.fits(m) ensures g.dec(g.enc(m) + rest) == Some(Read(m, rest)) {
      Associative(I32.enc(Tag(m)), EncodeBody(f, m), rest);
      LengthIsRead(Tag(m), EncodeBody(f, m) + rest);
      BodyIsRead(f, m, rest);
    }
  }

  const HELLO_FIELDS: Format<(ClientInfo, seq<ClientInfo>)> := Both(CLIENT_INFO, CLIENT_INFOS)
  const BODIES: Bodies := Bodies(HELLO_FIELDS, CLIENT_INFO, UUID, SDP_MESSAGE, U16)
  const SERVER_MESSAGE: Format<WsServerMessage> := Messages(BODIES)

  /** Every message of the signaling server survives the bridge, whatever follows it. */
  lemma {:induction false} ServerMessageIsFaithful()
    ensures Faithful(SERVER_MESSAGE)
  {
    ClientInfosAreFaithful();
    BothIsFaithful(CLIENT_INFO, CLIENT_INFOS);
    UuidIsFaithful();
    SdpMessageIsFaithful();
    U16IsFaithful();
    MessagesAreFaithful(BODIES);
  }

  // What fits

  predicate StringFits(s: string) {
    |Utf8.Encode(s)| < 0x8000_0000
  }

  predicate OptionFits(x: Option<string>) {
    x.Some? ==> StringFits(x.value)
  }

  lemma {:induction false} CarriedFits<T, U>(f: Format<T>, to: T -> Option<U>, from: U -> T, u: U)
    ensures Carried(f, to, from, Any).fits(u) <==> f.fits(from(u))
  {
  }

  lemma {:induction false} PairFits<T, U>(f: Format<T>, g: Format<U>, x: T, y: U)
    ensures Both(f, g).fits((x, y)) <==> f.fits(x) && g.fits(y)
  {
  }

  lemma {:induction false} OptionalStringFits(x: Option<string>)
    ensures Optional(STRING).fits(x) <==> OptionFits(x)
  {
    if x.Some? {
      StringsFit(x.value);
    }
  }

  lemma {:induction false} MetadataFits(m: FileMetadata)
    ensures FILE_METADATA.fits(m) <==> OptionFits(m.modified) && OptionFits(m.accessed)
  {
    CarriedFits(METADATA_FIELDS, MetadataOf, MetadataFieldsOf, m);
    OptionalStringFits(m.modified);
    OptionalStringFits(m.accessed);
    PairFits(Optional(STRING), Optional(STRING), m.modified, m.accessed);
  }

  lemma {:induction false} FileTailFits(fileType: string, sha256: Option<string>, preview: Option<string>, metadata: Option<FileMetadata>)
    ensures FILE_TAIL.fits((fileType, (sha256, (preview, metadata)))) <==>
      && StringFits(fileType) && OptionFits(sha256) && OptionFits(preview)
      && (metadata.Some? ==> OptionFits(metadata.value.modified) && OptionFits(metadata.value.accessed))
  {
    StringsFit(fileType);
    OptionalStringFits(sha256);
    OptionalStringFits(preview);
    if metadata.Some? {
      MetadataFits(metadata.value);
    }
    PairFits(Optional(STRING), Optional(FILE_METADATA), preview, metadata);
    PairFits(Optional(STRING), Both(Optional(STRING), Optional(FILE_METADATA)), sha256, (preview, metadata));
    PairFits(STRING, Both(Optional(STRING), Both(Optional(STRING), Optional(FILE_METADATA))), fileType, (sha256, (preview, metadata)));
  }

  /** A file description fits exactly if each of its strings is shorter than 2^31 bytes. */
  lemma {:induction false} FileDtoFits(f: FileDto)
    ensures FILE_DTO.fits(f) <==>
      && StringFits(f.id) && StringFits(f.fileName) && StringFits(f.fileType) && OptionFits(f.sha256) && OptionFits(f.preview)
      && (f.metadata.Some? ==> OptionFits(f.metadata.value.modified) && OptionFits(f.metadata.value.accessed))
  {
    var tail: FileTail := (f.fileType, (f.sha256, (f.preview, f.metadata)));
    CarriedFits(FILE_FIELDS, FileOf, FileFieldsOf, f);
    FileTailFits(f.fileType, f.sha256, f.preview, f.metadata);
    StringsFit(f.id);
    StringsFit(f.fileName);
    U64IsFaithful();
    PairFits(U64, FILE_TAIL, f.size, tail);
    PairFits(STRING, Both(U64, FILE_TAIL), f.fileName, (f.size, tail));
    PairFits(STRING, Both(STRING, Both(U64, FILE_TAIL)), f.id, (f.fileName, (f.size, tail)));
  }
}
