/** Records exchanged between peers, server and application. */
module Model {
  import opened Prelude

  type u8 = byte
  type u16 = x: int | 0 <= x < 0x1_0000
  type u32 = x: int | 0 <= x < 0x1_0000_0000
  type u64 = x: int | 0 <= x < 0x1_0000_0000_0000_0000

  datatype DeviceType = Mobile | Desktop | Web | Headless | Server

  datatype FileMetadata = FileMetadata(modified: Option<string>, accessed: Option<string>)

  datatype FileDto = FileDto(
    id: string, fileName: string, size: u64, fileType: string,
    sha256: Option<string>, preview: Option<string>, metadata: Option<FileMetadata>)

  datatype ClientInfoWithoutId = ClientInfoWithoutId(
    alias: string, version: string, deviceModel: Option<string>, deviceType: Option<DeviceType>, token: string)

  datatype ClientInfo = ClientInfo(
    id: string, alias: string, version: string,
    deviceModel: Option<string>, deviceType: Option<DeviceType>, token: string)

  function WithId(info: ClientInfoWithoutId, id: string): ClientInfo {
    ClientInfo(id, info.alias, info.version, info.deviceModel, info.deviceType, info.token)
  }

  function WithoutId(info: ClientInfo): ClientInfoWithoutId {
    ClientInfoWithoutId(info.alias, info.version, info.deviceModel, info.deviceType, info.token)
  }

  datatype WsServerSdpMessage = WsServerSdpMessage(peer: ClientInfo, sessionId: string, sdp: string)

  datatype WsServerMessage =
    | WsHello(client: ClientInfo, peers: seq<ClientInfo>)
    | WsJoin(peer: ClientInfo)
    | WsUpdate(peer: ClientInfo)
    | WsLeft(peerId: string)
    | WsOffer(sdp: WsServerSdpMessage)
    | WsAnswer(sdp: WsServerSdpMessage)
    | WsError(code: u16)

  datatype RTCStatus =
    | SdpExchanged | Connected | PinRequired | TooManyAttempts
    | Declined | Sending | Finished | Error(message: string)

  datatype PinConfig = PinConfig(pin: string, maxTries: u8)
}
