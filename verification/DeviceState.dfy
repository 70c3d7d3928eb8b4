/** The configuration, the persisted device state, and the device as the WARP API reports it. */
module DeviceState {
  import opened Bytes

  datatype Stack = Dual | Only4 | Only6

  /** config.Config without the proxy's credentials. */
  datatype Config = Config(stack: Stack, license: Text)

  datatype State = State(
    schemaVersion: int,
    deviceId: Text,
    accessToken: Text,
    privateKey: Text,
    publicKey: Text,
    clientId: Text,
    ipv4: Text,
    ipv6: Text,
    peerPublicKey: Text,
    peerEndpoint: Text,
    peerEndpointV4: Text,
    peerEndpointV6: Text,
    license: Text,
    warpEnabled: bool,
    tunnelProtocol: Text,
    createdAt: Text,
    updatedAt: Text)

  /** state.State{}. */
  const EMPTY := State(0, [], [], [], [], [], [], [], [], [], [], [], [], false, [], [], [])

  datatype Peer = Peer(publicKey: Text, host: Text, v4: Text, v6: Text, ports: seq<int>)

  datatype Device = Device(
    id: Text,
    token: Text,
    key: Text,
    keyType: Text,
    tunnelType: Text,
    created: Text,
    updated: Text,
    warpEnabled: bool,
    policyProtocol: Text,
    license: Text,
    clientId: Text,
    addressV4: Text,
    addressV6: Text,
    peers: seq<Peer>)
}
