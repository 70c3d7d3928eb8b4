# Verification of the WARP SOCKS daemon

A Dafny model of a daemon that registers a WARP device, brings up a WireGuard link, rewires the host's routes and
supervises a SOCKS5 server, with proofs of what its parts promise together. `dafny verify dfyconfig.toml` checks
everything.

Code that changes things step by step (connections, the server, the association table, the managers, the
bootstrapper, the daemon, the supervisor) is a class whose methods follow the Go code statement by statement and are
proved equal to a specification function; the theorems are lemmas about those functions. Go strings are sequences of
octets. Concurrency is an interleaving of steps, a step being what one lock region or one read or write does.

## What is modelled

**SOCKS5, both sides** (`Bytes`, `HostPort`, `IpText`, `Wire`, `Connection`, `Socks5Server`, `Socks5Client`,
`TwoParty`, `Handshake`, `HandshakeRuns`, `EveryDial`, `Framing`, `Chain`). `Wire` says which octets the messages of
RFC 1928 (sections 3 to 6) and of section 2 of RFC 1929 are and how they are read, and `Framing` says the same in plain
numbers, for every stream that is accepted or refused; a connection is a stream cut into arbitrary
fragments, with writes that may begin to fail at any point. `TwoParty` is a transition system of two programs over two
byte streams with arbitrary fragmentation and interleaving. `Handshake` gives the client and the server as such
programs and proves that each, alone on any input, does what the specification of the corresponding class does.

The main theorem is `HandshakeRuns.DialOutcome`: runs are bounded; a run that cannot go on has ended on both sides; and
it ended connected, to the target that the server heard and with everything sent after the handshake untouched, when
the server heard the credentials it wants and the dial succeeds. Lengths and ports are truncated on encoding as the
code truncates them, so what is heard need not be what was meant: `FittingDialOutcome` says that it is for names,
credentials and ports that fit, and `LongNameOutcome` what a name of 256 octets or more leads to.
`EveryDial.EveryDialEnds` holds for every client without exception, also for one whose credentials do not fit: each
side ends where its own specification ends on all that the other side wrote. `Chain` carries targets over chains of any
length.

**UDP datagrams** (`UdpPacket`). Section 7 of RFC 1928. The parser guards only ten octets; the slices that would panic
in Go are an `OutOfRange` outcome, and `OutOfRangeIff` says which packets have it.

**UDP associations** (`Associations`, `Adoption`, `UdpServer`, `AssociationRuns`). The map is visited in arbitrary
order, with the loop's early exit. Packets resolve in three separate lock regions, interleaved with sessions that store and delete.
The deferred delete uses the address of the store, not the re-keyed one: an entry can outlive its session, and a
delete can remove another session's entry. The lemmas give runs in which that happens and the exact condition for
each step to keep the table equal to the set of live sessions.

**The host** (`Kernel`, `Router`, `WgDev`, `LegacyNetwork`, `Routing`, `Conservation`, `Undoing`, `Restoring`). Routes
are a map from prefixes to hops, looked up by the longest prefix, links a set. Any command may fail without effect.
Deleting a link flushes its routes. An invariant (`Conservation.Kept`) holds after every command of Apply and Cleanup,
whichever fails, from any state it held in before; so it holds across attempts. A lookup of the IPv6 default route that
fails with an error naming ipv6 is taken for "no such route"; `Restoring.RoutesConservedIff` says exactly when that
costs the host the route. `bypassRoutes` is overwritten, not merged; `Restoring.RetryLeaves` says exactly which host
route stays behind for it.

**The run of the daemon** (`DeviceState`, `App`, `Lifecycle`, `Record`, `WholeRun`, `Hanging`, `EnsureDevice`,
`Endpoint`, `Strings`). `App`
takes all answers of its dependencies as parameters and records its calls; a monitor accepts the record of every run,
and what the monitor accepts is orderly in terms of the record alone. `Record` shows that the record can be trusted
and that the error of a run names the call that failed. An attempt that fails in the config writer or in
Start returns without Cleanup; `WholeRun` reads off the record of calls whether the network is clean or up, and proves
that the host is accordingly. `Hanging` puts the daemon on the supervisor's fields: a retry after a failed launch never
returns. The API of `EnsureDevice` may answer anything, depending on all calls before.

**The supervisor** (`WaitError`, `Supervisor`, `SupervisorRuns`). Start, Stop, readers of Done, and the reaper of each
child, over a mutex and one-slot channels. `Start` returns with the mutex held when the launch fails; the model keeps
that, and shows that this is the only way to wait in vain. A Stop that takes a child always precedes that child's
reaper at the mutex, so the reaper reads the mark: the order in which `wait` and `Stop` touch `stopped` never shows.

## Hypotheses

- `Codec.Lawful` (IP text of `net.ParseIP` and `IP.String`): printing is inverse to parsing, printed text has no
  brackets and no percent sign, and the empty text is no address. `AddrParser.Lawful` (`netip.ParseAddr`): IPv4 text
  has no colon, IPv6 text has two. `IpText.LawsAreConsistent` and `Endpoint.ParserLawsAreConsistent` show that they can be met.
- `HandshakeRuns.SameText`: both sides of a dial print and parse IP text alike. `HandshakeRuns.Unmistakable` (for
  `DialOutcome`): credentials that do not fit one-octet lengths are not heard as exactly those the server wants.
- `Conservation.Fits`: the device name was unused before the first Apply, and no route uses an absent device. That IPv6
  is reported honestly is asked for by the lemmas that say so, and only of stacks that tunnel IPv6.

## Model

| member | source | states |
|---|---|---|
| HostPort.SplitOfJoin | internal/socks5/server.go:529 | the address text a server builds splits back into its host and port exactly when neither has a bracket and the port no colon |
| HostPort.JoinInjective | internal/socks5/server.go:529 | two different targets never have the same address text |
| HostPort.AtoiOfItoa | internal/socks5/server.go:646-656 | a printed port reads back as the same number |
| HostPort.SplitIff | internal/socks5/config.go:152-155 | a text splits into a host and a port exactly when it is one of the two ways to write them, with no stray bracket or colon |
| HostPort.AtoiIff | internal/socks5/config.go:156-159 | a text is read as a number exactly when it is a sign, zeros and the digits of a 64-bit number |
| Bytes.Uint16RoundTrip | internal/socks5/config.go:171-175 | a port survives its two octets exactly when it is between 0 and 65535 |
| IpText.CanonicalIdempotent | internal/socks5/server.go:533-560 | the host a server passes on is in a form that is not rewritten again |
| Wire.CredentialsRoundTrip | internal/socks5/config.go:132-138 | the sub-message of RFC 1929 is read back as the same user and password exactly when both are under 256 octets |
| Wire.CredentialsSound | internal/socks5/server.go:222-258 | whatever is read as credentials is the sub-message of exactly those credentials, with nothing consumed beyond it |
| Wire.RequestRoundTrip | internal/socks5/config.go:151-177 | a request is read back as CONNECT to the canonical host and the port, leaving what follows, exactly when the name and the port fit |
| Wire.ReplyRoundTrip | internal/socks5/server.go:562-582 | the client consumes exactly one reply, whatever bind address it has, and accepts it exactly when it reports success |
| Wire.NegotiateIff | internal/socks5/server.go:187-258 | the request is reached exactly when the stream offers the required method and, with credentials configured, presents those credentials; then the replies are the welcome of RFC 1928 |
| Wire.NegotiateSound | internal/socks5/server.go:187-220 | an accepted stream did offer the required method and present the configured credentials byte for byte |
| Framing.OpeningOctets | internal/socks5/config.go:107-140 | greeting, welcome and credential message in the numbers of RFC 1928 and RFC 1929 |
| Framing.MessageOctets | internal/socks5/config.go:161-175 | the octets of a request and of a reply for a host of each kind, in numbers; a reply for a name carries 0.0.0.0 |
| Framing.ReadRequestIff | internal/socks5/server.go:513-560 | a request is read exactly when the stream starts with version 5, a command, any octet, a whole address of type 1, 3 or 4 and a port |
| Framing.ReadReplyIff | internal/socks5/config.go:181-208 | a reply is taken for success exactly when it has version 5 and code 0 and is whole, whatever address it carries |
| Framing.RefusalIff | internal/socks5/server.go:187-258 | the server answers 5, 255 exactly to an offer without its method, and 5, 2, 1, 1 exactly to other credentials than those configured |
| Framing.DialIff | internal/socks5/config.go:77-211 | a dial succeeds exactly when its address is a host and a port and the server sends its invitation and a success reply; then the messages sent are these, in order |
| Connection.Conn.ReadExactly | internal/socks5/server.go:631-635 | reads the next octets of the stream, however it is cut into fragments, or exhausts it |
| Connection.Conn.Write | internal/socks5/server.go:562-582 | appends all of the octets, or fails for good |
| Socks5Server.Server.HandleConn | internal/socks5/server.go:161-185 | the service, the octets sent and those consumed depend on the concatenated input alone |
| Socks5Server.Server.NegotiateAuth | internal/socks5/server.go:187-220 | refines the negotiation of Wire, with its error replies and consumption |
| Socks5Server.Server.VerifyUsernamePassword | internal/socks5/server.go:222-258 | refines the credential check of Wire, with its status reply |
| Socks5Server.Server.ReadRequestFrom | internal/socks5/server.go:513-531 | refines the reading of a request |
| Socks5Server.Server.ReadAddressFrom | internal/socks5/server.go:533-560 | refines the reading of an address of each type |
| Socks5Server.Server.Answer | internal/socks5/server.go:161-185 | one reply for each command, after which the connection serves as decided |
| Socks5Server.ServiceIff | internal/socks5/server.go:161-185 | every stream: associating exactly for an accepted request of command 3 while UDP is allowed and a write is left, relaying exactly for command 1 with a successful dial, and to the target of the request |
| Socks5Server.SentIff | internal/socks5/server.go:161-185 | every stream: after the negotiation one reply, of code 0 with the bound or the public address, 1 for a failed dial, and 7 for every other command and for UDP that is not allowed |
| Socks5Server.Server.WriteReply | internal/socks5/server.go:562-582 | the buffer built in place is the reply message |
| Socks5Client.Dialer.DialContext | internal/socks5/config.go:77-105 | refines the client side: what it sends and consumes, and when it succeeds |
| Socks5Client.Dialer.ClientHandshake | internal/socks5/config.go:107-149 | refines the client's negotiation |
| Socks5Client.Dialer.ClientConnect | internal/socks5/config.go:151-211 | refines the client's request and the reading of the reply |
| Socks5Client.Dialer.BuildRequest | internal/socks5/config.go:161-175 | the buffer grown and patched in place is the request message |
| Socks5Client.Dialer.ReadConnectReply | internal/socks5/config.go:181-208 | consumes the reply, with its address of any type, and no more |
| TwoParty.StepKeepsInv | internal/socks5/server.go:631-635 | each write, delivery of a fragment and read of a matched pair of scripts keeps the streams consistent and makes progress |
| TwoParty.StuckIsFinished | internal/socks5/config.go:107-211 | freedom from deadlock: when neither side can go on, both are through with their scripts |
| TwoParty.RunsFinish | internal/socks5/config.go:107-211 | runs are bounded, and a run that is stuck has finished |
| Handshake.ServeAgrees | internal/socks5/server.go:161-283 | the server as an interleaved program serves every stream as the specification of HandleConn does |
| Handshake.DialAgrees | internal/socks5/config.go:77-211 | the client as an interleaved program treats every stream as the specification of DialContext does |
| HandshakeRuns.DialogueFits | internal/socks5/config.go:107-211 | in a dialogue of rounds, no two reads can wait for each other |
| HandshakeRuns.ProgramsFollow | internal/socks5/server.go:187-283 | client and server follow the dialogue that their configurations call for, to the ending their verdict calls for |
| HandshakeRuns.DialOutcome | internal/socks5/config.go:77-211 | every run is bounded and ends on both sides; connected, to the target heard and with later octets untouched behind what was left of the request, exactly when the credentials heard are those wanted and the dial succeeds |
| HandshakeRuns.FittingDialOutcome | internal/socks5/config.go:77-211 | for a name, credentials and a port that fit: connected to the very target asked for, with nothing left over, exactly when credentials agree and the dial succeeds |
| HandshakeRuns.LongNameOutcome | internal/socks5/config.go:166-175 | a name of 256 octets or more: the target is the cut-off name with a port out of the name, and the rest of the name comes ahead of the payload |
| Handshake.HeardIsRead | internal/socks5/config.go:132-138 | the sub-message of any credentials is that of the credentials heard, then what is left |
| Handshake.FittingCredentialsAreHeard | internal/socks5/config.go:132-138 | credentials are heard as meant, with nothing left, exactly when both fit |
| EveryDial.EveryDialEnds | internal/socks5/server.go:161-283 | for every client: a run that cannot go on has the server where HandleConn ends on all the client wrote, and the client where DialContext ends on all the server wrote |
| EveryDial.RunsEndAlone | internal/socks5/server.go:631-635 | the same for any two programs of reads and writes, whatever the interleaving |
| EveryDial.DialsAreBounded | internal/socks5/config.go:107-211 | every run of every dial is bounded, by the lengths of what there is to send |
| Chain.HopCanonical | internal/socks5/config.go:151-177 | one hop keeps the port and the host, up to canonical IP text |
| Chain.HopIsDialTarget | internal/socks5/server.go:260-283 | the target computed for a hop is the one a completed run of that dial connects to |
| Chain.ChainKeepsTarget | cmd/warp-socksd/main.go:249-257 | over any number of hops the last server dials the first target exactly when its host has no bracket |
| Chain.BracketsAreLost | internal/socks5/config.go:151-159 | a host with a bracket never comes through a hop unchanged |
| Chain.TruncatedName | internal/socks5/config.go:166-173 | a longer name arrives as its first octets, as many as the length octet says |
| UdpPacket.ParseUdpPacket | internal/socks5/server.go:584-612 | the parser with its moving index computes the specified parts, rejection or out-of-range slice |
| UdpPacket.BuildUdpReply | internal/socks5/server.go:614-629 | the buffer built in place is the specified reply, and only for an IPv4 host |
| UdpPacket.DatagramRoundTrip | internal/socks5/server.go:584-612 | an encoded datagram parses into its address, port and payload exactly when it has ten octets or more |
| UdpPacket.ParseSound | internal/socks5/server.go:584-612 | what parses is the encoding of what it parsed into |
| UdpPacket.OutOfRangeIff | internal/socks5/server.go:585-608 | a slice is out of range exactly for packets of ten octets or more that break off inside the header of a datagram |
| UdpPacket.ReplyRoundTrip | internal/socks5/server.go:614-629 | a reply parses into the same host, port and payload |
| Framing.ParseIff | internal/socks5/server.go:584-612 | a packet parses into a host, a port and data exactly when it has ten octets, two reserved octets and a fragment number of zero, a whole address and a port |
| Framing.ReplyIff | internal/socks5/server.go:614-629 | the octets of a reply in numbers, with the port cut to sixteen bits |
| Associations.RekeyKeeps | internal/socks5/server.go:486-491 | re-keying keeps keys and addresses in step, no association under two keys, and the same members |
| Associations.ResolveKeeps | internal/socks5/server.go:426-491 | a resolved packet adds and removes no association |
| Associations.ResolveChooses | internal/socks5/server.go:426-484 | the association found is the exact one, else the only port match, else the only one at all; and only then |
| Adoption.AddrTextInjective | internal/socks5/server.go:408-418 | two addresses never share a key |
| Adoption.PortSpares | internal/socks5/server.go:447-459 | in terms of address octets: an association with another port, or with an address of its own that is neither loopback nor unspecified nor that of the source, keeps its key and address in every port region |
| Adoption.PortAdoptsIff | internal/socks5/server.go:436-465 | in terms of address octets: a port region finds and re-keys an association exactly when it is the only one that the source could belong to |
| Adoption.KnownSource | internal/socks5/server.go:426-430 | a source that is already a key gets its association, and nothing changes |
| Associations.ResolveIdempotent | internal/socks5/server.go:426-491 | afterwards the source is bound to what was found, and a second call finds the same and changes nothing |
| UdpServer.Server.StoreAssociation | internal/socks5/server.go:408-412 | the table gains or replaces exactly the entry of the address |
| UdpServer.Server.DeleteAssociation | internal/socks5/server.go:414-418 | the table loses exactly the entry of the address |
| UdpServer.Server.LookupAssociation | internal/socks5/server.go:420-424 | finds the entry under the text of the address |
| UdpServer.Server.AssociationForSource | internal/socks5/server.go:426-434 | refines the three-tier choice |
| UdpServer.Server.AdoptAssociationMatchingSourcePort | internal/socks5/server.go:436-465 | for every order of the map: adopts exactly when one candidate matches, and otherwise changes nothing |
| UdpServer.Server.AdoptSoleAssociation | internal/socks5/server.go:467-484 | adopts exactly when there is one entry |
| UdpServer.Server.AdoptAssociationLocked | internal/socks5/server.go:486-491 | moves the entry to the key of the new address and changes the association's address with it |
| UdpServer.Server.CloseAssociations | internal/socks5/server.go:129-134 | empties the table and closes every control connection in it |
| AssociationRuns.StepKeepsInv | internal/socks5/server.go:408-491 | every lock region of every session and packet keeps the invariant |
| AssociationRuns.EntriesOutliveOnlyByRekey | internal/socks5/server.go:301-306 | in every run, an entry whose session has deleted is of an association re-keyed before |
| AssociationRuns.PacketsConserve | internal/socks5/server.go:426-491 | in every run, no packet step changes the members or the size of the table |
| AssociationRuns.ResolvedIsBound | internal/socks5/server.go:426-491 | in every run, a packet is resolved to the association its source is bound to at that step |
| AssociationRuns.UninterruptedResolves | internal/socks5/server.go:426-434 | the three regions of a datagram with nothing in between make the three-tier choice, and the first is enough exactly for a source that is bound |
| AssociationRuns.StepExactIff | internal/socks5/server.go:408-491 | a step keeps the table equal to the live sessions exactly when it neither adopts, nor stores at a taken address, nor closes a filled table |
| AssociationRuns.HarmlessRunIsExact | internal/socks5/server.go:301-306 | in runs of such steps the table is exactly the set of live sessions |
| AssociationRuns.QuietRunIsExact | internal/socks5/server.go:301-306 | in a run without adoption and Close, with pairwise distinct address texts, the table is exactly the set of live sessions |
| AssociationRuns.DeleteRemovesOwnIff | internal/socks5/server.go:414-418 | a deferred delete removes its own association exactly when that is still under the text of its first address |
| AssociationRuns.RekeyedEntryOutlives | internal/socks5/server.go:486-491 | a run after which an entry is left although no session is |
| AssociationRuns.RekeyedDeleteHitsAnother | internal/socks5/server.go:305-306 | a run in which a delete removes the entry of another, live session |
| Router.Manager.ApplyPlan | internal/router/router.go:59-103 | refines Apply: commands in order, what is saved at each point of failure |
| Router.Manager.InstallPlan | internal/router/router.go:82-100 | refines the two loops of Apply |
| Router.Manager.CleanUp | internal/router/router.go:105-129 | refines Cleanup, with the bypass list cleared only after its loop |
| WgDev.Manager.Apply | internal/wgdev/device.go:73-122 | refines the device commands: delete, add, configure, addresses, MTU and up |
| WgDev.Manager.Delete | internal/wgdev/device.go:124-140 | deletes the link with its routes; an absent link is success |
| LegacyNetwork.Manager.Apply | cmd/warp-socksd/legacy_backend.go:272-307 | device, then routes; a failure of the routes is compensated by both managers |
| LegacyNetwork.Manager.Cleanup | cmd/warp-socksd/legacy_backend.go:309-326 | both managers are run, and success needs both |
| LegacyNetwork.ReportedIsConfigured | cmd/warp-socksd/legacy_backend.go:272-291 | the device gets the key of the registration, and the addresses, peer key and endpoint that the API reported, each address exactly on the stacks that use it; it can be brought up exactly when none is missing |
| LegacyNetwork.ReportedIsKept | cmd/warp-socksd/legacy_backend.go:361-402 | a state is made exactly of a device with a peer, an id and a token; what the API reports goes before what was asked for |
| LegacyNetwork.DeviceIsUpIff | internal/wgdev/device.go:73-122 | for all outcomes: the device comes up exactly when nothing is missing and each of its commands succeeds |
| LegacyNetwork.LinkIsAlwaysDeleted | cmd/warp-socksd/legacy_backend.go:309-326 | the last command of every Cleanup deletes the link, also when the routes have failed |
| Router.UnmapIff | cmd/warp-socksd/legacy_backend.go:509-528 | an IPv4 address in IPv6 form is routed as that IPv4 address, and every other address as itself |
| Routing.FirstApplyInstalls | internal/router/router.go:42-103 | the whole route table after the first successful Apply |
| Routing.NoRoutingLoop | internal/router/router.go:42-103 | the endpoint keeps the original hop, which is not the tunnel; exactly the addresses that only a default route or none matched go into the tunnel; all others keep their route |
| Routing.FirstPlanIff | internal/router/router.go:59-103 | for all outcomes: the exact commands and routes on which the success of the first Apply depends |
| Conservation.DiscoverKeeps | internal/router/router.go:142-166 | what is discovered, also on a retry, is the default route from before the run, unless IPv6 is wrongly reported missing |
| Conservation.ApplyKeeps | internal/router/router.go:59-103 | Apply keeps the invariant from every point of failure |
| Conservation.CleanupKeeps | internal/router/router.go:105-129 | Cleanup keeps it too, and when it succeeds every saved default route is back |
| Conservation.ApplyDeviceKeeps | internal/wgdev/device.go:73-122 | the device commands keep it; afterwards no route leads into the new device |
| Conservation.ApplyNetworkKeeps | cmd/warp-socksd/legacy_backend.go:272-307 | Apply of the network keeps it, compensation included |
| Conservation.CleanupNetworkKeeps | cmd/warp-socksd/legacy_backend.go:309-326 | from any such state, a successful Cleanup restores links and default routes, up to an IPv6 default route that was missed |
| Undoing.FailureIsUndone | cmd/warp-socksd/legacy_backend.go:293-304 | failure atomicity, with no assumption on reports: after a compensated failure the host is exactly as before if and only if no installed bypass prefix had a route of its own |
| Undoing.ApplyThenCleanup | cmd/warp-socksd/legacy_backend.go:272-326 | when every command is carried out: Apply succeeds exactly when the device can be configured and the endpoint's family has a default route, and Cleanup then restores the whole route table but for the endpoint's host route |
| Undoing.CleanupSucceeds | cmd/warp-socksd/legacy_backend.go:309-326 | when every command is carried out, Cleanup succeeds from every state that any failed or successful run leaves |
| Undoing.CleanupRemoves | internal/router/router.go:105-129 | a successful Cleanup removes exactly the saved host routes |
| Undoing.ApplyNetworkSets | cmd/warp-socksd/legacy_backend.go:272-307 | a successful Apply, first or later, sets exactly the host route of its endpoint |
| Restoring.RetryLeaves | internal/router/router.go:87 | the exact host routes after two applies and one cleanup, when the default routes are back, and when the host is as before |
| Restoring.RoutesConservedIff | internal/router/router.go:142-155 | for all outcomes: after Apply, Cleanup and the deletion of the device, default routes and links are back unless the host has an IPv6 default route, the stack tunnels IPv6 and its lookup failed naming ipv6 |
| Restoring.ApplyCleanupConservesIff | cmd/warp-socksd/legacy_backend.go:272-326 | the same for the network manager as a whole |
| Restoring.FalseReportLosesDefault | internal/router/router.go:142-155 | an instance: on a dual stack, an IPv6 lookup that fails naming ipv6 costs the host its IPv6 default route |
| Undoing.CleanupLeaves | internal/router/router.go:105-129 | the whole route table after a successful Cleanup, in terms of what was saved |
| Endpoint.WrittenHost | cmd/warp-socksd/legacy_backend.go:547-558 | a host is found in a field that has it bare or in brackets, with or without a port, between any white space |
| Endpoint.NormalisationIsIdempotent | cmd/warp-socksd/legacy_backend.go:530-568 | a normalised endpoint, of a blank field or one that names an address or a host, is left alone by both normalisations |
| Endpoint.EndpointsAgree | cmd/warp-socksd/legacy_backend.go:472-528 | the text given to the device for every stack mode; and the address the routes go around, when there is one, is inside that text exactly unless a dual stack has a host name in its IPv4 field and an address in its IPv6 field |
| Endpoint.PortIsAdded | cmd/warp-socksd/legacy_backend.go:560-568 | a field with a port is taken as it is, one that only names a host gets the port of the host endpoint, one that names nothing is passed over |
| Endpoint.WrittenIpIsFound | cmd/warp-socksd/legacy_backend.go:509-528 | an address is found in a field that has it bare or joined to a port, with or without brackets, between any white space |
| Endpoint.ProtocolIff | cmd/warp-socksd/legacy_backend.go:404-447 | in terms of the fields of a device: WireGuard exactly when the tunnel type says so, or is blank and the policy, the key type, a port or an endpoint does |
| Routing.EndpointIsKeptOut | cmd/warp-socksd/legacy_backend.go:272-307 | of the addresses that would be tunnelled, exactly the one inside the device's endpoint text is kept out of the tunnel; none is when the text is the host endpoint |
| EnsureDevice.Bootstrapper.EnsureDevice | cmd/warp-socksd/legacy_backend.go:128-149 | refresh, else reuse, else register, with exactly the specified calls |
| EnsureDevice.Bootstrapper.RegisterNew | cmd/warp-socksd/legacy_backend.go:176-234 | refines registration with its licence update |
| EnsureDevice.Bootstrapper.RefreshDevice | cmd/warp-socksd/legacy_backend.go:151-174 | refines the refresh |
| EnsureDevice.Bootstrapper.SetConfiguredLicense | cmd/warp-socksd/legacy_backend.go:236-255 | refines the licence step |
| EnsureDevice.EnsureContract | cmd/warp-socksd/legacy_backend.go:128-255 | for every API: a returned device has credentials, a key, WireGuard and the configured licence; at most one licence is sent and one registration made |
| EnsureDevice.TakenIff | cmd/warp-socksd/legacy_backend.go:151-174 | a state comes back from enabling and fetching exactly when both succeed and the device has a peer, an id, a token and speaks WireGuard |
| EnsureDevice.RegistersIff | cmd/warp-socksd/legacy_backend.go:128-149 | for every API: one registration exactly when there is a key for it, the refresh does not succeed, and the state on file cannot be used without it; else none |
| EnsureDevice.LicenseIff | cmd/warp-socksd/legacy_backend.go:257-263 | a licence is asked for exactly when the configured text, without white space, is neither empty nor "unspecified" |
| EnsureDevice.LicenseStepIff | cmd/warp-socksd/legacy_backend.go:236-255 | for any state: a licence is sent exactly when a new one is wanted for an identified device; the state is lost exactly when it is wanted and not sent or not accepted |
| EnsureDevice.CallsAreProper | cmd/warp-socksd/legacy_backend.go:128-255 | every call: a generated key is registered, a device enabled under the credentials on file or those just answered, fetched only then, and a licence sent last, as configured |
| Strings.TrimSpaceIff | cmd/warp-socksd/legacy_backend.go:421-423 | trimming leaves exactly the text between the white space at both ends |
| Strings.SaysIff | cmd/warp-socksd/legacy_backend.go:421-423 | a name is recognised exactly when it is written between white space, in any case |
| EnsureDevice.WithoutCredentialsRegisters | cmd/warp-socksd/legacy_backend.go:151-154 | a state without credentials leads to a registration first, with a new key |
| EnsureDevice.EmptyRegisters | internal/app/app.go:108-116 | a device obtained from the retry's empty state has cost exactly one new registration |
| EnsureDevice.ReusableNeverRegisters | cmd/warp-socksd/legacy_backend.go:462-470 | a reusable state is never replaced by a registration, whatever the API answers |
| EnsureDevice.ObtainedIsKept | internal/app/app.go:184-189 | a returned device with peer key and host is kept by every later run, and a later failing run is retried |
| App.App.Run | internal/app/app.go:84-128 | refines the run with its one retry and joined errors |
| App.App.RunStartedRuntime | internal/app/app.go:130-182 | refines one attempt, with its calls in order and the first of three errors |
| Lifecycle.AcceptedIsOrderly | internal/app/app.go:84-182 | what the monitor accepts has the promised order in terms of the calls alone |
| Lifecycle.RunIsOrderly | internal/app/app.go:84-189 | for all answers: at most two applies, each of the state last saved; ready only after four successes and off before Stop; one Stop for each Start; not ready at the end |
| Lifecycle.RunSucceedsIff | internal/app/app.go:148-181 | no error exactly when the last attempt served, ended well, stopped and cleaned up |
| Lifecycle.RetriesIff | internal/app/app.go:108-116 | a second bootstrap happens exactly when the first attempt was saved, did not end cleanly, and the loaded state has a device id, a token and a private key; it starts from the empty state |
| Record.RunIsRecorded | internal/app/app.go:84-182 | the calls of every run: each directly follows the one that led to it, each records what the dependency answers in that attempt, and the network is what these calls make of it |
| Record.ErrorBlames | internal/app/app.go:148-181 | a run has an error exactly when it is the one that the calls of its attempts blame: a failed step, the failed exit before a failed stop before a failed cleanup, or both attempts joined |
| WholeRun.RunConserves | internal/app/app.go:108-182 | whole runs, all outcomes: when the last network call was a successful cleanup, or there was none, default routes and links are back, but for an IPv6 default route that was never saved; when it was a successful Apply they are not, however the run went on; no other route but the endpoints' ever changes |
| WholeRun.HonestRunConserves | internal/app/app.go:108-182 | with honest reports, or a stack that does not tunnel IPv6, they are all back |
| WholeRun.ObeyedRunConservesIff | internal/app/app.go:108-182 | on a host that carries out every command they are back if and only if the last Apply of a usable device was cleaned up or failed |
| WholeRun.SuccessConserves | internal/app/app.go:84-128 | a run without an error gives links and default routes back, given honest reports |
| WholeRun.CleanupReachedIff | internal/app/app.go:130-151 | the cleanup of an attempt is reached exactly when Apply, the config writer and Start succeeded |
| WaitError.StoppedDecides | internal/process/common.go:22-37 | whatever was normalised before, normalising as stopped gives nil exactly for no error or an expected one, wrapped or joined in any way |
| WaitError.ExpectedIff | internal/process/common.go:26-36 | an error is expected exactly when an exit status, or the news that the process is gone, is at the end of some chain of wrapping |
| WaitError.StopIgnoresTheRace | internal/process/socks5_supervisor.go:84-94 | Stop's result is nil or not regardless of the flag that wait had read |
| Supervisor.SOCKS5Supervisor.BeginStart | internal/process/socks5_supervisor.go:41-60 | the lock region of Start, which keeps the mutex when the launch fails |
| Supervisor.SOCKS5Supervisor.BeginStop | internal/process/socks5_supervisor.go:69-75 | the lock region of Stop |
| Supervisor.SOCKS5Supervisor.Withdraw | internal/process/socks5_supervisor.go:112-117 | the lock region of wait, which withdraws only its own child |
| Supervisor.WaitForTcpReady | internal/process/socks5_supervisor.go:123-149 | ready exactly when a connection succeeds before the first round that gives up; no result exactly as long as no round decides |
| SupervisorRuns.StepKeepsInv | internal/process/socks5_supervisor.go:26-121 | every step of every thread keeps the invariant |
| SupervisorRuns.AtMostOneUnreaped | internal/process/socks5_supervisor.go:41-45 | in every reachable state at most one child has not been waited for, and it is the current one |
| SupervisorRuns.OneReport | internal/process/socks5_supervisor.go:109-121 | one send, then one close, one receipt at most; visible only after the child is withdrawn; normalised by whether a Stop took this child |
| SupervisorRuns.ReportIsNilIff | internal/process/socks5_supervisor.go:109-121 | what is published of a child is nil exactly when its wait gave none, or a Stop took it and its error ends in an exit; else it is the unexpected exit |
| SupervisorRuns.MutexStuckIff | internal/process/socks5_supervisor.go:51-53 | the mutex stays held exactly when a launch has failed |
| SupervisorRuns.ReceiptsDrain | internal/process/socks5_supervisor.go:84-107 | whoever receives from a channel, Start, Stop or a reader of Done, takes the value out, and tells a value exactly when it took one |
| SupervisorRuns.LockedMoveIff | internal/process/socks5_supervisor.go:41-117 | in every reachable state, a call of Start, Stop or Done and a reaper after its wait get on exactly when the mutex is free |
| SupervisorRuns.FailedLaunchIsFinal | internal/process/socks5_supervisor.go:51-53 | from then on nothing is started and no field changes |
| SupervisorRuns.FailedLaunchHoldsMutex | internal/process/socks5_supervisor.go:51-53 | one call of Start is enough to get there |
| SupervisorRuns.StartGetsOnIff | internal/process/socks5_supervisor.go:41-53 | a call of Start can ever get past the mutex, whatever else happens, if and only if no launch has failed |
| Hanging.HangsIff | internal/app/app.go:108-125 | a run of the daemon returns if and only if no retry follows a failed launch and gets to its own Start; when it returns it does what App.Run does |
| Hanging.HungIsUp | internal/app/app.go:108-125 | a run that hangs has left the network of its second attempt up, and is not ready |
| SupervisorRuns.ReaperNeverBlocks | internal/process/socks5_supervisor.go:109-121 | after the wait, the reaper can take each of its steps whatever the others do |
| SupervisorRuns.NobodyWaitsInVain | internal/process/socks5_supervisor.go:84-107 | a thread that cannot move needs the stuck mutex, or waits for a child that still runs or whose report is on its way |
| SupervisorRuns.ReportArrives | internal/process/socks5_supervisor.go:109-121 | at most three steps of its own reaper publish an exited child |
| SupervisorRuns.CallsMove | internal/process/socks5_supervisor.go:26-107 | Start succeeds exactly when the probe of its own child does, and else goes on as a Stop; Stop kills exactly after waiting in vain, and fails exactly when a signal does |
| SupervisorRuns.StopReturnsNilIff | internal/process/socks5_supervisor.go:69-95 | in all interleavings, Stop's nil depends on the child's exit alone, or on having found the channel drained |

## Left out

- Connection.Conn.Write: a failing write sends nothing in the model, where the operating system may have taken part of it; nothing is read from or written to the connection afterwards.
- Socks5Server.Server.HandleConn: what a connection that is then closed has consumed is not stated.
- Socks5Client.Dialer.DialContext: the check of the network name, the opening of the connection and its deadlines are not modelled.
- Supervisor.WaitForTcpReady: the rounds are given; the time between them is not modelled.
- HandshakeRuns.DialOutcome: credentials of 256 octets or more that are heard as those the server wants; `EveryDial.EveryDialEnds` covers them.
- WholeRun.RunConserves: a run whose last network call is a failed Cleanup, or an Apply that failed after it had begun, is decided only on a host that carries out every command; otherwise it depends on the commands that failed.
- Real time: timeouts, deadlines and polling intervals are outcomes or choices of a step.
- Relaying after a connection (`proxyCopy`, `io.Copy`): the octets after the handshake are shown to be intact, not copied on.
- In the interleaved two-party runs, the end of a stream, write errors and bounded socket buffers; the classes `Conn`, `Server` and `Dialer` do have read and write errors.
- The derivation of a session's UDP address in `handleUDPAssociate` and the remote half of `handleUDPPacket`: addresses of sessions and packets are arbitrary.
- The printing and parsing of IP text, which is a lawful pair of functions; IPv6 zones; trimming of white space other than ASCII; case folding other than ASCII.
- Endpoint fields whose host has brackets or white space inside its own brackets, or more than one colon without being an address.
- Several default routes, metrics, routes that addresses induce, and route tables other than the main one.
- The text of `ip` and `wg` commands and of their errors, beyond "already absent" and "ipv6".
- State and configuration files: a load or save succeeds or fails.
- The HTTP client of the WARP API, key generation and installation ids: answers and keys are parameters.
- Errors of missing dependencies (`NewApp`, nil clients and managers) and of an unset binary path or configuration path in `Start`.
- Children are numbered by their launch; process ids and signals to a process group are not modelled. In `Hanging`, a launched child is stopped and withdrawn before the next attempt.
- `localReadinessAddress`, `printableValue`, logging, the health endpoint, the prober's HTTP request, and the loading of flags and environment: one-branch members.
