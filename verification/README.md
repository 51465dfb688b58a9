# Verification of the IP overlay: sessions, node pool, SOCKS5, counters, pops

A *pop* server accepts SOCKS5 and HTTP users. Each user is bound to one *node*, a client that keeps a websocket (a
*tunnel*) open to the pop and makes the user's connections from its own network. A *manager* tells nodes which pop to
use. This project models the parts of that system that carry state over whole runs, and proves what they keep.

`dafny verify dfyconfig.toml` checks everything.

## How it is modelled

* Goroutines that share state are state machines. Sessions, UDP associations, traffic, HTTP responses and split
  allocations take one step per access to a shared map, per message taken from a FIFO queue, or per Redis transaction.
  In `PoolRuns`, `FrontEnd` and `PopAllocation` a step is a whole request or lookup. A theorem about runs holds for
  every interleaving of the steps.
* Code that one goroutine runs on its own is also written as methods and classes that update fields in place. Each
  such method is proved to leave its object in the state that a function specifies, and the theorems are about these
  functions.
* Redis keys are maps and sets, a Redis transaction is atomic, and store calls succeed unless the data refuses them.
  Clocks, dial outcomes, partial writes, free ports, locations and generated ids are parameters or nondeterministic.

| file | content |
|---|---|
| `Prelude` | bytes, optional values, joining of byte chunks, signed 64-bit wrap-around |
| `TunnelMessages`, `ServerTunnel`, `NodeTunnel`, `SessionProtocol` | the two ends of a tunnel and the queues between them |
| `SessionSteps`, `SessionInvariant`, `SessionAnswers`, `SessionEnds`, `SessionRest`, `SessionMeasure` | what every step of a session keeps, how its create is answered, how sessions end, and why runs do |
| `SessionTheorems`, `SessionTraces` | results about whole runs; two runs that show that the provisos are needed |
| `TunnelHandlers` | the message handlers of both ends as methods |
| `PoolStore`, `PoolLogic`, `PoolInvariant`, `PoolRuns` | nodes, users, indexes, the requests on them, and what every run keeps |
| `PoolOrder` | in what order free nodes are handed out |
| `PoolSplit` | the same with allocations split into a pop and a later commit or put-back |
| `FrontEnd`, `PoolService` | user cache and tunnels over the pool; the pool and its callers as classes |
| `Socks5Grammar`, `Socks5Server`, `Socks5Codec` | handshake grammar, the buffered server against it, replies and UDP datagrams |
| `Socks5Wire` | the same bytes written out with the numbers of RFC 1928 and RFC 1929 |
| `UdpAssociations`, `UdpServers` | reference counts of the per-user UDP servers |
| `TrafficRuns`, `UserTraffic` | traffic metering and its periodic flush |
| `HttpDemux`, `HttpTunnel` | many HTTP responses over one websocket |
| `PopAllocation`, `PopService` | which pop a node is sent to |
| `Decimal`, `RecordMap`, `RecordStore` | records written to and read from string maps |

## What does not hold as one might expect

The code is modelled as it is. Where a desirable property fails, the exact condition is proved, and where that is not
plain from the condition, a run that shows the failure.

* The reply to a CREATE and the storing of the session run in different goroutines. A DATA or CLOSE message handled
  before the session is stored is lost (`SessionTraces.FirstChunkCanBeLost`, `SessionTraces.CloseCanBeLost`). At rest
  over a working link, a session that the server pumps is pumped by the node too exactly if no message came too early,
  and the user has received every chunk exactly if none was skipped (`SessionTheorems.RestIsComplete`). A session whose
  user did not hang up is over at the server exactly if the node said so and the message did not come too early
  (`SessionTheorems.HangUpArrivesExactly`).
* A user's hang-up is not announced. The node goes on pumping exactly until the server answers DATA of a session that
  it does not have stored (`SessionTheorems.LazyCloseExactly`).
* A node that reconnects while its old tunnel lives loses the one-to-one binding exactly when closing the old tunnel
  moved its user to another node (`PoolRuns.ReconnectExact`). More generally, a connection registers a record that it
  read earlier, and keeps the binding exactly if that record still tells it (`PoolRuns.StaleRegistration`); a create that
  names the offline node in between breaks it (`PoolRuns.BoundWhileConnecting`).
* A user may be created with the empty name, which means "unbound" elsewhere (`PoolRuns.EmptyNameBreaks`). The put-back
  after a refused bind frees a bound node (`PoolRuns.PutBackOfBoundNode`). A user record saved after it went stale
  breaks the binding exactly when the user is gone or its route changed in between (`PoolInvariant.SaveKeepsInv`), and
  so does a switch with such a record (`PoolInvariant.SwitchKeepsInvExactly`).
* A node that an allocation has in hand must neither be named, by a create, a switch or a modify, nor reconnect; each
  condition is exact (`PoolSplit.NamedWhileInHand`, `PoolSplit.SwitchedWhileInHand`, `PoolSplit.ModifiedWhileInHand`,
  `PoolSplit.ReconnectWhileInHand`).
* A cache fill whose record was read before other operations ran leaves a stale route exactly if the record is no longer
  fresh (`FrontEnd.FillKeepsFreshExactly`).
* A create takes the traffic allowance in units of 2^30 bytes, a modify in bytes
  (`PoolRuns.CreatedRecord`, `PoolRuns.ModifiedRecord`).
* `isInvalidRouteMode` (`ippop/rpc/internal/logic/check.go:46`) reports the three known modes as invalid; it is modelled
  as written, and the invariants do not depend on it.
* Two associations of one user that both find no UDP server leave one open for good; the servers left open are as many
  as the registrations that found one in place (`UdpAssociations.OpenAtRest`).
* `NewDatagram` puts two length bytes in front of a name, so no name survives it (`Socks5Codec.AddressSurvivesExactly`).
  Replies cut names longer than 255 bytes and ports wider than 16 bits (`Socks5Codec.ReplyReadBack`).
* An HTTP data frame that comes before its header is the whole response (`HttpDemux.FrameFirst`). A second header of a
  request is written into its response and replaces the expected length (`HttpDemux.SecondHeaderMixesIn`); header and
  own payloads are all that is delivered exactly if none comes before the response is complete
  (`HttpDemux.OneHeaderExactly`).
* A flush save is exact only if nobody wrote the record since the timer read it (`TrafficRuns.SaveIsExact`).

## Model

| member | source | states |
|---|---|---|
| SessionTheorems.UpstreamPrefix | client/tunnel/tunnel.go:271-334 | in every run, whatever the interleaving, the bytes written to a session's destination are a prefix of the handshake's extra bytes followed by the bytes read from the user |
| SessionTheorems.DownstreamPrefix | ippop/api/ws/tunnel.go:200-276 | in every run the user has received a prefix of the chunks the node read, leaving out the first ones if their DATA came before the session was stored; these are lost for good |
| SessionTheorems.SessionAgreement | ippop/api/ws/tunnel.go:307-336 | a session in the server's map was stored by the node and answered with success; a failed or timed-out create, and an ended session, is in no table |
| SessionTheorems.NoWrongKind | ippop/api/ws/tunnel.go:338-363 | TCP and UDP sessions share a map, yet no handler ever finds an entry that it would cast to the wrong type |
| SessionTheorems.CreateArrivesOnce | client/tunnel/tunnel.go:265-275 | a CREATE that reaches the node is the first and the last of its session, so the node never dials twice |
| SessionTheorems.OnlyStrayDataAnswered | ippop/api/ws/tunnel.go:187-210 | the one message that is answered is DATA without a session, by one CLOSE; CLOSE is never answered |
| SessionTheorems.ReplyDecides | ippop/api/ws/tunnel.go:170-185 | a reply taken by a waiting create decides it: one step later the session is established after a success and refused after a failure, and out of the wait list |
| SessionTheorems.TimeoutRefuses | ippop/api/ws/tunnel.go:320-333 | without a reply the time-out refuses the create and clears the wait list |
| SessionTheorems.BrokenLinkRefuses | ippop/api/ws/tunnel.go:307-318 | over a broken link the create is refused at once, and nothing is sent |
| SessionTheorems.UnawaitedReplyIsDropped | ippop/api/ws/tunnel.go:170-185 | a reply that nobody is receiving changes nothing |
| SessionTheorems.CreateIsAnswered | client/tunnel/tunnel.go:271-324 | in every run over a working link each written CREATE is on its way, in work, or decided; a failed dial is answered with a refusal, a stored session with a success, and the answer is on its way or was handled; no other answer is ever given |
| SessionTheorems.EndedIsClosed | ippop/api/ws/tcpproxy.go:46-65 | in every run a session that has ended left no connection open at either end |
| SessionTheorems.DatagramsPass | ippop/api/ws/tunnel.go:349-363 | a user's datagram is sent and registers its session; one from outside passes only while the node has the session |
| SessionTheorems.RestOrStep | ippop/api/ws/tunnel.go:128-141 | the programs are at rest exactly when neither has a step to take by itself |
| SessionTheorems.RestIsComplete | ippop/api/ws/tunnel.go:251-276 | at rest over a working link, a session that the server pumps is pumped by the node too exactly if no message was handled before it was stored; the user, if no write to it failed, has received everything but the skipped chunks, so all of it exactly if none was skipped |
| SessionTheorems.ClosedIsComplete | ippop/api/ws/tcpproxy.go:22-34 | in every run, a connection that was closed without its user hanging up was closed by the node, and the user, if no write to it failed, has received everything but the skipped chunks |
| SessionTheorems.HangUpArrives | client/tunnel/tcpproxy.go:39-57 | at rest, a session whose destination hung up is over at the server too if no message came too early, and the user, if it did not hang up, has received every chunk |
| SessionTheorems.HangUpArrivesExactly | ippop/api/ws/tunnel.go:187-198 | at rest, an established session whose user did not hang up is over exactly if the node told the server and the message was not handled before the session was stored |
| SessionTheorems.LazyCloseExactly | ippop/api/ws/tcpproxy.go:53-60 | at rest, a dialed session whose destination did not hang up is still pumped exactly if no DATA of it was handled while the server did not have it stored |
| SessionTheorems.UpstreamComplete | ippop/api/ws/tcpproxy.go:46-65 | at rest, a destination that is still pumped, if no write to it failed, has received the extra bytes and everything read from the user |
| SessionEnds.NodeRunEnd | client/tunnel/tcpproxy.go:39-57 | the node's CLOSE is its last word: no DATA follows it |
| SessionEnds.NodeRunTold | client/tunnel/tcpproxy.go:46-53 | the node's CLOSE is on its way, or was handled too early, or has closed the session, and only one of these |
| SessionEnds.ServerTakeStray | ippop/api/ws/tunnel.go:200-210 | DATA that finds no session makes the node stop in the end, unless the link fails, and nothing else does but its destination |
| SessionAnswers.NodeRunAnswers | client/tunnel/tunnel.go:271-299 | every step of the node's goroutine keeps it that its decision is announced, and truly |
| SessionAnswers.ServerTakeAnswers | ippop/api/ws/tunnel.go:170-210 | every message handled by the server keeps it that an announced decision is on its way or was handled |
| SessionMeasure.InternalStepDescends | client/tunnel/tcpproxy.go:39-57 | every delivery and every step of the two programs lowers a measure over queues and goroutines |
| SessionMeasure.Quiesces | ippop/api/ws/tunnel.go:143-210 | without new input a run is no longer than the measure of its start: there is no close ping-pong |
| SessionInvariant.StepKeepsInv | ippop/api/ws/tunnel.go:143-363 | every step of either end, of users, destinations and the link keeps the session invariant |
| SessionInvariant.RunKeepsInv | ippop/api/ws/tunnel.go:143-363 | so does every run |
| SessionSteps.ServerRunKeeps | ippop/api/ws/tunnel.go:251-336 | create, wait, time-out, extra bytes, store and pump of the server's goroutine keep one session's invariant |
| SessionSteps.NodeRunKeeps | client/tunnel/tunnel.go:271-299 | dial, store, reply and pump of the node's goroutine keep it |
| SessionSteps.ServerTakeKeeps | ippop/api/ws/tunnel.go:170-210 | reply, DATA and CLOSE handled by the server keep it, with partial writes |
| SessionSteps.NodeTakeKeeps | client/tunnel/tunnel.go:326-345 | DATA and CLOSE handled by the node keep it |
| SessionProtocol.HandleKeepsPipe | ippop/api/ws/tcpproxy.go:36-44 | taking the oldest queued chunk and writing part of it keeps what was written a prefix of what was sent |
| SessionRest.RunRests | client/tunnel/tcpproxy.go:25-53 | the invariants of ending sessions hold in every run |
| SessionTraces.FirstChunkCanBeLost | ippop/api/ws/tunnel.go:266-273 | a run in which the user receives the second chunk and never the first |
| SessionTraces.CloseCanBeLost | ippop/api/ws/tunnel.go:187-198 | a run that comes to rest with the user's connection open although the node's session is gone |
| TunnelHandlers.TablesInEveryRun | ippop/api/ws/tunnel.go:170-210 | in every run the handlers find the server's tables as they need them |
| TunnelHandlers.PopTunnel.OnMessage | ippop/api/ws/tunnel.go:143-168 | dispatch and handling of a message leave the server in its specified state |
| TunnelHandlers.PopTunnel.OnProxySessionCreateReply | ippop/api/ws/tunnel.go:170-185 | a reply is taken only by a goroutine that is receiving, and dropped otherwise |
| TunnelHandlers.PopTunnel.OnProxySessionDataFromTunnel | ippop/api/ws/tunnel.go:200-228 | DATA is written to a stored session's user and answered with CLOSE otherwise |
| TunnelHandlers.PopTunnel.OnProxySessionClose | ippop/api/ws/tunnel.go:187-198 | CLOSE closes a stored session's user connection and changes nothing otherwise |
| TunnelHandlers.ClientTunnel.OnTunnelMsg | client/tunnel/tunnel.go:240-263 | dispatch and handling of a message leave the node in its specified state |
| TunnelHandlers.ClientTunnel.OnProxySessionDataFromTunnel | client/tunnel/tunnel.go:326-334 | DATA is written to a mapped session's destination and dropped otherwise |
| TunnelHandlers.ClientTunnel.OnProxySessionClose | client/tunnel/tunnel.go:336-345 | CLOSE closes a mapped session's destination |
| PoolStore.MinUnique | ippop/api/model/bind.go:199-224 | the node that ZPOPMIN takes, lowest score and then name, is unique |
| PoolStore.LexIsDictionary | ippop/api/model/bind.go:206 | members with equal scores are in dictionary order |
| PoolInvariant.BindKeepsInv | ippop/api/model/bind.go:23-78 | binding a new user to an unbound node succeeds and keeps users and nodes one to one, the indexes and the free set |
| PoolInvariant.SwitchKeepsInv | ippop/api/model/bind.go:120-196 | so does moving a user to an unbound node; only that user's record changes |
| PoolInvariant.SwitchKeepsInvExactly | ippop/api/model/bind.go:120-196 | with a record that may be stale, a switch keeps the invariant exactly if the user exists and is still routed as the record says |
| PoolInvariant.DeleteKeepsInv | ippop/rpc/internal/logic/deleteuserlogic.go:28-56 | so does deleting a user, which unbinds its node and succeeds exactly if the user exists |
| PoolInvariant.AllocateKeepsInv | ippop/api/model/bind.go:199-224 | allocation moves the lowest-scored free node, unbound and online, from the free set into the caller's hand, and fails exactly on an empty set |
| PoolInvariant.CreateKeepsInv | ippop/rpc/internal/logic/createuserlogic.go:37-123 | a create succeeds exactly if it is well formed and its node, named or allocated, is there to take; a refusal changes nothing |
| PoolInvariant.ModifyKeepsInv | ippop/rpc/internal/logic/modifyuserlogic.go:28-75 | a modify succeeds exactly if its arguments are valid and the named node is unbound; a refusal changes nothing |
| PoolInvariant.SwitchUserKeepsInv | ippop/rpc/internal/logic/switchuserroutenodelogic.go:28-84 | a switch succeeds exactly if the named node is free or, without a name, some node is; a refusal changes nothing |
| PoolInvariant.RegisterKeepsInv | ippop/api/ws/tunmgr.go:80-91 | a connecting node whose record keeps its user keeps the invariant |
| PoolInvariant.RegisterKeepsInvExactly | ippop/api/ws/tunmgr.go:80-91 | a connecting node keeps the invariant exactly if the record that it writes still tells its user |
| PoolInvariant.GoOfflineKeepsInv | ippop/api/model/node.go:189-192 | a node that goes offline is no longer free, and its user stays bound |
| PoolInvariant.DisconnectKeepsInv | ippop/api/ws/tunmgr.go:102-158 | the user of a disconnected node moves to a free online node exactly when there is one |
| PoolInvariant.SaveKeepsInv | ippop/api/model/user.go:45-53 | saving a record keeps the invariant exactly if the user exists and is still routed as the record says |
| PoolRuns.RunKeepsInv | ippop/api/model/reidskey.go:11-14 | from the cleared start-up state every run keeps the binding one to one, the indexes right and "free = unbound + online" |
| PoolRuns.NoNodeServesTwo | ippop/api/model/bind.go:23-196 | in every run a user is routed to a node exactly when that node is bound to it, no two users share a node, and the free nodes are the online ones that are not bound |
| PoolOrder.ScoresAreTimes | ippop/api/model/bind.go:18-21 | in every run a free node's score is the time at which it became free |
| PoolOrder.LongestFreeFirst | ippop/api/model/bind.go:199-224 | in every run the node allocated is the one that has been free longest, by name among those that became free in the same second |
| PoolOrder.FreedFirstTakenFirst | ippop/api/model/bind.go:199-224 | while the clock does not go back, a node that has been free since before the clock ticked is handed out before any that became free after it |
| PoolOrder.FirstConnectedFirst | ippop/api/model/bind.go:18-21 | of two nodes that connect one after the other the first is handed out first |
| PoolRuns.CreatedRecord | ippop/rpc/internal/logic/createuserlogic.go:62-131 | the stored record of an accepted create has the request's digest, period, limits, mode and interval, its allowance times 2^30, and the defaults where the request is silent |
| PoolRuns.ModifiedRecord | ippop/rpc/internal/logic/modifyuserlogic.go:56-62 | a modify stores the request's period, allowance as given, mode, interval and node, and leaves every other field |
| PoolRuns.ConnectedRecord | ippop/api/ws/nodews.go:41-50 | a connected node's record has its present system, address and login time; a known node keeps its registration time, user and delay; other nodes stay |
| PoolRuns.EditedRecord | ippop/rpc/internal/logic/startorstopuserlogic.go:33-60 | stopping, a new password and saved traffic change that field of an existing user and nothing else in the store |
| PoolRuns.CreateRefusal | ippop/rpc/internal/logic/createuserlogic.go:37-93 | the reason given for a refused create is true |
| PoolRuns.ModifyRefusal | ippop/rpc/internal/logic/modifyuserlogic.go:28-66 | so is the one for a refused modify |
| PoolRuns.SwitchRefusal | ippop/rpc/internal/logic/switchuserroutenodelogic.go:28-84 | so is the one for a refused switch |
| PoolRuns.RefusalChangesNothing | ippop/rpc/internal/logic/switchuserroutenodelogic.go:43-56 | no refused create, modify or switch changes the store |
| PoolRuns.EmptyNameBreaks | ippop/rpc/internal/logic/createuserlogic.go:37-60 | an accepted create breaks the invariant exactly when the user name is empty |
| PoolRuns.EmptyNameAccepted | ippop/rpc/internal/logic/createuserlogic.go:37-123 | a create with the empty name is accepted, with a valid request and an unbound node |
| PoolRuns.PutBackOfBoundNode | ippop/api/model/bind.go:23-45 | the put-back of a refused bind frees a bound node exactly when it is online |
| PoolRuns.ReconnectExact | ippop/api/ws/tunmgr.go:60-83 | a reconnect with the record read before keeps the invariant exactly if the node was unbound or no node was free |
| PoolRuns.StaleRegistration | ippop/api/ws/nodews.go:35-55 | a record read before other operations ran is registered without harm exactly if the node's binding is the same again |
| PoolRuns.BoundWhileConnecting | ippop/rpc/internal/logic/check.go:19-44 | a create that names the node between that read and the registration is accepted, and then the invariant is lost |
| PoolSplit.FinishKeeps | ippop/api/ws/tunmgr.go:143-153 | an allocation once begun always binds its own node to its own user, whatever ran in between |
| PoolSplit.RunKeeps | ippop/rpc/internal/logic/switchuserroutenodelogic.go:43-55 | any number of allocations in flight keep the invariant with the nodes in hand set apart |
| PoolSplit.FreeOrInOneHand | ippop/api/model/bind.go:199-224 | in every run an unbound online node is in the free set or in exactly one operation's hand, never both |
| PoolSplit.NamedWhileInHand | ippop/api/model/bind.go:23-45 | when a create names a node in hand, the operation that has it is refused; the invariant survives exactly if that operation is a create too and the node is offline |
| PoolSplit.SwitchedWhileInHand | ippop/rpc/internal/logic/switchuserroutenodelogic.go:43-84 | a switch can name a node in hand exactly if it is online, and then the invariant is always lost |
| PoolSplit.ModifiedWhileInHand | ippop/rpc/internal/logic/modifyuserlogic.go:28-75 | a modify can name it too; the invariant survives exactly if the other operation is a create and the node is offline |
| PoolSplit.ReconnectWhileInHand | ippop/api/ws/tunmgr.go:80-91 | a connecting node keeps the invariant exactly if no operation has it in hand |
| FrontEnd.LookupAgrees | ippop/api/ws/tunmgr.go:160-224 | a lookup through the cache finds what the store says, sets that tunnel's limits to the user's stored limits, and no other user is routed to it |
| FrontEnd.CreatedUserIsLimited | ippop/api/ws/tunmgr.go:188-224 | after an accepted create the new user's tunnel reads at the request's download limit and writes at its upload limit, or without limit if it is not positive |
| FrontEnd.ChangesAreSeen | ippop/rpc/internal/logic/startorstopuserlogic.go:47-57 | after a stop, a new password or an eviction the next lookup sees the stored record |
| FrontEnd.RunKeeps | ippop/rpc/internal/logic/modifyuserlogic.go:64-72 | in every run of requests, failovers, flushes, lookups and evictions a cached record equals the stored one in every field but the traffic counter |
| FrontEnd.FillKeepsFreshExactly | ippop/api/ws/tunmgr.go:160-182 | filling the cache with a record read earlier keeps it fresh exactly if the record still is |
| FrontEnd.LookupInEveryRun | ippop/api/ws/tunmgr.go:188-224 | in every run a user's tunnel is found exactly when its node is connected |
| PoolService.Redis.Allocate | ippop/api/model/bind.go:199-224 | takes the lowest-scored free node, as specified |
| PoolService.Redis.Bind | ippop/api/model/bind.go:23-78 | leaves the store as specified, put-back included |
| PoolService.Redis.Unbind | ippop/api/model/bind.go:80-118 | leaves the store as specified |
| PoolService.Redis.Switch | ippop/api/model/bind.go:120-196 | leaves the store as specified, with the old node updated before the new one |
| PoolService.UserService.CreateUser | ippop/rpc/internal/logic/createuserlogic.go:37-123 | validate, allocate and bind refine the one-step specification |
| PoolService.UserService.DeleteUser | ippop/rpc/internal/logic/deleteuserlogic.go:28-56 | delete and unbind refine it |
| PoolService.UserService.ModifyUser | ippop/rpc/internal/logic/modifyuserlogic.go:28-75 | validate, edit and switch refine it |
| PoolService.UserService.SwitchUserRouteNode | ippop/rpc/internal/logic/switchuserroutenodelogic.go:28-63 | check or allocate, switch and put back refine it |
| PoolService.TunnelManager.AcceptWebsocket | ippop/api/ws/tunmgr.go:60-91 | a live old tunnel is closed and disconnected first; then the node is registered, online, free if unbound, and has a tunnel without limits |
| PoolService.TunnelManager.SwitchNodeForUser | ippop/api/ws/tunmgr.go:130-158 | a failover moves the user as specified and evicts it from the cache exactly if it succeeded |
| PoolService.TunnelManager.Disconnect | ippop/api/ws/tunmgr.go:102-128 | the end of a connection refines the specified disconnect |
| PoolService.TunnelManager.GetUserFromCache | ippop/api/ws/tunmgr.go:160-182 | hit, miss and unknown user as specified |
| PoolService.TunnelManager.GetTunnelByUser | ippop/api/ws/tunmgr.go:188-224 | lookup and limiter updates as specified |
| Socks5Grammar.AcceptExactly | ippop/api/socks5/socks5.go:131-184 | a stream is accepted with a handshake exactly if it begins with the print of that well-formed handshake |
| Socks5Grammar.HandshakeUnique | ippop/api/socks5/protocol.go:177-263 | no stream begins with two different well-formed handshakes |
| Socks5Grammar.AcceptedIsPrinted | ippop/api/socks5/socks5.go:186-265 | what is accepted is well formed, and printing it gives back the bytes consumed; the answers written are the fixed ones |
| Socks5Grammar.RequestParsed | ippop/api/socks5/protocol.go:177-263 | a printed request is read back, whatever follows it |
| Socks5Server.Socks5Conn.ReadFull | ippop/api/socks5/socks5.go:218-265 | reading exactly n bytes depends on the bytes alone, not on how they are chunked |
| Socks5Server.Socks5Conn.ReadBlock | ippop/api/socks5/protocol.go:57-67 | the method list is read as the grammar says, for any chunking |
| Socks5Server.Socks5Conn.ReadAddrSpec | ippop/api/socks5/protocol.go:215-263 | so is the address |
| Socks5Server.Socks5Conn.NewRequest | ippop/api/socks5/protocol.go:177-213 | so is the request |
| Socks5Server.Socks5Conn.UserPassAuth | ippop/api/socks5/socks5.go:218-265 | so is the login, with the success or failure answer written |
| Socks5Server.Socks5Conn.Authenticate | ippop/api/socks5/socks5.go:186-216 | the method is chosen and answered as the grammar says |
| Socks5Server.Socks5Conn.ServeHandshake | ippop/api/socks5/socks5.go:131-184 | the buffered server accepts, rejects, writes and extracts exactly as the pure parser of the whole stream |
| Socks5Server.Socks5Conn.Dispatch | ippop/api/socks5/socks5.go:267-283 | commands 1 and 3 go on; every other one is answered with 5 7 0 1 0 0 0 0 0 0, which reads back as code 7 and address 0.0.0.0:0 |
| Socks5Server.Socks5Conn.TakeExtra | ippop/api/socks5/socks5.go:285-310 | the extra bytes of a CONNECT are what the reader had buffered, and nothing is lost |
| Socks5Server.Connect | ippop/api/socks5/socks5.go:285-310 | handshake bytes, extra bytes and unread bytes together are the original stream, for any chunking |
| Socks5Codec.ReplySocks5Client | ippop/api/socks5/protocol.go:132-175 | the reply buffer holds version, code, type, body and 16-bit port, or the address is refused |
| Socks5Codec.ReplyReadBack | ippop/api/socks5/protocol.go:132-175 | a reply read back with the request grammar gives its code, address and port exactly if name and port fit their fields |
| Socks5Codec.NewDatagramFromBytes | ippop/api/socks5/protocol.go:285-337 | the parser with its running minimum length equals the direct one |
| Socks5Codec.AppendDatagram | ippop/api/socks5/protocol.go:274-283 | the fields are written in order |
| Socks5Codec.DatagramInverse | ippop/api/socks5/protocol.go:274-337 | parsing gives a datagram exactly if it is well formed with data and prints as the input |
| Socks5Codec.IpEchoes | ippop/api/socks5/protocol.go:354-413 | an IP address survives a new datagram, up to IPv4-mapped folding, with the port modulo 2^16 |
| Socks5Codec.ShortNameEchoes | ippop/api/socks5/protocol.go:354-371 | a name comes back as its length byte followed by the name |
| Socks5Codec.AddressSurvivesExactly | ippop/api/socks5/protocol.go:373-395 | an address survives exactly if it is an IP address with a 16-bit port |
| Socks5Wire.NameOnWire | ippop/api/socks5/protocol.go:177-263 | 5, command, 0, 3, length, name and two port bytes are a request for that name and port, whatever follows |
| Socks5Wire.IPv4OnWire | ippop/api/socks5/protocol.go:177-263 | so is type 1 with four bytes for an IPv4 address |
| Socks5Wire.IPv6OnWire | ippop/api/socks5/protocol.go:177-263 | and type 4 with sixteen bytes for an IPv6 address |
| Socks5Wire.OtherRequestsRefused | ippop/api/socks5/protocol.go:184-251 | any other version or address type is refused |
| Socks5Wire.LoginOnWire | ippop/api/socks5/socks5.go:218-253 | 1, length, user, length, password are a login, whatever follows |
| Socks5Wire.OtherLoginRefused | ippop/api/socks5/socks5.go:228-232 | any other login version is refused |
| Socks5Wire.NoAcceptableMethod | ippop/api/socks5/protocol.go:69-72 | a greeting that does not offer method 2 with authentication, or 0 without, is answered with 5 255 and rejected |
| Socks5Wire.OpenHandshake | ippop/api/socks5/socks5.go:131-216 | without authentication the answer is 5 0, and the request decides |
| Socks5Wire.LoginHandshake | ippop/api/socks5/socks5.go:186-265 | with authentication the answer is 5 2, then 1 0 for a right and 1 1 for a wrong login; after a right one the request decides |
| Socks5Wire.BrokenLogin | ippop/api/socks5/socks5.go:218-253 | a malformed login is rejected after 5 2 |
| Socks5Wire.RepliesOnWire | ippop/api/socks5/protocol.go:132-175 | replies are 5, code, 0, type 3, 1 or 4, address and port |
| Socks5Wire.RefusalOnWire | ippop/api/socks5/protocol.go:132-140 | a reply without an address carries 0.0.0.0:0 and reads back so |
| Socks5Wire.MappedAddressFolds | ippop/api/socks5/protocol.go:147-153 | an IPv4 address mapped into IPv6 counts as the IPv4 address |
| Socks5Wire.DatagramsOnWire | ippop/api/socks5/protocol.go:285-337 | 0 0, fragment, type, address, port and data are parsed into these parts, for each type |
| Socks5Wire.DatagramAddress | ippop/api/socks5/protocol.go:397-413 | the address of a received datagram is its IP address or name and its port |
| Socks5Wire.NewDatagramOnWire | ippop/api/socks5/protocol.go:354-371 | a new datagram to an IPv4 address is 0 0 0 1, address, port and data |
| UdpAssociations.StepKeepsInv | ippop/api/socks5/socks5.go:359-397 | every step of every association keeps counts, registrations, servers in use and ports in agreement |
| UdpAssociations.CountsExactly | ippop/api/socks5/userudpcount.go:15-40 | in every interleaving a user's count is the number of its live associations and is never stored as zero or less |
| UdpAssociations.ServersStayOpen | ippop/api/socks5/userudpcount.go:42-53 | a server used by a live association is never closed; a registered server implies a positive count; open servers have different ports |
| UdpAssociations.GateIsExact | ippop/api/socks5/udp.go:74-78 | a datagram passes exactly if its user has an association from its address |
| UdpAssociations.StraysCounted | ippop/api/socks5/socks5.go:369-383 | the open servers that nobody will close are as many as the registrations over another one |
| UdpAssociations.OpenAtRest | ippop/api/socks5/socks5.go:359-397 | with every association gone, no server is open exactly if no registration found one in place |
| UdpAssociations.OneServerPerUser | ippop/api/socks5/socks5.go:369-383 | if one user's creations never overlap, it has at most one open server, and none at count zero |
| UdpAssociations.OverlapLeaksServer | ippop/api/socks5/socks5.go:369-383 | a run of two overlapping creations that leaves a server open with no count and no registration |
| UdpAssociations.FailedListenEnds | ippop/api/socks5/socks5.go:369-377 | in every run an association whose listen failed can do nothing but leave, at any time, and then go |
| UdpAssociations.FailedListenUndone | ippop/api/socks5/socks5.go:359-377 | on its own it leaves counts, servers and registrations as it found them |
| UdpServers.Listen | ippop/api/socks5/udp.go:29-42 | the port is the lowest free one of the range, or there is none |
| UdpServers.UserUDPCount.Increment | ippop/api/socks5/userudpcount.go:15-21 | the count grows by one and is returned |
| UdpServers.UserUDPCount.Decrement | ippop/api/socks5/userudpcount.go:23-40 | the count shrinks; at zero, or if absent, the entry is removed and the user's server is stopped |
| UdpServers.UserUDPCount.StopUserUDPServer | ippop/api/socks5/userudpcount.go:42-53 | the registered server is closed and forgotten |
| UdpServers.UserIPCount.Decrement | ippop/api/socks5/useripcount.go:22-37 | the count shrinks, or the entry is removed at zero |
| UdpServers.HandleSocks5Associate | ippop/api/socks5/socks5.go:359-397 | an association on its own undoes all it did to both counts; a user without others is left without a server, one with others with the server it had or the one opened here |
| TrafficRuns.TrafficConserved | ippop/api/ws/tunmgr.go:318-343 | at every step, with adds during the flush, metered = pending + taken + in hand + saved + dropped modulo 2^64, and the record holds what was saved |
| TrafficRuns.ExactlyConserved | ippop/api/ws/usertraffic.go:14-41 | while the total fits 63 bits the equation is exact and no part is negative |
| TrafficRuns.NothingDropped | ippop/api/ws/tunmgr.go:325-341 | nothing is dropped of a user whose record is there when it is read |
| TrafficRuns.MeteredIsStored | ippop/api/ws/tunmgr.go:325-341 | then all that left the counters is in the record |
| TrafficRuns.SaveIsExact | ippop/api/ws/tunmgr.go:338-339 | a save adds exactly its traffic if and only if the stored counter is still the one that was read |
| UserTraffic.Counter.AddTraffic | ippop/api/ws/usertraffic.go:14-20 | the total returned is all that was added for the user since its counter was last taken, wrapped once; the call is the metering step of the state machine |
| UserTraffic.Counter.GetAndDelete | ippop/api/ws/usertraffic.go:22-29 | returns all that was added for one user since its counter was last taken, and takes no other |
| UserTraffic.Counter.SnapshotAndClear | ippop/api/ws/usertraffic.go:31-41 | the copying loop, in any order, returns for every user all that was added since its counter was last taken, and starts again; the call is the snapshot step |
| UserTraffic.Tick | ippop/api/ws/tunmgr.go:318-343 | one flush adds to the current traffic of each stored user all that was added for it since the flush before, if that is positive, and changes no other field and no other record |
| HttpDemux.OthersUntouched | ippop/httpproxy/tunnel.go:203-227 | messages of other requests never change a request |
| HttpDemux.RunTells | ippop/httpproxy/tunnel.go:121-227 | in every interleaving each request's output, connection and counters are exactly those of the headers and payloads it was told before it was complete or cut off |
| HttpDemux.ResponseIs | ippop/httpproxy/tunnel.go:121-227 | an undisturbed request delivers its own items up to the first that completes them, second headers included, and then is closed |
| HttpDemux.UntilIsFirst | ippop/httpproxy/tunnel.go:157-165 | the delivered items end with the first that completes the response |
| HttpDemux.NeedIsFirst | ippop/httpproxy/tunnel.go:218-224 | the payloads end with the first frame whose running total reaches the length |
| HttpDemux.OneHeaderExactly | ippop/httpproxy/tunnel.go:156-165 | header and own payloads up to that frame are what is delivered exactly if no second readable header comes before |
| HttpDemux.ResponseDelivered | ippop/httpproxy/tunnel.go:121-227 | such a request gets its header and its own payloads up to that frame, and is closed and forgotten exactly then; later headers change nothing |
| HttpDemux.ResponseIsFinal | ippop/httpproxy/tunnel.go:203-227 | a complete response is final, whatever follows |
| HttpDemux.HangupLeavesPrefix | ippop/httpproxy/tunnel.go:170-193 | hang-ups, error messages and the handler's end, at any point, leave a prefix of what would have been delivered |
| HttpDemux.HangupLeavesPart | ippop/httpproxy/tunnel.go:229-250 | with one header, that is a prefix of the header and the own payloads |
| HttpDemux.SecondHeaderMixesIn | ippop/httpproxy/tunnel.go:156-165 | a run in which a second header becomes part of the response and ends it |
| HttpDemux.HeaderAlone | ippop/httpproxy/tunnel.go:156-167 | a header of length zero is the whole response, whatever follows |
| HttpDemux.FrameFirst | ippop/httpproxy/tunnel.go:218-225 | a frame before any header is the whole response, whatever follows |
| HttpDemux.FrameOnWire | ippop/httpproxy/tunnel.go:203-216 | a frame names its request in its first 32 bytes and carries the rest; a shorter one is ignored |
| HttpDemux.EndedIsForgotten | ippop/httpproxy/tunnel.go:229-250 | in every run, once its handler has returned, a request stays unregistered, closed, and with the output it had |
| HttpTunnel.Tunnel.HandleClientResponseHeaders | ippop/httpproxy/tunnel.go:121-168 | header written, length noted, closed at length zero, as specified; it succeeds exactly for a registered request with a readable length and an open connection |
| HttpTunnel.Tunnel.HandleClientResponseErr | ippop/httpproxy/tunnel.go:170-193 | an error message closes the request it names |
| HttpTunnel.Tunnel.OnBinaryMessage | ippop/httpproxy/tunnel.go:203-227 | short frames and unknown ids are errors; others are counted, written, and end the response as specified |
| HttpTunnel.Tunnel.RegisterRequest | ippop/httpproxy/tunnel.go:229-234 | a new request is registered with an empty response |
| HttpTunnel.Tunnel.UnregisterRequest | ippop/httpproxy/tunnel.go:229-250 | the handler's end forgets the request and closes its connection |
| PopAllocation.RunKeepsInv | manager/internal/logic/getnodepoplogic.go:74-133 | in every run a node is in a pop's set exactly if the directory maps it there, and only the first pop of the default area exceeds its maximum |
| PopAllocation.KeepsPop | manager/model/node.go:10-30 | a node keeps its pop until it is deleted |
| PopAllocation.AskingAgain | manager/internal/logic/getnodepoplogic.go:75-89 | a known node asking again gets its own pop, and nothing changes |
| PopAllocation.RefusedExactly | manager/internal/logic/getnodepoplogic.go:101-132 | a new node is refused exactly if its area has no room and the default area no pop; it goes to a full pop only when its area has no room |
| PopAllocation.OwnAreaFirst | manager/internal/logic/getnodepoplogic.go:97-132 | a new node goes to the first pop of its own area with room, Hong Kong being an area and elsewhere the country, and only without one to the first pop of the default area; the directory notes exactly that |
| PopAllocation.NobodyLost | manager/model/node.go:10-49 | in every run the counts of the pops add up to the size of the directory |
| PopAllocation.FirstIsFirst | manager/internal/logic/getnodepoplogic.go:101-119 | the search finds the first pop that passes, if one does |
| PopService.AllocatePop | manager/internal/logic/getnodepoplogic.go:74-133 | the loops over pops and the store updates refine the specification |
| PopService.Redis.SetNodePop | manager/model/node.go:10-17 | directory and set are updated together |
| PopService.Redis.DeleteNode | manager/model/node.go:32-45 | the node leaves the directory and its pop's set |
| Decimal.PrintedIntParses | ippop/api/model/structmap.go:85-90 | every 64-bit integer is read back as printed |
| Decimal.ParsedIntPrints | ippop/api/model/structmap.go:85-90 | what parses prints as the same string exactly if the string is canonical |
| Decimal.BaseTen | ippop/api/model/structmap.go:35 | integers are written in base ten, most significant digit first, behind a minus sign if negative |
| Decimal.DigitsAreRead | ippop/api/model/structmap.go:85-90 | exactly non-empty strings of digits are natural numbers |
| Decimal.LeadingZero | ippop/api/model/structmap.go:85-90 | a plus sign or leading zeros make no difference |
| Decimal.WideIsRefused | ippop/api/model/structmap.go:85-90 | a number outside of 64 bits is refused |
| RecordMap.ReadFromIs | ippop/api/model/structmap.go:45-116 | a reading succeeds exactly if every field's does, and then sets each field to its own result |
| RecordMap.FieldKeys | ippop/api/model/structmap.go:27-66 | a field is written under its tag; with the tag "" or "-" it is not written and read by its name; an unexported one is neither |
| RecordMap.RoundTrip | ippop/api/model/structmap.go:15-116 | reading back a written record restores every tagged field and leaves the others, for any record shape with distinct keys |
| RecordMap.RoundTripExactly | ippop/api/model/structmap.go:59-62 | it does so on every record exactly if no untagged field bears the name of a tag |
| RecordStore.StructToMap | ippop/api/model/structmap.go:15-43 | the loop over the fields fills the specified map |
| RecordStore.MapToStruct | ippop/api/model/structmap.go:45-116 | the loop sets fields in place; an error leaves those before it set |
| RecordStore.SavedUserReadsBack | ippop/api/model/user.go:45-74 | reading a user's hash gives the user last saved, whatever the hash held before |
| RecordStore.SavedNodeReadsBack | ippop/api/model/node.go:36-108 | reading a node's hash gives back the stored fields, and leaves id and online flag alone |
| RecordStore.UserHashTexts | ippop/api/model/user.go:20-37 | a saved user's hash has name, digest and node under their tags |
| RecordStore.UserHashTraffic | ippop/api/model/user.go:22-29 | and period and traffic in decimal |
| RecordStore.UserHashRoute | ippop/api/model/user.go:32-42 | and route, limits and whether it is off |
| RecordStore.NodeHash | ippop/api/model/node.go:17-26 | a saved node's hash has its six stored fields under their tags and neither id nor online flag |

## Left out

- Lease handshake, keepalive and `clearProxys` (`ippop/api/ws/tunnel.go:365-448`): a link failure stops a queue for good, and reconnecting is a disconnect followed by a connect.
- The bodies of the session goroutines (`acceptSocks5TCPConn`, `createProxySession`, both `proxyConn` loops) appear as steps of a state machine, since other goroutines run between their statements; only the message handlers are also methods.
- Undecodable messages, control messages, and a destination address that cannot be decoded: the wire carries well-formed messages.
- UDP sessions in tunnels: only single datagrams, their entries in the session maps and that they never disturb TCP sessions, not which datagrams arrive over a whole run; rate limits, ping counters and delays.
- Redis, websocket and HTTP failures in the middle of an operation, key expiry and collisions of key names.
- Requests, failovers and cached lookups that overlap at the level of single Redis calls, beyond allocation: `PoolRuns` and `FrontEnd` run each as one step, and the `Exactly` lemmas about stale records say when a later write is harmless.
- Requests of one user that overlap: `PoolSplit` has one operation per user at a time, and a node in hand neither reconnects nor is named.
- Browser nodes of the HTTP proxy (`ippop/httpproxy/tunmgr.go:39-69`), which never leave the free set, and which tunnel a request picks.
- `SetNodeNetDelay` and the listing functions: they change no binding.
- Password hashing, tokens, IP allow and deny lists, name resolution, geolocation and the text form of addresses: `net.ParseIP` and `SplitHostPort` have already told addresses from names.
- The UDP server's forwarding of accepted datagrams; only its gate, its life time and its port are modelled.
- Counts of live associations, of received HTTP bytes and of pop members are unbounded integers; traffic counters wrap at 64 bits.
- Floating-point and time fields of records, and integers narrower than 64 bits.
- `getPodServer` and the access token fetched from the pop after allocation.
- PoolOrder.LongestFreeFirst: assumes that a node connects only while it is not online, because a live old tunnel is disconnected first (`ippop/api/ws/tunmgr.go:60-83`).
- PoolRuns.RunKeepsInv: assumes non-empty user and node names, because the code takes the empty name for "none"; `PoolRuns.EmptyNameBreaks` shows what happens otherwise.
- TrafficRuns.TrafficConserved: assumes that nobody else writes a record between the timer's read and save of it; `TrafficRuns.SaveIsExact` shows that this is what it takes.
- RecordStore.SavedNodeReadsBack: assumes that the hash has no entry named `Id` or `Online`; the program writes none.
