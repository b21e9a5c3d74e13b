# Verified models of the remote-SSH extension's core

The extension opens one SSH connection per remote, runs a small Go server on it, and speaks a binary
protocol to that server through a SOCKS forward. This project models the parts of it that carry a
protocol, a race or a refinement, and proves what those parts promise. `dafny verify dfyconfig.toml`
checks everything.

| file | models |
|---|---|
| `Basics.dfy` | chunk lists, splitting and joining, decimal numerals (shared lemmas) |
| `TunnelWire.dfy` | the wire format as printers and parsers |
| `TunnelServer.dfy` | the server's request reader and replies; SPAWN's two pumps and exit frame under a mutex |
| `TunnelClient.dfy` | the client's incremental parsers; server and client together |
| `ShellFraming.dfy`, `ShellQueue.dfy` | commands multiplexed over one shell: marker framing, queue, timeouts |
| `Socks5.dfy` | the SOCKS5 handshake and the CONNECT request (RFC 1928) |
| `TransportRefs.dfy`, `TransportAcquire.dfy`, `TransportTornDown.dfy` | reference counts of shared transports: whole operations, interleavings at awaits, and what an acquirer is handed |
| `ResolveLock.dfy` | the mkdir lock with stale reclaim, one system call at a time |
| `ConnectionMonitor.dfy` | single-flight, debounced probing with repair in place |
| `AskpassCache.dfy` | the encrypted, digest-keyed askpass cache against the history of its operations |
| `PathScope.dfy` | lexical path scoping and tar extraction targets |
| `ShellQuote.dfy` | quoting against the tokenizer of the POSIX Shell Command Language, one and two levels deep |
| `FolderHistory.dfy`, `CachePrune.dfy` | the recent-folder list; the size-capped cache |

An object the source updates in place is a class whose methods are proved against functions of its old
state. Goroutines, competing clients and suspended promises are state machines with one action for each
step others can come before; their theorems range over all legal runs. What the environment decides
(answers of probes, exit codes, clock readings, where a stream is cut) is an argument.

## Where the code and its own promises part

Each of these is a proved condition, or a lemma with the input that shows it:

- The resolve lock excludes two or more clients only while the longest hold plus the longest pause between
  `stat` and `time.Since` is at most `staleSec`: `ResolveLock.ExclusiveExactly`, counterexample
  `ResolveLock.OvertakenRun` with two clients.
- After a timeout, what the shell still owes for earlier commands is prepended to the next command's stdout,
  though it never changes its exit code. A command gets its own output exactly if nothing, or one harmless
  newline, was owed when it was written (`ShellQueue.OwnOutputExactly`).
- In tar extraction the check for `.` never applies, an entry with no more than N components is not stripped
  at all, and the final check refuses harmless names such as `..foo` (`PathScope.TarTarget`).
- A SPAWN exit code comes back modulo 2^32 (`TunnelEndToEnd.SpawnEndToEnd`).
- A SOCKS proxy of a wrong version is not refused at the byte that shows it: one byte of a selection, or three of
  a reply, are held without an answer (`Socks5.WrongAndPending`).
- A SOCKS host name of more than 255 bytes is announced with a wrapped length (`Socks5.BuildConnectRequest`).
- `bbExec` quotes its script and not the path of the shell, so the home must stand for itself: no blank, quote,
  operator, expansion or pattern character in it, and no leading `#` or `~` (`ShellQuoting.BusyboxLineExact`).
- The start-up wipe of the askpass database changes an answer exactly if some entry that opens under the key is
  still within its TTL and its key file unchanged (`AskpassCache.PersistentAskpassCache.WipeIfStale`); such an
  entry is younger than the file (`AskpassCache.WipeVisible`).
- An acquirer can be handed a transport that is torn down and not marked dead: exactly if somebody released the
  last reference while it probed or waited (`TransportTornDown.HandedTornDown`, an instance in
  `TransportTornDown.TornDownHanded`).
- Dispose leaves transports up: exactly those with references that never attached a flow and without a
  registration, be it that they had none or that another transport of their authority lost its last flow first
  and took the registration with it (`TransportRefs.Resolver.Dispose`).
- A reconnect on the session path unregisters the transport it has just registered, exactly if the flow it replaces
  was the last user of the old one (`TransportRefs.RegisteredAfterwards`, an instance in
  `TransportRefs.ReconnectUnregisters`).
- Reclaiming a stale lock is safe only while one client at a time is at it, even if every limit is met:
  `ResolveLock.SoloExclusiveExactly`, counterexample `ResolveLock.TwoReclaimersRun`.
- A resolve that gets a transport and then reuses the old flow, or fails, keeps its reference for good; the
  books of `TransportRefs.Run` count exactly these.

## Model

| member | source | states |
|---|---|---|
| Bytes.ReadPutU32 | go/tunnel/main.go:252-252 | reading the length field gives the value modulo 2^32, whatever follows it |
| Bytes.PutReadU32 | src/transport/client.ts:527-527 | every four bytes are the printing of exactly the number they read as |
| TunnelWire.NextPrint | go/tunnel/main.go:249-262 | a printed header-and-data block is read back with exactly what follows it left over |
| TunnelWire.PrintNext | src/transport/client.ts:524-537 | the parser accepts only what the printer writes; block and rest partition the bytes received |
| TunnelWire.NextStable | src/transport/client.ts:574-580 | once a block is complete, later bytes change neither it nor what was left after it |
| TunnelWire.PrintLayout | go/tunnel/main.go:249-262 | the layout byte by byte: a head, the length of the data in four bytes, most significant first, and the data |
| TunnelWire.NextStarts | src/transport/client.ts:524-537 | a block is read exactly from bytes that start with one so laid out |
| TunnelWire.RequestLayout | src/transport/client.ts:176-185 | a request header byte by byte: token, operation, length of the JSON and the JSON |
| TunnelWire.RequestRoundTrip | src/transport/client.ts:176-185 | reading inverts writing a request header, for any body after it; with the wrong token nothing is read |
| TunnelServer.Conn.ReadFull | go/tunnel/main.go:179-195 | the buffer is filled from segments cut anywhere exactly when enough bytes arrived, and none is lost |
| TunnelServer.Conn.HandleConn | go/tunnel/main.go:175-196 | the request is the one the parser finds in the whole stream, and the body is left unread |
| TunnelServer.Conn.WriteResp | go/tunnel/main.go:249-262 | a response is one printed block |
| TunnelServer.Conn.ReplyGet | go/tunnel/main.go:454-479 | GET answers an empty OK block followed by the raw file |
| TunnelServer.ServeRequest | go/tunnel/main.go:175-196 | a client's request cut into any segments reaches the handler, with exactly the body behind it |
| TunnelServer.Conn.StartSpawn | go/tunnel/main.go:337-370 | the one reply to SPAWN before any frame, byte by byte: bad request, error if the process does not start, or the empty OK block |
| TunnelServer.Conn.DoGet | go/tunnel/main.go:454-479 | GET byte by byte: bad request, denied, missing, or the OK block and the file |
| SpawnServer.InvRun | go/tunnel/main.go:372-411 | in every run of the pumps, wherever they are preempted, no byte of either stream is lost, repeated or reordered |
| SpawnServer.FramesNeverInterleave | go/tunnel/main.go:372-381 | at most one goroutine is inside `frame`; the wire is whole frames and at most one unfinished one, of the mutex holder |
| SpawnServer.WireOfFinishedRun | go/tunnel/main.go:391-411 | a finished run has sent every byte the pumps read, and the exit frame after all of them |
| SpawnServer.NeverStuck | go/tunnel/main.go:372-411 | no deadlock: every run can go on until the exit frame is sent and each pump that had not given up has read all there is |
| TunnelClient.ResponseReader.OnData | src/transport/client.ts:523-538 | the reader settles exactly when the bytes so far hold a whole response |
| TunnelClient.ResponseReader.Result | src/transport/client.ts:532-536 | what it resolves with is the response and the rest of those bytes |
| TunnelClient.DrainMore | src/transport/client.ts:573-595 | draining, then more bytes, then draining again is draining everything at once |
| TunnelClient.FrameReader.DrainBuffer | src/transport/client.ts:573-591 | the loop reports every complete frame up to an exit frame, in order, and keeps the rest |
| TunnelClient.FrameReader.ReadFrames | src/transport/client.ts:561-605 | what the callbacks get depends on the bytes and not on the chunks |
| TunnelClient.AwaitResponse | src/transport/client.ts:515-547 | for every chunking: status, body and rest are the first block of the stream and what follows it |
| TunnelClient.AwaitSpawn | src/transport/client.ts:470-483 | the outcome of a spawn is a function of the bytes received, for every chunking |
| TunnelClient.SpawnRefusals | src/transport/client.ts:470-485 | it is a refusal with a status exactly if the bytes start with a block of that status and the status is not OK; no response exactly if they start with no whole block |
| TunnelClient.AwaitUnstarted | src/transport/client.ts:515-547 | the same for every chunking, told by the layout of the block |
| TunnelClient.AwaitFile | src/transport/client.ts:388-405 | getFile returns body, rest and tail, which are all the bytes after the header; or the right failure |
| TunnelEndToEnd.SpawnEndToEnd | src/transport/client.ts:448-483 | for every schedule of the pumps and every chunking the client rebuilds both streams; the code is right exactly in 0..2^32-1 |
| TunnelEndToEnd.RefusedEndToEnd | src/transport/client.ts:470-485 | a SPAWN the server refuses, for a bad request or because the process does not start, ends in that refusal at the client, for every chunking |
| TunnelEndToEnd.DeliveredSoFar | src/transport/client.ts:561-605 | at every moment the client has true prefixes, and reports an exit only after the complete exit frame and every byte before it |
| TunnelEndToEnd.OutcomeInReach | src/transport/client.ts:448-483 | some continuation of every run brings the client an exit and all that pumps that had not given up could read |
| TunnelEndToEnd.OutcomeGrows | src/transport/client.ts:573-591 | more bytes only extend the two streams, and a reported exit or refusal is final |
| TunnelEndToEnd.GetEndToEnd | src/transport/client.ts:388-405 | getFile returns the file the server replied with, for every chunking |
| TunnelEndToEnd.GetAnswered | src/transport/client.ts:388-405 | for each of the server's answers to GET, what getFile makes of it |
| ShellFraming.ShellReader.OnData | src/ssh/localServer.ts:559-590 | the handler's result is the scan of everything received; once settled it ignores the rest |
| ShellFraming.ScanStable | src/ssh/localServer.ts:559-587 | later output never changes a result |
| ShellFraming.MarkerCodeExactly | src/ssh/localServer.ts:569-578 | only a line `marker:digits` announces a code, and it announces the number of its digits |
| ShellFraming.AwaitCommand | src/ssh/localServer.ts:537-604 | the result depends on the bytes and not on the chunks |
| ShellFraming.FramingExact | src/ssh/localServer.ts:494-513 | the caller gets the output (without its first character if that is a newline) and the exit code if and only if no line of the output is the marker, a colon and digits |
| ShellFraming.NothingEarly | src/ssh/localServer.ts:562-566 | no proper prefix of the reply yields a result |
| ShellQueue.NoncesFromIds | src/ssh/localServer.ts:498-503 | request ids of one length, all different, give markers that cannot be mistaken for one another |
| ShellQueue.QueueSafety | src/ssh/localServer.ts:524-604 | in every run with timeouts: submission order, one listener at most, and each command that settles gets its own exit code, and its own output after exactly what the shell still owed when it was written |
| ShellQueue.ExactWithoutTimeouts | src/ssh/localServer.ts:524-604 | in every run without a timeout each command that settles gets exactly its own output and code, and nothing is owed between commands |
| ShellQueue.OwnOutputExactly | src/ssh/localServer.ts:580-583 | the reported stdout is the command's own exactly if nothing, or one harmless newline, was owed when it was written |
| ShellQueue.NeverBlocked | src/ssh/localServer.ts:530-534 | the next command can start exactly when no listener is attached, and none is once its reply has arrived |
| ShellQueue.StdoutUntainted | src/ssh/localServer.ts:580-583 | late output leaves the reported stdout alone only if it is empty, or one newline before an output that does not start with one |
| Socks5.HandshakeStable | src/net/socks5.ts:80-138 | once failed or connected, more bytes change nothing |
| Socks5.ConsumesReply | src/net/socks5.ts:104-117 | a success reply (section 6 of RFC 1928), of each address type, connects and is consumed to its last byte, whatever follows |
| Socks5.ConnectedOnlyByReply | src/net/socks5.ts:80-117 | and the client connects on nothing else |
| Socks5.Client.ProcessGreeting | src/net/socks5.ts:80-90 | method selection: what is consumed, sent and refused |
| Socks5.Client.ProcessConnect | src/net/socks5.ts:92-138 | done exactly with a success reply, whose rest is handed over; each failure exactly for the bytes it means; otherwise waiting, exactly while the reply is incomplete |
| Socks5.RunHandshake | src/net/socks5.ts:140-155 | for every chunking: connected exactly if the bytes are a method selection, a success reply and what is delivered; each failure exactly for the bytes it means, a rejection for six bytes that start 5, 0, 5 and a code other than 0; a connection is still possible exactly while every byte is right, and after a failure it is not |
| Socks5.WrongAndPending | src/net/socks5.ts:80-99 | bytes that cannot lead to a connection any more are left pending only for want of the second byte of the selection or the fourth of the reply, and then fail |
| Socks5.WrongVersionHeld | src/net/socks5.ts:80-99 | two such inputs |
| Socks5.ParseIPv4 | src/net/socks5.ts:190-200 | an address is returned exactly for four parts that parse to octets, and it holds those octets |
| Socks5.QuadOctets | src/net/socks5.ts:190-200 | a dotted quad in the usual notation is sent as the address it denotes |
| Socks5.JsParseIntExactly | src/net/socks5.ts:195-196 | a text reads as a number exactly if it is white space, a sign or none, all the digits that follow, and anything |
| Socks5.BuildConnectRequest | src/net/socks5.ts:167-188 | the request byte by byte; a proxy decodes it to the address, or to the host name if and only if its UTF-8 form has at most 255 bytes |
| Utf8.EncodeInjective | src/net/socks5.ts:182-182 | the bytes sent for a host name are those of no other |
| Utf8.EncodeAppend | src/net/socks5.ts:182-182 | characters are encoded one after the other, in order |
| Utf8.EncodeAscii | src/net/socks5.ts:182-182 | ASCII text is encoded as itself |
| Utf8.EncodeLayout | src/net/socks5.ts:182-182 | the one to four bytes of a character, as section 3 of RFC 3629 lays them out |
| TransportRefs.KillConnectionGood | src/resolver/index.ts:2007-2042 | detaching a flow keeps every count right and tears down only an unused transport |
| TransportRefs.AttachGood | src/resolver/index.ts:611-635 | a flow attached for an acquired reference keeps every count right |
| TransportRefs.NeverTornDownInUse | src/resolver/index.ts:1920-1926 | a transport that is not dead and has a flow is not torn down |
| TransportRefs.RefsConserved | src/resolver/index.ts:1920-1926 | all references together are one for each connection and one for each acquire that attached no flow |
| TransportRefs.Resolver.AcquireTransport | src/resolver/index.ts:1578-1644 | a registered transport is reused exactly if it is not dead and answers its probe, and is otherwise dead and torn down; every other transport stays as it was; the authority is registered to what is handed out, or to nothing |
| TransportRefs.Resolver.ReleaseTransport | src/resolver/index.ts:1920-1926 | one reference less, and torn down and unregistered with the last |
| TransportRefs.HealthyAfterAcquire | src/resolver/index.ts:420-451 | acquiring a transport makes no unhealthy flow reusable, and a standalone one spoils none |
| TransportRefs.Resolver.ResolveFlow | src/resolver/index.ts:394-466 | the previous flow is reused exactly if it is healthy and answers; otherwise a new one takes its place, or none |
| TransportRefs.Resolver.Resolve | src/resolver/index.ts:312-363 | exactly when a flow is reused or attached and to which transport; which transports are dead, torn down and registered afterwards (a registered one not reused is dead and torn down, and but for the dropped flow's last use no other); that other keys are untouched; and when a reference stays without a flow |
| TransportRefs.Resolver.ResolveExecServer | src/resolver/index.ts:1501-1530 | the same for the exec server's key, which never reuses a flow and never leaves a reference behind |
| TransportRefs.RegisteredAfterwards | src/resolver/index.ts:1635-1640 | what an operation got is registered afterwards if and only if the flow it replaces was not the last user of another transport of that authority |
| TransportRefs.ReconnectUnregisters | src/resolver/index.ts:1920-1926 | two resolves with a transport's death in between end with a live transport in use that is not registered |
| TransportRefs.DetachStep | src/resolver/index.ts:1990-1995 | detaching one flow after the other: which transports went down so far, and which registrations with them |
| TransportRefs.Resolver.Dispose | src/resolver/index.ts:1990-2005 | no connection and no registration is left; exactly which transports are torn down and which stay up |
| TransportRefs.Run | src/resolver/index.ts:1578-1644 | every run of operations that do not overlap: for each call, exactly which transports it takes down and what it leaves registered; a registered transport that is dead or fails its probe is dead and torn down after the call unless a live flow was reused; no torn-down transport is registered; counts are kept, exactly the references of resolves that attached nothing leak, and no live transport in use was torn down |
| TransportAcquire.AcquireSafety | src/resolver/index.ts:1617-1643 | under every interleaving at the awaits at most one creation is in flight per authority, and every count is the number of owners |
| TransportAcquire.EveryStepTold | src/resolver/index.ts:1578-1644 | what each step of every run makes of the caller, the transports, the registration and the promises: a probe that answers gives the transport for one more reference; one that fails leaves it dead, and torn down unless a creation is in flight that the caller then joins; a creator registers what it made |
| TransportAcquire.Stays | src/resolver/index.ts:1617-1627 | over any run a caller keeps waiting for the creation it joined until its own await continues |
| TransportAcquire.SettledLater | src/resolver/index.ts:1635-1643 | what a creation came to never changes |
| TransportAcquire.JoinersShare | src/resolver/index.ts:1617-1643 | whoever awaits one creation, its creator among them, gets the same outcome however far apart they resume; each waiter for one more reference |
| TransportAcquire.HeldTogether | src/resolver/index.ts:1617-1643 | until one of them releases, any two of them hold the same transport, each worth one of its references |
| TransportAcquire.LastRelease | src/resolver/index.ts:1920-1926 | a release tears the transport down exactly when nobody else owns it |
| TransportTornDown.UprightRun | src/resolver/index.ts:1578-1644 | in every reachable state callers deal with transports of their own authority, and no registered one is torn down |
| TransportTornDown.TornDownStep | src/resolver/index.ts:1630-1633 | exactly which steps tear a transport down |
| TransportTornDown.HandedTornDown | src/resolver/index.ts:1594-1626 | an acquirer is handed a torn-down transport that is not dead exactly if a release emptied it during its probe or wait |
| TransportTornDown.TornDownHanded | src/resolver/index.ts:1594-1610 | a run in which that happens |
| ResolveLock.ExclusiveExactly | go/tunnel/zygos.go:214-235 | over all runs of any number of clients that unlock, at system-call granularity, no two hold the lock, if and only if hold and delay add up to at most the stale age or there are not two clients |
| ResolveLock.SoloExclusiveExactly | go/tunnel/zygos.go:223-233 | with holders that never unlock and are reclaimed from, live holders exclude each other under the same condition, if at most one client at a time is between its stat and its second mkdir |
| ResolveLock.TwoReclaimersRun | go/tunnel/zygos.go:225-230 | with two clients reclaiming at once this run ends with two holders, whatever the limits |
| ResolveLock.ReclaimWorks | go/tunnel/zygos.go:221-233 | an idle client that meets a directory over the stale age ends up with the lock |
| ResolveLock.OvertakenRun | go/tunnel/zygos.go:225-230 | otherwise this run of two clients ends with two holders |
| ResolveLock.GrantsSeparated | go/tunnel/zygos.go:214-245 | over any sequence of handler calls a lock is granted exactly if every earlier grant was unlocked since or is over the stale age; so two grants have a release or that age between them |
| ResolveLock.LockDir.DoLock | go/tunnel/zygos.go:214-235 | when the lock is granted |
| ResolveLock.LockDir.DoUnlock | go/tunnel/zygos.go:237-245 | unlocking always leaves no lock |
| ConnectionMonitor.ProbesApart | src/health/connectionMonitor.ts:200-207 | debounced probe starts are 15 s apart unless a repaired forward's close lies between |
| ConnectionMonitor.Monitor.TriggerProbe | src/health/connectionMonitor.ts:189-213 | exactly when a probe starts, and in which state |
| ConnectionMonitor.Monitor.SshAnswered | src/health/connectionMonitor.ts:215-298 | what an answer of the ssh probe leads to |
| ConnectionMonitor.Monitor.ForwardReady | src/health/connectionMonitor.ts:309-334 | port and process are replaced together |
| ConnectionMonitor.Monitor.ForwardClosed | src/health/connectionMonitor.ts:329-334 | a close re-probes at once exactly if that forward is still in use, the connection is not dead and no probe is running; the probe takes the forward for dead |
| ConnectionMonitor.Monitor.Tick | src/health/connectionMonitor.ts:178-183 | exactly when the periodic tick starts a probe, and which for its own two answers |
| ConnectionMonitor.Turn | src/health/connectionMonitor.ts:167-337 | what every turn of the event loop makes of each field of the monitor |
| ConnectionMonitor.DeadForGood | src/health/connectionMonitor.ts:189-191 | over any run: what is dead stays dead and starts no probe any more |
| ConnectionMonitor.ProbeWaits | src/health/connectionMonitor.ts:215-337 | over any run: a suspended probe stays where it is until the answer it waits for |
| ConnectionMonitor.ClosedForwardRepaired | src/health/connectionMonitor.ts:301-337 | over any run: a repaired forward in use that closes while no probe runs is replaced by a new one once ssh, the start and the port answer, whatever comes in between |
| ConnectionMonitor.Run | src/health/connectionMonitor.ts:167-337 | every run goes by such turns: one probe at most, port and process of one start, starts 15 s apart; and it is dead exactly if some turn gave up |
| AskpassPrompt.ParseKeyPathExact | src/ssh/askpassCache.ts:119-130 | the path is the text between the first two quotes after the first "for key", and nothing else is one |
| AskpassPrompt.IndexOfFirst | src/ssh/askpassCache.ts:119-130 | the place found is the first |
| AskpassPrompt.OpenSshPrompt | src/ssh/askpassCache.ts:113-117 | OpenSSH's prompt yields the key's path if and only if that path has no quote in it |
| AskpassCache.StandingAfter | src/ssh/askpassCache.ts:462-601 | the entry a prompt stands for, one operation at a time |
| AskpassCache.StandingExactly | src/ssh/askpassCache.ts:462-601 | it is the entry of a set that no later operation undid and no later get or sweep found over its TTL or its key file changed |
| AskpassCache.RejectedStaysAway | src/ssh/askpassCache.ts:474-492 | a rejected, evicted or cleared entry never comes back before the next set |
| AskpassCache.PersistentAskpassCache.Lookup | src/ssh/askpassCache.ts:462-495 | get answers from the plain map that the encrypted database stands for |
| AskpassCache.PersistentAskpassCache.Store | src/ssh/askpassCache.ts:497-536 | exactly when set stores, and what |
| AskpassCache.PersistentAskpassCache.Forget | src/ssh/askpassCache.ts:538-546 | evict takes one prompt out of the plain map |
| AskpassCache.PersistentAskpassCache.CollectExpired | src/ssh/askpassCache.ts:550-569 | the eviction list is exactly the entries that do not open or are not acceptable |
| AskpassCache.PersistentAskpassCache.SweepExpired | src/ssh/askpassCache.ts:548-586 | a sweep changes no answer at the instant it runs, and leaves only entries that open, are within their TTL and have their key file unchanged |
| AskpassCache.PersistentAskpassCache.ClearAll | src/ssh/askpassCache.ts:588-601 | the map is empty |
| AskpassCache.PersistentAskpassCache.RotateMasterKey | src/ssh/askpassCache.ts:392-427 | the map is empty under a new key |
| AskpassCache.PersistentAskpassCache.WipeIfStale | src/ssh/askpassCache.ts:319-331 | the wipe changes no answer if and only if every entry that opens is over its TTL or its key file has changed; so it does if no entry is younger than the file |
| AskpassCache.WipeVisible | src/ssh/askpassCache.ts:319-331 | an entry within its TTL with its key file unchanged is younger than the file and lost to the wipe |
| AskpassCache.PersistentAskpassCache.Init | src/ssh/askpassCache.ts:319-352 | initializing changes the answers the wipe changes and no other, unless the key is rotated; it leaves only such entries |
| AskpassCache.GetRefinesHistory | src/ssh/askpassCache.ts:462-495 | a hit is the latest set not since evicted, cleared, rotated away or rejected, within TTL and with its key file unchanged; and every such entry is a hit |
| GoPath.CleanIdempotent | go/tunnel/main.go:289-289 | cleaning a cleaned path changes nothing |
| GoPath.ComponentsSurviving | go/tunnel/main.go:289-289 | the components of a cleaned absolute path are exactly those that no later `..` undoes |
| GoPath.CleanLaws | go/tunnel/main.go:286-289 | `p/x/..`, `p/.` and `p/` clean to what p cleans to, and `/..` to `/` |
| PathScope.ScopeExact | go/tunnel/main.go:281-298 | a path is accepted exactly when the base's components are a prefix of where it leads; the result is that place, normalized |
| PathScope.UpEscapes | go/tunnel/main.go:281-298 | from a root, `..` and `../y` are refused, for every other name y than the root's own |
| PathScope.ResolveWrite | go/tunnel/main.go:272-279 | the first write root that accepts the path decides, and the result lies under it |
| PathScope.TarTarget | go/tunnel/zygos.go:294-311 | an entry lands at dest followed by its kept components; it is refused exactly if the first of them begins with two dots |
| PathScope.Extract | go/tunnel/zygos.go:283-350 | every entry up to the first refused one lands below dest |
| PathScope.DoExtract | go/tunnel/zygos.go:260-353 | every target lies below the write root that accepted the destination; exactly which requests are denied and which succeed |
| ShellWords.DenotesJoin | src/remote/execServer.ts:537-537 | pieces joined by blanks tokenize to all their words in order |
| ShellQuoting.QuoteDenotes | src/remote/shellQuote.ts:20-22 | any text, quoted, is one word of a line, verbatim |
| ShellQuoting.QuoteRoundTrip | src/remote/shellQuote.ts:20-22 | tokenizing the joined quotings of any list gives back that list |
| ShellQuoting.PushEnv | src/remote/execServer.ts:514-524 | refused exactly for a bad name; otherwise the assignments are read back as given |
| ShellQuoting.BuildCommand | src/remote/execServer.ts:508-538 | the line tokenizes to the vector that is meant, position by position: the environment, the shell that changes the directory, the command, the arguments |
| ShellQuoting.CdScriptRuns | src/remote/execServer.ts:525-532 | the script changes to the directory in `$0` and there runs the words in `$@`, each as it is |
| ShellQuoting.QuoteLayout | src/remote/shellQuote.ts:20-22 | the quoting itself: text between two quotes, and an escaped quote between two quoted texts |
| ShellQuoting.BusyboxLineExact | src/remote/busybox.ts:150-172 | for every home: the script reaches the shell verbatim exactly when each character of the unquoted home stands for itself, `#` and `~` included after the first |
| ShellQuoting.Misaligned | src/remote/shellQuote.ts:20-22 | quoted text read from outside its quotes never comes out as it was |
| ShellQuoting.TwoLevels | src/remote/busybox.ts:150-172 | what was quoted inside the script comes back out of the word the outer level yields |
| FolderHistory.RecentIsByRecency | src/remote/folderHistory.ts:83-99 | the unbounded list is the folders added and not removed since, latest first |
| FolderHistory.StoredRefinesRecent | src/remote/folderHistory.ts:88-120 | the stored list has no duplicates and at most twenty entries, is a prefix of the unbounded one, and its first twenty if nothing was removed |
| FolderHistory.StoredExactly | src/remote/folderHistory.ts:88-120 | with removals too: stored are exactly the folders added, not removed since, and among the twenty latest at every moment since |
| FolderHistory.StoredAfterRemove | src/remote/folderHistory.ts:106-120 | a removal takes out that folder of that remote, and leaves all others in their order |
| FolderHistory.StoredAfterAdd | src/remote/folderHistory.ts:90-95 | an addition puts the folder in front, from where it was or new; only the twenty-first then goes |
| FolderHistory.FolderHistoryManager.AddFolders | src/remote/folderHistory.ts:88-99 | every remote's list is the one its history of operations gives |
| FolderHistory.FolderHistoryManager.RemoveFolder | src/remote/folderHistory.ts:106-120 | true exactly if the folder was there; then its list closes the gap, and an empty list is forgotten |
| FolderHistory.FolderHistoryManager.GetFolders | src/remote/folderHistory.ts:123-126 | the list of that history |
| CachePrune.SortByTimeProps | src/remote/download.ts:287-287 | oldest first, ties as listed, nothing lost or invented |
| CachePrune.MaybePruneCache | src/remote/download.ts:273-296 | what is removed is the shortest oldest-first prefix that brings the rest under the cap; the total is the sum of what remains |

## Left out

- Sockets, ssh, child processes, HTTP, the VS Code API and logging: what they answer is a parameter, and write errors on a connection are not modelled.
- JSON request and response bodies: requests carry uninterpreted bytes.
- Order of Node's event loop: SOCKS leftover bytes are taken to be delivered before later socket data, the spawn callbacks to be attached before data arrives, and no data to fall between readResponse and readFrames.
- UTF-8 decoding chunk by chunk: shell output is a sequence of characters. Lone surrogates in a SOCKS host name.
- SPAWN's stdin half, heartbeats, EXEC, PUT, STAT and the server handlers beyond lock, unlock and extract.
- Liveness beyond freedom from deadlock: nothing says that a process ends, a probe answers or a pump is scheduled.
- TunnelServer.Conn.ReplyGet: a reply cut short by a write error is not modelled.
- SpawnServer.WireOfFinishedRun: bytes a pump had not read when its read failed are accounted for as unread, since the source drops them without a sign.
- ShellQueue.QueueSafety: supposes that nonces occur in no output; the shell is one stream, and its death is seen only by commands that start later.
- Timeout of the SOCKS handshake, and socket errors during it.
- TransportRefs.Resolver.Resolve: transports and flows are records under an index, not heap objects, so aliasing is by index.
- TransportRefs.Run: operations that overlap are not covered, because the source captures the previous flow before an await and can then release it twice; nor is one registered transport per authority after a reconnect claimed.
- TransportAcquire.AcquireSafety: covers acquire and release only; each caller releases once what it was given.
- Standalone transports in interleavings: their releases can unregister the shared transport of their authority, as `TransportRefs` has it for whole operations; the interleavings leave that out.
- ResolveLock.ExclusiveExactly: only holders unlock, and do (ResolveLock.SoloExclusiveExactly drops that), holders meet the limit, clocks of server and file system agree, and mkdir and removal fail for no other reason.
- ConnectionMonitor.Monitor.TriggerProbe: callers that join a running probe do not wait in the model, since nothing follows their wait but the next timer.
- AskpassCache.PersistentAskpassCache.Store: ssh-keygen's verdict is a parameter; database write errors, HKDF and token comparison are not modelled, encryption and digest are ideal.
- AskpassCache.PersistentAskpassCache.Init: one instant, and calls that arrive while the database file is loading are not modelled.
- AskpassCache.PersistentAskpassCache.RotateMasterKey: the new key is a parameter and the file's removal is taken to succeed; two windows rotating at once are not modelled.
- Symbolic links, the physical file system and Windows paths: paths are lexical, and Clean, Join and Rel follow their documentation for Unix.
- PathScope.Extract: says where entries go, not what is written; archive and file system errors end the real loop earlier.
- Link targets of symlink entries, which the server writes as they stand.
- ShellWords.Tokenize: has no result for operators, expansions, comments and characters that can begin a pattern, so commands that use them are covered only as quoted text. Which words are assignments or reserved words is not told, nor tilde expansion inside an assignment.
- ShellQuoting.BusyboxLineExact: a `[` counts as beginning a pattern even where no `]` closes it, and what a `*` or `?` would match is up to the file system; blanks are space and tab.
- ShellQuoting.BuildCommand: `options.env` keeps the order its entries are listed in.
- FolderHistory.StoredRefinesRecent: the store is taken to be empty at first.
- CachePrune.MaybePruneCache: removal of an index entry is taken for removal of its bytes; in the source the content stays until it is collected.
- Polling of the session process, release feeds, the local server's reference count and shutdown timer, and the lifecycle shell scripts.
