# conwatch, modelled and proved in Dafny

conwatch watches the kernel's link events and runs one tray monitor per interface; each monitor
pings a target once a second and shows a coloured icon. This project models both programs in Dafny
4.11 and proves what they keep over whole runs. `dafny verify dfyconfig.toml` checks everything.

## The parts

* **The watcher.** `Processes.dfy` is the kernel's view of child processes: recycled pids, zombies,
  one pending SIGCHLD bit, and a birth number for each child so that two children with the same pid
  stay apart. `WatcherModel.dfy` is the watcher as a state machine over events (a link callback with
  what fork() would return, a child's exit, each result of waitpid() and read()).
  `ProcessManager.dfy` and `Watcher.dfy` hold the classes with the two process maps and the
  interface table, updated in place; each method is proved to take steps of that machine, which a
  ghost trace records, against an operating system (`OperatingSystem.dfy`) that chooses arbitrarily.
  `WatcherRuns.dfy` proves properties of every run.
* **The netlink parsers.** `Netlink.dfy` has the wire format, decoding and encoding with arbitrary
  padding and trailing bytes; `LinkMessages.dfy` the link-event parser and `GatewayResolver.dfy` the
  default-route parser, both over byte arrays. Array indexing makes every read a proved bound.
* **The ping monitor.** `ProtoTrack.dfy` is one protocol's machine (v4 and v6 run the same code
  with other calls), `ProtoRuns.dfy` its whole-run properties, `Display.dfy` the uncached tray
  contents, `StatusReading.dfy` what its text tells, `PingMonitor.dfy` the object with its caches.
* **ICMP.** `InternetChecksum.dfy` proves the checksum loop against RFC 1071 (sections 1 to 3 and
  4.1); `Icmp.dfy` builds the Echo requests of RFC 792 and RFC 4443 and matches replies.

`Bytes.dfy`, `Options.dfy` and `Sockets.dfy` are shared: little-endian loads, std::optional, and a
socket as the datagrams that will still arrive.

## Results worth knowing

* `Checksum` is right **exactly when** the buffer's little-endian words total less than 2^32: every
  buffer up to 131074 bytes, and not every one of 131075. Storing it verifies for the all-zero packet as well.
* `worstSeverityOf` shows blue before yellow, whereas the rule list of the repository's README.md
  (lines 14 to 34) puts yellow first. The model follows the code; `Display.DocumentedUnlessMixed`
  says exactly when the two differ and `Display.MixedExample` gives such a pair of tracks.
* `stopAll` stops after 200 reaps. With at most 200 unreaped children its maps always end empty;
  `WatcherRuns.LeftoverExact` proves that with more, and only then, a tracked child can be left behind,
  and `WatcherRuns.LeftoverExample` builds the run with 201 interfaces that does it.
* `handleMessage` keeps the remaining length in a `size_t`. The counter is exact precisely when
  each message's padding lies inside the batch (`Netlink.SizeMinusExact`), which `HandleMessage`
  requires; every batch whose length is a multiple of 4 is of that kind (`Netlink.AlignedIsPadded`).
  `scanBatch` counts in a signed type and needs no such condition.
* Each call whose answer matters is tied to the model: the kernel model counts the calls of fork()
  and kill(), and each protocol keeps a log of its calls with their answers, which every tick extends
  by exactly `ProtoTrack.CallsIn`.
* The nine icons are exactly those that some run of some monitor shows (`Display.ShownKeys`).

## What is assumed of the outside

A link message has its `ifinfomsg` and an IFNAME payload has at least its NUL; a route message has
its `rtmsg` and an OIF payload at least four bytes. fork() never returns the pid of an unreaped child,
waitpid() returns any exited child, and a blocking waitpid() that returns has waited for one to exit.
A child's exit can be seen by the watcher only through waitpid(), the signalfd and poll(), so the
classes let children exit at those calls; in the state machine they exit at any step.
poll() is a list of wakeups followed by a failure, and finitely many SIGTERM and SIGINT arrive.

## Model

| member | source | states |
|---|---|---|
| InternetChecksum.Checksum | src/conwatch-tray/ping_monitor_addr.cpp:6-17 | for any C `int` length the wrapping loop and two folds give the complement of the RFC 1071 sum iff the words total below 2^32; 0xFFFF for no bytes |
| InternetChecksum.FoldIsCanonical | src/conwatch-tray/ping_monitor_addr.cpp:14-16 | two folds of any 32-bit sum lose no carry |
| InternetChecksum.NoOverflowUpTo131074 | src/conwatch-tray/ping_monitor_addr.cpp:9-13 | no buffer of at most 131074 bytes overflows the accumulator |
| InternetChecksum.OverflowAt131075 | src/conwatch-tray/ping_monitor_addr.cpp:9-13 | the bound is tight: some buffer one byte longer overflows |
| InternetChecksum.ByteOrderIndependence | src/conwatch-tray/ping_monitor_addr.cpp:8-13 | the little-endian sum is the byte-swapped network-order sum, odd lengths included |
| InternetChecksum.WorkedExample | src/conwatch-tray/ping_monitor_addr.cpp:6-17 | the sum is that of the worked example in section 3 of RFC 1071, and of the same with an odd byte more |
| InternetChecksum.StoredFieldVerifies | src/conwatch-tray/ping_monitor_socket4.cpp:51-52 | a value stored in a zeroed even field makes a non-zero packet verify iff it is the checksum, up to the two zeros |
| InternetChecksum.SelfVerifying | src/conwatch-tray/ping_monitor_socket4.cpp:51-52 | storing the checksum makes the packet sum to all ones in either byte order, for every packet |
| Icmp.BuildPing4 | src/conwatch-tray/ping_monitor_socket4.cpp:42-52 | the 24 bytes filled in place are type 8, code 0, this id and number and the fill bytes, with a checksum that makes the network-order sum all ones; the counter goes up by one modulo 65536 |
| Icmp.BuildPing6 | src/conwatch-tray/ping_monitor_socket6.cpp:44-54 | the ICMPv6 request likewise, of type 128, with the checksum field left zero |
| Icmp.ReplyAccepted4 | src/conwatch-tray/ping_monitor_socket4.cpp:58-67 | behind an IP header of any length a message of any type, code, id, number and payload is accepted iff its type is 0 and the id is this process's |
| Icmp.ShortRejected4 | src/conwatch-tray/ping_monitor_socket4.cpp:62-63 | a datagram with less than 8 bytes behind the header it announces is rejected |
| Icmp.ReplyAccepted6 | src/conwatch-tray/ping_monitor_socket6.cpp:78-85 | without an IP header, a message of any type is accepted iff its type is 129 and the id is this process's |
| Icmp.ShortRejected6 | src/conwatch-tray/ping_monitor_socket6.cpp:80-81 | fewer than 8 bytes are rejected |
| Icmp.RecvReply | src/conwatch-tray/ping_monitor_socket4.cpp:79-86 | true iff some datagram before the timeout (or an empty one) is an accepted reply; just the datagrams up to it are taken |
| Icmp.NoiseSkipped | src/conwatch-tray/ping_monitor_socket4.cpp:77-86 | rejected datagrams before a reply are skipped and what lies behind it stays unread; without an accepted one there is no reply |
| Netlink.AttrsRoundTrip | src/watcher/netlink.cpp:72 | the RTA_OK/RTA_NEXT walk yields `attrs` iff the bytes are an encoding of `attrs`, with any padding and any trailing bytes |
| Netlink.MessagesRoundTrip | src/watcher/netlink.cpp:90 | the same for the NLMSG_OK/NLMSG_NEXT walk over messages |
| Netlink.MessageLayout | src/watcher/netlink.cpp:90 | the encoding byte by byte: 4 bytes of length with the 16 of the header, 2 of type, 10 others, the body |
| Netlink.AttrLayout | src/watcher/netlink.cpp:72 | likewise: 2 bytes of length with the 4 of the header, 2 of type, the payload |
| Bytes.LittleEndian | src/conwatch-tray/ping_monitor_addr.cpp:8-13 | what 16-bit, 32-bit and signed loads read, byte by byte |
| Netlink.AlignedIsPadded | src/watcher/netlink.cpp:90 | a batch length divisible by 4 keeps each message's padding inside the batch |
| Netlink.SizeMinusExact | src/watcher/netlink.cpp:90 | the unsigned remaining length equals the bytes left iff the padding is inside |
| LinkMessages.UpExact | src/watcher/netlink.cpp:83-86 | up iff IFF_UP, IFF_RUNNING and IFF_LOWER_UP are all set, for every value of the other flags |
| LinkMessages.ExtractIfName | src/watcher/netlink.cpp:69-81 | the loop returns the first IFNAME attribute without its NUL, empty without one |
| LinkMessages.FirstNameWins | src/watcher/netlink.cpp:73-76 | later IFNAME attributes do not matter, and no other attribute names an interface |
| LinkMessages.HandleMessage | src/watcher/netlink.cpp:88-108 | for a batch with its padding, link messages holding an ifinfomsg and names their NUL, the callbacks are those of the decoded messages in order; on any encoding of described messages they are exactly the events of these; no read leaves the batch and both loops terminate |
| LinkMessages.LinkRoundTrip | src/watcher/netlink.cpp:88-108 | in any encoding a message of type 16 with a name gives a change, one of type 17 a removal, and any other or nameless one nothing, in order, whatever attributes and padding |
| LinkMessages.LinkStreamRoundTrip | src/watcher/netlink.cpp:110-121 | the same for messages spread over batches, with anything arriving behind |
| LinkMessages.ProcessPendingMessages | src/watcher/netlink.cpp:110-121 | the callbacks are those of the whole stream up to the first failed or empty receive, however it is cut into batches, and nothing behind it is taken |
| GatewayResolver.ScanAttributes | src/shared/gateway_resolver.cpp:92-105 | the overwriting loop ends with the last OIF and the last GATEWAY attribute |
| GatewayResolver.Resolver.FormatGateway | src/shared/gateway_resolver.cpp:113-124 | an address is accepted iff it has 4 bytes for family 2 or 16 for family 10 |
| GatewayResolver.Resolver.ParseDefaultRouteGateway | src/shared/gateway_resolver.cpp:86-111 | on any encoding of a route's attributes returns g iff they name g (see RouteRoundTrip) |
| GatewayResolver.RouteRoundTrip | src/shared/gateway_resolver.cpp:86-124 | an encoded message names gateway g iff it has type 24, the family, prefix length 0, its last attribute of type 4 is the interface, and its last one of type 5 is g, 4 bytes long for family 2 or 16 for family 10 |
| GatewayResolver.RouteWellFormed | src/shared/gateway_resolver.cpp:88-100 | what the parser asks of a message: an rtmsg, and four bytes in each OIF |
| GatewayResolver.RouteDelivered | src/shared/gateway_resolver.cpp:51-124 | a dump whose last default route before its end names g, cut into batches anywhere, makes the answer g |
| GatewayResolver.PermutationInvariance | src/shared/gateway_resolver.cpp:97-105 | with at most one OIF and one GATEWAY any permutation and re-padding of the attributes gives the same answer |
| GatewayResolver.Resolver.ScanBatch | src/shared/gateway_resolver.cpp:66-84 | the batch's last gateway before DONE or ERROR, and whether one of these occurs, for a batch of any length |
| GatewayResolver.Resolver.Drain | src/shared/gateway_resolver.cpp:51-64 | the answer is that of the flattened stream of all received messages, and the batch with the end of the dump is the last one taken |
| GatewayResolver.BatchIndependence | src/shared/gateway_resolver.cpp:51-84 | any two inboxes that carry one dump, cut anywhere between messages and with anything behind its DONE or ERROR, give the answer of its messages alone |
| GatewayResolver.StreamGatewayIsLast | src/shared/gateway_resolver.cpp:77-81 | that answer is the last default gateway before the first message of type 2 or 3, none iff there is no such message |
| GatewayResolver.DumpEnds | src/shared/gateway_resolver.cpp:70-73 | the first message of type 2 (ERROR) or 3 (DONE) ends the dump: the answer is that of the messages before it |
| GatewayResolver.UndrainedExact | src/shared/gateway_resolver.cpp:51-64 | what stays unread is what lies behind the first batch that is empty or holds a message of type 2 or 3 |
| ProcessManager.Manager.Start | src/watcher/process_manager.cpp:8-50 | both maps and the kernel, with its count of fork() calls, take the model's start step: one fork for an untracked interface, none for a tracked one, and a failed one changes no map |
| ProcessManager.Manager.Stop | src/watcher/process_manager.cpp:52-65 | one SIGTERM to the tracked child and both entries gone, nothing else |
| ProcessManager.Manager.ReapExited | src/watcher/process_manager.cpp:67-78 | a legal sequence of exits and reaps that ends with no exited child left, and terminates while children go on exiting |
| ProcessManager.Manager.StopAll | src/watcher/process_manager.cpp:80-101 | SIGTERM to all tracked children, then a legal sequence of at most 200 reaps, after which both maps are empty if there were at most 200 children, and otherwise exactly 200 were reaped if they are not |
| Watcher.Watcher.StartIfEligible | src/watcher/watcher_iface_state.cpp:47-58 | the start step is taken under an eligible name, and without one fork() is not called |
| Watcher.Watcher.OnChange | src/watcher/watcher_iface_state.cpp:17-45 | the object takes exactly the model's change step, calling fork() once iff the interface newly comes up under an eligible name |
| Watcher.Watcher.OnRemoved | src/watcher/watcher_iface_state.cpp:60-68 | the object takes exactly the model's removal step |
| Watcher.Watcher.HandleSignals | src/watcher/watcher.cpp:76-85 | afterwards no SIGCHLD is pending and no exited child unreaped, and the exit flag is set iff it was or a SIGTERM or SIGINT was read; no callback runs |
| Watcher.Watcher.HandleWakeup | src/watcher/watcher.cpp:69-72 | the callbacks of a wakeup run first, then its signals are handled, after which no exited child is left |
| Watcher.Watcher.AfterWakeup | src/watcher/watcher_iface_state.cpp:17-68 | from received bytes to tables: if the last message about an interface was of type 17 it has neither state nor child, and if of type 16 its state is that name and whether it is up |
| Watcher.Watcher.Poll | src/watcher/watcher.cpp:54-74 | the callbacks run are those of the wakeups handled, in order; all wakeups are handled unless a SIGTERM or SIGINT was read, which happens at the last one handled; after a wakeup with signals no exited child is left |
| Watcher.Watcher.Run | src/watcher/watcher.cpp:16-32 | wakeups are handled, with just their callbacks, until a SIGTERM or SIGINT is read; afterwards no foreign process was signalled, no child twice, every child ever forked was sent SIGTERM or reaped, fork() was called once for each eligible up-episode, and up to 200 children both maps are empty |
| Watcher.Watcher.KnowsLastCall | src/watcher/watcher_iface_state.cpp:19-23 | from received bytes to table: an interface's entry is the last callback about it |
| WatcherModel.RunInv | src/watcher/process_manager.hpp:10-52 | the invariant of all maps, the kernel and the loop's phase holds after every legal run |
| WatcherRuns.IfacesAreLastLinks | src/watcher/watcher_iface_state.cpp:17-68 | an interface's state is given by the last netlink event about it alone |
| WatcherRuns.TrackedIsLaunched | src/watcher/watcher_iface_state.cpp:17-68 | an interface is tracked with pid p under a name iff its current eligible up-episode under that name began with a fork returning p that has not been reaped |
| WatcherRuns.PidSafety | src/watcher/process_manager.cpp:47-60 | kill only hits unreaped children of the watcher and a forked pid is never a key already |
| WatcherRuns.MapsInverse | src/watcher/process_manager.cpp:48-49 | the two maps are mutually inverse after every run |
| WatcherRuns.ChildConservation | src/watcher/process_manager.cpp:8-101 | every child is exactly one of tracked, detached or reaped, and a detached one was sent SIGTERM |
| WatcherRuns.LateReapIsHarmless | src/watcher/process_manager.cpp:67-78 | a stopped child is never tracked again, so reaping it late leaves its replacement in the table |
| WatcherRuns.NoExitLost | src/watcher/watcher.cpp:54-85 | at every return to poll() an exited child implies a pending SIGCHLD |
| WatcherRuns.StartGuardNeverFires | src/watcher/process_manager.cpp:16-18 | whenever a change starts a child, the interface is not tracked at that moment |
| WatcherRuns.ForkPerEpisode | src/watcher/watcher_iface_state.cpp:17-58 | over any run fork() is called exactly once for each time an interface newly comes up under an eligible name |
| WatcherRuns.OneTermEach | src/watcher/process_manager.cpp:52-84 | over any run kill() is called as often as there are children told to stop: never twice for one child |
| WatcherRuns.ReplayIsNoOp | src/watcher/watcher_iface_state.cpp:38-39 | delivering again the last state of known interfaces in any order changes no map and sends no signal |
| WatcherRuns.NoOrphans | src/watcher/watcher.cpp:28-31 | after shutdown every child ever forked was sent SIGTERM or reaped |
| WatcherRuns.ShutdownBound | src/watcher/process_manager.cpp:86-100 | at most 200 reaps; at most 200 children at the start means empty maps; non-empty maps mean exactly 200 reaps |
| WatcherRuns.WaitsWhileTracked | src/watcher/process_manager.cpp:88 | stopAll waits for a child only while something is tracked |
| WatcherRuns.LeftoverExact | src/watcher/process_manager.cpp:86-100 | when stopAll starts waiting, some continuation finishes with a tracked child iff one is tracked and more than 200 children are unreaped |
| WatcherRuns.LeftoverExample | src/watcher/process_manager.cpp:88 | 201 interfaces coming up and a shutdown are such a run, from the start |
| WatcherRuns.NoEarlyEchild | src/watcher/process_manager.cpp:96-97 | ECHILD cannot end the loop while something is tracked |
| ProtoTrack.Proto.OpenSocket | src/conwatch-tray/ping_monitor_socket4.cpp:12-28 | the old descriptor is closed once and the new one, if any, is the only one held |
| ProtoTrack.Proto.MaybeRecheckLocalAddress | src/conwatch-tray/ping_monitor_tick.cpp:20-30 | the track becomes the model's recheck of it, with the answer of the one call of ifaceHasAddress when one is due, and without a call otherwise |
| ProtoTrack.Proto.CheckGateway | src/conwatch-tray/ping_monitor_tick.cpp:38-72 | the track becomes the model's gateway check of it on the answers logged: the route found is the one kept, reachability is the ping's answer, and no other call is made |
| ProtoTrack.Proto.Tick | src/conwatch-tray/ping_monitor_tick.cpp:74-110 | the track becomes the model's tick of it on the answers logged; the calls made, in order and with their arguments and answers, are the model's, as are socket() calls and descriptors |
| ProtoTrack.TickOk | src/conwatch-tray/ping_monitor.hpp:67-81 | the track's invariant, on which the display rules rest, survives every tick |
| ProtoRuns.StreakAndReopenings | src/conwatch-tray/ping_monitor_tick.cpp:80-87 | over any run failStreak is the trailing run of losses and reopenings are the sum of floor(length / 10) over all maximal loss runs |
| ProtoRuns.BlueExact | src/conwatch-tray/ping_monitor_tick.cpp:129-134 | blue iff active, at least the last ten pings lost, and the gateway answered in this tick |
| ProtoRuns.TenthLossAsksAnew | src/conwatch-tray/ping_monitor_tick.cpp:83-87 | on every tenth loss the socket is replaced first and the gateway is asked by the new one |
| ProtoRuns.DisabledNeverBlue | src/conwatch-tray/ping_monitor_tick.cpp:40-43 | a disabled gateway check never shows blue |
| ProtoRuns.RouteLookups | src/conwatch-tray/ping_monitor_tick.cpp:44-48 | fixed and disabled gateways never look up a route; automatic ones do once, iff some loss run reached ten |
| ProtoRuns.OnlyKnownPinged | src/conwatch-tray/ping_monitor_tick.cpp:74-110 | over any run nothing is pinged but the target and the one gateway, the configured one in fixed mode and none in disabled mode |
| ProtoRuns.AnsweredIsShown | src/conwatch-tray/ping_monitor_tick.cpp:111-134 | a protocol is healthy or blue after a tick iff the tick's last call was an answered ping, of the target or of the gateway respectively |
| ProtoRuns.RunNumbers | src/conwatch-tray/ping_monitor_tick.cpp:20-48 | the address checks and route lookups in the log of any run are as many as its ticks' effects say |
| ProtoRuns.GatewayAddress | src/conwatch-tray/ping_monitor.cpp:64-72 | the gateway is the configured one in fixed mode, none before the lookup, and the lookup's answer ever after |
| ProtoRuns.GatewayKept | src/conwatch-tray/ping_monitor_tick.cpp:44-48 | a resolved gateway is never replaced |
| ProtoRuns.RecheckSchedule | src/conwatch-tray/ping_monitor_tick.cpp:20-30 | addresses are asked for on ticks 1, 12, 23, ... until one is found and never otherwise; until then the streak is 0; a found address stays |
| ProtoRuns.RecheckCount | src/conwatch-tray/ping_monitor_tick.cpp:24-29 | a search for an address that took n ticks asked floor((n + 10) / 11) times, and nothing is asked after it |
| ProtoRuns.UnconfiguredIsIdle | src/conwatch-tray/ping_monitor_tick.cpp:77-78 | a protocol without a target never changes and never asks for an address |
| Display.SnapshotDeterminesRender | src/conwatch-tray/ping_monitor_tick.cpp:141-145 | the compared tuple determines colour, glyph and text |
| Display.OnlyKeysShown | src/conwatch-tray/ping_monitor_status_text.cpp:22-56 | only nine pairs of colour and glyph are shown on tracks that keep the invariant |
| Display.KeysAreNine | src/conwatch-tray/ping_monitor_icon.cpp:71-75 | they are nine |
| Display.EveryKeyShown | src/conwatch-tray/ping_monitor_status_text.cpp:22-56 | for each of them there is a run of both protocols that shows it |
| Display.ShownKeys | src/conwatch-tray/ping_monitor_icon.cpp:71-75 | a pair is shown on some run iff it is one of the nine |
| Display.ScriptTrack | src/conwatch-tray/ping_monitor_tick.cpp:74-92 | every streak is reached by as many losses, and the gateway counts from the tenth on |
| Display.GlyphExact | src/conwatch-tray/ping_monitor_status_text.cpp:20-33 | the glyph names exactly the protocols reaching target or gateway; yellow and red have none, blue has one |
| Display.RedExact | src/conwatch-tray/ping_monitor_status_text.cpp:35-56 | red iff some protocol is active and every active one has ten losses and no gateway |
| Display.DocumentedUnlessMixed | README.md:14-34 | the code's colour is the documented one iff it is not the case that one protocol is in its first nine losses while the other reaches only its gateway |
| Display.MixedExample | src/conwatch-tray/ping_monitor_status_text.cpp:49-52 | a run reaches two tracks on which code and documentation differ |
| StatusReading.StatusTellsTracks | src/conwatch-tray/ping_monitor_status_text.cpp:58-79 | two status texts under one caption are equal iff they stand for the same active protocols with the same losses and gateway flags: nothing shown is ambiguous or lost |
| StatusReading.PartTells | src/conwatch-tray/ping_monitor_status_text.cpp:58-66 | a protocol's part of the text determines its losses and gateway flag |
| StatusReading.StatusSays | src/conwatch-tray/ping_monitor_status_text.cpp:58-79 | the text word for word, the losses being the decimal numeral of the streak |
| PingMonitor.PingMonitor.IconFor | src/conwatch-tray/ping_monitor_icon.cpp:76-93 | the icon is the painted one, it is painted only if not cached, and cached then |
| PingMonitor.PingMonitor.SetIcon | src/conwatch-tray/ping_monitor_icon.cpp:95-102 | after the call the tray shows the painted icon; it was given one iff colour or glyph changed |
| PingMonitor.PingMonitor.ApplyStatus | src/conwatch-tray/ping_monitor_status_text.cpp:81-92 | menu and tooltip both show the status; the tooltip was set iff the text changed |
| PingMonitor.PingMonitor.RenderTray | src/conwatch-tray/ping_monitor_status_text.cpp:6-18 | the tray equals an uncached render, also from the initial sentinels |
| PingMonitor.PingMonitor.constructor | src/conwatch-tray/ping_monitor.cpp:14-34 | targets, gateways and caption are those given; the tray is coherent and the sockets accounted for before the first tick |
| PingMonitor.PingMonitor.Tick | src/conwatch-tray/ping_monitor_tick.cpp:136-146 | after every tick the tray equals an uncached render of the current tracks, and got an icon, tooltip or menu text only when the icon, the text or the compared tuple changed; the glyph names the protocols whose last call was an answered ping; an address is asked for iff the tick is the 1st, 12th, 23rd, ... of a configured protocol that has found none |
| PingMonitor.PingMonitor.Run | src/conwatch-tray/ping_monitor.cpp:31-33 | the same after any number of ticks |
| PingMonitor.PingMonitor.WholeLife | src/conwatch-tray/ping_monitor_tick.cpp:20-110 | at any time each protocol made floor((n + 10) / 11) address checks in its search, one route lookup iff it is automatic and some loss run reached ten, and pinged only its target and gateway |
| PingMonitor.PingMonitor.WholeRun | src/conwatch-tray/ping_monitor_icon.cpp:71-75 | at any time at most nine icons were painted, socket() was called once per configured protocol plus the reopenings due, and the open descriptors are the two sockets |
| PingMonitor.PingMonitor.PaintedOnce | src/conwatch-tray/ping_monitor_icon.cpp:71-93 | the icons painted are the different ones its run has shown, each once, in the order of first appearance |

## Left out

- System calls, configuration files, DNS and getifaddrs: replaced by arbitrary results at their call sites; socket options and send errors are part of an unanswered ping.
- Option lookup per interface and the child's argument vector: one-branch lookups; eligibility is an arbitrary predicate on names.
- Drawing: an arbitrary function of severity and glyph, the interface tag being fixed for a process.
- Text of addresses: inet_pton and inet_ntop are not modelled; a gateway is its address bytes in the resolver and an opaque string in the monitor.
- resolve() and sendRequestAndDrain(): opening the route socket and sending the request, with early returns on failure.
- applyGatewayOverride's parsing of the configuration text, shortIfaceTag and resolveInitialTargets: short string and option handling.
- Netlink.SizeMinusExact: stated for messages that pass NLMSG_OK in batches below 2 GiB, the receive buffer being 8192 bytes.
- ProtoTrack.Proto.Tick: counts losses without the 2^31 limit of `int`, which takes 68 years of consecutive losses.
- ProcessManager.Manager.StopAll: a blocking waitpid() that never returns is a call that does not return; nothing is said about it.
- Reply sequence numbers: the code does not compare them either.
