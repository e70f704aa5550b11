# A verified model of network-manager-rs

network-manager-rs is a Linux network daemon. A manager tracks connections and drives a stack of
engines: the Wi-Fi link through wpa_supplicant, then addresses, routes, a DHCP lease and the resolver
file. Beside that stack it has its own codecs (rtnetlink, generic netlink, 802.11 information elements,
DHCPv4) and translations (settings dictionaries, profile selection, prefix arithmetic).

This project models that logic in Dafny and proves, for every input and every run:

* **the activation stack as one transactional state machine**: in every run of manager calls, whatever
  the backends answer, the three layers' records agree, ids and profiles stay unique and every
  connection's history is a legal walk. Which requests are all or nothing is decided exactly, by a
  condition on the host and the request alone, and so is when activation followed by teardown is the
  identity. Over whole runs of fresh requests the host is what it was plus what the active record names,
  and a connection leaves the manager exactly when its teardown is granted;
* **the netlink codecs**: what builders write, parsers read back (routes, addresses, nested
  generic-netlink trees, whole buffers), and a buffer is accepted exactly when aligned messages tile it;
* **DHCPv4**: a packet survives serialization if and only if its options are representable, and a lease
  is returned if and only if the first datagram with our transaction id is a usable offer and the next
  one an acknowledgement for us;
* **what each operation means in plain terms**: beside the structural results, a reference definition that shares
  nothing with the model's bodies says what a successful activation leaves on the host, what every manager
  call answers and logs, the bytes of every netlink and DHCP message, each field of a lease by its option
  number, who wins automatic activation, every security verdict, and each profile field by its settings key;
* **translations**: decoding settings is a retraction, automatic activation picks the unique best
  profile with either profile store, event sources lose and reorder nothing, and the resolver file of
  another component or another owner is never touched.

## How it is organised

| area | files |
|---|---|
| values and bytes | `Wrappers`, `Model`, `IpTypes`, `Bits`, `Bytes`, `Prefix` |
| kernel and IP engine | `Kernel`, `KernelEffects`, `IpEngine`, `Rollback`, `SafeFailure`, `ActivationEffect`, `LinuxIpEngine`, `Dns` |
| link, composite engine, manager | `Supplicant`, `Composite`, `Manager`, `ManagerRuns`, `HostRuns`, `ManagerAnswers`, `ManagerObject` |
| profiles | `Profiles`, `Autoconnect`, `Stores`, `Settings`, `SettingsRoundTrip`, `SettingsMeaning`, `SettingsSteps` |
| netlink | `Netlink`, `Buffers`, `RouteCodec`, `NetworkEvents`, `Commands`, `WireLayout`, `Genl`, `InformationElements`, `SecurityMeaning` |
| DHCP and events | `DhcpPacket`, `DhcpClient`, `DhcpMeaning`, `EventSource` |

Stateful parts of the program are classes (`LinuxIpEngine`, `WpaSupplicantActivationEngine`,
`LinuxActivationEngine`, `ActivationManager`, `LinuxDnsManager`, the two profile stores, `EventStream`),
and its loops are loops. Each method is proved equal to a specification function; the results are lemmas
about those functions.

The outside world is explicit. The host is a set of addresses (adding one that exists fails), a map of
routes by family, destination, prefix and metric (adding replaces, removing needs an exact match), a set
of leases and an optional resolver file. Every install and removal consumes one scripted reply, so "any
step may fail" is a quantifier over scripts. An empty script of removal replies means that removing
a present item succeeds. The supplicant, the DHCP server, the sockets and the shutdown flag are scripts of
answers in the same way.

## Where the program does less than it says

* An address that is already present is recorded before it is added, so a failed activation removes it
  (`Rollback.ExistingAddressIsLost`). `SafeFailure.EveryFailureRestoresExactlyWhenSafe` says exactly which
  requests, on which hosts, are all or nothing.
* Teardown also deletes a metric-0 default route through the first gateway of any tracked IPv4 route, even
  one that was there before (`Rollback.ExistingDefaultRouteIsLost`). Such a route counts as named by the
  activation in `Rollback.NoCollision`.
* `apply` ignores an error of its second read of the resolver file and then overwrites a file that is not
  its own (`Dns.ForeignFileChangesOnlyOnLostRead`).
* A failed connection is never dropped from the tracked list, so its profile can never be activated again
  (`HostRuns.OneFailureBlocksForever`). `HostRuns.ConnectionLeavesExactly` says exactly which connections
  leave.
* A netmask with a hole is read as the prefix of another mask (`Prefix.HoleyMaskIsMisread`).
* The two profile stores report different errors for a write with two faults, and for no other
  (`Stores.EmptyNameUnderTakenId`, `Stores.WriteMirrors`).
* Decoding settings drops `hidden` (`SettingsRoundTrip.HiddenIsLost`), BSSID, the MAC match and everything
  else that `Settings.Canonical` resets.
* A host name of 256 bytes or more is sent with a cut length, and no server reads such a packet as it was
  meant (`DhcpClient.SentPacketsReadBack`).
* RSN and WPA suite selectors are read little-endian. The model does what the code does and claims no
  conformance with section 9.4.2.24 of IEEE 802.11-2020.

## Model

| member | source | states |
|---|---|---|
| `ManagerRuns.EveryRunIsConsistent` | src/connection/activation.rs:182-356 | from a new manager, every run of activate, activate-by-id, deactivate and drain, under any backend answers, keeps the engine's and the supplicant's records both empty or naming one profile, exactly that profile tracked as Activated, ids increasing and never reused, profiles tracked once, and each id's events a legal walk from Disconnected to its tracked state; continuing only extends the history |
| `ManagerRuns.PerformKeepsConsistent` | src/connection/activation.rs:188-286 | one manager call keeps all of that |
| `ManagerRuns.ActivateMatchingKeepsLayers` | src/connection/activation.rs:288-339 | activation keeps the three layers in agreement and ids and profiles unique |
| `ManagerRuns.ActivateMatchingKeepsHistory` | src/connection/activation.rs:288-339 | the events of a new connection form a legal walk ending in its tracked state, and no other id's walk changes |
| `ManagerRuns.DeactivateKeepsLayers` | src/connection/activation.rs:237-286 | deactivation keeps the layers in agreement whether or not the engine fails |
| `ManagerRuns.DeactivateKeepsHistory` | src/connection/activation.rs:237-286 | a deactivated id ends in Disconnected or Failed by a legal walk, and no other id's walk changes |
| `ManagerRuns.FailedProfileIsBlockedForever` | src/connection/activation.rs:188-286 | through every later run a failed connection stays tracked, its profile is refused by id and never chosen automatically; which connections do leave is `HostRuns.ConnectionLeavesExactly` |
| `HostRuns.OneFailureBlocksForever` | src/connection/activation.rs:210-234 | such a connection is reachable: from any new manager one activation whose interface is not found leaves its profile tracked as Failed and refused as already active through every later run |
| `HostRuns.ConnectionLeavesExactly` | src/connection/activation.rs:237-286 | in every reachable state a call drops a tracked connection if and only if it deactivates that connection, the connection is Activated, the coming disconnect and network removal are granted, no reported IP removal is refused and the resolver owner, if any, is recognisable |
| `HostRuns.ProfileIsFreedExactly` | src/connection/activation.rs:210-286 | after deactivating an Activated connection its profile is accepted again under exactly that condition; otherwise the entry stays as Failed |
| `HostRuns.RunKeepsPresent` | src/linux/activation.rs:98-145 | in every run the addresses and the lease that the active record names are on the host, and so is a resolver file whose owner is the recorded one exactly when that name is recognisable |
| `HostRuns.TeardownSucceedsExactlyWhenGranted` | src/linux/ip_engine.rs:399-451 | a teardown of a record that is present reports no failure if and only if no reported removal is refused and the resolver owner, if any, is recognisable |
| `HostRuns.EveryRunConservesTheHost` | src/linux/activation.rs:70-145 | over every run with no removal refused, in which each request is fresh for the starting host, the host is the starting one whenever nothing is active, and otherwise that plus exactly the addresses and leases that the record names, only routes it names, and a changed resolver file only if it names an owner |
| `ManagerAnswers.ActivateProfileAnswers` | src/connection/activation.rs:210-339 | in every state: not found, store failure, incompatible and already tracked are refused in that order without effect; otherwise the call answers Success with the new last entry, Activated under the old next id, if and only if the engine reports no fault, and else EngineFailed with that fault and the entry Failed; the log gains state changes of that id and exactly one closing event |
| `ManagerAnswers.ActivateBestAnswers` | src/connection/activation.rs:188-339 | the same for automatic activation of the winning usable profile; an unlistable store and no usable profile are refused without effect |
| `ManagerAnswers.DeactivateAnswers` | src/connection/activation.rs:237-286 | a non-activated id is refused with its state; otherwise the engine's answer decides whether the entry goes with a closing Deactivated event or stays Failed with the fault, and no other entry changes |
| `ManagerAnswers.DeactivateUnknown` | src/connection/activation.rs:237-242 | an id that is not tracked is refused without effect |
| `ManagerAnswers.LegalSteps` | src/connection/state.rs:52-65 | exactly these thirteen transitions are legal |
| `ManagerAnswers.EngineUpDoesWhatTheProfileAsks` | src/linux/activation.rs:98-131 | an engine that comes up was idle, has the network it registered selected and recorded for the profile, and has configured the host as the profile asks, under the owner nmd/id/interface |
| `ManagerAnswers.EngineFaults` | src/linux/activation.rs:70-145 | which fault each refusal and failure of the engine is, and which failures a rollback lists in which order |
| `ManagerAnswers.ValidProfilesAskWell` | src/connection/profile.rs:182-260 | the request of a valid profile is well-formed as soon as a needed lease has a prefix that fits |
| `ManagerObject.ActivationManager.ActivateFor` | src/connection/activation.rs:188-207 | the method computes the automatic activation on the manager's whole state |
| `ManagerObject.ActivationManager.ActivateNamed` | src/connection/activation.rs:210-234 | not found, incompatible and already active are refused in that order and change nothing; otherwise the profile is activated |
| `ManagerObject.ActivationManager.TakeDown` | src/connection/activation.rs:237-286 | unknown and non-activated ids are refused; otherwise the engine is taken down and the entry dropped, or kept as Failed |
| `ManagerObject.ActivationManager.Record` | src/connection/activation.rs:288-356 | the step-by-step transitions write exactly the specified entry and events; the illegal-transition exits are proved unreachable |
| `ManagerObject.ActivationManager.Transition` | src/connection/state.rs:52-76 | a transition is refused without effect exactly when the state machine forbids it; otherwise it moves the connection and logs the change |
| `ManagerObject.ActivationManager.Select` | src/connection/activation.rs:188-207 | the loop over the ordered ids finds the choice that `Autoconnect.ChoosesTheBest` is about |
| `ManagerObject.ActivationManager.Conclude` | src/connection/activation.rs:257-286 | the last steps of a deactivation write exactly the specified entry and events; the illegal-transition exits are proved unreachable |
| `ManagerObject.ActivationManager.DrainEvents` | src/connection/activation.rs:182-184 | draining hands out the pending events once and changes nothing else |
| `Composite.EngineUpKeepsAgreement` | src/linux/activation.rs:98-131 | success sets both records to the profile, failure leaves them as they were, and they agree either way |
| `Composite.EngineDownKeepsAgreement` | src/linux/activation.rs:70-145 | taking the active profile down empties both records whatever fails; any other request is refused without effect |
| `Composite.StackIsAllOrNothing` | src/linux/activation.rs:70-145 | on a fresh host an activation that fails, or is taken down again, leaves the host and both records as they were, and the registered networks exactly when nothing was registered or the removal of a newly named network is granted |
| `Composite.LinkIsUndoneExactly` | src/linux/activation.rs:70-145 | on every host the same for the link alone: its record is as it was, and its networks exactly under that condition |
| `Composite.LinuxActivationEngine.BringUp` | src/linux/activation.rs:98-131 | the composite object brings the link and then IP up, undoing the link when IP fails, exactly as specified |
| `Composite.LinuxActivationEngine.TakeDown` | src/linux/activation.rs:70-145 | both teardowns are attempted whatever fails and all failures are collected in order |
| `Supplicant.FailedLinkIsUndoneExactly` | src/connection/supplicant_engine.rs:101-180 | a failed association keeps the record, and keeps the registered networks exactly when nothing was registered or the clean-up of a newly named network was granted |
| `Supplicant.LinkUpThenDown` | src/connection/supplicant_engine.rs:101-201 | associating and leaving empties the record whatever fails, restores the networks exactly when no network is left behind, and succeeds exactly when both steps of leaving were granted |
| `Supplicant.AssociatedIsSelected` | src/connection/supplicant_engine.rs:144-180 | an association that works registers the network the supplicant names, selects that very network and records it |
| `Supplicant.AssociatesExactly` | src/connection/supplicant_engine.rs:101-180 | an association works if and only if nothing is active, the profile is Wi-Fi for the controlled interface and not enterprise, a needed secret is there and all three calls are granted |
| `Supplicant.LeavingDeselects` | src/connection/supplicant_engine.rs:182-201 | a granted disconnect leaves nothing selected, and a granted removal takes out exactly the recorded network |
| `Supplicant.WpaSupplicantActivationEngine.BringUp` | src/connection/supplicant_engine.rs:101-180 | refusals in order before any call, then register, select and wait, removing the network on failure |
| `Supplicant.WpaSupplicantActivationEngine.TakeDown` | src/connection/supplicant_engine.rs:182-201 | disconnect and removal are both attempted and the record is cleared whatever they answer |
| `Rollback.AttemptAccounted` | src/linux/ip_engine.rs:151-383 | wherever an attempt stops, the host is the initial one plus the lease and the accepted installs, all named by the recorded state |
| `Rollback.TeardownRestoresExactly` | src/linux/ip_engine.rs:399-451 | tearing an accounted attempt down restores the host if and only if there was no collision |
| `Rollback.FailedActivationRestoresExactly` | src/linux/ip_engine.rs:151-176 | one failed activation, wherever it stopped, restored the host if and only if what it had recorded and installed by then collided with nothing; over all failures see `SafeFailure.EveryFailureRestoresExactlyWhenSafe` |
| `SafeFailure.EveryFailureRestoresExactlyWhenSafe` | src/linux/ip_engine.rs:151-383 | for every host and request: all failures, at whichever step and for whatever replies, give the host back if and only if the longest failure possible on that host, read off the request, collides with nothing |
| `SafeFailure.FailureWithinLongest` | src/linux/ip_engine.rs:151-383 | no failed attempt installs or records anything beyond that longest failure |
| `SafeFailure.SuccessWasPossible` | src/linux/ip_engine.rs:178-310 | the IPv4 half succeeds only if its prefix fits, its address is free and the resolver file, if wanted, has no other owner |
| `SafeFailure.UnsafeIpv4` | src/linux/ip_engine.rs:178-310 | if the longest IPv4 failure collides, some replies make the activation fail and leave the host changed |
| `SafeFailure.UnsafeIpv6` | src/linux/ip_engine.rs:312-383 | the same for the IPv6 half after an IPv4 half that can succeed |
| `SafeFailure.FreshActivationIsAllOrNothing` | src/linux/ip_engine.rs:151-176 | in particular every failed activation leaves a fresh host untouched |
| `Rollback.ActivateThenTeardownIsIdentityExactlyWhenFresh` | src/linux/ip_engine.rs:151-451 | activation followed by teardown is the identity on the host if and only if the host held nothing that the request names |
| `ActivationEffect.SuccessConfiguresTheHost` | src/linux/ip_engine.rs:178-383 | for every world and request, a successful activation adds exactly the lease's or the configured addresses and the lease, puts the default route through the lease's or the same-family gateway unless a requested route takes its slot, leaves the last requested route of each slot, writes a resolver file that names exactly the asked domains and servers, and changes nothing else; in both families |
| `ActivationEffect.SuccessRecordsTheRequest` | src/linux/ip_engine.rs:178-383 | what a successful activation records: interface, address, prefix, lease, resolver owner, and exactly the connected, default and requested routes of each configured family |
| `ActivationEffect.CanSucceedExactly` | src/linux/ip_engine.rs:151-383 | some replies let an activation succeed if and only if each configured family has an address and a prefix in range, the addresses are free and a wanted resolver file has no other owner |
| `ActivationEffect.IllFormedFailsEarly` | src/linux/ip_engine.rs:178-262 | without a lease or a usable manual address the IPv4 half fails before any call, with the world as it was |
| `Rollback.EverythingInstalledIsRecorded` | src/linux/ip_engine.rs:178-383 | every address, route, lease or resolver change an attempt made is named by its recorded state, however routes duplicate or replace each other |
| `Rollback.RemovalsTouchOnlyWhatTheyName` | src/linux/ip_engine.rs:399-451 | under any refusals a run of removals only takes away, and only what it names |
| `Rollback.TeardownMakesEveryCall` | src/linux/ip_engine.rs:399-451 | teardown makes the same calls in the same order whatever fails, and its result is the first failure among resolver, IPv4 address and IPv6 address removal |
| `Rollback.ExistingAddressIsLost` | src/linux/ip_engine.rs:268-290 | a concrete activation that fails on a present address and removes it in its rollback |
| `Rollback.TeardownDeletesDefaultRoute` | src/linux/ip_engine.rs:413-427 | taking any IPv4 state down deletes a metric-0 default route through the first gateway among its tracked routes, whoever installed it |
| `Rollback.ExistingDefaultRouteIsLost` | src/linux/ip_engine.rs:413-427 | a concrete request without a default route, whose activation leaves the default route of the host alone and whose teardown deletes it |
| `KernelEffects.RoutesUndone` | src/linux/ipconfig.rs:246-258 | covered installs followed by removals restore the route table if and only if no installed key was taken and nothing the removals name was there |
| `KernelEffects.AddressesUndone` | src/linux/ipconfig.rs:29-73 | the same for addresses |
| `IpEngineObject.LinuxIpEngine.Configure` | src/linux/ipconfig.rs:134-244 | address, then default route, stopping at the first failure; a prefix that is too long touches nothing |
| `IpEngineObject.LinuxIpEngine.InstallRoutes` | src/linux/ip_engine.rs:386-391 | the loop installs the routes in order up to the first failure |
| `IpEngineObject.LinuxIpEngine.ActivateIpv4` | src/linux/ip_engine.rs:178-310 | the IPv4 half leaves exactly the specified world, recorded state and error; `ActivationEffect.SuccessConfiguresTheHost` says what that is |
| `IpEngineObject.LinuxIpEngine.ActivateIpv6` | src/linux/ip_engine.rs:312-383 | the IPv6 half likewise |
| `IpEngineObject.LinuxIpEngine.Bring` | src/linux/ip_engine.rs:151-176 | both halves, with a rollback on any failure |
| `IpEngineObject.LinuxIpEngine.TearDown` | src/linux/ip_engine.rs:399-451 | the loops and the first-error variable compute the specified teardown |
| `Prefix.NestedPrefixesCompose` | src/linux/ip_engine.rs:455-474 | masking by two prefixes is masking by the shorter one, in both families; hence masking is idempotent |
| `Prefix.SubnetIsTheBlock` | src/dbus/ipconfig.rs:425-443 | network <= address <= broadcast, 2^(width-p) addresses between them, and those are exactly the addresses with the same network |
| `Prefix.NetworkValue` | src/dbus/ipconfig.rs:50-71 | masking rounds an address down to a multiple of the block size |
| `Prefix.PrefixOfMaskOctets` | src/linux/dhcp/packet.rs:475-480 | the prefix read from a mask is the one it was made from |
| `Prefix.PrefixDescribesContiguousMasks` | src/linux/dhcp/packet.rs:475-480 | the count is at most 32 on every mask, and describes the mask if and only if its ones come first |
| `Prefix.HoleyMaskIsMisread` | src/linux/dhcp/packet.rs:475-480 | 255.0.255.0 is read as prefix 16, which describes another mask |
| `Dns.MarkedNamesOwner` | src/linux/dns.rs:66-73 | a written file names its owner back if and only if the name is non-empty, single-line and trimmed |
| `Dns.ForeignFileChangesOnlyOnLostRead` | src/linux/dns.rs:76-104 | a file with text and no sentinel is changed if and only if a named owner's `apply` loses its second read and writes another text |
| `Dns.ForeignFileIsNeverTouched` | src/linux/dns.rs:76-120 | over every interleaving of calls without a lost read, a foreign file stays as it is |
| `Dns.OwnedFileIsNeverTouchedByOthers` | src/linux/dns.rs:76-120 | an owned file survives every interleaving of other owners' calls |
| `Dns.EveryHistoryLeavesARemovableFile` | src/linux/dns.rs:76-120 | after any history the file is the original, absent, or owned under a name that can remove it |
| `Dns.ApplyThenRemove` | src/linux/dns.rs:76-120 | apply then remove by the same owner leaves the file absent if and only if the owner's name is recognisable |
| `Dns.TakeoverGivenBack` | src/linux/dns.rs:106-120 | removing a takeover restores the earlier file exactly when it was absent or already the same text |
| `Dns.CallsAnswer` | src/linux/dns.rs:76-120 | for every file, owner and reply, when apply and remove succeed and what file they leave |
| `Dns.OwnerLines` | src/linux/dns.rs:66-73 | the first sentinel line names its trimmed rest if that is not blank, and lines before it do not matter |
| `Dns.TextLines` | src/linux/dns.rs:76-104 | a file counts as non-blank exactly when some line is more than white space |
| `Dns.LinuxDnsManager.SerializeConfig` | src/linux/dns.rs:44-62 | the pushed text is one search line and one line per server in order |
| `Dns.LinuxDnsManager.ApplyConfig` | src/linux/dns.rs:76-104 | takes the file over unless another owner or component holds it |
| `Dns.LinuxDnsManager.RemoveConfig` | src/linux/dns.rs:106-120 | deletes the file only for the owner it names |
| `Netlink.ReadMessage` | src/linux/netlink.rs:508-522 | a built message in front of anything reads back as its kind, flags and payload, and its aligned size is its length |
| `Netlink.ScanIsFold` | src/linux/netlink.rs:493-505 | scanning built attributes is folding over the list they were built from |
| `Netlink.ScanLoop` | src/linux/netlink.rs:754-780 | the attribute loop terminates on every buffer, stays inside it, and computes the scan |
| `Netlink.PushAttr` | src/linux/netlink.rs:493-505 | an attribute is appended with its length, type, value and zero padding |
| `RouteCodec.BuildRouteMessage` | src/linux/ipconfig.rs:104-131 | the attributes pushed in order are the specified message; `WireLayout.RequestLayout` gives its bytes |
| `RouteCodec.ParseRoutePayload` | src/linux/netlink.rs:827-928 | the early exits and the loop compute the route parse |
| `RouteCodec.RouteReadsBack` | src/linux/netlink.rs:827-928 | for every route, what parsing its built message gives: which come back and in what form, which are skipped and which refused |
| `Buffers.ParseLoop` | src/linux/netlink.rs:663-738 | the offset loop terminates on every buffer, stays inside it, and computes the message-by-message parse |
| `Buffers.DumpLoop` | src/linux/netlink.rs:803-825 | the same for dump buffers |
| `Buffers.AcceptedBufferTiles` | src/linux/netlink.rs:663-738 | an accepted buffer is tiled exactly by aligned messages up to its end or a stop message, and yields their items in order |
| `Buffers.TiledBufferIsAccepted` | src/linux/netlink.rs:663-738 | every buffer tiled that way is accepted with that result |
| `NetworkEvents.RouteListReadsBack` | src/linux/netlink.rs:803-939 | for every list of routes, the built messages followed by DONE read back as exactly the reported routes in order, a missing interface as 0 and an omitted default destination restored |
| `NetworkEvents.ExactlyCanonicalListsAreUnchanged` | src/linux/netlink.rs:803-939 | the list comes back unchanged if and only if each route is family-consistent, unicast, blackhole or unreachable, with an interface and a named scope |
| `NetworkEvents.ParseRouteMessages` | src/linux/netlink.rs:803-825 | one dump buffer gives its routes and whether DONE was seen |
| `NetworkEvents.ParseNetworkEvents` | src/linux/netlink.rs:663-738 | one event buffer gives its events or the first refusal |
| `NetworkEvents.AcceptedEventsTile` | src/linux/netlink.rs:663-738 | an accepted event buffer that does not stop at DONE is tiled to its last byte |
| `Commands.BuildCommand` | src/linux/ipconfig.rs:29-73 | the pushed bytes of every address and route request are the specified message |
| `Commands.AddressReadsBack` | src/linux/netlink.rs:747-801 | a built address request reads back as its interface, address and prefix |
| `Commands.CommandsReadAsEvents` | src/linux/netlink.rs:663-738 | every list of address and route requests in one buffer reads as exactly the events it announces, in order |
| `WireLayout.RequestLayout` | src/linux/ipconfig.rs:29-131 | every address and route request byte for byte in plain numbers: the sixteen header bytes with kinds 20, 21, 24, 25 and their flag words, the ifaddrmsg or rtmsg at its offsets, and attributes 2 and 1, or 1, 5, 4 and 6 |
| `WireLayout.LinkReadsBack` | src/linux/netlink.rs:941-966 | every link announcement reads as its index, name and flags |
| `WireLayout.EventKinds` | src/linux/netlink.rs:663-738 | which event each message kind announces, by number, created or changed by the create flag; 3 ends the buffer and other kinds are skipped |
| `WireLayout.KernelErrors` | src/linux/netlink.rs:606-613 | kind 2 refuses the buffer with the signed word in front of its payload |
| `Genl.BuildMessage` | src/linux/nl80211.rs:297-326 | the length summed up beforehand is the number of bytes written, and the bytes are the specified message although padding follows the whole buffer's length |
| `Genl.PaddingAgrees` | src/linux/nl80211.rs:312-324 | padding the whole buffer is padding the attribute |
| `Genl.ForestReadsBack` | src/linux/nl80211.rs:328-346 | every attribute tree with types below 0x4000 and fitting lengths parses back at every nesting level |
| `Genl.ReadsAsUnique` | src/linux/nl80211.rs:328-346 | what bytes read as is unique |
| `Genl.MessagesReadBack` | src/linux/nl80211.rs:348-385 | any list of built messages parses back to exactly that list |
| `Genl.AcceptedGenlTiles` | src/linux/nl80211.rs:348-385 | an accepted buffer is tiled exactly, to its last byte |
| `Genl.ParseGenlMessages` | src/linux/nl80211.rs:348-385 | the offset loop computes the parse of any buffer |
| `Genl.FamilyReadsBack` | src/linux/nl80211.rs:401-423 | an encoded family description with nested multicast groups reads back as itself |
| `WireLayout.GenericLayout` | src/linux/nl80211.rs:297-326 | every generic-netlink request byte for byte in plain numbers |
| `WireLayout.FamilyNumbers` | src/linux/nl80211.rs:401-423 | the attribute numbers of a family description |
| `WireLayout.NestedFlag` | src/linux/nl80211.rs:328-346 | a nested attribute carries the top bit, and reading takes the two flag bits off the type |
| `InformationElements.ScanIsGatherAll` | src/linux/nl80211.rs:633-674 | for every list of elements, the byte-level scan of its encoding, with or without a stray byte, is the fold over the list, for whatever an element contributes |
| `InformationElements.ScanLoop` | src/linux/nl80211.rs:633-674 | the offset loop computes the scan on every byte string |
| `InformationElements.ParseSecurity` | src/linux/nl80211.rs:633-712 | scan and classification together |
| `InformationElements.WepExcludesEverythingElse` | src/linux/nl80211.rs:633-712 | a WEP verdict excludes WPA1, WPA2, WPA3, enterprise, protection and any suite |
| `InformationElements.RsnReadsBack` | src/linux/nl80211.rs:715-742 | an RSN element yields exactly its authentication list and the protection bits that follow it |
| `InformationElements.WpaReadsBack` | src/linux/nl80211.rs:744-769 | a WPA element yields exactly its authentication list, whatever follows it |
| `InformationElements.ReadSelectors` | src/linux/nl80211.rs:725-735 | the selector loop reads each four-byte selector in order |
| `InformationElements.SsidFromIes` | src/linux/nl80211.rs:805-819 | the fallback loop computes the SSID of any byte string |
| `InformationElements.FallbackIsFirstSsid` | src/linux/nl80211.rs:805-819 | on every encoded list it is the first SSID element |
| `InformationElements.FirstSsidIgnoresTheRest` | src/linux/nl80211.rs:805-819 | elements before and after that one do not matter |
| `SecurityMeaning.VerdictsFromTheElements` | src/linux/nl80211.rs:633-712 | for every list of elements, each verdict from the list in plain numbers: WEP, WPA1, WPA2, WPA3 and enterprise by suite codes, protection by its bits, and all suites in order |
| `SecurityMeaning.SuiteNumbers` | src/linux/model.rs:644-668 | each suite by its code |
| `SecurityMeaning.SsidFromTheElements` | src/linux/nl80211.rs:805-819 | the fallback is the first element 0, if it has at most 32 bytes |
| `DhcpPacket.BuildOptionsLoop` | src/linux/dhcp/packet.rs:137-149 | code, one-byte length and value of each option, then END |
| `DhcpPacket.ParseOptionsLoop` | src/linux/dhcp/packet.rs:190-211 | the option loop computes the parse, skipping padding and refusing truncation |
| `DhcpPacket.SerializePacket` | src/linux/dhcp/packet.rs:151-178 | header, cookie and options as specified |
| `DhcpPacket.ParsePacket` | src/linux/dhcp/packet.rs:180-245 | packets that are short or lack the magic cookie are refused, anything else is its fields and its parsed options |
| `DhcpPacket.PacketReadsBackExactly` | src/linux/dhcp/packet.rs:137-245 | a packet parses back to itself if and only if its option codes are 1..254 and their values at most 255 bytes |
| `DhcpPacket.AcceptedPacketsAreStable` | src/linux/dhcp/packet.rs:137-245 | every accepted byte string re-serializes to bytes that parse to the same packet |
| `DhcpMeaning.PacketLayout` | src/linux/dhcp/packet.rs:137-178 | every serialized packet byte for byte at the offsets of section 2 of RFC 2131 |
| `DhcpClient.LeaseExactlyOnOfferThenAck` | src/linux/dhcp/mod.rs:277-346 | for every datagram sequence, a lease is returned if and only if the first datagram with our id is an OFFER with an address and the next is an ACK with an address and our MAC; `DhcpMeaning.LeaseIsWhatTheAckSays` gives its fields |
| `DhcpMeaning.LeaseIsWhatTheAckSays` | src/linux/dhcp/packet.rs:331-471 | the same by option number, with every field of the lease: yiaddr, option 1 or the classful mask, the first chunk of option 3, the chunks of option 6, option 15, option 54, and the big-endian words of 51, 58 and 59 |
| `DhcpMeaning.WhyNoLease` | src/linux/dhcp/mod.rs:277-346 | a failure is a timeout exactly when no packet came, or only a usable offer |
| `DhcpMeaning.DiscoverLayout` | src/linux/dhcp/packet.rs:249-272 | the DISCOVER byte for byte |
| `DhcpMeaning.RequestLayout` | src/linux/dhcp/packet.rs:274-301 | the REQUEST byte for byte, and the server it names: option 54 of the offer or its next-server address |
| `DhcpClient.NoiseChangesNothing` | src/linux/dhcp/mod.rs:139-207 | inserting an unparseable or foreign datagram anywhere changes neither the result nor what is sent |
| `DhcpClient.SentPacketsReadBack` | src/linux/dhcp/packet.rs:249-300 | what is sent is our DISCOVER and, after a usable offer only, a REQUEST for the offered address and server; a server reads each back as it was meant if and only if the host name is shorter than 256 bytes |
| `DhcpClient.LeasePrefixIsInRange` | src/linux/dhcp/packet.rs:427-471 | a lease's prefix is at most 32 and describes its mask exactly when the mask is contiguous |
| `DhcpClient.WaitForPacket` | src/linux/dhcp/mod.rs:139-207 | the receive loop returns the first datagram with our id, or times out exactly when there is none |
| `DhcpClient.AcquireLease` | src/linux/dhcp/mod.rs:277-346 | the send and receive steps compute the specified exchange |
| `EventSource.NextEventConserves` | src/linux/netlink.rs:148-178 | one call delivers the front of the queue, parsed from the received buffers, or leaves it alone, and the stream ends only when nothing is pending |
| `EventSource.EventsAreConserved` | src/linux/wifi.rs:84-113 | over any number of calls, delivered plus still queued is what there was: arrival order, none lost, none repeated |
| `EventSource.NextEventAnswers` | src/linux/netlink.rs:148-178 | what a call answers: the pending event on top, the end on shutdown, an error on a broken socket or an unparseable buffer, the first event of a buffer |
| `EventSource.YieldedIsAPrefixOfTheParsed` | src/linux/netlink.rs:148-178 | what an rtnetlink source yields is a prefix of the concatenated parse results of the buffers it receives |
| `EventSource.EventStream.Next` | src/linux/netlink.rs:148-178 | receiving, parsing, the reversed stack and the loop compute the specified step |
| `Autoconnect.OrderForAutoconnect` | src/connection/policy.rs:15-25 | the order is a sorted permutation of the enabled autoconnect profiles; `Autoconnect.OrderIsByPriorityThenId` says by what |
| `Autoconnect.ChoosesTheBest` | src/connection/activation.rs:188-207 | automatic activation picks p if and only if p is the unique best enabled, autoconnect, matching, untracked profile in that order, and none if and only if there is none |
| `Autoconnect.ChoosesTheWinner` | src/connection/activation.rs:188-207 | the same in plain terms: every other usable profile has a lower priority, or the same and a greater id, where greater means a proper extension or the greater character at the first difference |
| `Autoconnect.OrderIsByPriorityThenId` | src/connection/policy.rs:15-25 | the ids of the enabled autoconnect profiles, each as often as given, by falling priority and then rising id |
| `Profiles.ValidExactly` | src/connection/profile.rs:182-260 | which profiles are valid, condition by condition |
| `Profiles.FirstProblem` | src/connection/profile.rs:182-197 | the first problem is the one reported |
| `Stores.WriteMirrors` | src/connection/store.rs:94-235 | one write keeps directory and table in step, is accepted by both or neither, and is answered alike if and only if it does not have two faults |
| `Stores.WritesDo` | src/connection/store.rs:94-117 | which writes the table accepts, what they change, that nothing else changes, and which error a refusal gives |
| `Stores.ReadsExactly` | src/connection/store.rs:171-188 | a file is read exactly when it holds a valid profile with the id of its name |
| `Stores.EmptyNameUnderTakenId` | src/connection/store.rs:94-220 | creating a nameless profile under a taken id is called invalid by one store and taken by the other |
| `Stores.RunMirrors` | src/connection/store.rs:94-235 | the same over every run of writes, answer by answer |
| `Stores.StoresAreInterchangeable` | src/connection/store.rs:82-235 | after any run of writes both stores read every id alike and lead the manager to the same choice |
| `Stores.AscendingIsUnique` | src/connection/store.rs:53-54 | the id-ordered listing of a set of profiles is unique, so both stores list alike |
| `Stores.InMemoryProfileStore.CreateProfile` | src/connection/store.rs:94-101 | validity is checked before the id, and stored profiles stay valid and under their own ids |
| `Stores.InMemoryProfileStore.UpdateProfile` | src/connection/store.rs:103-110 | likewise for replacement |
| `Stores.InMemoryProfileStore.DeleteProfile` | src/connection/store.rs:112-117 | removes exactly that id |
| `Stores.InMemoryProfileStore.ListProfiles` | src/connection/store.rs:83-85 | all profiles by ascending id |
| `Stores.FileProfileStore.CreateProfile` | src/connection/store.rs:215-220 | the id is checked before validity |
| `Stores.FileProfileStore.UpdateProfile` | src/connection/store.rs:222-227 | likewise for replacement |
| `Stores.FileProfileStore.DeleteProfile` | src/connection/store.rs:229-235 | removes exactly that file |
| `Stores.FileProfileStore.ListProfiles` | src/connection/store.rs:157-206 | fails if and only if some file is refused, and then names the first refused file in path order; otherwise lists all profiles by ascending id |
| `Stores.SortedNames` | src/connection/store.rs:157-168 | the directory entries by ascending path, each once |
| `SettingsRoundTrip.ValidProfilesDecode` | src/dbus/convert.rs:297-514 | a valid profile decodes from its own encoding if and only if its routes' prefixes are in range, and then as exactly its canonical part |
| `SettingsRoundTrip.DecodingIsARetraction` | src/dbus/convert.rs:406-461 | every successfully decoded profile re-encodes and decodes to itself |
| `SettingsRoundTrip.RoundTripKeepsExactlyCanonicalProfiles` | src/dbus/convert.rs:297-461 | a valid profile survives unchanged if and only if it is canonical with routes in range |
| `SettingsRoundTrip.HiddenIsLost` | src/dbus/convert.rs:417-451 | every valid hidden profile comes back as one that is not hidden |
| `SettingsMeaning.DecodedProfileSays` | src/dbus/convert.rs:406-514 | for every dictionary that decodes, each field of the profile by the key it comes from, and its value where the key is missing |
| `SettingsMeaning.IpMeans` | src/dbus/convert.rs:463-514 | an IP section: its method, the manual parts, and each route entry by position |
| `SettingsMeaning.EncodedConnectionSays` | src/dbus/convert.rs:297-312 | the connection section of every profile, key by key |
| `SettingsMeaning.EncodedWifiSays` | src/dbus/convert.rs:314-338 | the Wi-Fi sections of every Wi-Fi profile, key by key, without a secret |
| `SettingsMeaning.EncodedIpSays` | src/dbus/convert.rs:345-403 | the IP section of every configuration, key by key |
| `SettingsRoundTrip.V4RoutesReadBack` | src/dbus/convert.rs:120-222 | IPv4 route entries decode exactly when prefixes are at most 32, to the canonical routes |
| `SettingsRoundTrip.V6RoutesReadBack` | src/dbus/convert.rs:120-239 | IPv6 route entries decode exactly when prefixes are at most 128, to the canonical routes |
| `SettingsSteps.WriteSettings` | src/dbus/convert.rs:297-343 | filling the dictionary step by step gives the specified encoding |
| `SettingsSteps.WriteIpSection` | src/dbus/convert.rs:345-403 | the IP section filled key by key |
| `SettingsSteps.ReadProfile` | src/dbus/convert.rs:406-461 | reading field by field gives the specified decoding |

## Left out

- The sockets, FFI calls, polling, timeouts and signal handling: byte sequences and scripts of answers stand for them.
- The zbus objects and property getters, signal mirroring in src/dbus/shared.rs and polkit: thin projections over libraries.
- TOML, IP-address text and the text of a host name or domain: parameters, with decode(encode(x)) = x where a result needs it.
- UTF-8 with replacement characters: interface and multicast-group names are compared as bytes.
- `stable_uuid`: a parameter; hashing is not injective.
- Big-endian hosts: native byte order is little-endian.
- What the kernel does by itself: connected routes it installs, routes it flushes with the last address, metric normalisation.
- Wrap-around of the 64-bit connection id.
- DHCP RELEASE as a message, renewal and rebinding, and which exits of `acquire` close the socket. Every send succeeds.
- The wiphy, band, cipher and interface readers of nl80211, and the BSS record around the information elements.
- Which secret is retrieved and how the supplicant is reached: environment answers.
- The observed IPv6 link-local address of automatic IPv6 and the `ActivationOutcome` shown to the user.
- I/O failures of the file store, and profile ids with path separators given to its `get` and `delete`.
- Text inside error messages; an error that only names a different field is the same error here.
- EventSource.EventStream.Next: does not model waiting; with no turns left the call is reported as blocked.
