# Verified models of the Ryu/Beba controller

Dafny models of seven stateful parts of the controller, with proofs about all inputs, all
runs or all stable states. `dafny verify dfyconfig.toml` checks the whole project. Nothing
was executed: the results are about the models, which follow the cited code branch by branch.

* **Spanning tree** (`BpduOrder`, `StpPort`, `StpElection`, `StpBridge`, `StpHistory`,
  `StpSettling`, `StpNetwork`). One port and all its runs, one bridge with its
  election loops, event handlers and runs, and networks of bridges. A network is *stable* when
  every bridge has elected on what its ports hold, the far end of a transmitting port holds
  what that port transmits, and a port that waits for BPDUs is served by a transmitting port
  (otherwise its timer would start a recalculation).
  Nothing is assumed about what other ports still hold. Then all bridges agree on the least
  identifier, believed costs are shortest-path lengths, and frames cannot travel in a circle
  exactly when the links into the root are fairly charged, a condition on the wiring alone.
  A bridge that only receives BPDUs and forward-delay timers settles for good.
* **REST router** (`RouterPrefix`, `RouterAddresses`, `RouterRoutes`, `RouterCookies`,
  `VlanRouter`). Prefix arithmetic on 32-bit words, the two tables as objects changed in
  place, flow priorities and cookies, and the link between routes and addresses.
* **Beba on Open vSwitch** (`Bits`, `RegisterLoad`, `Substate`, `BebaKeys`, `BebaFlows`,
  `BebaStateTable`, `BebaPipeline`). Masked register updates as load lists, state sections and
  patterns, and the emulation of a state table by plain flow tables, proved to agree with
  Beba's own state table for every sequence of messages and every packet, up to the flow of
  the application that the packet meets.
* **BFD** (`BfdSession`, `BfdHistory`, `BfdPair`). A session after RFC 5880, sections
  6.2, 6.8.3, 6.8.4, 6.8.6 and 6.8.7, its whole state read off the events of a run, and two
  sessions over a channel that loses, repeats and reorders packets.
* **IGMP querier** (`IgmpQuerier`). Flow entries as an image of the membership table.
* **OpenFlow receive loop** (`RecvLoop`). Streaming frame splitting against splitting at once.
* **msgpack-rpc endpoint** (`RpcEndpoint`). Byte conservation, queue order, cyclic identifiers.

Objects that the program updates in place are classes; each method states its whole new state
through a specification function or relation, and the lemmas are about those. Dictionaries
are walked in an arbitrary order. Random numbers, clocks, what a socket accepts or delivers
and what a switch reports are parameters.

Where a promised property fails in the code, the code is kept, the failing case is shown, and
the exact condition is proved:

* A spanning-tree link is served from exactly one end if and only if it is balanced
  (`OneDesignatedEndIffBalanced`), and a stable network has no forwarding loop if and only if
  all links are (`NoForwardingLoopIffBalanced`, which also gives balance in terms of
  identifiers and path costs only). `UnbalancedLinksLoop` and `SelfLinkLoops` are stable
  networks with a loop: a link charged too much at the root, and a root cabled to itself. Links
  that cost the same at both ends are balanced exactly if no root is cabled to itself
  (`EqualCostsAreBalanced`).
* A bridge keeps an election after every event except a link-up report for a port that is
  already up in another role, and a port added while another bridge is root
  (`StepKeepsElectionIffBenign`, with `LinkUpEndsElection` as an example).
* A non-canonical spelling of a destination replaces an existing route (`RoutingTable.Add`).
* Route identifiers beyond 16 bits do not decode (`RouteDecodesIffItFits`). With identifiers up
  to the 32 bits of the counters, `CookiesShareIff` says which owners share a cookie, and
  `AddressDeletionIsRightIff` and `RouteDeletionIsRightIff` which flows a deletion leaves
  behind or takes along. Within 16 bits, only a request for an address number that is zero or a
  multiple of 65536, or for route number zero, goes wrong (`AddressDeletionIsExactIff`,
  `RouteDeletionIsExactIff`).
* An address deletion computes the addresses to spare before it waits for the switch; a route
  added in between can lose its network (`RouteAddedDuringDeletion`, `DeletionKeepsLinksIff`).
* A report on the server port overwrites the entry that serves the group, and only such a
  report makes the entries differ from the membership (`Querier.DoReport`).
* A frame of announced length zero keeps the receive loop busy for ever
  (`InnerLoopEndsIffProgress`).
* A packet without a stored state leaves an emulated stage with register 1 set, and a packet
  that enters a stage that way never reaches its flow table (`SetRegisterSkipsFlowTable`). From
  stage to stage get exactly the packets with a stored state (`NextStageIffStateStored`).
* Building an entry can alter the key: a prerequisite overwrites a field of the scope that
  contradicts it. The wrapper then acts on the corrected key (`WrapperObeysCorrectedKeys`) and
  packets get a wrong state (`AlteredKeyGivesWrongState`). A scope without fields loses its
  default entry with the first deletion (`EmptyScopeLosesDefault`).
* A stage that was neither announced nor jumped to has no entries at all, so that packets are
  lost that Beba would take straight to the flow table (`ArrivesIffOpen`).
* Apart from these cases, and only then, the wrapper serves every packet as Beba does:
  `AgreesIffKeysSensible` for packets that enter with register 1 cleared and, for single
  entries, `EntryIsExactIff`. Flows that match on the global state match too much
  (`RewritingIsExactIff`).
* The assertion on a response can fail after an identifier was issued again while its response
  waited, and only then (`AssertionCanFailIff`, `ApartIsKeptIff`, `NoReissueNoFailure`).
* The comment on `substate` counts sections from the right end, starting with one; the code
  puts none there unless it is the only one (`DocumentedPlaceIff`). The model follows the code.
* `BFDSession` never updates the remote session state that its demand-mode tests read, so
  periodic transmission is never switched off (part of `RunsKeepInvariant`).

## Model

| member | source | states |
|---|---|---|
| BpduOrder.ComparisonIsLexicographic | ryu/lib/stplib.py:302-368 | The nested comparisons of root, cost, bridge and port are the lexicographic order; equal vectors count as superior exactly when the times differ |
| StpPort.Port.constructor | ryu/lib/stplib.py:725-743 | A new port is a listening designated port of a self-believed root, or disabled by configuration |
| StpPort.Port.Up | ryu/lib/stplib.py:762-770 | Whole new state of a port brought up |
| StpPort.Port.Down | ryu/lib/stplib.py:772-785 | Whole new state of a port taken down; no effect when configured off; forgets the held vector only on request |
| StpPort.Port.TimerExpires | ryu/lib/stplib.py:827-844 | Listen becomes Learn, Learn becomes Forward or, for a non-designated port, Block |
| StpPort.Port.ReceiveConfigBpdu | ryu/lib/stplib.py:885-910 | The held vector changes exactly on a superior BPDU |
| StpPort.StateFollowsHistory | ryu/lib/stplib.py:762-872 | In every run, state and role are settled by the last command and the number of timer expiries after it |
| StpPort.ForwardsExactlyAfterTwoExpiries | ryu/lib/stplib.py:128-145 | A port forwards if and only if two forward-delay timers expired since its latest up, with no down between, in the root or designated role; a non-designated port ends blocked |
| StpPort.ForwardingIsReached | ryu/lib/stplib.py:827-844 | After an up, any BPDU and two timers a port forwards or blocks by its role, exactly if it is configured on and has a delay |
| StpPort.HoldsLeastReceived | ryu/lib/stplib.py:885-910 | In every run the held vector is the lexicographic minimum of those received since the last clearing, and absent exactly when there is none |
| StpElection.ElectionHasOneRootPort | ryu/lib/stplib.py:548-585 | At most one root port; it exists exactly when the bridge believes in another root; no held vector names a better root |
| StpElection.ElectionAtPort | ryu/lib/stplib.py:619-645 | Roles in terms of the vectors held: designated exactly if nearer to the root by cost, bridge and port identifier, or of another root; costs and roots are never worse than what is held |
| StpElection.RecalculationElects | ryu/lib/stplib.py:517-546 | Every recalculation ends with roles, root belief and times elected on what the ports then hold; with init the bridge is its own root |
| StpElection.StepKeepsElectionIffBenign | ryu/lib/stplib.py:421-515 | Each bridge event keeps the election if and only if it is not a link-up on a port in another role or a port added under a foreign root |
| StpElection.RunsStayElected | ryu/lib/stplib.py:421-546 | The election invariant over whole runs of bridge events: roles, root and the times in force at every port |
| StpBridge.AssignRoles | ryu/lib/stplib.py:574-583 | One root port, the listed designated ports, all other live ports non-designated |
| StpBridge.Bridge.SelectRootPort | ryu/lib/stplib.py:587-617 | No port exactly when none in service leads to a root below the bridge; otherwise a port with the lexicographically least vector |
| StpBridge.Bridge.SelectDesignatedPort | ryu/lib/stplib.py:619-645 | Exactly the ports in service, other than the root port, whose sender is not nearer to the root |
| StpBridge.Bridge.SpanningTreeAlgorithm | ryu/lib/stplib.py:548-585 | Exactly the ports in service get a role, and it is the elected one |
| StpBridge.Bridge.Recalculate | ryu/lib/stplib.py:517-546 | Refines the recalculation relation and ends elected |
| StpBridge.Bridge.PortAdd | ryu/lib/stplib.py:421-430 | Refines the port-added event; port numbers above 0xfff are ignored |
| StpBridge.Bridge.PortDelete | ryu/lib/stplib.py:432-435 | Refines the port-deleted event |
| StpBridge.Bridge.HandleLinkUp | ryu/lib/stplib.py:437-439 | Refines the link-up event |
| StpBridge.Bridge.HandleLinkDown | ryu/lib/stplib.py:441-449 | Refines the link-down event, with recalculation for the root port |
| StpBridge.Bridge.WaitBpduTimeout | ryu/lib/stplib.py:946-972 | Refines the wait-timeout event: recalculation with all vectors cleared |
| StpBridge.Bridge.ForwardDelayExpires | ryu/lib/stplib.py:827-844 | Refines the forward-delay event of one port |
| StpBridge.Bridge.HandleConfigBpdu | ryu/lib/stplib.py:451-494 | Refines the BPDU event: unknown, disabled and aged cases ignored, superior ones recalculated |
| StpHistory.PortsHoldLeast | ryu/lib/stplib.py:421-515 | In every run of a bridge a port holds the least of the unaged vectors it has received in service since it last forgot, with the times that came with it last; when ports forget |
| StpHistory.BpduIsTaken | ryu/lib/stplib.py:451-494 | A BPDU of an unknown or disabled port or beyond its age changes nothing; any other leaves the port with the better of the two vectors and the bridge with a root no worse |
| StpHistory.TimeoutForgets | ryu/lib/stplib.py:946-972 | When BPDUs have been waited for in vain, all vectors are gone and the bridge is its own root by its own times |
| StpSettling.HeldSettles | ryu/lib/stplib.py:302-368 | The order of vectors has no endless descent: a port that only ever takes better vectors takes finitely many |
| StpSettling.RootIsDetermined | ryu/lib/stplib.py:548-617 | Whichever port wins a tie, the root and cost a bridge believes in follow from the vectors its ports hold |
| StpSettling.ExchangeSettles | ryu/lib/stplib.py:451-494 | In every infinite run of received BPDUs and forward-delay timers, in any order, every port's vector and the bridge's root and cost are constant from some moment on |
| StpNetwork.ServedLink | ryu/lib/stplib.py:1020-1040 | The far end of a serving port holds its bridge's root and cost plus the port's path cost |
| StpNetwork.OneDesignatedEndIffBalanced | ryu/lib/stplib.py:548-645 | In every stable network a link is served from exactly one end if and only if it is balanced |
| StpNetwork.EqualCostsAreBalanced | ryu/lib/stplib.py:1028-1032 | With equal path costs at both ends all links are balanced if and only if no root is cabled to itself |
| StpNetwork.ParentLink | ryu/lib/stplib.py:571-574 | A non-root bridge is one positive link cost further from the same root than its root port's peer |
| StpNetwork.AgreeOnLeastBridge | ryu/lib/stplib.py:55-82 | In every stable connected network all bridges believe in the bridge with the least identifier |
| StpNetwork.TreePath | ryu/lib/stplib.py:55-82 | Following root ports ends at the root, with exactly the believed cost |
| StpNetwork.CostIsShortestPath | ryu/lib/stplib.py:587-617 | The believed cost is the length of a shortest path to the root |
| StpNetwork.OwnRootIffLeast | ryu/lib/stplib.py:587-617 | In every stable network a bridge believes itself root if and only if no walk leads to a smaller identifier |
| StpNetwork.BalancedLoopTurnsBack | ryu/lib/stplib.py:55-82 | With balanced links a closed walk over links that neither end blocks turns back on itself |
| StpNetwork.UnbalancedLoop | ryu/lib/stplib.py:619-645 | In every stable network an unbalanced link and a tree path make a loop over carrying links that never turns back |
| StpNetwork.BalancedIffFairlyCharged | ryu/lib/stplib.py:619-645 | In every stable network a link is balanced if and only if, when it leads into the least reachable bridge, it comes from another bridge and is charged there at most as much as any detour and its other end |
| StpNetwork.NoForwardingLoopIffBalanced | ryu/lib/stplib.py:55-82 | A stable network has no forwarding loop if and only if all links are balanced, equivalently all are fairly charged by the wiring alone; cables from a bridge to itself included |
| StpNetwork.UnbalancedLinksLoop | ryu/lib/stplib.py:635-643 | A stable network with unequal costs in which both ends of a link are designated and a loop never turns back |
| StpNetwork.SelfLinkLoops | ryu/lib/stplib.py:559-602 | One bridge whose two ports are cabled together is stable with equal costs and has a loop that never turns back |
| StpNetwork.LinkUpEndsElection | ryu/lib/stplib.py:437-439 | A consistent bridge that a link-up report leaves without an election |
| RouterPrefix.MaskComparesPrefixes | ryu/app/rest_router.py:1860-1875 | Masked addresses are equal exactly if the addresses agree in their first bits |
| RouterPrefix.MaskingKeepsPrefix | ryu/app/rest_router.py:1860-1875 | Masking keeps the first bits and clears the others |
| RouterPrefix.NetworkIsInterval | ryu/app/rest_router.py:1860-1875 | As numbers, the addresses with the prefix of a network are those from its own address on, two to the power of the bits behind the prefix |
| RouterPrefix.OverlapTestIsIntersection | ryu/app/rest_router.py:1256-1268 | The two-way mask test is true exactly when the networks share an address |
| RouterPrefix.MaskingTwice | ryu/app/rest_router.py:1860-1875 | A shorter prefix of a longer prefix is the shorter prefix |
| RouterAddresses.AddressData.Add | ryu/app/rest_router.py:1256-1280 | Registers a network exactly when its mask is legal and it is disjoint from all others; otherwise names an overlapping one and changes nothing |
| RouterAddresses.AddressData.Delete | ryu/app/rest_router.py:1282-1286 | Removes one address with the identifier, if any |
| RouterAddresses.AddressData.GetByIp | ryu/app/rest_router.py:1291-1300 | The one registered network whose prefix the address begins with, or nothing exactly when there is none |
| RouterAddresses.AddressData.GetById | ryu/app/rest_router.py:1291-1300 | An address with the identifier, or nothing exactly when there is none |
| RouterAddresses.AddingKeepsDisjoint | ryu/app/rest_router.py:1256-1280 | Registered networks stay pairwise disjoint, and an accepted key is new |
| RouterRoutes.RoutingTable.Add | ryu/app/rest_router.py:1320-1354 | Refused exactly for an illegal mask or a canonical spelling already present; otherwise set or replaced |
| RouterRoutes.RoutingTable.Delete | ryu/app/rest_router.py:1356-1360 | Removes one route with the identifier, if any |
| RouterRoutes.RoutingTable.GetGateways | ryu/app/rest_router.py:1362-1363 | Exactly the gateways in use |
| RouterRoutes.RoutingTable.GetByDestination | ryu/app/rest_router.py:1365-1384 | The route of the longest prefix that the address begins with, whatever the order of visit, the default route last, or nothing exactly when none matches |
| RouterRoutes.LookupAgreesWithPriorities | ryu/app/rest_router.py:167-191 | A route is the longest match if and only if its flow matches and has the strictly highest priority among matching route flows |
| RouterRoutes.StaticPrioritiesAreBetween | ryu/app/rest_router.py:152-191 | Static priorities grow strictly with prefix length, strictly between default and implicit routing of the same VLAN |
| RouterRoutes.VlanFlowsOutrank | ryu/app/rest_router.py:167-191 | Flows of a VLAN rank 1000 above the same flows without VLAN and above all of those; flows to the router rank the same and highest in all |
| RouterCookies.CookiesShareIff | ryu/app/rest_router.py:633-644 | For all identifiers the counters hand out: two owners share a cookie exactly if they are the same, or a route number moved up 16 bits spells the other's VLAN and number |
| RouterCookies.AddressSharesWithRouteIff | ryu/app/rest_router.py:633-644 | A route of at most 16 bits shares its cookie with exactly one address of its VLAN, 65536 times its number |
| RouterCookies.CookiesAreDistinct | ryu/app/rest_router.py:633-644 | As long as identifiers have at most 16 bits, cookies coincide only for the same owner |
| RouterCookies.Decode | ryu/app/rest_router.py:621-644 | Decoding inverts encoding for all owners whose identifiers fit |
| RouterCookies.DecodeIssued | ryu/app/rest_router.py:621-644 | What the decoders see for all identifiers the counters hand out: a long route number runs over into the VLAN |
| RouterCookies.RouteDecodesIffItFits | ryu/app/rest_router.py:621-644 | A route cookie decodes to itself if and only if the identifier has at most 16 bits |
| RouterCookies.AddressDeletionIsRightIff | ryu/app/rest_router.py:814-834 | For every owner the counters can produce: its flow is picked exactly if wanted, except a long address number under "all", which is left behind, and a default or route flow that spells the number asked for, which is taken along |
| RouterCookies.RouteDeletionIsRightIff | ryu/app/rest_router.py:878-893 | For every owner the counters can produce: its flow is picked exactly if wanted, except a long route number, which is never found, and default, address or foreign route flows that spell the number asked for |
| RouterCookies.AddressDeletionIsExactIff | ryu/app/rest_router.py:814-834 | Among owners of at most 16 bits, address deletion picks exactly the wanted flows of that VLAN if and only if the request is not zero or a multiple of 65536 |
| RouterCookies.RouteDeletionIsExactIff | ryu/app/rest_router.py:878-893 | Among owners of at most 16 bits, route deletion picks exactly the wanted route flows if and only if identifier zero is not asked for |
| VlanRouter.Router.SetAddressData | ryu/app/rest_router.py:716-718 | Adds an address and keeps every route linked |
| VlanRouter.Router.SetRoutingData | ryu/app/rest_router.py:755-771 | A route is set exactly when a registered network contains its gateway, that is not the router's own address there, the mask is legal and the destination is not already spelled so; when each refusal is given; every route stays linked |
| VlanRouter.Router.ChkAddrRelationRoute | ryu/app/rest_router.py:919-932 | Lists exactly the requested addresses that routes depend on |
| VlanRouter.Router.DeletePickedAddresses | ryu/app/rest_router.py:817-851 | Removes addresses with picked identifiers only, and one for each that was there |
| VlanRouter.Router.DeleteAddressData | ryu/app/rest_router.py:806-851 | Deletes addresses and keeps every route linked |
| VlanRouter.Router.DeleteRoutingData | ryu/app/rest_router.py:870-904 | Removes routes with picked identifiers only, and one for each that was there |
| VlanRouter.Router.SendArpAllGw | ryu/app/rest_router.py:1122-1126 | Every gateway has an address to be asked from, so the lookup never fails |
| VlanRouter.RunsStayLinked | ryu/app/rest_router.py:755-932 | In every run of additions and deletions each gateway stays inside a registered network and apart from the router's own address, even when identifiers repeat |
| VlanRouter.DeletionKeepsLinksIff | ryu/app/rest_router.py:836-851 | Every outcome of a deletion keeps the link if and only if no picked identifier is that of an address that serves a route, also when identifiers repeat |
| VlanRouter.DistinctDeletionKeepsLinksIff | ryu/app/rest_router.py:836-851 | The same for the one outcome when identifiers do not repeat |
| VlanRouter.RouteAddedDuringDeletion | ryu/app/rest_router.py:814-818 | A route added while the deletion waits for the switch loses its network |
| Bits.FormatInvertsParse | ryu/ofproto/beba_v1_0_parser.py:1151-1156 | Formatting in binary inverts parsing |
| Bits.ParseInvertsFormat | ryu/ofproto/beba_v1_0_parser.py:1151-1156 | Parsing inverts formatting for numbers that fit |
| RegisterLoad.FindRuns | ryu/ofproto/beba_v1_0_parser.py:1151-1152 | The runs of ones found are maximal, ordered, separated and cover exactly the ones |
| RegisterLoad.GenerateLoads | ryu/ofproto/beba_v1_0_parser.py:1135-1157 | For every state, mask and old value, running the loads gives (old & ~mask) \| (state & mask); the segments are the maximal runs of the mask |
| RegisterLoad.RunLoadsWriteRuns | ryu/ofproto/beba_v1_0_parser.py:1150-1157 | Load list bit by bit: the run bits come from the state, the others from before |
| Substate.SubstateOf | ryu/ofproto/beba_v1_0_parser.py:761-801 | Value and mask of a section as shifted numbers; the error cases |
| Substate.FillSection | ryu/ofproto/beba_v1_0_parser.py:779-797 | Negative list positions put the last section at the right end |
| Substate.EachBitInOneSection | ryu/ofproto/beba_v1_0_parser.py:749-801 | For every section count dividing 32, each bit lies in the mask of exactly one section |
| Substate.SectionHoldsState | ryu/ofproto/beba_v1_0_parser.py:761-801 | The value lies under its mask and reads back as the state |
| Substate.DocumentedPlaceIff | ryu/ofproto/beba_v1_0_parser.py:749-760 | No section is at its documented place unless it is the only one |
| Substate.MaskedGlobalState | ryu/ofproto/beba_v1_0_parser.py:726-748 | A number matches value and mask exactly when it fits the pattern at its offset; lengths and offsets out of range and an r before a foreign character give zeros; other foreign characters reach the number parser |
| BebaKeys.ParseKey | ryu/ofproto/beba_v1_0_parser.py:914-926 | Cuts a key into the scope's fields and adds prerequisites; fails exactly for short keys |
| BebaKeys.KeyInScopeOrder | ryu/ofproto/beba_v1_0_parser.py:914-926 | A packet's key has the values of the fields in the order of the scope |
| BebaKeys.EntryIsExactIff | ryu/ofproto/beba_v1_0_parser.py:910-928 | For every key of the scope's length: its entry matches exactly the packets with that key if and only if building it altered nothing, or no packet matches it |
| BebaKeys.PacketKeyIsUnaltered | ryu/ofproto/beba_v1_0_parser.py:910-928 | Building the entry for the key of a packet alters nothing |
| BebaKeys.EntriesAreApart | ryu/ofproto/beba_v1_0_parser.py:1159-1200 | Entries of different unaltered keys are different and incomparable |
| BebaKeys.CorrectedKeyHasSameEntry | ryu/ofproto/beba_v1_0_parser.py:1159-1200 | Every key has the entry of its corrected key, which is sensible: unaltered, or with an entry no packet matches |
| BebaStateTable.OvsDatapath.SendConfigureStage | ryu/ofproto/beba_v1_0_parser.py:850-877 | Installs the control and default entries of the state table, whether or not the stage is to be stateful |
| BebaStateTable.OvsDatapath.StoreLookupScope | ryu/ofproto/beba_v1_0_parser.py:93-96 | Replaces the lookup scope of one stage |
| BebaStateTable.OvsDatapath.SendSetFlowState | ryu/ofproto/beba_v1_0_parser.py:897-936 | Installs the state entry; ignored and raising cases |
| BebaStateTable.OvsDatapath.SendDelFlowState | ryu/ofproto/beba_v1_0_parser.py:937-962 | Deletes every entry at least as specific as the key's match; ignored and raising cases |
| BebaStateTable.OvsDatapath.SendUserFlow | ryu/ofproto/beba_v1_0_parser.py:976-1032 | The flow goes to the odd table with its state match on register 0 and its jumps redirected; stages jumped to get a control entry unless in use |
| BebaFlows.RewritingIsExactIff | ryu/ofproto/beba_v1_0_parser.py:1021-1030 | With the state in register 0 a rewritten match is Beba's if and only if it does not ask for the global state |
| BebaFlows.ChoicesCorrespond | ryu/ofproto/beba_v1_0_parser.py:1021-1032 | A table of rewritten flows chooses the flow that Beba chooses |
| BebaStateTable.FlowsCorrespond | ryu/ofproto/beba_v1_0_parser.py:976-1032 | After every sequence of messages without global-state matches the odd table is the application's table, rewritten; JumpsReachTheirStage says what the instructions do |
| BebaStateTable.MessagesEmulate | ryu/ofproto/beba_v1_0_parser.py:841-1032 | After every sequence of messages with sensible keys, application flows included, the even table holds exactly the entries that stand for Beba's state table, apart from entries no packet matches |
| BebaStateTable.SetUpIff | ryu/ofproto/beba_v1_0_parser.py:1004-1018 | A stage has a default entry exactly if announced, and a control entry exactly if announced or jumped to |
| BebaPipeline.ArrivesIffOpen | ryu/ofproto/beba_v1_0_parser.py:1004-1018 | For all messages, scopes, keys and packets: a packet reaches the flow table of a stage, once, if and only if the stage was announced or a flow jumps to it, and is lost otherwise |
| BebaPipeline.StageDeliversState | ryu/ofproto/beba_v1_0_parser.py:853-869 | A packet reaches the flow table of an open stage once, after two nested lookups, with its state in register 0, also if it lacks fields of the scope |
| BebaPipeline.WrapperAgreesWithBeba | ryu/ofproto/beba_v1_0_parser.py:841-1032 | For every sequence of messages with sensible keys and every packet: the exact outcome, and that it is what Beba promises (delivery, and at a stateful stage the last state set and not deleted, or zero) if and only if the stage is open |
| BebaPipeline.WrapperChoosesBebasFlow | ryu/ofproto/beba_v1_0_parser.py:841-1032 | At a stateful stage every packet meets the flow of the application that Beba would choose |
| BebaPipeline.JumpsReachTheirStage | ryu/ofproto/beba_v1_0_parser.py:1003-1019 | Every flow of the application is installed with its other instructions unchanged and jumps that lead a packet with register 1 cleared to the flow table of the stage meant, once, with its state there if that is stateful |
| BebaPipeline.NextStageIffStateStored | ryu/ofproto/beba_v1_0_parser.py:853-869 | A packet gets from the flow table of one stage to that of the next exactly if it had a stored state in the first |
| BebaPipeline.WrapperObeysCorrectedKeys | ryu/ofproto/beba_v1_0_parser.py:841-962 | For every sequence of messages, whatever the keys, and every packet, the emulated stage does what it should for the corrected keys |
| BebaPipeline.AlteredKeyGivesWrongState | ryu/ofproto/beba_v1_0_parser.py:1159-1200 | For every altered key, each packet its entry matches receives a state that Beba does not have for it |
| BebaPipeline.EmptyScopeLosesDefault | ryu/ofproto/beba_v1_0_parser.py:937-962 | Under a scope without fields a deletion removes the default entry and register 0 keeps its old value |
| BebaPipeline.AgreesIffKeysSensible | ryu/ofproto/beba_v1_0_parser.py:841-1032 | For all messages about given keys and all packets the wrapper agrees with Beba just when the stage is open, if and only if the scope has a field and the keys are sensible, or no key is usable |
| BebaPipeline.SetRegisterSkipsFlowTable | ryu/ofproto/beba_v1_0_parser.py:864-869 | After all messages, every packet that enters a stage with register 1 set misses its flow table |
| BebaPipeline.ContradictingKeyIsAltered | ryu/ofproto/beba_v1_0_parser.py:1159-1200 | A key that contradicts a prerequisite within its scope is altered, and a packet matches its entry |
| BfdSession.BfdSession.constructor | ryu/lib/bfdlib.py:131-173 | Initial state of a session |
| BfdSession.BfdSession.UpdateXmitPeriod | ryu/lib/bfdlib.py:364-383 | New transmit period |
| BfdSession.BfdSession.SetState | ryu/lib/bfdlib.py:309-330 | New state, interval, polling and period |
| BfdSession.BfdSession.Recv | ryu/lib/bfdlib.py:227-295 | Whole effect of a received packet |
| BfdSession.BfdSession.DetectionTimeExpires | ryu/lib/bfdlib.py:348-358 | A timeout takes a live session down |
| BfdSession.BfdSession.Send | ryu/lib/bfdlib.py:408-425 | The packet sent and its flags |
| BfdSession.ReceptionFollowsDiagram | ryu/lib/bfdlib.py:247-269 | A reception moves the state as the RFC's diagram says |
| BfdSession.RunsKeepInvariant | ryu/lib/bfdlib.py:227-425 | In every run of a new session: never administratively down; slow interval unless up, configured one when up; period within 75-100 (75-90) percent of the negotiated interval; transmission enabled |
| BfdSession.FinalsAnswerPolls | ryu/lib/bfdlib.py:292-425 | In every run finals sent never outnumber polls received |
| BfdSession.NextPacketAnswersPoll | ryu/lib/bfdlib.py:416-425 | The packet sent next after a poll carries the final flag |
| BfdSession.NoPollWithFinal | ryu/lib/bfdlib.py:416-425 | No packet carries both flags |
| BfdHistory.SessionFollowsHistory | ryu/lib/bfdlib.py:227-425 | In every run of a new session: state, diagnostic, polling, pending answer, all remote values and the detection time (interval times multiplier of the last packet that asked or found it at zero) follow from the events |
| BfdHistory.NextPacket | ryu/lib/bfdlib.py:332-425 | In every run of a new session: every field of the next packet, when it may be sent, and when a timeout can happen |
| BfdPair.UpNeedsBothDirections | ryu/lib/bfdlib.py:247-269 | Over a lossy, repeating, reordering channel, a session is up only after a delivery in each direction and after the peer has been in Init or Up |
| BfdPair.SessionsCanComeUp | ryu/lib/bfdlib.py:247-269 | For any two configurations that want packets there is a run in which both sessions come up |
| BfdPair.HandshakeCompletes | ryu/lib/bfdlib.py:247-269 | Three packets, sent and delivered in turn, bring two down sessions up; a timeout at one takes the other down |
| IgmpQuerier.Querier.DoReport | ryu/lib/igmplib.py:397-423 | New membership; the entries of all groups say who the members are if and only if the report is not from the server port, which overwrites the serving entry |
| IgmpQuerier.Querier.DoLeave | ryu/lib/igmplib.py:425-443 | New membership; entries agree |
| IgmpQuerier.Querier.StartQuery | ryu/lib/igmplib.py:358-361 | No port counts as reported; members stay |
| IgmpQuerier.Querier.ExpireQuery | ryu/lib/igmplib.py:368-392 | Silent ports and empty groups are dropped; entries agree |
| IgmpQuerier.Querier.ExpireGroup | ryu/lib/igmplib.py:370-390 | One group at the timeout |
| IgmpQuerier.QueryRoundKeepsReporters | ryu/lib/igmplib.py:357-392 | A query round keeps exactly the ports whose last message since the query is a report, marked as such, and no group without one |
| RecvLoop.TakeFrames | ryu/controller/controller.py:185-214 | The inner loop takes exactly the complete frames and leaves the rest |
| RecvLoop.Receive | ryu/controller/controller.py:165-214 | However the stream is cut, frames and rest are those of splitting all received bytes at once; if OpenFlow messages were sent, they are these messages and the beginning of the next |
| RecvLoop.SplittingConservesBytes | ryu/controller/controller.py:185-205 | No byte is lost, added or moved |
| RecvLoop.SplittingInvertsConcat | ryu/controller/controller.py:185-205 | Well-formed frames written one after another are split back |
| RecvLoop.MessagesAreSplit | ryu/controller/controller.py:184-206 | OpenFlow messages encoded in network order one after another, and the beginning of a further one, are split into exactly these |
| RecvLoop.DeliveredIsBefore | ryu/controller/controller.py:170-184 | What counts is what was received before the first empty read, error or outcome after closing was requested |
| RecvLoop.InnerLoopEndsIffProgress | ryu/controller/controller.py:185-206 | The inner loop ends if and only if no frame in the buffer announces length zero |
| RpcEndpoint.EndPoint.Request | ryu/lib/rpc.py:155-161 | Identifier, buffer and pending set after a request |
| RpcEndpoint.EndPoint.SendMessage | ryu/lib/rpc.py:151-153 | Buffer after a message and a partial send |
| RpcEndpoint.EndPoint.ProcessOutgoingBuffer | ryu/lib/rpc.py:128-133 | Buffer after a partial send |
| RpcEndpoint.EndPoint.EnqueueRequest | ryu/lib/rpc.py:194-196 | Queue after an incoming request |
| RpcEndpoint.EndPoint.EnqueueNotification | ryu/lib/rpc.py:210-212 | Queue after an incoming notification |
| RpcEndpoint.EndPoint.EnqueueResponse | ryu/lib/rpc.py:198-208 | Unknown identifiers ignored; when the assertion fails |
| RpcEndpoint.EndPoint.TakeRequest | ryu/lib/rpc.py:214-224 | The oldest request, if any |
| RpcEndpoint.EndPoint.TakeNotification | ryu/lib/rpc.py:236-237 | The oldest notification, if any |
| RpcEndpoint.EndPoint.TakeResponse | ryu/lib/rpc.py:226-234 | The stored reply, removed |
| RpcEndpoint.BytesAreConserved | ryu/lib/rpc.py:128-161 | In every run, accepted bytes followed by the buffer are all messages in order |
| RpcEndpoint.QueuesAreCounted | ryu/lib/rpc.py:194-237 | In every run the counter is the size of the three queues |
| RpcEndpoint.QueuesStayInOrder | ryu/lib/rpc.py:194-237 | In every run requests and notifications are handed out in order of arrival |
| RpcEndpoint.RequestsAreNumbered | ryu/lib/rpc.py:47-50 | In every run the next identifier is the number of requests sent, modulo 0xffffffff |
| RpcEndpoint.FreshIffWindowMoves | ryu/lib/rpc.py:47-50 | The next identifier is free if and only if all open requests are among the last 0xfffffffe issued |
| RpcEndpoint.EveryEventIsNoted | ryu/lib/rpc.py:155-234 | The account of requests by serial number can follow every event |
| RpcEndpoint.RunsTrackRequests | ryu/lib/rpc.py:155-234 | While identifiers are sent fresh, they stand for unbounded serial numbers, none is both pending and answered, and the assertion never fails |
| RpcEndpoint.FetchTracks | ryu/lib/rpc.py:226-234 | A fetched reply belongs to an open request that was never handed out before, and closes it |
| RpcEndpoint.SendKeepsDistinctIff | ryu/lib/rpc.py:155-163 | A request keeps the identifiers of open requests distinct if and only if it is sent under a free one |
| RpcEndpoint.AssertionCanFailIff | ryu/lib/rpc.py:198-208 | Some message can fail the assertion if and only if an identifier is both pending and answered |
| RpcEndpoint.ApartIsKeptIff | ryu/lib/rpc.py:155-234 | From a state where none is, one event makes an identifier both if and only if it issues one whose reply waits |
| RpcEndpoint.NoReissueNoFailure | ryu/lib/rpc.py:155-234 | In every run without such an issue no message fails the assertion |
| RpcEndpoint.FailureDropsRequest | ryu/lib/rpc.py:198-208 | A message that fails the assertion loses its request; the waiting reply stays |
| RpcEndpoint.ReuseTripsAssertion | ryu/lib/rpc.py:198-208 | Reissuing an identifier whose reply waits makes the next response fail the assertion |

## Left out

- Interleaving at the points where a handler yields to other green threads, except the wait inside an address deletion: handlers run to completion.
- Spanning-tree networks: links are cables between two different ports, with positive path costs; shared segments and plugs that return a port's own frames are not modelled.
- Spanning tree: topology-change flags and notifications, threads, port configuration messages, and a non-zero system identifier extension, which transmitted BPDUs do not carry.
- REST router: textual addresses, packet handling, MAC learning, suspended packets, the flows installed for an address, and putting the drop flow back after a default route is deleted.
- Beba: the extractor and set-state branches, whose formats yield more values than they name; state timeouts and rollback; partial state masks in set-flow-state; global states; group messages; modification and deletion of the application's flows; state statistics. The switch is taken to accept every entry, although the prerequisites that the wrapper adds are not closed (a TCP port adds the IP protocol but no Ethernet type).
- Beba's own state table: is taken from the messages alone; states set while a stage is not stateful count, and nothing is promised about the state at a stage that is not stateful.
- BebaKeys.ParseKey: takes the prerequisite table and the field lengths as data and keeps field values as bytes, since the program's textual values only rename them.
- BebaPipeline.WrapperAgreesWithBeba: keeps the lookup scopes fixed during a run, although `StoreLookupScope` can change them between messages.
- BebaStateTable.OvsDatapath.SendUserFlow: takes flows without Beba actions; turning a set-state action into a learn action is not modelled.
- Substate.MaskedGlobalState: gives no result where characters other than 0, 1 and * get past the program's test, which looks for the letter r before them; the number parser is not modelled.
- BFD: authentication, demand mode of the local system, echo, and addresses; periods are exact multiples of a hundredth of a microsecond instead of floating-point seconds.
- IGMP: the snooper, and reconnection of the switch.
- Receive loop: parsing and dispatching of a frame; an unknown version, which ends the connection.
- msgpack-rpc: the codec, the receiving loop and the blocking client.
