# ovn4nfv-k8s-plugin: a verified model

ovn4nfv-k8s-plugin gives Kubernetes pods several OVN networks, provider networks and routed service
function chains. This project models its stateful parts in Dafny and proves what they keep, what
they compute and what they undo. `dafny verify dfyconfig.toml` checks everything.

Every external command or call (`ip`, `ovs-vsctl`, `ovn-nbctl`, iptables, the API server, a gRPC
send) is a step on a small state: a route table, a set of ports, a map of links, a text, a stream.
Whether it works is a parameter (`failAt`, `fails`, `Faults`, `Calls`, `broken`, outcome lists), so a
statement over all parameters covers failures at any point. A Go index panic is an outcome of its
own (`IndexPanic`, `Panicked`). Code that updates fields or tables is a class with `modifies` clauses
whose methods are proved equal to functions on the old state; the properties are proved of these
functions and of the runs made of them.

| file | part of the system |
|---|---|
| `RouteTable.dfy` | a container's kernel routes and the agent's insertion of routes |
| `Chain.dfy`, `ChainEntries.dfy` | the operator's route calculation for a service function chain |
| `Notify.dfy`, `NetworkMessages.dfy` | the notification server: streams, selectors, the subscribe handshake |
| `Delivery.dfy`, `Forwarding.dfy`, `SmallChain.dfy` | route lists sent and replayed; packets following the installed tables; a chain that meets every hypothesis |
| `BridgeMapping.dfy`, `NodeState.dfy` | the `ovn-bridge-mappings` text, VLAN links and bridges of a node |
| `Agent.dfy`, `LiveNetworks.dfy`, `ProviderFailures.dfy`, `Resync.dfy` | the agent before, after and at the moment of InSync; failing commands |
| `Handshake.dfy`, `ProviderNetworks.dfy` | operator and nodes together: a node joining; creates and deletes over a whole run |
| `CniResult.dfy`, `CniPorts.dfy` | the result of a CNI ADD; the `br-int` ports of ADD and DEL |
| `PodPorts.dfy`, `PodAnnotation.dfy`, `PodLifecycle.dfy`, `PodController.dfy` | a pod's logical ports, over retries and runs |
| `NetworkController.dfy`, `Finalizers.dfy` | the Network reconciler with its finalizer, as a state machine |
| `IpTables.dfy`, `Address.dfy` | ensuring iptables rules; address arithmetic and the default gateway |
| `Strings.dfy`, `Wrappers.dfy` | the parts of Go's `strings` used; option and result types |

## What the code does that one might not expect

- The resync passes skip the kind of network they are named for (`cmd/nfn-agent/nfn-agent.go:141`,
  `:166`, `:202`). `Resync.ResyncProvisionsNothing` shows that a resync leaves all stored networks
  with their bridge only when none is stored.
- A VLAN network without an explicit logical interface is created as `name.vlanID`, but its remove
  message selects neither kind; `LiveNetworks.RemoveUndoesCreate` has the exact condition.
- `NextIP` returns a shorter byte string when the result begins with a zero byte
  (`Address.NextIPKeepsLength`), and merging results is not associative for indices below -1
  (`CniResult.MergeAssociative`); the server itself only ever merges results with index 1.
- An annotation with more than nine entries never gives a CNI result: the tenth host name is too
  long for the kernel (`CniPorts.ResultIsCleanedUp`).
- Deleting a pod's ports also takes those of pods whose name extends it (`PodLifecycle.DeletionReach`).
- When a pod of a chain gets a new address, its neighbours keep the old gateway for every network
  and only their default moves (`Forwarding.AddressChange`).
- A name that itself holds `br-` makes a sweep aim at another bridge (`Resync.StrippedBack`).
- A pod without a network annotation whose patch fails is not looked at again
  (`PodController.DroppedForGood`), and the status of a network for ANY node is set to created even
  when no node is subscribed (`Notify.AnyMarked`).
- A VLAN link whose creation stopped half way is taken as it is by the next create, and stays
  unmarked or down (`ProviderFailures.CreateAgain`).
- A managed iptables rule that stands twice can end up out of order (`IpTables.OrderExactly`).
- The chain is looked up in the namespace of the NetworkChaining object; the namespace field of its
  routing spec is not read.

## Model

| member | source | states |
|---|---|---|
| RouteTable.PodNetns.ContainerAddRoute | internal/pkg/utils/chain.go:171-224 | the table and the success flag after one message are exactly those of host route first, then every route in order up to the first failing command |
| RouteTable.InstallFirstWins | internal/pkg/utils/chain.go:209-214 | an absent destination ends up with the gateway of its first route in the message, whatever follows |
| RouteTable.InstallLastDefault | internal/pkg/utils/chain.go:203-208 | a message that ends with a default route leaves exactly that default |
| RouteTable.RouteNeverChanges | internal/pkg/utils/chain.go:193-216 | over any run of messages with any command failing, a present non-default route, the host route among them, keeps its value |
| RouteTable.HostRouteSafety | internal/pkg/utils/chain.go:186-216 | if the host network had no route at the start, after any run either nothing changed or it is routed through the original default gateway; so the default is never replaced before that |
| RouteTable.InstallAgain | internal/pkg/utils/chain.go:199-216 | installing the tail of what was installed once more changes nothing |
| RouteTable.InstallStale | internal/pkg/utils/chain.go:199-216 | installing a list again with other gateways only moves the default |
| RouteTable.RetryAlone | internal/pkg/utils/chain.go:186-218 | after an insertion that failed at any command, a later one that works leaves the table that it alone would have left |
| RouteTable.SuccessStays | internal/pkg/utils/chain.go:186-218 | after an insertion that worked, repeating it changes nothing, wherever the repetition fails, if the default route comes last in the message |
| RouteTable.InsertionWorks | internal/pkg/utils/chain.go:171-218 | an insertion succeeds iff the host network and a default gateway are known and none of its commands fails |
| RouteTable.DefaultWords | internal/pkg/utils/chain.go:199-214 | "0.0.0.0" replaces the default route; "default" and "0.0.0.0/0" do not change one that is there |
| Chain.Operator.CalculateDeploymentRoutes | internal/pkg/utils/chain.go:52-135 | the entry, or the error of the first lookup that fails, index panics included |
| ChainEntries.EntryOfPod | internal/pkg/utils/chain.go:66-133 | the entry names the first pod of its position, its node and its container without the "docker://" in front, and its edge routes lead through the addresses of the pods next to it, or out at the ends |
| ChainEntries.CalculationFails | internal/pkg/utils/chain.go:52-122 | for labels of the form key=value, a calculation fails with the error of the first lookup that fails, in the order of the lookups, and else succeeds |
| ChainEntries.NeighbourByLabel | internal/pkg/utils/chain.go:86-102 | a neighbour's address is looked up by the value of its label on the network between the two |
| Chain.Operator.DynamicRoutes | internal/pkg/utils/chain.go:110-126 | the loop yields the routes of all non-adjacent networks in chain order, or fails exactly when one of their subnets is unknown |
| Chain.Operator.CalculateRoutes | internal/pkg/utils/chain.go:137-169 | the operator's list grows by this chain's entries up to the first failure, is never cut, and on success is returned whole |
| Chain.Operator.Deinterleave | internal/pkg/utils/chain.go:145-155 | the parity loop splits the chain text into its deployments and networks |
| Chain.EntriesAt | internal/pkg/utils/chain.go:161-167 | entry i of the growing list is position i's routes, and only a failing position ends the list early |
| Chain.ChainText | internal/pkg/utils/chain.go:145-154 | interleaving the two lists and joining them gives back the chain's own text; edges and namespace are taken over |
| Chain.Coverage | internal/pkg/utils/chain.go:104-133 | at every position each chain network is adjacent or has exactly one dynamic route, towards the right neighbour if ahead and the left one if behind; the one default comes last, through the right neighbour |
| Chain.MirrorLaw | internal/pkg/utils/chain.go:86-154 | the text of an odd chain reversed, with the edge networks swapped, gives at num-1-pos the same entry with left and right swapped and the dynamic routes other than the default reversed; one side succeeds iff the other does |
| Notify.Server.SendNotif | internal/pkg/nfnNotify/server.go:179-287 | which streams receive which message for every type, selector, requested node and set of unreachable nodes, and when the network is then marked as created; a failed node list hangs |
| NetworkMessages.VlanSends | internal/pkg/nfnNotify/server.go:186-211 | by a VLAN network's own fields: for each selector word, who gets the create with its VLAN parameters, or the remove with its logical interface, whatever its direct fields say |
| NetworkMessages.DirectSends | internal/pkg/nfnNotify/server.go:212-237 | the same for a direct network and its direct fields |
| NetworkMessages.OthersRefused | internal/pkg/nfnNotify/server.go:238-243 | any other CNI or network type is refused and nobody is told |
| NetworkMessages.FoldExactly | internal/pkg/nfnNotify/server.go:192-204 | a selector word is recognised in any mix of cases and under no other spelling |
| Notify.Server.SendAll | internal/pkg/nfnNotify/server.go:249-260 | every wanted and reachable client gets the message once, in any map order; unreachable ones are skipped |
| Notify.Server.SendSpecific | internal/pkg/nfnNotify/server.go:274-286 | the listed clients get the message in list order up to the first failing send |
| Notify.Server.Subscribe | internal/pkg/nfnNotify/server.go:60-104 | if no network goes to ANY node and every node list comes back, the new stream carries one create per network meant for the node, in list order (none if the list of networks failed), then InSync, or nothing if the node cannot be reached; all other streams are as before |
| Notify.HandshakeStep | internal/pkg/nfnNotify/server.go:179-287 | a create requested for one node reaches it exactly when the network selects it and the node is reachable, and reaches nobody else |
| NetworkMessages.SelectsExactly | internal/pkg/nfnNotify/server.go:186-237 | which networks are meant for a node, by their own selector and labels |
| Notify.AnyMarked | internal/pkg/nfnNotify/server.go:202-209 | the status of a network for ANY node is set to created without any node having been told iff nobody is subscribed |
| Notify.AnyCreatedSilent | internal/pkg/nfnNotify/server.go:202-209 | once a network for ANY node is marked as created, neither a create nor a delete message about it is sent |
| Notify.Server.SendRouteNotif | internal/pkg/nfnNotify/server.go:290-336 | the streams and the success flag after sending a route list, stopping at the first failing send |
| Notify.RouteStreams | internal/pkg/nfnNotify/server.go:295-334 | every subscribed node's stream gains its own messages in list order up to the first failing send; success iff none fails |
| NetworkMessages.LeftEdgeFirst | internal/pkg/nfnNotify/server.go:295-318 | the left route comes first in a route message, so it wins if both edges have one subnet |
| Delivery.HandleRoutesEffect | cmd/nfn-agent/nfn-agent.go:276-286 | an agent's stream acts on every container separately, as one host route and one long list of routes |
| Delivery.ReplayUnchanged | internal/pkg/utils/chain.go:193-216 | receiving the tail of a stream again changes no container's table |
| Delivery.ReplayHarmless | internal/pkg/utils/chain.go:49-49 | however often one unchanged chain is reconciled and the growing list sent again, every table stays as after the first time, for any earlier list, with no other chain in between and without failures |
| Delivery.OneSuccessIsEnough | cmd/nfn-agent/nfn-agent.go:276-286 | if all messages for a container carry one list, then as soon as one of them was handled without a failure the table is as after that list alone, whatever failed before or after |
| Forwarding.HopCloser | internal/pkg/utils/chain.go:104-133 | in a well-formed chain every installed hop is exactly one position closer, and a packet leaves the chain only where it should, by the right entry |
| Forwarding.DeliveryWithoutLoops | internal/pkg/utils/chain.go:86-133 | from every position towards every chain network, either edge or anywhere else, the tables deliver in exactly the positional distance |
| Forwarding.SameEntries | internal/pkg/nfnNotify/server.go:295-334 | a container whose entry stands in the list any number of times ends up as after one copy |
| Forwarding.FullRoundServes | internal/pkg/nfnNotify/server.go:290-336 | one reconcile, of whichever chain, whose sends all work is enough for that on a node whose commands work, once the pod's entry is in the list |
| Forwarding.ServiceChainWorks | internal/pkg/utils/chain.go:137-218 | end to end from the chain text over the route list, streams and agents to packets, for the nodes and containers that the cluster gives the pods: any odd chain, any reconciles of this and other chains on the one list that agree about its containers, with calculations, sends and `ip` commands failing anywhere, as long as each pod's message was once handled without a failure |
| Forwarding.FirstReconcileWorks | internal/pkg/utils/chain.go:137-218 | one undisturbed reconcile of a chain on an empty list is enough for that |
| Forwarding.AddressChange | internal/pkg/utils/chain.go:193-216 | after a neighbour's address changed, a new reconcile only moves the default: the table is as it should be iff neither neighbour's address changed |
| BridgeMapping.RoundTrip | internal/pkg/ovn/common.go:168-202 | for every iteration order the printed text parses back to the map iff keys and values are free of separators and outer blanks |
| BridgeMapping.ReadableIsClean | internal/pkg/ovn/common.go:170-180 | any text that can be read at all stands for such a map |
| BridgeMapping.ReadLabel | internal/pkg/ovn/common.go:171-179 | a label gives what stands around its first colon, up to a second one, without blanks |
| BridgeMapping.ReadLabels | internal/pkg/ovn/common.go:170-180 | the text is read label by label, a later one for the same network winning |
| BridgeMapping.ParseMapping | internal/pkg/ovn/common.go:168-180 | the parsing loop, with the index panic for a label without a colon |
| BridgeMapping.PrintMapping | internal/pkg/ovn/common.go:197-202 | the printing loop gives the text of some order that names every key once |
| BridgeMapping.OpenVSwitch.UpdateOvnBridgeMapping | internal/pkg/ovn/common.go:160-211 | the stored text after an add or delete, for every order and every failing command; absent exactly when a delete emptied the map |
| BridgeMapping.RunRefines | internal/pkg/ovn/common.go:160-211 | any run of updates on the text, with failures anywhere, reads as the same run on a plain map |
| NodeState.Node.CreateVlan | internal/pkg/ovn/common.go:34-58 | the links after the checks and the three commands, any of which may fail |
| NodeState.Node.DeleteVlan | internal/pkg/ovn/common.go:61-71 | the link goes if it is there and the command works |
| NodeState.Node.CreatePnBridge | internal/pkg/ovn/common.go:89-112 | bridges and mapping text after the commands, any of which may fail; a port of another bridge is refused |
| NodeState.Node.DeletePnBridge | internal/pkg/ovn/common.go:115-128 | the bridge and, with it, the mapping entry go |
| NodeState.Node.GetPnBridge | internal/pkg/ovn/common.go:131-157 | exactly the bridges with a non-empty nfn external ID that can be read, in any order; none if the list fails |
| NodeState.Node.GetVlan | internal/pkg/ovn/common.go:74-86 | exactly the links marked as the plugin's, or none if they cannot be listed |
| Agent.NfnAgent.HandleNotif | cmd/nfn-agent/nfn-agent.go:239-305 | what each kind of message does to node, buffer, sync flag and container tables, before and after InSync, with any command of a create, remove or route message failing, and when it ends the process |
| Agent.NfnAgent.HandleInSync | cmd/nfn-agent/nfn-agent.go:243-274 | the node after a create or remove message once in sync, with any command failing; the process ends iff an unreadable mapping text is to be updated |
| Agent.NfnAgent.HandleBeforeSync | cmd/nfn-agent/nfn-agent.go:243-266 | before InSync creates are buffered in order and all else leaves the agent alone |
| Agent.NfnAgent.HandleInSyncMessage | cmd/nfn-agent/nfn-agent.go:288-292 | both passes run over the buffer, which is then empty, and the agent is in sync; for tidy names and working commands the node is resynced; only an unreadable mapping text ends the process |
| Agent.NfnAgent.HandleStream | cmd/nfn-agent/nfn-agent.go:58-80 | the receiving loop up to a message that ends the process: container tables and node states message by message, with failures per message, and after a handshake the node resynced against exactly its creates |
| Agent.HandshakeBuffer | cmd/nfn-agent/nfn-agent.go:243-247 | when the handshake's InSync arrives, the buffer is exactly the creates of the networks meant for the node |
| Handshake.Join | internal/pkg/nfnNotify/server.go:60-104 | subscribing, sending routes and working off the stream, in one run: the node is resynced against exactly the networks meant for it, and, if its mapping text can be read, its containers get exactly the routes of its entries before the first failing send |
| LiveNetworks.CreateMakesLive | cmd/nfn-agent/nfn-agent.go:84-116 | a create, first or repeated, adds exactly its network's link, bridge and mapping |
| LiveNetworks.RemoveEndsLife | cmd/nfn-agent/nfn-agent.go:118-130 | a remove takes exactly these away, and nothing if they are not there |
| LiveNetworks.RunIsLiveNetworks | cmd/nfn-agent/nfn-agent.go:239-274 | over any run of creates and removes the node is its prior state plus exactly the live networks, foreign mapping entries included |
| LiveNetworks.RemoveUndoesCreate | cmd/nfn-agent/nfn-agent.go:84-130 | creating an absent network and removing it restores the node iff the network names its port |
| ProviderFailures.CreateAsFar | cmd/nfn-agent/nfn-agent.go:84-116 | a create whose commands fail anywhere leaves behind exactly the link, bridge, port, name and mapping that it got to |
| ProviderFailures.RefusedCreate | internal/pkg/ovn/common.go:34-58 | a create with missing parameters, or a VLAN link name that the kernel refuses, changes nothing |
| ProviderFailures.PortTaken | internal/pkg/ovn/common.go:89-112 | a port that sits on another bridge leaves the network's bridge without port, name and mapping |
| ProviderFailures.BothParts | cmd/nfn-agent/nfn-agent.go:249-261 | of a message with both parts the direct part is only turned to when the VLAN part got through |
| ProviderFailures.CreateAgain | internal/pkg/ovn/common.go:34-58 | a create that failed anywhere and then one that works leave the network complete iff the first did not stop between adding the VLAN link and setting it up |
| ProviderFailures.RemoveAsFar | cmd/nfn-agent/nfn-agent.go:118-130 | a remove takes link, bridge and mapping as far as their commands work, none waiting for the link |
| ProviderNetworks.StreamGrows | internal/pkg/nfnNotify/server.go:179-336 | over any run of creates, deletes and route lists a node's stream grows by exactly its route messages and the messages of the networks that select it, in order |
| ProviderNetworks.NodesShowLiveNetworks | cmd/nfn-agent/nfn-agent.go:239-274 | after any such run a node in sync has its prior state plus exactly the live networks that select it |
| ProviderNetworks.LiveOnExactly | internal/pkg/nfnNotify/server.go:179-287 | these are the networks selecting the node that were created and not deleted since |
| ProviderNetworks.ServeNode | cmd/nfn-agent/nfn-agent.go:58-80 | the same for the agent's own loop on the stream that the server's run left, which it works off to the end |
| Resync.InSyncDirectProviderNetwork | cmd/nfn-agent/nfn-agent.go:196-224 | the direct pass sweeps exactly the listed bridges that no stored network without a direct part is named for |
| Resync.InSyncVlanProviderNetwork | cmd/nfn-agent/nfn-agent.go:132-194 | the VLAN pass does nothing if some stored network has no VLAN part, and otherwise removes all the plugin's links and bridges |
| Resync.StrippedBack | cmd/nfn-agent/nfn-agent.go:208-208 | stripping a bridge name gives the network's name back iff that name does not hold "br-" |
| Resync.ResyncSurvivors | cmd/nfn-agent/nfn-agent.go:132-224 | which listed bridges survive a resync, as an if-and-only-if; unmarked bridges are untouched |
| Resync.ResyncMapping | cmd/nfn-agent/nfn-agent.go:181-223 | exactly the swept bridges' mapping entries go, and when the links go |
| Resync.ResyncProvisionsNothing | cmd/nfn-agent/nfn-agent.go:132-224 | after a resync every stored network has its bridge iff none was stored |
| CniResult.MergeWithResult | internal/pkg/cniserver/cni.go:42-82 | dst is extended in place by the source's lists with shifted indices; without dst the source is returned |
| CniResult.MergeKeepsPointers | internal/pkg/cniserver/cni.go:56-66 | every address still points at the interface it pointed at; missing and -1 indices are left alone |
| CniResult.MergeAssociative | internal/pkg/cniserver/cni.go:56-81 | merging is associative iff no index of the last result is shifted onto -1 |
| CniResult.AddMultipleInterfaces | internal/pkg/cniserver/cni.go:94-202 | a result comes exactly for a named pod, a non-empty list and entries that can all be configured, and it is the merge of theirs |
| CniResult.DecideFlags | internal/pkg/cniserver/cni.go:129-145 | the flag assignments of one entry give the default-gateway decision and the flag handed on |
| CniResult.BuiltIndices | internal/pkg/cniserver/cni.go:106-199 | n entries give 2n interfaces, and address i has the entry's own address, gateway and IP version and index 2i+1, its own container interface (CNI Specification 0.3.1, section "Result") |
| CniResult.DefaultRoutes | internal/pkg/cniserver/cni.go:129-191 | exactly which default routes any entry list yields, through whose gateway, and how many: one if a named interface asks, plus, for eth0, one per "*" entry before it |
| CniResult.ExactlyOneDefault | internal/pkg/cniserver/cni.go:129-145 | with one "*" entry at the end there is one default route through the first named interface that asks; else eth0 gets one through the "*" entry and other names get none |
| CniPorts.IntegrationBridge.AddInterfaces | cmd/ovn4nfvk8s-cni/app/helper_linux.go:180-221 | the ports plugged are prefix1 to prefixN, never more than nine, up to a failure, a taken name or one that is too long for a link, and all n of them iff none of these is met |
| CniPorts.IntegrationBridge.CmdDel | internal/pkg/cniserver/cni.go:304-317 | the ten names, or those before an unexpected error, are pulled out |
| CniPorts.DelUndoesAdd | internal/pkg/cniserver/cni.go:304-317 | after any ADD a DEL restores br-int iff no other port has one of the ten names it tries |
| CniPorts.AddThenDel | internal/pkg/cniserver/cni.go:304-317 | for a prefix of one's own, an ADD of a list of any length, stopped anywhere, and a DEL leave br-int as it was |
| CniPorts.ResultIsCleanedUp | internal/pkg/cniserver/cni.go:94-202 | a CNI result has at most nine entries, and its host interfaces are exactly the ports 1 to n, all of which DEL pulls out |
| PodPorts.OvnController.AddLogicalPorts | internal/pkg/ovn/ovn.go:120-194 | ports and annotation entries after one attempt, for every way its commands go, with the shared record carried along |
| PodAnnotation.AttemptExactly | internal/pkg/ovn/ovn.go:120-194 | an attempt read off the pod's own list: element after element gets its port on its own network up to the first that does not work, then the default port; the annotation comes iff all worked, each entry with its port's address |
| PodAnnotation.EveryPortInPlace | internal/pkg/ovn/ovn.go:150-187 | on success every element's port is there, tagged and on the network it names, and the pod's own port on the default network |
| PodAnnotation.RecordIsLatest | internal/pkg/ovn/ovn.go:135-161 | the shared record holds, for every key, what the list said last |
| PodPorts.OvnController.DeleteLogicalPorts | internal/pkg/ovn/ovn.go:197-222 | exactly the tagged ports whose name holds the pod's go, less those whose deletion fails |
| PodLifecycle.Attempt | internal/pkg/ovn/ovn.go:120-194 | an attempt keeps all ports, tags what it adds, adds only its own names, and all of them if it succeeds |
| PodLifecycle.RetryConverges | internal/pkg/ovn/ovn.go:120-194 | after any failed attempts a successful one leaves the same ports, with the same switches and tags, as one uninterrupted run from the start |
| PodLifecycle.NodePortsSurvive | internal/pkg/ovn/ovn.go:371-374 | over any run of attempts, deletions and node port creations, a node's untagged port, whose name holds no underscore (`internal/pkg/config/config.go:306-312`), stays as it is |
| PodLifecycle.PodGone | internal/pkg/ovn/ovn.go:197-222 | after any run over any pods and nodes, a working deletion leaves none of the pod's ports |
| PodLifecycle.DeletionReach | internal/pkg/ovn/ovn.go:209-218 | for two pods with proper names, deleting one takes another's port iff the other's namespace ends and its name begins with the first one's, or its name and interface do so; in the first case all its ports go |
| PodLifecycle.OneStar | internal/pkg/ovn/ovn.go:135-187 | for lists that do not name the default network or "*", success gives exactly one "*" entry, at the end |
| PodLifecycle.EntriesCarryAddresses | internal/pkg/ovn/ovn.go:136-187 | on success entry i carries port i's own address, with the interface and flag of the overlaid record, and at most the default entry follows |
| PodLifecycle.OneDefaultRouteEndToEnd | internal/pkg/cniserver/cni.go:94-202 | from such a list to the CNI result: exactly one default route for eth0, at most one otherwise |
| PodController.ReconcilePod.Reconcile | pkg/controller/pod/pod_controller.go:114-213 | pods, ports and requeueing after a reconcile, for every way its calls go |
| PodController.StoredReconcile | pkg/controller/pod/pod_controller.go:138-213 | which stored pods are left alone, which come back, and that the others get the ports and the answer of their own list |
| PodController.GoneReconcile | pkg/controller/pod/pod_controller.go:121-133 | for a pod that is gone exactly its tagged ports go whose deletion works, and none that begins with its name is left if all works |
| PodController.DeletedPodCleaned | pkg/controller/pod/pod_controller.go:78-133 | over any run a deleted pod is queued until a reconcile came to it, and after that, with the calls working, none of its ports is left |
| PodController.AnnotatedOnlyComplete | pkg/controller/pod/pod_controller.go:169-200 | a pod is annotated only when every port of its list is there and its request is done; other and annotated pods are never touched |
| PodController.NeverForgotten | pkg/controller/pod/pod_controller.go:59-154 | over any run of pod events and reconciles, an unanswered pod is queued unless its last reconcile failed to patch, had no OVN controller or met another network type |
| PodController.DroppedForGood | pkg/controller/pod/pod_controller.go:59-154 | a reconcile and an update leave a pod without answer or request in every later run iff it has no network annotation and the controller was missing, or its port could be added and only the patch failed |
| NetworkController.ReconcileNetwork.Reconcile | pkg/controller/network/network_controller.go:67-188 | a reconcile without interruption is a run of the state machine, for every way its calls go, and whether it returns an error |
| NetworkController.MarkedReconcile | pkg/controller/network/network_controller.go:136-179 | a marked object loses the finalizer whatever happened in OVN, the others keep their order, and with none the object goes; the switch goes as OVN deleted it; the status tells of a refusal |
| NetworkController.UnmarkedReconcile | pkg/controller/network/network_controller.go:100-134 | any other object has the finalizer, and if its type is served the switch as the create made it and the status as it went |
| NetworkController.ReconcileLeaves | pkg/controller/network/network_controller.go:67-94 | which reconciles change nothing |
| NetworkController.MarkedObjectGoes | pkg/controller/network/network_controller.go:160-175 | reconciles whose last write fails keep a marked object, and the first whose last write works lets it go |
| NetworkController.ReconcileNetwork.Update | pkg/controller/network/network_controller.go:168-182 | a write is refused when the object was written or replaced since it was read, leaves the status alone, and takes a deleted object's last finalizer with it |
| NetworkController.ReconcileNetwork.UpdateStatus | pkg/controller/network/network_controller.go:120-157 | a status write is refused in the same cases and leaves everything else alone |
| NetworkController.ReconciledKeepsInv | pkg/controller/network/network_controller.go:67-94 | one reconcile keeps the invariant and ends idle |
| NetworkController.StepKeepsInv | pkg/controller/network/network_controller.go:100-188 | every single call, user action, foreign finalizer edit or crash keeps the invariant |
| NetworkController.NoOrphanSwitch | pkg/controller/network/network_controller.go:159-188 | in every run with interleaving and failures a switch exists only while the stored object carries the finalizer, except after an OVN delete that failed, until the next create or working delete |
| NetworkController.MarkedNeverCreated | pkg/controller/network/network_controller.go:100-105 | once an object is marked for deletion and no reconcile is about to create, its switch is never created again while the object is stored |
| NetworkController.MarkedCreatedExactly | pkg/controller/network/network_controller.go:100-188 | some run brings up the switch of a marked object while it is stored iff, at the start of the run, a reconcile from before the mark is about to create it |
| Finalizers.Contains | pkg/utils/finalizer_utils.go:3-10 | true iff the name is in the slice |
| Finalizers.Remove | pkg/utils/finalizer_utils.go:12-20 | the slice without the name, in order |
| Finalizers.RemovedExactly | pkg/utils/finalizer_utils.go:12-20 | every other name keeps its multiplicity, and a slice without the name is unchanged |
| Finalizers.RemovedBetween | pkg/utils/finalizer_utils.go:12-20 | a name that stands once is cut out and the rest keeps its order |
| IpTables.IPTables.Ensure | internal/pkg/network/iptables.go:86-103 | the chains and the success for every way its commands go: nothing is touched when a check fails or all rules are there; else all deletions and then the appends up to a failing one; success leaves all managed rules present |
| IpTables.IPTables.RulesExist | internal/pkg/network/iptables.go:41-54 | true iff all rules are present, or the failing check is reached |
| IpTables.EnsuredOrder | internal/pkg/network/iptables.go:86-124 | in particular, if one was missing and none occurred twice, every chain is its other rules in order followed by the managed ones in list order, and a second ensure changes nothing |
| IpTables.OthersUntouched | internal/pkg/network/iptables.go:105-124 | foreign rules and their order survive every ensure, also with failing deletions, repeated rules or a setup that stops half way |
| IpTables.FailedDeletions | internal/pkg/network/iptables.go:116-124 | a deletion that fails leaves its rule alone; the teardown is that of the other rules |
| IpTables.FirstIsDeleted | internal/pkg/network/iptables.go:105-113 | a deletion takes the first of equal rules |
| IpTables.TwiceBreaksOrder | internal/pkg/network/iptables.go:33-39 | an input for which the order comes out wrong: a forward rule that stands twice while the other is missing |
| IpTables.OrderExactly | internal/pkg/network/iptables.go:86-124 | an ensure that had to act leaves a chain as its other rules followed by the managed ones in list order iff one deletion per managed rule, less those that fail, leaves the other rules followed by a first part of that list |
| Address.NextIPKeepsLength | internal/pkg/ovn/common.go:327-341 | for every byte string, NextIP keeps the length of the four-byte or else sixteen-byte form iff it neither overflows nor yields a leading zero byte, and is then the byte-wise increment with carries, one more in value |
| Address.BytesOfValue | internal/pkg/ovn/common.go:332-341 | bytes to value and back is the identity for every string without a leading zero byte |
| Address.IncrementedValue | internal/pkg/ovn/common.go:327-330 | the carry-propagating increment adds one, or wraps to zero from all ones |
| Address.DefaultGatewayInside | internal/pkg/ovn/common.go:281-303 | the default gateway of a subnet (RFC 4632, section 3.1) lies inside it and is not the network address iff the prefix is at most 31 and the first byte is not zero |

## Left out

- Forwarding.ServiceChainWorks: a packet is matched by its exact destination subnet or else the default; longest-prefix matching between overlapping subnets is not modelled, and a node's host network stays the same.
- Delivery.ReplayHarmless: no command or send fails and no other chain is reconciled in between; `Forwarding.ServiceChainWorks` allows both for lists that agree about the containers.
- Resync.InSyncVlanProviderNetwork: the passes are modelled with their commands working, and their effect is stated for bridges named by the plugin after networks without "br-" in the name.
- Resync.InSyncDirectProviderNetwork: as for the VLAN pass.
- LiveNetworks.RunIsLiveNetworks: commands work, and names, parameters and ports are fixed and do not clash with each other or the prior state.
- ProviderNetworks.NodesShowLiveNetworks: sends and commands work, no network goes to ANY node, each name keeps its parameters and selectors, and no node changes its labels during the run.
- CniResult.MergeWithResult: address records are values; in the source the shifted record is shared with the source result, whose index thus moves too.
- Agent.NfnAgent.HandleInSyncMessage: the commands of the passes work, and the node's own port after them is left out.
- Agent.NfnAgent.HandleNotif: as for HandleInSyncMessage.
- Notify.Server.SendNotif: whether the write of the created status takes effect is up to the API server.
- Chain.Operator.CalculateRoutes: the cluster's answers are one snapshot per call.
- NetworkController.NoOrphanSwitch: every reconcile starts from a read of the stored object itself, not of a stale cache; a delete that could not be tried counts as failed.
- PodController.NeverForgotten: a reconcile acts on the stored pod in one step, requests are keyed once, and a restart of the operator, which lists all pods anew, is not an event.
- Notify.Server.Subscribe: networks that go to ANY node are excluded, since their create goes to whichever client comes first.
- Transport, process execution, the Docker client, netlink and namespaces: only their effect on the modelled states.
- Quoting of values by `ovs-vsctl` and its removal in `internal/pkg/ovn/utils.go`: a stored text is read back as it was stored.
- JSON, YAML and mapstructure decoding and the escaped annotation text: entries are records, and decoding over the shared record is an overlay of the keys present.
- The retry and polling loops around OVN commands: bounded loops with easy properties.
- `Subscribe` interleaved with the controllers' own sends: the client map has no lock, so only the sequential handshake is modelled. Keeping the stream open is not modelled either.
- Creation of the node's own port, its address and its NAT rule after InSync; veth pairs, addresses and routes inside a sandbox; the routes annotation of a pod.
- The exactness of the address lookup for a pod, which matches names by substring: correct lookup is a hypothesis of delivery.
- The gateway cache, which nothing invalidates; random MAC addresses; hashed node interface names.
- The NetworkChaining and ProviderNetwork reconcilers: their finalizer handling repeats the Network reconciler's, and deletion of a chain is not implemented in the source.
- Configuration, the CNI shim, client plumbing, generated code and manifests.
