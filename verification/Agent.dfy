/** The node agent (cmd/nfn-agent/nfn-agent.go): messages before and after the node is in sync. */
module Agent {
  import opened Wrappers
  import opened NodeState
  import opened Notify
  import opened Delivery
  import opened RouteTable
  import opened Resync

  function LogicalIntf(name: string, v: VlanInfo): string {
    if v.logicalIntf == "" then name + "." + v.vlanId else v.logicalIntf
  }

  // ----- What one message does -----

  predicate VlanOk(s: Snapshot, name: string, v: VlanInfo, f: Faults) {
    && CreatedVlan(s.links, v.vlanId, v.providerIntf, LogicalIntf(name, v), f.vlan).1
    && CreatedBridge(s.bridges, NwName(name), BrName(name), LogicalIntf(name, v), f.bridge).1
    && !Panics(s.mappings, f)
  }

  ghost predicate VlanCreated(s: Snapshot, s': Snapshot, name: string, v: VlanInfo, f: Faults) {
    var ln := LogicalIntf(name, v);
    var (links, ok) := CreatedVlan(s.links, v.vlanId, v.providerIntf, ln, f.vlan);
    if !ok then s' == s.(links := links)
    else s'.links == links && BridgeCreated(s, s', name, ln, f)
  }

  ghost predicate BridgeCreated(s: Snapshot, s': Snapshot, name: string, intf: string, f: Faults) {
    var (bridges, ok) := CreatedBridge(s.bridges, NwName(name), BrName(name), intf, f.bridge);
    && s'.bridges == bridges
    && MappingStep(s.mappings, s'.mappings, BrName(name), NwName(name), if ok then "add" else "", f)
  }

  ghost predicate DirectCreated(s: Snapshot, s': Snapshot, name: string, d: DirectInfo, f: Faults) {
    s'.links == s.links && BridgeCreated(s, s', name, d.providerIntf, f)
  }

  ghost predicate CreateEffect(s: Snapshot, mid: Snapshot, s': Snapshot, m: Notification, f: Faults)
    requires m.ProviderNwCreate?
  {
    && (if m.vlan.Some? then VlanCreated(s, mid, m.name, m.vlan.value, f) else mid == s)
    && (if m.direct.Some? && (m.vlan.Some? ==> VlanOk(s, m.name, m.vlan.value, f))
        then DirectCreated(mid, s', m.name, m.direct.value, f) else s' == mid)
  }

  /** Both delete functions read the VLAN's logical interface, also the one for direct networks. */
  ghost predicate Deleted(s: Snapshot, s': Snapshot, name: string, ln: string, f: Faults) {
    && s'.links == DeletedVlan(s.links, ln, f.vlan >= 0).0
    && s'.bridges == (if f.bridge != 0 then s.bridges - {BrName(name)} else s.bridges)
    && MappingStep(s.mappings, s'.mappings, BrName(name), NwName(name), if f.bridge != 0 then "delete" else "", f)
  }

  ghost predicate RemoveEffect(s: Snapshot, mid: Snapshot, s': Snapshot, m: Notification, f: Faults)
    requires m.ProviderNwRemove?
  {
    && (if m.vlanLogicalIntf != "" then Deleted(s, mid, m.name, m.vlanLogicalIntf, f) else mid == s)
    && (if m.directProviderIntf != "" && (m.vlanLogicalIntf != "" ==> f.bridge == 0 || !Panics(s.mappings, f))
        then Deleted(mid, s', m.name, m.vlanLogicalIntf, f) else s' == mid)
  }

  // ----- When a message ends the process -----

  predicate VlanPanics(s: Snapshot, name: string, v: VlanInfo, f: Faults) {
    && CreatedVlan(s.links, v.vlanId, v.providerIntf, LogicalIntf(name, v), f.vlan).1
    && BridgePanics(s, name, LogicalIntf(name, v), f)
  }

  predicate BridgePanics(s: Snapshot, name: string, intf: string, f: Faults) {
    CreatedBridge(s.bridges, NwName(name), BrName(name), intf, f.bridge).1 && Panics(s.mappings, f)
  }

  predicate CreatePanics(s: Snapshot, mid: Snapshot, m: Notification, f: Faults)
    requires m.ProviderNwCreate?
  {
    || (m.vlan.Some? && VlanPanics(s, m.name, m.vlan.value, f))
    || (m.direct.Some? && (m.vlan.Some? ==> VlanOk(s, m.name, m.vlan.value, f))
        && BridgePanics(mid, m.name, m.direct.value.providerIntf, f))
  }

  predicate RemovePanics(s: Snapshot, mid: Snapshot, m: Notification, f: Faults)
    requires m.ProviderNwRemove?
  {
    && f.bridge != 0
    && ((m.vlanLogicalIntf != "" && Panics(s.mappings, f)) || (m.directProviderIntf != "" && Panics(mid.mappings, f)))
  }

  /** What a message does once the node is in sync, and whether it ends the process: it does when a
      mapping text that cannot be read is to be updated. */
  ghost predicate MessageStep(s: Snapshot, s': Snapshot, m: Notification, f: Faults, panicked: bool) {
    match m
    case ProviderNwCreate(_, _, _) =>
      exists mid :: CreateEffect(s, mid, s', m, f) && (panicked <==> CreatePanics(s, mid, m, f))
    case ProviderNwRemove(_, _, _) =>
      exists mid :: RemoveEffect(s, mid, s', m, f) && (panicked <==> RemovePanics(s, mid, m, f))
    case InSync(_, _) => SyncEffect(s, s', [], panicked)
    case _ => s' == s && !panicked
  }

  ghost predicate SyncEffect(s: Snapshot, s': Snapshot, store: seq<Notification>, panicked: bool)
    requires OnlyCreates(store)
  {
    && (panicked ==> Unreadable(s.mappings))
    && (forall v :: Reads(s, v) && Tidy(v) ==> Reads(s', Resynced(v, store)))
  }

  /** The states along a run of messages in sync, of which only the last may end the process. */
  ghost predicate SyncedRun(trace: seq<Snapshot>, msgs: seq<Notification>, faults: seq<Faults>, died: bool)
    requires |faults| == |msgs|
  {
    && |trace| == |msgs| + 1
    && (forall i :: 0 <= i < |msgs| ==>
          MessageStep(trace[i], trace[i + 1], msgs[i], faults[i], died && i == |msgs| - 1))
  }

  lemma SyncedRunGrows(trace: seq<Snapshot>, s': Snapshot, msgs: seq<Notification>, faults: seq<Faults>, k: nat, died: bool)
    requires k < |msgs| == |faults| && SyncedRun(trace, msgs[..k], faults[..k], false)
    requires MessageStep(trace[k], s', msgs[k], faults[k], died)
    ensures SyncedRun(trace + [s'], msgs[..k + 1], faults[..k + 1], died)
  {
    var longer := trace + [s'];
    forall i | 0 <= i < k + 1
      ensures MessageStep(longer[i], longer[i + 1], msgs[..k + 1][i], faults[..k + 1][i], died && i == k)
    {
      assert i < k ==> MessageStep(trace[i], trace[i + 1], msgs[..k][i], faults[..k][i], false);
    }
  }

  // ----- The agent -----

  class NfnAgent {
    const node: Node
    var inSync: bool
    var pnCreateStore: seq<Notification>
    var containers: Tables // the route tables of the containers on the node

    constructor (node: Node, containers: Tables)
      ensures this.node == node && !inSync && pnCreateStore == [] && this.containers == containers
    {
      this.node, inSync, pnCreateStore, this.containers := node, false, [], containers;
    }

    ghost function Snap(): Snapshot
      reads node, node.ovs
    {
      node.Snap()
    }

    method CreateVlanProviderNetwork(name: string, v: VlanInfo, f: Faults) returns (r: BridgeResult)
      modifies node, node.ovs
      ensures VlanCreated(old(Snap()), Snap(), name, v, f)
      ensures r == Done <==> VlanOk(old(Snap()), name, v, f)
      ensures r == Panicked <==> VlanPanics(old(Snap()), name, v, f)
    {
      var ln := v.logicalIntf;
      if ln == "" {
        ln := name + "." + v.vlanId;
      }
      var ok := node.CreateVlan(v.vlanId, v.providerIntf, ln, f.vlan);
      if !ok {
        return Failed;
      }
      r := node.CreatePnBridge("nw_" + name, "br-" + name, ln, f);
    }

    method CreateDirectProviderNetwork(name: string, d: DirectInfo, f: Faults) returns (r: BridgeResult)
      modifies node, node.ovs
      ensures DirectCreated(old(Snap()), Snap(), name, d, f)
      ensures r == Panicked <==> BridgePanics(old(Snap()), name, d.providerIntf, f)
    {
      r := node.CreatePnBridge("nw_" + name, "br-" + name, d.providerIntf, f);
    }

    method DeleteProviderNetwork(name: string, ln: string, f: Faults) returns (r: BridgeResult)
      modifies node, node.ovs
      ensures Deleted(old(Snap()), Snap(), name, ln, f)
      ensures r == Panicked <==> f.bridge != 0 && Panics(old(Snap()).mappings, f)
    {
      var ok := node.DeleteVlan(ln, f.vlan >= 0);
      r := node.DeletePnBridge("nw_" + name, "br-" + name, f);
    }

    /** handleNotif. An unfilled message carries no known CNI type; a route message goes to a
        container's own table and leaves the node's state and the buffer alone. */
    method HandleNotif(m: Notification, f: Faults, hostNet: Option<string>, failAt: int) returns (panicked: bool)
      requires OnlyCreates(pnCreateStore)
      modifies this, node, node.ovs
      ensures OnlyCreates(pnCreateStore)
      ensures containers == HandledRoute(old(containers), hostNet, m, failAt)
      ensures !panicked ==> inSync == (old(inSync) || m.InSync?)
      ensures m.InSync? ==> SyncEffect(old(Snap()), Snap(), old(pnCreateStore), panicked)
      ensures m.InSync? && !panicked ==> pnCreateStore == []
      ensures !m.InSync? && !old(inSync) ==>
        !panicked && Snap() == old(Snap()) && pnCreateStore == Buffered(old(pnCreateStore), [m])
      ensures !m.InSync? && old(inSync) ==>
        pnCreateStore == old(pnCreateStore) && MessageStep(old(Snap()), Snap(), m, f, panicked)
    {
      BufferedOne(pnCreateStore, m);
      panicked := false;
      if m.ProviderNwCreate? || m.ProviderNwRemove? {
        if inSync {
          panicked := HandleInSync(m, f);
        } else {
          HandleBeforeSync(m);
        }
      } else if m.InSync? {
        panicked := HandleInSyncMessage(m);
      } else if m.ContainerRouteInsert? && m.id in containers {
        var netns := new PodNetns(containers[m.id]);
        var ok := netns.ContainerAddRoute(hostNet, m.routes, failAt);
        containers := containers[m.id := netns.routes];
      }
    }

    /** The receiving loop, over the messages of a stream until one ends the process; trace holds
        the node's states from message to message. If the agent has just started and the stream is
        a handshake, n creates and then InSync, with route messages after it, the node ends up
        resynced against exactly these creates. */
    method HandleStream(msgs: seq<Notification>, ghost n: nat, faults: seq<Faults>, h: string, handlings: seq<Handling>)
      returns (handled: nat, died: bool, ghost trace: seq<Snapshot>)
      requires |handlings| == |faults| == |msgs| && OnlyCreates(pnCreateStore)
      modifies this, node, node.ovs
      ensures handled <= |msgs| && (handled < |msgs| ==> died) && (died ==> handled > 0)
      ensures containers == HandleWith(old(containers), h, msgs[..handled], handlings[..handled])
      ensures |trace| == handled + 1 && trace[0] == old(Snap()) && trace[handled] == Snap()
      ensures old(inSync) && old(pnCreateStore) == [] ==> SyncedRun(trace, msgs[..handled], faults[..handled], died)
      ensures !old(inSync) && old(pnCreateStore) == [] && HandshakeStream(msgs, n) ==>
        && OnlyCreates(msgs[..n]) && SyncEffect(old(Snap()), Snap(), msgs[..n], died)
        && (!died ==> inSync && pnCreateStore == [])
    {
      ghost var serves, joins := inSync && pnCreateStore == [], !inSync && pnCreateStore == [] && HandshakeStream(msgs, n);
      handled, died, trace := 0, false, [Snap()];
      while handled < |msgs|
        invariant 0 <= handled <= |msgs| && OnlyCreates(pnCreateStore)
        invariant containers == HandleWith(old(containers), h, msgs[..handled], handlings[..handled])
        invariant |trace| == handled + 1 && trace[0] == old(Snap()) && trace[handled] == Snap()
        invariant serves ==> inSync && pnCreateStore == []
        invariant serves ==> SyncedRun(trace, msgs[..handled], faults[..handled], false)
        invariant joins && handled <= n ==> !inSync && pnCreateStore == msgs[..handled] && Snap() == old(Snap())
        invariant joins && handled > n ==> inSync && pnCreateStore == []
        invariant joins ==> OnlyCreates(msgs[..n])
        invariant joins && handled > n ==> SyncEffect(old(Snap()), Snap(), msgs[..n], false)
      {
        var m, o := msgs[handled], handlings[handled];
        BufferedOne(pnCreateStore, m);
        HandleWithStep(old(containers), h, msgs, handlings, handled);
        died := HandleNotif(m, faults[handled], if o.hostKnown then Some(h) else None, o.failAt);
        if serves {
          SyncedRunGrows(trace, Snap(), msgs, faults, handled, died);
        }
        handled, trace := handled + 1, trace + [Snap()];
        if died {
          return;
        }
      }
    }

    /** handleNotif for the provider network messages once the node is in sync. */
    method HandleInSync(m: Notification, f: Faults) returns (panicked: bool)
      requires inSync && (m.ProviderNwCreate? || m.ProviderNwRemove?)
      modifies node, node.ovs
      ensures MessageStep(old(Snap()), Snap(), m, f, panicked)
    {
      ghost var s := Snap();
      ghost var mid := s;
      panicked := false;
      if m.ProviderNwCreate? {
        if m.vlan.Some? {
          var r := CreateVlanProviderNetwork(m.name, m.vlan.value, f);
          mid := Snap();
          if r != Done {
            panicked := r == Panicked;
            assert CreateEffect(s, mid, Snap(), m, f) && (panicked <==> CreatePanics(s, mid, m, f));
            return;
          }
        }
        if m.direct.Some? {
          var r := CreateDirectProviderNetwork(m.name, m.direct.value, f);
          panicked := r == Panicked;
        }
        assert CreateEffect(s, mid, Snap(), m, f) && (panicked <==> CreatePanics(s, mid, m, f));
      } else {
        if m.vlanLogicalIntf != "" {
          var r := DeleteProviderNetwork(m.name, m.vlanLogicalIntf, f);
          mid := Snap();
          if r == Panicked {
            panicked := true;
            assert RemoveEffect(s, mid, Snap(), m, f) && RemovePanics(s, mid, m, f);
            return;
          }
        }
        if m.directProviderIntf != "" {
          var r := DeleteProviderNetwork(m.name, m.vlanLogicalIntf, f);
          panicked := r == Panicked;
        }
        assert RemoveEffect(s, mid, Snap(), m, f) && (panicked <==> RemovePanics(s, mid, m, f));
      }
    }

    /** handleNotif for the InSync message: both passes over the stored creates, which are then
        dropped. The node's own port is not part of this model. */
    method HandleInSyncMessage(m: Notification) returns (panicked: bool)
      requires m.InSync? && OnlyCreates(pnCreateStore)
      modifies this`inSync, this`pnCreateStore, node, node.ovs
      ensures OnlyCreates(pnCreateStore)
      ensures SyncEffect(old(Snap()), Snap(), old(pnCreateStore), panicked)
      ensures !panicked ==> inSync && pnCreateStore == []
    {
      ghost var s := Snap();
      panicked := InSyncVlanProviderNetwork(node, pnCreateStore);
      ghost var mid := Snap();
      forall v | Reads(s, v) && Tidy(v)
        ensures Reads(mid, AfterVlanPass(v, pnCreateStore)) && Tidy(AfterVlanPass(v, pnCreateStore))
      {
        VlanPassTidy(v, pnCreateStore);
      }
      if panicked {
        return;
      }
      panicked := InSyncDirectProviderNetwork(node, pnCreateStore);
      if panicked {
        return;
      }
      pnCreateStore := [];
      inSync := true;
    }

    /** handleNotif for any message before the node is in sync, except for the InSync itself:
        creates are stored, everything else leaves both the store and the node alone. */
    method HandleBeforeSync(m: Notification)
      requires !inSync && !m.InSync?
      modifies this`pnCreateStore
      ensures pnCreateStore == Buffered(old(pnCreateStore), [m])
    {
      if m.ProviderNwCreate? {
        pnCreateStore := pnCreateStore + [m];
      }
      BufferedOne(old(pnCreateStore), m);
    }
  }

  // ----- The buffer -----

  function Buffered(store: seq<Notification>, msgs: seq<Notification>): seq<Notification>
    decreases |msgs|
  {
    if msgs == [] then store
    else Buffered(if msgs[0].ProviderNwCreate? then store + [msgs[0]] else store, msgs[1..])
  }

  lemma BufferedOne(store: seq<Notification>, m: Notification)
    ensures Buffered(store, [m]) == if m.ProviderNwCreate? then store + [m] else store
  {
    assert [m][1..] == [];
  }

  /** n creates, InSync, and after that only route messages. */
  predicate HandshakeStream(msgs: seq<Notification>, n: nat) {
    && n < |msgs| && msgs[n].InSync?
    && (forall i :: 0 <= i < n ==> msgs[i].ProviderNwCreate?)
    && (forall i :: n < i < |msgs| ==> msgs[i].ContainerRouteInsert?)
  }

  lemma {:induction false} BufferedCreates(store: seq<Notification>, msgs: seq<Notification>)
    requires forall i :: 0 <= i < |msgs| ==> msgs[i].ProviderNwCreate?
    ensures Buffered(store, msgs) == store + msgs
    decreases |msgs|
  {
    if msgs != [] {
      BufferedCreates(store + [msgs[0]], msgs[1..]);
      assert store + [msgs[0]] + msgs[1..] == store + msgs;
    }
  }

  lemma {:induction false} CreatesAreCreates(list: seq<ProviderNetwork>, node: string, nodes: map<string, seq<string>>)
    ensures forall i :: 0 <= i < |Creates(list, node, nodes)| ==> Creates(list, node, nodes)[i].ProviderNwCreate?
  {
    if list != [] {
      CreatesAreCreates(list[..|list| - 1], node, nodes);
    }
  }

  /** What a freshly started agent has buffered when the InSync of its handshake arrives: the
      creates of exactly the networks meant for its node, in list order. */
  lemma HandshakeBuffer(list: seq<ProviderNetwork>, node: string, nodes: map<string, seq<string>>)
    ensures Buffered([], Creates(list, node, nodes)) == Creates(list, node, nodes)
  {
    CreatesAreCreates(list, node, nodes);
    BufferedCreates([], Creates(list, node, nodes));
  }
}
