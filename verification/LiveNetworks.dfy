/** After the node is in sync its state is exactly the prior state plus the live networks. */
module LiveNetworks {
  import opened BridgeMapping
  import opened NodeState
  import opened Notify
  import opened Agent

  function Port(net: Net): string {
    match net case VlanNet(v) => v.logicalIntf case DirectNet(d) => d.providerIntf
  }

  /** Usable parameters, except that a VLAN network may leave its logical interface open. */
  predicate UsableNet(name: string, net: Net) {
    && CleanText(NwName(name)) && CleanText(BrName(name))
    && match net
       case VlanNet(v) => v.vlanId != "" && v.providerIntf != "" && ValidLinkName(LogicalIntf(name, v))
       case DirectNet(d) => d.providerIntf != ""
  }

  /** Ports differ between names. */
  ghost predicate DistinctPorts(nets: map<string, Net>) {
    forall m, n :: m in nets && n in nets && Port(nets[m]) == Port(nets[n]) ==> m == n
  }

  /** Usable parameters with an explicit port, and nothing of the network there before. */
  ghost predicate NewTo(n: string, net: Net, v0: View) {
    && UsableNet(n, net) && Port(net) != ""
    && BrName(n) !in v0.bridges && NwName(n) !in v0.mapping
    && (net.VlanNet? ==> Port(net) !in v0.links)
    && (forall b :: b in v0.bridges ==> Port(net) !in v0.bridges[b].ports)
  }

  /** Every name has fixed parameters that clash neither with each other nor with the prior state. */
  ghost predicate NoClash(nets: map<string, Net>, v0: View) {
    DistinctPorts(nets) && forall n :: n in nets ==> NewTo(n, nets[n], v0)
  }

  // ----- The state that a set of live networks stands for -----

  function NetLink(net: Net): Link
    requires net.VlanNet?
  {
    Link(net.v.providerIntf, net.v.vlanId, true, true)
  }

  function NetBridge(n: string, net: Net): Bridge {
    Bridge({Port(net)}, NwName(n))
  }

  ghost function VlanPorts(nets: map<string, Net>): set<string> {
    set n | n in nets && nets[n].VlanNet? :: Port(nets[n])
  }

  ghost function OwnerOf(nets: map<string, Net>, p: string): (n: string)
    requires p in VlanPorts(nets)
    ensures n in nets && nets[n].VlanNet? && Port(nets[n]) == p
  {
    var n :| n in nets && nets[n].VlanNet? && Port(nets[n]) == p;
    n
  }

  ghost function LiveLinks(nets: map<string, Net>, live: set<string>): Links {
    map p | p in VlanPorts(nets) && OwnerOf(nets, p) in live :: NetLink(nets[OwnerOf(nets, p)])
  }

  ghost function BrNames(nets: map<string, Net>): set<string> {
    set n | n in nets :: BrName(n)
  }

  ghost function LiveBridges(nets: map<string, Net>, live: set<string>): Bridges {
    map b | b in BrNames(nets) && b[3..] in live && b[3..] in nets :: NetBridge(b[3..], nets[b[3..]])
  }

  ghost function NwNames(nets: map<string, Net>): set<string> {
    set n | n in nets :: NwName(n)
  }

  ghost function LiveMapping(nets: map<string, Net>, live: set<string>): Mapping {
    map w | w in NwNames(nets) && w[3..] in live :: BrName(w[3..])
  }

  ghost function Overlay(v0: View, nets: map<string, Net>, live: set<string>): View {
    View(v0.links + LiveLinks(nets, live), v0.bridges + LiveBridges(nets, live),
         v0.mapping + LiveMapping(nets, live))
  }

  // ----- One more, one less -----

  lemma LinksOfVlan(nets: map<string, Net>, live: set<string>, n: string)
    requires DistinctPorts(nets) && n in nets && nets[n].VlanNet?
    ensures var l, p := LiveLinks(nets, live), Port(nets[n]);
      && (p in l <==> n in live)
      && (n in live ==> l[p] == NetLink(nets[n]))
      && LiveLinks(nets, live + {n}) == l[p := NetLink(nets[n])]
  {
    assert Port(nets[n]) in VlanPorts(nets);
    assert OwnerOf(nets, Port(nets[n])) == n;
  }

  lemma LinksOfVlanRemoved(nets: map<string, Net>, live: set<string>, n: string)
    requires DistinctPorts(nets) && n in nets && nets[n].VlanNet?
    ensures LiveLinks(nets, live - {n}) == LiveLinks(nets, live) - {Port(nets[n])}
  {
    assert Port(nets[n]) in VlanPorts(nets);
    assert OwnerOf(nets, Port(nets[n])) == n;
  }

  lemma LinksOfDirect(nets: map<string, Net>, live: set<string>, n: string)
    requires n in nets && nets[n].DirectNet?
    ensures LiveLinks(nets, live + {n}) == LiveLinks(nets, live)
    ensures LiveLinks(nets, live - {n}) == LiveLinks(nets, live)
  {
  }

  lemma BridgesOf(nets: map<string, Net>, live: set<string>, n: string)
    requires n in nets
    ensures var l, b := LiveBridges(nets, live), BrName(n);
      && (b in l <==> n in live)
      && (n in live ==> l[b] == NetBridge(n, nets[n]))
      && LiveBridges(nets, live + {n}) == l[b := NetBridge(n, nets[n])]
      && LiveBridges(nets, live - {n}) == l - {b}
  {
    assert BrName(n) in BrNames(nets) && BrName(n)[3..] == n;
    forall b | b in BrNames(nets) ensures BrName(b[3..]) == b {
    }
  }

  lemma MappingOf(nets: map<string, Net>, live: set<string>, n: string)
    requires n in nets
    ensures LiveMapping(nets, live + {n}) == LiveMapping(nets, live)[NwName(n) := BrName(n)]
    ensures LiveMapping(nets, live - {n}) == LiveMapping(nets, live) - {NwName(n)}
  {
    assert NwName(n) in NwNames(nets) && NwName(n)[3..] == n;
    forall w | w in NwNames(nets) ensures NwName(w[3..]) == w {
    }
  }

  /** No other bridge holds the port of a network. */
  lemma PortIsFree(v0: View, nets: map<string, Net>, live: set<string>, n: string)
    requires NoClash(nets, v0) && n in nets
    ensures !OnOtherBridge(Overlay(v0, nets, live).bridges, BrName(n), Port(nets[n]))
  {
    var bridges := Overlay(v0, nets, live).bridges;
    assert NewTo(n, nets[n], v0);
    forall b | b in bridges && b != BrName(n) ensures Port(nets[n]) !in bridges[b].ports {
      if b in LiveBridges(nets, live) {
        assert b != BrName(b[3..]) || b[3..] != n;
      }
    }
  }

  // ----- Refinement of one message -----

  function CreatedView(v: View, n: string, net: Net): View {
    View(if net.VlanNet? && Port(net) !in v.links then v.links[Port(net) := NetLink(net)] else v.links,
         v.bridges[BrName(n) := NetBridge(n, net)], v.mapping[NwName(n) := BrName(n)])
  }

  function RemovedView(v: View, n: string, net: Net): View {
    View(if net.VlanNet? then v.links - {Port(net)} else v.links, v.bridges - {BrName(n)}, v.mapping - {NwName(n)})
  }

  lemma CreateOnView(v: View, n: string, net: Net, s: Snapshot, mid: Snapshot, s': Snapshot)
    requires UsableNet(n, net) && Port(net) != "" && Reads(s, v)
    requires !OnOtherBridge(v.bridges, BrName(n), Port(net))
    requires BrName(n) in v.bridges ==> v.bridges[BrName(n)] == NetBridge(n, net)
    requires CreateEffect(s, mid, s', CreateOf(n, net), NO_FAULTS)
    ensures Reads(s', CreatedView(v, n, net))
  {
    var b := if BrName(n) in v.bridges then v.bridges[BrName(n)] else Bridge({}, "");
    assert b.ports + {Port(net)} == {Port(net)};
    MappingStepRead(s.mappings, s'.mappings, BrName(n), NwName(n), "add", v.mapping);
  }

  lemma RemoveOnView(v: View, n: string, net: Net, s: Snapshot, mid: Snapshot, s': Snapshot)
    requires Port(net) != "" && Reads(s, v)
    requires RemoveEffect(s, mid, s', RemoveOf(n, net), NO_FAULTS)
    ensures Reads(s', RemovedView(v, n, net))
  {
    MappingStepRead(s.mappings, s'.mappings, BrName(n), NwName(n), "delete", v.mapping);
    if net.VlanNet? && Port(net) !in v.links {
      assert v.links - {Port(net)} == v.links;
    }
  }

  lemma UpdateOver<V>(a: map<string, V>, b: map<string, V>, k: string, v: V)
    ensures (a + b)[k := v] == a + b[k := v]
    ensures k in b && b[k] == v ==> a + b[k := v] == a + b
  {
  }

  lemma RemoveOver<V>(a: map<string, V>, b: map<string, V>, k: string)
    requires k !in a
    ensures (a + b) - {k} == a + (b - {k})
  {
  }

  lemma LinkMade(v0: View, nets: map<string, Net>, live: set<string>, n: string)
    requires DistinctPorts(nets) && n in nets && NewTo(n, nets[n], v0)
    ensures CreatedView(Overlay(v0, nets, live), n, nets[n]).links == Overlay(v0, nets, live + {n}).links
  {
    if nets[n].VlanNet? {
      LinksOfVlan(nets, live, n);
      UpdateOver(v0.links, LiveLinks(nets, live), Port(nets[n]), NetLink(nets[n]));
    } else {
      LinksOfDirect(nets, live, n);
    }
  }

  /** A create message, first or repeated, makes its network live. */
  lemma CreateMakesLive(v0: View, nets: map<string, Net>, live: set<string>, n: string)
    requires NoClash(nets, v0) && n in nets
    ensures CreatedView(Overlay(v0, nets, live), n, nets[n]) == Overlay(v0, nets, live + {n})
  {
    var net := nets[n];
    assert NewTo(n, net, v0);
    BridgesOf(nets, live, n);
    UpdateOver(v0.bridges, LiveBridges(nets, live), BrName(n), NetBridge(n, net));
    MappingOf(nets, live, n);
    UpdateOver(v0.mapping, LiveMapping(nets, live), NwName(n), BrName(n));
    LinkMade(v0, nets, live, n);
  }

  /** A remove message takes its network away again, and does nothing when it was not live. */
  lemma RemoveEndsLife(v0: View, nets: map<string, Net>, live: set<string>, n: string)
    requires NoClash(nets, v0) && n in nets
    ensures RemovedView(Overlay(v0, nets, live), n, nets[n]) == Overlay(v0, nets, live - {n})
  {
    var net := nets[n];
    assert NewTo(n, net, v0);
    BridgesOf(nets, live, n);
    RemoveOver(v0.bridges, LiveBridges(nets, live), BrName(n));
    MappingOf(nets, live, n);
    RemoveOver(v0.mapping, LiveMapping(nets, live), NwName(n));
    if net.VlanNet? {
      LinksOfVlanRemoved(nets, live, n);
      RemoveOver(v0.links, LiveLinks(nets, live), Port(net));
    } else {
      LinksOfDirect(nets, live, n);
    }
  }

  lemma StepRefines(v0: View, nets: map<string, Net>, live: set<string>, e: Event, s: Snapshot, s': Snapshot)
    requires NoClash(nets, v0) && e.name in nets
    requires Reads(s, Overlay(v0, nets, live)) && EventStep(s, s', nets, e)
    ensures Reads(s', Overlay(v0, nets, LiveAfter(live, e)))
  {
    var n, v := e.name, Overlay(v0, nets, live);
    assert NewTo(n, nets[n], v0);
    match e {
      case Create(_) =>
        var mid :| CreateEffect(s, mid, s', CreateOf(n, nets[n]), NO_FAULTS);
        PortIsFree(v0, nets, live, n);
        BridgesOf(nets, live, n);
        CreateOnView(v, n, nets[n], s, mid, s');
        CreateMakesLive(v0, nets, live, n);
      case Remove(_) =>
        var mid :| RemoveEffect(s, mid, s', RemoveOf(n, nets[n]), NO_FAULTS);
        RemoveOnView(v, n, nets[n], s, mid, s');
        RemoveEndsLife(v0, nets, live, n);
    }
  }

  // ----- Runs -----

  datatype Event = Create(name: string) | Remove(name: string)

  function LiveAfter(live: set<string>, e: Event): set<string> {
    match e
    case Create(name) => live + {name}
    case Remove(name) => live - {name}
  }

  function Live(events: seq<Event>): set<string> {
    if events == [] then {} else LiveAfter(Live(events[..|events| - 1]), events[|events| - 1])
  }

  ghost predicate EventStep(s: Snapshot, s': Snapshot, nets: map<string, Net>, e: Event)
    requires e.name in nets
  {
    match e
    case Create(name) => exists mid :: CreateEffect(s, mid, s', CreateOf(name, nets[name]), NO_FAULTS)
    case Remove(name) => exists mid :: RemoveEffect(s, mid, s', RemoveOf(name, nets[name]), NO_FAULTS)
  }

  ghost predicate AgentRun(trace: seq<Snapshot>, nets: map<string, Net>, events: seq<Event>) {
    && |trace| == |events| + 1
    && (forall i :: 0 <= i < |events| ==> events[i].name in nets && EventStep(trace[i], trace[i + 1], nets, events[i]))
  }

  lemma NothingLive(v0: View, nets: map<string, Net>)
    ensures Overlay(v0, nets, {}) == v0
  {
    NothingOver(v0.links, LiveLinks(nets, {}));
    NothingOver(v0.bridges, LiveBridges(nets, {}));
    NothingOver(v0.mapping, LiveMapping(nets, {}));
  }

  lemma NothingOver<V>(a: map<string, V>, b: map<string, V>)
    requires forall k :: k !in b
    ensures a + b == a
  {
  }

  /** Over any run of creates, repeated or not, and removes, the node's links, bridges and
      mapping are those it had before plus exactly those of the live networks. */
  lemma {:induction false} RunIsLiveNetworks(trace: seq<Snapshot>, nets: map<string, Net>, events: seq<Event>, v0: View)
    requires NoClash(nets, v0) && AgentRun(trace, nets, events) && Reads(trace[0], v0)
    ensures Live(events) <= nets.Keys
    ensures Reads(trace[|events|], Overlay(v0, nets, Live(events)))
    decreases |events|
  {
    if events == [] {
      NothingLive(v0, nets);
    } else {
      var k := |events| - 1;
      var before := Live(events[..k]);
      RunIsLiveNetworks(trace[..k + 1], nets, events[..k], v0);
      assert EventStep(trace[k], trace[k + 1], nets, events[k]);
      StepRefines(v0, nets, before, events[k], trace[k], trace[k + 1]);
    }
  }

  // ----- When a remove undoes a create -----

  /** Nothing of the network is there yet. */
  ghost predicate Absent(n: string, net: Net, v: View) {
    && BrName(n) !in v.bridges && NwName(n) !in v.mapping
    && (net.VlanNet? ==> LogicalIntf(n, net.v) !in v.links)
    && !OnOtherBridge(v.bridges, BrName(n), if net.VlanNet? then LogicalIntf(n, net.v) else Port(net))
  }

  lemma CreatedThenRemoved(n: string, net: Net, v: View)
    requires Absent(n, net, v) && Port(net) != ""
    ensures RemovedView(CreatedView(v, n, net), n, net) == v
  {
    assert v.bridges[BrName(n) := NetBridge(n, net)] - {BrName(n)} == v.bridges;
    assert v.mapping[NwName(n) := BrName(n)] - {NwName(n)} == v.mapping;
    if net.VlanNet? {
      assert v.links[Port(net) := NetLink(net)] - {Port(net)} == v.links;
    }
  }

  lemma RemoveSkipped(n: string, net: Net, v: View, s: Snapshot, m1: Snapshot, s1: Snapshot, m2: Snapshot, s2: Snapshot)
    requires UsableNet(n, net) && Absent(n, net, v) && Reads(s, v) && Port(net) == ""
    requires CreateEffect(s, m1, s1, CreateOf(n, net), NO_FAULTS)
    requires RemoveEffect(s1, m2, s2, RemoveOf(n, net), NO_FAULTS)
    ensures s2 == s1 && BrName(n) in s1.bridges
  {
  }

  /** Creating an absent network and removing it again restores the node exactly when the
      network names its port. A VLAN network that leaves its logical interface to the agent
      gets the interface name.vlanID, but its remove message then selects neither kind. */
  lemma RemoveUndoesCreate(n: string, net: Net, v: View, s: Snapshot, m1: Snapshot, s1: Snapshot, m2: Snapshot, s2: Snapshot)
    requires UsableNet(n, net) && Absent(n, net, v) && Reads(s, v)
    requires CreateEffect(s, m1, s1, CreateOf(n, net), NO_FAULTS)
    requires RemoveEffect(s1, m2, s2, RemoveOf(n, net), NO_FAULTS)
    ensures Reads(s2, v) <==> Port(net) != ""
  {
    if Port(net) != "" {
      CreateOnView(v, n, net, s, m1, s1);
      RemoveOnView(CreatedView(v, n, net), n, net, s1, m2, s2);
      CreatedThenRemoved(n, net, v);
    } else {
      RemoveSkipped(n, net, v, s, m1, s1, m2, s2);
    }
  }
}
