/** Creates and removes of provider networks whose commands fail on the way: what is left behind,
    and what a repetition makes of it (cmd/nfn-agent/nfn-agent.go, internal/pkg/ovn/common.go). */
module ProviderFailures {
  import opened Wrappers
  import opened BridgeMapping
  import opened NodeState
  import opened Notify
  import opened Agent
  import opened LiveNetworks

  /** The interface that a network's bridge gets; a VLAN network without a logical interface gets one
      named after itself and its VLAN. */
  function PortOf(n: string, net: Net): string {
    match net
    case VlanNet(v) => if v.logicalIntf == "" then n + "." + v.vlanId else v.logicalIntf
    case DirectNet(d) => d.providerIntf
  }

  /** Parameters that all checks accept. */
  predicate Acceptable(n: string, net: Net) {
    && CleanText(NwName(n)) && CleanText(BrName(n)) && PortOf(n, net) != ""
    && (net.VlanNet? ==> net.v.vlanId != "" && net.v.providerIntf != "" && ValidLinkName(PortOf(n, net)))
  }

  // ----- One create -----

  // How far a create gets: the link is there, is marked, is up; the bridge is there, has its
  // port, has its name; the mapping has its entry.
  datatype Progress = Progress(added: bool, marked: bool, up: bool, bridge: bool, port: bool, named: bool, mapped: bool)

  /** A VLAN link that is there already is taken as it is. */
  function ProgressOf(v: View, n: string, net: Net, f: Faults): Progress {
    var isNew := net.VlanNet? && PortOf(n, net) !in v.links;
    var added := isNew && f.vlan != 0;
    var marked := added && f.vlan != 1;
    var up := marked && f.vlan != 2;
    var bridge := (isNew ==> up) && f.bridge != 0;
    var port := bridge && f.bridge != 1;
    var named := port && f.bridge != 2;
    Progress(added, marked, up, bridge, port, named, named && !f.getMapping && !f.setMapping)
  }

  function CreatedAsFar(v: View, n: string, net: Net, p: Progress): View {
    var port, br := PortOf(n, net), if BrName(n) in v.bridges then v.bridges[BrName(n)] else Bridge({}, "");
    View(
      if p.added && net.VlanNet? then v.links[port := Link(net.v.providerIntf, net.v.vlanId, p.marked, p.up)] else v.links,
      if p.bridge then v.bridges[BrName(n) := Bridge(if p.port then br.ports + {port} else br.ports,
                                                     if p.named then NwName(n) else br.nfn)] else v.bridges,
      if p.mapped then v.mapping[NwName(n) := BrName(n)] else v.mapping)
  }

  lemma MappingAsFar(before: Option<string>, after: Option<string>, br: string, nw: string, action: string, f: Faults, m: Mapping)
    requires MappingStep(before, after, br, nw, action, f) && Parse(Text(before)) == Success(m)
    requires action == "delete" || action == "" || (action == "add" && CleanText(nw) && CleanText(br))
    ensures Parse(Text(after)) ==
      Success(if action == "" || f.getMapping || f.setMapping then m else NewMapping(m, br, nw, action))
  {
    if action != "" {
      ReadableIsClean(Text(before));
      if !f.getMapping && !f.setMapping {
        StoredReadsBack(after, NewMapping(m, br, nw, action));
      }
    }
  }

  lemma BridgeAsFar(s: Snapshot, s': Snapshot, v: View, n: string, port: string, f: Faults)
    requires Reads(s, v) && port != "" && CleanText(NwName(n)) && CleanText(BrName(n))
    requires !OnOtherBridge(v.bridges, BrName(n), port) && BridgeCreated(s, s', n, port, f) && s'.links == s.links
    ensures var b := if BrName(n) in v.bridges then v.bridges[BrName(n)] else Bridge({}, "");
      && s'.bridges == (if f.bridge == 0 then v.bridges
                        else v.bridges[BrName(n) := Bridge(if f.bridge == 1 then b.ports else b.ports + {port},
                                                           if f.bridge == 1 || f.bridge == 2 then b.nfn else NwName(n))])
      && Parse(Text(s'.mappings)) ==
           Success(if 0 <= f.bridge <= 2 || f.getMapping || f.setMapping then v.mapping else v.mapping[NwName(n) := BrName(n)])
  {
    var ok := CreatedBridge(s.bridges, NwName(n), BrName(n), port, f.bridge).1;
    MappingAsFar(s.mappings, s'.mappings, BrName(n), NwName(n), if ok then "add" else "", f, v.mapping);
  }

  lemma DirectAsFar(v: View, n: string, d: DirectInfo, f: Faults, s: Snapshot, mid: Snapshot, s': Snapshot)
    requires Acceptable(n, DirectNet(d)) && Reads(s, v) && !OnOtherBridge(v.bridges, BrName(n), d.providerIntf)
    requires CreateEffect(s, mid, s', CreateOf(n, DirectNet(d)), f)
    ensures Reads(s', CreatedAsFar(v, n, DirectNet(d), ProgressOf(v, n, DirectNet(d), f)))
  {
    BridgeAsFar(s, s', v, n, d.providerIntf, f);
  }

  lemma LinkAsFar(v: View, n: string, i: VlanInfo, f: Faults)
    requires Acceptable(n, VlanNet(i))
    ensures var p, port := ProgressOf(v, n, VlanNet(i), f), PortOf(n, VlanNet(i));
      CreatedVlan(v.links, i.vlanId, i.providerIntf, port, f.vlan)
      == (CreatedAsFar(v, n, VlanNet(i), p).links, port in v.links || p.up)
  {
  }

  lemma VlanAsFar(v: View, n: string, i: VlanInfo, f: Faults, s: Snapshot, mid: Snapshot, s': Snapshot)
    requires Acceptable(n, VlanNet(i)) && Reads(s, v) && !OnOtherBridge(v.bridges, BrName(n), PortOf(n, VlanNet(i)))
    requires CreateEffect(s, mid, s', CreateOf(n, VlanNet(i)), f)
    ensures Reads(s', CreatedAsFar(v, n, VlanNet(i), ProgressOf(v, n, VlanNet(i), f)))
  {
    var port, p := PortOf(n, VlanNet(i)), ProgressOf(v, n, VlanNet(i), f);
    var links := CreatedAsFar(v, n, VlanNet(i), p).links;
    LinkAsFar(v, n, i, f);
    assert VlanCreated(s, s', n, i, f);
    if port in v.links || p.up {
      BridgeAsFar(s.(links := links), s', v.(links := links), n, port, f);
    }
  }

  /** A create leaves behind exactly what it got to. */
  lemma CreateAsFar(v: View, n: string, net: Net, f: Faults, s: Snapshot, mid: Snapshot, s': Snapshot)
    requires Acceptable(n, net) && Reads(s, v) && !OnOtherBridge(v.bridges, BrName(n), PortOf(n, net))
    requires CreateEffect(s, mid, s', CreateOf(n, net), f)
    ensures Reads(s', CreatedAsFar(v, n, net, ProgressOf(v, n, net, f)))
  {
    match net {
      case DirectNet(d) => DirectAsFar(v, n, d, f, s, mid, s');
      case VlanNet(i) => VlanAsFar(v, n, i, f, s, mid, s');
    }
  }

  /** A network whose parameters are missing, or whose VLAN link the kernel refuses, changes nothing. */
  lemma RefusedCreate(n: string, net: Net, f: Faults, s: Snapshot, mid: Snapshot, s': Snapshot)
    requires CreateEffect(s, mid, s', CreateOf(n, net), f)
    requires net.DirectNet? ==> net.d.providerIntf == ""
    requires net.VlanNet? && net.v.vlanId != "" && net.v.providerIntf != "" ==>
      PortOf(n, net) !in s.links && !ValidLinkName(PortOf(n, net))
    ensures s' == s
  {
  }

  /** A port that sits on another bridge is refused: the network's bridge is there, but without it, and
      neither named nor in the mapping. */
  lemma PortTaken(s: Snapshot, mid: Snapshot, s': Snapshot, n: string, d: DirectInfo, f: Faults)
    requires d.providerIntf != "" && OnOtherBridge(s.bridges, BrName(n), d.providerIntf)
    requires CreateEffect(s, mid, s', CreateOf(n, DirectNet(d)), f)
    ensures s'.links == s.links && s'.mappings == s.mappings
    ensures s'.bridges ==
      if f.bridge == 0 || BrName(n) in s.bridges then s.bridges else s.bridges[BrName(n) := Bridge({}, "")]
  {
    if BrName(n) in s.bridges {
      assert s.bridges[BrName(n) := s.bridges[BrName(n)]] == s.bridges;
    }
  }

  /** A message with both parts: the direct part is only turned to when the VLAN part got through, and
      adds its own port to the network's bridge. */
  lemma BothParts(v: View, n: string, i: VlanInfo, d: DirectInfo, f: Faults, s: Snapshot, mid: Snapshot, s': Snapshot)
    requires Acceptable(n, VlanNet(i)) && Reads(s, v) && !OnOtherBridge(v.bridges, BrName(n), PortOf(n, VlanNet(i)))
    requires CreateEffect(s, mid, s', ProviderNwCreate(n, Some(i), Some(d)), f)
    ensures var p := ProgressOf(v, n, VlanNet(i), f);
      var v1 := CreatedAsFar(v, n, VlanNet(i), p);
      && Reads(mid, v1)
      && (!p.named ==> s' == mid)
      && (p.named && d.providerIntf != "" && !OnOtherBridge(v1.bridges, BrName(n), d.providerIntf) ==>
            s'.links == mid.links
            && s'.bridges == v1.bridges[BrName(n) := Bridge(v1.bridges[BrName(n)].ports + {d.providerIntf}, NwName(n))])
  {
    VlanAsFar(v, n, i, f, s, mid, mid);
    var p := ProgressOf(v, n, VlanNet(i), f);
    var v1 := CreatedAsFar(v, n, VlanNet(i), p);
    if p.named && d.providerIntf != "" && !OnOtherBridge(v1.bridges, BrName(n), d.providerIntf) {
      BridgeAsFar(mid, s', v1, n, d.providerIntf, f);
    }
  }

  // ----- A create after one that failed -----

  /** Nothing of the network is there. */
  predicate Untouched(v: View, n: string, net: Net) {
    && BrName(n) !in v.bridges && (net.VlanNet? ==> PortOf(n, net) !in v.links)
    && (forall b :: b in v.bridges ==> PortOf(n, net) !in v.bridges[b].ports)
  }

  /** What a create is to leave behind. */
  function Complete(v: View, n: string, net: Net): View {
    var port := PortOf(n, net);
    View(if net.VlanNet? then v.links[port := Link(net.v.providerIntf, net.v.vlanId, true, true)] else v.links,
         v.bridges[BrName(n) := Bridge({port}, NwName(n))], v.mapping[NwName(n) := BrName(n)])
  }

  lemma StillFree(v: View, n: string, net: Net, p: Progress)
    requires Untouched(v, n, net)
    ensures !OnOtherBridge(v.bridges, BrName(n), PortOf(n, net))
    ensures !OnOtherBridge(CreatedAsFar(v, n, net, p).bridges, BrName(n), PortOf(n, net))
  {
  }

  /** A create that failed anywhere and then one that works leave the network complete, except in two
      cases: a VLAN link that was added but not marked, or marked but not set up, is taken as it
      is by the second create and stays that way. */
  lemma CreateAgain(v: View, n: string, net: Net, f: Faults, s: Snapshot, m1: Snapshot, s1: Snapshot, m2: Snapshot, s2: Snapshot)
    requires Acceptable(n, net) && Untouched(v, n, net) && Reads(s, v)
    requires CreateEffect(s, m1, s1, CreateOf(n, net), f)
    requires CreateEffect(s1, m2, s2, CreateOf(n, net), NO_FAULTS)
    ensures Reads(s2, Complete(v, n, net)) <==> !(net.VlanNet? && (f.vlan == 1 || f.vlan == 2))
  {
    var p := ProgressOf(v, n, net, f);
    var v1 := CreatedAsFar(v, n, net, p);
    StillFree(v, n, net, p);
    CreateAsFar(v, n, net, f, s, m1, s1);
    CreateAsFar(v1, n, net, NO_FAULTS, s1, m2, s2);
    CompleteAfter(v, n, net, f);
  }

  lemma CompleteAfter(v: View, n: string, net: Net, f: Faults)
    requires Acceptable(n, net) && Untouched(v, n, net)
    ensures var v1 := CreatedAsFar(v, n, net, ProgressOf(v, n, net, f));
      var v2 := CreatedAsFar(v1, n, net, ProgressOf(v1, n, net, NO_FAULTS));
      && v2.bridges == Complete(v, n, net).bridges && v2.mapping == Complete(v, n, net).mapping
      && (v2.links == Complete(v, n, net).links <==> !(net.VlanNet? && (f.vlan == 1 || f.vlan == 2)))
  {
    var v1 := CreatedAsFar(v, n, net, ProgressOf(v, n, net, f));
    var v2 := CreatedAsFar(v1, n, net, ProgressOf(v1, n, net, NO_FAULTS));
    var port := PortOf(n, net);
    assert {} + {port} == {port} && {port} + {port} == {port};
    if net.VlanNet? && (f.vlan == 1 || f.vlan == 2) {
      assert v2.links[port] != Complete(v, n, net).links[port];
    }
  }

  // ----- Removes -----

  /** A remove takes the link if that command works, and the bridge and its mapping entry if theirs do;
      neither waits for the other. */
  lemma RemoveAsFar(v: View, n: string, net: Net, f: Faults, s: Snapshot, mid: Snapshot, s': Snapshot)
    requires Port(net) != "" && Reads(s, v) && RemoveEffect(s, mid, s', RemoveOf(n, net), f)
    ensures Reads(s', View(if net.VlanNet? && f.vlan < 0 then v.links - {Port(net)} else v.links,
                           if f.bridge != 0 then v.bridges - {BrName(n)} else v.bridges,
                           if f.bridge != 0 && !f.getMapping && !f.setMapping then v.mapping - {NwName(n)} else v.mapping))
  {
    MappingAsFar(s.mappings, s'.mappings, BrName(n), NwName(n), if f.bridge != 0 then "delete" else "", f, v.mapping);
    if net.VlanNet? && Port(net) !in v.links {
      assert v.links - {Port(net)} == v.links;
    }
  }
}
