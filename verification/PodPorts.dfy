/** A pod's logical ports: creation with retries, and deletion (internal/pkg/ovn/ovn.go,
    pkg/controller/pod/pod_controller.go). */
module PodPorts {
  import opened Wrappers
  import opened Strings
  import CniResult

  const DEFAULT_NW := "ovn4nfvk8s-default-nw"

  datatype NetInterface = NetInterface(name: string, interface: string, defaultGateway: string)

  // One element of the pod's interface list, as decoded over the shared record: a missing key
  // keeps the value of the element before. Undecodable stands for a decoding error.
  datatype NetObj = Undecodable | Keys(name: Option<string>, interface: Option<string>, defaultGateway: Option<string>)

  datatype Pod = Pod(namespace: string, name: string, hostNetwork: bool, annotated: bool)

  datatype PortInfo = PortInfo(switch: string, pod: bool)

  type Ports = map<string, PortInfo>

  datatype Address = Address(ip: string, mac: string, gateway: string)

  // How the commands for one port go: the switch lookup fails, adding the port fails, something
  // after it fails, or everything works and gives an address.
  datatype PortOutcome = FindFails | AddFails | LaterFails | Yields(address: Address)

  const BLANK := NetInterface("", "", "")

  // ----- One port -----

  function BaseName(pod: Pod): string {
    pod.namespace + "_" + pod.name
  }

  function PortName(pod: Pod, interface: string): string {
    if interface == "" then BaseName(pod) else BaseName(pod) + "_" + interface
  }

  /** FindLogicalSwitch compares the name with the command's output, which is empty when there
      is no such switch; so the empty name is always found. */
  predicate SwitchFound(switches: set<string>, name: string) {
    name in switches || name == ""
  }

  /** addLogicalPortWithSwitch: the port and its tag come in one transaction, and may-exist
      accepts a port that is already on that switch. */
  function AddedPort(switches: set<string>, ports: Ports, sw: string, port: string, o: PortOutcome): (Ports, Option<Address>) {
    if o.FindFails? || o.AddFails? || sw !in switches || (port in ports && ports[port].switch != sw) then (ports, None)
    else (ports[port := PortInfo(sw, true)], if o.Yields? then Some(o.address) else None)
  }

  function Overlaid(ns: NetInterface, o: NetObj): NetInterface
    requires o.Keys?
  {
    NetInterface(if o.name.Some? then o.name.value else ns.name,
                 if o.interface.Some? then o.interface.value else ns.interface,
                 if o.defaultGateway.Some? then o.defaultGateway.value else ns.defaultGateway)
  }

  // ----- AddLogicalPorts -----

  // The loop's variables.
  datatype Loop = Loop(ns: NetInterface, defaultInterface: bool, entries: seq<CniResult.Entry>, ports: Ports)

  function EntryOf(a: Address, defaultGateway: string, interface: string): CniResult.Entry {
    CniResult.Entry(a.ip, a.mac, a.gateway, defaultGateway, interface)
  }

  /** What one pass of the loop leaves in the shared record, if it gets as far as adding the port. */
  function NextRecord(ns: NetInterface, o: NetObj): Option<NetInterface> {
    if o.Undecodable? then None
    else
      var n := Overlaid(ns, o);
      if n.interface == "" && n.name != DEFAULT_NW then None
      else Some(NetInterface(n.name, if n.interface == "" then "*" else n.interface,
                             if n.defaultGateway == "" then "false" else n.defaultGateway))
  }

  /** The port that pass adds. */
  function NextPort(pod: Pod, ns: NetInterface, o: NetObj): string
    requires o.Keys?
  {
    PortName(pod, Overlaid(ns, o).interface)
  }

  function Pass(switches: set<string>, pod: Pod, l: Loop, o: NetObj, outcome: PortOutcome): (Loop, bool) {
    if o.Undecodable? || outcome.FindFails? || !SwitchFound(switches, Overlaid(l.ns, o).name) then (l, false)
    else match NextRecord(l.ns, o)
      case None => (l, false)
      case Some(ns) =>
        var (ports, address) := AddedPort(switches, l.ports, ns.name, NextPort(pod, l.ns, o), outcome);
        if address.None? then (l.(ports := ports), false)
        else (Loop(ns, l.defaultInterface || ns.name == DEFAULT_NW,
                   l.entries + [EntryOf(address.value, ns.defaultGateway, ns.interface)], ports), true)
  }

  /** All passes over nets, stopping at the first that fails. */
  function Passes(switches: set<string>, pod: Pod, l: Loop, nets: seq<NetObj>, outcomes: seq<PortOutcome>): (Loop, bool)
    requires |outcomes| == |nets| + 1
    decreases |nets|
  {
    if nets == [] then (l, true)
    else
      var (l', ok) := Pass(switches, pod, l, nets[0], outcomes[0]);
      if ok then Passes(switches, pod, l', nets[1..], outcomes[1..]) else (l', false)
  }

  function AddedLogicalPorts(switches: set<string>, pod: Pod, ports: Ports, nets: seq<NetObj>, outcomes: seq<PortOutcome>)
    : (Ports, Option<seq<CniResult.Entry>>)
    requires |outcomes| == |nets| + 1
  {
    if pod.hostNetwork || pod.annotated then (ports, None)
    else
      var (l, ok) := Passes(switches, pod, Loop(BLANK, false, [], ports), nets, outcomes);
      if !ok then (l.ports, None)
      else if l.defaultInterface then (l.ports, Some(l.entries))
      else
        var (ports', address) := AddedPort(switches, l.ports, DEFAULT_NW, BaseName(pod), outcomes[|nets|]);
        (ports', if address.None? then None else Some(l.entries + [EntryOf(address.value, "", "*")]))
  }

  /** DeleteLogicalPorts: of the ports tagged as pod ports, those whose name holds the pod's. */
  function Matching(ports: Ports, namespace: string, name: string): set<string> {
    set p | p in ports && ports[p].pod && Contains(p, namespace + "_" + name)
  }

  class OvnController {
    var switches: set<string>
    var ports: Ports

    constructor (switches: set<string>, ports: Ports)
      ensures this.switches == switches && this.ports == ports
    {
      this.switches, this.ports := switches, ports;
    }

    method AddLogicalPortWithSwitch(pod: Pod, sw: string, port: string, o: PortOutcome) returns (address: Option<Address>)
      requires !pod.hostNetwork
      modifies this`ports
      ensures (ports, address) == AddedPort(switches, old(ports), sw, port, o)
    {
      if o.FindFails? || o.AddFails? || sw !in switches || (port in ports && ports[port].switch != sw) {
        return None;
      }
      ports := ports[port := PortInfo(sw, true)];
      return if o.Yields? then Some(o.address) else None;
    }

    method AddLogicalPorts(pod: Pod, nets: seq<NetObj>, outcomes: seq<PortOutcome>) returns (r: Option<seq<CniResult.Entry>>)
      requires |outcomes| == |nets| + 1
      modifies this`ports
      ensures (ports, r) == AddedLogicalPorts(switches, pod, old(ports), nets, outcomes)
    {
      if pod.hostNetwork {
        return None;
      }
      if pod.annotated {
        return None;
      }
      var entries: seq<CniResult.Entry> := [];
      var defaultInterface := false;
      var ns := BLANK;
      var i := 0;
      while i < |nets|
        invariant 0 <= i <= |nets|
        invariant Passes(switches, pod, Loop(BLANK, false, [], old(ports)), nets, outcomes)
               == Passes(switches, pod, Loop(ns, defaultInterface, entries, ports), nets[i..], outcomes[i..])
      {
        ghost var l := Loop(ns, defaultInterface, entries, ports);
        ghost var pass := Pass(switches, pod, l, nets[i], outcomes[i]);
        assert nets[i..][1..] == nets[i + 1..] && outcomes[i..][1..] == outcomes[i + 1..];
        if nets[i].Undecodable? {
          return None;
        }
        ns := Overlaid(ns, nets[i]);
        if outcomes[i].FindFails? || !SwitchFound(switches, ns.name) {
          return None;
        }
        if ns.name == DEFAULT_NW {
          defaultInterface := true;
        }
        if ns.interface == "" && ns.name != DEFAULT_NW {
          return None;
        }
        if ns.defaultGateway == "" {
          ns := ns.(defaultGateway := "false");
        }
        var portName := PortName(pod, ns.interface);
        if ns.interface == "" {
          ns := ns.(interface := "*");
        }
        var address := AddLogicalPortWithSwitch(pod, ns.name, portName, outcomes[i]);
        if address.None? {
          assert pass == (l.(ports := ports), false);
          return None;
        }
        entries := entries + [EntryOf(address.value, ns.defaultGateway, ns.interface)];
        assert pass == (Loop(ns, defaultInterface, entries, ports), true);
        i := i + 1;
      }
      if !defaultInterface {
        var address := AddLogicalPortWithSwitch(pod, DEFAULT_NW, BaseName(pod), outcomes[|nets|]);
        if address.None? {
          return None;
        }
        entries := entries + [EntryOf(address.value, "", "*")];
      }
      return Some(entries);
    }

    /** failing are the ports whose deletion fails; listFails is a failed listing. */
    method DeleteLogicalPorts(name: string, namespace: string, listFails: bool, failing: set<string>)
      modifies this`ports
      ensures ports == if listFails then old(ports)
                       else old(ports) - (Matching(old(ports), namespace, name) - failing)
    {
      if listFails {
        return;
      }
      var existing := set p | p in ports && ports[p].pod;
      var rest := existing;
      while rest != {}
        invariant rest <= existing
        invariant ports == old(ports) - (Matching(old(ports), namespace, name) - failing - rest)
        decreases rest
      {
        var p :| p in rest;
        rest := rest - {p};
        if Contains(p, namespace + "_" + name) && p !in failing {
          ports := ports - {p};
        }
      }
    }
  }
}
