/** Provider networks over the whole system: what the operator sends to its nodes, and what the
    nodes in sync make of it. */
module ProviderNetworks {
  import BridgeMapping
  import opened NodeState
  import opened Chain
  import opened Notify
  import opened Delivery
  import opened Agent
  import opened LiveNetworks

  // What happens in the operator: a network is created or deleted, a route list is sent, or
  // something that leaves the node's stream alone, such as another node's subscription.
  datatype Act = Network(e: Event) | Routes(list: seq<RoutingInfo>) | Elsewhere

  /** Networks that do not go to ANY node, and whose node list, if one is asked for, comes back. */
  predicate Sendable(nets: map<string, ProviderNetwork>, nodes: map<string, seq<string>>) {
    forall x :: x in nets ==> nets[x].name == x && HandshakeReady(nets[x], nodes)
  }

  function Kind(e: Event): string {
    if e.Create? then "create" else "delete"
  }

  ghost predicate ActStep(cl: Streams, cl': Streams, a: Act, nets: map<string, ProviderNetwork>,
                          nodes: map<string, seq<string>>, node: string)
  {
    match a
    case Network(e) =>
      e.name in nets && exists o :: NotifEffect(cl, cl', o, nets[e.name], Kind(e), "", nodes, {})
    case Routes(list) => cl' == SentRoutes(cl, list, "create", {}).0
    case Elsewhere => node in cl && node in cl' && cl'[node] == cl[node]
  }

  /** The streams along a run in which every send works. */
  ghost predicate ServerRun(cls: seq<Streams>, acts: seq<Act>, nets: map<string, ProviderNetwork>,
                            nodes: map<string, seq<string>>, node: string)
  {
    && |cls| == |acts| + 1
    && (forall i :: 0 <= i < |acts| ==> ActStep(cls[i], cls[i + 1], acts[i], nets, nodes, node))
  }

  // ----- What one node is sent -----

  /** The parameters of the networks that select the node. */
  function Selected(nets: map<string, ProviderNetwork>, nodes: map<string, seq<string>>, node: string): map<string, Net> {
    map x | x in nets && Selects(nets[x], node, nodes) :: NetOf(nets[x])
  }

  function EventMessage(e: Event, net: Net): Notification {
    if e.Create? then CreateOf(e.name, net) else RemoveOf(e.name, net)
  }

  function ActMessages(a: Act, own: map<string, Net>, node: string): seq<Notification> {
    match a
    case Network(e) => if e.name in own then [EventMessage(e, own[e.name])] else []
    case Routes(list) => NodeMessages(list, node)
    case Elsewhere => []
  }

  /** What a run adds to the stream of a node, whose own networks are those that select it. */
  function NodeStream(acts: seq<Act>, own: map<string, Net>, node: string): seq<Notification> {
    if acts == [] then []
    else NodeStream(acts[..|acts| - 1], own, node) + ActMessages(acts[|acts| - 1], own, node)
  }

  /** A send to a list of distinct names reaches each of them that is subscribed exactly once. */
  lemma {:induction false} SentToEachOnce(cl: Streams, names: seq<string>, msg: Notification, node: string)
    requires node in cl && Distinct(names)
    ensures var cl' := SentToEach(cl, names, msg, "", {}).0;
      node in cl' && cl'[node] == if node in names then cl[node] + [msg] else cl[node]
    decreases |names|
  {
    if names != [] {
      var n := names[0];
      assert forall i :: 0 <= i < |names[1..]| ==> names[1..][i] == names[i + 1];
      assert n !in names[1..];
      SentToEachOnce(if n in cl then cl[n := cl[n] + [msg]] else cl, names[1..], msg, node);
    }
  }

  lemma {:induction false} AllReached(cl: Streams, list: seq<RoutingInfo>)
    ensures Reached(cl, list, {}) == |list|
  {
    if list != [] {
      AllReached(cl, list[1..]);
    }
  }

  lemma NetworkSends(cl: Streams, cl': Streams, o: Outcome, e: Event, nets: map<string, ProviderNetwork>,
                     nodes: map<string, seq<string>>, node: string)
    requires Sendable(nets, nodes) && node in cl && e.name in nets
    requires NotifEffect(cl, cl', o, nets[e.name], Kind(e), "", nodes, {})
    ensures node in cl' && cl'[node] == cl[node] + ActMessages(Network(e), Selected(nets, nodes, node), node)
  {
    var pn := nets[e.name];
    SelectorWordsDiffer(Selector(pn));
    assert MsgFor(pn, Kind(e)) == EventMessage(e, NetOf(pn));
    if Supported(pn) && IsSpecific(pn) {
      SentToEachOnce(cl, nodes[Labels(pn)], MsgFor(pn, Kind(e)), node);
    }
  }

  lemma ActSends(cl: Streams, cl': Streams, a: Act, nets: map<string, ProviderNetwork>,
                 nodes: map<string, seq<string>>, node: string)
    requires Sendable(nets, nodes) && node in cl && ActStep(cl, cl', a, nets, nodes, node)
    ensures node in cl' && cl'[node] == cl[node] + ActMessages(a, Selected(nets, nodes, node), node)
  {
    match a {
      case Network(e) =>
        var o :| NotifEffect(cl, cl', o, nets[e.name], Kind(e), "", nodes, {});
        NetworkSends(cl, cl', o, e, nets, nodes, node);
      case Routes(list) =>
        RouteStreams(cl, list, {}, node);
        AllReached(cl, list);
        assert list[..|list|] == list;
      case Elsewhere =>
    }
  }

  /** Over any run a node's stream grows by its route messages and by the create and remove
      messages of exactly the networks that select it, in order. */
  lemma {:induction false} StreamGrows(cls: seq<Streams>, acts: seq<Act>, nets: map<string, ProviderNetwork>,
                                       nodes: map<string, seq<string>>, node: string)
    requires ServerRun(cls, acts, nets, nodes, node) && Sendable(nets, nodes) && node in cls[0]
    ensures node in cls[|acts|] && cls[|acts|][node] == cls[0][node] + NodeStream(acts, Selected(nets, nodes, node), node)
    decreases |acts|
  {
    if acts != [] {
      var k := |acts| - 1;
      StreamGrows(cls[..k + 1], acts[..k], nets, nodes, node);
      ActSends(cls[k], cls[k + 1], acts[k], nets, nodes, node);
      var own := Selected(nets, nodes, node);
      assert cls[0][node] + NodeStream(acts[..k], own, node) + ActMessages(acts[k], own, node)
          == cls[0][node] + (NodeStream(acts[..k], own, node) + ActMessages(acts[k], own, node));
    }
  }

  // ----- What a node in sync makes of it -----

  function ActLive(live: set<string>, a: Act, own: map<string, Net>): set<string> {
    if a.Network? && a.e.name in own then LiveAfter(live, a.e) else live
  }

  /** The node's own networks that live at the end of a run. */
  function LiveOn(acts: seq<Act>, own: map<string, Net>): set<string> {
    if acts == [] then {} else ActLive(LiveOn(acts[..|acts| - 1], own), acts[|acts| - 1], own)
  }

  /** The networks whose last act is a create, and those of them that select the node. */
  lemma {:induction false} LiveOnExactly(acts: seq<Act>, own: map<string, Net>, x: string)
    ensures x in LiveOn(acts, own) <==>
      x in own && exists i :: 0 <= i < |acts| && acts[i] == Network(Create(x)) && NotRemovedFrom(acts, i, x)
    decreases |acts|
  {
    if acts != [] {
      var k := |acts| - 1;
      LiveOnExactly(acts[..k], own, x);
      if x in LiveOn(acts[..k], own) && acts[k] != Network(Remove(x)) {
        var i :| 0 <= i < k && acts[..k][i] == Network(Create(x)) && NotRemovedFrom(acts[..k], i, x);
        assert acts[i] == Network(Create(x)) && NotRemovedFrom(acts, i, x);
      }
      if acts[k] == Network(Create(x)) {
        assert NotRemovedFrom(acts, k, x);
      }
      if i :| 0 <= i < k && acts[i] == Network(Create(x)) && NotRemovedFrom(acts, i, x) {
        assert acts[..k][i] == Network(Create(x)) && NotRemovedFrom(acts[..k], i, x);
      }
    }
  }

  predicate NotRemovedFrom(acts: seq<Act>, i: nat, x: string) {
    forall j :: i <= j < |acts| ==> acts[j] != Network(Remove(x))
  }

  /** A node in sync, message by message, with its commands working. */
  ghost predicate NodeRun(trace: seq<Snapshot>, msgs: seq<Notification>) {
    |trace| == |msgs| + 1 && forall i :: 0 <= i < |msgs| ==> NodeStep(trace[i], trace[i + 1], msgs[i])
  }

  ghost predicate NodeStep(s: Snapshot, s': Snapshot, m: Notification) {
    exists panicked :: MessageStep(s, s', m, NO_FAULTS, panicked)
  }

  lemma {:induction false} OnlyRoutes(list: seq<RoutingInfo>, node: string)
    ensures forall i :: 0 <= i < |NodeMessages(list, node)| ==> NodeMessages(list, node)[i].ContainerRouteInsert?
  {
    if list != [] {
      OnlyRoutes(list[1..], node);
    }
  }

  lemma {:induction false} RoutesChangeNothing(trace: seq<Snapshot>, msgs: seq<Notification>)
    requires NodeRun(trace, msgs) && forall i :: 0 <= i < |msgs| ==> msgs[i].ContainerRouteInsert?
    ensures trace[|msgs|] == trace[0]
    decreases |msgs|
  {
    if msgs != [] {
      var k := |msgs| - 1;
      RoutesChangeNothing(trace[..k + 1], msgs[..k]);
      assert NodeStep(trace[k], trace[k + 1], msgs[k]);
    }
  }

  lemma StepIsEvent(s: Snapshot, s': Snapshot, e: Event, own: map<string, Net>)
    requires e.name in own && NodeStep(s, s', EventMessage(e, own[e.name]))
    ensures EventStep(s, s', own, e)
  {
  }

  /** The messages of one act. */
  lemma ActShows(trace: seq<Snapshot>, a: Act, own: map<string, Net>, node: string, v0: View, live: set<string>)
    requires NoClash(own, v0) && NodeRun(trace, ActMessages(a, own, node))
    requires Reads(trace[0], Overlay(v0, own, live))
    ensures Reads(trace[|trace| - 1], Overlay(v0, own, ActLive(live, a, own)))
  {
    match a {
      case Network(e) =>
        if e.name in own {
          assert NodeStep(trace[0], trace[1], ActMessages(a, own, node)[0]);
          StepIsEvent(trace[0], trace[1], e, own);
          StepRefines(v0, own, live, e, trace[0], trace[1]);
        }
      case Routes(list) =>
        OnlyRoutes(list, node);
        RoutesChangeNothing(trace, NodeMessages(list, node));
      case Elsewhere =>
    }
  }

  lemma NodeRunSplit(trace: seq<Snapshot>, a: seq<Notification>, b: seq<Notification>)
    requires NodeRun(trace, a + b)
    ensures NodeRun(trace[..|a| + 1], a) && NodeRun(trace[|a|..], b)
  {
    forall i | 0 <= i < |a| ensures NodeStep(trace[i], trace[i + 1], a[i]) {
      assert a[i] == (a + b)[i];
    }
    forall i | 0 <= i < |b| ensures NodeStep(trace[|a|..][i], trace[|a|..][i + 1], b[i]) {
      assert b[i] == (a + b)[|a| + i];
    }
  }

  /** After any run of creates and deletes of networks, repeated or not, with route lists in between,
      every node in sync that has worked off its stream has its prior state plus exactly the
      live networks that select it. */
  lemma {:induction false} NodesShowLiveNetworks(
      trace: seq<Snapshot>, acts: seq<Act>, own: map<string, Net>, node: string, v0: View)
    requires NodeRun(trace, NodeStream(acts, own, node)) && NoClash(own, v0) && Reads(trace[0], v0)
    ensures Reads(trace[|trace| - 1], Overlay(v0, own, LiveOn(acts, own)))
    decreases |acts|
  {
    if acts == [] {
      NothingLive(v0, own);
    } else {
      var earlier, last := acts[..|acts| - 1], acts[|acts| - 1];
      var j := |NodeStream(earlier, own, node)|;
      NodeRunSplit(trace, NodeStream(earlier, own, node), ActMessages(last, own, node));
      NodesShowLiveNetworks(trace[..j + 1], earlier, own, node, v0);
      ActShows(trace[j..], last, own, node, v0, LiveOn(earlier, own));
    }
  }

  // ----- The agent itself -----

  /** A route message, or a message about one kind of network whose names can stand in the mapping text. */
  predicate Harmless(m: Notification) {
    match m
    case ProviderNwCreate(name, vlan, direct) =>
      (vlan.None? || direct.None?) && BridgeMapping.CleanText(NwName(name)) && BridgeMapping.CleanText(BrName(name))
    case ProviderNwRemove(_, ln, intf) => ln == "" || intf == ""
    case ContainerRouteInsert(_, _) => true
    case _ => false
  }

  lemma CreateHarmless(s: Snapshot, mid: Snapshot, s': Snapshot, m: Notification)
    requires m.ProviderNwCreate? && Harmless(m) && !Unreadable(s.mappings) && CreateEffect(s, mid, s', m, NO_FAULTS)
    ensures !CreatePanics(s, mid, m, NO_FAULTS) && !Unreadable(s'.mappings)
  {
    if s'.mappings != s.mappings {
      MappingStepRead(s.mappings, s'.mappings, BrName(m.name), NwName(m.name), "add",
                      BridgeMapping.Parse(BridgeMapping.Text(s.mappings)).value);
    }
  }

  lemma RemoveHarmless(s: Snapshot, mid: Snapshot, s': Snapshot, m: Notification)
    requires m.ProviderNwRemove? && Harmless(m) && !Unreadable(s.mappings) && RemoveEffect(s, mid, s', m, NO_FAULTS)
    ensures !RemovePanics(s, mid, m, NO_FAULTS) && !Unreadable(s'.mappings)
  {
    if s'.mappings != s.mappings {
      MappingStepRead(s.mappings, s'.mappings, BrName(m.name), NwName(m.name), "delete",
                      BridgeMapping.Parse(BridgeMapping.Text(s.mappings)).value);
    }
  }

  /** Such a message neither ends the process at a readable mapping text nor makes it unreadable. */
  lemma HarmlessStep(s: Snapshot, s': Snapshot, m: Notification, panicked: bool)
    requires Harmless(m) && !Unreadable(s.mappings) && MessageStep(s, s', m, NO_FAULTS, panicked)
    ensures !panicked && !Unreadable(s'.mappings)
  {
    if m.ProviderNwCreate? {
      var mid :| CreateEffect(s, mid, s', m, NO_FAULTS) && (panicked <==> CreatePanics(s, mid, m, NO_FAULTS));
      CreateHarmless(s, mid, s', m);
    } else if m.ProviderNwRemove? {
      var mid :| RemoveEffect(s, mid, s', m, NO_FAULTS) && (panicked <==> RemovePanics(s, mid, m, NO_FAULTS));
      RemoveHarmless(s, mid, s', m);
    }
  }

  lemma {:induction false} HarmlessRun(trace: seq<Snapshot>, msgs: seq<Notification>, faults: seq<Faults>, died: bool)
    requires |faults| == |msgs| && SyncedRun(trace, msgs, faults, died) && !Unreadable(trace[0].mappings)
    requires forall i :: 0 <= i < |msgs| ==> Harmless(msgs[i]) && faults[i] == NO_FAULTS
    ensures msgs != [] ==> !died
    ensures !Unreadable(trace[|msgs|].mappings) && NodeRun(trace, msgs)
    decreases |msgs|
  {
    if msgs != [] {
      var k := |msgs| - 1;
      assert SyncedRun(trace[..k + 1], msgs[..k], faults[..k], false);
      HarmlessRun(trace[..k + 1], msgs[..k], faults[..k], false);
      HarmlessStep(trace[k], trace[k + 1], msgs[k], died);
      forall i | 0 <= i < |msgs| ensures NodeStep(trace[i], trace[i + 1], msgs[i]) {
        assert i < k ==> NodeStep(trace[..k + 1][i], trace[..k + 1][i + 1], msgs[..k][i]);
      }
    }
  }

  lemma {:induction false} StreamHarmless(acts: seq<Act>, own: map<string, Net>, node: string, v0: View)
    requires NoClash(own, v0)
    ensures forall i :: 0 <= i < |NodeStream(acts, own, node)| ==> Harmless(NodeStream(acts, own, node)[i])
    decreases |acts|
  {
    if acts != [] {
      var k := |acts| - 1;
      StreamHarmless(acts[..k], own, node, v0);
      if acts[k].Network? && acts[k].e.name in own {
        assert NewTo(acts[k].e.name, own[acts[k].e.name], v0);
      }
      if acts[k].Routes? {
        OnlyRoutes(acts[k].list, node);
      }
    }
  }

  /** The states that the receiving loop goes through, up to the message that ends it if there is one. */
  lemma LoopShows(trace: seq<Snapshot>, stream: seq<Notification>, faults: seq<Faults>, handled: nat, died: bool,
                  acts: seq<Act>, own: map<string, Net>, node: string, v0: View)
    requires stream == NodeStream(acts, own, node) && NoClash(own, v0)
    requires handled <= |stream| && (handled < |stream| ==> died) && (died ==> handled > 0)
    requires |faults| == |stream| && (forall i :: 0 <= i < |faults| ==> faults[i] == NO_FAULTS)
    requires SyncedRun(trace, stream[..handled], faults[..handled], died) && Reads(trace[0], v0)
    ensures handled == |stream| && Reads(trace[handled], Overlay(v0, own, LiveOn(acts, own)))
  {
    StreamHarmless(acts, own, node, v0);
    HarmlessRun(trace, stream[..handled], faults[..handled], died);
    assert stream[..handled] == stream;
    NodesShowLiveNetworks(trace, acts, own, node, v0);
  }

  /** The agent of a node in sync works off what the operator's run has added to its stream: it goes
      through all of it, and the node ends up with its prior state plus exactly the live
      networks that select it. */
  method WorkOff(agent: NfnAgent, stream: seq<Notification>, ghost acts: seq<Act>, ghost own: map<string, Net>,
                 ghost node: string, ghost v0: View, h: string, handlings: seq<Handling>)
    requires stream == NodeStream(acts, own, node) && |handlings| == |stream|
    requires agent.inSync && agent.pnCreateStore == [] && NoClash(own, v0) && Reads(agent.Snap(), v0)
    modifies agent, agent.node, agent.node.ovs
    ensures Reads(agent.Snap(), Overlay(v0, own, LiveOn(acts, own)))
    ensures agent.containers == HandleWith(old(agent.containers), h, stream, handlings)
  {
    var none := seq(|stream|, _ => NO_FAULTS);
    var handled, died, trace := agent.HandleStream(stream, 0, none, h, handlings);
    LoopShows(trace, stream, none, handled, died, acts, own, node, v0);
    assert stream[..|stream|] == stream && handlings[..|stream|] == handlings;
  }

  /** From the operator to the node: the same for what a run of the server has left on the stream. */
  method ServeNode(agent: NfnAgent, ghost cls: seq<Streams>, final: Streams, sent: nat, ghost acts: seq<Act>,
                   ghost nets: map<string, ProviderNetwork>, ghost nodes: map<string, seq<string>>, node: string,
                   ghost v0: View, h: string, handlings: seq<Handling>)
    requires ServerRun(cls, acts, nets, nodes, node) && Sendable(nets, nodes) && final == cls[|acts|]
    requires node in cls[0] && sent == |cls[0][node]|
    requires |handlings| == |NodeStream(acts, Selected(nets, nodes, node), node)|
    requires agent.inSync && agent.pnCreateStore == []
    requires NoClash(Selected(nets, nodes, node), v0) && Reads(agent.Snap(), v0)
    modifies agent, agent.node, agent.node.ovs
    ensures var own := Selected(nets, nodes, node);
      && Reads(agent.Snap(), Overlay(v0, own, LiveOn(acts, own)))
      && agent.containers == HandleWith(old(agent.containers), h, NodeStream(acts, own, node), handlings)
  {
    StreamGrows(cls, acts, nets, nodes, node);
    var stream := final[node][sent..];
    assert stream == NodeStream(acts, Selected(nets, nodes, node), node);
    WorkOff(agent, stream, acts, Selected(nets, nodes, node), node, v0, h, handlings);
  }
}
