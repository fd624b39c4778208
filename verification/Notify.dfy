/** The operator's notification server (internal/pkg/nfnNotify/server.go). */
module Notify {
  import opened Wrappers
  import opened Strings
  import opened RouteTable
  import opened Chain

  datatype VlanInfo = VlanInfo(vlanId: string, providerIntf: string, logicalIntf: string)
  datatype DirectInfo = DirectInfo(providerIntf: string)

  datatype Notification =
    | ProviderNwCreate(name: string, vlan: Option<VlanInfo>, direct: Option<DirectInfo>)
    | ProviderNwRemove(name: string, vlanLogicalIntf: string, directProviderIntf: string)
    | ContainerRouteInsert(id: string, routes: seq<Route>)
    | InSync(nodeIp: string, nodeMac: string)
    | Empty // a message that was never filled in; it carries no CNI type

  // What each subscribed node's stream has carried so far.
  type Streams = map<string, seq<Notification>>

  datatype ProviderNetwork = ProviderNetwork(
    name: string, cniType: string, netType: string, vlan: VlanInfo, direct: DirectInfo,
    vlanSelector: string, vlanLabels: seq<string>, directSelector: string, directLabels: seq<string>,
    created: bool)

  // Hangs: a failed node list gives a nil channel, and ranging over that never ends.
  datatype Outcome = Ok | SendFailed | Unsupported | Hangs

  // ----- Messages -----

  // The parameters that a provider network of either type gives to the node.
  datatype Net = VlanNet(v: VlanInfo) | DirectNet(d: DirectInfo)

  function CreateOf(name: string, net: Net): Notification {
    match net
    case VlanNet(v) => ProviderNwCreate(name, Some(v), None)
    case DirectNet(d) => ProviderNwCreate(name, None, Some(d))
  }

  function RemoveOf(name: string, net: Net): Notification {
    match net
    case VlanNet(v) => ProviderNwRemove(name, v.logicalIntf, "")
    case DirectNet(d) => ProviderNwRemove(name, "", d.providerIntf)
  }

  function NetOf(pn: ProviderNetwork): Net {
    if pn.netType == "VLAN" then VlanNet(pn.vlan) else DirectNet(pn.direct)
  }

  function CreateMsg(pn: ProviderNetwork): Notification {
    CreateOf(pn.name, NetOf(pn))
  }

  function DeleteMsg(pn: ProviderNetwork): Notification {
    RemoveOf(pn.name, NetOf(pn))
  }

  function MsgFor(pn: ProviderNetwork, msgType: string): Notification {
    if msgType == "create" then CreateMsg(pn)
    else if msgType == "delete" then DeleteMsg(pn)
    else Empty
  }

  /** The routes of one entry in the order they are sent: left, right, then the dynamic ones. */
  function MessageRoutes(r: RoutingInfo): seq<Route> {
    [r.leftRoute, r.rightRoute] + r.dynamic
  }

  function RouteMsg(r: RoutingInfo, msgType: string): Notification {
    if msgType == "create" then ContainerRouteInsert(r.id, MessageRoutes(r)) else Empty
  }

  /** One letter under simple case folding, as far as the selector words need it. */
  function Fold(c: char): char {
    if 'a' <= c <= 'z' then c - 'a' + 'A'
    else if c == '\U{017F}' then 'S'
    else if c == '\U{212A}' then 'K'
    else c
  }

  /** strings.EqualFold against an upper-case word. */
  predicate EqualFold(s: string, word: string) {
    |s| == |word| && forall i :: 0 <= i < |s| ==> Fold(s[i]) == word[i]
  }

  function Selector(pn: ProviderNetwork): string {
    if pn.netType == "VLAN" then pn.vlanSelector else pn.directSelector
  }

  function Labels(pn: ProviderNetwork): string {
    Join(if pn.netType == "VLAN" then pn.vlanLabels else pn.directLabels, ',')
  }

  predicate Supported(pn: ProviderNetwork) {
    pn.cniType == "ovn4nfv" && (pn.netType == "VLAN" || pn.netType == "DIRECT")
  }

  predicate IsSpecific(pn: ProviderNetwork) { EqualFold(Selector(pn), "SPECIFIC") }

  predicate IsAll(pn: ProviderNetwork) { EqualFold(Selector(pn), "ALL") }

  predicate IsAny(pn: ProviderNetwork) { EqualFold(Selector(pn), "ANY") }

  // ----- What the three kinds of send do to the streams -----

  predicate Wanted(nodeReq: string, name: string) {
    nodeReq == "" || nodeReq == name
  }

  function SentToAll(cl: Streams, msg: Notification, nodeReq: string, broken: set<string>): Streams {
    map n | n in cl :: if Wanted(nodeReq, n) && n !in broken then cl[n] + [msg] else cl[n]
  }

  function SentToEach(cl: Streams, names: seq<string>, msg: Notification, nodeReq: string, broken: set<string>)
    : (Streams, Outcome)
    decreases |names|
  {
    if names == [] then (cl, Ok)
    else
      var n := names[0];
      if !Wanted(nodeReq, n) || n !in cl then SentToEach(cl, names[1..], msg, nodeReq, broken)
      else if n in broken then (cl, SendFailed)
      else SentToEach(cl[n := cl[n] + [msg]], names[1..], msg, nodeReq, broken)
  }

  /** Some client, whichever comes first out of the map, is sent the message. */
  ghost predicate SentToOne(cl: Streams, cl': Streams, o: Outcome, msg: Notification, broken: set<string>) {
    && (cl == map[] ==> cl' == cl && o == Ok)
    && (cl != map[] ==> exists n :: n in cl && SentToThis(cl, cl', o, n, msg, broken))
  }

  predicate SentToThis(cl: Streams, cl': Streams, o: Outcome, n: string, msg: Notification, broken: set<string>)
    requires n in cl
  {
    if n in broken then o == SendFailed && cl' == cl else o == Ok && cl' == cl[n := cl[n] + [msg]]
  }

  /** What SendNotif may do to the streams. A selector that nodes does not answer is a failed list. */
  ghost predicate NotifEffect(cl: Streams, cl': Streams, o: Outcome, pn: ProviderNetwork, msgType: string,
                              nodeReq: string, nodes: map<string, seq<string>>, broken: set<string>)
  {
    if !Supported(pn) then
      o == Unsupported && cl' == cl
    else if IsSpecific(pn) then
      if Labels(pn) in nodes
      then (cl', o) == SentToEach(cl, nodes[Labels(pn)], MsgFor(pn, msgType), nodeReq, broken)
      else o == Hangs && cl' == cl
    else if IsAll(pn) then
      o == Ok && cl' == SentToAll(cl, MsgFor(pn, msgType), nodeReq, broken)
    else if IsAny(pn) && !pn.created then
      SentToOne(cl, cl', o, MsgFor(pn, msgType), broken)
    else
      o == Ok && cl' == cl
  }

  /** The streams after SendRouteNotif, which stops at the first failing send. */
  function SentRoutes(cl: Streams, list: seq<RoutingInfo>, msgType: string, broken: set<string>): (Streams, bool)
    decreases |list|
  {
    if list == [] then (cl, true)
    else
      var n := list[0].node;
      if n !in cl then SentRoutes(cl, list[1..], msgType, broken)
      else if n in broken then (cl, false)
      else SentRoutes(cl[n := cl[n] + [RouteMsg(list[0], msgType)]], list[1..], msgType, broken)
  }

  // ----- The server -----

  class Server {
    var clientList: Streams

    constructor ()
      ensures clientList == map[]
    {
      clientList := map[];
    }

    method SendAll(msg: Notification, nodeReq: string, broken: set<string>)
      modifies this
      ensures clientList == SentToAll(old(clientList), msg, nodeReq, broken)
    {
      ghost var before := clientList;
      var rest := clientList.Keys;
      while rest != {}
        invariant rest <= before.Keys && clientList.Keys == before.Keys
        invariant forall n :: n in rest ==> clientList[n] == before[n]
        invariant forall n :: n in before && n !in rest ==>
          clientList[n] == SentToAll(before, msg, nodeReq, broken)[n]
        decreases rest
      {
        var n :| n in rest;
        rest := rest - {n};
        if nodeReq != "" && nodeReq != n {
          continue;
        }
        if n !in broken {
          clientList := clientList[n := clientList[n] + [msg]];
        }
      }
    }

    /** Whichever client comes first out of the map, if there is one. */
    method SendAny(msg: Notification, broken: set<string>) returns (o: Outcome)
      modifies this
      ensures SentToOne(old(clientList), clientList, o, msg, broken)
    {
      if clientList.Keys == {} {
        return Ok;
      }
      var n :| n in clientList.Keys;
      if n in broken {
        return SendFailed;
      }
      clientList := clientList[n := clientList[n] + [msg]];
      return Ok;
    }

    method SendSpecific(msg: Notification, names: seq<string>, nodeReq: string, broken: set<string>)
      returns (o: Outcome)
      modifies this
      ensures (clientList, o) == SentToEach(old(clientList), names, msg, nodeReq, broken)
    {
      var i := 0;
      while i < |names|
        invariant 0 <= i <= |names|
        invariant SentToEach(old(clientList), names, msg, nodeReq, broken)
               == SentToEach(clientList, names[i..], msg, nodeReq, broken)
      {
        var n := names[i];
        assert names[i..][1..] == names[i + 1..];
        i := i + 1;
        if nodeReq != "" && nodeReq != n {
          continue;
        }
        if n in clientList {
          if n in broken {
            return SendFailed;
          }
          clientList := clientList[n := clientList[n] + [msg]];
        }
      }
      return Ok;
    }

    /** marks tells that the network's status is then set to created. */
    method SendNotif(pn: ProviderNetwork, msgType: string, nodeReq: string,
                     nodes: map<string, seq<string>>, broken: set<string>)
      returns (o: Outcome, marks: bool)
      modifies this
      ensures NotifEffect(old(clientList), clientList, o, pn, msgType, nodeReq, nodes, broken)
      ensures clientList.Keys == old(clientList.Keys)
      ensures marks <==> Supported(pn) && IsAny(pn) && !pn.created && o == Ok
    {
      marks := false;
      if pn.cniType != "ovn4nfv" {
        return Unsupported, false;
      }
      if pn.netType != "VLAN" && pn.netType != "DIRECT" {
        return Unsupported, false;
      }
      SelectorWordsDiffer(Selector(pn));
      var msg := MsgFor(pn, msgType);
      o := Ok;
      if EqualFold(Selector(pn), "SPECIFIC") {
        if Labels(pn) !in nodes {
          return Hangs, false;
        }
        SentToEachKeys(clientList, nodes[Labels(pn)], msg, nodeReq, broken);
        o := SendSpecific(msg, nodes[Labels(pn)], nodeReq, broken);
      } else if EqualFold(Selector(pn), "ALL") {
        SendAll(msg, nodeReq, broken);
      } else if EqualFold(Selector(pn), "ANY") {
        if !pn.created {
          o := SendAny(msg, broken);
          marks := o == Ok;
        }
      }
    }

    /** The loop of Subscribe: one create notification per existing network, errors ignored. */
    method SendExisting(nodeName: string, list: seq<ProviderNetwork>, nodes: map<string, seq<string>>, broken: set<string>)
      returns (o: Outcome)
      requires nodeName != "" && nodeName in clientList
      modifies this
      ensures nodeName in clientList
      ensures AllReady(list, nodes) ==>
        && o == Ok
        && clientList == WithCreates(old(clientList), list, |list|, nodeName, nodes, broken)
    {
      ghost var before := clientList;
      ghost var ready := AllReady(list, nodes);
      assert before[nodeName] + Creates(list[..0], nodeName, nodes) == before[nodeName];
      var i := 0;
      while i < |list|
        invariant 0 <= i <= |list| && nodeName in clientList
        invariant ready ==> clientList == WithCreates(before, list, i, nodeName, nodes, broken)
      {
        var sent, marks := SendNotif(list[i], "create", nodeName, nodes, broken);
        if ready {
          WithCreatesSent(before, clientList, sent, list, i, nodeName, nodes, broken);
        }
        if sent == Hangs {
          return Hangs;
        }
        i := i + 1;
      }
      return Ok;
    }

    /** Subscribe up to the point where the stream is only kept open. */
    method Subscribe(nodeName: string, port: Option<(string, string)>, list: Option<seq<ProviderNetwork>>,
                     nodes: map<string, seq<string>>, broken: set<string>)
      returns (o: Outcome)
      modifies this
      ensures nodeName == "" || port.None? ==> o == Unsupported && clientList == old(clientList)
      ensures nodeName != "" && port.Some? && AllReady(Existing(list), nodes) ==>
        && o == Ok
        && clientList == old(clientList)[nodeName :=
             if nodeName in broken then []
             else Creates(Existing(list), nodeName, nodes) + [InSync(port.value.0, port.value.1)]]
    {
      if nodeName == "" {
        return Unsupported;
      }
      if port.None? {
        return Unsupported;
      }
      clientList := clientList[nodeName := []];
      if list.Some? {
        o := SendExisting(nodeName, list.value, nodes, broken);
        assert list.value[..|list.value|] == list.value;
        assert [] + Creates(list.value, nodeName, nodes) == Creates(list.value, nodeName, nodes);
        if o == Hangs {
          return;
        }
      }
      if nodeName !in broken {
        clientList := clientList[nodeName := clientList[nodeName] + [InSync(port.value.0, port.value.1)]];
      }
      return Ok;
    }

    method SendRouteNotif(list: seq<RoutingInfo>, msgType: string, broken: set<string>) returns (ok: bool)
      modifies this
      ensures (clientList, ok) == SentRoutes(old(clientList), list, msgType, broken)
    {
      var i := 0;
      while i < |list|
        invariant 0 <= i <= |list|
        invariant SentRoutes(old(clientList), list, msgType, broken)
               == SentRoutes(clientList, list[i..], msgType, broken)
      {
        var r := list[i];
        assert list[i..][1..] == list[i + 1..];
        i := i + 1;
        if r.node in clientList {
          if r.node in broken {
            return false;
          }
          clientList := clientList[r.node := clientList[r.node] + [RouteMsg(r, msgType)]];
        }
      }
      return true;
    }
  }

  // ----- The handshake -----

  predicate Distinct<T(==)>(s: seq<T>) {
    forall i, j :: 0 <= i < j < |s| ==> s[i] != s[j]
  }

  /** A network the handshake theorem speaks about: not one that goes to ANY node, and its
      node list, if one is asked for, comes back and names each node once. */
  predicate HandshakeReady(pn: ProviderNetwork, nodes: map<string, seq<string>>) {
    Supported(pn) ==>
      && !IsAny(pn)
      && (IsSpecific(pn) ==> Labels(pn) in nodes && Distinct(nodes[Labels(pn)]))
  }

  /** A failed list is passed over as if no network existed. */
  function Existing(list: Option<seq<ProviderNetwork>>): seq<ProviderNetwork> {
    match list case None => [] case Some(l) => l
  }

  predicate AllReady(list: seq<ProviderNetwork>, nodes: map<string, seq<string>>) {
    forall i :: 0 <= i < |list| ==> HandshakeReady(list[i], nodes)
  }

  /** Whether a network is meant for a node. */
  predicate Selects(pn: ProviderNetwork, node: string, nodes: map<string, seq<string>>) {
    && Supported(pn)
    && (IsAll(pn) || (IsSpecific(pn) && Labels(pn) in nodes && node in nodes[Labels(pn)]))
  }

  /** The Create messages of the networks meant for a node, in list order. */
  function Creates(list: seq<ProviderNetwork>, node: string, nodes: map<string, seq<string>>): seq<Notification> {
    if list == [] then []
    else
      var n := |list| - 1;
      Creates(list[..n], node, nodes) + if Selects(list[n], node, nodes) then [CreateMsg(list[n])] else []
  }

  /** The streams after the first i networks; a node that cannot be reached gets nothing. */
  function WithCreates(cl: Streams, list: seq<ProviderNetwork>, i: nat, node: string, nodes: map<string, seq<string>>,
                       broken: set<string>): Streams
    requires i <= |list| && node in cl
  {
    if node in broken then cl else cl[node := cl[node] + Creates(list[..i], node, nodes)]
  }

  lemma WithCreatesStep(cl: Streams, list: seq<ProviderNetwork>, i: nat, node: string, nodes: map<string, seq<string>>,
                        broken: set<string>)
    requires i < |list| && node in cl
    ensures var cl' := WithCreates(cl, list, i, node, nodes, broken);
      WithCreates(cl, list, i + 1, node, nodes, broken)
      == if Selects(list[i], node, nodes) && node !in broken then cl'[node := cl'[node] + [CreateMsg(list[i])]] else cl'
  {
    var longer := list[..i + 1];
    assert longer[..i] == list[..i] && |longer| - 1 == i;
    var sofar := Creates(list[..i], node, nodes);
    if Selects(list[i], node, nodes) {
      assert Creates(longer, node, nodes) == sofar + [CreateMsg(list[i])];
      assert cl[node] + (sofar + [CreateMsg(list[i])]) == cl[node] + sofar + [CreateMsg(list[i])];
    } else {
      assert Creates(longer, node, nodes) == sofar;
    }
  }

  lemma SelectorWordsDiffer(s: string)
    ensures !(EqualFold(s, "SPECIFIC") && (EqualFold(s, "ALL") || EqualFold(s, "ANY")))
    ensures !(EqualFold(s, "ALL") && EqualFold(s, "ANY"))
  {
    if EqualFold(s, "ALL") {
      assert Fold(s[1]) == "ALL"[1];
    }
  }

  lemma {:induction false} SentToEachKeys(
      cl: Streams, names: seq<string>, msg: Notification, nodeReq: string, broken: set<string>)
    ensures SentToEach(cl, names, msg, nodeReq, broken).0.Keys == cl.Keys
    decreases |names|
  {
    if names != [] {
      var n := names[0];
      if !Wanted(nodeReq, n) || n !in cl {
        SentToEachKeys(cl, names[1..], msg, nodeReq, broken);
      } else if n !in broken {
        SentToEachKeys(cl[n := cl[n] + [msg]], names[1..], msg, nodeReq, broken);
      }
    }
  }

  /** A requested send to a list of distinct names reaches the requested node at most once, if it
      is reachable, and nobody else. */
  lemma {:induction false} SentToEachRequested(
      cl: Streams, names: seq<string>, msg: Notification, node: string, broken: set<string>)
    requires node != "" && node in cl && Distinct(names)
    ensures SentToEach(cl, names, msg, node, broken)
         == if node !in names then (cl, Ok)
            else if node in broken then (cl, SendFailed)
            else (cl[node := cl[node] + [msg]], Ok)
    decreases |names|
  {
    if names != [] {
      var n := names[0];
      assert forall i :: 0 <= i < |names[1..]| ==> names[1..][i] == names[i + 1];
      if n == node {
        assert node !in names[1..];
        if n !in broken {
          SentToEachRequested(cl[n := cl[n] + [msg]], names[1..], msg, node, broken);
        }
      } else {
        SentToEachRequested(cl, names[1..], msg, node, broken);
      }
    }
  }

  /** One network of the handshake: its Create goes to the subscribing node exactly when the
      network is meant for it and the node is reachable, and no other stream moves. */
  lemma HandshakeStep(cl: Streams, cl': Streams, o: Outcome, pn: ProviderNetwork, node: string,
                      nodes: map<string, seq<string>>, broken: set<string>)
    requires node != "" && node in cl && HandshakeReady(pn, nodes)
    requires NotifEffect(cl, cl', o, pn, "create", node, nodes, broken)
    ensures cl' == if Selects(pn, node, nodes) && node !in broken then cl[node := cl[node] + [CreateMsg(pn)]] else cl
    ensures o != Hangs
  {
    SelectorWordsDiffer(Selector(pn));
    if Supported(pn) && IsSpecific(pn) {
      SentToEachRequested(cl, nodes[Labels(pn)], CreateMsg(pn), node, broken);
    }
  }

  /** A network that goes to ANY node is marked as created without any node having been told
      exactly when nobody is subscribed. */
  lemma AnyMarked(cl: Streams, cl': Streams, o: Outcome, pn: ProviderNetwork, msgType: string, nodeReq: string,
                  nodes: map<string, seq<string>>, broken: set<string>)
    requires Supported(pn) && IsAny(pn) && !pn.created
    requires NotifEffect(cl, cl', o, pn, msgType, nodeReq, nodes, broken)
    ensures o == Ok && cl' == cl <==> cl == map[]
  {
    SelectorWordsDiffer(Selector(pn));
    if cl != map[] && o == Ok {
      var n :| n in cl && SentToThis(cl, cl', o, n, MsgFor(pn, msgType), broken);
      assert |cl'[n]| == |cl[n]| + 1;
    }
  }

  /** Once it is marked, no message about it, create or delete, is ever sent. */
  lemma AnyCreatedSilent(cl: Streams, cl': Streams, o: Outcome, pn: ProviderNetwork, msgType: string, nodeReq: string,
                         nodes: map<string, seq<string>>, broken: set<string>)
    requires Supported(pn) && IsAny(pn) && pn.created
    requires NotifEffect(cl, cl', o, pn, msgType, nodeReq, nodes, broken)
    ensures cl' == cl
  {
    SelectorWordsDiffer(Selector(pn));
  }

  lemma WithCreatesSent(cl: Streams, cl': Streams, o: Outcome, list: seq<ProviderNetwork>, i: nat, node: string,
                        nodes: map<string, seq<string>>, broken: set<string>)
    requires i < |list| && node != "" && node in cl && HandshakeReady(list[i], nodes)
    requires NotifEffect(WithCreates(cl, list, i, node, nodes, broken), cl', o, list[i], "create", node, nodes, broken)
    ensures cl' == WithCreates(cl, list, i + 1, node, nodes, broken) && o != Hangs
  {
    HandshakeStep(WithCreates(cl, list, i, node, nodes, broken), cl', o, list[i], node, nodes, broken);
    WithCreatesStep(cl, list, i, node, nodes, broken);
  }

  // ----- Route notifications, node by node -----

  /** The route messages of a list that belong on one node's stream. */
  function NodeMessages(list: seq<RoutingInfo>, node: string): seq<Notification> {
    if list == [] then []
    else if list[0].node == node then [RouteMsg(list[0], "create")] + NodeMessages(list[1..], node)
    else NodeMessages(list[1..], node)
  }

  lemma {:induction false} NodeMessagesAppend(a: seq<RoutingInfo>, b: seq<RoutingInfo>, node: string)
    ensures NodeMessages(a + b, node) == NodeMessages(a, node) + NodeMessages(b, node)
  {
    if a == [] {
      assert a + b == b;
    } else {
      assert (a + b)[1..] == a[1..] + b;
      NodeMessagesAppend(a[1..], b, node);
      var own := [RouteMsg(a[0], "create")];
      assert own + (NodeMessages(a[1..], node) + NodeMessages(b, node)) == own + NodeMessages(a[1..], node) + NodeMessages(b, node);
    }
  }

  /** Every subscribed node receives its own messages, in list order, up to the first entry
      whose node is subscribed but cannot be reached; a node nobody subscribed for is skipped. */
  lemma {:induction false} RouteStreams(cl: Streams, list: seq<RoutingInfo>, broken: set<string>, node: string)
    requires node in cl
    ensures var k := Reached(cl, list, broken);
      && SentRoutes(cl, list, "create", broken).0.Keys == cl.Keys
      && SentRoutes(cl, list, "create", broken).0[node] == cl[node] + NodeMessages(list[..k], node)
      && (SentRoutes(cl, list, "create", broken).1 <==> k == |list|)
    decreases |list|
  {
    if list != [] {
      var n := list[0].node;
      if n !in cl {
        RouteStreams(cl, list[1..], broken, node);
        assert list[..1 + Reached(cl, list[1..], broken)][1..] == list[1..][..Reached(cl, list[1..], broken)];
      } else if n !in broken {
        var cl' := cl[n := cl[n] + [RouteMsg(list[0], "create")]];
        ReachedKeys(cl, cl', list[1..], broken);
        RouteStreams(cl', list[1..], broken, node);
        assert list[..1 + Reached(cl, list[1..], broken)][1..] == list[1..][..Reached(cl, list[1..], broken)];
      }
    }
  }

  /** How many entries are gone through before the first failing send. */
  function Reached(cl: Streams, list: seq<RoutingInfo>, broken: set<string>): (k: nat)
    ensures k <= |list|
  {
    if list == [] || (list[0].node in cl && list[0].node in broken) then 0
    else 1 + Reached(cl, list[1..], broken)
  }

  lemma {:induction false} ReachedKeys(a: Streams, b: Streams, list: seq<RoutingInfo>, broken: set<string>)
    requires a.Keys == b.Keys
    ensures Reached(a, list, broken) == Reached(b, list, broken)
  {
    if list != [] {
      assert list[0].node in a <==> list[0].node in b;
      ReachedKeys(a, b, list[1..], broken);
    }
  }
}
