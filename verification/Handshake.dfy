/** A node joining: the operator's stream, as the node's agent works it off. */
module Handshake {
  import opened Wrappers
  import opened NodeState
  import opened Chain
  import opened Notify
  import opened Delivery
  import opened Resync
  import opened Agent

  lemma {:induction false} HandleWithAppend(tables: Tables, h: string, a: seq<Notification>, b: seq<Notification>,
                                            ha: seq<Handling>, hb: seq<Handling>)
    requires |ha| == |a| && |hb| == |b|
    ensures HandleWith(tables, h, a + b, ha + hb) == HandleWith(HandleWith(tables, h, a, ha), h, b, hb)
    decreases |b|
  {
    if b == [] {
      assert a + b == a && ha + hb == ha;
    } else {
      var n := |b| - 1;
      assert (a + b)[..|a| + n] == a + b[..n] && (ha + hb)[..|a| + n] == ha + hb[..n];
      HandleWithAppend(tables, h, a, b[..n], ha, hb[..n]);
    }
  }

  lemma {:induction false} NoRouteMessages(tables: Tables, h: string, msgs: seq<Notification>, handlings: seq<Handling>)
    requires |handlings| == |msgs| && forall i :: 0 <= i < |msgs| ==> !msgs[i].ContainerRouteInsert?
    ensures HandleWith(tables, h, msgs, handlings) == tables
    decreases |msgs|
  {
    if msgs != [] {
      NoRouteMessages(tables, h, msgs[..|msgs| - 1], handlings[..|msgs| - 1]);
    }
  }

  lemma {:induction false} OnlyRouteMessages(list: seq<RoutingInfo>, node: string)
    ensures forall i :: 0 <= i < |NodeMessages(list, node)| ==> NodeMessages(list, node)[i].ContainerRouteInsert?
  {
    if list != [] {
      OnlyRouteMessages(list[1..], node);
    }
  }

  /** The route messages that reach the node: those of its own entries before the first failing send. */
  function RoutesSent(cl: Streams, node: string, routes: seq<RoutingInfo>, broken: set<string>): seq<Notification> {
    NodeMessages(routes[..Reached(cl[node := []], routes, broken)], node)
  }

  /** The operator's side: a subscription and then a list of routes. */
  method Serve(server: Server, node: string, port: (string, string), list: Option<seq<ProviderNetwork>>,
               nodes: map<string, seq<string>>, routes: seq<RoutingInfo>, broken: set<string>)
    requires node != "" && node !in broken && AllReady(Existing(list), nodes)
    modifies server
    ensures node in server.clientList
    ensures server.clientList[node] == Creates(Existing(list), node, nodes) + [InSync(port.0, port.1)]
                                       + RoutesSent(old(server.clientList), node, routes, broken)
  {
    ghost var before := server.clientList;
    var o := server.Subscribe(node, Some(port), list, nodes, broken);
    RouteStreams(server.clientList, routes, broken, node);
    ReachedKeys(server.clientList, before[node := []], routes, broken);
    var ok := server.SendRouteNotif(routes, "create", broken);
  }

  /** The agent's side: a handshake with route messages after it, unless the agent ends at a mapping
      text that cannot be read. */
  method WorkOffHandshake(agent: NfnAgent, stream: seq<Notification>, ghost n: nat, h: string, handlings: seq<Handling>)
    requires HandshakeStream(stream, n) && |handlings| == |stream| && !agent.inSync && agent.pnCreateStore == []
    modifies agent, agent.node, agent.node.ovs
    ensures OnlyCreates(stream[..n])
    ensures forall v :: Reads(old(agent.Snap()), v) && Tidy(v) ==> Reads(agent.Snap(), Resynced(v, stream[..n]))
    ensures !Unreadable(old(agent.Snap()).mappings) ==>
      && agent.inSync && agent.pnCreateStore == []
      && agent.containers == HandleWith(old(agent.containers), h, stream, handlings)
  {
    var handled, died, trace := agent.HandleStream(stream, n, seq(|stream|, _ => NO_FAULTS), h, handlings);
    assert stream[..|stream|] == stream && handlings[..|stream|] == handlings;
  }

  /** A node's agent that has just started subscribes, and the operator then sends a list of
      routes. When the agent has worked off its stream, unless it ends at a mapping text that cannot
      be read, the node is resynced against exactly the
      networks meant for it, and its containers have exactly the routes of its entries. */
  method Join(server: Server, agent: NfnAgent, node: string, port: (string, string), list: Option<seq<ProviderNetwork>>,
              nodes: map<string, seq<string>>, routes: seq<RoutingInfo>, broken: set<string>,
              h: string, handlings: seq<Handling>)
    requires node != "" && node !in broken && AllReady(Existing(list), nodes)
    requires !agent.inSync && agent.pnCreateStore == []
    requires |handlings| == |RoutesSent(server.clientList, node, routes, broken)|
    modifies server, agent, agent.node, agent.node.ovs
    ensures OnlyCreates(Creates(Existing(list), node, nodes))
    ensures !Unreadable(old(agent.Snap()).mappings) ==> agent.inSync && agent.pnCreateStore == []
    ensures forall v :: Reads(old(agent.Snap()), v) && Tidy(v) ==>
      Reads(agent.Snap(), Resynced(v, Creates(Existing(list), node, nodes)))
    ensures !Unreadable(old(agent.Snap()).mappings) ==>
      agent.containers
      == HandleWith(old(agent.containers), h, RoutesSent(old(server.clientList), node, routes, broken), handlings)
  {
    ghost var tables := agent.containers;
    ghost var creates := Creates(Existing(list), node, nodes);
    ghost var sent := RoutesSent(server.clientList, node, routes, broken);
    CreatesAreCreates(Existing(list), node, nodes);
    OnlyRouteMessages(routes[..Reached(server.clientList[node := []], routes, broken)], node);
    Serve(server, node, port, list, nodes, routes, broken);
    JoinStream(tables, h, creates, port, sent, handlings);
    var stream := server.clientList[node];
    WorkOffHandshake(agent, stream, |creates|, h, Quiet(|stream| - |handlings|) + handlings);
  }

  /** So many messages handled without a failure. */
  function Quiet(n: nat): (hs: seq<Handling>)
    ensures |hs| == n
  {
    seq(n, _ => Handling(true, -1))
  }

  /** The stream of a node that has just joined: its form, its creates, and its effect on containers. */
  lemma JoinStream(tables: Tables, h: string, creates: seq<Notification>, port: (string, string),
                   sent: seq<Notification>, handlings: seq<Handling>)
    requires OnlyCreates(creates) && |handlings| == |sent|
    requires forall i :: 0 <= i < |sent| ==> sent[i].ContainerRouteInsert?
    ensures var stream := creates + [InSync(port.0, port.1)] + sent;
      && HandshakeStream(stream, |creates|) && stream[..|creates|] == creates
      && HandleWith(tables, h, stream, Quiet(|creates| + 1) + handlings) == HandleWith(tables, h, sent, handlings)
  {
    var shake := creates + [InSync(port.0, port.1)];
    HandleWithAppend(tables, h, shake, sent, Quiet(|shake|), handlings);
    NoRouteMessages(tables, h, shake, Quiet(|shake|));
  }
}
