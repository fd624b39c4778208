/** From the operator's route list, over the nodes' streams and agents, to packets that arrive. */
module Delivery {
  import opened Wrappers
  import opened RouteTable
  import opened Chain
  import opened Notify

  // ----- An agent working through its stream -----

  // The route tables of the containers on one node, by container ID.
  type Tables = map<string, Table>

  /** The agent's handling of a message, as far as routes go; a container it cannot find is
      skipped. */
  function HandledRoute(tables: Tables, hostNet: Option<string>, m: Notification, failAt: int): Tables {
    if m.ContainerRouteInsert? && m.id in tables
    then tables[m.id := ContainerRoutes(tables[m.id], hostNet, m.routes, failAt).0]
    else tables
  }

  /** A stream of messages for which every command works. */
  function HandleRoutes(tables: Tables, hostNet: Option<string>, msgs: seq<Notification>): Tables
    decreases |msgs|
  {
    if msgs == [] then tables
    else HandleRoutes(HandledRoute(tables, hostNet, msgs[0], -1), hostNet, msgs[1..])
  }

  predicate IsFor(m: Notification, id: string) {
    m.ContainerRouteInsert? && m.id == id
  }

  /** All the routes that a stream carries for one container. */
  function RoutesFor(msgs: seq<Notification>, id: string): seq<Route> {
    if msgs == [] then []
    else if IsFor(msgs[0], id) then msgs[0].routes + RoutesFor(msgs[1..], id)
    else RoutesFor(msgs[1..], id)
  }

  predicate Touches(msgs: seq<Notification>, id: string) {
    exists i :: 0 <= i < |msgs| && IsFor(msgs[i], id)
  }

  /** What a stream does to one container's table: the host route once, then all its routes. */
  function Effect(t: Table, h: string, msgs: seq<Notification>, id: string): Table {
    if Touches(msgs, id) && DefaultGateway(t).Some?
    then InstallAll(Add(t, Key(h), DefaultGateway(t).value), RoutesFor(msgs, id), -1).0
    else t
  }

  /** Messages act on each container independently, and as one long list of routes. */
  lemma {:induction false} HandleRoutesEffect(tables: Tables, h: string, msgs: seq<Notification>, id: string)
    requires id in tables
    ensures HandleRoutes(tables, Some(h), msgs).Keys == tables.Keys
    ensures HandleRoutes(tables, Some(h), msgs)[id] == Effect(tables[id], h, msgs, id)
    decreases |msgs|
  {
    if msgs != [] {
      var m, rest := msgs[0], msgs[1..];
      HandleRoutesEffect(HandledRoute(tables, Some(h), m, -1), h, rest, id);
      TouchesStep(msgs, id);
      if IsFor(m, id) && DefaultGateway(tables[id]).Some? {
        var t := Add(tables[id], Key(h), DefaultGateway(tables[id]).value);
        InstallAnyBudget(t, m.routes, -2, -1);
        InstallKeepsDefault(t, m.routes, -1);
        InstallSplit(t, m.routes, RoutesFor(rest, id));
        HostRouteStays(t, m.routes, Key(h));
        if !Touches(rest, id) {
          NoRoutes(rest, id);
          assert m.routes + [] == m.routes;
        }
      }
    }
  }

  lemma TouchesStep(msgs: seq<Notification>, id: string)
    requires msgs != []
    ensures Touches(msgs, id) <==> IsFor(msgs[0], id) || Touches(msgs[1..], id)
  {
    if Touches(msgs[1..], id) {
      var i :| 0 <= i < |msgs[1..]| && IsFor(msgs[1..][i], id);
      assert IsFor(msgs[i + 1], id);
    }
    if Touches(msgs, id) && !IsFor(msgs[0], id) {
      var i :| 0 <= i < |msgs| && IsFor(msgs[i], id);
      assert IsFor(msgs[1..][i - 1], id);
    }
  }

  lemma {:induction false} NoRoutes(msgs: seq<Notification>, id: string)
    requires !Touches(msgs, id)
    ensures RoutesFor(msgs, id) == []
  {
    if msgs != [] {
      TouchesStep(msgs, id);
      NoRoutes(msgs[1..], id);
    }
  }

  lemma {:induction false} RoutesForAppend(a: seq<Notification>, b: seq<Notification>, id: string)
    ensures RoutesFor(a + b, id) == RoutesFor(a, id) + RoutesFor(b, id)
    ensures Touches(a + b, id) <==> Touches(a, id) || Touches(b, id)
  {
    if a == [] {
      assert a + b == b;
    } else {
      assert (a + b)[1..] == a[1..] + b;
      RoutesForAppend(a[1..], b, id);
      TouchesStep(a, id);
      TouchesStep(a + b, id);
    }
  }

  // ----- Replay -----

  /** Receiving the tail of a stream a second time changes no container's table. */
  lemma ReplayUnchanged(tables: Tables, h: string, before: seq<Notification>, msgs: seq<Notification>)
    ensures var once := HandleRoutes(tables, Some(h), before + msgs);
      HandleRoutes(once, Some(h), msgs) == once
  {
    var once := HandleRoutes(tables, Some(h), before + msgs);
    if tables != map[] {
      var some :| some in tables;
      HandleRoutesEffect(tables, h, before + msgs, some);
      HandleRoutesEffect(once, h, msgs, some);
    } else {
      NoTables(h, before + msgs);
      NoTables(h, msgs);
    }
    forall id | id in once
      ensures HandleRoutes(once, Some(h), msgs)[id] == once[id]
    {
      HandleRoutesEffect(tables, h, before + msgs, id);
      HandleRoutesEffect(once, h, msgs, id);
      RoutesForAppend(before, msgs, id);
      var t := tables[id];
      if DefaultGateway(t).Some? && Touches(msgs, id) {
        var t' := Add(t, Key(h), DefaultGateway(t).value);
        InstallKeepsDefault(t', RoutesFor(before + msgs, id), -1);
        HostRouteStays(t', RoutesFor(before + msgs, id), Key(h));
        InstallAgain(t', RoutesFor(before, id), RoutesFor(msgs, id));
      }
    }
  }

  lemma {:induction false} NoTables(h: string, msgs: seq<Notification>)
    ensures HandleRoutes(map[], Some(h), msgs) == map[]
  {
    if msgs != [] {
      NoTables(h, msgs[1..]);
    }
  }

  lemma {:induction false} HandleRoutesAppend(tables: Tables, h: Option<string>, a: seq<Notification>, b: seq<Notification>)
    ensures HandleRoutes(tables, h, a + b) == HandleRoutes(HandleRoutes(tables, h, a), h, b)
    decreases |a|
  {
    if a == [] {
      assert a + b == b;
    } else {
      assert (a + b)[1..] == a[1..] + b;
      HandleRoutesAppend(HandledRoute(tables, h, a[0], -1), h, a[1..], b);
    }
  }

  /** The list that the k-th successful calculation of one unchanged chain hands out. */
  function ListAfter(history: seq<RoutingInfo>, chain: seq<RoutingInfo>, k: nat): seq<RoutingInfo> {
    if k == 0 then history else ListAfter(history, chain, k - 1) + chain
  }

  /** A node's tables after k rounds, each of which sends the whole list again. */
  function TablesAfter(tables: Tables, h: string, node: string, history: seq<RoutingInfo>, chain: seq<RoutingInfo>, k: nat)
    : Tables
  {
    if k == 0 then tables
    else HandleRoutes(TablesAfter(tables, h, node, history, chain, k - 1), Some(h),
                      NodeMessages(ListAfter(history, chain, k), node))
  }

  /** On a node where the first round has been received, a list of any later round is a no-op. */
  lemma {:induction false} LaterListUnchanged(
      tables: Tables, h: string, node: string, history: seq<RoutingInfo>, chain: seq<RoutingInfo>, k: nat)
    requires k >= 1
    ensures var once := TablesAfter(tables, h, node, history, chain, 1);
      HandleRoutes(once, Some(h), NodeMessages(ListAfter(history, chain, k), node)) == once
    decreases k
  {
    var first := NodeMessages(history, node) + NodeMessages(chain, node);
    NodeMessagesAppend(history, chain, node);
    assert ListAfter(history, chain, 0) == history;
    assert TablesAfter(tables, h, node, history, chain, 0) == tables;
    if k == 1 {
      assert [] + first == first;
      ReplayUnchanged(tables, h, [], first);
    } else {
      LaterListUnchanged(tables, h, node, history, chain, k - 1);
      NodeMessagesAppend(ListAfter(history, chain, k - 1), chain, node);
      HandleRoutesAppend(TablesAfter(tables, h, node, history, chain, 1), Some(h),
        NodeMessages(ListAfter(history, chain, k - 1), node), NodeMessages(chain, node));
      ReplayUnchanged(tables, h, NodeMessages(history, node), NodeMessages(chain, node));
    }
  }

  /** Re-reconciling an unchanged chain any number of times leaves every container's table on
      every node as the first reconcile made it, although the list sent keeps growing. */
  lemma {:induction false} ReplayHarmless(
      tables: Tables, h: string, node: string, history: seq<RoutingInfo>, chain: seq<RoutingInfo>, k: nat)
    requires k >= 1
    ensures TablesAfter(tables, h, node, history, chain, k) == TablesAfter(tables, h, node, history, chain, 1)
    ensures |ListAfter(history, chain, k)| == |history| + k * |chain|
    decreases k
  {
    assert ListAfter(history, chain, 0) == history;
    if k > 1 {
      ReplayHarmless(tables, h, node, history, chain, k - 1);
      LaterListUnchanged(tables, h, node, history, chain, k);
    } else {
      assert ListAfter(history, chain, 1) == history + chain;
    }
  }

  // ----- Messages whose commands fail -----

  // How the handling of one message goes: whether the node's host network can be found, and
  // the number of the `ip` command that fails, if one does.
  datatype Handling = Handling(hostKnown: bool, failAt: int)

  predicate Works(o: Handling, routes: seq<Route>) {
    o.hostKnown && (o.failAt < 0 || o.failAt > |routes|)
  }

  function HandleWith(tables: Tables, h: string, msgs: seq<Notification>, handlings: seq<Handling>): Tables
    requires |handlings| == |msgs|
    decreases |msgs|
  {
    if msgs == [] then tables
    else
      var n := |msgs| - 1;
      var o := handlings[n];
      HandledRoute(HandleWith(tables, h, msgs[..n], handlings[..n]), if o.hostKnown then Some(h) else None, msgs[n], o.failAt)
  }

  lemma HandleWithStep(tables: Tables, h: string, msgs: seq<Notification>, handlings: seq<Handling>, k: nat)
    requires k < |msgs| == |handlings|
    ensures HandleWith(tables, h, msgs[..k + 1], handlings[..k + 1])
         == HandledRoute(HandleWith(tables, h, msgs[..k], handlings[..k]), if handlings[k].hostKnown then Some(h) else None,
                         msgs[k], handlings[k].failAt)
  {
    assert msgs[..k + 1][..k] == msgs[..k] && handlings[..k + 1][..k] == handlings[..k];
  }

  /** With every command working this is HandleRoutes. */
  lemma {:induction false} HandleWithNoFailure(tables: Tables, h: string, msgs: seq<Notification>, handlings: seq<Handling>)
    requires |handlings| == |msgs| && forall i :: 0 <= i < |msgs| ==> handlings[i] == Handling(true, -1)
    ensures HandleWith(tables, h, msgs, handlings) == HandleRoutes(tables, Some(h), msgs)
    decreases |msgs|
  {
    if msgs != [] {
      var n := |msgs| - 1;
      HandleWithNoFailure(tables, h, msgs[..n], handlings[..n]);
      assert msgs == msgs[..n] + [msgs[n]];
      HandleRoutesAppend(tables, Some(h), msgs[..n], [msgs[n]]);
      assert [msgs[n]][1..] == [];
    }
  }

  predicate SuccessAt(msgs: seq<Notification>, handlings: seq<Handling>, id: string, i: nat)
    requires i < |msgs| == |handlings|
  {
    IsFor(msgs[i], id) && Works(handlings[i], msgs[i].routes)
  }

  /** The stream's messages for a container all carry one list. */
  predicate OneList(msgs: seq<Notification>, id: string, routes: seq<Route>) {
    forall i :: 0 <= i < |msgs| && IsFor(msgs[i], id) ==> msgs[i].routes == routes
  }

  /** If all messages for a container carry one list, with its default last, then as soon as one
      of them worked the table is as after that list alone, whatever failed before or after. */
  lemma {:induction false} OneSuccessIsEnough(tables: Tables, h: string, msgs: seq<Notification>, handlings: seq<Handling>,
                                              id: string, routes: seq<Route>)
    requires |handlings| == |msgs| && id in tables && OneList(msgs, id, routes) && DefaultLast(routes)
    ensures var end := HandleWith(tables, h, msgs, handlings);
      && id in end
      && ContainerRoutes(end[id], Some(h), routes, -1).0 == ContainerRoutes(tables[id], Some(h), routes, -1).0
      && ((exists i :: 0 <= i < |msgs| && SuccessAt(msgs, handlings, id, i)) ==>
            end[id] == ContainerRoutes(tables[id], Some(h), routes, -1).0)
    decreases |msgs|
  {
    if msgs != [] {
      var n := |msgs| - 1;
      OneSuccessIsEnough(tables, h, msgs[..n], handlings[..n], id, routes);
      var t, o := HandleWith(tables, h, msgs[..n], handlings[..n])[id], handlings[n];
      if IsFor(msgs[n], id) && o.hostKnown {
        RetryAlone(t, h, routes, o.failAt);
        SuccessStays(tables[id], h, routes, o.failAt);
        if Works(o, routes) && DefaultGateway(t).Some? {
          InstallAnyBudget(Add(t, Key(h), DefaultGateway(t).value), routes, o.failAt - 1, -2);
        }
      }
      if i :| 0 <= i < |msgs| && SuccessAt(msgs, handlings, id, i) {
        assert i < n ==> SuccessAt(msgs[..n], handlings[..n], id, i);
      }
    }
  }

  // ----- Many chains, one list -----

  /** The operator's list, which all chains share, after the first k reconciles, each of which
      appends the entries that it gets to. */
  function SharedList(growth: seq<seq<RoutingInfo>>, k: nat): seq<RoutingInfo>
    requires k <= |growth|
  {
    if k == 0 then [] else SharedList(growth, k - 1) + growth[k - 1]
  }

  /** What each reconcile sends: the list up to a failing send, or nothing. */
  function SentLists(growth: seq<seq<RoutingInfo>>, cuts: seq<nat>): (sent: seq<seq<RoutingInfo>>)
    requires |cuts| == |growth|
    ensures |sent| == |growth|
  {
    seq(|growth|, i requires 0 <= i < |growth| => CutAt(SharedList(growth, i + 1), cuts[i]))
  }

  function CutAt(list: seq<RoutingInfo>, cut: nat): seq<RoutingInfo> {
    if cut < |list| then list[..cut] else list
  }

  /** The stream of a node after these sends. */
  function StreamAfter(sent: seq<seq<RoutingInfo>>, node: string): seq<Notification> {
    if sent == [] then [] else StreamAfter(sent[..|sent| - 1], node) + NodeMessages(sent[|sent| - 1], node)
  }

  /** All that the list says about the entry's container is this entry. */
  predicate Agrees(list: seq<RoutingInfo>, info: RoutingInfo) {
    forall e :: e in list && e.id == info.id ==> e == info
  }

  /** So does all that any reconcile computes. */
  predicate AllAgree(growth: seq<seq<RoutingInfo>>, info: RoutingInfo) {
    forall r :: 0 <= r < |growth| ==> Agrees(growth[r], info)
  }

  lemma AppendAgrees(a: seq<RoutingInfo>, b: seq<RoutingInfo>, info: RoutingInfo)
    requires Agrees(a, info) && Agrees(b, info)
    ensures Agrees(a + b, info)
  {
  }

  lemma CutAgrees(list: seq<RoutingInfo>, cut: nat, info: RoutingInfo)
    requires Agrees(list, info)
    ensures Agrees(CutAt(list, cut), info)
  {
    assert forall e :: e in CutAt(list, cut) ==> e in list;
  }

  lemma {:induction false} SharedListAgrees(growth: seq<seq<RoutingInfo>>, k: nat, info: RoutingInfo)
    requires k <= |growth| && AllAgree(growth, info)
    ensures Agrees(SharedList(growth, k), info)
    decreases k
  {
    if k > 0 {
      SharedListAgrees(growth, k - 1, info);
      AppendAgrees(SharedList(growth, k - 1), growth[k - 1], info);
    }
  }

  lemma SentListsAgree(growth: seq<seq<RoutingInfo>>, cuts: seq<nat>, info: RoutingInfo)
    requires |cuts| == |growth| && AllAgree(growth, info)
    ensures forall r :: 0 <= r < |growth| ==> Agrees(SentLists(growth, cuts)[r], info)
  {
    forall r | 0 <= r < |growth| ensures Agrees(SentLists(growth, cuts)[r], info) {
      SharedListAgrees(growth, r + 1, info);
      CutAgrees(SharedList(growth, r + 1), cuts[r], info);
    }
  }

  lemma {:induction false} OneListOf(list: seq<RoutingInfo>, node: string, info: RoutingInfo)
    requires Agrees(list, info)
    ensures OneList(NodeMessages(list, node), info.id, MessageRoutes(info))
  {
    if list != [] {
      assert list[0] in list && forall e :: e in list[1..] ==> e in list;
      OneListOf(list[1..], node, info);
    }
  }

  /** A node's stream carries one list for a container about which all that is sent agrees. */
  lemma {:induction false} StreamOneList(sent: seq<seq<RoutingInfo>>, node: string, info: RoutingInfo)
    requires forall r :: 0 <= r < |sent| ==> Agrees(sent[r], info)
    ensures OneList(StreamAfter(sent, node), info.id, MessageRoutes(info))
    decreases |sent|
  {
    if sent != [] {
      var n := |sent| - 1;
      StreamOneList(sent[..n], node, info);
      OneListOf(sent[n], node, info);
    }
  }

  lemma {:induction false} MessageArrives(list: seq<RoutingInfo>, info: RoutingInfo)
    requires info in list
    ensures Touches(NodeMessages(list, info.node), info.id)
  {
    if list[0] == info {
      assert IsFor(NodeMessages(list, info.node)[0], info.id);
    } else {
      MessageArrives(list[1..], info);
      if list[0].node == info.node {
        TouchesStep(NodeMessages(list, info.node), info.id);
      }
    }
  }

  /** An entry that is sent once reaches the stream of its node. */
  lemma {:induction false} SentArrives(sent: seq<seq<RoutingInfo>>, r: nat, info: RoutingInfo)
    requires r < |sent| && info in sent[r]
    ensures Touches(StreamAfter(sent, info.node), info.id)
    decreases |sent|
  {
    var n := |sent| - 1;
    RoutesForAppend(StreamAfter(sent[..n], info.node), NodeMessages(sent[n], info.node), info.id);
    if r == n {
      MessageArrives(sent[n], info);
    } else {
      SentArrives(sent[..n], r, info);
    }
  }
}
