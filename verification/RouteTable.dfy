/** A pod's kernel routing table and the agent's insertion of routes into it. */
module RouteTable {
  import opened Wrappers

  datatype Route = Route(dst: string, gw: string)

  // A destination prefix as the kernel keys it, and where a route leads: straight out of an
  // attached interface, or to a neighbour's address.
  datatype Dest = Default | Net(cidr: string)
  datatype Via = Direct | Gateway(ip: string)

  type Table = map<Dest, Via>

  // The destination the operator writes for the default route.
  const ANY_DST := "0.0.0.0"

  /** How `ip route add` reads a destination. */
  function Key(dst: string): Dest {
    if dst == "default" || dst == "0.0.0.0/0" then Default else Net(dst)
  }

  /** `ip route add`: the first route for a destination wins, a later one gets "File exists". */
  function Add(t: Table, d: Dest, gw: string): (t': Table)
    ensures t'.Keys == t.Keys + {d}
    ensures forall k :: k in t ==> t'[k] == t[k]
    ensures d !in t ==> t'[d] == Gateway(gw)
  {
    if d in t then t else t[d := Gateway(gw)]
  }

  /** One route of a message: the default is replaced, everything else is added. */
  function Install(t: Table, r: Route): (t': Table) {
    if r.dst == ANY_DST then t[Default := Gateway(r.gw)] else Add(t, Key(r.dst), r.gw)
  }

  /** The routes of a message in order, up to the command numbered failAt (if there is one). */
  function InstallAll(t: Table, routes: seq<Route>, failAt: int): (Table, bool)
    decreases |routes|
  {
    if routes == [] then (t, true)
    else if failAt == 0 then (t, false)
    else InstallAll(Install(t, routes[0]), routes[1..], failAt - 1)
  }

  /** The gateway of the default route; the agent gives up when there is none. */
  function DefaultGateway(t: Table): Option<string> {
    if Default in t && t[Default].Gateway? then Some(t[Default].ip) else None
  }

  /** The whole insertion: command 0 adds the host network, command i + 1 installs route i. */
  function ContainerRoutes(t: Table, hostNet: Option<string>, routes: seq<Route>, failAt: int): (Table, bool) {
    if hostNet.None? || DefaultGateway(t).None? || failAt == 0 then
      (t, false)
    else
      InstallAll(Add(t, Key(hostNet.value), DefaultGateway(t).value), routes, failAt - 1)
  }

  // ----- The agent's code over a live namespace -----

  class PodNetns {
    var routes: Table

    constructor (initial: Table)
      ensures routes == initial
    {
      routes := initial;
    }

    /** `ip route add`; a present destination is the tolerated "File exists" answer. */
    method RouteAdd(d: Dest, gw: string, fails: bool) returns (ok: bool)
      modifies this
      ensures ok == !fails
      ensures routes == if fails then old(routes) else Add(old(routes), d, gw)
    {
      if fails {
        return false;
      }
      if d !in routes {
        routes := routes[d := Gateway(gw)];
      }
      return true;
    }

    method RouteReplaceDefault(gw: string, fails: bool) returns (ok: bool)
      modifies this
      ensures ok == !fails
      ensures routes == if fails then old(routes) else old(routes)[Default := Gateway(gw)]
    {
      if fails {
        return false;
      }
      routes := routes[Default := Gateway(gw)];
      return true;
    }

    /** ContainerAddRoute with every external answer as a parameter. */
    method ContainerAddRoute(hostNet: Option<string>, list: seq<Route>, failAt: int) returns (ok: bool)
      modifies this
      ensures (routes, ok) == ContainerRoutes(old(routes), hostNet, list, failAt)
    {
      if hostNet.None? {
        return false;
      }
      var podGW := DefaultGateway(routes);
      if podGW.None? {
        return false;
      }
      ok := RouteAdd(Key(hostNet.value), podGW.value, failAt == 0);
      if !ok {
        return false;
      }
      var i := 0;
      while i < |list|
        invariant 0 <= i <= |list|
        invariant ContainerRoutes(old(routes), hostNet, list, failAt)
               == InstallAll(routes, list[i..], failAt - 1 - i)
      {
        var r := list[i];
        if r.dst == ANY_DST {
          ok := RouteReplaceDefault(r.gw, failAt - 1 - i == 0);
        } else {
          ok := RouteAdd(Key(r.dst), r.gw, failAt - 1 - i == 0);
        }
        if !ok {
          return false;
        }
        assert list[i..][1..] == list[i + 1..];
        i := i + 1;
      }
      return true;
    }
  }

  // ----- Routes of one message, no command failing -----

  lemma {:induction false} InstallKeeps(t: Table, routes: seq<Route>, failAt: int, d: Dest)
    requires d in t && d != Default
    ensures d in InstallAll(t, routes, failAt).0 && InstallAll(t, routes, failAt).0[d] == t[d]
    decreases |routes|
  {
    if routes != [] && failAt != 0 {
      InstallKeeps(Install(t, routes[0]), routes[1..], failAt - 1, d);
    }
  }

  lemma {:induction false} InstallKeepsDefault(t: Table, routes: seq<Route>, failAt: int)
    requires Default in t
    ensures Default in InstallAll(t, routes, failAt).0
    ensures t[Default].Gateway? ==> InstallAll(t, routes, failAt).0[Default].Gateway?
    decreases |routes|
  {
    if routes != [] && failAt != 0 {
      InstallKeepsDefault(Install(t, routes[0]), routes[1..], failAt - 1);
    }
  }

  /** First wins: an absent destination gets the gateway of its first route in the list. */
  lemma {:induction false} InstallFirstWins(t: Table, routes: seq<Route>, i: nat)
    requires i < |routes| && routes[i].dst != ANY_DST
    requires Key(routes[i].dst) != Default && Key(routes[i].dst) !in t
    requires forall j :: 0 <= j < i ==> routes[j].dst != routes[i].dst
    ensures Key(routes[i].dst) in InstallAll(t, routes, -1).0
    ensures InstallAll(t, routes, -1).0[Key(routes[i].dst)] == Gateway(routes[i].gw)
    decreases |routes|
  {
    InstallAnyBudget(Install(t, routes[0]), routes[1..], -2, -1);
    if i == 0 {
      InstallKeeps(Install(t, routes[0]), routes[1..], -1, Key(routes[0].dst));
    } else {
      InstallFirstWins(Install(t, routes[0]), routes[1..], i - 1);
    }
  }

  /** A destination that is neither present nor in the list stays absent. */
  lemma {:induction false} InstallAbsent(t: Table, routes: seq<Route>, d: Dest)
    requires d != Default && d !in t
    requires forall j :: 0 <= j < |routes| ==> routes[j].dst == ANY_DST || Key(routes[j].dst) != d
    ensures d !in InstallAll(t, routes, -1).0
    decreases |routes|
  {
    if routes != [] {
      InstallAnyBudget(Install(t, routes[0]), routes[1..], -2, -1);
      InstallAbsent(Install(t, routes[0]), routes[1..], d);
    }
  }

  /** A message that ends with a default route leaves exactly that default behind. */
  lemma {:induction false} InstallLastDefault(t: Table, routes: seq<Route>)
    requires routes != [] && routes[|routes| - 1].dst == ANY_DST
    ensures Default in InstallAll(t, routes, -1).0
    ensures InstallAll(t, routes, -1).0[Default] == Gateway(routes[|routes| - 1].gw)
    decreases |routes|
  {
    InstallAnyBudget(Install(t, routes[0]), routes[1..], -2, -1);
    if |routes| > 1 {
      InstallLastDefault(Install(t, routes[0]), routes[1..]);
    }
  }

  /** Two budgets that are both never used up are the same. */
  lemma {:induction false} InstallAnyBudget(t: Table, routes: seq<Route>, a: int, b: int)
    requires (a < 0 || a >= |routes|) && (b < 0 || b >= |routes|)
    ensures InstallAll(t, routes, a) == InstallAll(t, routes, b)
    decreases |routes|
  {
    if routes != [] {
      InstallAnyBudget(Install(t, routes[0]), routes[1..], a - 1, b - 1);
    }
  }

  // ----- Safety of the host route over every run -----

  datatype Message = Message(hostNet: Option<string>, routes: seq<Route>, failAt: int)

  function Run(t: Table, messages: seq<Message>): Table
    decreases |messages|
  {
    if messages == [] then t
    else Run(ContainerRoutes(t, messages[0].hostNet, messages[0].routes, messages[0].failAt).0, messages[1..])
  }

  /** Whatever the messages and wherever a command fails, a route once present keeps its
      value, unless it is the default; so the host network's route never changes. */
  lemma {:induction false} RouteNeverChanges(t: Table, messages: seq<Message>, d: Dest)
    requires d in t && d != Default
    ensures d in Run(t, messages) && Run(t, messages)[d] == t[d]
    decreases |messages|
  {
    if messages != [] {
      var m := messages[0];
      if m.hostNet.Some? && DefaultGateway(t).Some? && m.failAt != 0 {
        InstallKeeps(Add(t, Key(m.hostNet.value), DefaultGateway(t).value), m.routes, m.failAt - 1, d);
      }
      RouteNeverChanges(ContainerRoutes(t, m.hostNet, m.routes, m.failAt).0, messages[1..], d);
    }
  }

  /** If the host network h had no route at the start, then after any run either nothing was
      touched at all, or h is routed through the default gateway the pod started with. In
      particular the default differs from the original only when that host route stands. */
  lemma {:induction false} HostRouteSafety(t: Table, h: string, messages: seq<Message>)
    requires Key(h) != Default && Key(h) !in t
    requires forall i :: 0 <= i < |messages| ==> messages[i].hostNet in {None, Some(h)}
    ensures var end := Run(t, messages);
      || end == t
      || (Default in t && t[Default].Gateway? && Key(h) in end && end[Key(h)] == t[Default])
    decreases |messages|
  {
    if messages != [] {
      var m := messages[0];
      var t' := ContainerRoutes(t, m.hostNet, m.routes, m.failAt).0;
      if m.hostNet.None? || DefaultGateway(t).None? || m.failAt == 0 {
        HostRouteSafety(t, h, messages[1..]);
      } else {
        InstallKeeps(Add(t, Key(h), DefaultGateway(t).value), m.routes, m.failAt - 1, Key(h));
        RouteNeverChanges(t', messages[1..], Key(h));
      }
    }
  }

  // ----- Replaying a message changes nothing -----

  /** The default that a list of routes leaves behind, if it sets one. */
  function LastDefault(routes: seq<Route>): Option<Via> {
    if routes == [] then None
    else if routes[|routes| - 1].dst == ANY_DST then Some(Gateway(routes[|routes| - 1].gw))
    else LastDefault(routes[..|routes| - 1])
  }

  /** A table the list has nothing to add to: every destination present and the default last set. */
  predicate Settled(t: Table, routes: seq<Route>) {
    && Default in t
    && (forall i :: 0 <= i < |routes| ==> routes[i].dst == ANY_DST || Key(routes[i].dst) in t)
  }

  lemma {:induction false} InstallSplit(t: Table, a: seq<Route>, b: seq<Route>)
    ensures InstallAll(t, a + b, -1).0 == InstallAll(InstallAll(t, a, -1).0, b, -1).0
    decreases |a|
  {
    if a == [] {
      assert a + b == b;
    } else {
      var t1 := Install(t, a[0]);
      assert (a + b)[1..] == a[1..] + b;
      InstallAnyBudget(t1, a[1..] + b, -2, -1);
      InstallAnyBudget(t1, a[1..], -2, -1);
      InstallSplit(t1, a[1..], b);
    }
  }

  /** On a settled table a list only moves the default, to the last one it names. */
  lemma {:induction false} InstallSettled(t: Table, routes: seq<Route>)
    requires Settled(t, routes)
    ensures InstallAll(t, routes, -1).0
         == match LastDefault(routes) case None => t case Some(v) => t[Default := v]
    decreases |routes|
  {
    if routes != [] {
      var n := |routes| - 1;
      InstallSettled(t, routes[..n]);
      assert routes == routes[..n] + [routes[n]];
      InstallSplit(t, routes[..n], [routes[n]]);
    }
  }

  lemma {:induction false} InstallSettles(t: Table, routes: seq<Route>)
    requires Default in t
    ensures Settled(InstallAll(t, routes, -1).0, routes)
    ensures forall d :: d in t ==> d in InstallAll(t, routes, -1).0
    decreases |routes|
  {
    if routes != [] {
      var n := |routes| - 1;
      InstallSettles(t, routes[..n]);
      assert routes == routes[..n] + [routes[n]];
      InstallSplit(t, routes[..n], [routes[n]]);
    }
  }

  lemma {:induction false} InstallDefault(t: Table, routes: seq<Route>)
    requires Default in t
    ensures Default in InstallAll(t, routes, -1).0
    ensures InstallAll(t, routes, -1).0[Default]
         == match LastDefault(routes) case None => t[Default] case Some(v) => v
    decreases |routes|
  {
    if routes != [] {
      var n := |routes| - 1;
      InstallDefault(t, routes[..n]);
      assert routes == routes[..n] + [routes[n]];
      InstallSplit(t, routes[..n], [routes[n]]);
    }
  }

  /** Installing a list again, right after a run that ended with it, changes nothing. */
  lemma InstallAgain(t: Table, before: seq<Route>, routes: seq<Route>)
    requires Default in t
    ensures var once := InstallAll(t, before + routes, -1).0;
      InstallAll(once, routes, -1).0 == once
  {
    InstallSplit(t, before, routes);
    InstallKeepsDefault(t, before, -1);
    var mid := InstallAll(t, before, -1).0;
    InstallSettles(mid, routes);
    InstallDefault(mid, routes);
    InstallSettled(InstallAll(mid, routes, -1).0, routes);
  }

  /** The two lists are for the same destinations, in the same order. */
  predicate SameDestinations(was: seq<Route>, now: seq<Route>) {
    |was| == |now| && forall i :: 0 <= i < |was| ==> was[i].dst == now[i].dst
  }

  /** Installing a list again with other gateways only moves the default. */
  lemma InstallStale(t: Table, was: seq<Route>, now: seq<Route>)
    requires Default in t && SameDestinations(was, now)
    ensures var once := InstallAll(t, was, -1).0;
      InstallAll(once, now, -1).0 == match LastDefault(now) case None => once case Some(v) => once[Default := v]
  {
    InstallSettles(t, was);
    InstallSettled(InstallAll(t, was, -1).0, now);
  }

  // ----- Failed insertions and retries -----

  /** A run that stops at a failing command has installed a first part of the list. */
  lemma {:induction false} InstallPrefix(t: Table, routes: seq<Route>, failAt: int)
    ensures var k := if 0 <= failAt < |routes| then failAt else |routes|;
      InstallAll(t, routes, failAt).0 == InstallAll(t, routes[..k], -1).0
    decreases |routes|
  {
    if routes != [] && failAt != 0 {
      var t1 := Install(t, routes[0]);
      var k := if 0 <= failAt < |routes| then failAt else |routes|;
      assert routes[..k][1..] == routes[1..][..k - 1];
      InstallPrefix(t1, routes[1..], failAt - 1);
      InstallAnyBudget(t1, routes[..k][1..], -2, -1);
    }
  }

  /** After an insertion that stopped anywhere, one that works leaves the table that it alone
      would have left. */
  lemma RetryAlone(t: Table, h: string, routes: seq<Route>, failAt: int)
    ensures ContainerRoutes(ContainerRoutes(t, Some(h), routes, failAt).0, Some(h), routes, -1).0
         == ContainerRoutes(t, Some(h), routes, -1).0
  {
    if DefaultGateway(t).Some? && failAt != 0 {
      var t' := Add(t, Key(h), DefaultGateway(t).value);
      var k := if 0 <= failAt - 1 < |routes| then failAt - 1 else |routes|;
      var part, rest := routes[..k], routes[k..];
      var failed := InstallAll(t', part, -1).0;
      InstallPrefix(t', routes, failAt - 1);
      HostRouteStays(t', part, Key(h));
      InstallKeepsDefault(t', part, -1);
      assert part + rest == routes && [] + part == part;
      InstallAnyBudget(failed, routes, -2, -1);
      InstallAnyBudget(t', routes, -2, -1);
      InstallSplit(failed, part, rest);
      InstallSplit(t', part, rest);
      InstallAgain(t', [], part);
    }
  }

  lemma HostRouteStays(t: Table, routes: seq<Route>, d: Dest)
    requires d in t && Default in t
    ensures d in InstallAll(t, routes, -1).0
  {
    if d == Default {
      InstallKeepsDefault(t, routes, -1);
    } else {
      InstallKeeps(t, routes, -1, d);
    }
  }

  /** The only default route of the list, if there is one, comes last. */
  predicate DefaultLast(routes: seq<Route>) {
    forall i :: 0 <= i < |routes| - 1 ==> routes[i].dst != ANY_DST
  }

  lemma {:induction false} NoDefault(routes: seq<Route>)
    requires forall i :: 0 <= i < |routes| ==> routes[i].dst != ANY_DST
    ensures LastDefault(routes) == None
  {
    if routes != [] {
      NoDefault(routes[..|routes| - 1]);
    }
  }

  /** After an insertion that worked, no later one of the same list, wherever it stops, changes
      anything, as long as the list's default comes last. */
  lemma SuccessStays(t: Table, h: string, routes: seq<Route>, failAt: int)
    requires DefaultLast(routes)
    ensures var done := ContainerRoutes(t, Some(h), routes, -1).0;
      ContainerRoutes(done, Some(h), routes, failAt).0 == done
  {
    var done := ContainerRoutes(t, Some(h), routes, -1).0;
    if DefaultGateway(t).Some? && failAt != 0 {
      var t' := Add(t, Key(h), DefaultGateway(t).value);
      InstallAnyBudget(t', routes, -2, -1);
      HostRouteStays(t', routes, Key(h));
      InstallKeepsDefault(t', routes, -1);
      InstallPrefix(done, routes, failAt - 1);
      InstallSettles(t', routes);
      assert [] + routes == routes;
      InstallAgain(t', [], routes);
      if 0 <= failAt - 1 < |routes| {
        NoDefault(routes[..failAt - 1]);
        InstallSettled(done, routes[..failAt - 1]);
      } else {
        assert routes[..|routes|] == routes;
      }
    }
  }

  // ----- Reading a message -----

  /** An insertion works exactly when the host network and a default gateway are known and none of its
      commands, one for the host network and one for each route, fails. */
  lemma {:induction false} InsertionWorks(t: Table, hostNet: Option<string>, routes: seq<Route>, failAt: int)
    ensures ContainerRoutes(t, hostNet, routes, failAt).1 <==>
      hostNet.Some? && Default in t && t[Default].Gateway? && (failAt < 0 || failAt > |routes|)
    decreases |routes|
  {
    if hostNet.Some? && DefaultGateway(t).Some? && failAt != 0 {
      AllInstalled(Add(t, Key(hostNet.value), DefaultGateway(t).value), routes, failAt - 1);
    }
  }

  lemma {:induction false} AllInstalled(t: Table, routes: seq<Route>, failAt: int)
    ensures InstallAll(t, routes, failAt).1 <==> failAt < 0 || failAt >= |routes|
    decreases |routes|
  {
    if routes != [] && failAt != 0 {
      AllInstalled(Install(t, routes[0]), routes[1..], failAt - 1);
    }
  }

  /** The words for a default route: "0.0.0.0" replaces it; "default" and "0.0.0.0/0" only add it, so
      they change nothing where there is one. */
  lemma DefaultWords(t: Table, gw: string)
    ensures Install(t, Route("0.0.0.0", gw)) == t[Default := Gateway(gw)]
    ensures Default in t ==> Install(t, Route("default", gw)) == t && Install(t, Route("0.0.0.0/0", gw)) == t
  {
    assert |"0.0.0.0"| == 7 && |"0.0.0.0/0"| == 9 && "default"[0] != "0.0.0.0"[0];
  }
}
