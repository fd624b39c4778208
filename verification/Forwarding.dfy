/** Hop-by-hop forwarding through the pods of a chain, along the tables that the agents installed. */
module Forwarding {
  import opened Wrappers
  import opened RouteTable
  import opened Chain
  import opened ChainEntries
  import opened Notify
  import opened Delivery

  // ----- Following the tables -----

  // One table per chain position, and which position holds which address.
  datatype Fabric = Fabric(tables: seq<Table>, owner: map<string, nat>)

  /** The entry a packet for d matches: its own destination's, or else the default. */
  function Lookup(t: Table, d: Dest): Option<Via> {
    if d in t then Some(t[d]) else if Default in t then Some(t[Default]) else None
  }

  /** The position a packet is handed on to; none when it leaves the chain here. */
  function NextHop(f: Fabric, pos: nat, d: Dest): Option<nat>
    requires pos < |f.tables|
  {
    match Lookup(f.tables[pos], d)
    case Some(Gateway(a)) => if a in f.owner && f.owner[a] < |f.tables| then Some(f.owner[a]) else None
    case _ => None
  }

  /** A packet for d starting at pos makes exactly n hops and then leaves the chain at end. */
  ghost predicate Delivered(f: Fabric, pos: nat, d: Dest, n: nat, end: nat)
    requires pos < |f.tables|
    decreases n
  {
    if n == 0 then NextHop(f, pos, d).None? && end == pos
    else NextHop(f, pos, d).Some? && Delivered(f, NextHop(f, pos, d).value, d, n - 1, end)
  }

  /** There is one path only, so a delivered packet cannot loop. */
  lemma {:induction false} DeliveredOnce(f: Fabric, pos: nat, d: Dest, m: nat, e: nat, n: nat, e': nat)
    requires pos < |f.tables| && Delivered(f, pos, d, m, e) && Delivered(f, pos, d, n, e')
    ensures m == n && e == e'
    decreases m
  {
    if m > 0 && n > 0 {
      DeliveredOnce(f, NextHop(f, pos, d).value, d, m - 1, e, n - 1, e');
    }
  }

  // ----- Well-formed chains -----

  function Elements(s: seq<string>): set<string> {
    set x | x in s
  }

  /** Distinct plain destinations: chain networks, edge networks and the nodes' host networks. */
  ghost predicate DistinctSubnets(c: Cluster, p: Plan, hosts: set<string>) {
    && p.left != [] && p.right != []
    && (forall i :: 0 <= i < |p.nets| ==> p.nets[i] in c.subnets)
    && (forall i, j :: 0 <= i < j < |p.nets| ==> c.subnets[p.nets[i]] != c.subnets[p.nets[j]])
    && (forall i :: 0 <= i < |p.nets| ==> c.subnets[p.nets[i]] !in hosts + {p.left[0].subnet, p.right[0].subnet, ANY_DST})
    && p.left[0].subnet !in hosts + {p.right[0].subnet, ANY_DST}
    && p.right[0].subnet !in hosts + {ANY_DST}
    && (forall i :: 0 <= i < |p.nets| ==> Key(c.subnets[p.nets[i]]) == Net(c.subnets[p.nets[i]]))
    && Key(p.left[0].subnet) == Net(p.left[0].subnet)
    && Key(p.right[0].subnet) == Net(p.right[0].subnet)
  }

  /** The operator finds, on the network between two positions, the addresses of exactly
      these two pods, and the edge gateways are not pods of the chain. */
  ghost predicate NeighboursCorrect(c: Cluster, p: Plan, owner: map<string, nat>)
    requires p.Valid() && p.left != [] && p.right != []
  {
    && (forall i :: 0 <= i < |p.deps| - 1 ==>
          && OwnedBy(NeighbourAddress(c, p.nets[i], p.deps[i]), owner, i)
          && OwnedBy(NeighbourAddress(c, p.nets[i], p.deps[i + 1]), owner, i + 1))
    && p.left[0].gatewayIP !in owner
    && p.right[0].gatewayIP !in owner
  }

  predicate OwnedBy(r: Result<string, Error>, owner: map<string, nat>, pos: nat) {
    r.Success? && r.value in owner && owner[r.value] == pos
  }

  /** A pod's table before the chain is set up: a gateway default, direct routes to the
      networks it is attached to, nothing yet for the other networks of the chain. */
  ghost predicate FreshTable(t: Table, c: Cluster, p: Plan, pos: nat)
    requires p.Valid() && p.left != [] && p.right != []
    requires forall i :: 0 <= i < |p.nets| ==> p.nets[i] in c.subnets
  {
    && DefaultGateway(t).Some?
    && (forall i :: 0 <= i < |p.nets| ==>
          if Adjacent(pos, i) then Net(c.subnets[p.nets[i]]) in t && t[Net(c.subnets[p.nets[i]])] == Direct
          else Net(c.subnets[p.nets[i]]) !in t)
    && (Net(p.left[0].subnet) in t ==> pos == 0 && t[Net(p.left[0].subnet)] == Direct)
    && (Net(p.right[0].subnet) in t ==> pos == |p.deps| - 1 && t[Net(p.right[0].subnet)] == Direct)
  }

  // ----- Where a packet is meant to go -----

  datatype Target = ToNetwork(i: nat) | ToLeft | ToRight | Elsewhere(d: Dest)

  ghost predicate ValidTarget(c: Cluster, p: Plan, start: seq<Table>, hosts: set<string>, g: Target) {
    match g
    case ToNetwork(i) => i < |p.nets|
    case Elsewhere(d) =>
      d == Default
      || (&& (forall h :: h in hosts ==> d != Key(h))
          && (forall k :: 0 <= k < |start| ==> d !in start[k])
          && (forall i :: 0 <= i < |p.nets| ==> p.nets[i] in c.subnets && d != Net(c.subnets[p.nets[i]]))
          && p.left != [] && d != Net(p.left[0].subnet)
          && p.right != [] && d != Net(p.right[0].subnet))
    case _ => true
  }

  function DestOf(c: Cluster, p: Plan, g: Target): Dest
    requires p.left != [] && p.right != []
    requires g.ToNetwork? ==> g.i < |p.nets| && p.nets[g.i] in c.subnets
  {
    match g
    case ToNetwork(i) => Net(c.subnets[p.nets[i]])
    case ToLeft => Net(p.left[0].subnet)
    case ToRight => Net(p.right[0].subnet)
    case Elsewhere(d) => d
  }

  /** The position where the packet has arrived: the nearer pod attached to the network, the
      first pod for the left edge, the last pod for everything that leaves to the right. */
  function EndOf(num: nat, pos: nat, g: Target): nat
    requires pos < num
  {
    match g
    case ToNetwork(i) => if pos <= i then i else i + 1
    case ToLeft => 0
    case _ => num - 1
  }

  /** The positional distance to that position. */
  function Distance(num: nat, pos: nat, g: Target): nat
    requires pos < num
  {
    if pos <= EndOf(num, pos, g) then EndOf(num, pos, g) - pos else pos - EndOf(num, pos, g)
  }

  // ----- The installed table of one position -----

  function InstalledTable(t: Table, h: string, info: RoutingInfo): Table
    requires DefaultGateway(t).Some?
  {
    InstallAll(Add(t, Key(h), DefaultGateway(t).value), MessageRoutes(info), -1).0
  }

  /** A dynamic route before the last is for the network that owns its slot. */
  lemma DynamicOf(c: Cluster, p: Plan, pos: nat, k: nat)
    requires p.Valid() && pos < |p.deps| && DeploymentRoutes(c, p, pos).Success?
    requires k < |DeploymentRoutes(c, p, pos).value.dynamic| - 1
    ensures var o, info := SlotOwner(pos, k), DeploymentRoutes(c, p, pos).value;
      && o < |p.nets| && p.nets[o] in c.subnets && info.dynamic[k].dst == c.subnets[p.nets[o]]
      && MessageRoutes(info)[k + 2] == info.dynamic[k]
  {
    Coverage(c, p, pos);
  }

  /** The route for a non-adjacent network is the first one for its subnet in the message. */
  lemma InstalledNetwork(t: Table, c: Cluster, p: Plan, h: string, pos: nat, i: nat)
    requires p.Valid() && pos < |p.deps| && DistinctSubnets(c, p, {h}) && FreshTable(t, c, p, pos)
    requires DeploymentRoutes(c, p, pos).Success? && i < |p.nets| && !Adjacent(pos, i)
    ensures var info := DeploymentRoutes(c, p, pos).value;
      var d := Net(c.subnets[p.nets[i]]);
      var end := InstalledTable(t, h, info);
      d in end && end[d] == Gateway(if i > pos then info.rightRoute.gw else info.leftRoute.gw)
  {
    Coverage(c, p, pos);
    var info := DeploymentRoutes(c, p, pos).value;
    var rs := MessageRoutes(info);
    var k := 2 + Slot(pos, i);
    assert rs[k] == info.dynamic[Slot(pos, i)];
    forall j | 0 <= j < k ensures rs[j].dst != rs[k].dst {
      if j >= 2 {
        DynamicOf(c, p, pos, j - 2);
        assert SlotOwner(pos, j - 2) != i;
      }
    }
    InstallFirstWins(Add(t, Key(h), DefaultGateway(t).value), rs, k);
  }

  lemma InstalledPresent(t: Table, h: string, info: RoutingInfo, d: Dest)
    requires DefaultGateway(t).Some? && d in t && d != Default
    ensures d in InstalledTable(t, h, info) && InstalledTable(t, h, info)[d] == t[d]
  {
    InstallKeeps(Add(t, Key(h), DefaultGateway(t).value), MessageRoutes(info), -1, d);
  }

  lemma InstalledEdges(t: Table, c: Cluster, p: Plan, h: string, pos: nat)
    requires p.Valid() && pos < |p.deps| && DistinctSubnets(c, p, {h}) && FreshTable(t, c, p, pos)
    requires DeploymentRoutes(c, p, pos).Success?
    ensures var info := DeploymentRoutes(c, p, pos).value;
      var end := InstalledTable(t, h, info);
      && Net(p.left[0].subnet) in end
      && end[Net(p.left[0].subnet)] == (if Net(p.left[0].subnet) in t then Direct else Gateway(info.leftRoute.gw))
      && Net(p.right[0].subnet) in end
      && end[Net(p.right[0].subnet)] == (if Net(p.right[0].subnet) in t then Direct else Gateway(info.rightRoute.gw))
      && Default in end
      && end[Default] == Gateway(info.rightRoute.gw)
  {
    Coverage(c, p, pos);
    var info := DeploymentRoutes(c, p, pos).value;
    var rs := MessageRoutes(info);
    var t' := Add(t, Key(h), DefaultGateway(t).value);
    assert rs[|rs| - 1] == info.dynamic[|info.dynamic| - 1];
    InstallLastDefault(t', rs);
    if Net(p.left[0].subnet) in t {
      InstalledPresent(t, h, info, Net(p.left[0].subnet));
    } else {
      InstallFirstWins(t', rs, 0);
    }
    if Net(p.right[0].subnet) in t {
      InstalledPresent(t, h, info, Net(p.right[0].subnet));
    } else {
      InstallFirstWins(t', rs, 1);
    }
  }

  lemma InstalledElsewhere(t: Table, c: Cluster, p: Plan, h: string, pos: nat, d: Dest)
    requires p.Valid() && pos < |p.deps| && DistinctSubnets(c, p, {h}) && FreshTable(t, c, p, pos)
    requires DeploymentRoutes(c, p, pos).Success?
    requires d != Default && d !in t && d != Key(h)
    requires forall i :: 0 <= i < |p.nets| ==> d != Net(c.subnets[p.nets[i]])
    requires d != Net(p.left[0].subnet) && d != Net(p.right[0].subnet)
    ensures d !in InstalledTable(t, h, DeploymentRoutes(c, p, pos).value)
  {
    Coverage(c, p, pos);
    var info := DeploymentRoutes(c, p, pos).value;
    var rs := MessageRoutes(info);
    forall j | 0 <= j < |rs| ensures rs[j].dst == ANY_DST || Key(rs[j].dst) != d {
      if 2 <= j < |rs| - 1 {
        DynamicOf(c, p, pos, j - 2);
      } else if j >= 2 {
        assert rs[j] == info.dynamic[|info.dynamic| - 1];
      }
    }
    InstallAbsent(Add(t, Key(h), DefaultGateway(t).value), rs, d);
  }

  // ----- When a neighbour's address changes -----

  lemma {:induction false} SameNetworkRoutes(c: Cluster, c': Cluster, pos: nat, nets: seq<string>,
                                             l: string, r: string, l': string, r': string, lo: nat, hi: nat)
    requires c.subnets == c'.subnets && SubnetsKnown(c, pos, nets) && lo <= hi <= |nets|
    ensures SubnetsKnown(c', pos, nets)
    ensures SameDestinations(NetworkRoutes(c, pos, nets, l, r, lo, hi), NetworkRoutes(c', pos, nets, l', r', lo, hi))
    ensures l == l' && r == r' ==>
      NetworkRoutes(c, pos, nets, l, r, lo, hi) == NetworkRoutes(c', pos, nets, l', r', lo, hi)
    decreases hi - lo
  {
    if lo < hi {
      SameNetworkRoutes(c, c', pos, nets, l, r, l', r', lo + 1, hi);
    }
  }

  /** Two calculations for one position that differ in the cluster's answers, but not in the subnets. */
  lemma SameMessages(c: Cluster, c': Cluster, p: Plan, pos: nat)
    requires p.Valid() && pos < |p.deps| && c.subnets == c'.subnets
    requires DeploymentRoutes(c, p, pos).Success? && DeploymentRoutes(c', p, pos).Success?
    ensures var was, now := DeploymentRoutes(c, p, pos).value, DeploymentRoutes(c', p, pos).value;
      && SameDestinations(MessageRoutes(was), MessageRoutes(now))
      && (was.leftRoute.gw == now.leftRoute.gw && was.rightRoute.gw == now.rightRoute.gw ==>
            MessageRoutes(was) == MessageRoutes(now))
      && LastDefault(MessageRoutes(now)) == Some(Gateway(now.rightRoute.gw))
  {
    var was, now := DeploymentRoutes(c, p, pos).value, DeploymentRoutes(c', p, pos).value;
    SameNetworkRoutes(c, c', pos, p.nets, was.leftRoute.gw, was.rightRoute.gw, now.leftRoute.gw, now.rightRoute.gw,
                      0, |p.nets|);
    var rs := MessageRoutes(now);
    assert rs[|rs| - 1] == DefaultRoute(now.rightRoute.gw);
  }

  lemma OnlyDefaultMoves(t: Table, h: string, c: Cluster, c': Cluster, p: Plan, pos: nat)
    requires p.Valid() && pos < |p.deps| && c.subnets == c'.subnets && DefaultGateway(t).Some?
    requires DeploymentRoutes(c, p, pos).Success? && DeploymentRoutes(c', p, pos).Success?
    ensures var was, now := DeploymentRoutes(c, p, pos).value, DeploymentRoutes(c', p, pos).value;
      && ContainerRoutes(InstalledTable(t, h, was), Some(h), MessageRoutes(now), -1).0
         == InstalledTable(t, h, was)[Default := Gateway(now.rightRoute.gw)]
      && (was.leftRoute.gw == now.leftRoute.gw && was.rightRoute.gw == now.rightRoute.gw ==>
            InstalledTable(t, h, was) == InstalledTable(t, h, now))
  {
    var was, now := DeploymentRoutes(c, p, pos).value, DeploymentRoutes(c', p, pos).value;
    var t', once := Add(t, Key(h), DefaultGateway(t).value), InstalledTable(t, h, was);
    SameMessages(c, c', p, pos);
    HostRouteStays(t', MessageRoutes(was), Key(h));
    InstallKeepsDefault(t', MessageRoutes(was), -1);
    InstallStale(t', MessageRoutes(was), MessageRoutes(now));
    InstallAnyBudget(once, MessageRoutes(now), -2, -1);
  }

  lemma EdgesTell(t: Table, h: string, c: Cluster, c': Cluster, p: Plan, pos: nat, d: Via)
    requires p.Valid() && pos < |p.deps| && c.subnets == c'.subnets
    requires DistinctSubnets(c, p, {h}) && FreshTable(t, c, p, pos)
    requires DeploymentRoutes(c, p, pos).Success? && DeploymentRoutes(c', p, pos).Success?
    ensures var was, now := DeploymentRoutes(c, p, pos).value, DeploymentRoutes(c', p, pos).value;
      InstalledTable(t, h, was)[Default := d] == InstalledTable(t, h, now) ==>
        was.leftRoute.gw == now.leftRoute.gw && was.rightRoute.gw == now.rightRoute.gw
  {
    InstalledEdges(t, c, p, h, pos);
    InstalledEdges(t, c', p, h, pos);
  }

  /** A pod of the chain gets a new address after its neighbour's routes were installed, and the chain is
      reconciled again: the neighbour's default moves, and every other route keeps the old
      gateway. So the neighbour has the routes it should exactly when neither address changed. */
  lemma AddressChange(t: Table, h: string, c: Cluster, c': Cluster, p: Plan, pos: nat)
    requires p.Valid() && pos < |p.deps| && c.subnets == c'.subnets
    requires DistinctSubnets(c, p, {h}) && FreshTable(t, c, p, pos)
    requires DeploymentRoutes(c, p, pos).Success? && DeploymentRoutes(c', p, pos).Success?
    ensures var was, now := DeploymentRoutes(c, p, pos).value, DeploymentRoutes(c', p, pos).value;
      var after := ContainerRoutes(InstalledTable(t, h, was), Some(h), MessageRoutes(now), -1).0;
      && after == InstalledTable(t, h, was)[Default := Gateway(now.rightRoute.gw)]
      && (after == InstalledTable(t, h, now) <==>
            was.leftRoute.gw == now.leftRoute.gw && was.rightRoute.gw == now.rightRoute.gw)
  {
    var once := InstalledTable(t, h, DeploymentRoutes(c, p, pos).value);
    OnlyDefaultMoves(t, h, c, c', p, pos);
    EdgesTell(t, h, c, c', p, pos, Gateway(DeploymentRoutes(c', p, pos).value.rightRoute.gw));
    InstalledEdges(t, c, p, h, pos);
    assert once[Default := once[Default]] == once;
  }

  // ----- Delivery -----

  /** A well-formed chain: every lookup of the operator succeeds and is right, destinations do
      not clash, and position k starts from the table start[k] on a node with host network hs[k]. */
  ghost predicate WellFormed(c: Cluster, p: Plan, owner: map<string, nat>, hs: seq<string>, start: seq<Table>) {
    && p.Valid() && |p.nets| == |p.deps| - 1 && |start| == |hs| == |p.deps|
    && DistinctSubnets(c, p, Elements(hs))
    && NeighboursCorrect(c, p, owner)
    && (forall k :: 0 <= k < |p.deps| ==> DeploymentRoutes(c, p, k).Success?)
    && (forall k :: 0 <= k < |start| ==> FreshTable(start[k], c, p, k))
  }

  ghost predicate AllInstalled(f: Fabric, c: Cluster, p: Plan, hs: seq<string>, start: seq<Table>)
    requires WellFormed(c, p, f.owner, hs, start)
  {
    && |f.tables| == |p.deps|
    && (forall k :: 0 <= k < |p.deps| ==>
          f.tables[k] == InstalledTable(start[k], hs[k], DeploymentRoutes(c, p, k).value))
  }

  lemma Neighbours(c: Cluster, p: Plan, owner: map<string, nat>, pos: nat)
    requires p.Valid() && p.left != [] && p.right != [] && NeighboursCorrect(c, p, owner)
    requires pos < |p.deps| && DeploymentRoutes(c, p, pos).Success?
    ensures var info := DeploymentRoutes(c, p, pos).value;
      && (if pos == 0 then info.leftRoute.gw == p.left[0].gatewayIP && info.leftRoute.gw !in owner
          else info.leftRoute.gw in owner && owner[info.leftRoute.gw] == pos - 1)
      && (if pos == |p.deps| - 1 then info.rightRoute.gw == p.right[0].gatewayIP && info.rightRoute.gw !in owner
          else info.rightRoute.gw in owner && owner[info.rightRoute.gw] == pos + 1)
  {
    if pos > 0 {
      assert OwnedBy(NeighbourAddress(c, p.nets[pos - 1], p.deps[pos - 1]), owner, pos - 1);
    }
    if pos < |p.deps| - 1 {
      assert OwnedBy(NeighbourAddress(c, p.nets[pos], p.deps[pos + 1]), owner, pos + 1);
    }
  }

  /** Whether the entry used where a packet leaves the chain is the right one. */
  predicate ArrivesBy(p: Plan, g: Target, via: Option<Via>)
    requires p.left != [] && p.right != []
  {
    match g
    case ToNetwork(_) => via == Some(Direct)
    case ToLeft => via in {Some(Direct), Some(Gateway(p.left[0].gatewayIP))}
    case ToRight => via in {Some(Direct), Some(Gateway(p.right[0].gatewayIP))}
    case Elsewhere(_) => via == Some(Gateway(p.right[0].gatewayIP))
  }

  /** At pos a packet for d either has arrived, or its next hop is one position closer. */
  ghost predicate StepsCloser(f: Fabric, num: nat, pos: nat, d: Dest, g: Target)
    requires pos < num == |f.tables|
  {
    if Distance(num, pos, g) == 0 then NextHop(f, pos, d).None?
    else
      && NextHop(f, pos, d).Some?
      && Distance(num, NextHop(f, pos, d).value, g) == Distance(num, pos, g) - 1
      && EndOf(num, NextHop(f, pos, d).value, g) == EndOf(num, pos, g)
  }

  lemma {:induction false} FollowToEnd(f: Fabric, num: nat, pos: nat, d: Dest, g: Target)
    requires pos < num == |f.tables|
    requires forall q :: 0 <= q < num ==> StepsCloser(f, num, q, d, g)
    ensures Delivered(f, pos, d, Distance(num, pos, g), EndOf(num, pos, g))
    decreases Distance(num, pos, g)
  {
    assert StepsCloser(f, num, pos, d, g);
    if Distance(num, pos, g) > 0 {
      FollowToEnd(f, num, NextHop(f, pos, d).value, d, g);
    }
  }

  lemma NetworkCloser(f: Fabric, c: Cluster, p: Plan, hs: seq<string>, start: seq<Table>, pos: nat, i: nat)
    requires WellFormed(c, p, f.owner, hs, start) && AllInstalled(f, c, p, hs, start)
    requires pos < |p.deps| && i < |p.nets|
    ensures StepsCloser(f, |p.deps|, pos, Net(c.subnets[p.nets[i]]), ToNetwork(i))
    ensures Distance(|p.deps|, pos, ToNetwork(i)) == 0 ==> Lookup(f.tables[pos], Net(c.subnets[p.nets[i]])) == Some(Direct)
  {
    var t, h, info := start[pos], hs[pos], DeploymentRoutes(c, p, pos).value;
    assert DistinctSubnets(c, p, {h});
    Neighbours(c, p, f.owner, pos);
    assert f.tables[pos] == InstalledTable(t, h, info);
    if Adjacent(pos, i) {
      InstalledPresent(t, h, info, Net(c.subnets[p.nets[i]]));
    } else {
      InstalledNetwork(t, c, p, h, pos, i);
    }
  }

  lemma EdgeCloser(f: Fabric, c: Cluster, p: Plan, hs: seq<string>, start: seq<Table>, pos: nat, g: Target)
    requires WellFormed(c, p, f.owner, hs, start) && AllInstalled(f, c, p, hs, start)
    requires pos < |p.deps| && (g.ToLeft? || g.ToRight?)
    ensures StepsCloser(f, |p.deps|, pos, DestOf(c, p, g), g)
    ensures Distance(|p.deps|, pos, g) == 0 ==> ArrivesBy(p, g, Lookup(f.tables[pos], DestOf(c, p, g)))
  {
    var t, h := start[pos], hs[pos];
    assert DistinctSubnets(c, p, {h});
    Neighbours(c, p, f.owner, pos);
    assert f.tables[pos] == InstalledTable(t, h, DeploymentRoutes(c, p, pos).value);
    InstalledEdges(t, c, p, h, pos);
  }

  lemma ElsewhereCloser(f: Fabric, c: Cluster, p: Plan, hs: seq<string>, start: seq<Table>, pos: nat, d: Dest)
    requires WellFormed(c, p, f.owner, hs, start) && AllInstalled(f, c, p, hs, start)
    requires pos < |p.deps| && ValidTarget(c, p, start, Elements(hs), Elsewhere(d))
    ensures StepsCloser(f, |p.deps|, pos, d, Elsewhere(d))
    ensures Distance(|p.deps|, pos, Elsewhere(d)) == 0 ==> ArrivesBy(p, Elsewhere(d), Lookup(f.tables[pos], d))
  {
    var t, h := start[pos], hs[pos];
    assert DistinctSubnets(c, p, {h});
    Neighbours(c, p, f.owner, pos);
    assert f.tables[pos] == InstalledTable(t, h, DeploymentRoutes(c, p, pos).value);
    InstalledEdges(t, c, p, h, pos);
    if d != Default {
      InstalledElsewhere(t, c, p, h, pos, d);
    }
  }

  /** Every installed hop moves a packet exactly one position closer, and the packet leaves
      the chain precisely where it should. */
  lemma HopCloser(f: Fabric, c: Cluster, p: Plan, hs: seq<string>, start: seq<Table>, pos: nat, g: Target)
    requires WellFormed(c, p, f.owner, hs, start) && AllInstalled(f, c, p, hs, start)
    requires pos < |p.deps| && ValidTarget(c, p, start, Elements(hs), g)
    ensures StepsCloser(f, |p.deps|, pos, DestOf(c, p, g), g)
    ensures Distance(|p.deps|, pos, g) == 0 ==> ArrivesBy(p, g, Lookup(f.tables[pos], DestOf(c, p, g)))
  {
    match g {
      case ToNetwork(i) => NetworkCloser(f, c, p, hs, start, pos, i);
      case Elsewhere(d) => ElsewhereCloser(f, c, p, hs, start, pos, d);
      case _ => EdgeCloser(f, c, p, hs, start, pos, g);
    }
  }

  /** Delivery without loops: from any position towards any target, following the installed
      tables makes exactly Distance hops and leaves the chain at EndOf, by the right entry. */
  lemma DeliveryWithoutLoops(
      f: Fabric, c: Cluster, p: Plan, hs: seq<string>, start: seq<Table>, pos: nat, g: Target)
    requires WellFormed(c, p, f.owner, hs, start) && AllInstalled(f, c, p, hs, start)
    requires pos < |p.deps| && ValidTarget(c, p, start, Elements(hs), g)
    ensures var num, d := |p.deps|, DestOf(c, p, g);
      && Delivered(f, pos, d, Distance(num, pos, g), EndOf(num, pos, g))
      && ArrivesBy(p, g, Lookup(f.tables[EndOf(num, pos, g)], d))
  {
    forall q | 0 <= q < |p.deps|
      ensures StepsCloser(f, |p.deps|, q, DestOf(c, p, g), g)
    {
      HopCloser(f, c, p, hs, start, q, g);
    }
    FollowToEnd(f, |p.deps|, pos, DestOf(c, p, g), g);
    HopCloser(f, c, p, hs, start, EndOf(|p.deps|, pos, g), g);
  }

  // ----- End to end: chain text, route list, streams, agents, packets -----

  // The nodes: each one's host network and the tables of the containers running on it.
  datatype World = World(hostNet: map<string, string>, tables: map<string, Tables>)

  // The container of a position's pod, and the node that it runs on.
  datatype Home = Home(id: string, node: string)

  /** The homes of the chain's pods, as the cluster tells of them: for every position the node and the
      first container of its first pod. */
  ghost predicate Housed(c: Cluster, p: Plan, homes: seq<Home>) {
    && |homes| == |p.deps|
    && (forall k :: 0 <= k < |p.deps| ==> HomeOf(c, p, k, homes[k]))
  }

  predicate HomeOf(c: Cluster, p: Plan, pos: nat, home: Home)
    requires pos < |p.deps|
  {
    && Listed(c, p, pos) && PodsAt(c, p, pos) != [] && PodsAt(c, p, pos)[0].containerIDs != []
    && home.node == PodsAt(c, p, pos)[0].node && Names(PodsAt(c, p, pos)[0].containerIDs[0], home.id)
  }

  ghost predicate Placed(w: World, homes: seq<Home>) {
    forall k :: 0 <= k < |homes| ==>
      homes[k].node in w.tables && homes[k].node in w.hostNet && homes[k].id in w.tables[homes[k].node]
  }

  ghost function StartTables(w: World, homes: seq<Home>): seq<Table>
    requires Placed(w, homes)
  {
    seq(|homes|, k requires 0 <= k < |homes| => w.tables[homes[k].node][homes[k].id])
  }

  ghost function HostNets(w: World, homes: seq<Home>): seq<string>
    requires Placed(w, homes)
  {
    seq(|homes|, k requires 0 <= k < |homes| => w.hostNet[homes[k].node])
  }

  // What happened on a node: how many entries of the list each reconcile sent before a send
  // failed, and how the handling of each message that arrived went.
  datatype Log = Log(cuts: seq<nat>, handlings: seq<Handling>)

  function StreamOf(growth: seq<seq<RoutingInfo>>, node: string, logs: map<string, Log>): seq<Notification>
    requires node in logs && |logs[node].cuts| == |growth|
  {
    StreamAfter(SentLists(growth, logs[node].cuts), node)
  }

  /** Every node of the chain has a log, which tells of each message that it received. */
  ghost predicate Logged(growth: seq<seq<RoutingInfo>>, homes: seq<Home>, logs: map<string, Log>) {
    forall k :: 0 <= k < |homes| ==>
      && homes[k].node in logs && |logs[homes[k].node].cuts| == |growth|
      && |logs[homes[k].node].handlings| == |StreamOf(growth, homes[k].node, logs)|
  }

  /** The pod's table on its node's agent after all that. */
  ghost function PodTable(w: World, growth: seq<seq<RoutingInfo>>, homes: seq<Home>, logs: map<string, Log>, k: nat): Table
    requires Placed(w, homes) && Logged(growth, homes, logs) && k < |homes|
  {
    var n := homes[k].node;
    var end := HandleWith(w.tables[n], w.hostNet[n], StreamOf(growth, n, logs), logs[n].handlings);
    if homes[k].id in end then end[homes[k].id] else map[]
  }

  /** Some message for the pod arrived and was handled without a failure. */
  ghost predicate Served(growth: seq<seq<RoutingInfo>>, homes: seq<Home>, logs: map<string, Log>, k: nat)
    requires Logged(growth, homes, logs) && k < |homes|
  {
    var n := homes[k].node;
    exists i :: 0 <= i < |logs[n].handlings| &&
      SuccessAt(StreamOf(growth, n, logs), logs[n].handlings, homes[k].id, i)
  }

  /** So it is after one reconcile, of whichever chain, whose sends all work, once the pod's entry is in
      the list, if the node's commands work. */
  lemma FullRoundServes(growth: seq<seq<RoutingInfo>>, homes: seq<Home>, info: RoutingInfo, logs: map<string, Log>, k: nat, r: nat)
    requires Logged(growth, homes, logs) && k < |homes| && homes[k] == Home(info.id, info.node)
    requires var log := logs[homes[k].node];
      && r < |growth| && info in SharedList(growth, r + 1) && log.cuts[r] >= |SharedList(growth, r + 1)|
      && forall i :: 0 <= i < |log.handlings| ==> log.handlings[i] == Handling(true, -1)
    ensures Served(growth, homes, logs, k)
  {
    var n := homes[k].node;
    SentArrives(SentLists(growth, logs[n].cuts), r, info);
    var i :| 0 <= i < |StreamOf(growth, n, logs)| && IsFor(StreamOf(growth, n, logs)[i], homes[k].id);
    assert SuccessAt(StreamOf(growth, n, logs), logs[n].handlings, homes[k].id, i);
  }

  /** No two positions share a container, and whatever any reconcile, of this chain or another,
      computes about one of these containers is the same entry. */
  ghost predicate Consistent(growth: seq<seq<RoutingInfo>>, infos: seq<RoutingInfo>) {
    && (forall i, j :: 0 <= i < j < |infos| ==> infos[i].id != infos[j].id)
    && (forall j :: 0 <= j < |infos| ==> AllAgree(growth, infos[j]))
  }

  predicate Mentions(list: seq<RoutingInfo>, id: string) {
    exists i :: 0 <= i < |list| && list[i].id == id
  }

  lemma OwnMessage(info: RoutingInfo, other: RoutingInfo)
    ensures var msgs := NodeMessages([other], info.node);
      && (other.id != info.id ==> RoutesFor(msgs, info.id) == [] && !Touches(msgs, info.id))
      && (other == info ==> RoutesFor(msgs, info.id) == MessageRoutes(info) && Touches(msgs, info.id))
  {
    var msgs := if other.node == info.node then [RouteMsg(other, "create")] else [];
    assert [other][1..] == [] && NodeMessages([other], info.node) == msgs;
    if msgs != [] {
      assert msgs[1..] == [];
      assert RoutesFor(msgs[1..], info.id) == [];
      TouchesStep(msgs, info.id);
    }
  }

  /** However often a container's entry is in the list, its pod ends up as after one copy. */
  lemma {:induction false} SameEntries(t: Table, list: seq<RoutingInfo>, info: RoutingInfo)
    requires Default in t
    requires forall i :: 0 <= i < |list| && list[i].id == info.id ==> list[i] == info
    ensures var msgs := NodeMessages(list, info.node);
      && (Touches(msgs, info.id) <==> Mentions(list, info.id))
      && InstallAll(t, RoutesFor(msgs, info.id), -1).0
         == if Mentions(list, info.id) then InstallAll(t, MessageRoutes(info), -1).0 else t
    decreases |list|
  {
    if list != [] {
      var n := |list| - 1;
      var before, last := list[..n], list[n];
      SameEntries(t, before, info);
      assert list == before + [last];
      assert Mentions(list, info.id) <==> Mentions(before, info.id) || last.id == info.id by {
        if Mentions(before, info.id) {
          var i :| 0 <= i < n && before[i].id == info.id;
          assert list[i].id == info.id;
        }
      }
      NodeMessagesAppend(before, [last], info.node);
      OwnMessage(info, last);
      RoutesForAppend(NodeMessages(before, info.node), NodeMessages([last], info.node), info.id);
      InstallSplit(t, RoutesFor(NodeMessages(before, info.node), info.id), RoutesFor(NodeMessages([last], info.node), info.id));
      if last.id == info.id && Mentions(before, info.id) {
        assert [] + MessageRoutes(info) == MessageRoutes(info);
        InstallAgain(t, [], MessageRoutes(info));
      }
    }
  }

  /** The only default in a position's message comes last. */
  lemma MessageDefaultLast(c: Cluster, p: Plan, hosts: set<string>, pos: nat)
    requires p.Valid() && pos < |p.deps| && DistinctSubnets(c, p, hosts) && DeploymentRoutes(c, p, pos).Success?
    ensures DefaultLast(MessageRoutes(DeploymentRoutes(c, p, pos).value))
  {
    Coverage(c, p, pos);
    var rs := MessageRoutes(DeploymentRoutes(c, p, pos).value);
    forall i | 0 <= i < |rs| - 1 ensures rs[i].dst != ANY_DST {
      if i >= 2 {
        DynamicOf(c, p, pos, i - 2);
      }
    }
  }

  /** The entry of a position carries its pod's container and node. */
  lemma EntryAtHome(c: Cluster, p: Plan, pos: nat, home: Home)
    requires p.Valid() && pos < |p.deps| && DeploymentRoutes(c, p, pos).Success? && HomeOf(c, p, pos, home)
    ensures home == Home(DeploymentRoutes(c, p, pos).value.id, DeploymentRoutes(c, p, pos).value.node)
  {
    IsThePod(c, p, pos);
    OneContainer(PodsAt(c, p, pos)[0].containerIDs[0], home.id, DeploymentRoutes(c, p, pos).value.id);
  }

  lemma PodTableInstalled(w: World, growth: seq<seq<RoutingInfo>>, homes: seq<Home>, info: RoutingInfo, logs: map<string, Log>, k: nat)
    requires Placed(w, homes) && Logged(growth, homes, logs) && AllAgree(growth, info)
    requires k < |homes| && homes[k] == Home(info.id, info.node)
    requires Served(growth, homes, logs, k) && DefaultLast(MessageRoutes(info))
    requires DefaultGateway(w.tables[homes[k].node][homes[k].id]).Some?
    ensures PodTable(w, growth, homes, logs, k)
         == InstalledTable(w.tables[homes[k].node][homes[k].id], w.hostNet[homes[k].node], info)
  {
    var n, routes := homes[k].node, MessageRoutes(info);
    var t := w.tables[n][info.id];
    SentListsAgree(growth, logs[n].cuts, info);
    StreamOneList(SentLists(growth, logs[n].cuts), n, info);
    OneSuccessIsEnough(w.tables[n], w.hostNet[n], StreamOf(growth, n, logs), logs[n].handlings, info.id, routes);
    InstallAnyBudget(Add(t, Key(w.hostNet[n]), DefaultGateway(t).value), routes, -2, -1);
  }

  /** The chain works: take a chain of odd length whose calculation succeeds, the nodes and
      containers that its pods really have, and any sequence of reconciles of this and other chains on the operator's one list, which say nothing else about
      its containers, with calculations, sends and `ip` commands failing anywhere. Once each pod's
      message has been handled without a failure one time, packets from every position reach
      every target in the positional distance, without loops, whatever failed before or fails
      afterwards. */
  lemma ServiceChainWorks(c: Cluster, spec: ChainSpec, owner: map<string, nat>, homes: seq<Home>, w: World,
                          growth: seq<seq<RoutingInfo>>, logs: map<string, Log>, pos: nat, g: Target)
    requires |Pieces(spec)| % 2 == 1
    requires var p := PlanOf(spec);
      && Housed(c, p, homes) && Placed(w, homes) && Consistent(growth, Entries(c, p))
      && WellFormed(c, p, owner, HostNets(w, homes), StartTables(w, homes))
      && Logged(growth, homes, logs) && (forall k :: 0 <= k < |homes| ==> Served(growth, homes, logs, k))
      && pos < |p.deps|
      && ValidTarget(c, p, StartTables(w, homes), Elements(HostNets(w, homes)), g)
    ensures var p := PlanOf(spec);
      var f := Fabric(seq(|homes|, k requires 0 <= k < |homes| => PodTable(w, growth, homes, logs, k)), owner);
      && Delivered(f, pos, DestOf(c, p, g), Distance(|p.deps|, pos, g), EndOf(|p.deps|, pos, g))
      && ArrivesBy(p, g, Lookup(f.tables[EndOf(|p.deps|, pos, g)], DestOf(c, p, g)))
  {
    var p, infos := PlanOf(spec), Entries(c, PlanOf(spec));
    var hs, start := HostNets(w, homes), StartTables(w, homes);
    var f := Fabric(seq(|homes|, k requires 0 <= k < |homes| => PodTable(w, growth, homes, logs, k)), owner);
    EntriesAt(c, p, |p.deps|);
    forall k | 0 <= k < |p.deps|
      ensures f.tables[k] == InstalledTable(start[k], hs[k], DeploymentRoutes(c, p, k).value)
    {
      assert FreshTable(start[k], c, p, k);
      assert DeploymentRoutes(c, p, k) == Success(infos[k]);
      EntryAtHome(c, p, k, homes[k]);
      MessageDefaultLast(c, p, Elements(hs), k);
      PodTableInstalled(w, growth, homes, infos[k], logs, k);
    }
    DeliveryWithoutLoops(f, c, p, hs, start, pos, g);
  }

  // ----- A first reconcile -----

  /** The logs of a run in which nothing fails. */
  ghost function QuietLogs(growth: seq<seq<RoutingInfo>>, nodes: set<string>, cuts: seq<nat>): map<string, Log>
    requires |cuts| == |growth|
  {
    map n | n in nodes :: Log(cuts, seq(|StreamAfter(SentLists(growth, cuts), n)|, _ => Handling(true, -1)))
  }

  lemma QuietLogged(growth: seq<seq<RoutingInfo>>, homes: seq<Home>, nodes: set<string>, cuts: seq<nat>)
    requires |cuts| == |growth| && forall k :: 0 <= k < |homes| ==> homes[k].node in nodes
    ensures Logged(growth, homes, QuietLogs(growth, nodes, cuts))
    ensures forall k :: 0 <= k < |homes| ==> QuietLogs(growth, nodes, cuts)[homes[k].node].cuts == cuts
    ensures forall k, i :: 0 <= k < |homes| && 0 <= i < |QuietLogs(growth, nodes, cuts)[homes[k].node].handlings| ==>
      QuietLogs(growth, nodes, cuts)[homes[k].node].handlings[i] == Handling(true, -1)
  {
  }

  lemma OneSend(infos: seq<RoutingInfo>)
    ensures SharedList([infos], 1) == infos
  {
    assert SharedList([infos], 0) == [];
    assert [] + infos == infos;
  }

  lemma QuietServes(infos: seq<RoutingInfo>, homes: seq<Home>, nodes: set<string>)
    requires |homes| == |infos| && (forall k :: 0 <= k < |infos| ==> homes[k] == Home(infos[k].id, infos[k].node))
    requires forall k :: 0 <= k < |homes| ==> homes[k].node in nodes
    ensures var logs := QuietLogs([infos], nodes, [|infos|]);
      Logged([infos], homes, logs) && (forall k :: 0 <= k < |homes| ==> Served([infos], homes, logs, k))
  {
    var logs := QuietLogs([infos], nodes, [|infos|]);
    QuietLogged([infos], homes, nodes, [|infos|]);
    OneSend(infos);
    forall k | 0 <= k < |homes| ensures Served([infos], homes, logs, k) {
      FullRoundServes([infos], homes, infos[k], logs, k, 0);
    }
  }

  lemma OwnEntriesAgree(infos: seq<RoutingInfo>, homes: seq<Home>)
    requires |homes| == |infos| && (forall k :: 0 <= k < |infos| ==> homes[k] == Home(infos[k].id, infos[k].node))
    requires forall i, j :: 0 <= i < j < |homes| ==> homes[i].id != homes[j].id
    ensures Consistent([infos], infos)
  {
    forall i, j | 0 <= i < j < |infos| ensures infos[i].id != infos[j].id {
      assert homes[i].id != homes[j].id;
    }
    forall k, e | 0 <= k < |infos| && e in infos && e.id == infos[k].id ensures e == infos[k] {
    }
  }

  /** The entries of a chain whose calculation succeeds, and the homes that they name. */
  lemma EntriesAtHome(c: Cluster, p: Plan, homes: seq<Home>)
    requires p.Valid() && Housed(c, p, homes)
    requires forall k :: 0 <= k < |p.deps| ==> DeploymentRoutes(c, p, k).Success?
    ensures var infos := Entries(c, p);
      |infos| == |homes| && forall k :: 0 <= k < |infos| ==> homes[k] == Home(infos[k].id, infos[k].node)
  {
    var infos := Entries(c, p);
    EntriesAt(c, p, |p.deps|);
    forall k | 0 <= k < |infos| ensures homes[k] == Home(infos[k].id, infos[k].node) {
      assert DeploymentRoutes(c, p, k) == Success(infos[k]);
      EntryAtHome(c, p, k, homes[k]);
    }
  }

  /** One reconcile of a chain on an empty list, with nothing failing, is enough. */
  lemma FirstReconcileWorks(c: Cluster, spec: ChainSpec, owner: map<string, nat>, homes: seq<Home>, w: World, pos: nat, g: Target)
    requires |Pieces(spec)| % 2 == 1
    requires var p := PlanOf(spec);
      && Housed(c, p, homes) && Placed(w, homes)
      && (forall i, j :: 0 <= i < j < |homes| ==> homes[i].id != homes[j].id)
      && WellFormed(c, p, owner, HostNets(w, homes), StartTables(w, homes))
      && pos < |p.deps|
      && ValidTarget(c, p, StartTables(w, homes), Elements(HostNets(w, homes)), g)
    ensures var p, infos := PlanOf(spec), Entries(c, PlanOf(spec));
      var logs := QuietLogs([infos], w.tables.Keys, [|infos|]);
      && Logged([infos], homes, logs)
      && var f := Fabric(seq(|homes|, k requires 0 <= k < |homes| => PodTable(w, [infos], homes, logs, k)), owner);
      Delivered(f, pos, DestOf(c, p, g), Distance(|p.deps|, pos, g), EndOf(|p.deps|, pos, g))
  {
    var p, infos := PlanOf(spec), Entries(c, PlanOf(spec));
    EntriesAtHome(c, p, homes);
    QuietServes(infos, homes, w.tables.Keys);
    OwnEntriesAgree(infos, homes);
    ServiceChainWorks(c, spec, owner, homes, w, [infos], QuietLogs([infos], w.tables.Keys, [|infos|]), pos, g);
  }
}
