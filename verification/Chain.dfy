/** The operator's route calculation for a service function chain (internal/pkg/utils/chain.go). */
module Chain {
  import opened Wrappers
  import opened Strings
  import opened RouteTable

  datatype RoutingNetwork = RoutingNetwork(networkName: string, gatewayIP: string, subnet: string)

  datatype ChainSpec = ChainSpec(
    namespace: string, left: seq<RoutingNetwork>, right: seq<RoutingNetwork>, networkChain: string)

  datatype RoutingInfo = RoutingInfo(
    name: string, namespace: string, id: string, node: string,
    leftRoute: Route, rightRoute: Route, dynamic: seq<Route>)

  datatype Pod = Pod(name: string, node: string, containerIDs: seq<string>)

  // What the API server and OVN answer while one chain is calculated; an absent key is an error.
  datatype Cluster = Cluster(
    pods: map<(string, string), seq<Pod>>,    // pods of a namespace matching a label
    addresses: map<(string, string), string>, // address on a switch of the port matching a name
    subnets: map<string, string>)             // subnet of a switch

  // IndexPanic is a Go index out of range: an edge network, "=" or container status is missing.
  datatype Error = ListFailed | PodNotFound | AddressNotFound | SubnetNotFound | IndexPanic

  // ----- De-interleaving the chain -----

  /** Every second piece, starting with the first (offset 0) or the second (offset 1). */
  function EveryOther(pieces: seq<string>, offset: nat): seq<string>
    requires offset <= 1
  {
    seq((|pieces| + 1 - offset) / 2, i requires 0 <= i < (|pieces| + 1 - offset) / 2 => pieces[2 * i + offset])
  }

  // The chain split up: deployments, the networks between them, and the edge networks.
  datatype Plan = Plan(
    namespace: string, left: seq<RoutingNetwork>, right: seq<RoutingNetwork>,
    deps: seq<string>, nets: seq<string>)
  {
    predicate Valid() {
      |deps| >= 1 && |deps| - 1 <= |nets| <= |deps|
    }
  }

  function Pieces(spec: ChainSpec): seq<string> {
    Split(spec.networkChain, ',')
  }

  function PlanOf(spec: ChainSpec): (p: Plan)
    ensures p.Valid()
  {
    Plan(spec.namespace, spec.left, spec.right, EveryOther(Pieces(spec), 0), EveryOther(Pieces(spec), 1))
  }

  function Interleave(a: seq<string>, b: seq<string>): seq<string>
    decreases |a| + |b|
  {
    if a == [] then b else [a[0]] + Interleave(b, a[1..])
  }

  // ----- One deployment -----

  /** The address on network nw of the pod that the label of deployment dep selects. */
  function NeighbourAddress(c: Cluster, nw: string, dep: string): Result<string, Error> {
    var parts := Split(dep, '=');
    if |parts| < 2 then Failure(IndexPanic)
    else if (nw, parts[1]) !in c.addresses then Failure(AddressNotFound)
    else Success(c.addresses[(nw, parts[1])])
  }

  function NextLeft(c: Cluster, p: Plan, pos: nat): Result<string, Error>
    requires p.Valid() && pos < |p.deps|
  {
    if pos == 0 then (if p.left == [] then Failure(IndexPanic) else Success(p.left[0].gatewayIP))
    else NeighbourAddress(c, p.nets[pos - 1], p.deps[pos - 1])
  }

  function NextRight(c: Cluster, p: Plan, pos: nat): Result<string, Error>
    requires p.Valid() && pos < |p.deps|
  {
    if pos == |p.deps| - 1 then (if p.right == [] then Failure(IndexPanic) else Success(p.right[0].gatewayIP))
    else NeighbourAddress(c, p.nets[pos], p.deps[pos + 1])
  }

  predicate Adjacent(pos: nat, i: int) {
    i == pos || i == pos - 1
  }

  predicate SubnetsKnown(c: Cluster, pos: nat, nets: seq<string>) {
    forall i :: 0 <= i < |nets| && !Adjacent(pos, i) ==> nets[i] in c.subnets
  }

  /** The route at position pos to the i-th network of the chain. */
  function NetworkRoute(c: Cluster, pos: nat, nets: seq<string>, l: string, r: string, i: nat): Route
    requires i < |nets| && nets[i] in c.subnets
  {
    Route(c.subnets[nets[i]], if i > pos then r else l)
  }

  /** The routes at position pos to the non-adjacent networks among nets[lo..hi]. */
  function NetworkRoutes(c: Cluster, pos: nat, nets: seq<string>, l: string, r: string, lo: nat, hi: nat): seq<Route>
    requires lo <= hi <= |nets| && SubnetsKnown(c, pos, nets)
    decreases hi - lo
  {
    if lo == hi then []
    else if Adjacent(pos, lo) then NetworkRoutes(c, pos, nets, l, r, lo + 1, hi)
    else [NetworkRoute(c, pos, nets, l, r, lo)] + NetworkRoutes(c, pos, nets, l, r, lo + 1, hi)
  }

  function DefaultRoute(r: string): Route { Route(ANY_DST, r) }

  /** calculateDeploymentRoutes, failing at the first lookup that the source would fail at. */
  function DeploymentRoutes(c: Cluster, p: Plan, pos: nat): Result<RoutingInfo, Error>
    requires p.Valid() && pos < |p.deps|
  {
    if (p.namespace, p.deps[pos]) !in c.pods then Failure(ListFailed) else
    var pods := c.pods[(p.namespace, p.deps[pos])];
    if pods == [] then Failure(PodNotFound) else
    if pods[0].containerIDs == [] then Failure(IndexPanic) else
    var l :- NextLeft(c, p, pos);
    var r :- NextRight(c, p, pos);
    if p.left == [] || p.right == [] then Failure(IndexPanic) else
    if !SubnetsKnown(c, pos, p.nets) then Failure(SubnetNotFound) else
    Success(RoutingInfo(
      pods[0].name, p.namespace, TrimPrefix(pods[0].containerIDs[0], "docker://"), pods[0].node,
      Route(p.left[0].subnet, l), Route(p.right[0].subnet, r),
      NetworkRoutes(c, pos, p.nets, l, r, 0, |p.nets|) + [DefaultRoute(r)]))
  }

  /** The entries of the first k positions, up to the first failure. */
  function EntriesUpTo(c: Cluster, p: Plan, k: nat): (r: seq<RoutingInfo>)
    requires p.Valid() && k <= |p.deps|
    ensures |r| <= k
  {
    if k == 0 then []
    else
      var before := EntriesUpTo(c, p, k - 1);
      if |before| < k - 1 then before
      else match DeploymentRoutes(c, p, k - 1)
        case Failure(_) => before
        case Success(info) => before + [info]
  }

  function Entries(c: Cluster, p: Plan): seq<RoutingInfo>
    requires p.Valid()
  {
    EntriesUpTo(c, p, |p.deps|)
  }

  // ----- The operator's code -----

  class Operator {
    // The package variable: it is appended to and never cleared.
    var chainRoutingInfo: seq<RoutingInfo>

    constructor ()
      ensures chainRoutingInfo == []
    {
      chainRoutingInfo := [];
    }

    method CalculateDeploymentRoutes(c: Cluster, p: Plan, pos: nat) returns (res: Result<RoutingInfo, Error>)
      requires p.Valid() && pos < |p.deps|
      ensures res == DeploymentRoutes(c, p, pos)
    {
      if (p.namespace, p.deps[pos]) !in c.pods {
        return Failure(ListFailed);
      }
      var pods := c.pods[(p.namespace, p.deps[pos])];
      if |pods| == 0 {
        return Failure(PodNotFound);
      }
      if |pods[0].containerIDs| == 0 {
        return Failure(IndexPanic);
      }
      var left := NextLeft(c, p, pos);
      if left.Failure? {
        return Failure(left.error);
      }
      var right := NextRight(c, p, pos);
      if right.Failure? {
        return Failure(right.error);
      }
      if |p.left| == 0 || |p.right| == 0 {
        return Failure(IndexPanic);
      }
      var dynamic := DynamicRoutes(c, pos, p.nets, left.value, right.value);
      if dynamic.Failure? {
        return Failure(dynamic.error);
      }
      return Success(RoutingInfo(
        pods[0].name, p.namespace, TrimPrefix(pods[0].containerIDs[0], "docker://"), pods[0].node,
        Route(p.left[0].subnet, left.value), Route(p.right[0].subnet, right.value),
        dynamic.value + [DefaultRoute(right.value)]));
    }

    /** The loop of calculateDeploymentRoutes over the chain's networks. */
    method DynamicRoutes(c: Cluster, pos: nat, nets: seq<string>, l: string, r: string)
      returns (res: Result<seq<Route>, Error>)
      ensures res == if SubnetsKnown(c, pos, nets)
                     then Success(NetworkRoutes(c, pos, nets, l, r, 0, |nets|))
                     else Failure(SubnetNotFound)
    {
      var dynamic: seq<Route> := [];
      for i := 0 to |nets|
        invariant forall j :: 0 <= j < i && !Adjacent(pos, j) ==> nets[j] in c.subnets
        invariant SubnetsKnown(c, pos, nets) ==>
          NetworkRoutes(c, pos, nets, l, r, 0, |nets|) == dynamic + NetworkRoutes(c, pos, nets, l, r, i, |nets|)
      {
        if i == pos || i == pos - 1 {
          continue;
        }
        if nets[i] !in c.subnets {
          return Failure(SubnetNotFound);
        }
        var gw := if i > pos then r else l;
        var route := Route(c.subnets[nets[i]], gw);
        if SubnetsKnown(c, pos, nets) {
          ghost var rest := NetworkRoutes(c, pos, nets, l, r, i + 1, |nets|);
          assert dynamic + ([route] + rest) == dynamic + [route] + rest;
        }
        dynamic := dynamic + [route];
      }
      assert SubnetsKnown(c, pos, nets);
      assert dynamic + [] == dynamic;
      return Success(dynamic);
    }

    /** The list only grows, also when the call fails; on success it ends with one entry per
        position of this chain, and the whole list is handed out. */
    method CalculateRoutes(c: Cluster, spec: ChainSpec) returns (res: Result<seq<RoutingInfo>, Error>)
      modifies this
      ensures chainRoutingInfo == old(chainRoutingInfo) + Entries(c, PlanOf(spec))
      ensures res.Success? <==> |Entries(c, PlanOf(spec))| == |PlanOf(spec).deps|
      ensures res.Success? ==> res.value == chainRoutingInfo
      ensures res.Failure? ==>
        DeploymentRoutes(c, PlanOf(spec), |Entries(c, PlanOf(spec))|) == Failure(res.error)
    {
      var p := Deinterleave(spec);
      var pos := 0;
      while pos < |p.deps|
        invariant 0 <= pos <= |p.deps|
        invariant chainRoutingInfo == old(chainRoutingInfo) + EntriesUpTo(c, p, pos)
        invariant |EntriesUpTo(c, p, pos)| == pos
      {
        var r := CalculateDeploymentRoutes(c, p, pos);
        if r.Failure? {
          EntriesStop(c, p, pos, |p.deps|);
          return Failure(r.error);
        }
        chainRoutingInfo := chainRoutingInfo + [r.value];
        pos := pos + 1;
      }
      return Success(chainRoutingInfo);
    }

    /** The loop of CalculateRoutes that deals the pieces out by parity. */
    method Deinterleave(spec: ChainSpec) returns (p: Plan)
      ensures p == PlanOf(spec)
    {
      var chains := Split(spec.networkChain, ',');
      var deps: seq<string> := [];
      var nets: seq<string> := [];
      for i := 0 to |chains|
        invariant |deps| == (i + 1) / 2 && |nets| == i / 2
        invariant forall j :: 0 <= j < |deps| ==> deps[j] == chains[2 * j]
        invariant forall j :: 0 <= j < |nets| ==> nets[j] == chains[2 * j + 1]
      {
        if i % 2 == 0 {
          deps := deps + [chains[i]];
        } else {
          nets := nets + [chains[i]];
        }
      }
      assert deps == EveryOther(chains, 0);
      assert nets == EveryOther(chains, 1);
      return Plan(spec.namespace, spec.left, spec.right, deps, nets);
    }
  }

  /** After the first failure the entries no longer change. */
  lemma {:induction false} EntriesStop(c: Cluster, p: Plan, pos: nat, k: nat)
    requires p.Valid() && pos < k <= |p.deps|
    requires |EntriesUpTo(c, p, pos)| == pos && DeploymentRoutes(c, p, pos).Failure?
    ensures EntriesUpTo(c, p, k) == EntriesUpTo(c, p, pos)
    decreases k
  {
    if k > pos + 1 {
      EntriesStop(c, p, pos, k - 1);
    }
  }

  /** Each computed entry is its position's routes, and only a failure ends the list early. */
  lemma {:induction false} EntriesAt(c: Cluster, p: Plan, k: nat)
    requires p.Valid() && k <= |p.deps|
    ensures forall i :: 0 <= i < |EntriesUpTo(c, p, k)| ==> DeploymentRoutes(c, p, i) == Success(EntriesUpTo(c, p, k)[i])
    ensures |EntriesUpTo(c, p, k)| < k ==> DeploymentRoutes(c, p, |EntriesUpTo(c, p, k)|).Failure?
    decreases k
  {
    if k > 0 {
      EntriesAt(c, p, k - 1);
    }
  }

  // ----- Coverage -----

  /** De-interleaving loses nothing: interleaving the two lists gives the chain back. */
  lemma {:induction false} InterleaveBack(pieces: seq<string>)
    ensures Interleave(EveryOther(pieces, 0), EveryOther(pieces, 1)) == pieces
    decreases |pieces|
  {
    if |pieces| >= 2 {
      InterleaveBack(pieces[2..]);
      var a, b := EveryOther(pieces, 0), EveryOther(pieces, 1);
      assert a[1..] == EveryOther(pieces[2..], 0) && b[1..] == EveryOther(pieces[2..], 1);
      assert Interleave(a, b) == [a[0]] + ([b[0]] + Interleave(a[1..], b[1..]));
      assert [pieces[0]] + ([pieces[1]] + pieces[2..]) == pieces;
    } else if |pieces| == 1 {
      assert EveryOther(pieces, 0) == [pieces[0]];
    }
  }

  /** Re-joining the interleaved lists even gives back the chain's own text; the edge networks and the
      namespace are taken over as they are. */
  lemma ChainText(spec: ChainSpec)
    ensures PlanOf(spec).left == spec.left && PlanOf(spec).right == spec.right && PlanOf(spec).namespace == spec.namespace
    ensures Join(Interleave(PlanOf(spec).deps, PlanOf(spec).nets), ',') == spec.networkChain
  {
    InterleaveBack(Pieces(spec));
    JoinOfSplit(spec.networkChain, ',');
  }

  /** Where the route to the non-adjacent network i stands in the dynamic list of position pos. */
  function Slot(pos: nat, i: nat): nat
    requires !Adjacent(pos, i)
  {
    if i < pos then i else if pos == 0 then i - 1 else i - 2
  }

  lemma {:induction false} NetworkRoutesSplit(
      c: Cluster, pos: nat, nets: seq<string>, l: string, r: string, lo: nat, mid: nat, hi: nat)
    requires lo <= mid <= hi <= |nets| && SubnetsKnown(c, pos, nets)
    ensures NetworkRoutes(c, pos, nets, l, r, lo, hi)
         == NetworkRoutes(c, pos, nets, l, r, lo, mid) + NetworkRoutes(c, pos, nets, l, r, mid, hi)
    decreases mid - lo
  {
    if lo < mid {
      NetworkRoutesSplit(c, pos, nets, l, r, lo + 1, mid, hi);
    }
  }

  lemma {:induction false} NetworkRoutesSlots(c: Cluster, pos: nat, nets: seq<string>, l: string, r: string, hi: nat)
    requires hi <= |nets| && SubnetsKnown(c, pos, nets)
    ensures var rs := NetworkRoutes(c, pos, nets, l, r, 0, hi);
      && |rs| == hi - (if hi > pos then (if pos > 0 then 2 else 1) else if hi == pos && pos > 0 then 1 else 0)
      && (forall i :: 0 <= i < hi && !Adjacent(pos, i) ==>
            Slot(pos, i) < |rs| && rs[Slot(pos, i)] == NetworkRoute(c, pos, nets, l, r, i))
    decreases hi
  {
    if hi > 0 {
      NetworkRoutesSlots(c, pos, nets, l, r, hi - 1);
      NetworkRoutesSplit(c, pos, nets, l, r, 0, hi - 1, hi);
      assert NetworkRoutes(c, pos, nets, l, r, hi, hi) == [];
    }
  }

  /** Every slot of the dynamic list but the last belongs to exactly one network. */
  function SlotOwner(pos: nat, k: nat): (i: nat)
    ensures !Adjacent(pos, i) && Slot(pos, i) == k
    ensures forall j: nat :: !Adjacent(pos, j) && Slot(pos, j) == k ==> j == i
  {
    if pos == 0 then k + 1 else if k < pos - 1 then k else k + 2
  }

  /** On success the dynamic routes of a position are: exactly one per non-adjacent network, in
      the chain's order, through the right neighbour when it lies ahead and the left one when
      it lies behind; then one default through the right neighbour. Nothing else. */
  lemma Coverage(c: Cluster, p: Plan, pos: nat)
    requires p.Valid() && pos < |p.deps| && DeploymentRoutes(c, p, pos).Success?
    ensures var info := DeploymentRoutes(c, p, pos).value;
      var last := |info.dynamic| - 1;
      && last >= 0
      && info.dynamic[last] == Route(ANY_DST, info.rightRoute.gw)
      && (forall i :: 0 <= i < |p.nets| && !Adjacent(pos, i) ==>
            && Slot(pos, i) < last
            && p.nets[i] in c.subnets
            && info.dynamic[Slot(pos, i)]
               == Route(c.subnets[p.nets[i]], if i > pos then info.rightRoute.gw else info.leftRoute.gw))
      && (forall k :: 0 <= k < last ==> SlotOwner(pos, k) < |p.nets|)
  {
    var info := DeploymentRoutes(c, p, pos).value;
    NetworkRoutesSlots(c, pos, p.nets, info.leftRoute.gw, info.rightRoute.gw, |p.nets|);
  }

  // ----- Mirror law -----

  /** The chain walked from its other end. */
  function Mirrored(spec: ChainSpec): ChainSpec {
    ChainSpec(spec.namespace, spec.right, spec.left, Join(Reverse(Pieces(spec)), ','))
  }

  function MirroredInfo(info: RoutingInfo): RoutingInfo
    requires |info.dynamic| >= 1
  {
    var last := |info.dynamic| - 1;
    info.(leftRoute := info.rightRoute, rightRoute := info.leftRoute,
          dynamic := Reverse(info.dynamic[..last]) + [DefaultRoute(info.leftRoute.gw)])
  }

  function MirroredPlan(p: Plan): Plan {
    Plan(p.namespace, p.right, p.left, Reverse(p.deps), Reverse(p.nets))
  }

  /** De-interleaving the reversed text of an odd chain reverses both lists. */
  lemma MirroredLists(spec: ChainSpec)
    requires |Pieces(spec)| % 2 == 1
    ensures PlanOf(Mirrored(spec)) == MirroredPlan(PlanOf(spec))
  {
    var pieces := Pieces(spec);
    SplitOfJoin(Reverse(pieces), ',');
    EveryOtherReversed(pieces);
  }

  lemma EveryOtherReversed(pieces: seq<string>)
    requires |pieces| % 2 == 1
    ensures EveryOther(Reverse(pieces), 0) == Reverse(EveryOther(pieces, 0))
    ensures EveryOther(Reverse(pieces), 1) == Reverse(EveryOther(pieces, 1))
  {
    var n := |pieces| / 2;
    assert |EveryOther(pieces, 0)| == n + 1 && |EveryOther(pieces, 1)| == n;
    forall i | 0 <= i <= n
      ensures EveryOther(Reverse(pieces), 0)[i] == Reverse(EveryOther(pieces, 0))[i]
    {
      assert |pieces| - 1 - 2 * i == 2 * (n - i);
    }
    forall i | 0 <= i < n
      ensures EveryOther(Reverse(pieces), 1)[i] == Reverse(EveryOther(pieces, 1))[i]
    {
      assert |pieces| - 1 - (2 * i + 1) == 2 * (n - 1 - i) + 1;
    }
  }

  lemma {:induction false} MirroredNetworkRoutes(
      c: Cluster, pos: nat, nets: seq<string>, l: string, r: string, lo: nat, hi: nat)
    requires lo <= hi <= |nets| && pos <= |nets| && SubnetsKnown(c, pos, nets)
    ensures var m := |nets|;
      && SubnetsKnown(c, m - pos, Reverse(nets))
      && NetworkRoutes(c, m - pos, Reverse(nets), r, l, m - hi, m - lo)
         == Reverse(NetworkRoutes(c, pos, nets, l, r, lo, hi))
    decreases hi - lo
  {
    var m := |nets|;
    var snet := Reverse(nets);
    MirroredSubnets(c, pos, nets);
    if lo < hi {
      MirroredNetworkRoutes(c, pos, nets, l, r, lo + 1, hi);
      NetworkRoutesSplit(c, m - pos, snet, r, l, m - hi, m - lo - 1, m - lo);
      MirroredOne(c, pos, nets, l, r, lo);
      if !Adjacent(pos, lo) {
        ReverseCons(NetworkRoute(c, pos, nets, l, r, lo), NetworkRoutes(c, pos, nets, l, r, lo + 1, hi));
      }
    }
  }

  lemma ReverseCons<T>(x: T, s: seq<T>)
    ensures Reverse([x] + s) == Reverse(s) + [x]
  {
  }

  lemma MirroredOne(c: Cluster, pos: nat, nets: seq<string>, l: string, r: string, lo: nat)
    requires lo < |nets| && pos <= |nets| && SubnetsKnown(c, pos, nets)
    requires SubnetsKnown(c, |nets| - pos, Reverse(nets))
    ensures NetworkRoutes(c, |nets| - pos, Reverse(nets), r, l, |nets| - lo - 1, |nets| - lo)
         == if Adjacent(pos, lo) then [] else [NetworkRoute(c, pos, nets, l, r, lo)]
  {
    var m := |nets|;
    assert NetworkRoutes(c, m - pos, Reverse(nets), r, l, m - lo, m - lo) == [];
  }

  /** Position pos of one plan and position num - 1 - pos of the other are mirror images. */
  predicate Mirrors(c: Cluster, p: Plan, p': Plan, pos: nat)
    requires p.Valid() && p'.Valid() && |p'.deps| == |p.deps| && pos < |p.deps|
  {
    var here, there := DeploymentRoutes(c, p, pos), DeploymentRoutes(c, p', |p.deps| - 1 - pos);
    && (here.Success? <==> there.Success?)
    && (here.Success? ==> |here.value.dynamic| >= 1 && there.value == MirroredInfo(here.value))
  }

  lemma MirroredNeighbours(c: Cluster, p: Plan, pos: nat)
    requires p.Valid() && |p.nets| == |p.deps| - 1 && pos < |p.deps|
    ensures NextLeft(c, MirroredPlan(p), |p.nets| - pos) == NextRight(c, p, pos)
    ensures NextRight(c, MirroredPlan(p), |p.nets| - pos) == NextLeft(c, p, pos)
  {
  }

  /** Reversing a chain of odd length and swapping its edge networks sends position pos to
      num - 1 - pos, swaps that position's left and right routes, and reverses its dynamic
      routes except for the default, all with the same gateways; one side succeeds exactly
      when the other does. */
  lemma MirrorLaw(c: Cluster, spec: ChainSpec, pos: nat)
    requires |Pieces(spec)| % 2 == 1 && pos < |PlanOf(spec).deps|
    ensures PlanOf(Mirrored(spec)).Valid() && |PlanOf(Mirrored(spec)).deps| == |PlanOf(spec).deps|
    ensures Mirrors(c, PlanOf(spec), PlanOf(Mirrored(spec)), pos)
  {
    MirroredLists(spec);
    MirroredRoutes(c, PlanOf(spec), pos);
  }

  /** Both sides look up the same things, so one succeeds exactly when the other does. */
  lemma MirroredSucceeds(c: Cluster, p: Plan, pos: nat)
    requires p.Valid() && |p.nets| == |p.deps| - 1 && pos < |p.deps|
    ensures DeploymentRoutes(c, p, pos).Success? <==> DeploymentRoutes(c, MirroredPlan(p), |p.nets| - pos).Success?
  {
    MirroredNeighbours(c, p, pos);
    MirroredSubnets(c, pos, p.nets);
    assert MirroredPlan(p).deps[|p.nets| - pos] == p.deps[pos];
  }

  lemma MirroredRoutes(c: Cluster, p: Plan, pos: nat)
    requires p.Valid() && |p.nets| == |p.deps| - 1 && pos < |p.deps|
    ensures Mirrors(c, p, MirroredPlan(p), pos)
  {
    MirroredSucceeds(c, p, pos);
    if DeploymentRoutes(c, p, pos).Success? {
      var l, r := NextLeft(c, p, pos).value, NextRight(c, p, pos).value;
      var rs := NetworkRoutes(c, pos, p.nets, l, r, 0, |p.nets|);
      var here, there := DeploymentRoutes(c, p, pos).value, DeploymentRoutes(c, MirroredPlan(p), |p.nets| - pos).value;
      MirroredNeighbours(c, p, pos);
      assert MirroredPlan(p).deps[|p.nets| - pos] == p.deps[pos];
      assert there.dynamic == Reverse(rs) + [DefaultRoute(l)] by {
        MirroredNetworkRoutes(c, pos, p.nets, l, r, 0, |p.nets|);
      }
      assert here.dynamic[..|rs|] == rs;
    }
  }

  lemma MirroredSubnets(c: Cluster, pos: nat, nets: seq<string>)
    requires pos <= |nets|
    ensures SubnetsKnown(c, |nets| - pos, Reverse(nets)) <==> SubnetsKnown(c, pos, nets)
  {
    var m, nets' := |nets|, Reverse(nets);
    if SubnetsKnown(c, m - pos, nets') {
      forall i | 0 <= i < m && !Adjacent(pos, i) ensures nets[i] in c.subnets {
        assert nets[i] == nets'[m - 1 - i] && !Adjacent(m - pos, m - 1 - i);
      }
    }
    if SubnetsKnown(c, pos, nets) {
      forall i | 0 <= i < m && !Adjacent(m - pos, i) ensures nets'[i] in c.subnets {
        assert nets'[i] == nets[m - 1 - i] && !Adjacent(pos, m - 1 - i);
      }
    }
  }
}
