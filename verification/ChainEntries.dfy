/** What a chain's entries say, read off the cluster's own answers (internal/pkg/utils/chain.go). */
module ChainEntries {
  import opened Wrappers
  import opened Strings
  import opened Chain

  /** The container that a status names: Docker's scheme is cut off, any other ID is taken as it is. */
  predicate Names(status: string, id: string) {
    if HasPrefix(status, "docker://") then status == "docker://" + id else status == id
  }

  /** The pods of position pos, as the cluster lists them. */
  predicate Listed(c: Cluster, p: Plan, pos: nat)
    requires pos < |p.deps|
  {
    (p.namespace, p.deps[pos]) in c.pods
  }

  function PodsAt(c: Cluster, p: Plan, pos: nat): seq<Pod>
    requires pos < |p.deps| && Listed(c, p, pos)
  {
    c.pods[(p.namespace, p.deps[pos])]
  }

  /** Every deployment's label is a key and a value around one "=". */
  predicate Labelled(p: Plan, labels: seq<(string, string)>) {
    && |labels| == |p.deps|
    && forall i :: 0 <= i < |labels| ==>
         '=' !in labels[i].0 && '=' !in labels[i].1 && p.deps[i] == labels[i].0 + ['='] + labels[i].1
  }

  function AddressOn(c: Cluster, nw: string, value: string): Result<string, Error> {
    if (nw, value) in c.addresses then Success(c.addresses[(nw, value)]) else Failure(AddressNotFound)
  }

  /** The address is looked up by the label's value on the given network. */
  lemma NeighbourByLabel(c: Cluster, nw: string, key: string, value: string)
    requires '=' !in key && '=' !in value
    ensures NeighbourAddress(c, nw, key + ['='] + value) == AddressOn(c, nw, value)
  {
    SplitWithoutSeparator(value, '=');
    SplitHead(key, value, '=');
  }

  /** A label without "=" ends the process. */
  lemma NeighbourWithoutLabel(c: Cluster, nw: string, dep: string)
    requires '=' !in dep
    ensures NeighbourAddress(c, nw, dep) == Failure(IndexPanic)
  {
    SplitWithoutSeparator(dep, '=');
  }

  /** Whether the address of the pod at position pos on a network can be found. */
  predicate Found(c: Cluster, p: Plan, labels: seq<(string, string)>, net: nat, pos: nat)
    requires Labelled(p, labels) && net < |p.nets| && pos < |labels|
  {
    (p.nets[net], labels[pos].1) in c.addresses
  }

  /** Which lookup a calculation fails at, in the order in which they are made. */
  function FirstFailure(c: Cluster, p: Plan, labels: seq<(string, string)>, pos: nat): Option<Error>
    requires p.Valid() && Labelled(p, labels) && pos < |p.deps|
  {
    if !Listed(c, p, pos) then Some(ListFailed)
    else if PodsAt(c, p, pos) == [] then Some(PodNotFound)
    else if PodsAt(c, p, pos)[0].containerIDs == [] then Some(IndexPanic)
    else if pos == 0 && p.left == [] then Some(IndexPanic)
    else if pos > 0 && !Found(c, p, labels, pos - 1, pos - 1) then Some(AddressNotFound)
    else if pos == |p.deps| - 1 && p.right == [] then Some(IndexPanic)
    else if pos < |p.deps| - 1 && !Found(c, p, labels, pos, pos + 1) then Some(AddressNotFound)
    else if p.left == [] || p.right == [] then Some(IndexPanic)
    else if exists i :: 0 <= i < |p.nets| && i != pos && i != pos - 1 && p.nets[i] !in c.subnets then Some(SubnetNotFound)
    else None
  }

  /** The neighbours of a position: its gateways to the left and right. */
  lemma Gateways(c: Cluster, p: Plan, labels: seq<(string, string)>, pos: nat)
    requires p.Valid() && Labelled(p, labels) && pos < |p.deps|
    ensures pos > 0 ==>
      NextLeft(c, p, pos) == AddressOn(c, p.nets[pos - 1], labels[pos - 1].1)
    ensures pos < |p.deps| - 1 ==>
      NextRight(c, p, pos) == AddressOn(c, p.nets[pos], labels[pos + 1].1)
  {
    if pos > 0 {
      NeighbourByLabel(c, p.nets[pos - 1], labels[pos - 1].0, labels[pos - 1].1);
    }
    if pos < |p.deps| - 1 {
      NeighbourByLabel(c, p.nets[pos], labels[pos + 1].0, labels[pos + 1].1);
    }
  }

  /** A calculation fails exactly at the first lookup that fails. */
  lemma CalculationFails(c: Cluster, p: Plan, labels: seq<(string, string)>, pos: nat)
    requires p.Valid() && Labelled(p, labels) && pos < |p.deps|
    ensures var r := DeploymentRoutes(c, p, pos);
      match FirstFailure(c, p, labels, pos) case None => r.Success? case Some(e) => r == Failure(e)
  {
    Gateways(c, p, labels, pos);
  }

  /** The entry is about the first pod of its position: its name, its node and its container; with the
      routes to the two edges through the pods next to it, or out of the chain at its ends. */
  lemma EntryOfPod(c: Cluster, p: Plan, labels: seq<(string, string)>, pos: nat)
    requires p.Valid() && Labelled(p, labels) && pos < |p.deps| && DeploymentRoutes(c, p, pos).Success?
    ensures PodOf(c, p, pos, DeploymentRoutes(c, p, pos).value)
    ensures var info := DeploymentRoutes(c, p, pos).value;
      && p.left != [] && p.right != []
      && info.leftRoute.dst == p.left[0].subnet && info.rightRoute.dst == p.right[0].subnet
      && (if pos == 0 then info.leftRoute.gw == p.left[0].gatewayIP
          else Found(c, p, labels, pos - 1, pos - 1)
               && info.leftRoute.gw == c.addresses[(p.nets[pos - 1], labels[pos - 1].1)])
      && (if pos == |p.deps| - 1 then info.rightRoute.gw == p.right[0].gatewayIP
          else Found(c, p, labels, pos, pos + 1)
               && info.rightRoute.gw == c.addresses[(p.nets[pos], labels[pos + 1].1)])
  {
    Gateways(c, p, labels, pos);
    IsThePod(c, p, pos);
  }

  predicate PodOf(c: Cluster, p: Plan, pos: nat, info: RoutingInfo)
    requires pos < |p.deps|
  {
    && Listed(c, p, pos) && PodsAt(c, p, pos) != [] && PodsAt(c, p, pos)[0].containerIDs != []
    && info.name == PodsAt(c, p, pos)[0].name && info.namespace == p.namespace
    && info.node == PodsAt(c, p, pos)[0].node
    && Names(PodsAt(c, p, pos)[0].containerIDs[0], info.id)
  }

  lemma IsThePod(c: Cluster, p: Plan, pos: nat)
    requires p.Valid() && pos < |p.deps| && DeploymentRoutes(c, p, pos).Success?
    ensures PodOf(c, p, pos, DeploymentRoutes(c, p, pos).value)
  {
    var status := PodsAt(c, p, pos)[0].containerIDs[0];
    if HasPrefix(status, "docker://") {
      assert status == "docker://" + status[|"docker://"|..];
    }
  }

  lemma OneContainer(status: string, id: string, id': string)
    requires Names(status, id) && Names(status, id')
    ensures id == id'
  {
    if HasPrefix(status, "docker://") {
      assert status[|"docker://"|..] == id && status[|"docker://"|..] == id';
    }
  }
}
