/** Building the result of a CNI ADD (internal/pkg/cniserver/cni.go). */
module CniResult {
  import opened Wrappers

  datatype Interface = Interface(name: string, mac: string, sandbox: string)

  // iface is the index of the address's interface in the result; it may be missing, or -1.
  datatype IPConfig = IPConfig(version: string, iface: Option<int>, address: string, gateway: string)

  datatype CniRoute = CniRoute(dst: string, gw: string)

  datatype Dns = Dns(nameservers: seq<string>, domain: string, search: seq<string>, options: seq<string>)

  datatype Result = Result(interfaces: seq<Interface>, ips: seq<IPConfig>, routes: seq<CniRoute>, dns: Dns)

  const NO_DNS := Dns([], "", [], [])

  // ----- Merging -----

  function Shift(ip: IPConfig, n: nat): IPConfig {
    if ip.iface.Some? && ip.iface.value != -1 then ip.(iface := Some(ip.iface.value + n)) else ip
  }

  function ShiftAll(ips: seq<IPConfig>, n: nat): seq<IPConfig> {
    seq(|ips|, i requires 0 <= i < |ips| => Shift(ips[i], n))
  }

  function MergeDns(src: Dns, dst: Dns): Dns {
    Dns(dst.nameservers + src.nameservers, dst.domain, dst.search + src.search, dst.options + src.options)
  }

  function Merge(src: Result, dst: Result): Result {
    Result(dst.interfaces + src.interfaces, dst.ips + ShiftAll(src.ips, |dst.interfaces|),
           dst.routes + src.routes, MergeDns(src.dns, dst.dns))
  }

  /** The result object, whose lists a merge appends to. */
  class CurrentResult {
    var interfaces: seq<Interface>
    var ips: seq<IPConfig>
    var routes: seq<CniRoute>
    var dns: Dns

    constructor (r: Result)
      ensures Value() == r
    {
      interfaces, ips, routes, dns := r.interfaces, r.ips, r.routes, r.dns;
    }

    function Value(): Result
      reads this
    {
      Result(interfaces, ips, routes, dns)
    }
  }

  /** mergeWithResult: dst is extended in place; without a dst the source is the result. */
  method MergeWithResult(src: CurrentResult, dst: CurrentResult?) returns (r: CurrentResult)
    requires dst != src
    modifies dst
    ensures dst == null ==> r == src
    ensures dst != null ==> r == dst && r.Value() == Merge(src.Value(), old(dst.Value()))
    ensures dst != null ==>
      && r.interfaces == old(dst.interfaces) + src.interfaces && r.routes == old(dst.routes) + src.routes
      && r.dns == Dns(old(dst.dns.nameservers) + src.dns.nameservers, old(dst.dns.domain),
                      old(dst.dns.search) + src.dns.search, old(dst.dns.options) + src.dns.options)
    ensures src.Value() == old(src.Value())
  {
    if dst == null {
      return src;
    }
    var ifacesLength := |dst.interfaces|;
    ghost var before := dst.Value();
    for i := 0 to |src.interfaces|
      invariant dst.interfaces == before.interfaces + src.interfaces[..i]
      invariant dst.ips == before.ips && dst.routes == before.routes && dst.dns == before.dns
      invariant src.Value() == old(src.Value())
    {
      dst.interfaces := dst.interfaces + [src.interfaces[i]];
    }
    for i := 0 to |src.ips|
      invariant dst.interfaces == before.interfaces + src.interfaces
      invariant dst.ips == before.ips + ShiftAll(src.ips, ifacesLength)[..i]
      invariant dst.routes == before.routes && dst.dns == before.dns
      invariant src.Value() == old(src.Value())
    {
      var ip := src.ips[i];
      if ip.iface.Some? && ip.iface.value != -1 {
        ip := ip.(iface := Some(ip.iface.value + ifacesLength));
      }
      dst.ips := dst.ips + [ip];
    }
    dst.routes := dst.routes + src.routes;
    dst.dns := Dns(dst.dns.nameservers + src.dns.nameservers, dst.dns.domain,
                   dst.dns.search + src.dns.search, dst.dns.options + src.dns.options);
    return dst;
  }

  /** An index that names an interface of the result, or deliberately none. */
  predicate ValidIndices(r: Result) {
    forall k :: 0 <= k < |r.ips| && r.ips[k].iface.Some? && r.ips[k].iface.value != -1 ==>
      0 <= r.ips[k].iface.value < |r.interfaces|
  }

  function PointsTo(r: Result, ip: IPConfig): Option<Interface> {
    if ip.iface.Some? && 0 <= ip.iface.value < |r.interfaces| then Some(r.interfaces[ip.iface.value]) else None
  }

  /** After a merge every address of either side still points at the interface it pointed at,
      and addresses that point nowhere are left alone. */
  lemma MergeKeepsPointers(src: Result, dst: Result)
    requires ValidIndices(src) && ValidIndices(dst)
    ensures var m := Merge(src, dst);
      && ValidIndices(m) && |m.ips| == |dst.ips| + |src.ips|
      && (forall k :: 0 <= k < |dst.ips| ==> m.ips[k] == dst.ips[k] && PointsTo(m, m.ips[k]) == PointsTo(dst, dst.ips[k]))
      && (forall k :: 0 <= k < |src.ips| ==> PointsTo(m, m.ips[|dst.ips| + k]) == PointsTo(src, src.ips[k]))
      && (forall k :: 0 <= k < |src.ips| && PointsTo(src, src.ips[k]).None? ==> m.ips[|dst.ips| + k] == src.ips[k])
  {
  }

  lemma ShiftAllAppend(a: seq<IPConfig>, b: seq<IPConfig>, n: nat)
    ensures ShiftAll(a + b, n) == ShiftAll(a, n) + ShiftAll(b, n)
  {
  }

  /** Shifting twice is one longer shift unless the first shift runs into -1. */
  lemma ShiftTwice(ips: seq<IPConfig>, m: nat, n: nat)
    ensures ShiftAll(ShiftAll(ips, m), n) == ShiftAll(ips, m + n) <==>
      m == 0 || n == 0 || forall k :: 0 <= k < |ips| ==> ips[k].iface != Some(-1 - m)
  {
    var x, y := ShiftAll(ShiftAll(ips, m), n), ShiftAll(ips, m + n);
    forall k | 0 <= k < |ips|
      ensures x[k] == y[k] <==> m == 0 || n == 0 || ips[k].iface != Some(-1 - m)
    {
      assert x[k] == Shift(Shift(ips[k], m), n) && y[k] == Shift(ips[k], m + n);
    }
  }

  lemma SamePrefix<T>(p: seq<T>, x: seq<T>, y: seq<T>)
    ensures p + x == p + y <==> x == y
  {
    assert (p + x)[|p|..] == x && (p + y)[|p|..] == y;
  }

  lemma MergeRest(a: Result, b: Result, c: Result)
    ensures var x, y := Merge(c, Merge(b, a)), Merge(Merge(c, b), a);
      x.interfaces == y.interfaces && x.routes == y.routes && x.dns == y.dns
  {
  }

  /** Merging is associative exactly when no address of the last result has the index that the
      middle result's length shifts onto -1; indices of the CNI specification are not negative. */
  lemma MergeAssociative(a: Result, b: Result, c: Result)
    ensures Merge(c, Merge(b, a)) == Merge(Merge(c, b), a) <==>
      || |b.interfaces| == 0 || |a.interfaces| == 0
      || forall k :: 0 <= k < |c.ips| ==> c.ips[k].iface != Some(-1 - |b.interfaces|)
  {
    var x, y := Merge(c, Merge(b, a)), Merge(Merge(c, b), a);
    var na, nb := |a.interfaces|, |b.interfaces|;
    ShiftAllAppend(b.ips, ShiftAll(c.ips, nb), na);
    ShiftTwice(c.ips, nb, na);
    var front := a.ips + ShiftAll(b.ips, na);
    SamePrefix(front, ShiftAll(c.ips, nb + na), ShiftAll(ShiftAll(c.ips, nb), na));
    assert x.ips == front + ShiftAll(c.ips, nb + na);
    assert y.ips == front + ShiftAll(ShiftAll(c.ips, nb), na);
    MergeRest(a, b, c);
  }

  // ----- One interface per annotation entry -----

  // An absent key of the annotation reads as the empty text.
  datatype Entry = Entry(ipAddress: string, macAddress: string, gatewayIP: string, defaultGateway: string, interface: string)

  // What the outside answers: the host and container interfaces that configuring the i-th
  // entry gives, if it does not fail, and the IP version of every address that can be parsed.
  datatype Outside = Outside(configured: seq<Option<(Interface, Interface)>>, cidrs: map<string, string>)

  /** The entry's default gateway flag as it is finally used, and the flag handed on. */
  function Decide(e: Entry, isDefaultGW: bool, ifName: string): (string, bool) {
    if e.interface != "*" then
      if e.defaultGateway == "true" && !isDefaultGW then ("true", true)
      else if e.defaultGateway == "true" then ("false", true)
      else (e.defaultGateway, isDefaultGW)
    else if ifName != "eth0" || isDefaultGW then ("false", isDefaultGW)
    else ("true", isDefaultGW)
  }

  function EntryResult(e: Entry, pair: (Interface, Interface), version: string, dg: string): Result {
    Result([pair.0, pair.1], [IPConfig(version, Some(1), e.ipAddress, e.gatewayIP)],
           if dg == "true" then [CniRoute("0.0.0.0/0", e.gatewayIP)] else [], NO_DNS)
  }

  predicate Configurable(e: Entry, out: Outside, index: nat) {
    && e.ipAddress != "" && e.macAddress != "" && e.interface != ""
    && index < |out.configured| && out.configured[index].Some? && e.ipAddress in out.cidrs
  }

  predicate AllConfigurable(entries: seq<Entry>, out: Outside, k: nat)
    requires k <= |entries|
  {
    forall i :: 0 <= i < k ==> Configurable(entries[i], out, i)
  }

  /** The flag after the first k entries. */
  function FlagAfter(entries: seq<Entry>, ifName: string, k: nat): bool
    requires k <= |entries|
  {
    if k == 0 then false else Decide(entries[k - 1], FlagAfter(entries, ifName, k - 1), ifName).1
  }

  /** What the k-th entry contributes. */
  function OwnResult(entries: seq<Entry>, out: Outside, ifName: string, k: nat): Result
    requires k < |entries| && Configurable(entries[k], out, k)
  {
    EntryResult(entries[k], out.configured[k].value, out.cidrs[entries[k].ipAddress],
                Decide(entries[k], FlagAfter(entries, ifName, k), ifName).0)
  }

  /** The result after the first k > 0 entries. */
  function Built(entries: seq<Entry>, out: Outside, ifName: string, k: nat): Result
    requires 0 < k <= |entries| && AllConfigurable(entries, out, k)
  {
    if k == 1 then OwnResult(entries, out, ifName, 0)
    else Merge(OwnResult(entries, out, ifName, k - 1), Built(entries, out, ifName, k - 1))
  }

  /** The flags of one entry, assignment by assignment. */
  method DecideFlags(e: Entry, flag: bool, ifName: string) returns (defaultGateway: string, isDefaultGW: bool)
    ensures (defaultGateway, isDefaultGW) == Decide(e, flag, ifName)
  {
    defaultGateway, isDefaultGW := e.defaultGateway, flag;
    if e.interface != "*" && defaultGateway == "true" && !isDefaultGW {
      isDefaultGW := true;
    } else if e.interface != "*" && defaultGateway == "true" {
      defaultGateway := "false";
    }
    if e.interface == "*" && isDefaultGW {
      defaultGateway := "false";
    }
    if e.interface == "*" && !isDefaultGW {
      defaultGateway := "true";
    }
    if e.interface == "*" && ifName != "eth0" {
      defaultGateway := "false";
    }
  }

  /** addMultipleInterfaces. No result comes of a missing pod name, an empty list, or an entry
      that lacks a key or cannot be configured. */
  method AddMultipleInterfaces(entries: seq<Entry>, namespace: string, podName: string, ifName: string, out: Outside)
    returns (r: CurrentResult?)
    ensures r != null <==>
      && namespace != "" && podName != "" && entries != []
      && forall i :: 0 <= i < |entries| ==>
           && entries[i].ipAddress != "" && entries[i].macAddress != "" && entries[i].interface != ""
           && i < |out.configured| && out.configured[i].Some? && entries[i].ipAddress in out.cidrs
    ensures r != null ==> fresh(r) && AllConfigurable(entries, out, |entries|)
    ensures r != null ==> r.Value() == Built(entries, out, ifName, |entries|)
  {
    if namespace == "" || podName == "" {
      return null;
    }
    r := null;
    var isDefaultGW := false;
    var index := 0;
    while index < |entries|
      invariant 0 <= index <= |entries| && AllConfigurable(entries, out, index)
      invariant isDefaultGW == FlagAfter(entries, ifName, index)
      invariant r == null <==> index == 0
      invariant r != null ==> fresh(r) && r.Value() == Built(entries, out, ifName, index)
    {
      var e := entries[index];
      if e.ipAddress == "" || e.macAddress == "" || e.interface == "" {
        return null;
      }
      var defaultGateway, flag := DecideFlags(e, isDefaultGW, ifName);
      isDefaultGW := flag;
      if index >= |out.configured| || out.configured[index].None? || e.ipAddress !in out.cidrs {
        return null;
      }
      var own := EntryResult(e, out.configured[index].value, out.cidrs[e.ipAddress], defaultGateway);
      assert own == OwnResult(entries, out, ifName, index);
      var result := new CurrentResult(own);
      r := MergeWithResult(result, r);
      index := index + 1;
    }
  }

  /** After n entries there are 2n interfaces, and the i-th address has index 2i + 1: the
      container interface that was configured for it. */
  lemma {:induction false} BuiltIndices(entries: seq<Entry>, out: Outside, ifName: string, k: nat)
    requires 0 < k <= |entries| && AllConfigurable(entries, out, k)
    ensures var r := Built(entries, out, ifName, k);
      && |r.interfaces| == 2 * k && |r.ips| == k
      && (forall i :: 0 <= i < k ==> HasOwnInterface(r, entries[i], out.cidrs[entries[i].ipAddress], out.configured[i].value, i))
    decreases k
  {
    if k > 1 {
      BuiltIndices(entries, out, ifName, k - 1);
      var before, own := Built(entries, out, ifName, k - 1), OwnResult(entries, out, ifName, k - 1);
      forall i | 0 <= i < k - 1
        ensures HasOwnInterface(Merge(own, before), entries[i], out.cidrs[entries[i].ipAddress], out.configured[i].value, i)
      {
        OlderStays(own, before, entries[i], out.cidrs[entries[i].ipAddress], out.configured[i].value, i);
      }
      NewestLast(before, entries[k - 1], out.configured[k - 1].value, own);
    }
  }

  lemma NewestLast(before: Result, e: Entry, pair: (Interface, Interface), own: Result)
    requires |before.interfaces| == 2 * |before.ips|
    requires own.interfaces == [pair.0, pair.1] && |own.ips| == 1
    requires own.ips[0].iface == Some(1) && own.ips[0].address == e.ipAddress && own.ips[0].gateway == e.gatewayIP
    ensures HasOwnInterface(Merge(own, before), e, own.ips[0].version, pair, |before.ips|)
  {
    assert Merge(own, before).ips[|before.ips|] == Shift(own.ips[0], |before.interfaces|);
  }

  lemma OlderStays(own: Result, before: Result, e: Entry, version: string, pair: (Interface, Interface), i: nat)
    requires HasOwnInterface(before, e, version, pair, i)
    ensures HasOwnInterface(Merge(own, before), e, version, pair, i)
  {
  }

  /** The i-th address is the entry's own, and its index leads to the interface configured for it. */
  predicate HasOwnInterface(r: Result, e: Entry, version: string, pair: (Interface, Interface), i: nat) {
    && i < |r.ips| && 2 * i + 1 < |r.interfaces|
    && r.ips[i].version == version && r.ips[i].address == e.ipAddress && r.ips[i].gateway == e.gatewayIP
    && r.ips[i].iface == Some(2 * i + 1)
    && r.interfaces[2 * i] == pair.0 && r.interfaces[2 * i + 1] == pair.1
  }

  // ----- Default routes -----

  /** Whether some named interface asks for the default gateway. */
  predicate AsksForDefault(entries: seq<Entry>, k: nat)
    requires k <= |entries|
  {
    k > 0 && (AsksForDefault(entries, k - 1) || Asks(entries[k - 1]))
  }

  predicate Asks(e: Entry) {
    e.interface != "*" && e.defaultGateway == "true"
  }

  /** How many "*" entries among the first k stand before every asking one. */
  function StarsBefore(entries: seq<Entry>, k: nat): nat
    requires k <= |entries|
  {
    if k == 0 then 0
    else if entries[k - 1].interface == "*" && !AsksForDefault(entries, k - 1) then StarsBefore(entries, k - 1) + 1
    else StarsBefore(entries, k - 1)
  }

  /** An entry emits a route when it is the first to ask, or a "*" for eth0 with nobody asking before it. */
  predicate Emits(entries: seq<Entry>, ifName: string, i: nat)
    requires i < |entries|
  {
    !AsksForDefault(entries, i) && (Asks(entries[i]) || (ifName == "eth0" && entries[i].interface == "*"))
  }

  function DefaultVia(e: Entry): CniRoute {
    CniRoute("0.0.0.0/0", e.gatewayIP)
  }

  /** The default routes of the emitting entries among the first k, through their own gateways. */
  function Emitted(entries: seq<Entry>, ifName: string, k: nat): seq<CniRoute>
    requires k <= |entries|
  {
    if k == 0 then []
    else if Emits(entries, ifName, k - 1) then Emitted(entries, ifName, k - 1) + [DefaultVia(entries[k - 1])]
    else Emitted(entries, ifName, k - 1)
  }

  /** The routes of the result are exactly those: one if a named interface asks for it, plus,
      for eth0 only, one for every "*" entry before the first that asks; and no others. */
  lemma {:induction false} DefaultRoutes(entries: seq<Entry>, out: Outside, ifName: string, k: nat)
    requires 0 < k <= |entries| && AllConfigurable(entries, out, k)
    ensures Built(entries, out, ifName, k).routes == Emitted(entries, ifName, k)
    ensures |Emitted(entries, ifName, k)| == (if AsksForDefault(entries, k) then 1 else 0)
                                           + (if ifName == "eth0" then StarsBefore(entries, k) else 0)
    decreases k
  {
    OwnRoutes(entries, out, ifName, k - 1);
    EmittedCount(entries, ifName, k);
    if k > 1 {
      DefaultRoutes(entries, out, ifName, k - 1);
      assert Built(entries, out, ifName, k).routes
          == Built(entries, out, ifName, k - 1).routes + OwnResult(entries, out, ifName, k - 1).routes;
    }
  }

  lemma OwnRoutes(entries: seq<Entry>, out: Outside, ifName: string, k: nat)
    requires k < |entries| && Configurable(entries[k], out, k)
    ensures OwnResult(entries, out, ifName, k).routes
         == if Emits(entries, ifName, k) then [DefaultVia(entries[k])] else []
  {
    FlagMeansAsked(entries, ifName, k);
  }

  lemma {:induction false} EmittedCount(entries: seq<Entry>, ifName: string, k: nat)
    requires k <= |entries|
    ensures |Emitted(entries, ifName, k)| == (if AsksForDefault(entries, k) then 1 else 0)
                                           + (if ifName == "eth0" then StarsBefore(entries, k) else 0)
    decreases k
  {
    if k > 0 {
      EmittedCount(entries, ifName, k - 1);
    }
  }

  lemma {:induction false} FlagMeansAsked(entries: seq<Entry>, ifName: string, k: nat)
    requires k <= |entries|
    ensures FlagAfter(entries, ifName, k) <==> AsksForDefault(entries, k)
    decreases k
  {
    if k > 0 {
      FlagMeansAsked(entries, ifName, k - 1);
    }
  }

  /** The shape the operator's annotation has: one "*" entry, and it comes last. */
  predicate OneStarLast(entries: seq<Entry>) {
    && entries != [] && entries[|entries| - 1].interface == "*"
    && forall i :: 0 <= i < |entries| - 1 ==> entries[i].interface != "*"
  }

  /** The first named interface that asks. */
  function FirstAsking(entries: seq<Entry>, k: nat): (i: nat)
    requires k <= |entries| && AsksForDefault(entries, k)
    ensures i < k && Asks(entries[i]) && forall j :: 0 <= j < i ==> !Asks(entries[j])
  {
    if AsksForDefault(entries, k - 1) then FirstAsking(entries, k - 1)
    else
      NobodyAsks(entries, k - 1);
      k - 1
  }

  lemma {:induction false} NobodyAsks(entries: seq<Entry>, k: nat)
    requires k <= |entries| && !AsksForDefault(entries, k)
    ensures forall j :: 0 <= j < k ==> !Asks(entries[j])
    decreases k
  {
    if k > 0 {
      NobodyAsks(entries, k - 1);
    }
  }

  lemma {:induction false} EmittedWithoutStars(entries: seq<Entry>, ifName: string, k: nat)
    requires k <= |entries| && forall i :: 0 <= i < k ==> entries[i].interface != "*"
    ensures Emitted(entries, ifName, k)
         == if AsksForDefault(entries, k) then [DefaultVia(entries[FirstAsking(entries, k)])] else []
    decreases k
  {
    if k > 0 {
      EmittedWithoutStars(entries, ifName, k - 1);
    }
  }

  /** On such a list there is one default route through the first named interface that asks for
      it; if none does, eth0 gets one through the "*" entry and any other name gets none. */
  lemma ExactlyOneDefault(entries: seq<Entry>, out: Outside, ifName: string)
    requires OneStarLast(entries) && AllConfigurable(entries, out, |entries|)
    ensures Built(entries, out, ifName, |entries|).routes
         == if AsksForDefault(entries, |entries|) then [DefaultVia(entries[FirstAsking(entries, |entries|)])]
            else if ifName == "eth0" then [DefaultVia(entries[|entries| - 1])]
            else []
  {
    var n := |entries|;
    DefaultRoutes(entries, out, ifName, n);
    EmittedWithoutStars(entries, ifName, n - 1);
  }
}
