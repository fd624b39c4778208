/** What one attempt to add a pod's ports does, read off the pod's own interface list: which ports it
    leaves on which switches, where it stops, and the annotation it gives. */
module PodAnnotation {
  import opened Wrappers
  import opened PodPorts
  import opened PodLifecycle
  import CniResult

  // ----- Reading the list -----

  predicate Readable(nets: seq<NetObj>, k: nat)
    requires k <= |nets|
  {
    forall i :: 0 <= i < k ==> nets[i].Keys?
  }

  /** The network named last among the first k elements; a key that is missing counts as said before. */
  function LatestName(nets: seq<NetObj>, k: nat): string
    requires k <= |nets| && Readable(nets, k)
    decreases k
  {
    if k == 0 then "" else match nets[k - 1].name case Some(v) => v case None => LatestName(nets, k - 1)
  }

  function LatestInterface(nets: seq<NetObj>, k: nat): string
    requires k <= |nets| && Readable(nets, k)
    decreases k
  {
    if k == 0 then "" else match nets[k - 1].interface case Some(v) => v case None => LatestInterface(nets, k - 1)
  }

  function LatestFlag(nets: seq<NetObj>, k: nat): string
    requires k <= |nets| && Readable(nets, k)
    decreases k
  {
    if k == 0 then "" else match nets[k - 1].defaultGateway case Some(v) => v case None => LatestFlag(nets, k - 1)
  }

  function Or(s: string, blank: string): string {
    if s == "" then blank else s
  }

  /** The element stands without an interface: it says so, or it is the first and says nothing. */
  predicate Bare(nets: seq<NetObj>, i: nat)
    requires i < |nets| && nets[i].Keys?
  {
    nets[i].interface == Some("") || (i == 0 && nets[i].interface.None?)
  }

  /** Only an element on the default network may stand without an interface. */
  predicate ElementOk(nets: seq<NetObj>, i: nat)
    requires i < |nets| && Readable(nets, i + 1)
  {
    Bare(nets, i) ==> LatestName(nets, i + 1) == DEFAULT_NW
  }

  /** The first k elements can be read and are in order. */
  predicate ListOk(nets: seq<NetObj>, k: nat)
    requires k <= |nets|
    ensures ListOk(nets, k) ==> Readable(nets, k)
    decreases k
  {
    k == 0 || (ListOk(nets, k - 1) && nets[k - 1].Keys? && ElementOk(nets, k - 1))
  }

  // One element as it is meant: its port, its network, and what the annotation is to say about it.
  datatype Item = Item(port: string, network: string, interface: string, flag: string)

  /** The name of the port for element i. */
  function PortAt(pod: Pod, nets: seq<NetObj>, i: nat): string
    requires i < |nets| && Readable(nets, i + 1)
  {
    var base := pod.namespace + "_" + pod.name;
    if Bare(nets, i) then base else base + "_" + Or(LatestInterface(nets, i + 1), "*")
  }

  function ItemAt(pod: Pod, nets: seq<NetObj>, i: nat): Option<Item>
    requires i < |nets|
  {
    if Readable(nets, i + 1) && ElementOk(nets, i)
    then Some(Item(PortAt(pod, nets, i), LatestName(nets, i + 1), Or(LatestInterface(nets, i + 1), "*"),
                   Or(LatestFlag(nets, i + 1), "false")))
    else None
  }

  /** The list, element by element; None where it cannot be used. */
  function Items(pod: Pod, nets: seq<NetObj>): (items: seq<Option<Item>>)
    ensures |items| == |nets|
  {
    seq(|nets|, i requires 0 <= i < |nets| => ItemAt(pod, nets, i))
  }

  /** What the first k elements leave in the shared record, which is never reset. */
  function RecordAt(nets: seq<NetObj>, k: nat): NetInterface
    requires k <= |nets| && Readable(nets, k)
  {
    if k == 0 then BLANK
    else NetInterface(LatestName(nets, k), Or(LatestInterface(nets, k), "*"), Or(LatestFlag(nets, k), "false"))
  }

  lemma ElementRead(pod: Pod, nets: seq<NetObj>, k: nat)
    requires k < |nets| && Readable(nets, k + 1)
    ensures Overlaid(RecordAt(nets, k), nets[k]).name == LatestName(nets, k + 1)
    ensures NextPort(pod, RecordAt(nets, k), nets[k]) == PortAt(pod, nets, k)
    ensures NextRecord(RecordAt(nets, k), nets[k]) == if ElementOk(nets, k) then Some(RecordAt(nets, k + 1)) else None
  {
    assert |"*"| == 1 && |"false"| == 5;
  }

  lemma {:induction false} RecordIsLatest(nets: seq<NetObj>, k: nat)
    requires k <= |nets|
    ensures RecordAfter(nets, k) == if ListOk(nets, k) then Some(RecordAt(nets, k)) else None
    decreases k
  {
    if k > 0 {
      RecordIsLatest(nets, k - 1);
      if ListOk(nets, k - 1) && nets[k - 1].Keys? {
        ElementRead(Pod("", "", false, false), nets, k - 1);
      }
    }
  }

  // ----- What becomes of the elements -----

  /** The ports once the first k elements have theirs: tagged, on the element's own network. */
  function Plugged(ports: Ports, items: seq<Option<Item>>, k: nat): Ports
    requires k <= |items|
  {
    if k == 0 then ports
    else
      var there := Plugged(ports, items, k - 1);
      if items[k - 1].Some? then there[items[k - 1].value.port := PortInfo(items[k - 1].value.network, true)] else there
  }

  /** The port can be had: its network exists and the name is not taken on another. */
  predicate Free(switches: set<string>, there: Ports, port: string, network: string) {
    network in switches && (port in there ==> there[port].switch == network)
  }

  predicate Pluggable(switches: set<string>, ports: Ports, items: seq<Option<Item>>, i: nat)
    requires i < |items|
  {
    items[i].Some? && Free(switches, Plugged(ports, items, i), items[i].value.port, items[i].value.network)
  }

  predicate Works(switches: set<string>, ports: Ports, items: seq<Option<Item>>, outcomes: seq<PortOutcome>, i: nat)
    requires i < |items| <= |outcomes|
  {
    Pluggable(switches, ports, items, i) && outcomes[i].Yields?
  }

  /** The ports after an element that does not work: its own is left behind if only a later step failed. */
  function LeftAt(switches: set<string>, ports: Ports, items: seq<Option<Item>>, outcomes: seq<PortOutcome>, i: nat): Ports
    requires i < |items| <= |outcomes|
  {
    if Pluggable(switches, ports, items, i) && outcomes[i].LaterFails? then Plugged(ports, items, i + 1)
    else Plugged(ports, items, i)
  }

  /** The first element from k on that does not work; |items| if all do. */
  function FirstStop(switches: set<string>, ports: Ports, items: seq<Option<Item>>, outcomes: seq<PortOutcome>, k: nat): (m: nat)
    requires k <= |items| <= |outcomes|
    ensures k <= m <= |items|
    decreases |items| - k
  {
    if k == |items| || !Works(switches, ports, items, outcomes, k) then k
    else FirstStop(switches, ports, items, outcomes, k + 1)
  }

  lemma {:induction false} FirstStopIsFirst(
      switches: set<string>, ports: Ports, items: seq<Option<Item>>, outcomes: seq<PortOutcome>, k: nat)
    requires k <= |items| <= |outcomes|
    ensures var m := FirstStop(switches, ports, items, outcomes, k);
      && (forall i :: k <= i < m ==> Works(switches, ports, items, outcomes, i))
      && (m < |items| ==> !Works(switches, ports, items, outcomes, m))
    decreases |items| - k
  {
    if k < |items| && Works(switches, ports, items, outcomes, k) {
      FirstStopIsFirst(switches, ports, items, outcomes, k + 1);
    }
  }

  /** The annotation entry of an element whose port yielded an address. */
  function EntryFor(item: Option<Item>, o: PortOutcome): CniResult.Entry {
    if item.Some? && o.Yields?
    then CniResult.Entry(o.address.ip, o.address.mac, o.address.gateway, item.value.flag, item.value.interface)
    else CniResult.Entry("", "", "", "", "")
  }

  function EntriesOf(items: seq<Option<Item>>, outcomes: seq<PortOutcome>, k: nat): seq<CniResult.Entry>
    requires k <= |items| <= |outcomes|
  {
    seq(k, i requires 0 <= i < k => EntryFor(items[i], outcomes[i]))
  }

  /** One of the first k elements names the default network. */
  predicate NamesDefault(items: seq<Option<Item>>, k: nat)
    requires k <= |items|
  {
    exists i :: 0 <= i < k && items[i].Some? && items[i].value.network == DEFAULT_NW
  }

  lemma ElementPort(switches: set<string>, ports: Ports, items: seq<Option<Item>>, o: PortOutcome, k: nat)
    requires k < |items| && items[k].Some?
    ensures var there, item := Plugged(ports, items, k), items[k].value;
      var (ports', address) := AddedPort(switches, there, item.network, item.port, o);
      var free := Pluggable(switches, ports, items, k);
      && address == (if free && o.Yields? then Some(o.address) else None)
      && ports' == if free && (o.Yields? || o.LaterFails?) then Plugged(ports, items, k + 1) else there
  {
  }

  /** A pass in terms of its element. */
  lemma PassOfItem(switches: set<string>, pod: Pod, l: Loop, nets: seq<NetObj>, o: PortOutcome, k: nat)
    requires k < |nets| && ListOk(nets, k) && l.ns == RecordAt(nets, k)
    ensures var (l', ok) := Pass(switches, pod, l, nets[k], o);
      match ItemAt(pod, nets, k)
      case None => !ok && l' == l
      case Some(item) =>
        var (ports', address) := AddedPort(switches, l.ports, item.network, item.port, o);
        && l'.ports == ports' && (ok <==> address.Some?)
        && (ok ==> ListOk(nets, k + 1)
                   && l' == Loop(RecordAt(nets, k + 1), l.defaultInterface || item.network == DEFAULT_NW,
                                 l.entries + [CniResult.Entry(address.value.ip, address.value.mac, address.value.gateway,
                                                              item.flag, item.interface)], ports'))
  {
    if nets[k].Keys? {
      ElementRead(pod, nets, k);
    }
  }

  /** Where the loop stands after k elements that all worked. */
  predicate StandsAt(l: Loop, ports: Ports, nets: seq<NetObj>, items: seq<Option<Item>>, outcomes: seq<PortOutcome>, k: nat)
    requires k <= |nets| == |items| < |outcomes| && ListOk(nets, k)
  {
    && l.ns == RecordAt(nets, k) && l.ports == Plugged(ports, items, k)
    && l.entries == EntriesOf(items, outcomes, k) && l.defaultInterface == NamesDefault(items, k)
  }

  lemma OneElement(switches: set<string>, pod: Pod, l: Loop, ports: Ports, nets: seq<NetObj>, outcomes: seq<PortOutcome>, k: nat)
    requires k < |nets| < |outcomes| && ListOk(nets, k) && StandsAt(l, ports, nets, Items(pod, nets), outcomes, k)
    ensures var (l', ok) := Pass(switches, pod, l, nets[k], outcomes[k]);
      var items := Items(pod, nets);
      && (ok <==> Works(switches, ports, items, outcomes, k))
      && (ok ==> ListOk(nets, k + 1) && StandsAt(l', ports, nets, items, outcomes, k + 1))
      && (!ok ==> l'.ports == LeftAt(switches, ports, items, outcomes, k))
  {
    var items := Items(pod, nets);
    PassOfItem(switches, pod, l, nets, outcomes[k], k);
    if items[k].Some? {
      ElementPort(switches, ports, items, outcomes[k], k);
      if Works(switches, ports, items, outcomes, k) {
        assert EntriesOf(items, outcomes, k + 1) == EntriesOf(items, outcomes, k) + [EntryFor(items[k], outcomes[k])];
      }
    }
  }

  /** How the loop ends, with the first m elements worked off. */
  predicate EndsAt(end: (Loop, bool), switches: set<string>, ports: Ports, nets: seq<NetObj>, items: seq<Option<Item>>,
                   outcomes: seq<PortOutcome>, m: nat)
    requires m <= |nets| == |items| < |outcomes|
  {
    if m == |nets| then end.1 && ListOk(nets, |nets|) && StandsAt(end.0, ports, nets, items, outcomes, |nets|)
    else !end.1 && end.0.ports == LeftAt(switches, ports, items, outcomes, m)
  }

  /** One step of the loop: on to a next record, or to the end. */
  lemma Advance(switches: set<string>, pod: Pod, l: Loop, ports: Ports, nets: seq<NetObj>,
                items: seq<Option<Item>>, outcomes: seq<PortOutcome>, k: nat) returns (l': Loop)
    requires k < |nets| && |outcomes| == |nets| + 1 && ListOk(nets, k) && items == Items(pod, nets)
    requires StandsAt(l, ports, nets, items, outcomes, k)
    ensures var end := Passes(switches, pod, l, nets[k..], outcomes[k..]);
      if Works(switches, ports, items, outcomes, k) then
        && ListOk(nets, k + 1) && StandsAt(l', ports, nets, items, outcomes, k + 1)
        && end == Passes(switches, pod, l', nets[k + 1..], outcomes[k + 1..])
      else !end.1 && end.0.ports == LeftAt(switches, ports, items, outcomes, k)
  {
    l' := Pass(switches, pod, l, nets[k], outcomes[k]).0;
    PassesStep(switches, pod, l, nets, outcomes, k);
    OneElement(switches, pod, l, ports, nets, outcomes, k);
  }

  /** The loop from element k on, if end is how it ends. */
  lemma {:induction false} AllElements(switches: set<string>, pod: Pod, l: Loop, ports: Ports, nets: seq<NetObj>,
                                       items: seq<Option<Item>>, outcomes: seq<PortOutcome>, k: nat, end: (Loop, bool))
    requires k <= |nets| && |outcomes| == |nets| + 1 && ListOk(nets, k) && items == Items(pod, nets)
    requires StandsAt(l, ports, nets, items, outcomes, k)
    requires end == Passes(switches, pod, l, nets[k..], outcomes[k..])
    ensures EndsAt(end, switches, ports, nets, items, outcomes, FirstStop(switches, ports, items, outcomes, k))
    decreases |nets| - k
  {
    if k < |nets| {
      var l' := Advance(switches, pod, l, ports, nets, items, outcomes, k);
      if Works(switches, ports, items, outcomes, k) {
        AllElements(switches, pod, l', ports, nets, items, outcomes, k + 1, end);
      }
    }
  }

  /** What an attempt comes to: element after element gets its port on its own network, up to the
      first that does not work, whose port may be left behind; then the pod's own port on the
      default network, unless the list named that. There is an annotation exactly when all of this
      worked, with an entry for each port that carries the port's own address. */
  function Answer(switches: set<string>, pod: Pod, ports: Ports, nets: seq<NetObj>, outcomes: seq<PortOutcome>)
    : (Ports, Option<seq<CniResult.Entry>>)
    requires |outcomes| == |nets| + 1
  {
    var items, n, base, o := Items(pod, nets), |nets|, pod.namespace + "_" + pod.name, outcomes[|nets|];
    var m, there := FirstStop(switches, ports, items, outcomes, 0), Plugged(ports, items, n);
    if m < n then (LeftAt(switches, ports, items, outcomes, m), None)
    else if NamesDefault(items, n) then (there, Some(EntriesOf(items, outcomes, n)))
    else if !Free(switches, there, base, DEFAULT_NW) || o.FindFails? || o.AddFails? then (there, None)
    else
      (there[base := PortInfo(DEFAULT_NW, true)],
       if o.Yields? then
         Some(EntriesOf(items, outcomes, n) + [CniResult.Entry(o.address.ip, o.address.mac, o.address.gateway, "", "*")])
       else None)
  }

  lemma AttemptExactly(switches: set<string>, pod: Pod, ports: Ports, nets: seq<NetObj>, outcomes: seq<PortOutcome>)
    requires |outcomes| == |nets| + 1
    ensures AddedLogicalPorts(switches, pod, ports, nets, outcomes) ==
      if pod.hostNetwork || pod.annotated then (ports, None) else Answer(switches, pod, ports, nets, outcomes)
  {
    assert nets[0..] == nets && outcomes[0..] == outcomes;
    var items := Items(pod, nets);
    assert EntriesOf(items, outcomes, 0) == [];
    var l := Loop(BLANK, false, [], ports);
    AllElements(switches, pod, l, ports, nets, items, outcomes, 0, Passes(switches, pod, l, nets, outcomes));
  }

  /** A port that one element got is not moved by a later one that works. */
  lemma {:induction false} PluggedStays(switches: set<string>, ports: Ports, items: seq<Option<Item>>,
                                        outcomes: seq<PortOutcome>, i: nat, k: nat)
    requires i < k <= |items| <= |outcomes| && forall j :: 0 <= j < k ==> Works(switches, ports, items, outcomes, j)
    ensures items[i].Some? && HasOwn(Plugged(ports, items, k), items[i].value)
    decreases k
  {
    assert Works(switches, ports, items, outcomes, k - 1);
    if i < k - 1 {
      PluggedStays(switches, ports, items, outcomes, i, k - 1);
    }
  }

  predicate HasOwn(ports: Ports, item: Item) {
    item.port in ports && ports[item.port] == PortInfo(item.network, true)
  }

  /** On success the port of every element is there, tagged and on the network that the element names,
      and so is the pod's own port on the default network, unless the list named that itself. */
  lemma EveryPortInPlace(switches: set<string>, pod: Pod, ports: Ports, nets: seq<NetObj>, outcomes: seq<PortOutcome>)
    requires |outcomes| == |nets| + 1
    requires AddedLogicalPorts(switches, pod, ports, nets, outcomes).1.Some?
    ensures var after, items := AddedLogicalPorts(switches, pod, ports, nets, outcomes).0, Items(pod, nets);
      && (forall i :: 0 <= i < |nets| ==> items[i].Some? && HasOwn(after, items[i].value))
      && (!NamesDefault(items, |nets|) ==> HasOwn(after, Item(pod.namespace + "_" + pod.name, DEFAULT_NW, "*", "")))
  {
    AttemptExactly(switches, pod, ports, nets, outcomes);
    var items := Items(pod, nets);
    FirstStopIsFirst(switches, ports, items, outcomes, 0);
    forall i | 0 <= i < |nets|
      ensures items[i].Some? && HasOwn(AddedLogicalPorts(switches, pod, ports, nets, outcomes).0, items[i].value)
    {
      PluggedStays(switches, ports, items, outcomes, i, |nets|);
    }
  }
}
