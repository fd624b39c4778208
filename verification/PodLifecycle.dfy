/** What holds of a pod's ports over retries, deletions and whole runs, and of its annotation. */
module PodLifecycle {
  import opened Wrappers
  import opened Strings
  import opened PodPorts
  import CniResult

  // ----- The ports of one uninterrupted run -----

  /** The port names that a run over nets adds when no command fails, from a given record on;
      None when the list itself makes the run give up. */
  function NamesFrom(pod: Pod, ns: NetInterface, named: bool, nets: seq<NetObj>): Option<set<string>>
    decreases |nets|
  {
    if nets == [] then Some(if named then {} else {BaseName(pod)})
    else match NextRecord(ns, nets[0])
      case None => None
      case Some(next) =>
        match NamesFrom(pod, next, named || next.name == DEFAULT_NW, nets[1..])
        case None => None
        case Some(rest) => Some({NextPort(pod, ns, nets[0])} + rest)
  }

  function PortNames(pod: Pod, nets: seq<NetObj>): Option<set<string>> {
    NamesFrom(pod, BLANK, false, nets)
  }

  // The run of AddLogicalPorts from the middle of its loop.
  function FromLoop(switches: set<string>, pod: Pod, l: Loop, nets: seq<NetObj>, outcomes: seq<PortOutcome>)
    : (Ports, Option<seq<CniResult.Entry>>)
    requires |outcomes| == |nets| + 1
  {
    var (l', ok) := Passes(switches, pod, l, nets, outcomes);
    if !ok then (l'.ports, None)
    else if l'.defaultInterface then (l'.ports, Some(l'.entries))
    else
      var (ports', address) := AddedPort(switches, l'.ports, DEFAULT_NW, BaseName(pod), outcomes[|nets|]);
      (ports', if address.None? then None else Some(l'.entries + [EntryOf(address.value, "", "*")]))
  }

  /** What an attempt adds or changes is tagged and begins with the pod's name. */
  lemma {:induction false} TagsFromLoop(
      switches: set<string>, pod: Pod, l: Loop, nets: seq<NetObj>, outcomes: seq<PortOutcome>)
    requires |outcomes| == |nets| + 1
    ensures var ports := FromLoop(switches, pod, l, nets, outcomes).0;
      forall p :: p in ports && (p !in l.ports || ports[p] != l.ports[p]) ==> ports[p].pod && HasPrefix(p, BaseName(pod))
    decreases |nets|
  {
    if nets != [] {
      var (l', ok) := Pass(switches, pod, l, nets[0], outcomes[0]);
      if ok {
        assert outcomes[|nets|] == outcomes[1..][|nets[1..]|];
        TagsFromLoop(switches, pod, l', nets[1..], outcomes[1..]);
      }
    }
  }

  /** Every attempt, failed or not, keeps all ports that were there and adds only ports of its
      own run; a successful one adds all of them. */
  lemma {:induction false} NamesFromLoop(
      switches: set<string>, pod: Pod, l: Loop, nets: seq<NetObj>, outcomes: seq<PortOutcome>)
    requires |outcomes| == |nets| + 1
    ensures var (ports, r) := FromLoop(switches, pod, l, nets, outcomes);
      var names := NamesFrom(pod, l.ns, l.defaultInterface, nets);
      && l.ports.Keys <= ports.Keys
      && (names.Some? ==> ports.Keys <= l.ports.Keys + names.value)
      && (r.Some? ==> names.Some? && ports.Keys == l.ports.Keys + names.value)
    decreases |nets|
  {
    if nets != [] {
      var (l', ok) := Pass(switches, pod, l, nets[0], outcomes[0]);
      if ok {
        assert outcomes[|nets|] == outcomes[1..][|nets[1..]|];
        NamesFromLoop(switches, pod, l', nets[1..], outcomes[1..]);
      }
    }
  }

  lemma Attempt(switches: set<string>, pod: Pod, ports: Ports, nets: seq<NetObj>, outcomes: seq<PortOutcome>)
    requires |outcomes| == |nets| + 1
    ensures var (after, r) := AddedLogicalPorts(switches, pod, ports, nets, outcomes);
      var names := PortNames(pod, nets);
      && ports.Keys <= after.Keys
      && (forall p :: p in after && (p !in ports || after[p] != ports[p]) ==> after[p].pod && HasPrefix(p, BaseName(pod)))
      && (names.Some? ==> after.Keys <= ports.Keys + names.value)
      && (r.Some? ==> names.Some? && after.Keys == ports.Keys + names.value)
  {
    NamesFromLoop(switches, pod, Loop(BLANK, false, [], ports), nets, outcomes);
    TagsFromLoop(switches, pod, Loop(BLANK, false, [], ports), nets, outcomes);
  }

  // ----- Retries -----

  // One call of AddLogicalPorts: the switches there are then, and how its commands go.
  datatype Try = Try(switches: set<string>, outcomes: seq<PortOutcome>)

  function AfterTries(pod: Pod, ports: Ports, nets: seq<NetObj>, tries: seq<Try>): Ports
    requires forall i :: 0 <= i < |tries| ==> |tries[i].outcomes| == |nets| + 1
  {
    if tries == [] then ports
    else
      var n := |tries| - 1;
      AddedLogicalPorts(tries[n].switches, pod, AfterTries(pod, ports, nets, tries[..n]), nets, tries[n].outcomes).0
  }

  lemma {:induction false} TriesStayWithin(pod: Pod, ports: Ports, nets: seq<NetObj>, tries: seq<Try>)
    requires forall i :: 0 <= i < |tries| ==> |tries[i].outcomes| == |nets| + 1
    requires PortNames(pod, nets).Some?
    ensures ports.Keys <= AfterTries(pod, ports, nets, tries).Keys <= ports.Keys + PortNames(pod, nets).value
    decreases |tries|
  {
    if tries != [] {
      var n := |tries| - 1;
      TriesStayWithin(pod, ports, nets, tries[..n]);
      Attempt(tries[n].switches, pod, AfterTries(pod, ports, nets, tries[..n]), nets, tries[n].outcomes);
    }
  }

  /** An attempt never moves a port to another switch nor takes its tag off. */
  lemma {:induction false} PortsKept(switches: set<string>, pod: Pod, l: Loop, nets: seq<NetObj>, outcomes: seq<PortOutcome>, p: string)
    requires |outcomes| == |nets| + 1 && p in l.ports
    ensures var ports := FromLoop(switches, pod, l, nets, outcomes).0;
      p in ports && ports[p].switch == l.ports[p].switch && (l.ports[p].pod ==> ports[p].pod)
    decreases |nets|
  {
    if nets != [] {
      var (l', ok) := Pass(switches, pod, l, nets[0], outcomes[0]);
      if ok {
        assert outcomes[|nets|] == outcomes[1..][|nets[1..]|];
        PortsKept(switches, pod, l', nets[1..], outcomes[1..], p);
      }
    }
  }

  /** Two runs over the same list that both succeed give each port of the list the same switch
      and tag, whatever ports, switches and addresses each of them met. */
  lemma {:induction false} SamePort(switches: set<string>, switches': set<string>, pod: Pod, l: Loop, l': Loop,
                                    nets: seq<NetObj>, outcomes: seq<PortOutcome>, outcomes': seq<PortOutcome>, p: string)
    requires |outcomes| == |outcomes'| == |nets| + 1
    requires l.ns == l'.ns && l.defaultInterface == l'.defaultInterface
    requires FromLoop(switches, pod, l, nets, outcomes).1.Some? && FromLoop(switches', pod, l', nets, outcomes').1.Some?
    requires NamesFrom(pod, l.ns, l.defaultInterface, nets).Some? && p in NamesFrom(pod, l.ns, l.defaultInterface, nets).value
    ensures var ports, ports' := FromLoop(switches, pod, l, nets, outcomes).0, FromLoop(switches', pod, l', nets, outcomes').0;
      p in ports && p in ports' && ports[p] == ports'[p]
    decreases |nets|
  {
    if nets != [] {
      var m, m' := Pass(switches, pod, l, nets[0], outcomes[0]).0, Pass(switches', pod, l', nets[0], outcomes'[0]).0;
      assert outcomes[|nets|] == outcomes[1..][|nets[1..]|] && outcomes'[|nets|] == outcomes'[1..][|nets[1..]|];
      if p == NextPort(pod, l.ns, nets[0]) {
        PortsKept(switches, pod, m, nets[1..], outcomes[1..], p);
        PortsKept(switches', pod, m', nets[1..], outcomes'[1..], p);
      } else {
        SamePort(switches, switches', pod, m, m', nets[1..], outcomes[1..], outcomes'[1..], p);
      }
    }
  }

  /** An attempt leaves every port alone that its list does not name. */
  lemma {:induction false} OthersKept(switches: set<string>, pod: Pod, l: Loop, nets: seq<NetObj>, outcomes: seq<PortOutcome>, p: string)
    requires |outcomes| == |nets| + 1 && p in l.ports
    requires NamesFrom(pod, l.ns, l.defaultInterface, nets).Some? && p !in NamesFrom(pod, l.ns, l.defaultInterface, nets).value
    ensures var ports := FromLoop(switches, pod, l, nets, outcomes).0;
      p in ports && ports[p] == l.ports[p]
    decreases |nets|
  {
    if nets != [] {
      var (l', ok) := Pass(switches, pod, l, nets[0], outcomes[0]);
      if ok {
        assert outcomes[|nets|] == outcomes[1..][|nets[1..]|];
        OthersKept(switches, pod, l', nets[1..], outcomes[1..], p);
      }
    }
  }

  lemma {:induction false} TriesKeepOthers(pod: Pod, ports: Ports, nets: seq<NetObj>, tries: seq<Try>, p: string)
    requires forall i :: 0 <= i < |tries| ==> |tries[i].outcomes| == |nets| + 1
    requires p in ports && PortNames(pod, nets).Some? && p !in PortNames(pod, nets).value
    ensures p in AfterTries(pod, ports, nets, tries) && AfterTries(pod, ports, nets, tries)[p] == ports[p]
    decreases |tries|
  {
    if tries != [] {
      var n := |tries| - 1;
      TriesKeepOthers(pod, ports, nets, tries[..n], p);
      OthersKept(tries[n].switches, pod, Loop(BLANK, false, [], AfterTries(pod, ports, nets, tries[..n])), nets, tries[n].outcomes, p);
    }
  }

  /** After any number of attempts, failed anywhere, a successful one leaves exactly the ports,
      on the same switches and with the same tags, that one uninterrupted run from the start
      would have left. */
  lemma RetryConverges(pod: Pod, ports: Ports, nets: seq<NetObj>, failed: seq<Try>, last: Try, clean: Try)
    requires forall i :: 0 <= i < |failed| ==> |failed[i].outcomes| == |nets| + 1
    requires |last.outcomes| == |clean.outcomes| == |nets| + 1
    requires AddedLogicalPorts(last.switches, pod, AfterTries(pod, ports, nets, failed), nets, last.outcomes).1.Some?
    requires AddedLogicalPorts(clean.switches, pod, ports, nets, clean.outcomes).1.Some?
    ensures AddedLogicalPorts(last.switches, pod, AfterTries(pod, ports, nets, failed), nets, last.outcomes).0
         == AddedLogicalPorts(clean.switches, pod, ports, nets, clean.outcomes).0
  {
    var before := AfterTries(pod, ports, nets, failed);
    Attempt(clean.switches, pod, ports, nets, clean.outcomes);
    Attempt(last.switches, pod, before, nets, last.outcomes);
    TriesStayWithin(pod, ports, nets, failed);
    var retried := AddedLogicalPorts(last.switches, pod, before, nets, last.outcomes).0;
    var once := AddedLogicalPorts(clean.switches, pod, ports, nets, clean.outcomes).0;
    assert retried.Keys == once.Keys;
    var l, l' := Loop(BLANK, false, [], before), Loop(BLANK, false, [], ports);
    forall p | p in once ensures retried[p] == once[p] {
      if p in PortNames(pod, nets).value {
        SamePort(last.switches, clean.switches, pod, l, l', nets, last.outcomes, clean.outcomes, p);
      } else {
        TriesKeepOthers(pod, ports, nets, failed, p);
        OthersKept(last.switches, pod, l, nets, last.outcomes, p);
        OthersKept(clean.switches, pod, l', nets, clean.outcomes, p);
      }
    }
  }

  // ----- Runs over many pods -----

  datatype Event =
    | Add(pod: Pod, nets: seq<NetObj>, try: Try)
    | Delete(namespace: string, name: string, listFails: bool, failing: set<string>)
    | AddNode(port: string, fails: bool)

  predicate ValidEvent(e: Event) {
    e.Add? ==> |e.try.outcomes| == |e.nets| + 1
  }

  function AfterEvent(ports: Ports, e: Event): Ports
    requires ValidEvent(e)
  {
    match e
    case Add(pod, nets, try) => AddedLogicalPorts(try.switches, pod, ports, nets, try.outcomes).0
    case Delete(namespace, name, listFails, failing) =>
      if listFails then ports else ports - (Matching(ports, namespace, name) - failing)
    case AddNode(port, fails) =>
      if fails || port in ports then ports else ports[port := PortInfo(DEFAULT_NW, false)]
  }

  function AfterEvents(ports: Ports, events: seq<Event>): Ports
    requires forall i :: 0 <= i < |events| ==> ValidEvent(events[i])
  {
    if events == [] then ports else AfterEvent(AfterEvents(ports, events[..|events| - 1]), events[|events| - 1])
  }

  /** Nodes' port names are "ovn4nfv0-" and hexadecimal digits, while a pod's name in OVN always
      holds an underscore. */
  predicate NodePortName(port: string) {
    '_' !in port
  }

  lemma NodeIsNoPod(port: string, pod: Pod)
    requires NodePortName(port)
    ensures !HasPrefix(port, BaseName(pod))
  {
    assert BaseName(pod)[|pod.namespace|] == '_';
  }

  /** A node's port, which carries no pod tag, survives every run unchanged. */
  lemma {:induction false} NodePortsSurvive(ports: Ports, events: seq<Event>, port: string)
    requires forall i :: 0 <= i < |events| ==> ValidEvent(events[i])
    requires NodePortName(port) && port in ports && !ports[port].pod
    ensures port in AfterEvents(ports, events) && AfterEvents(ports, events)[port] == ports[port]
    decreases |events|
  {
    if events != [] {
      var n := |events| - 1;
      NodePortsSurvive(ports, events[..n], port);
      if events[n].Add? {
        var e := events[n];
        Attempt(e.try.switches, e.pod, AfterEvents(ports, events[..n]), e.nets, e.try.outcomes);
        NodeIsNoPod(port, e.pod);
      }
    }
  }

  /** No event takes the pod tag off a port: untagged ones were there at the start or are nodes' ports. */
  lemma {:induction false} UntaggedAreOld(ports: Ports, events: seq<Event>, p: string)
    requires forall i :: 0 <= i < |events| ==> ValidEvent(events[i])
    requires p in AfterEvents(ports, events) && !AfterEvents(ports, events)[p].pod
    ensures (p in ports && !ports[p].pod) || exists i :: 0 <= i < |events| && events[i].AddNode? && events[i].port == p
    decreases |events|
  {
    if events != [] {
      var n := |events| - 1;
      if events[n].Add? {
        var e := events[n];
        Attempt(e.try.switches, e.pod, AfterEvents(ports, events[..n]), e.nets, e.try.outcomes);
      }
      if events[n] != AddNode(p, false) {
        UntaggedAreOld(ports, events[..n], p);
        if !(p in ports && !ports[p].pod) {
          var i :| 0 <= i < n && events[..n][i].AddNode? && events[..n][i].port == p;
          assert events[i].AddNode? && events[i].port == p;
        }
      }
    }
  }

  /** After any run, a deletion that works leaves none of the pod's ports behind: neither one
      of its interface list's names nor any other port that begins with the pod's own name. */
  lemma PodGone(ports: Ports, events: seq<Event>, pod: Pod, nets: seq<NetObj>)
    requires forall i :: 0 <= i < |events| ==> ValidEvent(events[i])
    requires forall p :: p in ports && HasPrefix(p, BaseName(pod)) ==> ports[p].pod
    requires forall i :: 0 <= i < |events| && events[i].AddNode? ==> NodePortName(events[i].port)
    ensures var after := AfterEvent(AfterEvents(ports, events), Delete(pod.namespace, pod.name, false, {}));
      && (forall p :: p in after ==> !HasPrefix(p, BaseName(pod)))
      && (PortNames(pod, nets).Some? ==> after.Keys !! PortNames(pod, nets).value)
  {
    var before := AfterEvents(ports, events);
    var after := AfterEvent(before, Delete(pod.namespace, pod.name, false, {}));
    forall p | p in before && HasPrefix(p, BaseName(pod)) ensures p !in after {
      if !before[p].pod {
        UntaggedAreOld(ports, events, p);
        NodeIsNoPod(p, pod);
      }
      var rest := p[|BaseName(pod)|..];
      assert p == BaseName(pod) + rest;
      ContainsPrefix(BaseName(pod), rest);
    }
    if PortNames(pod, nets).Some? {
      forall p | p in PortNames(pod, nets).value ensures p !in after {
        NamesHoldPod(pod, BLANK, false, nets, p);
      }
    }
  }

  lemma {:induction false} NamesHoldPod(pod: Pod, ns: NetInterface, named: bool, nets: seq<NetObj>, p: string)
    requires NamesFrom(pod, ns, named, nets).Some? && p in NamesFrom(pod, ns, named, nets).value
    ensures HasPrefix(p, BaseName(pod))
    decreases |nets|
  {
    if nets != [] {
      var next := NextRecord(ns, nets[0]).value;
      if p != NextPort(pod, ns, nets[0]) {
        NamesHoldPod(pod, next, named || next.name == DEFAULT_NW, nets[1..], p);
      }
    }
  }

  // ----- Deletions across pods -----

  predicate HasSuffix(s: string, suffix: string) {
    |suffix| <= |s| && s[|s| - |suffix|..] == suffix
  }

  lemma PrefixSplit(x: string, y: string, namespace: string, name: string)
    requires '_' !in x && '_' !in namespace
    ensures HasPrefix(x + "_" + y, namespace + "_" + name) <==> x == namespace && HasPrefix(y, name)
  {
    var s, sub := x + "_" + y, namespace + "_" + name;
    assert s[|x|] == '_' && sub[|namespace|] == '_';
    if HasPrefix(s, sub) {
      assert x == s[..|x|] == sub[..|x|] == namespace;
      assert y == s[|x| + 1..] && name == sub[|x| + 1..];
    }
    if x == namespace && HasPrefix(y, name) {
      assert y == name + y[|name|..];
      assert s == sub + y[|name|..];
    }
  }

  /** Where a pod's name can stand in a name with an underscore. */
  lemma {:induction false} ContainsSplit(x: string, y: string, namespace: string, name: string)
    requires '_' !in x && '_' !in namespace
    ensures Contains(x + "_" + y, namespace + "_" + name) <==>
            (HasSuffix(x, namespace) && HasPrefix(y, name)) || Contains(y, namespace + "_" + name)
  {
    var s := x + "_" + y;
    PrefixSplit(x, y, namespace, name);
    ContainsStep(s, namespace + "_" + name);
    if x == [] {
      assert s[1..] == y;
    } else {
      assert s[1..] == x[1..] + "_" + y;
      assert x[0..] == x;
      ContainsSplit(x[1..], y, namespace, name);
    }
  }

  lemma NoUnderscore(y: string, namespace: string, name: string)
    requires '_' !in y
    ensures !Contains(y, namespace + "_" + name)
  {
    if i :| 0 <= i <= |y| && HasPrefix(y[i..], namespace + "_" + name) {
      assert (namespace + "_" + name)[|namespace|] == '_';
      assert y[i..][|namespace|] == '_';
    }
  }

  /** Kubernetes names hold no underscore. */
  predicate ProperName(pod: Pod) {
    '_' !in pod.namespace && '_' !in pod.name
  }

  /** The victim's names extend those of the deleted pod. */
  predicate Extends(victim: Pod, deleted: Pod) {
    HasSuffix(victim.namespace, deleted.namespace) && HasPrefix(victim.name, deleted.name)
  }

  lemma PortHolds(deleted: Pod, victim: Pod, interface: string)
    requires ProperName(deleted) && ProperName(victim) && '_' !in interface
    ensures Contains(PortName(victim, interface), BaseName(deleted)) <==>
            Extends(victim, deleted) ||
            (interface != "" && HasSuffix(victim.name, deleted.namespace) && HasPrefix(interface, deleted.name))
  {
    var namespace, name := deleted.namespace, deleted.name;
    if interface == "" {
      ContainsSplit(victim.namespace, victim.name, namespace, name);
      NoUnderscore(victim.name, namespace, name);
    } else {
      var y := victim.name + "_" + interface;
      assert PortName(victim, interface) == victim.namespace + "_" + y;
      ContainsSplit(victim.namespace, y, namespace, name);
      ContainsSplit(victim.name, interface, namespace, name);
      NoUnderscore(interface, namespace, name);
      assert y[|victim.name|] == '_';
      assert HasPrefix(y, name) <==> HasPrefix(victim.name, name);
    }
  }

  /** A working deletion for one pod takes a port of another pod exactly when the other's names
      extend the first one's, or its own name and the interface's do; and in the first case it
      takes all tagged ports of the other pod's list. */
  lemma DeletionReach(ports: Ports, deleted: Pod, victim: Pod, nets: seq<NetObj>, interface: string)
    requires ProperName(deleted) && ProperName(victim) && '_' !in interface
    ensures var after := AfterEvent(ports, Delete(deleted.namespace, deleted.name, false, {}));
      var port := PortName(victim, interface);
      port in ports && ports[port].pod ==>
        (port !in after <==>
          Extends(victim, deleted) ||
          (interface != "" && HasSuffix(victim.name, deleted.namespace) && HasPrefix(interface, deleted.name)))
    ensures var after := AfterEvent(ports, Delete(deleted.namespace, deleted.name, false, {}));
      Extends(victim, deleted) && PortNames(victim, nets).Some? ==>
        forall p :: p in PortNames(victim, nets).value && p in ports && ports[p].pod ==> p !in after
  {
    PortHolds(deleted, victim, interface);
    if Extends(victim, deleted) && PortNames(victim, nets).Some? {
      PortHolds(deleted, victim, "");
      forall p | p in PortNames(victim, nets).value ensures Contains(p, BaseName(deleted)) {
        NamesHoldPod(victim, BLANK, false, nets, p);
        ContainsLonger(BaseName(victim), p[|BaseName(victim)|..], BaseName(deleted));
        assert p == BaseName(victim) + p[|BaseName(victim)|..];
      }
    }
  }

  lemma ContainsLonger(s: string, rest: string, sub: string)
    requires Contains(s, sub)
    ensures Contains(s + rest, sub)
  {
    var i :| 0 <= i <= |s| && HasPrefix(s[i..], sub);
    assert (s + rest)[i..] == s[i..] + rest;
    assert HasPrefix((s + rest)[i..], sub);
  }

  // ----- The annotation -----

  /** The list never names the default network and never spells out "*". */
  predicate PlainList(nets: seq<NetObj>) {
    forall i :: 0 <= i < |nets| && nets[i].Keys? ==> nets[i].name != Some(DEFAULT_NW) && nets[i].interface != Some("*")
  }

  /** Along such a list the shared record never holds the default network or a "*", although
      it is not reset between elements. */
  lemma {:induction false} PassesStayPlain(switches: set<string>, pod: Pod, l: Loop, nets: seq<NetObj>, outcomes: seq<PortOutcome>)
    requires |outcomes| == |nets| + 1 && PlainList(nets)
    requires l.ns.name != DEFAULT_NW && l.ns.interface != "*" && !l.defaultInterface
    requires forall i :: 0 <= i < |l.entries| ==> l.entries[i].interface != "*"
    ensures var (l', ok) := Passes(switches, pod, l, nets, outcomes);
      !l'.defaultInterface && forall i :: 0 <= i < |l'.entries| ==> l'.entries[i].interface != "*"
    decreases |nets|
  {
    if nets != [] {
      var (l', ok) := Pass(switches, pod, l, nets[0], outcomes[0]);
      if ok {
        PassesStayPlain(switches, pod, l', nets[1..], outcomes[1..]);
      }
    }
  }

  /** A successful AddLogicalPorts over a plain list yields exactly one "*" entry, at the end. */
  lemma OneStar(switches: set<string>, pod: Pod, ports: Ports, nets: seq<NetObj>, outcomes: seq<PortOutcome>)
    requires |outcomes| == |nets| + 1 && PlainList(nets)
    requires AddedLogicalPorts(switches, pod, ports, nets, outcomes).1.Some?
    ensures CniResult.OneStarLast(AddedLogicalPorts(switches, pod, ports, nets, outcomes).1.value)
  {
    PassesStayPlain(switches, pod, Loop(BLANK, false, [], ports), nets, outcomes);
  }

  /** From the pod's interface list to the CNI result: the operator's annotation makes the node
      emit exactly one default route for eth0, and at most one for any other name. */
  lemma OneDefaultRouteEndToEnd(switches: set<string>, pod: Pod, ports: Ports, nets: seq<NetObj>,
                                outcomes: seq<PortOutcome>, out: CniResult.Outside, ifName: string)
    requires |outcomes| == |nets| + 1 && PlainList(nets)
    requires var r := AddedLogicalPorts(switches, pod, ports, nets, outcomes).1;
      r.Some? && r.value != [] && CniResult.AllConfigurable(r.value, out, |r.value|)
    ensures var entries := AddedLogicalPorts(switches, pod, ports, nets, outcomes).1.value;
      var routes := CniResult.Built(entries, out, ifName, |entries|).routes;
      && (forall i :: 0 <= i < |routes| ==> routes[i].dst == "0.0.0.0/0")
      && (ifName == "eth0" ==> |routes| == 1)
      && |routes| <= 1
  {
    OneStar(switches, pod, ports, nets, outcomes);
    var entries := AddedLogicalPorts(switches, pod, ports, nets, outcomes).1.value;
    CniResult.ExactlyOneDefault(entries, out, ifName);
  }

  // ----- Whose address an entry carries -----

  /** The record that stands after the first k elements of the list. */
  function RecordAfter(nets: seq<NetObj>, k: nat): Option<NetInterface>
    requires k <= |nets|
  {
    if k == 0 then Some(BLANK)
    else match RecordAfter(nets, k - 1)
      case None => None
      case Some(ns) => NextRecord(ns, nets[k - 1])
  }

  /** An entry for one element: the port's own address under the element's interface and flag. */
  predicate EntryFits(e: CniResult.Entry, ns: NetInterface, o: PortOutcome) {
    o.Yields? && e == EntryOf(o.address, ns.defaultGateway, ns.interface)
  }

  /** The first k entries fit the first k elements. */
  predicate Fit(entries: seq<CniResult.Entry>, nets: seq<NetObj>, outcomes: seq<PortOutcome>, k: nat)
    requires k <= |nets| <= |outcomes|
  {
    k <= |entries| && forall i :: 0 <= i < k ==> FitsAt(entries[i], nets, outcomes, i)
  }

  predicate FitsAt(e: CniResult.Entry, nets: seq<NetObj>, outcomes: seq<PortOutcome>, i: nat)
    requires i < |nets| <= |outcomes|
  {
    RecordAfter(nets, i + 1).Some? && EntryFits(e, RecordAfter(nets, i + 1).value, outcomes[i])
  }

  /** A pass that works appends the entry that fits. */
  lemma PassFits(switches: set<string>, pod: Pod, l: Loop, nets: seq<NetObj>, outcomes: seq<PortOutcome>, k: nat)
    requires k < |nets| <= |outcomes| && |l.entries| == k && RecordAfter(nets, k) == Some(l.ns)
    requires Fit(l.entries, nets, outcomes, k) && Pass(switches, pod, l, nets[k], outcomes[k]).1
    ensures var l' := Pass(switches, pod, l, nets[k], outcomes[k]).0;
      |l'.entries| == k + 1 && RecordAfter(nets, k + 1) == Some(l'.ns) && Fit(l'.entries, nets, outcomes, k + 1)
  {
    var l' := Pass(switches, pod, l, nets[k], outcomes[k]).0;
    FitLonger(l.entries, l'.entries[k], nets, outcomes, k);
    assert l'.entries == l.entries + [l'.entries[k]];
    assert FitsAt(l'.entries[k], nets, outcomes, k);
  }

  lemma PassesStep(switches: set<string>, pod: Pod, l: Loop, nets: seq<NetObj>, outcomes: seq<PortOutcome>, k: nat)
    requires |outcomes| == |nets| + 1 && k < |nets|
    ensures var (l', ok) := Pass(switches, pod, l, nets[k], outcomes[k]);
      Passes(switches, pod, l, nets[k..], outcomes[k..])
      == if ok then Passes(switches, pod, l', nets[k + 1..], outcomes[k + 1..]) else (l', false)
  {
    assert nets[k..][1..] == nets[k + 1..] && outcomes[k..][1..] == outcomes[k + 1..];
  }

  lemma {:induction false} PassesFit(
      switches: set<string>, pod: Pod, l: Loop, nets: seq<NetObj>, outcomes: seq<PortOutcome>, k: nat)
    requires |outcomes| == |nets| + 1 && k <= |nets| && |l.entries| == k && RecordAfter(nets, k) == Some(l.ns)
    requires Fit(l.entries, nets, outcomes, k)
    ensures var (l', ok) := Passes(switches, pod, l, nets[k..], outcomes[k..]);
      ok ==> |l'.entries| == |nets| && Fit(l'.entries, nets, outcomes, |nets|)
    decreases |nets| - k
  {
    if k < |nets| {
      var (l', ok) := Pass(switches, pod, l, nets[k], outcomes[k]);
      PassesStep(switches, pod, l, nets, outcomes, k);
      if ok {
        PassFits(switches, pod, l, nets, outcomes, k);
        PassesFit(switches, pod, l', nets, outcomes, k + 1);
      }
    }
  }

  lemma FitLonger(entries: seq<CniResult.Entry>, e: CniResult.Entry, nets: seq<NetObj>, outcomes: seq<PortOutcome>, k: nat)
    requires k <= |nets| <= |outcomes| && Fit(entries, nets, outcomes, k)
    ensures Fit(entries + [e], nets, outcomes, k)
  {
  }

  /** On success entry i of the annotation carries the address that port i was given, with the
      interface and flag that the overlaid record had for element i; at most one more follows,
      with the default network's own address. */
  lemma EntriesCarryAddresses(switches: set<string>, pod: Pod, ports: Ports, nets: seq<NetObj>, outcomes: seq<PortOutcome>)
    requires |outcomes| == |nets| + 1
    requires AddedLogicalPorts(switches, pod, ports, nets, outcomes).1.Some?
    ensures var entries := AddedLogicalPorts(switches, pod, ports, nets, outcomes).1.value;
      && |nets| <= |entries| <= |nets| + 1
      && Fit(entries, nets, outcomes, |nets|)
      && (|entries| > |nets| ==> EntryFits(entries[|nets|], NetInterface(DEFAULT_NW, "*", ""), outcomes[|nets|]))
  {
    var l := Loop(BLANK, false, [], ports);
    assert nets[0..] == nets && outcomes[0..] == outcomes;
    PassesFit(switches, pod, l, nets, outcomes, 0);
    var l' := Passes(switches, pod, l, nets, outcomes).0;
    if !l'.defaultInterface && outcomes[|nets|].Yields? {
      FitLonger(l'.entries, EntryOf(outcomes[|nets|].address, "", "*"), nets, outcomes, |nets|);
    }
  }
}
