/** The pod reconciler (pkg/controller/pod/pod_controller.go). */
module PodController {
  import opened Wrappers
  import opened PodLifecycle
  import opened PodPorts
  import opened Strings
  import PodAnnotation
  import CniResult

  // The pod's network annotation.
  datatype Nfn = Absent | Unreadable | Readable(kind: string, nets: seq<NetObj>)

  // A stored pod; annotation is the operator's answer.
  datatype PodObject = PodObject(
    hostNetwork: bool, nodeName: string, nfn: Nfn, annotation: Option<seq<CniResult.Entry>>)

  // How the calls of one reconcile go; noController: the OVN controller was never set up.
  datatype Calls = Calls(getFails: bool, noController: bool, outcomes: seq<PortOutcome>, patchFails: bool,
                         listFails: bool, failing: set<string>)

  type Key = (string, string) // namespace and name

  type Pods = map<Key, PodObject>

  /** The interface list used: none without a readable annotation, as the default interface is on. */
  function Interfaces(p: PodObject): Option<seq<NetObj>> {
    if p.nfn.Readable? then if p.nfn.kind == "ovn4nfv" then Some(p.nfn.nets) else None
    else Some([])
  }

  /** Whether a reconcile gets as far as adding ports. */
  predicate WantsPorts(p: PodObject) {
    !p.hostNetwork && p.nodeName != "" && p.annotation.None? && Interfaces(p).Some?
  }

  /** The calls' outcomes fit the interface list that the reconcile will read. */
  predicate Fits(pods: Pods, namespace: string, name: string, calls: Calls) {
    (namespace, name) in pods && Interfaces(pods[(namespace, name)]).Some? ==>
      |calls.outcomes| == |Interfaces(pods[(namespace, name)]).value| + 1
  }

  /** Pods, ports and whether the request comes back, after one reconcile. */
  function Reconciled(pods: Pods, switches: set<string>, ports: Ports, namespace: string, name: string, calls: Calls)
    : (Pods, Ports, bool)
    requires Fits(pods, namespace, name, calls)
  {
    if calls.getFails then (pods, ports, true)
    else if (namespace, name) !in pods then
      (pods, if calls.noController || calls.listFails then ports else ports - (Matching(ports, namespace, name) - calls.failing), false)
    else
      var p := pods[(namespace, name)];
      if namespace == "" || name == "" || p.hostNetwork then (pods, ports, false)
      else if p.nodeName == "" then (pods, ports, true)
      else if !WantsPorts(p) || calls.noController then (pods, ports, false)
      else
        var (ports', r) := AddedLogicalPorts(switches, Pod(namespace, name, false, false), ports,
                                             Interfaces(p).value, calls.outcomes);
        (if r.Some? && !calls.patchFails then pods[(namespace, name) := p.(annotation := r)] else pods, ports', r.None?)
  }

  class ReconcilePod {
    const ovn: OvnController
    var pods: Pods

    constructor (ovn: OvnController, pods: Pods)
      ensures this.ovn == ovn && this.pods == pods
    {
      this.ovn, this.pods := ovn, pods;
    }

    method Reconcile(namespace: string, name: string, calls: Calls) returns (again: bool)
      requires Fits(pods, namespace, name, calls)
      modifies this`pods, ovn`ports
      ensures (pods, ovn.ports, again) == Reconciled(old(pods), ovn.switches, old(ovn.ports), namespace, name, calls)
    {
      if calls.getFails {
        return true;
      }
      if (namespace, name) !in pods {
        if !calls.noController {
          ovn.DeleteLogicalPorts(name, namespace, calls.listFails, calls.failing);
        }
        return false;
      }
      if namespace == "" || name == "" {
        return false;
      }
      var instance := pods[(namespace, name)];
      if instance.hostNetwork {
        return false;
      }
      if instance.nodeName == "" {
        return true;
      }
      var nets := Interfaces(instance);
      if nets.None? || calls.noController || instance.annotation.Some? {
        return false;
      }
      var r := ovn.AddLogicalPorts(Pod(namespace, name, instance.hostNetwork, instance.annotation.Some?),
                                   nets.value, calls.outcomes);
      if r.None? {
        return true;
      }
      if !calls.patchFails {
        pods := pods[(namespace, name) := instance.(annotation := r)];
      }
      return false;
    }
  }

  /** A reconcile writes a pod's annotation only when every port of its list is there, and then
      the request is done with; it never touches another pod, nor one that is annotated. */
  lemma AnnotatedOnlyComplete(pods: Pods, switches: set<string>, ports: Ports, namespace: string, name: string, calls: Calls)
    requires Fits(pods, namespace, name, calls)
    ensures var (pods', ports', again) := Reconciled(pods, switches, ports, namespace, name, calls);
      && pods'.Keys == pods.Keys
      && (forall k :: k in pods && (k != (namespace, name) || pods[k].annotation.Some?) ==> pods'[k] == pods[k])
      && (pods' != pods ==>
            && !again
            && var names := PortNames(Pod(namespace, name, false, false), Interfaces(pods[(namespace, name)]).value);
               names.Some? && names.value <= ports'.Keys)
  {
    if !calls.getFails && (namespace, name) in pods && WantsPorts(pods[(namespace, name)]) {
      Attempt(switches, Pod(namespace, name, false, false), ports, Interfaces(pods[(namespace, name)]).value, calls.outcomes);
    }
  }

  // ----- What a reconcile achieves -----

  /** A pod that is gone: with the controller there and the ports listed, exactly its tagged ports go
      whose deletion works, and the request is done; so if all works none is left that begins
      with its name. */
  lemma GoneReconcile(pods: Pods, switches: set<string>, ports: Ports, namespace: string, name: string, calls: Calls)
    requires (namespace, name) !in pods && Fits(pods, namespace, name, calls)
    ensures var (pods', ports', again) := Reconciled(pods, switches, ports, namespace, name, calls);
      var reached, own := !calls.getFails && !calls.noController && !calls.listFails, namespace + "_" + name;
      && pods' == pods && (again <==> calls.getFails)
      && ports'.Keys <= ports.Keys
      && (forall p :: p in ports ==>
            (p in ports' <==> !(reached && ports[p].pod && Contains(p, own) && p !in calls.failing))
            && (p in ports' ==> ports'[p] == ports[p]))
      && (reached && calls.failing == {} ==> NoneLeft(ports', (namespace, name)))
  {
    var own, ports' := namespace + "_" + name, Reconciled(pods, switches, ports, namespace, name, calls).1;
    forall p | p in ports' && HasPrefix(p, own) ensures Contains(p, own) {
      assert p == own + p[|own|..];
      ContainsPrefix(own, p[|own|..]);
    }
  }

  /** No tagged port begins with the pod's name in OVN. */
  predicate NoneLeft(ports: Ports, key: Key) {
    forall p :: p in ports && ports[p].pod ==> !HasPrefix(p, key.0 + "_" + key.1)
  }

  /** A stored pod: nothing happens to one without names, on the host network or already answered, of
      another network type, or without a controller; one that is not placed yet comes back; and
      otherwise the ports, the answer and its patch are those of its own list, the request
      coming back exactly when there is no answer. */
  lemma StoredReconcile(pods: Pods, switches: set<string>, ports: Ports, namespace: string, name: string, calls: Calls)
    requires (namespace, name) in pods && Fits(pods, namespace, name, calls) && !calls.getFails
    ensures var r, p := Reconciled(pods, switches, ports, namespace, name, calls), pods[(namespace, name)];
      if namespace == "" || name == "" || p.hostNetwork then r == (pods, ports, false)
      else if p.nodeName == "" then r == (pods, ports, true)
      else if p.annotation.Some? || (p.nfn.Readable? && p.nfn.kind != "ovn4nfv") || calls.noController then
        r == (pods, ports, false)
      else
        var (ports', answer) := PodAnnotation.Answer(switches, Pod(namespace, name, false, false), ports,
                                                     if p.nfn.Readable? then p.nfn.nets else [], calls.outcomes);
        r == (if answer.Some? && !calls.patchFails
              then pods[(namespace, name) := PodObject(p.hostNetwork, p.nodeName, p.nfn, answer)] else pods,
              ports', answer.None?)
  {
    var p := pods[(namespace, name)];
    if WantsPorts(p) {
      PodAnnotation.AttemptExactly(switches, Pod(namespace, name, false, false), ports, Interfaces(p).value, calls.outcomes);
    }
  }

  // ----- The controller's queue -----

  // excused holds the pods whose last reconcile failed to patch, or came without an OVN
  // controller, or found a network type that is not served.
  datatype State = State(pods: Pods, ports: Ports, queue: set<Key>, excused: set<Key>)

  datatype Event =
    | Create(key: Key, pod: PodObject)
    | Update(key: Key, pod: PodObject)
    | Delete(key: Key)
    | Reconcile(key: Key, switches: set<string>, calls: Calls)

  /** The filter on update events: the pod asks for networks and has no answer yet. */
  predicate UpdatePasses(p: PodObject) {
    !p.nfn.Absent? && p.annotation.None?
  }

  /** New pods have no answer; updates leave the answer alone, and whether the pod is on the
      host network never changes. Only a queued request is reconciled. */
  predicate Allowed(s: State, e: Event) {
    match e
    case Create(key, pod) => key !in s.pods && pod.annotation.None?
    case Update(key, pod) =>
      key in s.pods && pod.annotation == s.pods[key].annotation && pod.hostNetwork == s.pods[key].hostNetwork
    case Delete(key) => key in s.pods
    case Reconcile(key, switches, calls) => key in s.queue && Fits(s.pods, key.0, key.1, calls)
  }

  predicate Excuse(s: State, key: Key, calls: Calls) {
    calls.noController || calls.patchFails || (key in s.pods && Interfaces(s.pods[key]).None?)
  }

  function Step(s: State, e: Event): State
    requires Allowed(s, e)
  {
    match e
    case Create(key, pod) =>
      s.(pods := s.pods[key := pod], queue := s.queue + {key}, excused := s.excused - {key})
    case Update(key, pod) =>
      s.(pods := s.pods[key := pod], queue := if UpdatePasses(pod) then s.queue + {key} else s.queue)
    case Delete(key) => s.(pods := s.pods - {key}, queue := s.queue + {key})
    case Reconcile(key, switches, calls) =>
      var (pods, ports, again) := Reconciled(s.pods, switches, s.ports, key.0, key.1, calls);
      State(pods, ports, if again then s.queue else s.queue - {key},
            if Excuse(s, key, calls) then s.excused + {key} else s.excused - {key})
  }

  ghost predicate Execution(states: seq<State>, events: seq<Event>) {
    && |states| == |events| + 1
    && (forall i :: 0 <= i < |events| ==> Allowed(states[i], events[i]) && states[i + 1] == Step(states[i], events[i]))
  }

  /** The pod has no answer, and is not one that never gets any. */
  predicate Waiting(s: State, key: Key) {
    && key in s.pods && key.0 != "" && key.1 != "" && !s.pods[key].hostNetwork
    && s.pods[key].annotation.None?
  }

  ghost predicate NoneForgotten(s: State) {
    forall key :: Waiting(s, key) ==> key in s.queue || key in s.excused
  }

  lemma StepForgetsNone(s: State, e: Event)
    requires Allowed(s, e) && NoneForgotten(s)
    ensures NoneForgotten(Step(s, e))
  {
    var s' := Step(s, e);
    forall key | Waiting(s', key) ensures key in s'.queue || key in s'.excused {
      if e.Reconcile? {
        AnnotatedOnlyComplete(s.pods, e.switches, s.ports, e.key.0, e.key.1, e.calls);
        assert Waiting(s, key);
      }
    }
  }

  /** In every run of pod events and reconciles, with calls failing anywhere, a pod without an
      answer is queued, unless its last reconcile ended for one of the three reasons that are
      not retried. */
  lemma {:induction false} NeverForgotten(states: seq<State>, events: seq<Event>)
    requires Execution(states, events) && NoneForgotten(states[0])
    ensures NoneForgotten(states[|events|])
    decreases |events|
  {
    if events != [] {
      var n := |events| - 1;
      NeverForgotten(states[..n + 1], events[..n]);
      StepForgetsNone(states[n], events[n]);
    }
  }

  /** Neither answered nor queued. */
  predicate Dropped(s: State, key: Key) {
    Waiting(s, key) && key !in s.queue
  }

  /** Whether the one port of a pod without an interface list can be added. */
  predicate DefaultPortWorks(switches: set<string>, ports: Ports, key: Key, o: PortOutcome) {
    var base := key.0 + "_" + key.1;
    o.Yields? && DEFAULT_NW in switches && (base in ports ==> ports[base].switch == DEFAULT_NW)
  }

  /** After a reconcile of a placed, unanswered pod and an update of it that leaves its network
      annotation alone, the pod is neither answered nor queued exactly when it has no network
      annotation at all and the reconcile had no OVN controller, or added the port and then
      failed to patch. */
  lemma DroppedExactly(s: State, key: Key, switches: set<string>, calls: Calls, pod: PodObject)
    requires Allowed(s, Reconcile(key, switches, calls)) && !calls.getFails
    requires Waiting(s, key) && s.pods[key].nodeName != ""
    requires var s' := Step(s, Reconcile(key, switches, calls));
      Allowed(s', Update(key, pod)) && pod.nfn == s.pods[key].nfn
    ensures var s'' := Step(Step(s, Reconcile(key, switches, calls)), Update(key, pod));
      Dropped(s'', key) <==>
        && s.pods[key].nfn.Absent?
        && (calls.noController || (calls.patchFails && DefaultPortWorks(switches, s.ports, key, calls.outcomes[0])))
  {
  }

  /** What an event must be for the pod to stay as it is: neither a new pod of that name nor an
      update that gives it a network annotation. */
  predicate LeavesUnasked(e: Event, key: Key) {
    match e
    case Create(k, _) => k != key
    case Update(k, pod) => k == key ==> pod.nfn.Absent?
    case Delete(k) => k != key
    case Reconcile(_, _, _) => true
  }

  /** A pod dropped in this way has no answer and no request in any run after that, until it
      is deleted or given a network annotation. */
  lemma {:induction false} StaysDropped(states: seq<State>, events: seq<Event>, key: Key)
    requires Execution(states, events) && forall i :: 0 <= i < |events| ==> LeavesUnasked(events[i], key)
    requires Dropped(states[0], key) && states[0].pods[key].nfn.Absent?
    ensures var s := states[|events|];
      Dropped(s, key) && s.pods[key].nfn.Absent?
    decreases |events|
  {
    if events != [] {
      var n := |events| - 1;
      StaysDropped(states[..n + 1], events[..n], key);
      assert LeavesUnasked(events[n], key);
      if events[n].Reconcile? {
        var e := events[n];
        AnnotatedOnlyComplete(states[n].pods, e.switches, states[n].ports, e.key.0, e.key.1, e.calls);
      }
    }
  }

  /** Hence a reconcile and an update of the pod leave it without answer or request for good,
      whatever else happens, under exactly that condition. */
  lemma DroppedForGood(s: State, key: Key, switches: set<string>, calls: Calls, pod: PodObject)
    requires Allowed(s, Reconcile(key, switches, calls)) && !calls.getFails
    requires Waiting(s, key) && s.pods[key].nodeName != ""
    requires var s' := Step(s, Reconcile(key, switches, calls));
      Allowed(s', Update(key, pod)) && pod.nfn == s.pods[key].nfn
    ensures var s'' := Step(Step(s, Reconcile(key, switches, calls)), Update(key, pod));
      (forall states: seq<State>, events: seq<Event> ::
         Execution(states, events) && states[0] == s'' && (forall i :: 0 <= i < |events| ==> LeavesUnasked(events[i], key))
         ==> Dropped(states[|events|], key)) <==>
        && s.pods[key].nfn.Absent?
        && (calls.noController || (calls.patchFails && DefaultPortWorks(switches, s.ports, key, calls.outcomes[0])))
  {
    var s'' := Step(Step(s, Reconcile(key, switches, calls)), Update(key, pod));
    DroppedExactly(s, key, switches, calls, pod);
    if Dropped(s'', key) {
      forall states: seq<State>, events: seq<Event>
        | Execution(states, events) && states[0] == s'' && (forall i :: 0 <= i < |events| ==> LeavesUnasked(events[i], key))
        ensures Dropped(states[|events|], key)
      {
        StaysDropped(states, events, key);
      }
    } else {
      assert Execution([s''], []) && !Dropped([s''][0], key);
    }
  }

  // ----- Deleted pods -----

  /** A reconcile of the pod from which on none of its ports is left. */
  ghost predicate CleansUp(states: seq<State>, events: seq<Event>, j: nat, key: Key)
    requires |states| == |events| + 1 && j < |events|
  {
    events[j].Reconcile? && events[j].key == key && NoneLeft(states[j + 1].ports, key)
  }

  /** A deleted pod that is not created anew: its request is queued until a reconcile has come to it, and
      with the controller, the listing and the deletions working then, none of its ports is left
      after that. */
  lemma {:induction false} DeletedPodCleaned(states: seq<State>, events: seq<Event>, key: Key)
    requires Execution(states, events) && events != [] && events[0] == Event.Delete(key)
    requires forall i :: 0 <= i < |events| ==> !(events[i].Create? && events[i].key == key)
    requires forall i :: 0 <= i < |events| && events[i].Reconcile? && events[i].key == key ==>
      !events[i].calls.noController && !events[i].calls.listFails && events[i].calls.failing == {}
    ensures key !in states[|events|].pods
    ensures key in states[|events|].queue || exists j :: 0 < j < |events| && CleansUp(states, events, j, key)
    decreases |events|
  {
    var n := |events| - 1;
    if n > 0 {
      var before, earlier := states[..n + 1], events[..n];
      DeletedPodCleaned(before, earlier, key);
      if j :| 0 < j < n && CleansUp(before, earlier, j, key) {
        assert CleansUp(states, events, j, key);
      }
      if events[n].Reconcile? {
        var s, e := states[n], events[n];
        AnnotatedOnlyComplete(s.pods, e.switches, s.ports, e.key.0, e.key.1, e.calls);
        if e.key == key {
          GoneReconcile(s.pods, e.switches, s.ports, key.0, key.1, e.calls);
          assert !e.calls.getFails ==> CleansUp(states, events, n, key);
        }
      }
    }
  }
}
