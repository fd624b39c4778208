/** The Network reconciler as a state machine, with users and other controllers acting between
    any two of its calls (pkg/controller/network/network_controller.go). */
module NetworkController {
  import opened Wrappers
  import Finalizers

  const FINALIZER := "nfnCleanUpNetwork"

  // The stored Network; supported tells whether its (immutable) CNI type is ovn4nfv.
  datatype Object = Object(
    uid: nat, version: nat, finalizers: seq<string>, deleting: bool, supported: bool, status: string)

  // Where a reconcile stands, with the instance it holds; base is the instance as it was read.
  datatype Pc =
    | Idle
    | AddFinalizer(base: Object)
    | Create(inst: Object)
    | UpdateStatus(inst: Object)
    | Delete(inst: Object)
    | DeleteStatus(inst: Object)
    | RemoveFinalizer(inst: Object)

  // switch tells whether OVN has the network's switch, and orphaned whether an OVN delete for it
  // failed and no delete has worked and no create has run since.
  datatype State = State(store: Option<Object>, next: nat, switch: bool, orphaned: bool, pc: Pc)

  datatype OvnDelete = Deleted | NoController | Failed(gone: bool)

  // How the calls of a reconcile go. createMakes: the switch is there after the create calls,
  // whether or not one of them fails; created: they all worked or the switch was there before.
  datatype Calls = Calls(getFails: bool, addFails: bool, noController: bool, createMakes: bool, created: bool,
                         statusFails: bool, ovn: OvnDelete, deleteStatusFails: bool, removeFails: bool)

  // ----- The API server -----

  predicate Current(s: State, o: Object) {
    s.store.Some? && s.store.value.uid == o.uid && s.store.value.version == o.version
  }

  /** Storing an object; one that is being deleted goes with its last finalizer. */
  function Stored(s: State, o: Object): State {
    if o.deleting && o.finalizers == [] then s.(store := None, next := s.next + 1)
    else s.(store := Some(o.(version := s.next)), next := s.next + 1)
  }

  // The status is a subresource: an update of the object leaves it alone, and a status update
  // leaves everything else alone.

  // ----- The reconciler, call by call -----

  /** Get and the decisions before the next call. */
  function GetStep(s: State, calls: Calls): State {
    if calls.getFails || s.store.None? then s.(pc := Idle)
    else
      var o := s.store.value;
      s.(pc := if o.deleting then (if FINALIZER in o.finalizers then Delete(o) else Idle)
               else if FINALIZER in o.finalizers then Create(o) else AddFinalizer(o))
  }

  function AddFinalizerStep(s: State, o: Object, calls: Calls): State {
    if calls.addFails || !Current(s, o) then s.(pc := Idle)
    else
      var o' := o.(finalizers := o.finalizers + [FINALIZER], status := s.store.value.status);
      Stored(s, o').(pc := Create(o'.(version := s.next)))
  }

  function CreateStep(s: State, o: Object, calls: Calls): State {
    if !o.supported || calls.noController then s.(pc := Idle)
    else s.(switch := s.switch || calls.createMakes, orphaned := false,
            pc := UpdateStatus(o.(status := if calls.created then "created" else "createInternalError")))
  }

  function UpdateStatusStep(s: State, o: Object, calls: Calls): State {
    if calls.statusFails || !Current(s, o) then s.(pc := Idle)
    else Stored(s, s.store.value.(status := o.status)).(pc := Idle)
  }

  function DeleteStep(s: State, o: Object, calls: Calls): State {
    if !o.supported then s.(pc := RemoveFinalizer(o))
    else match calls.ovn
      case Deleted => s.(switch := false, orphaned := false, pc := RemoveFinalizer(o))
      case NoController => s.(orphaned := true, pc := RemoveFinalizer(o))
      case Failed(gone) => s.(switch := s.switch && !gone, orphaned := true,
                              pc := DeleteStatus(o.(status := "deleteInternalError")))
  }

  function DeleteStatusStep(s: State, o: Object, calls: Calls): State {
    if calls.deleteStatusFails || !Current(s, o) then s.(pc := RemoveFinalizer(o))
    else Stored(s, s.store.value.(status := o.status)).(pc := RemoveFinalizer(o.(version := s.next)))
  }

  /** The last call of a deletion; createNetwork then sees the deletion mark and does nothing. */
  function RemoveFinalizerStep(s: State, o: Object, calls: Calls): State {
    if calls.removeFails || !Current(s, o) then s.(pc := Idle)
    else Stored(s, o.(finalizers := Finalizers.Removed(o.finalizers, FINALIZER),
                      status := s.store.value.status)).(pc := Idle)
  }

  function ControllerStep(s: State, calls: Calls): State {
    match s.pc
    case Idle => GetStep(s, calls)
    case AddFinalizer(o) => AddFinalizerStep(s, o, calls)
    case Create(o) => CreateStep(s, o, calls)
    case UpdateStatus(o) => UpdateStatusStep(s, o, calls)
    case Delete(o) => DeleteStep(s, o, calls)
    case DeleteStatus(o) => DeleteStatusStep(s, o, calls)
    case RemoveFinalizer(o) => RemoveFinalizerStep(s, o, calls)
  }

  // ----- Everybody else -----

  datatype Action =
    | UserCreate(finalizers: seq<string>, supported: bool)
    | UserDelete
    | UserUpdate
    | OtherFinalizers(finalizers: seq<string>) // other controllers at work on their own finalizers
    | Crash // of the operator, at any point
    | Controller(calls: Calls)

  predicate Allowed(s: State, a: Action) {
    match a
    case UserCreate(finalizers, _) => s.store.None? && FINALIZER !in finalizers
    case OtherFinalizers(finalizers) =>
      s.store.Some? && (FINALIZER in finalizers <==> FINALIZER in s.store.value.finalizers)
    case _ => true
  }

  function Step(s: State, a: Action): State
    requires Allowed(s, a)
  {
    match a
    case UserCreate(finalizers, supported) =>
      s.(store := Some(Object(s.next, s.next, finalizers, false, supported, "")), next := s.next + 1)
    case UserDelete =>
      if s.store.None? || s.store.value.deleting then s else Stored(s, s.store.value.(deleting := true))
    case UserUpdate => if s.store.None? then s else Stored(s, s.store.value)
    case OtherFinalizers(finalizers) => Stored(s, s.store.value.(finalizers := finalizers))
    case Crash => s.(pc := Idle)
    case Controller(calls) => ControllerStep(s, calls)
  }

  function Init(next: nat): State {
    State(None, next, false, false, Idle)
  }

  ghost predicate Execution(states: seq<State>, actions: seq<Action>) {
    && |states| == |actions| + 1
    && (forall i :: 0 <= i < |actions| ==> Allowed(states[i], actions[i]) && states[i + 1] == Step(states[i], actions[i]))
  }

  // ----- Safety -----

  /** A switch exists only while the stored object carries the finalizer, unless its OVN delete failed. */
  predicate NoOrphan(s: State) {
    s.switch && !s.orphaned ==>
      s.store.Some? && FINALIZER in s.store.value.finalizers && s.store.value.supported
  }

  /** The held instance is the stored object unless that has been written since. */
  predicate UpToDate(s: State, o: Object) {
    Current(s, o) ==>
      && s.store.value.finalizers == o.finalizers
      && s.store.value.deleting == o.deleting && s.store.value.supported == o.supported
  }

  predicate PcSound(s: State) {
    match s.pc
    case AddFinalizer(o) => !o.deleting && FINALIZER !in o.finalizers && o.version < s.next && UpToDate(s, o)
    case Create(o) =>
      && !o.deleting && o.version < s.next
      && s.store.Some? && s.store.value.uid == o.uid
      && FINALIZER in s.store.value.finalizers && s.store.value.supported == o.supported
    case Delete(o) => o.deleting && o.version < s.next && UpToDate(s, o) && SameIdentity(s, o)
    case DeleteStatus(o) => o.deleting && o.version < s.next && UpToDate(s, o) && (s.switch ==> s.orphaned)
    case RemoveFinalizer(o) => o.deleting && o.version < s.next && UpToDate(s, o) && (s.switch ==> s.orphaned)
    case _ => true
  }

  /** The object a deletion works for is still the stored one: only the reconciler takes its finalizer. */
  predicate SameIdentity(s: State, o: Object) {
    s.store.Some? && s.store.value.uid == o.uid && s.store.value.supported == o.supported
    && FINALIZER in s.store.value.finalizers
  }

  predicate Inv(s: State) {
    && NoOrphan(s) && PcSound(s)
    && (s.store.Some? ==> s.store.value.version < s.next && s.store.value.uid < s.next)
  }

  lemma StepKeepsInv(s: State, a: Action)
    requires Inv(s) && Allowed(s, a)
    ensures Inv(Step(s, a))
  {
    match a {
      case Controller(calls) => ControllerKeepsInv(s, calls);
      case _ =>
    }
  }

  lemma ControllerKeepsInv(s: State, calls: Calls)
    requires Inv(s)
    ensures Inv(ControllerStep(s, calls))
  {
    match s.pc {
      case Idle => GetKeepsInv(s, calls);
      case AddFinalizer(o) => WriteKeepsInv(s, calls);
      case UpdateStatus(o) => WriteKeepsInv(s, calls);
      case DeleteStatus(o) => WriteKeepsInv(s, calls);
      case RemoveFinalizer(o) => WriteKeepsInv(s, calls);
      case Create(o) => OvnKeepsInv(s, calls);
      case Delete(o) => OvnKeepsInv(s, calls);
    }
  }

  lemma GetKeepsInv(s: State, calls: Calls)
    requires Inv(s) && s.pc.Idle?
    ensures Inv(ControllerStep(s, calls))
  {
  }

  lemma WriteKeepsInv(s: State, calls: Calls)
    requires Inv(s) && (s.pc.AddFinalizer? || s.pc.UpdateStatus? || s.pc.DeleteStatus? || s.pc.RemoveFinalizer?)
    ensures Inv(ControllerStep(s, calls))
  {
  }

  lemma OvnKeepsInv(s: State, calls: Calls)
    requires Inv(s) && (s.pc.Create? || s.pc.Delete?)
    ensures Inv(ControllerStep(s, calls))
  {
  }

  /** In every run of reconciles, with calls failing anywhere, users and other controllers acting
      between any two calls, and the operator crashing at any point, a switch exists only while
      the stored object carries the finalizer, except after an OVN delete that failed and until
      the network is next created or deleted in OVN. */
  lemma {:induction false} NoOrphanSwitch(states: seq<State>, actions: seq<Action>, next: nat)
    requires Execution(states, actions) && states[0] == Init(next)
    ensures Inv(states[|actions|]) && NoOrphan(states[|actions|])
    decreases |actions|
  {
    if actions != [] {
      var n := |actions| - 1;
      NoOrphanSwitch(states[..n + 1], actions[..n], next);
      StepKeepsInv(states[n], actions[n]);
    }
  }

  /** A reconcile stands before its create calls, for a network that ovn4nfv serves. */
  predicate AboutToCreate(s: State) {
    s.pc.Create? && s.pc.inst.supported
  }

  predicate Marked(s: State, uid: nat) {
    s.store.Some? && s.store.value.uid == uid && s.store.value.deleting
  }

  lemma MarkedStep(s: State, a: Action, uid: nat)
    requires Inv(s) && Allowed(s, a) && Marked(s, uid) && !AboutToCreate(s)
    ensures Step(s, a).switch ==> s.switch
    ensures Step(s, a).store.Some? && Step(s, a).store.value.uid == uid ==>
              Marked(Step(s, a), uid) && !AboutToCreate(Step(s, a))
  {
  }

  /** A run during which the object with this uid is stored all the time. */
  ghost predicate StoredRun(states: seq<State>, actions: seq<Action>, uid: nat) {
    Execution(states, actions) && forall i :: 0 <= i < |states| ==> states[i].store.Some? && states[i].store.value.uid == uid
  }

  /** Once an object is marked for deletion and no reconcile is about to create, its switch is
      never created again, for as long as the object is stored. */
  lemma {:induction false} MarkedNeverCreated(states: seq<State>, actions: seq<Action>, uid: nat)
    requires StoredRun(states, actions, uid) && Inv(states[0]) && Marked(states[0], uid) && !AboutToCreate(states[0])
    ensures Inv(states[|actions|]) && Marked(states[|actions|], uid) && !AboutToCreate(states[|actions|])
    ensures states[|actions|].switch ==> states[0].switch
    decreases |actions|
  {
    if actions != [] {
      var n := |actions| - 1;
      MarkedNeverCreated(states[..n + 1], actions[..n], uid);
      StepKeepsInv(states[n], actions[n]);
      MarkedStep(states[n], actions[n], uid);
    }
  }

  /** A run can bring up the switch of a marked object iff, when it starts, a reconcile from before
      the mark is about to create it. */
  lemma MarkedCreatedExactly(s: State, uid: nat)
    requires Inv(s) && Marked(s, uid) && !s.switch
    ensures (exists states: seq<State>, actions: seq<Action> ::
               StoredRun(states, actions, uid) && states[0] == s && states[|actions|].switch) <==> AboutToCreate(s)
  {
    if AboutToCreate(s) {
      var calls := Calls(false, false, false, true, true, false, Deleted, false, false);
      var states, actions := [s, Step(s, Controller(calls))], [Controller(calls)];
      assert StoredRun(states, actions, uid) && states[|actions|].switch;
    }
    forall states: seq<State>, actions: seq<Action> | StoredRun(states, actions, uid) && states[0] == s && states[|actions|].switch
      ensures AboutToCreate(s)
    {
      if !AboutToCreate(s) {
        MarkedNeverCreated(states, actions, uid);
      }
    }
  }

  // ----- One reconcile without interruption -----

  function Continued(s: State, calls: Calls): State {
    if s.pc.Idle? then s else ControllerStep(s, calls)
  }

  /** Get and then at most three more calls. */
  function Reconciled(s: State, calls: Calls): State {
    Continued(Continued(Continued(GetStep(s, calls), calls), calls), calls)
  }

  /** How many calls a reconcile may still make. */
  function Remaining(pc: Pc): nat {
    match pc
    case Idle => 0
    case AddFinalizer(_) => 3
    case Create(_) => 2
    case UpdateStatus(_) => 1
    case Delete(_) => 3
    case DeleteStatus(_) => 2
    case RemoveFinalizer(_) => 1
  }

  lemma ContinuedKeepsInv(s: State, calls: Calls)
    requires Inv(s)
    ensures Inv(Continued(s, calls))
    ensures s.pc.Idle? || Remaining(Continued(s, calls).pc) < Remaining(s.pc)
  {
    ControllerKeepsInv(s, calls);
  }

  lemma ReconciledKeepsInv(s: State, calls: Calls)
    requires Inv(s)
    ensures Inv(Reconciled(s, calls)) && Reconciled(s, calls).pc.Idle?
  {
    var s0 := s.(pc := Idle);
    ControllerKeepsInv(s0, calls);
    var s1 := GetStep(s, calls);
    assert s1 == ControllerStep(s0, calls);
    ContinuedKeepsInv(s1, calls);
    var s2 := Continued(s1, calls);
    ContinuedKeepsInv(s2, calls);
    ContinuedKeepsInv(Continued(s2, calls), calls);
  }

  /** A deletion up to its last call: the OVN delete, and the status if that failed. */
  function OvnDeletion(s: State, o: Object, calls: Calls): (d: State)
    ensures d.pc.RemoveFinalizer?
  {
    var d := DeleteStep(s, o, calls);
    if d.pc.DeleteStatus? then DeleteStatusStep(d, d.pc.inst, calls) else d
  }

  function DeletionRun(s: State, o: Object, calls: Calls): State {
    var d := OvnDeletion(s, o, calls);
    RemoveFinalizerStep(d, d.pc.inst, calls)
  }

  /** A creation: the create and its status. */
  function CreationRun(s: State, o: Object, calls: Calls): State {
    var c := CreateStep(s, o, calls);
    if c.pc.UpdateStatus? then UpdateStatusStep(c, c.pc.inst, calls) else c
  }

  lemma ReconciledDeletes(s: State, calls: Calls)
    requires !calls.getFails && s.store.Some? && s.store.value.deleting && FINALIZER in s.store.value.finalizers
    ensures Reconciled(s, calls) == DeletionRun(s, s.store.value, calls)
  {
    var s1 := GetStep(s, calls);
    var s2 := Continued(s1, calls);
    assert s2 == DeleteStep(s, s.store.value, calls);
    assert (if s2.pc.DeleteStatus? then Continued(s2, calls) else s2) == OvnDeletion(s, s.store.value, calls);
  }

  lemma ReconciledAdds(s: State, calls: Calls)
    requires !calls.getFails && s.store.Some? && !s.store.value.deleting && FINALIZER !in s.store.value.finalizers
    ensures var a := AddFinalizerStep(s, s.store.value, calls);
      Reconciled(s, calls) == if a.pc.Create? then CreationRun(a, a.pc.inst, calls) else a
  {
    assert Continued(GetStep(s, calls), calls) == AddFinalizerStep(s, s.store.value, calls);
  }

  lemma ReconciledRuns(s: State, calls: Calls)
    requires !calls.getFails && s.store.Some?
    ensures var o := s.store.value;
      if o.deleting then
        if FINALIZER in o.finalizers then Reconciled(s, calls) == DeletionRun(s, o, calls)
        else Reconciled(s, calls) == s.(pc := Idle)
      else if FINALIZER in o.finalizers then Reconciled(s, calls) == CreationRun(s, o, calls)
      else
        var a := AddFinalizerStep(s, o, calls);
        Reconciled(s, calls) == if a.pc.Create? then CreationRun(a, a.pc.inst, calls) else a
  {
    var o := s.store.value;
    if o.deleting && FINALIZER in o.finalizers {
      ReconciledDeletes(s, calls);
    } else if !o.deleting && FINALIZER !in o.finalizers {
      ReconciledAdds(s, calls);
    }
  }

  class ReconcileNetwork {
    var store: Option<Object>
    var next: nat
    var switch: bool
    ghost var orphaned: bool

    constructor (next: nat)
      ensures Snap() == Init(next)
    {
      store, this.next, switch, orphaned := None, next, false, false;
    }

    ghost function Snap(): State
      reads this
    {
      State(store, next, switch, orphaned, Idle)
    }

    /** client.Update: refused when the object was written or replaced since. */
    method Update(o: Object, fails: bool) returns (r: Option<Object>)
      modifies this`store, this`next
      ensures r.None? <==> fails || !Current(old(Snap()), o)
      ensures r.None? ==> Snap() == old(Snap())
      ensures r.Some? ==>
        var written := o.(status := old(store).value.status);
        Snap() == Stored(old(Snap()), written) && r.value == written.(version := old(next))
    {
      if fails || store.None? || store.value.uid != o.uid || store.value.version != o.version {
        return None;
      }
      r := Some(o.(version := next, status := store.value.status));
      store := if o.deleting && o.finalizers == [] then None else r;
      next := next + 1;
    }

    /** Status().Update: refused in the same cases. */
    method UpdateStatus(o: Object, fails: bool) returns (r: Option<Object>)
      modifies this`store, this`next
      ensures r.None? <==> fails || !Current(old(Snap()), o)
      ensures r.None? ==> Snap() == old(Snap())
      ensures r.Some? ==>
        var written := old(store).value.(status := o.status);
        Snap() == Stored(old(Snap()), written) && r.value == written.(version := old(next))
    {
      if fails || store.None? || store.value.uid != o.uid || store.value.version != o.version {
        return None;
      }
      r := Some(store.value.(version := next, status := o.status));
      store := if store.value.deleting && store.value.finalizers == [] then None else r;
      next := next + 1;
    }

    /** createNetwork: the OVN calls and the report of how they went; nothing for a marked object. */
    method CreateNetwork(o: Object, calls: Calls) returns (failed: bool)
      requires !o.deleting ==> Current(Snap(), o) && store.value == o
      modifies this
      ensures Snap() == if o.deleting then old(Snap()) else CreationRun(old(Snap()), o, calls)
      ensures failed <==> !o.deleting && (!o.supported || calls.noController || calls.statusFails)
    {
      if o.deleting {
        return false;
      }
      if !o.supported || calls.noController {
        return true;
      }
      switch, orphaned := switch || calls.createMakes, false;
      var r := UpdateStatus(o.(status := if calls.created then "created" else "createInternalError"), calls.statusFails);
      return r.None?;
    }

    method DeleteNetwork(o: Object, calls: Calls) returns (inst: Object)
      requires Current(Snap(), o) && store.value == o
      modifies this
      ensures Snap().(pc := RemoveFinalizer(inst)) == OvnDeletion(old(Snap()), o, calls)
    {
      if !o.supported {
        return o;
      }
      match calls.ovn {
        case Deleted =>
          switch, orphaned := false, false;
          return o;
        case NoController =>
          orphaned := true;
          return o;
        case Failed(gone) =>
          switch, orphaned := switch && !gone, true;
          inst := o.(status := "deleteInternalError");
          var r := UpdateStatus(inst, calls.deleteStatusFails);
          if r.Some? {
            inst := r.value;
          }
      }
    }

    /** reconcileFinalizers; inst is the instance that createNetwork goes on with, unless a write failed. */
    method ReconcileFinalizers(o: Object, calls: Calls) returns (inst: Option<Object>)
      requires Current(Snap(), o) && store.value == o
      modifies this
      ensures inst.None? <==> if o.deleting then FINALIZER in o.finalizers && calls.removeFails
                              else FINALIZER !in o.finalizers && calls.addFails
      ensures o.deleting && FINALIZER in o.finalizers ==>
        Snap() == DeletionRun(old(Snap()), o, calls) && (inst.Some? ==> inst.value.deleting)
      ensures !o.deleting && FINALIZER !in o.finalizers ==>
        var a := AddFinalizerStep(old(Snap()), o, calls);
        Snap() == a.(pc := Idle) && (inst.Some? ==> a.pc == Create(inst.value) && store == inst)
      ensures o.deleting == (FINALIZER !in o.finalizers) ==> Snap() == old(Snap()) && inst == Some(o)
    {
      var found := Finalizers.Contains(o.finalizers, FINALIZER);
      if o.deleting {
        if found {
          var instance := DeleteNetwork(o, calls);
          var remaining := Finalizers.Remove(instance.finalizers, FINALIZER);
          inst := Update(instance.(finalizers := remaining), calls.removeFails);
          return;
        }
      } else if !found {
        inst := Update(o.(finalizers := o.finalizers + [FINALIZER]), calls.addFails);
        return;
      }
      return Some(o);
    }

    /** Reconcile with nobody acting in between is a run of the state machine; again tells whether it
        returns an error, which brings the request back. */
    method Reconcile(calls: Calls) returns (again: bool)
      modifies this
      ensures Snap() == Reconciled(old(Snap()), calls)
      ensures again <==>
        || calls.getFails
        || (old(store).Some? && old(store).value.deleting && FINALIZER in old(store).value.finalizers && calls.removeFails)
        || (old(store).Some? && !old(store).value.deleting
            && ((FINALIZER !in old(store).value.finalizers && calls.addFails)
                || calls.noController || !old(store).value.supported || calls.statusFails))
    {
      if calls.getFails || store.None? {
        return calls.getFails;
      }
      ReconciledRuns(Snap(), calls);
      var instance := ReconcileFinalizers(store.value, calls);
      if instance.None? {
        return true;
      }
      again := CreateNetwork(instance.value, calls);
    }
  }

  // ----- What a reconcile achieves -----

  /** Nothing to do, or nothing that can be done. */
  lemma ReconcileLeaves(s: State, calls: Calls)
    requires
      || calls.getFails || s.store.None?
      || (s.store.value.deleting && FINALIZER !in s.store.value.finalizers)
      || (!s.store.value.deleting && FINALIZER !in s.store.value.finalizers && calls.addFails)
    ensures Reconciled(s, calls) == s.(pc := Idle)
  {
  }

  /** Whether OVN still has the switch after the delete of a reconcile. */
  predicate SwitchLeft(s: State, o: Object, calls: Calls) {
    s.switch && (!o.supported || calls.ovn == NoController || calls.ovn == Failed(false))
  }

  lemma OvnDeletionState(s: State, o: Object, calls: Calls)
    requires s.store == Some(o) && o.finalizers != []
    ensures var d := OvnDeletion(s, o, calls);
      && (d.switch <==> SwitchLeft(s, o, calls)) && (d.orphaned <==> Orphans(s, o, calls))
      && d.store.Some? && d.pc.inst.version == d.store.value.version
      && d.store.value == o.(version := d.store.value.version, status := DeletionStatus(o, calls))
      && d.pc.inst.(status := "") == d.store.value.(status := "")
  {
  }

  /** A deletion's status is written only when OVN refused. */
  function DeletionStatus(o: Object, calls: Calls): string {
    if o.supported && calls.ovn.Failed? && !calls.deleteStatusFails then "deleteInternalError" else o.status
  }

  /** Whether the network's last OVN delete counts as failed after the delete of a reconcile. */
  predicate Orphans(s: State, o: Object, calls: Calls) {
    if o.supported then calls.ovn != Deleted else s.orphaned
  }

  /** A marked object with the finalizer, and others before and after it: unless the last write
      fails, the finalizer goes whatever happened in OVN, the others stay in their order, and
      with none of them the object itself goes; the switch is gone exactly when OVN deleted it. */
  lemma MarkedReconcile(s: State, calls: Calls, before: seq<string>, after: seq<string>)
    requires !calls.getFails && s.store.Some? && s.store.value.deleting
    requires s.store.value.finalizers == before + [FINALIZER] + after
    requires FINALIZER !in before && FINALIZER !in after
    ensures var o, end := s.store.value, Reconciled(s, calls);
      && (end.switch <==> SwitchLeft(s, o, calls)) && (end.orphaned <==> Orphans(s, o, calls))
      && (!calls.removeFails && before + after == [] ==> end.store == None)
      && (!calls.removeFails && before + after != [] ==>
            end.store.Some? && end.store.value == o.(finalizers := before + after, status := DeletionStatus(o, calls),
                                                     version := end.store.value.version))
      && (calls.removeFails ==>
            end.store.Some? && end.store.value == o.(status := DeletionStatus(o, calls), version := end.store.value.version))
  {
    ReconciledRuns(s, calls);
    OvnDeletionState(s, s.store.value, calls);
    Finalizers.RemovedBetween(before, after, FINALIZER);
  }

  /** An object that is not marked: it has the finalizer afterwards, behind the others if it is new;
      if its type is served, the switch is there when the create makes it, and the status says
      how the create went; if not, nothing else happens. */
  lemma UnmarkedReconcile(s: State, calls: Calls)
    requires !calls.getFails && s.store.Some? && !s.store.value.deleting
    requires FINALIZER in s.store.value.finalizers || !calls.addFails
    ensures var o, end := s.store.value, Reconciled(s, calls);
      var served := o.supported && !calls.noController;
      && end.store.Some? && end.store.value ==
           o.(version := end.store.value.version,
              finalizers := if FINALIZER in o.finalizers then o.finalizers else o.finalizers + [FINALIZER],
              status := if !served || calls.statusFails then o.status
                        else if calls.created then "created" else "createInternalError")
      && (end.switch <==> s.switch || (served && calls.createMakes))
      && (end.orphaned <==> s.orphaned && !served)
  {
    ReconciledRuns(s, calls);
  }

  /** Once an object is marked and no other controller holds on to it, any number of reconciles whose
      last writes fail leave it, and the first whose last write works lets it go. */
  lemma {:induction false} MarkedObjectGoes(s: State, failing: seq<Calls>, last: Calls)
    requires s.store.Some? && s.store.value.deleting && s.store.value.finalizers == [FINALIZER]
    requires forall i :: 0 <= i < |failing| ==> failing[i].getFails || failing[i].removeFails
    requires !last.getFails && !last.removeFails
    ensures var held := AfterReconciles(s, failing);
      && held.store.Some? && held.store.value.deleting && held.store.value.finalizers == [FINALIZER]
      && held.store.value.supported == s.store.value.supported
      && Reconciled(held, last).store == None
      && (s.store.value.supported && last.ovn == Deleted ==> !Reconciled(held, last).switch)
    decreases |failing|
  {
    if failing == [] {
      MarkedReconcile(s, last, [], []);
    } else {
      var n := |failing| - 1;
      MarkedObjectGoes(s, failing[..n], last);
      var held := AfterReconciles(s, failing[..n]);
      if failing[n].getFails {
        ReconcileLeaves(held, failing[n]);
      } else {
        MarkedReconcile(held, failing[n], [], []);
      }
      MarkedReconcile(AfterReconciles(s, failing), last, [], []);
    }
  }

  function AfterReconciles(s: State, list: seq<Calls>): State {
    if list == [] then s else Reconciled(AfterReconciles(s, list[..|list| - 1]), list[|list| - 1])
  }
}
