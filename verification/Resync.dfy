/** The two passes over the stored creates when InSync arrives (cmd/nfn-agent/nfn-agent.go),
    with their guards as they are written and no command failing. */
module Resync {
  import opened Strings
  import opened BridgeMapping
  import opened NodeState
  import opened Notify

  predicate OnlyCreates(store: seq<Notification>) {
    forall i :: 0 <= i < |store| ==> store[i].ProviderNwCreate?
  }

  /** strings.Replace(br, "br-", "", -1). */
  function StripBr(br: string): string {
    RemoveAll(br, "br-")
  }

  predicate IsListed(bridges: Bridges, b: string) {
    b in bridges && bridges[b].nfn != ""
  }

  /** Interface names as the kernel has them, and listed bridges as CreatePnBridge names them
      for networks whose own name does not hold "br-". */
  ghost predicate Tidy(v: View) {
    && (forall x :: x in v.links ==> ValidLinkName(x))
    && (forall b :: IsListed(v.bridges, b) ==> b == BrName(StripBr(b)))
  }

  /** The bridge name of a network is stripped back to the network's name exactly when that
      name does not itself hold "br-"; otherwise a sweep aims at another bridge. */
  lemma StrippedBack(name: string)
    ensures StripBr(BrName(name)) == name <==> !Contains(name, "br-")
  {
    assert BrName(name)[3..] == name;
    assert HasPrefix(BrName(name), "br-");
    RemoveAllIdentity(name, "br-");
  }

  // ----- What the passes do -----

  /** The direct pass keeps a listed bridge for a stored network WITHOUT a direct part. */
  ghost predicate Stays(store: seq<Notification>, b: string)
    requires OnlyCreates(store)
  {
    StaysBelow(store, |store|, b)
  }

  ghost predicate StaysBelow(store: seq<Notification>, n: nat, b: string)
    requires OnlyCreates(store) && n <= |store|
  {
    exists i :: 0 <= i < n && store[i].direct.None? && store[i].name == StripBr(b)
  }

  ghost function Swept(v: View, gone: set<string>): View {
    View(v.links, v.bridges - (set b | b in gone :: BrName(StripBr(b))),
         v.mapping - (set b | b in gone :: NwName(StripBr(b))))
  }

  ghost function AfterDirectPass(v: View, store: seq<Notification>): View
    requires OnlyCreates(store)
  {
    Swept(v, DirectGone(v, store))
  }

  /** The listed bridges that do not stay. */
  ghost function DirectGone(v: View, store: seq<Notification>): set<string>
    requires OnlyCreates(store)
  {
    set b | b in v.bridges && v.bridges[b].nfn != "" && !Stays(store, b)
  }

  ghost predicate AllVlan(store: seq<Notification>)
    requires OnlyCreates(store)
  {
    forall i :: 0 <= i < |store| ==> store[i].vlan.Some?
  }

  /** The VLAN pass gives up at the first stored network WITHOUT a VLAN part; if there is none
      it removes everything the plugin owns. */
  ghost function AfterVlanPass(v: View, store: seq<Notification>): View
    requires OnlyCreates(store)
  {
    if !AllVlan(store) then v
    else
      var swept := Swept(v, set b | b in v.bridges && v.bridges[b].nfn != "");
      View(v.links - (set x | x in v.links && v.links[x].nfn), swept.bridges, swept.mapping)
  }

  ghost function Resynced(v: View, store: seq<Notification>): View
    requires OnlyCreates(store)
  {
    AfterDirectPass(AfterVlanPass(v, store), store)
  }

  lemma VlanPassTidy(v: View, store: seq<Notification>)
    requires OnlyCreates(store) && Tidy(v)
    ensures Tidy(AfterVlanPass(v, store))
  {
    forall b | IsListed(AfterVlanPass(v, store).bridges, b)
      ensures b == BrName(StripBr(b))
    {
      assert IsListed(v.bridges, b);
    }
  }

  // ----- The code -----

  /** The last loop of both passes: delete every listed bridge that was not marked. */
  method Sweep(node: Node, list: seq<string>, marked: set<string>) returns (panicked: bool)
    modifies node`bridges, node.ovs
    ensures panicked <==> Unreadable(old(node.Snap()).mappings) && exists b :: b in list && b !in marked
    ensures !Unreadable(old(node.Snap()).mappings) ==> !Unreadable(node.Snap().mappings)
    ensures forall v :: Reads(old(node.Snap()), v) ==>
      Reads(node.Snap(), Swept(v, set b | b in list && b !in marked))
  {
    ghost var s := node.Snap();
    ghost var m := Parse(Text(s.mappings));
    ghost var v := View(s.links, s.bridges, if m.Success? then m.value else map[]);
    SweptNothing();
    assert Doomed(list, marked, 0) == {};
    var i := 0;
    while i < |list|
      invariant 0 <= i <= |list|
      invariant m.Success? ==> Reads(node.Snap(), Swept(v, Doomed(list, marked, i)))
      invariant m.Failure? ==> node.Snap() == s && Doomed(list, marked, i) == {}
    {
      var br := list[i];
      DoomedStep(list, marked, i);
      if br !in marked {
        ghost var here := node.Snap();
        var name := StripBr(br);
        var r := node.DeletePnBridge("nw_" + name, "br-" + name, NO_FAULTS);
        if r == Panicked {
          assert m.Failure?;
          return true;
        }
        if m.Success? {
          DeletedOneMore(v, Doomed(list, marked, i), br, here, node.Snap());
        }
      }
      i := i + 1;
    }
    assert list[..i] == list;
    assert forall b :: b in list && b !in marked ==> b in Doomed(list, marked, i);
    return false;
  }

  /** The unmarked bridges among the first n of the list. */
  function Doomed(list: seq<string>, marked: set<string>, n: nat): set<string>
    requires n <= |list|
  {
    set b | b in list[..n] && b !in marked
  }

  lemma DoomedStep(list: seq<string>, marked: set<string>, n: nat)
    requires n < |list|
    ensures Doomed(list, marked, n + 1)
         == if list[n] in marked then Doomed(list, marked, n) else Doomed(list, marked, n) + {list[n]}
  {
    assert list[..n + 1] == list[..n] + [list[n]];
  }

  lemma DeletedOneMore(v: View, done: set<string>, br: string, here: Snapshot, after: Snapshot)
    requires Reads(here, Swept(v, done)) && after.links == here.links
    requires after.bridges == here.bridges - {BrName(StripBr(br))}
    requires MappingStep(here.mappings, after.mappings, BrName(StripBr(br)), NwName(StripBr(br)), "delete", NO_FAULTS)
    ensures Reads(after, Swept(v, done + {br}))
  {
    MappingStepRead(here.mappings, after.mappings, BrName(StripBr(br)), NwName(StripBr(br)), "delete", Swept(v, done).mapping);
    SweptOneMore(v, done, br);
  }

  lemma SweptNothing()
    ensures forall v :: Swept(v, {}) == v
  {
  }

  lemma SweptOneMore(v: View, gone: set<string>, br: string)
    ensures Swept(v, gone + {br}).bridges == Swept(v, gone).bridges - {BrName(StripBr(br))}
    ensures Swept(v, gone + {br}).mapping == Swept(v, gone).mapping - {NwName(StripBr(br))}
  {
  }

  method InSyncDirectProviderNetwork(node: Node, store: seq<Notification>) returns (panicked: bool)
    requires OnlyCreates(store)
    modifies node`bridges, node.ovs
    ensures panicked ==> Unreadable(old(node.Snap()).mappings)
    ensures forall v :: Reads(old(node.Snap()), v) && Tidy(v) ==> Reads(node.Snap(), AfterDirectPass(v, store))
  {
    ghost var s := node.Snap();
    var list := node.GetPnBridge(false, {});
    var diffPnBridge := MarkDirect(node, list, store);
    panicked := Sweep(node, list, diffPnBridge);
    forall v | Reads(s, v) && Tidy(v) ensures Reads(node.Snap(), AfterDirectPass(v, store)) {
      TidyUnambiguous(v, list);
      assert (set b | b in list && b !in diffPnBridge) == DirectGone(v, store);
    }
  }

  /** The first loop of the direct pass. A network that is not found would be created, but the
      provider interface read for it is empty, so the creation is refused. */
  method MarkDirect(node: Node, list: seq<string>, store: seq<Notification>) returns (marked: set<string>)
    requires OnlyCreates(store)
    modifies node`bridges, node.ovs
    ensures node.Snap() == old(node.Snap())
    ensures Unambiguous(list) ==> Marks(marked, list, store, |store|)
  {
    marked := {};
    var i := 0;
    label DIRECTPRNETWORK: while i < |store|
      invariant 0 <= i <= |store| && node.Snap() == old(node.Snap())
      invariant Unambiguous(list) ==> Marks(marked, list, store, i)
    {
      var pn := store[i];
      i := i + 1;
      if pn.direct.Some? {
        if Unambiguous(list) { MarksSkip(marked, list, store, i - 1); }
        continue;
      }
      var j := 0;
      while j < |list|
        invariant 0 <= j <= |list|
        invariant forall k :: 0 <= k < j ==> StripBr(list[k]) != pn.name
      {
        if pn.name == StripBr(list[j]) {
          if Unambiguous(list) { MarksAdd(marked, list, store, i - 1, list[j]); }
          marked := marked + {list[j]};
          continue DIRECTPRNETWORK;
        }
        j := j + 1;
      }
      var r := node.CreatePnBridge("nw_" + pn.name, "br-" + pn.name, "", NO_FAULTS);
      if Unambiguous(list) { MarksSkip(marked, list, store, i - 1); }
    }
  }

  /** No two listed bridges strip to the same name. */
  ghost predicate Unambiguous(list: seq<string>) {
    forall a, b :: a in list && b in list && StripBr(a) == StripBr(b) ==> a == b
  }

  /** Exactly the listed bridges that stay for one of the first n stored networks are marked. */
  ghost predicate Marks(marked: set<string>, list: seq<string>, store: seq<Notification>, n: nat)
    requires OnlyCreates(store) && n <= |store|
  {
    forall b :: b in marked <==> b in list && StaysBelow(store, n, b)
  }

  lemma StaysStep(store: seq<Notification>, n: nat, b: string)
    requires OnlyCreates(store) && n < |store|
    ensures StaysBelow(store, n + 1, b) <==>
      StaysBelow(store, n, b) || (store[n].direct.None? && store[n].name == StripBr(b))
  {
  }

  lemma MarksSkip(marked: set<string>, list: seq<string>, store: seq<Notification>, n: nat)
    requires OnlyCreates(store) && n < |store| && Marks(marked, list, store, n)
    requires store[n].direct.Some? || forall k :: 0 <= k < |list| ==> StripBr(list[k]) != store[n].name
    ensures Marks(marked, list, store, n + 1)
  {
    forall b | b in list ensures StaysBelow(store, n + 1, b) <==> StaysBelow(store, n, b) {
      StaysStep(store, n, b);
    }
  }

  lemma MarksAdd(marked: set<string>, list: seq<string>, store: seq<Notification>, n: nat, br: string)
    requires OnlyCreates(store) && n < |store| && Marks(marked, list, store, n) && Unambiguous(list)
    requires br in list && store[n].direct.None? && StripBr(br) == store[n].name
    ensures Marks(marked + {br}, list, store, n + 1)
  {
    forall b | b in list ensures StaysBelow(store, n + 1, b) <==> StaysBelow(store, n, b) || b == br {
      StaysStep(store, n, b);
    }
  }

  lemma TidyUnambiguous(v: View, list: seq<string>)
    requires Tidy(v) && forall b :: b in list ==> IsListed(v.bridges, b)
    ensures Unambiguous(list)
  {
    forall a, b | a in list && b in list && StripBr(a) == StripBr(b) ensures a == b {
      assert IsListed(v.bridges, a) && IsListed(v.bridges, b);
    }
  }

  method InSyncVlanProviderNetwork(node: Node, store: seq<Notification>) returns (panicked: bool)
    requires OnlyCreates(store)
    modifies node`links, node`bridges, node.ovs
    ensures panicked ==> Unreadable(old(node.Snap()).mappings)
    ensures !Unreadable(old(node.Snap()).mappings) ==> !Unreadable(node.Snap().mappings)
    ensures forall v :: Reads(old(node.Snap()), v) && Tidy(v) ==> Reads(node.Snap(), AfterVlanPass(v, store))
  {
    ghost var s := node.Snap();
    ghost var kernelNames := forall x :: x in node.links ==> ValidLinkName(x);
    var vlanList := node.GetVlan(false);
    var pnBridgeList := node.GetPnBridge(false, {});
    var diffVlan: set<string> := {};
    var diffPnBridge: set<string> := {};
    var i := 0;
    label VLAN: while i < |store|
      invariant 0 <= i <= |store| && node.Snap() == s
      invariant kernelNames ==> diffVlan == {} && AllVlan(store[..i])
    {
      var pn := store[i];
      assert store[..i + 1] == store[..i] + [pn];
      i := i + 1;
      if pn.vlan.Some? {
        continue;
      }
      var ln := ".";
      var j := 0;
      while j < |vlanList|
        invariant 0 <= j <= |vlanList|
        invariant forall k :: 0 <= k < j ==> vlanList[k] != ln
      {
        if vlanList[j] == ln {
          diffVlan := diffVlan + {ln};
          assert vlanList[j] in vlanList;
          continue VLAN;
        }
        j := j + 1;
      }
      var ok := node.CreateVlan("", "", ln, -1);
      if !ok {
        assert store[i - 1].vlan.None?;
        return false;
      }
    }
    assert store[..i] == store;
    i := 0;
    label PRNETWORK: while i < |store|
      invariant 0 <= i <= |store| && node.Snap() == s
      invariant kernelNames ==> diffPnBridge == {}
    {
      var pn := store[i];
      i := i + 1;
      if pn.vlan.Some? {
        continue;
      }
      var j := 0;
      while j < |pnBridgeList|
        invariant 0 <= j <= |pnBridgeList|
      {
        if pn.name == StripBr(pnBridgeList[j]) {
          diffPnBridge := diffPnBridge + {pnBridgeList[j]};
          continue PRNETWORK;
        }
        j := j + 1;
      }
      var r := node.CreatePnBridge("nw_" + pn.name, "br-" + pn.name, "", NO_FAULTS);
    }
    SweepLinks(node, vlanList, diffVlan);
    ghost var mid := node.Snap();
    panicked := Sweep(node, pnBridgeList, diffPnBridge);
    forall v | Reads(s, v) && Tidy(v) ensures Reads(node.Snap(), AfterVlanPass(v, store)) {
      var w := v.(links := mid.links);
      assert Reads(mid, w);
      assert (set b | b in pnBridgeList && b !in diffPnBridge) == set b | b in v.bridges && v.bridges[b].nfn != "";
      assert (set x | x in vlanList && x !in diffVlan) == set x | x in v.links && v.links[x].nfn;
    }
  }

  method SweepLinks(node: Node, list: seq<string>, marked: set<string>)
    modifies node`links
    ensures "" !in list ==> node.links == old(node.links) - (set x | x in list && x !in marked)
  {
    var i := 0;
    while i < |list|
      invariant 0 <= i <= |list|
      invariant "" !in list ==> node.links == old(node.links) - (set x | x in list[..i] && x !in marked)
    {
      assert list[..i + 1] == list[..i] + [list[i]];
      if list[i] !in marked {
        var ok := node.DeleteVlan(list[i], false);
      }
      i := i + 1;
    }
    assert list[..i] == list;
  }

  // ----- What a resync amounts to -----

  /** Mark and sweep: with tidy names a listed bridge survives exactly when some stored network
      lacks a VLAN part and a stored network without a direct part has its name. Bridges
      without the plugin's mark are untouched. */
  lemma ResyncSurvivors(v: View, store: seq<Notification>, b: string)
    requires OnlyCreates(store) && Tidy(v)
    ensures IsListed(Resynced(v, store).bridges, b) <==>
      IsListed(v.bridges, b) && !AllVlan(store) && Stays(store, b)
    ensures b in v.bridges && !IsListed(v.bridges, b) ==>
      b in Resynced(v, store).bridges && Resynced(v, store).bridges[b] == v.bridges[b]
  {
    VlanPassTidy(v, store);
    var mid := AfterVlanPass(v, store);
    if IsListed(v.bridges, b) {
      assert b == BrName(StripBr(b));
      assert b in (set x | x in v.bridges && v.bridges[x].nfn != "");
    }
    forall x | IsListed(v.bridges, x) ensures x == BrName(StripBr(x)) {
    }
    if IsListed(mid.bridges, b) && !Stays(store, b) {
      assert b in DirectGone(mid, store);
    }
  }

  /** Mapping entries go with their bridges and no others do; the plugin's links go only when
      every stored network has a VLAN part. */
  lemma ResyncMapping(v: View, store: seq<Notification>)
    requires OnlyCreates(store) && Tidy(v)
    ensures var after := Resynced(v, store);
      && after.mapping == v.mapping
           - (set b | b in v.bridges && v.bridges[b].nfn != "" && b !in after.bridges :: NwName(StripBr(b)))
      && after.links == if AllVlan(store) then v.links - (set x | x in v.links && v.links[x].nfn) else v.links
  {
    if AllVlan(store) {
      AllVlanMapping(v, store);
    } else {
      var after := Resynced(v, store);
      forall b | b in v.bridges && v.bridges[b].nfn != ""
        ensures b !in after.bridges <==> !Stays(store, b)
      {
        ResyncSurvivors(v, store, b);
        if b in after.bridges {
          KeptAsIs(v, store, b);
        }
      }
      assert (set b | b in v.bridges && v.bridges[b].nfn != "" && b !in after.bridges)
          == DirectGone(v, store);
    }
  }

  lemma AllVlanMapping(v: View, store: seq<Notification>)
    requires OnlyCreates(store) && Tidy(v) && AllVlan(store)
    ensures Resynced(v, store) == AfterVlanPass(v, store)
    ensures (set b | b in v.bridges && v.bridges[b].nfn != "" && b !in Resynced(v, store).bridges)
         == set b | b in v.bridges && v.bridges[b].nfn != ""
  {
    var mid := AfterVlanPass(v, store);
    var gone := set b | b in v.bridges && v.bridges[b].nfn != "";
    forall b | b in gone ensures b !in mid.bridges {
      assert IsListed(v.bridges, b);
    }
    assert DirectGone(mid, store) == {};
    SweptNothing();
  }

  /** A bridge that survives a resync is the one that was there. */
  lemma KeptAsIs(v: View, store: seq<Notification>, b: string)
    requires OnlyCreates(store) && b in Resynced(v, store).bridges
    ensures b in v.bridges && Resynced(v, store).bridges[b] == v.bridges[b]
  {
  }

  ghost predicate Provisioned(v: View, m: Notification)
    requires m.ProviderNwCreate?
  {
    IsListed(v.bridges, BrName(m.name))
  }

  /** What the operator stores: every network has exactly one part, its own name, no "br-" in it. */
  ghost predicate OperatorStore(store: seq<Notification>) {
    && OnlyCreates(store)
    && (forall i :: 0 <= i < |store| ==> (store[i].vlan.Some? <==> store[i].direct.None?))
    && (forall i :: 0 <= i < |store| ==> !Contains(store[i].name, "br-"))
    && (forall i, j :: 0 <= i < j < |store| ==> store[i].name != store[j].name)
  }

  /** With the guards as written a resync leaves every stored network with its bridge exactly
      when there was none to provision. */
  lemma ResyncProvisionsNothing(v: View, store: seq<Notification>)
    requires OperatorStore(store) && Tidy(v)
    ensures (forall i :: 0 <= i < |store| ==> Provisioned(Resynced(v, store), store[i])) <==> store == []
  {
    if store != [] {
      if AllVlan(store) {
        ResyncSurvivors(v, store, BrName(store[0].name));
        assert !Provisioned(Resynced(v, store), store[0]);
      } else {
        var i :| 0 <= i < |store| && store[i].vlan.None?;
        ResyncSurvivors(v, store, BrName(store[i].name));
        StrippedBack(store[i].name);
        assert !Provisioned(Resynced(v, store), store[i]);
      }
    }
  }
}
