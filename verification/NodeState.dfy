/** The node's VLAN links and bridges (internal/pkg/ovn/common.go). */
module NodeState {
  import opened Wrappers
  import opened Strings
  import opened BridgeMapping

  datatype Link = Link(parent: string, vlanId: string, nfn: bool, up: bool)

  // nfn is the bridge's external_ids:nfn; the empty text means it has none.
  datatype Bridge = Bridge(ports: set<string>, nfn: string)

  type Links = map<string, Link>
  type Bridges = map<string, Bridge>

  /** The names the kernel takes for an interface. */
  predicate ValidLinkName(s: string) {
    0 < |s| < 16 && s != "." && s != ".." && forall c :: c in s ==> c != '/' && c != ':' && !IsSpace(c)
  }

  // The node's state at one moment, and the same with the mapping text read as its map.
  datatype Snapshot = Snapshot(links: Links, bridges: Bridges, mappings: Option<string>)

  datatype View = View(links: Links, bridges: Bridges, mapping: Mapping)

  ghost predicate Reads(s: Snapshot, v: View) {
    s.links == v.links && s.bridges == v.bridges && Parse(Text(s.mappings)) == Success(v.mapping)
  }

  // The names a provider network gets.
  function NwName(name: string): string { "nw_" + name }

  function BrName(name: string): string { "br-" + name }

  // ----- What each operation does; failAt numbers the command that fails, if one does -----

  function CreatedVlan(links: Links, vlanId: string, intf: string, ln: string, failAt: int): (Links, bool) {
    if intf == "" || vlanId == "" || ln == "" then (links, false)
    else if ln in links then (links, true)
    else if failAt == 0 || !ValidLinkName(ln) then (links, false)
    else if failAt == 1 then (links[ln := Link(intf, vlanId, false, false)], false)
    else (links[ln := Link(intf, vlanId, true, failAt != 2)], failAt != 2)
  }

  function DeletedVlan(links: Links, ln: string, fails: bool): (Links, bool) {
    if ln == "" || fails || ln !in links then (links, false) else (links - {ln}, true)
  }

  predicate OnOtherBridge(bridges: Bridges, br: string, intf: string) {
    exists b :: b in bridges && b != br && intf in bridges[b].ports
  }

  lemma OtherBridgeUnaffected(bridges: Bridges, br: string, b: Bridge, intf: string)
    ensures OnOtherBridge(bridges[br := b], br, intf) <==> OnOtherBridge(bridges, br, intf)
  {
    var after := bridges[br := b];
    if OnOtherBridge(bridges, br, intf) {
      var x :| x in bridges && x != br && intf in bridges[x].ports;
      assert x in after && intf in after[x].ports;
    }
    if OnOtherBridge(after, br, intf) {
      var x :| x in after && x != br && intf in after[x].ports;
      assert x in bridges && intf in bridges[x].ports;
    }
  }

  /** The bridge part of CreatePnBridge; a port that sits on another bridge cannot be added. */
  function CreatedBridge(bridges: Bridges, nw: string, br: string, intf: string, failAt: int): (Bridges, bool) {
    if nw == "" || br == "" || intf == "" || failAt == 0 then (bridges, false)
    else
      var b := if br in bridges then bridges[br] else Bridge({}, "");
      if failAt == 1 || OnOtherBridge(bridges, br, intf) then (bridges[br := b], false)
      else if failAt == 2 then (bridges[br := b.(ports := b.ports + {intf})], false)
      else (bridges[br := Bridge(b.ports + {intf}, nw)], true)
  }

  // The commands that fail while one message is handled.
  datatype Faults = Faults(vlan: int, bridge: int, getMapping: bool, setMapping: bool)

  const NO_FAULTS := Faults(-1, -1, false, false)

  // Panicked: the stored mapping text has a label without a colon, which ends the process.
  datatype BridgeResult = Done | Failed | Panicked

  predicate Unreadable(mappings: Option<string>) {
    Parse(Text(mappings)).Failure?
  }

  predicate Panics(mappings: Option<string>, f: Faults) {
    !f.getMapping && Unreadable(mappings)
  }

  class Node {
    var links: Links
    var bridges: Bridges
    const ovs: OpenVSwitch

    constructor (links: Links, bridges: Bridges, ovs: OpenVSwitch)
      ensures this.links == links && this.bridges == bridges && this.ovs == ovs
    {
      this.links, this.bridges, this.ovs := links, bridges, ovs;
    }

    ghost function Snap(): Snapshot
      reads this, ovs
    {
      Snapshot(links, bridges, ovs.mappings)
    }

    method CreateVlan(vlanId: string, intf: string, ln: string, failAt: int) returns (ok: bool)
      modifies this`links
      ensures (links, ok) == CreatedVlan(old(links), vlanId, intf, ln, failAt)
    {
      if intf == "" || vlanId == "" || ln == "" {
        return false;
      }
      if ln in links {
        return true;
      }
      if failAt == 0 || !ValidLinkName(ln) {
        return false;
      }
      links := links[ln := Link(intf, vlanId, false, false)];
      if failAt == 1 {
        return false;
      }
      links := links[ln := links[ln].(nfn := true)];
      assert links == old(links)[ln := Link(intf, vlanId, true, false)];
      if failAt == 2 {
        return false;
      }
      links := links[ln := links[ln].(up := true)];
      assert links == old(links)[ln := Link(intf, vlanId, true, true)];
      return true;
    }

    method DeleteVlan(ln: string, fails: bool) returns (ok: bool)
      modifies this`links
      ensures (links, ok) == DeletedVlan(old(links), ln, fails)
    {
      if ln == "" {
        return false;
      }
      if fails || ln !in links {
        return false;
      }
      links := links - {ln};
      return true;
    }

    method CreatePnBridge(nw: string, br: string, intf: string, f: Faults) returns (r: BridgeResult)
      modifies this`bridges, ovs
      ensures (bridges, r != Failed) == CreatedBridge(old(bridges), nw, br, intf, f.bridge)
      ensures r == Panicked <==> r != Failed && Panics(old(ovs.mappings), f)
      ensures MappingStep(old(ovs.mappings), ovs.mappings, br, nw, if r != Failed then "add" else "", f)
    {
      if nw == "" || br == "" || intf == "" {
        return Failed;
      }
      if f.bridge == 0 {
        return Failed;
      }
      if br !in bridges {
        bridges := bridges[br := Bridge({}, "")];
      }
      OtherBridgeUnaffected(old(bridges), br, bridges[br], intf);
      assert bridges == old(bridges)[br := bridges[br]];
      if f.bridge == 1 || OnOtherBridge(bridges, br, intf) {
        return Failed;
      }
      bridges := bridges[br := bridges[br].(ports := bridges[br].ports + {intf})];
      assert bridges == old(bridges)[br := bridges[br]];
      if f.bridge == 2 {
        return Failed;
      }
      bridges := bridges[br := bridges[br].(nfn := nw)];
      assert bridges == old(bridges)[br := bridges[br]];
      var updated := ovs.UpdateOvnBridgeMapping(br, nw, "add", f.getMapping, f.setMapping);
      return if updated == IndexPanic then Panicked else Done;
    }

    method DeletePnBridge(nw: string, br: string, f: Faults) returns (r: BridgeResult)
      modifies this`bridges, ovs
      ensures r == Failed <==> nw == "" || br == "" || f.bridge == 0
      ensures r == Panicked <==> r != Failed && Panics(old(ovs.mappings), f)
      ensures bridges == if r != Failed then old(bridges) - {br} else old(bridges)
      ensures MappingStep(old(ovs.mappings), ovs.mappings, br, nw, if r != Failed then "delete" else "", f)
    {
      if nw == "" || br == "" {
        return Failed;
      }
      if f.bridge == 0 {
        return Failed;
      }
      bridges := bridges - {br};
      var updated := ovs.UpdateOvnBridgeMapping(br, nw, "delete", f.getMapping, f.setMapping);
      return if updated == IndexPanic then Panicked else Done;
    }

    /** The links marked as the plugin's own, in some order; none if they cannot be listed. */
    method GetVlan(fails: bool) returns (list: seq<string>)
      ensures forall x :: x in list <==> !fails && x in links && links[x].nfn
    {
      list := [];
      if fails {
        return;
      }
      var rest := links.Keys;
      while rest != {}
        invariant rest <= links.Keys
        invariant forall x :: x in list <==> x in links && x !in rest && links[x].nfn
        decreases rest
      {
        var x :| x in rest;
        rest := rest - {x};
        if links[x].nfn {
          list := list + [x];
        }
      }
    }

    /** The bridges carrying an nfn external ID, in some order; those in unread, whose ID cannot be
        read, are passed over, and there are none if the bridges cannot be listed. */
    method GetPnBridge(fails: bool, unread: set<string>) returns (list: seq<string>)
      ensures forall b :: b in list <==> !fails && b in bridges && bridges[b].nfn != "" && b !in unread
    {
      list := [];
      if fails {
        return;
      }
      var rest := bridges.Keys;
      while rest != {}
        invariant rest <= bridges.Keys
        invariant forall b :: b in list <==> b in bridges && b !in rest && bridges[b].nfn != "" && b !in unread
        decreases rest
      {
        var b :| b in rest;
        rest := rest - {b};
        if bridges[b].nfn != "" && b !in unread {
          list := list + [b];
        }
      }
    }
  }

  /** What happens to the mapping text while a bridge is handled; "" means it is not touched.
      The error of the update is thrown away. */
  ghost predicate MappingStep(before: Option<string>, after: Option<string>, br: string, nw: string, action: string, f: Faults) {
    if action == "" then after == before
    else exists r :: UpdateEffect(before, after, br, nw, action, f.getMapping, f.setMapping, r)
  }

  /** Without failures a readable text ends up standing for the updated map. */
  lemma MappingStepRead(before: Option<string>, after: Option<string>, br: string, nw: string, action: string, m: Mapping)
    requires MappingStep(before, after, br, nw, action, NO_FAULTS) && Parse(Text(before)) == Success(m)
    requires action == "delete" || (action == "add" && CleanText(nw) && CleanText(br))
    ensures Parse(Text(after)) == Success(NewMapping(m, br, nw, action))
  {
    ReadableIsClean(Text(before));
    StoredReadsBack(after, NewMapping(m, br, nw, action));
  }
}
