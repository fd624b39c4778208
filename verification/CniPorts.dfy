/** The ports a CNI ADD plugs into br-int and a CNI DEL pulls out again
    (cmd/ovn4nfvk8s-cni/app/helper_linux.go, internal/pkg/cniserver/cni.go). */
module CniPorts {
  import opened Strings
  import opened NodeState
  import opened CniResult

  const PREFIX_LENGTH := 14

  // cmdDel tries the suffixes 0 to 9.
  const DEL_TRIES := 10

  /** The host end of a sandbox's interface number idx. */
  function HostName(sandbox: string, idx: nat): string
    requires |sandbox| >= PREFIX_LENGTH
  {
    sandbox[..PREFIX_LENGTH] + Itoa(idx)
  }

  lemma HostNameInjective(sandbox: string, i: nat, j: nat)
    requires |sandbox| >= PREFIX_LENGTH
    ensures HostName(sandbox, i) == HostName(sandbox, j) ==> i == j
  {
    assert HostName(sandbox, i)[PREFIX_LENGTH..] == Itoa(i);
    assert HostName(sandbox, j)[PREFIX_LENGTH..] == Itoa(j);
    if Itoa(i) == Itoa(j) {
      ItoaInjective(i, j);
    }
  }

  /** The names with numbers lo to hi - 1. */
  ghost function Names(sandbox: string, lo: nat, hi: nat): set<string>
    requires |sandbox| >= PREFIX_LENGTH
  {
    set i | lo <= i < hi :: HostName(sandbox, i)
  }

  /** Entry number i fails by itself, or its name is not a free name for a link. */
  predicate Refused(ports: set<string>, sandbox: string, i: nat, failAt: int)
    requires |sandbox| >= PREFIX_LENGTH
  {
    i == failAt || !ValidLinkName(HostName(sandbox, i)) || HostName(sandbox, i) in ports
  }

  class IntegrationBridge {
    var ports: set<string>

    constructor (ports: set<string>)
      ensures this.ports == ports
    {
      this.ports := ports;
    }

    /** The port side of ADD for n annotation entries, whose numbers start at 1. It stops at entry
        number failAt, or at a name that is taken or that the kernel refuses for the host end;
        added tells how many ports it plugged. */
    method AddInterfaces(sandbox: string, n: nat, failAt: int) returns (added: nat)
      requires |sandbox| >= PREFIX_LENGTH
      modifies this
      ensures added <= n && added <= 9
      ensures ports == old(ports) + Names(sandbox, 1, added + 1)
      ensures Names(sandbox, 1, added + 1) !! old(ports)
      ensures added < n <==> n > 9 || exists i :: 1 <= i <= n && Refused(old(ports), sandbox, i, failAt)
      ensures added < n ==> Refused(old(ports), sandbox, added + 1, failAt)
    {
      added := 0;
      assert Names(sandbox, 1, 1) == {};
      while added < n
        invariant added <= n && added <= 9
        invariant ports == old(ports) + Names(sandbox, 1, added + 1)
        invariant Names(sandbox, 1, added + 1) !! old(ports)
        invariant forall i :: 1 <= i <= added ==> !Refused(old(ports), sandbox, i, failAt)
      {
        var idx := added + 1;
        var name := HostName(sandbox, idx);
        forall i | 1 <= i < idx ensures HostName(sandbox, i) != name {
          HostNameInjective(sandbox, i, idx);
        }
        if idx == failAt || !ValidLinkName(name) || name in ports {
          assert Refused(old(ports), sandbox, idx, failAt);
          return;
        }
        ports := ports + {name};
        assert Names(sandbox, 1, idx + 1) == Names(sandbox, 1, idx) + {name};
        added := idx;
      }
    }

    /** cmdDel: a missing port is no error; any other error, here at number errorAt, ends the loop. */
    method CmdDel(sandbox: string, errorAt: int)
      requires |sandbox| >= PREFIX_LENGTH
      modifies this
      ensures ports == old(ports) - Names(sandbox, 0, if 0 <= errorAt < DEL_TRIES then errorAt else DEL_TRIES)
    {
      for i := 0 to DEL_TRIES
        invariant ports == old(ports) - Names(sandbox, 0, i)
        invariant 0 <= errorAt ==> i <= errorAt
      {
        if i == errorAt {
          return;
        }
        ports := ports - {HostName(sandbox, i)};
        assert Names(sandbox, 0, i + 1) == Names(sandbox, 0, i) + {HostName(sandbox, i)};
      }
    }
  }

  /** After an ADD that plugged the given number of ports, completed or stopped anywhere, a DEL
      without unexpected errors restores the bridge exactly when no other port has one of the
      ten names that it tries. */
  lemma DelUndoesAdd(before: set<string>, sandbox: string, added: nat)
    requires |sandbox| >= PREFIX_LENGTH && Names(sandbox, 1, added + 1) !! before
    requires forall i :: 1 <= i <= added ==> ValidLinkName(HostName(sandbox, i))
    ensures before + Names(sandbox, 1, added + 1) - Names(sandbox, 0, DEL_TRIES) == before <==>
      Names(sandbox, 0, DEL_TRIES) !! before
  {
    var plugged, tried := Names(sandbox, 1, added + 1), Names(sandbox, 0, DEL_TRIES);
    if added > 0 {
      assert ValidLinkName(HostName(sandbox, added));
    }
    assert plugged <= tried;
    if before + plugged - tried == before {
      assert tried !! before;
    }
  }

  /** No port's name begins with the sandbox's prefix. */
  predicate OwnPrefix(ports: set<string>, sandbox: string)
    requires |sandbox| >= PREFIX_LENGTH
  {
    forall p :: p in ports ==> !HasPrefix(p, sandbox[..PREFIX_LENGTH])
  }

  /** For a prefix of one's own, an ADD of any list, completed or stopped anywhere, and a DEL leave
      the bridge as it was. */
  method AddThenDel(br: IntegrationBridge, sandbox: string, n: nat, failAt: int)
    requires |sandbox| >= PREFIX_LENGTH && OwnPrefix(br.ports, sandbox)
    modifies br
    ensures br.ports == old(br.ports)
  {
    ghost var before := br.ports;
    var added := br.AddInterfaces(sandbox, n, failAt);
    PrefixIsFree(before, sandbox);
    br.CmdDel(sandbox, -1);
    assert Names(sandbox, 1, added + 1) <= Names(sandbox, 0, DEL_TRIES);
  }

  lemma PrefixIsFree(ports: set<string>, sandbox: string)
    requires |sandbox| >= PREFIX_LENGTH && OwnPrefix(ports, sandbox)
    ensures Names(sandbox, 0, DEL_TRIES) !! ports
  {
    forall i: nat ensures HostName(sandbox, i) !in ports {
      assert HostName(sandbox, i)[..PREFIX_LENGTH] == sandbox[..PREFIX_LENGTH];
      assert HasPrefix(HostName(sandbox, i), sandbox[..PREFIX_LENGTH]);
    }
  }

  // ----- The ports of a CNI result -----

  /** Entry number i + 1 is configured with the host end's name, which the kernel has taken. */
  predicate NamedFor(out: Outside, sandbox: string)
    requires |sandbox| >= PREFIX_LENGTH
  {
    forall i :: 0 <= i < |out.configured| && out.configured[i].Some? ==>
      out.configured[i].value.0.name == HostName(sandbox, i + 1) && ValidLinkName(HostName(sandbox, i + 1))
  }

  function HostEnd(r: Result, i: nat): string
    requires 2 * i < |r.interfaces|
  {
    r.interfaces[2 * i].name
  }

  /** The names of the host ends in a result of n entries: every second interface. */
  function HostEnds(r: Result, n: nat): set<string>
    requires |r.interfaces| == 2 * n
  {
    set i | 0 <= i < n :: HostEnd(r, i)
  }

  lemma {:induction false} BuiltHosts(entries: seq<Entry>, out: Outside, ifName: string, k: nat, sandbox: string)
    requires 0 < k <= |entries| && AllConfigurable(entries, out, k)
    requires |sandbox| >= PREFIX_LENGTH && NamedFor(out, sandbox)
    ensures var r := Built(entries, out, ifName, k);
      && |r.interfaces| == 2 * k
      && forall i :: 0 <= i < k ==> HostEnd(r, i) == HostName(sandbox, i + 1)
    ensures ValidLinkName(HostName(sandbox, k))
    decreases k
  {
    assert Configurable(entries[k - 1], out, k - 1);
    if k > 1 {
      BuiltHosts(entries, out, ifName, k - 1, sandbox);
      var r, before := Built(entries, out, ifName, k), Built(entries, out, ifName, k - 1);
      forall i | 0 <= i < k ensures HostEnd(r, i) == HostName(sandbox, i + 1) {
        if i < k - 1 {
          assert HostEnd(r, i) == HostEnd(before, i);
        }
      }
    }
  }

  /** A result never has more than nine entries, and its host ends are ports that DEL pulls out:
      those with the numbers 1 to n. */
  lemma ResultIsCleanedUp(entries: seq<Entry>, out: Outside, ifName: string, sandbox: string)
    requires |sandbox| >= PREFIX_LENGTH && NamedFor(out, sandbox)
    requires entries != [] && AllConfigurable(entries, out, |entries|)
    ensures var n, r := |entries|, Built(entries, out, ifName, |entries|);
      && n <= 9 && |r.interfaces| == 2 * n
      && HostEnds(r, n) == Names(sandbox, 1, n + 1) <= Names(sandbox, 0, DEL_TRIES)
  {
    var n, r := |entries|, Built(entries, out, ifName, |entries|);
    BuiltHosts(entries, out, ifName, n, sandbox);
    forall i | 1 <= i < n + 1 ensures HostName(sandbox, i) in HostEnds(r, n) {
      assert HostName(sandbox, i) == HostEnd(r, i - 1);
    }
  }
}
