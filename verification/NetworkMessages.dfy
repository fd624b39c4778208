/** What a provider network's own fields make of a send: who gets which message
    (internal/pkg/nfnNotify/server.go). */
module NetworkMessages {
  import opened Wrappers
  import opened Strings
  import RouteTable
  import Chain
  import opened Notify

  // ----- The selector words -----

  /** One letter in either case; the long s folds to S and the Kelvin sign to K. */
  predicate SameLetter(c: char, w: char) {
    c == w || ('A' <= w <= 'Z' && c == w - 'A' + 'a') || (c == '\U{017F}' && w == 'S') || (c == '\U{212A}' && w == 'K')
  }

  /** A word is recognised in any mix of cases, and nothing else is. */
  lemma FoldExactly(s: string, word: string)
    requires forall i :: 0 <= i < |word| ==> 'A' <= word[i] <= 'Z'
    ensures EqualFold(s, word) <==> |s| == |word| && forall i :: 0 <= i < |s| ==> SameLetter(s[i], word[i])
  {
    if |s| == |word| {
      forall i | 0 <= i < |s| ensures Fold(s[i]) == word[i] <==> SameLetter(s[i], word[i]) {
      }
    }
  }

  // ----- A send to listed nodes -----

  /** A wanted and subscribed node that cannot be reached. */
  predicate Blocks(cl: Streams, name: string, nodeReq: string, broken: set<string>) {
    (nodeReq == "" || nodeReq == name) && name in cl && name in broken
  }

  /** The node is listed and wanted, and nobody listed up to it blocks the send. */
  predicate Gets(cl: Streams, names: seq<string>, nodeReq: string, broken: set<string>, n: string) {
    exists i :: 0 <= i < |names| && names[i] == n && GetsAt(cl, names, nodeReq, broken, i)
  }

  predicate GetsAt(cl: Streams, names: seq<string>, nodeReq: string, broken: set<string>, i: nat)
    requires i < |names|
  {
    (nodeReq == "" || nodeReq == names[i]) && forall j :: 0 <= j <= i ==> !Blocks(cl, names[j], nodeReq, broken)
  }

  lemma GetsStep(cl: Streams, cl': Streams, names: seq<string>, nodeReq: string, broken: set<string>, n: string)
    requires names != [] && !Blocks(cl, names[0], nodeReq, broken) && cl'.Keys == cl.Keys
    ensures Gets(cl, names, nodeReq, broken, n) <==>
      (names[0] == n && (nodeReq == "" || nodeReq == n)) || Gets(cl', names[1..], nodeReq, broken, n)
  {
    var rest := names[1..];
    if Gets(cl', rest, nodeReq, broken, n) {
      var i :| 0 <= i < |rest| && rest[i] == n && GetsAt(cl', rest, nodeReq, broken, i);
      forall j | 0 <= j <= i + 1 ensures !Blocks(cl, names[j], nodeReq, broken) {
        assert j > 0 ==> names[j] == rest[j - 1] && !Blocks(cl', rest[j - 1], nodeReq, broken);
      }
      assert names[i + 1] == n && GetsAt(cl, names, nodeReq, broken, i + 1);
    }
    if names[0] == n && (nodeReq == "" || nodeReq == n) {
      assert GetsAt(cl, names, nodeReq, broken, 0);
    }
    if i :| 0 <= i < |names| && names[i] == n && GetsAt(cl, names, nodeReq, broken, i) {
      if i > 0 {
        forall j | 0 <= j <= i - 1 ensures !Blocks(cl', rest[j], nodeReq, broken) {
          assert rest[j] == names[j + 1] && !Blocks(cl, names[j + 1], nodeReq, broken);
        }
        assert rest[i - 1] == n && GetsAt(cl', rest, nodeReq, broken, i - 1);
      }
    }
  }

  lemma {:induction false} ListedSend(cl: Streams, names: seq<string>, msg: Notification, nodeReq: string, broken: set<string>, n: string)
    requires Distinct(names) && n in cl
    ensures var cl' := SentToEach(cl, names, msg, nodeReq, broken).0;
      n in cl' && cl'[n] == if Gets(cl, names, nodeReq, broken, n) then cl[n] + [msg] else cl[n]
    decreases |names|
  {
    if names != [] {
      var x, rest := names[0], names[1..];
      assert forall i :: 0 <= i < |rest| ==> rest[i] == names[i + 1];
      if !Blocks(cl, x, nodeReq, broken) {
        var next := if (nodeReq == "" || nodeReq == x) && x in cl then cl[x := cl[x] + [msg]] else cl;
        GetsStep(cl, next, names, nodeReq, broken, n);
        ListedSend(next, rest, msg, nodeReq, broken, n);
        if n == x {
          assert n !in rest;
        }
      }
    }
  }

  predicate NoneBlocks(cl: Streams, names: seq<string>, nodeReq: string, broken: set<string>) {
    forall j :: 0 <= j < |names| ==> !Blocks(cl, names[j], nodeReq, broken)
  }

  lemma {:induction false} ListedOutcome(cl: Streams, names: seq<string>, msg: Notification, nodeReq: string, broken: set<string>)
    ensures SentToEach(cl, names, msg, nodeReq, broken).1 == if NoneBlocks(cl, names, nodeReq, broken) then Ok else SendFailed
    decreases |names|
  {
    if names != [] && !Blocks(cl, names[0], nodeReq, broken) {
      var x, rest := names[0], names[1..];
      var next := if (nodeReq == "" || nodeReq == x) && x in cl then cl[x := cl[x] + [msg]] else cl;
      ListedOutcome(next, rest, msg, nodeReq, broken);
      assert forall j :: 0 <= j < |rest| ==> Blocks(next, rest[j], nodeReq, broken) == Blocks(cl, names[j + 1], nodeReq, broken);
      assert forall j :: 1 <= j < |names| ==> names[j] == rest[j - 1];
    }
  }

  // ----- A send by the network's own fields -----

  /** Every reachable client that is wanted gets the message, nobody else does. */
  predicate ToAll(cl: Streams, cl': Streams, o: Outcome, m: Notification, nodeReq: string, broken: set<string>) {
    && o == Ok && cl'.Keys == cl.Keys
    && forall n :: n in cl ==> cl'[n] == if (nodeReq == "" || nodeReq == n) && n !in broken then cl[n] + [m] else cl[n]
  }

  /** The nodes with the labels get it, up to one that blocks the send. */
  predicate ToListed(cl: Streams, cl': Streams, o: Outcome, m: Notification, names: seq<string>, nodeReq: string, broken: set<string>) {
    && cl'.Keys == cl.Keys
    && (forall n :: n in cl ==> cl'[n] == if Gets(cl, names, nodeReq, broken, n) then cl[n] + [m] else cl[n])
    && o == if NoneBlocks(cl, names, nodeReq, broken) then Ok else SendFailed
  }

  /** One client gets it, or it was that client that could not be reached. */
  ghost predicate ToOne(cl: Streams, cl': Streams, o: Outcome, m: Notification, broken: set<string>) {
    if cl == map[] then o == Ok && cl' == cl
    else exists n :: n in cl && OneSent(cl, cl', o, m, broken, n)
  }

  predicate OneSent(cl: Streams, cl': Streams, o: Outcome, m: Notification, broken: set<string>, n: string)
    requires n in cl
  {
    if n in broken then o == SendFailed && cl' == cl else o == Ok && cl' == cl[n := cl[n] + [m]]
  }

  /** A send of m by a selector word and a list of labels. */
  ghost predicate SentBy(cl: Streams, cl': Streams, o: Outcome, selector: string, labels: seq<string>, created: bool,
                         m: Notification, nodeReq: string, nodes: map<string, seq<string>>, broken: set<string>)
  {
    && (EqualFold(selector, "ALL") ==> ToAll(cl, cl', o, m, nodeReq, broken))
    && (EqualFold(selector, "SPECIFIC") && Join(labels, ',') !in nodes ==> o == Hangs && cl' == cl)
    && (EqualFold(selector, "SPECIFIC") && Join(labels, ',') in nodes && Distinct(nodes[Join(labels, ',')]) ==>
          ToListed(cl, cl', o, m, nodes[Join(labels, ',')], nodeReq, broken))
    && (EqualFold(selector, "ANY") && !created ==> ToOne(cl, cl', o, m, broken))
    && (EqualFold(selector, "ANY") && created ==> o == Ok && cl' == cl)
    && (!EqualFold(selector, "ALL") && !EqualFold(selector, "SPECIFIC") && !EqualFold(selector, "ANY") ==> o == Ok && cl' == cl)
  }

  lemma SentToNames(cl: Streams, cl': Streams, o: Outcome, names: seq<string>, m: Notification, nodeReq: string, broken: set<string>)
    requires Distinct(names) && (cl', o) == SentToEach(cl, names, m, nodeReq, broken)
    ensures ToListed(cl, cl', o, m, names, nodeReq, broken)
  {
    SentToEachKeys(cl, names, m, nodeReq, broken);
    forall n | n in cl ensures cl'[n] == if Gets(cl, names, nodeReq, broken, n) then cl[n] + [m] else cl[n] {
      ListedSend(cl, names, m, nodeReq, broken, n);
    }
    ListedOutcome(cl, names, m, nodeReq, broken);
  }

  lemma SentBySelector(cl: Streams, cl': Streams, o: Outcome, pn: ProviderNetwork, msgType: string, nodeReq: string,
                       nodes: map<string, seq<string>>, broken: set<string>)
    requires Supported(pn) && NotifEffect(cl, cl', o, pn, msgType, nodeReq, nodes, broken)
    ensures SentBy(cl, cl', o, Selector(pn), if pn.netType == "VLAN" then pn.vlanLabels else pn.directLabels, pn.created,
                   MsgFor(pn, msgType), nodeReq, nodes, broken)
  {
    SelectorWordsDiffer(Selector(pn));
    if IsSpecific(pn) && Labels(pn) in nodes && Distinct(nodes[Labels(pn)]) {
      SentToNames(cl, cl', o, nodes[Labels(pn)], MsgFor(pn, msgType), nodeReq, broken);
    }
    if IsAny(pn) && !pn.created && cl != map[] {
      var n :| n in cl && SentToThis(cl, cl', o, n, MsgFor(pn, msgType), broken);
      assert OneSent(cl, cl', o, MsgFor(pn, msgType), broken, n);
    }
  }

  /** A VLAN network is sent by its VLAN selector and labels: its creation tells of its VLAN parameters
      and its removal of the logical interface, whatever its direct fields say. */
  lemma VlanSends(cl: Streams, cl': Streams, o: Outcome, pn: ProviderNetwork, msgType: string, nodeReq: string,
                  nodes: map<string, seq<string>>, broken: set<string>)
    requires pn.cniType == "ovn4nfv" && pn.netType == "VLAN"
    requires NotifEffect(cl, cl', o, pn, msgType, nodeReq, nodes, broken)
    ensures msgType == "create" ==>
      SentBy(cl, cl', o, pn.vlanSelector, pn.vlanLabels, pn.created,
             ProviderNwCreate(pn.name, Some(pn.vlan), None), nodeReq, nodes, broken)
    ensures msgType == "delete" ==>
      SentBy(cl, cl', o, pn.vlanSelector, pn.vlanLabels, pn.created,
             ProviderNwRemove(pn.name, pn.vlan.logicalIntf, ""), nodeReq, nodes, broken)
  {
    SentBySelector(cl, cl', o, pn, msgType, nodeReq, nodes, broken);
  }

  /** The same for a direct network and its direct fields. */
  lemma DirectSends(cl: Streams, cl': Streams, o: Outcome, pn: ProviderNetwork, msgType: string, nodeReq: string,
                    nodes: map<string, seq<string>>, broken: set<string>)
    requires pn.cniType == "ovn4nfv" && pn.netType == "DIRECT"
    requires NotifEffect(cl, cl', o, pn, msgType, nodeReq, nodes, broken)
    ensures msgType == "create" ==>
      SentBy(cl, cl', o, pn.directSelector, pn.directLabels, pn.created,
             ProviderNwCreate(pn.name, None, Some(pn.direct)), nodeReq, nodes, broken)
    ensures msgType == "delete" ==>
      SentBy(cl, cl', o, pn.directSelector, pn.directLabels, pn.created,
             ProviderNwRemove(pn.name, "", pn.direct.providerIntf), nodeReq, nodes, broken)
  {
    SentBySelector(cl, cl', o, pn, msgType, nodeReq, nodes, broken);
  }

  /** Any other type of network is refused. */
  lemma OthersRefused(cl: Streams, cl': Streams, o: Outcome, pn: ProviderNetwork, msgType: string, nodeReq: string,
                      nodes: map<string, seq<string>>, broken: set<string>)
    requires pn.cniType != "ovn4nfv" || (pn.netType != "VLAN" && pn.netType != "DIRECT")
    requires NotifEffect(cl, cl', o, pn, msgType, nodeReq, nodes, broken)
    ensures o == Unsupported && cl' == cl
  {
  }

  // ----- Which networks the handshake tells a node about -----

  /** A VLAN network reaches the subscribing node exactly when its VLAN selector says ALL, or
      SPECIFIC with the node among those that have its labels; direct networks likewise. */
  lemma SelectsExactly(pn: ProviderNetwork, node: string, nodes: map<string, seq<string>>)
    ensures Selects(pn, node, nodes) <==>
      pn.cniType == "ovn4nfv" &&
      ((pn.netType == "VLAN" && Chosen(pn.vlanSelector, pn.vlanLabels, node, nodes)) ||
       (pn.netType == "DIRECT" && Chosen(pn.directSelector, pn.directLabels, node, nodes)))
  {
    SelectorWordsDiffer(Selector(pn));
  }

  predicate Chosen(selector: string, labels: seq<string>, node: string, nodes: map<string, seq<string>>) {
    EqualFold(selector, "ALL") ||
    (EqualFold(selector, "SPECIFIC") && Join(labels, ',') in nodes && node in nodes[Join(labels, ',')])
  }

  // ----- Route messages -----

  /** Should both edge networks have one subnet, the left gateway wins, since its route comes first. */
  lemma LeftEdgeFirst(t: RouteTable.Table, r: Chain.RoutingInfo)
    requires r.leftRoute.dst == r.rightRoute.dst && r.leftRoute.dst != RouteTable.ANY_DST
    requires RouteTable.Key(r.leftRoute.dst) != RouteTable.Default && RouteTable.Key(r.leftRoute.dst) !in t
    ensures RouteMsg(r, "create").ContainerRouteInsert?
    ensures var end := RouteTable.InstallAll(t, RouteMsg(r, "create").routes, -1).0;
      RouteTable.Key(r.leftRoute.dst) in end && end[RouteTable.Key(r.leftRoute.dst)] == RouteTable.Gateway(r.leftRoute.gw)
  {
    RouteTable.InstallFirstWins(t, MessageRoutes(r), 0);
  }
}
