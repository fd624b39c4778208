/** A small chain that meets every hypothesis of the end-to-end theorem. */
module SmallChain {
  import opened Wrappers
  import opened Strings
  import opened RouteTable
  import opened Chain
  import opened Forwarding

  const PLAN := Plan("", [RoutingNetwork("", "l", "1")], [RoutingNetwork("", "r", "2")], ["a=b", "c=d"], ["n"])
  const CLUSTER := Cluster(
    map[("", "a=b") := [Pod("p", "v", ["docker://" + "P"])], ("", "c=d") := [Pod("q", "v", ["Q"])]],
    map[("n", "b") := "x", ("n", "d") := "y"],
    map["n" := "3"])
  const OWNER: map<string, nat> := map["x" := 0, "y" := 1]
  const TABLE: Table := map[Default := Gateway("g"), Net("3") := Direct]

  lemma Labels()
    ensures Split("a=b", '=') == ["a", "b"] && Split("c=d", '=') == ["c", "d"]
  {
    SplitWithoutSeparator("b", '=');
    SplitHead("a", "b", '=');
    SplitWithoutSeparator("d", '=');
    SplitHead("c", "d", '=');
    assert "a=b" == "a" + ['='] + "b" && "c=d" == "c" + ['='] + "d";
  }

  lemma Neighbours()
    ensures NeighbourAddress(CLUSTER, "n", "a=b") == Success("x")
    ensures NeighbourAddress(CLUSTER, "n", "c=d") == Success("y")
  {
    Labels();
    assert "b"[0] != "d"[0];
  }

  lemma Correct()
    ensures NeighboursCorrect(CLUSTER, PLAN, OWNER)
  {
    Neighbours();
    assert "x"[0] != "y"[0] && "l"[0] !in {"x"[0], "y"[0]} && "r"[0] !in {"x"[0], "y"[0]};
    assert PLAN.left[0].gatewayIP == "l" && PLAN.right[0].gatewayIP == "r";
  }

  lemma Subnets()
    ensures DistinctSubnets(CLUSTER, PLAN, Elements(["4", "4"]))
  {
    assert Elements(["4", "4"]) == {"4"};
    assert "1"[0] !in {"2"[0], "3"[0], "4"[0]} && "2"[0] !in {"3"[0], "4"[0]} && "3"[0] != "4"[0];
  }

  lemma Calculated()
    ensures DeploymentRoutes(CLUSTER, PLAN, 0).Success?
    ensures DeploymentRoutes(CLUSTER, PLAN, 1).Success?
  {
    Neighbours();
    assert "a=b"[0] != "c=d"[0];
  }

  lemma Fresh()
    ensures FreshTable(TABLE, CLUSTER, PLAN, 0) && FreshTable(TABLE, CLUSTER, PLAN, 1)
  {
    assert "1"[0] != "3"[0] && "2"[0] != "3"[0];
  }

  lemma HypothesesCanBeMet()
    ensures WellFormed(CLUSTER, PLAN, OWNER, ["4", "4"], [TABLE, TABLE]) && |PLAN.deps| == 2
  {
    Correct();
    Subnets();
    Calculated();
    Fresh();
  }

  // ----- The text and the nodes around it -----

  const SPEC := ChainSpec("", PLAN.left, PLAN.right, "a=b" + [','] + ("n" + [','] + "c=d"))

  const WORLD := World(map["v" := "4"], map["v" := map["P" := TABLE, "Q" := TABLE]])

  lemma ThreePieces(a: string, b: string, c: string)
    requires ',' !in a && ',' !in b && ',' !in c
    ensures Split(a + [','] + (b + [','] + c), ',') == [a, b, c]
  {
    SplitWithoutSeparator(c, ',');
    SplitHead(b, c, ',');
    SplitHead(a, b + [','] + c, ',');
    assert [a] + ([b] + [c]) == [a, b, c];
  }

  lemma PlanOfThree(spec: ChainSpec, a: string, b: string, c: string)
    requires Pieces(spec) == [a, b, c]
    ensures PlanOf(spec) == Plan(spec.namespace, spec.left, spec.right, [a, c], [b])
  {
  }

  const HOMES := [Home("P", "v"), Home("Q", "v")]

  lemma AtHome()
    ensures Housed(CLUSTER, PLAN, HOMES)
    ensures Placed(WORLD, HOMES) && HostNets(WORLD, HOMES) == ["4", "4"] && StartTables(WORLD, HOMES) == [TABLE, TABLE]
    ensures HOMES[0].id != HOMES[1].id
  {
    assert "P"[0] != "Q"[0];
    assert "a=b"[0] != "c=d"[0];
    assert |"docker://"| == 9;
  }

  /** So the end-to-end theorem speaks of this chain, its text, its pods and its nodes. */
  lemma EveryHypothesisCanBeMet()
    ensures |Pieces(SPEC)| % 2 == 1
    ensures var p := PlanOf(SPEC);
      && Housed(CLUSTER, p, HOMES) && Placed(WORLD, HOMES) && HOMES[0].id != HOMES[1].id
      && WellFormed(CLUSTER, p, OWNER, HostNets(WORLD, HOMES), StartTables(WORLD, HOMES))
  {
    ThreePieces("a=b", "n", "c=d");
    PlanOfThree(SPEC, "a=b", "n", "c=d");
    AtHome();
    HypothesesCanBeMet();
  }

  /** And so are those about the run, by one reconcile with nothing failing. */
  lemma RunCanBeMet()
    ensures var infos := Entries(CLUSTER, PlanOf(SPEC));
      var logs := QuietLogs([infos], {"v"}, [|infos|]);
      && Consistent([infos], infos) && Logged([infos], HOMES, logs)
      && (forall k :: 0 <= k < |HOMES| ==> Served([infos], HOMES, logs, k))
  {
    EveryHypothesisCanBeMet();
    EntriesAtHome(CLUSTER, PlanOf(SPEC), HOMES);
    QuietServes(Entries(CLUSTER, PlanOf(SPEC)), HOMES, {"v"});
    OwnEntriesAgree(Entries(CLUSTER, PlanOf(SPEC)), HOMES);
  }
}
