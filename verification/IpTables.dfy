/** Keeping the plugin's iptables rules in place (internal/pkg/network/iptables.go). */
module IpTables {
  import opened Wrappers

  type Rule = seq<string>

  type ChainId = (string, string) // table and chain

  datatype ManagedRule = ManagedRule(chain: ChainId, spec: Rule)

  // The rules of every chain, in order; a chain that is not listed has none.
  type Chains = map<ChainId, seq<Rule>>

  function Rules(t: Chains, c: ChainId): seq<Rule> {
    if c in t then t[c] else []
  }

  function ForwardRules(ovnNetwork: string): seq<ManagedRule> {
    [ManagedRule(("filter", "FORWARD"), ["-s", ovnNetwork, "-j", "ACCEPT"]),
     ManagedRule(("filter", "FORWARD"), ["-d", ovnNetwork, "-j", "ACCEPT"])]
  }

  // ----- What the single commands do -----

  /** iptables -D: the first matching rule goes. */
  function WithoutFirst(rs: seq<Rule>, r: Rule): seq<Rule> {
    if rs == [] then []
    else if rs[0] == r then rs[1..]
    else [rs[0]] + WithoutFirst(rs[1..], r)
  }

  function Deleted(t: Chains, m: ManagedRule): Chains {
    if m.spec in Rules(t, m.chain) then t[m.chain := WithoutFirst(Rules(t, m.chain), m.spec)] else t
  }

  function Appended(t: Chains, m: ManagedRule): Chains {
    if m.spec in Rules(t, m.chain) then t else t[m.chain := Rules(t, m.chain) + [m.spec]]
  }

  // ----- What the loops do -----

  predicate AllPresent(t: Chains, rules: seq<ManagedRule>) {
    forall i :: 0 <= i < |rules| ==> rules[i].spec in Rules(t, rules[i].chain)
  }

  /** teardownIPTables over the first n rules; the deletions numbered in failing do nothing. */
  function TornDown(t: Chains, rules: seq<ManagedRule>, n: nat, failing: set<int>): Chains
    requires n <= |rules|
  {
    if n == 0 then t
    else
      var before := TornDown(t, rules, n - 1, failing);
      if n - 1 in failing then before else Deleted(before, rules[n - 1])
  }

  /** setupIPTables over the first n rules. */
  function SetUp(t: Chains, rules: seq<ManagedRule>, n: nat): Chains
    requires n <= |rules|
  {
    if n == 0 then t else Appended(SetUp(t, rules, n - 1), rules[n - 1])
  }

  /** ensureIPTables when nothing but deletions fails. */
  function Ensured(t: Chains, rules: seq<ManagedRule>, failing: set<int>): Chains {
    if AllPresent(t, rules) then t
    else SetUp(TornDown(t, rules, |rules|, failing), rules, |rules|)
  }

  /** The failing check is reached. */
  predicate CheckFails(t: Chains, rules: seq<ManagedRule>, checkFailAt: int) {
    0 <= checkFailAt < |rules| && AllPresent(t, rules[..checkFailAt])
  }

  // ----- The code -----

  class IPTables {
    var chains: Chains

    constructor (chains: Chains)
      ensures this.chains == chains
    {
      this.chains := chains;
    }

    method Delete(m: ManagedRule, fails: bool) returns (ok: bool)
      modifies this
      ensures chains == if fails then old(chains) else Deleted(old(chains), m)
      ensures ok ==> m.spec in Rules(old(chains), m.chain)
    {
      if fails || m.spec !in Rules(chains, m.chain) {
        return false;
      }
      chains := chains[m.chain := WithoutFirst(Rules(chains, m.chain), m.spec)];
      return true;
    }

    method AppendUnique(m: ManagedRule, fails: bool) returns (ok: bool)
      modifies this
      ensures ok == !fails
      ensures chains == if fails then old(chains) else Appended(old(chains), m)
    {
      if fails {
        return false;
      }
      if m.spec !in Rules(chains, m.chain) {
        chains := chains[m.chain := Rules(chains, m.chain) + [m.spec]];
      }
      return true;
    }

    /** failAt is the number of the check that fails, if one does. */
    method RulesExist(rules: seq<ManagedRule>, failAt: int) returns (r: Option<bool>)
      ensures r == Some(true) ==> AllPresent(chains, rules)
      ensures r == Some(false) ==> !AllPresent(chains, rules)
      ensures r.None? <==> 0 <= failAt < |rules| && AllPresent(chains, rules[..failAt])
    {
      for i := 0 to |rules|
        invariant forall j :: 0 <= j < i ==> rules[j].spec in Rules(chains, rules[j].chain)
        invariant 0 <= failAt ==> i <= failAt
      {
        if i == failAt {
          return None;
        }
        if rules[i].spec !in Rules(chains, rules[i].chain) {
          if 0 <= failAt < |rules| {
            assert rules[..failAt][i] == rules[i];
          }
          return Some(false);
        }
      }
      return Some(true);
    }

    method Teardown(rules: seq<ManagedRule>, failing: set<int>)
      modifies this
      ensures chains == TornDown(old(chains), rules, |rules|, failing)
    {
      for i := 0 to |rules|
        invariant chains == TornDown(old(chains), rules, i, failing)
      {
        var ok := Delete(rules[i], i in failing);
      }
    }

    method Setup(rules: seq<ManagedRule>, failAt: int) returns (ok: bool)
      modifies this
      ensures ok <==> !(0 <= failAt < |rules|)
      ensures chains == SetUp(old(chains), rules, if ok then |rules| else failAt)
    {
      for i := 0 to |rules|
        invariant chains == SetUp(old(chains), rules, i)
        invariant 0 <= failAt ==> i <= failAt
      {
        ok := AppendUnique(rules[i], i == failAt);
        if !ok {
          return false;
        }
      }
      return true;
    }

    /** ensureIPTables: if it succeeds, all managed rules are present, whatever deletions failed. */
    method Ensure(rules: seq<ManagedRule>, checkFailAt: int, failing: set<int>, appendFailAt: int) returns (ok: bool)
      modifies this
      ensures ok ==> chains == Ensured(old(chains), rules, failing) && AllPresent(chains, rules)
      ensures CheckFails(old(chains), rules, checkFailAt) ==> !ok && chains == old(chains)
      ensures !CheckFails(old(chains), rules, checkFailAt) && AllPresent(old(chains), rules) ==> ok && chains == old(chains)
      ensures !CheckFails(old(chains), rules, checkFailAt) && !AllPresent(old(chains), rules) ==>
        && (ok <==> !(0 <= appendFailAt < |rules|))
        && chains == SetUp(TornDown(old(chains), rules, |rules|, failing), rules, if ok then |rules| else appendFailAt)
    {
      var exist := RulesExist(rules, checkFailAt);
      if exist.None? {
        return false;
      }
      if exist.value {
        return true;
      }
      Teardown(rules, failing);
      SetUpPresent(chains, rules, |rules|);
      ok := Setup(rules, appendFailAt);
    }
  }

  // ----- The single commands -----

  /** A deletion takes the first of equal rules, and an append puts a new rule last. */
  lemma {:induction false} FirstIsDeleted(before: seq<Rule>, r: Rule, after: seq<Rule>)
    requires r !in before
    ensures WithoutFirst(before + [r] + after, r) == before + after
  {
    var rs := before + [r] + after;
    if before == [] {
      assert rs[1..] == after && [] + after == after;
    } else {
      assert rs[1..] == before[1..] + [r] + after;
      FirstIsDeleted(before[1..], r, after);
      assert [before[0]] + (before[1..] + after) == before + after;
    }
  }

  /** The rules whose deletion works. */
  function Deletable(rules: seq<ManagedRule>, n: nat, failing: set<int>): seq<ManagedRule>
    requires n <= |rules|
  {
    if n == 0 then []
    else Deletable(rules, n - 1, failing) + if n - 1 in failing then [] else [rules[n - 1]]
  }

  lemma {:induction false} TornDownPrefix(t: Chains, a: seq<ManagedRule>, b: seq<ManagedRule>, n: nat)
    requires n <= |a|
    ensures TornDown(t, a + b, n, {}) == TornDown(t, a, n, {})
    decreases n
  {
    if n > 0 {
      TornDownPrefix(t, a, b, n - 1);
    }
  }

  /** A deletion that fails leaves its rule alone: only the others count. */
  lemma {:induction false} FailedDeletions(t: Chains, rules: seq<ManagedRule>, n: nat, failing: set<int>)
    requires n <= |rules|
    ensures var worked := Deletable(rules, n, failing);
      TornDown(t, rules, n, failing) == TornDown(t, worked, |worked|, {})
    decreases n
  {
    if n > 0 {
      FailedDeletions(t, rules, n - 1, failing);
      var worked := Deletable(rules, n - 1, failing);
      if n - 1 !in failing {
        TornDownPrefix(t, worked, [rules[n - 1]], |worked|);
        assert (worked + [rules[n - 1]])[|worked|] == rules[n - 1];
      } else {
        assert worked + [] == worked;
      }
    }
  }

  // ----- Presence -----

  lemma {:induction false} SetUpPresent(t: Chains, rules: seq<ManagedRule>, n: nat)
    requires n <= |rules|
    ensures AllPresent(SetUp(t, rules, n), rules[..n])
    ensures n == |rules| ==> AllPresent(SetUp(t, rules, n), rules)
    decreases n
  {
    if n > 0 {
      SetUpPresent(t, rules, n - 1);
      var before := SetUp(t, rules, n - 1);
      forall i | 0 <= i < n
        ensures rules[..n][i].spec in Rules(SetUp(t, rules, n), rules[i].chain)
      {
        if i < n - 1 {
          assert rules[..n - 1][i] == rules[i];
          assert rules[i].spec in Rules(before, rules[i].chain);
        }
      }
    }
    assert n == |rules| ==> rules[..n] == rules;
  }

  // ----- Order -----

  /** The managed rules of a chain in list order, each at its first mention. */
  function Listed(rules: seq<ManagedRule>, n: nat, c: ChainId): seq<Rule>
    requires n <= |rules|
  {
    if n == 0 then []
    else
      var before := Listed(rules, n - 1, c);
      if rules[n - 1].chain == c && rules[n - 1].spec !in before then before + [rules[n - 1].spec] else before
  }

  /** The rules that are not managed, in their own order. */
  function Without(rs: seq<Rule>, managed: seq<Rule>): seq<Rule> {
    if rs == [] then []
    else if rs[0] in managed then Without(rs[1..], managed)
    else [rs[0]] + Without(rs[1..], managed)
  }

  predicate AtMostOnce(rs: seq<Rule>, r: Rule) {
    forall i, j :: 0 <= i < j < |rs| && rs[i] == r ==> rs[j] != r
  }

  lemma {:induction false} WithoutNothing(rs: seq<Rule>)
    ensures Without(rs, []) == rs
  {
    if rs != [] {
      WithoutNothing(rs[1..]);
    }
  }

  lemma {:induction false} WithoutAbsent(rs: seq<Rule>, managed: seq<Rule>, r: Rule)
    ensures r in Without(rs, managed) <==> r in rs && r !in managed
  {
    if rs != [] {
      WithoutAbsent(rs[1..], managed, r);
    }
  }

  lemma {:induction false} WithoutUnchanged(rs: seq<Rule>, managed: seq<Rule>, r: Rule)
    requires r !in rs
    ensures Without(rs, managed + [r]) == Without(rs, managed)
    decreases rs
  {
    if rs != [] {
      WithoutUnchanged(rs[1..], managed, r);
    }
  }

  /** Deleting the first of a rule that occurs once deletes the rule. */
  lemma {:induction false} WithoutOneMore(rs: seq<Rule>, managed: seq<Rule>, r: Rule)
    requires AtMostOnce(rs, r) && r !in managed
    ensures WithoutFirst(Without(rs, managed), r) == Without(rs, managed + [r])
    decreases rs
  {
    if rs != [] {
      if rs[0] == r {
        forall j | 0 <= j < |rs[1..]| ensures rs[1..][j] != r {
          assert rs[1..][j] == rs[j + 1];
        }
        WithoutUnchanged(rs[1..], managed, r);
      } else {
        assert AtMostOnce(rs[1..], r);
        WithoutOneMore(rs[1..], managed, r);
      }
    }
  }

  lemma {:induction false} WithoutFirstAbsent(rs: seq<Rule>, r: Rule)
    requires r !in rs
    ensures WithoutFirst(rs, r) == rs
  {
    if rs != [] {
      WithoutFirstAbsent(rs[1..], r);
    }
  }

  predicate ManagedOnce(t: Chains, rules: seq<ManagedRule>) {
    forall i :: 0 <= i < |rules| ==> AtMostOnce(Rules(t, rules[i].chain), rules[i].spec)
  }

  lemma {:induction false} TornDownChain(t: Chains, rules: seq<ManagedRule>, n: nat, c: ChainId)
    requires n <= |rules| && ManagedOnce(t, rules)
    ensures Rules(TornDown(t, rules, n, {}), c) == Without(Rules(t, c), Listed(rules, n, c))
    decreases n
  {
    if n == 0 {
      WithoutNothing(Rules(t, c));
    } else {
      TornDownChain(t, rules, n - 1, c);
      var m := rules[n - 1];
      if m.chain == c {
        var listed := Listed(rules, n - 1, c);
        WithoutAbsent(Rules(t, c), listed, m.spec);
        if m.spec in listed {
        } else {
          assert AtMostOnce(Rules(t, m.chain), m.spec);
          WithoutOneMore(Rules(t, c), listed, m.spec);
          if m.spec !in Rules(t, c) {
            WithoutFirstAbsent(Without(Rules(t, c), listed), m.spec);
          }
        }
      }
    }
  }

  lemma {:induction false} WithoutConcat(a: seq<Rule>, b: seq<Rule>, managed: seq<Rule>)
    ensures Without(a + b, managed) == Without(a, managed) + Without(b, managed)
  {
    if a == [] {
      assert a + b == b;
    } else {
      assert (a + b)[1..] == a[1..] + b;
      WithoutConcat(a[1..], b, managed);
    }
  }

  /** Setting up adds the listed rules that are not there yet, in list order. */
  lemma {:induction false} SetUpChain(t: Chains, rules: seq<ManagedRule>, n: nat, c: ChainId)
    requires n <= |rules|
    ensures Rules(SetUp(t, rules, n), c) == Rules(t, c) + Without(Listed(rules, n, c), Rules(t, c))
    decreases n
  {
    if n > 0 {
      SetUpChain(t, rules, n - 1, c);
      var m, present, listed := rules[n - 1], Rules(t, c), Listed(rules, n - 1, c);
      if m.chain == c {
        WithoutAbsent(listed, present, m.spec);
        WithoutConcat(listed, [m.spec], present);
        assert [m.spec][1..] == [];
      }
    }
  }

  lemma {:induction false} WithoutFirstManaged(rs: seq<Rule>, r: Rule, managed: seq<Rule>)
    requires r in managed
    ensures Without(WithoutFirst(rs, r), managed) == Without(rs, managed)
  {
    if rs != [] && rs[0] != r {
      WithoutFirstManaged(rs[1..], r, managed);
    }
  }

  /** The managed rules of a chain. */
  function ManagedIn(rules: seq<ManagedRule>, c: ChainId): seq<Rule> {
    Listed(rules, |rules|, c)
  }

  lemma {:induction false} ListedHolds(rules: seq<ManagedRule>, n: nat, i: nat)
    requires i < n <= |rules|
    ensures rules[i].spec in Listed(rules, n, rules[i].chain)
    decreases n
  {
    if i < n - 1 {
      ListedHolds(rules, n - 1, i);
    }
  }

  lemma {:induction false} TearDownSpares(t: Chains, rules: seq<ManagedRule>, n: nat, failing: set<int>, c: ChainId)
    requires n <= |rules|
    ensures Without(Rules(TornDown(t, rules, n, failing), c), ManagedIn(rules, c)) == Without(Rules(t, c), ManagedIn(rules, c))
    decreases n
  {
    if n > 0 {
      TearDownSpares(t, rules, n - 1, failing, c);
      ListedHolds(rules, |rules|, n - 1);
      if rules[n - 1].chain == c {
        WithoutFirstManaged(Rules(TornDown(t, rules, n - 1, failing), c), rules[n - 1].spec, ManagedIn(rules, c));
      }
    }
  }

  lemma {:induction false} SetUpSpares(t: Chains, rules: seq<ManagedRule>, n: nat, c: ChainId)
    requires n <= |rules|
    ensures Without(Rules(SetUp(t, rules, n), c), ManagedIn(rules, c)) == Without(Rules(t, c), ManagedIn(rules, c))
    decreases n
  {
    if n > 0 {
      SetUpSpares(t, rules, n - 1, c);
      ListedHolds(rules, |rules|, n - 1);
      if rules[n - 1].chain == c {
        WithoutConcat(Rules(SetUp(t, rules, n - 1), c), [rules[n - 1].spec], ManagedIn(rules, c));
        assert Without([rules[n - 1].spec], ManagedIn(rules, c)) == [];
      }
    }
  }

  /** Whatever deletions fail and however often rules occur, the rules of others stay exactly
      as they are, in their order; also when the setup stops part way, after n rules. */
  lemma OthersUntouched(t: Chains, rules: seq<ManagedRule>, failing: set<int>, n: nat, c: ChainId)
    requires n <= |rules|
    ensures var m := ManagedIn(rules, c);
      && Without(Rules(Ensured(t, rules, failing), c), m) == Without(Rules(t, c), m)
      && Without(Rules(SetUp(TornDown(t, rules, |rules|, failing), rules, n), c), m) == Without(Rules(t, c), m)
  {
    TearDownSpares(t, rules, |rules|, failing, c);
    SetUpSpares(TornDown(t, rules, |rules|, failing), rules, |rules|, c);
    SetUpSpares(TornDown(t, rules, |rules|, failing), rules, n, c);
  }

  lemma {:induction false} ListedDistinct(rules: seq<ManagedRule>, n: nat, c: ChainId)
    requires n <= |rules|
    ensures forall r :: AtMostOnce(Listed(rules, n, c), r)
    decreases n
  {
    if n > 0 {
      ListedDistinct(rules, n - 1, c);
      var before, m := Listed(rules, n - 1, c), rules[n - 1];
      if m.chain == c && m.spec !in before {
        forall r ensures AtMostOnce(before + [m.spec], r) {
          assert AtMostOnce(before, r);
        }
      }
    }
  }

  lemma {:induction false} WithoutShorter(rs: seq<Rule>, managed: seq<Rule>)
    ensures |Without(rs, managed)| <= |rs|
  {
    if rs != [] {
      WithoutShorter(rs[1..], managed);
    }
  }

  lemma {:induction false} WithoutAll(rs: seq<Rule>, managed: seq<Rule>)
    requires forall r :: r in rs ==> r in managed
    ensures Without(rs, managed) == []
  {
    if rs != [] {
      WithoutAll(rs[1..], managed);
    }
  }

  lemma {:induction false} WithoutNone(rs: seq<Rule>, managed: seq<Rule>)
    requires forall r :: r in rs ==> r !in managed
    ensures Without(rs, managed) == rs
  {
    if rs != [] {
      WithoutNone(rs[1..], managed);
    }
  }

  /** From a list without repetitions, a prefix of it takes exactly that prefix away. */
  lemma WithoutPrefix(listed: seq<Rule>, others: seq<Rule>, k: nat)
    requires k <= |listed| && (forall r :: AtMostOnce(listed, r)) && (forall r :: r in listed ==> r !in others)
    ensures Without(listed, others + listed[..k]) == listed[k..]
  {
    assert listed == listed[..k] + listed[k..];
    WithoutConcat(listed[..k], listed[k..], others + listed[..k]);
    WithoutAll(listed[..k], others + listed[..k]);
    forall r | r in listed[k..] ensures r !in others + listed[..k] {
      assert AtMostOnce(listed, r);
      var j :| 0 <= j < |listed[k..]| && listed[k..][j] == r;
      assert listed[k + j] == r;
    }
    WithoutNone(listed[k..], others + listed[..k]);
  }

  /** A chain followed by what it lacks of the list is its other rules followed by the list iff
      it is its other rules followed by a first part of the list. */
  lemma PrefixOrder(rs: seq<Rule>, listed: seq<Rule>)
    requires forall r :: AtMostOnce(listed, r)
    ensures rs + Without(listed, rs) == Without(rs, listed) + listed <==>
            exists k :: 0 <= k <= |listed| && rs == Without(rs, listed) + listed[..k]
  {
    var others := Without(rs, listed);
    if k :| 0 <= k <= |listed| && rs == others + listed[..k] {
      forall r | r in listed ensures r !in others {
        WithoutAbsent(rs, listed, r);
      }
      WithoutPrefix(listed, others, k);
      assert others + listed[..k] + listed[k..] == others + listed;
    }
    if rs + Without(listed, rs) == others + listed {
      WithoutShorter(rs, listed);
      assert rs == (rs + Without(listed, rs))[..|rs|] == (others + listed)[..|rs|];
      assert rs == others + listed[..|rs| - |others|];
    }
  }

  /** Exactly when an ensure that had to act leaves a chain in order, its other rules followed by
      the managed ones in list order: one deletion per managed rule, less the deletions that
      fail, must leave the others followed by a first part of that list. */
  lemma OrderExactly(t: Chains, rules: seq<ManagedRule>, failing: set<int>, c: ChainId)
    requires !AllPresent(t, rules)
    ensures var listed, others := Listed(rules, |rules|, c), Without(Rules(t, c), Listed(rules, |rules|, c));
      Rules(Ensured(t, rules, failing), c) == others + listed <==>
      exists k :: 0 <= k <= |listed| && Rules(TornDown(t, rules, |rules|, failing), c) == others + listed[..k]
  {
    var torn := TornDown(t, rules, |rules|, failing);
    SetUpChain(torn, rules, |rules|, c);
    TearDownSpares(t, rules, |rules|, failing, c);
    ListedDistinct(rules, |rules|, c);
    PrefixOrder(Rules(torn, c), Listed(rules, |rules|, c));
  }

  /** If a managed rule was missing and none occurred twice, every chain ends up with its other
      rules in their old order, followed by its managed rules in list order; and a second
      ensure finds nothing to do. */
  lemma EnsuredOrder(t: Chains, rules: seq<ManagedRule>, c: ChainId)
    requires !AllPresent(t, rules) && ManagedOnce(t, rules)
    ensures var listed := Listed(rules, |rules|, c);
      Rules(Ensured(t, rules, {}), c) == Without(Rules(t, c), listed) + listed
    ensures forall failing :: Ensured(Ensured(t, rules, {}), rules, failing) == Ensured(t, rules, {})
  {
    var listed, torn := Listed(rules, |rules|, c), TornDown(t, rules, |rules|, {});
    TornDownChain(t, rules, |rules|, c);
    assert Rules(torn, c) == Without(Rules(t, c), listed) + listed[..0];
    OrderExactly(t, rules, {}, c);
    SetUpPresent(torn, rules, |rules|);
  }

  /** An input for which it fails: a forward rule that stands twice keeps its second copy, and
      the missing one lands behind it. */
  lemma TwiceBreaksOrder(ovnNetwork: string)
    ensures var rules := ForwardRules(ovnNetwork);
      var c := ("filter", "FORWARD");
      var t := map[c := [rules[1].spec, rules[1].spec]];
      && !AllPresent(t, rules)
      && Rules(Ensured(t, rules, {}), c) == [rules[1].spec, rules[0].spec]
      && Listed(rules, 2, c) == [rules[0].spec, rules[1].spec]
  {
    var rules := ForwardRules(ovnNetwork);
    var c := ("filter", "FORWARD");
    var src, dst := rules[0].spec, rules[1].spec;
    assert src[0] != dst[0];
    var t: Chains := map[c := [dst, dst]];
    assert Rules(t, rules[0].chain) == [dst, dst] && src !in [dst, dst];
    assert !AllPresent(t, rules);
    assert TornDown(t, rules, 1, {}) == t;
    var torn := TornDown(t, rules, 2, {});
    assert [dst, dst][1..] == [dst];
    assert torn == map[c := [dst]];
    assert Rules(torn, c) == [dst] && src !in [dst] && [dst] + [src] == [dst, src];
    assert SetUp(torn, rules, 0) == torn;
    assert SetUp(torn, rules, 1) == Appended(torn, rules[0]);
    assert SetUp(torn, rules, 1) == map[c := [dst, src]];
    assert SetUp(torn, rules, 2) == map[c := [dst, src]];
    assert Listed(rules, 1, c) == [src];
  }
}
