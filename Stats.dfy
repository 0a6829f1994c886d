/** The `GET /api/stats` handler: group the indexed agents by chain, count
    per chain how many have metadata, an ENS endpoint or were created in the
    last 24 hours, and list the first ten agents. */
module Stats {
  import opened Wrappers
  import opened Text
  import opened Http

  /** The fields of one indexed agent that the statistics read. */
  datatype IndexedAgent = IndexedAgent(
    chainId: nat,
    agentId: string,
    agentName: Option<string>,
    metadataURI: Option<string>,
    ensEndpoint: Option<string>,
    createdAtTime: int)

  // ---------------------------------------------------------------------------
  // Grouping by chain
  // ---------------------------------------------------------------------------

  /** The agents of chain `c`, in their order in `xs`. */
  function OnChain(xs: seq<IndexedAgent>, c: nat): (r: seq<IndexedAgent>)
    ensures |r| <= |xs|
    ensures forall a :: a in r <==> a in xs && a.chainId == c
    decreases |xs|
  {
    if |xs| == 0 then []
    else
      var init := xs[..|xs| - 1];
      var rest := OnChain(init, c);
      assert forall a :: a in xs <==> a in init || a == xs[|xs| - 1];
      if xs[|xs| - 1].chainId == c then rest + [xs[|xs| - 1]] else rest
  }

  /** The chain ids that occur in `xs`. */
  function ChainIds(xs: seq<IndexedAgent>): set<nat> {
    set a | a in xs :: a.chainId
  }

  /** The chain groups: every chain that occurs, bound to its agents. */
  function Grouping(xs: seq<IndexedAgent>): map<nat, seq<IndexedAgent>> {
    map c | c in ChainIds(xs) :: OnChain(xs, c)
  }

  /** The chain ids in the order a chain is first met. */
  function FirstSeen(xs: seq<IndexedAgent>): seq<nat>
    decreases |xs|
  {
    if |xs| == 0 then []
    else
      var init := xs[..|xs| - 1];
      if xs[|xs| - 1].chainId in ChainIds(init) then FirstSeen(init)
      else FirstSeen(init) + [xs[|xs| - 1].chainId]
  }

  predicate Distinct(s: seq<nat>) {
    forall i, j :: 0 <= i < j < |s| ==> s[i] != s[j]
  }

  lemma ChainIdsSnoc(xs: seq<IndexedAgent>, a: IndexedAgent)
    ensures ChainIds(xs + [a]) == ChainIds(xs) + {a.chainId}
  {
    assert forall b :: b in xs + [a] <==> b in xs || b == a;
  }

  /** Each chain is first met once, and every chain that occurs is met. */
  lemma {:induction false} FirstSeenFacts(xs: seq<IndexedAgent>)
    ensures Distinct(FirstSeen(xs))
    ensures forall c :: c in FirstSeen(xs) <==> c in ChainIds(xs)
    decreases |xs|
  {
    if |xs| > 0 {
      var init := xs[..|xs| - 1];
      var a := xs[|xs| - 1];
      assert xs == init + [a];
      FirstSeenFacts(init);
      ChainIdsSnoc(init, a);
    }
  }

  lemma OnChainSnoc(xs: seq<IndexedAgent>, a: IndexedAgent, c: nat)
    ensures OnChain(xs + [a], c) == OnChain(xs, c) + (if a.chainId == c then [a] else [])
  {
    assert (xs + [a])[..|xs|] == xs;
  }

  lemma OnChainAbsent(xs: seq<IndexedAgent>, c: nat)
    requires c !in ChainIds(xs)
    ensures OnChain(xs, c) == []
  {
    if |OnChain(xs, c)| > 0 {
      assert OnChain(xs, c)[0] in OnChain(xs, c);
    }
  }

  /** Adding one agent to the groups of `xs` gives the groups of `xs + [a]`. */
  lemma GroupingSnoc(xs: seq<IndexedAgent>, a: IndexedAgent)
    ensures Grouping(xs + [a]) ==
      Grouping(xs)[a.chainId := (if a.chainId in Grouping(xs) then Grouping(xs)[a.chainId] else []) + [a]]
  {
    ChainIdsSnoc(xs, a);
    var lhs := Grouping(xs + [a]);
    var rhs := Grouping(xs)[a.chainId := (if a.chainId in Grouping(xs) then Grouping(xs)[a.chainId] else []) + [a]];
    assert lhs.Keys == rhs.Keys;
    forall c | c in lhs.Keys ensures lhs[c] == rhs[c] {
      OnChainSnoc(xs, a, c);
      if c !in ChainIds(xs) {
        OnChainAbsent(xs, c);
      }
    }
  }

  /** One step of the grouping loop, on the groups of a prefix. */
  lemma GroupStep(agents: seq<IndexedAgent>, i: nat)
    requires i < |agents|
    ensures var c := agents[i]; var before := Grouping(agents[..i]);
      && (c.chainId in before <==> c.chainId in ChainIds(agents[..i]))
      && Grouping(agents[..i + 1]) ==
           before[c.chainId := (if c.chainId in before then before[c.chainId] else []) + [c]]
      && FirstSeen(agents[..i + 1]) ==
           if c.chainId in before then FirstSeen(agents[..i]) else FirstSeen(agents[..i]) + [c.chainId]
  {
    assert agents[..i + 1] == agents[..i] + [agents[i]];
    assert agents[..i + 1][..i] == agents[..i];
    GroupingSnoc(agents[..i], agents[i]);
  }

  /** The loop body of `GroupByChain`, on the groups and key order of a
      prefix, yields those of the prefix one longer. */
  lemma LoopStep(agents: seq<IndexedAgent>, i: nat, groups: map<nat, seq<IndexedAgent>>, order: seq<nat>)
    requires i < |agents| && groups == Grouping(agents[..i]) && order == FirstSeen(agents[..i])
    ensures var c := agents[i].chainId;
      var created := if c !in groups then groups[c := []] else groups;
      && created[c := created[c] + [agents[i]]] == Grouping(agents[..i + 1])
      && (if c !in groups then order + [c] else order) == FirstSeen(agents[..i + 1])
  {
    var c := agents[i].chainId;
    GroupStep(agents, i);
    if c !in groups {
      assert groups[c := []][c := [] + [agents[i]]] == groups[c := [] + [agents[i]]];
    }
  }

  /** `agents.forEach(agent => { chainGroups[agent.chainId] ||= []; ...push(agent) })`,
      with `order` the keys in the order the object received them. */
  method GroupByChain(agents: seq<IndexedAgent>) returns (groups: map<nat, seq<IndexedAgent>>, order: seq<nat>)
    ensures groups == Grouping(agents)
    ensures order == FirstSeen(agents)
  {
    groups := map[];
    order := [];
    var i := 0;
    while i < |agents|
      invariant 0 <= i <= |agents|
      invariant groups == Grouping(agents[..i])
      invariant order == FirstSeen(agents[..i])
    {
      var agent := agents[i];
      LoopStep(agents, i, groups, order);
      if agent.chainId !in groups {
        groups := groups[agent.chainId := []];
        order := order + [agent.chainId];
      }
      groups := groups[agent.chainId := groups[agent.chainId] + [agent]];
      i := i + 1;
    }
    assert agents[..|agents|] == agents;
  }

  // ---------------------------------------------------------------------------
  // Object.keys order
  // ---------------------------------------------------------------------------

  /** Keys that are array indices (below 2^32 - 1) are enumerated first, in
      ascending numeric order; the others follow in insertion order. */
  predicate IsIndexKey(c: nat) {
    c < 0xFFFF_FFFF
  }

  predicate Ascending(s: seq<nat>) {
    forall i, j :: 0 <= i < j < |s| ==> s[i] < s[j]
  }

  /** Inserts `x` into an ascending sequence, keeping it ascending and free of repeats. */
  function InsertAscending(s: seq<nat>, x: nat): (r: seq<nat>)
    requires Ascending(s)
    ensures Ascending(r)
    ensures forall y :: y in r <==> y in s || y == x
    decreases |s|
  {
    if |s| == 0 then [x]
    else if x < s[0] then [x] + s
    else if x == s[0] then s
    else
      var rest := InsertAscending(s[1..], x);
      assert forall y :: y in s <==> y == s[0] || y in s[1..];
      forall k | 0 <= k < |rest| ensures s[0] < rest[k] {
        assert rest[k] in rest;
      }
      [s[0]] + rest
  }

  /** The distinct elements of `s` in ascending order. */
  function SortAscending(s: seq<nat>): (r: seq<nat>)
    ensures Ascending(r)
    ensures forall y :: y in r <==> y in s
    decreases |s|
  {
    if |s| == 0 then []
    else
      var init := s[..|s| - 1];
      assert forall y :: y in s <==> y in init || y == s[|s| - 1];
      InsertAscending(SortAscending(init), s[|s| - 1])
  }

  function IndexKeys(s: seq<nat>): (r: seq<nat>)
    ensures forall y :: y in r <==> y in s && IsIndexKey(y)
    ensures Distinct(s) ==> Distinct(r)
    decreases |s|
  {
    if |s| == 0 then []
    else if IsIndexKey(s[0]) then [s[0]] + IndexKeys(s[1..])
    else IndexKeys(s[1..])
  }

  function OtherKeys(s: seq<nat>): (r: seq<nat>)
    ensures forall y :: y in r <==> y in s && !IsIndexKey(y)
    ensures Distinct(s) ==> Distinct(r)
    decreases |s|
  {
    if |s| == 0 then []
    else if IsIndexKey(s[0]) then OtherKeys(s[1..])
    else [s[0]] + OtherKeys(s[1..])
  }

  /** `Object.keys` of an object whose integer keys were added in `insertion` order. */
  function ObjectKeys(insertion: seq<nat>): seq<nat> {
    SortAscending(IndexKeys(insertion)) + OtherKeys(insertion)
  }

  /** The keys are listed once each, exactly the keys inserted; the index keys
      come first and ascend, then the others in insertion order. */
  lemma ObjectKeysFacts(insertion: seq<nat>)
    requires Distinct(insertion)
    ensures var keys := ObjectKeys(insertion);
      && Distinct(keys)
      && (forall c :: c in keys <==> c in insertion)
      && (forall i, j :: 0 <= i < j < |keys| && IsIndexKey(keys[j]) ==> IsIndexKey(keys[i]) && keys[i] < keys[j])
      && keys[|keys| - |OtherKeys(insertion)|..] == OtherKeys(insertion)
  {
    KeyGroupsJoined(SortAscending(IndexKeys(insertion)), OtherKeys(insertion));
  }

  /** An ascending run of index keys followed by repeat-free other keys has no
      repeats, and every index key in it sits inside the ascending run. */
  lemma KeyGroupsJoined(sorted: seq<nat>, others: seq<nat>)
    requires Ascending(sorted) && Distinct(others)
    requires forall c :: c in sorted ==> IsIndexKey(c)
    requires forall c :: c in others ==> !IsIndexKey(c)
    ensures var keys := sorted + others;
      && Distinct(keys)
      && (forall i, j :: 0 <= i < j < |keys| && IsIndexKey(keys[j]) ==> IsIndexKey(keys[i]) && keys[i] < keys[j])
  {
    var keys := sorted + others;
    forall i, j | 0 <= i < j < |keys| ensures keys[i] != keys[j] {
      if j < |sorted| {
      } else if i >= |sorted| {
        assert keys[i] == others[i - |sorted|] && keys[j] == others[j - |sorted|];
      } else {
        assert keys[i] in sorted && IsIndexKey(keys[i]);
        assert keys[j] == others[j - |sorted|] && keys[j] in others && !IsIndexKey(keys[j]);
      }
    }
    forall i, j | 0 <= i < j < |keys| && IsIndexKey(keys[j]) ensures IsIndexKey(keys[i]) && keys[i] < keys[j] {
      assert keys[i] in sorted;
    }
  }

  // ---------------------------------------------------------------------------
  // The chain groups partition the agents
  // ---------------------------------------------------------------------------

  /** The sizes of the groups of the chains `ks`, added up. */
  function TotalOver(xs: seq<IndexedAgent>, ks: seq<nat>): nat
    decreases |ks|
  {
    if |ks| == 0 then 0 else |OnChain(xs, ks[0])| + TotalOver(xs, ks[1..])
  }

  lemma DistinctTail(ks: seq<nat>)
    requires Distinct(ks) && |ks| > 0
    ensures Distinct(ks[1..]) && ks[0] !in ks[1..]
  {
    forall i, j | 0 <= i < j < |ks[1..]| ensures ks[1..][i] != ks[1..][j] {
      assert ks[1..][i] == ks[i + 1] && ks[1..][j] == ks[j + 1];
    }
    forall j | 0 <= j < |ks[1..]| ensures ks[1..][j] != ks[0] {
      assert ks[1..][j] == ks[j + 1];
    }
  }

  lemma {:induction false} TotalOverSnoc(xs: seq<IndexedAgent>, a: IndexedAgent, ks: seq<nat>)
    requires Distinct(ks)
    ensures TotalOver(xs + [a], ks) == TotalOver(xs, ks) + (if a.chainId in ks then 1 else 0)
    decreases |ks|
  {
    if |ks| > 0 {
      OnChainSnoc(xs, a, ks[0]);
      DistinctTail(ks);
      TotalOverSnoc(xs, a, ks[1..]);
      assert a.chainId in ks <==> a.chainId == ks[0] || a.chainId in ks[1..];
    }
  }

  /** Over chains that list every chain of `xs` once, the group sizes add up
      to the number of agents: no agent is lost or counted twice. */
  lemma {:induction false} GroupsPartition(xs: seq<IndexedAgent>, ks: seq<nat>)
    requires Distinct(ks)
    requires forall c :: c in ChainIds(xs) ==> c in ks
    ensures TotalOver(xs, ks) == |xs|
    decreases |xs|
  {
    if |xs| == 0 {
      TotalOverEmpty(ks);
    } else {
      var init := xs[..|xs| - 1];
      var a := xs[|xs| - 1];
      assert xs == init + [a];
      ChainIdsSnoc(init, a);
      GroupsPartition(init, ks);
      TotalOverSnoc(init, a, ks);
    }
  }

  lemma {:induction false} TotalOverEmpty(ks: seq<nat>)
    ensures TotalOver([], ks) == 0
    decreases |ks|
  {
    if |ks| > 0 {
      TotalOverEmpty(ks[1..]);
    }
  }

  /** A sequence without repeats is as long as the set of its elements. */
  lemma {:induction false} DistinctCard(ks: seq<nat>, s: set<nat>)
    requires Distinct(ks)
    requires forall c :: c in ks <==> c in s
    ensures |ks| == |s|
    decreases |ks|
  {
    if |ks| > 0 {
      var init := ks[..|ks| - 1];
      var last := ks[|ks| - 1];
      assert last !in init by {
        forall j | 0 <= j < |init| ensures init[j] != last {
          assert init[j] == ks[j];
        }
      }
      assert Distinct(init) by {
        forall i, j | 0 <= i < j < |init| ensures init[i] != init[j] {
          assert init[i] == ks[i] && init[j] == ks[j];
        }
      }
      assert forall c :: c in ks <==> c in init || c == last;
      DistinctCard(init, s - {last});
    }
  }

  // ---------------------------------------------------------------------------
  // Per-chain figures
  // ---------------------------------------------------------------------------

  /** `getChainName`: the three test networks by name, any other chain by number. */
  function ChainName(chainId: nat): (name: string)
    ensures name != ""
  {
    if chainId == 11155111 then "ETH Sepolia"
    else if chainId == 84532 then "Base Sepolia"
    else if chainId == 11155420 then "OP Sepolia"
    else "Chain " + NatToDecimal(chainId)
  }

  /** Different chains get different names. */
  lemma ChainNameInjective(c1: nat, c2: nat)
    requires ChainName(c1) == ChainName(c2)
    ensures c1 == c2
  {
    var known := {11155111, 84532, 11155420};
    NameInitial(c1);
    NameInitial(c2);
    if c1 !in known && c2 !in known {
      assert NatToDecimal(c1) == ChainName(c1)[6..];
      assert NatToDecimal(c2) == ChainName(c2)[6..];
      DecimalValue(c1);
      DecimalValue(c2);
    }
  }

  /** Only the numbered names start with 'C'. */
  lemma NameInitial(c: nat)
    ensures ChainName(c)[0] == 'C' <==> c !in {11155111, 84532, 11155420}
  {
  }

  /** The number of agents of `xs` for which `p` holds (`xs.filter(p).length`). */
  function Count(xs: seq<IndexedAgent>, p: IndexedAgent -> bool): (n: nat)
    ensures n <= |xs|
    ensures n == |xs| <==> forall a :: a in xs ==> p(a)
    ensures n == 0 <==> forall a :: a in xs ==> !p(a)
    decreases |xs|
  {
    if |xs| == 0 then 0
    else
      assert forall a :: a in xs <==> a == xs[0] || a in xs[1..];
      (if p(xs[0]) then 1 else 0) + Count(xs[1..], p)
  }

  predicate HasMetadata(a: IndexedAgent) {
    Present(a.metadataURI)
  }

  predicate HasEns(a: IndexedAgent) {
    Present(a.ensEndpoint)
  }

  /** `a.createdAtTime > since`. */
  function CreatedAfter(since: int): IndexedAgent -> bool {
    (a: IndexedAgent) => a.createdAtTime > since
  }

  /** `Math.floor(Date.now() / 1000) - 86400`: one day before now, in seconds. */
  function Since(nowMs: int): (t: int)
    ensures 1000 * (t + 86400) <= nowMs < 1000 * (t + 86401)
  {
    nowMs / 1000 - 86400
  }

  /** The figures of one chain. */
  datatype ChainStats = ChainStats(
    chainId: nat,
    chainName: string,
    count: nat,
    withMetadata: nat,
    withoutMetadata: nat,
    withENS: nat,
    withoutENS: nat,
    recentCount: nat)

  function ChainStatsOf(chainId: nat, group: seq<IndexedAgent>, since: int): (s: ChainStats)
    ensures s.chainId == chainId && s.chainName == ChainName(chainId) && s.count == |group|
    ensures s.withMetadata + s.withoutMetadata == s.count && s.withENS + s.withoutENS == s.count
    ensures s.recentCount <= s.count
  {
    var withMetadata := Count(group, HasMetadata);
    var withENS := Count(group, HasEns);
    ChainStats(chainId, ChainName(chainId), |group|,
               withMetadata, |group| - withMetadata,
               withENS, |group| - withENS,
               Count(group, CreatedAfter(since)))
  }

  /** `c.count > 0 ? Math.round((part / c.count) * 100) : 0`, on exact
      rationals: the nearest integer to 100 * part / count, halves rounded up. */
  function Percentage(part: nat, count: nat): (p: nat)
    ensures count == 0 ==> p == 0
    ensures count > 0 ==> -(count as int) < 2 * p * count - 200 * part <= count
    ensures part <= count ==> p <= 100
    ensures count > 0 && part == count ==> p == 100
    ensures part == 0 ==> p == 0
  {
    if count == 0 then 0
    else
      RoundedRatio(part, count);
      (200 * part + count) / (2 * count)
  }

  lemma RoundedRatio(part: nat, count: nat)
    requires count > 0
    ensures var p := (200 * part + count) / (2 * count);
      && -(count as int) < 2 * p * count - 200 * part <= count
      && (part <= count ==> p <= 100)
      && (part == count ==> p == 100)
      && (part == 0 ==> p == 0)
  {
    var n := 200 * part + count;
    var d := 2 * count;
    var p := n / d;
    DivBounds(n, d);
    assert 2 * p * count == d * p;
    assert d * (p + 1) == d * p + d;
    assert d * 101 == 202 * count && d * 100 == 200 * count && d * 1 == d;
    if part <= count {
      MulCancel(d, p, 101);
    }
    if part == count {
      MulCancel(d, p, 101);
      MulCancel(d, 100, p + 1);
    }
    if part == 0 {
      MulCancel(d, p, 1);
    }
  }

  /** Multiplying by a positive number keeps a strict order. */
  lemma MulCancel(d: int, x: int, y: int)
    requires d > 0 && d * x < d * y
    ensures x < y
  {
    assert x >= y ==> d * x >= d * y;
  }

  /** Euclidean division by a positive divisor brackets the dividend. */
  lemma DivBounds(n: nat, d: nat)
    requires d > 0
    ensures d * (n / d) <= n < d * (n / d + 1)
  {
  }

  // ---------------------------------------------------------------------------
  // The report
  // ---------------------------------------------------------------------------

  datatype ChainSummary = ChainSummary(chainId: nat, chainName: string, agentCount: nat)
  datatype MetadataRow = MetadataRow(chainId: nat, chainName: string, withMetadata: nat, withoutMetadata: nat, metadataPercentage: nat)
  datatype EnsRow = EnsRow(chainId: nat, chainName: string, withENS: nat, withoutENS: nat, ensPercentage: nat)
  datatype ActivityRow = ActivityRow(chainId: nat, chainName: string, recentCount: nat)
  datatype TopAgent = TopAgent(chainId: nat, chainName: string, agentId: string, agentName: string, ensName: Option<string>)

  /** The response body: `summary`, `metadata.chains`, `ens.chains`,
      `activity.recent24h` and `topAgents`. */
  datatype StatsReport = StatsReport(
    totalAgents: nat,
    totalChains: nat,
    chains: seq<ChainSummary>,
    metadata: seq<MetadataRow>,
    ens: seq<EnsRow>,
    recent24h: seq<ActivityRow>,
    topAgents: seq<TopAgent>)

  /** The all-zero report sent when the indexer has no agents for us. */
  const EmptyStats: StatsReport := StatsReport(0, 0, [], [], [], [], [])

  const TopCount: nat := 10

  /** `agents.slice(0, 10).map(...)`: the first ten agents, in indexer order, each with its chain's
      name, "Unnamed" for a missing or empty name, and the ENS endpoint as its
      ENS name when one is given. */
  function TopAgents(agents: seq<IndexedAgent>): (r: seq<TopAgent>)
    ensures |r| == if |agents| < 10 then |agents| else 10
    ensures forall i :: 0 <= i < |r| ==>
      var t := r[i]; var a := agents[i];
      && t.chainId == a.chainId && t.agentId == a.agentId && t.chainName == ChainName(a.chainId)
      && (Present(a.agentName) ==> t.agentName == a.agentName.value)
      && (!Present(a.agentName) ==> t.agentName == "Unnamed")
      && (Present(a.ensEndpoint) ==> t.ensName == a.ensEndpoint)
      && (!Present(a.ensEndpoint) ==> t.ensName.None?)
  {
    var n := if |agents| < TopCount then |agents| else TopCount;
    seq(n, i requires 0 <= i < n =>
      var a := agents[i];
      TopAgent(a.chainId, ChainName(a.chainId), a.agentId,
               if Present(a.agentName) then a.agentName.value else "Unnamed",
               if Present(a.ensEndpoint) then a.ensEndpoint else None))
  }

  /** The `summary.chains` rows. */
  function Summaries(chains: seq<ChainStats>): seq<ChainSummary> {
    seq(|chains|, i requires 0 <= i < |chains| => ChainSummary(chains[i].chainId, chains[i].chainName, chains[i].count))
  }

  /** The response built from the agents and the figures of their chains. */
  function ReportFrom(agents: seq<IndexedAgent>, chains: seq<ChainStats>): StatsReport {
    StatsReport(
      |agents|,
      |chains|,
      Summaries(chains),
      seq(|chains|, i requires 0 <= i < |chains| =>
        MetadataRow(chains[i].chainId, chains[i].chainName, chains[i].withMetadata, chains[i].withoutMetadata,
                    Percentage(chains[i].withMetadata, chains[i].count))),
      seq(|chains|, i requires 0 <= i < |chains| =>
        EnsRow(chains[i].chainId, chains[i].chainName, chains[i].withENS, chains[i].withoutENS,
               Percentage(chains[i].withENS, chains[i].count))),
      seq(|chains|, i requires 0 <= i < |chains| => ActivityRow(chains[i].chainId, chains[i].chainName, chains[i].recentCount)),
      TopAgents(agents))
  }

  /** The chain keys in the order `Object.keys(chainGroups)` lists them. */
  function ChainKeys(agents: seq<IndexedAgent>): seq<nat> {
    ObjectKeys(FirstSeen(agents))
  }

  function ChainRows(agents: seq<IndexedAgent>, keys: seq<nat>, since: int): seq<ChainStats> {
    seq(|keys|, i requires 0 <= i < |keys| => ChainStatsOf(keys[i], OnChain(agents, keys[i]), since))
  }

  /** What the handler answers for one indexer reply at time `nowMs`. */
  function StatsOf(indexed: IndexerData<IndexedAgent>, nowMs: int): (r: StatsReport)
    ensures indexed.NoData? || indexed.agents.None? ==> r == EmptyStats
    ensures indexed.Data? && indexed.agents.Some? ==>
      && r.totalAgents == |indexed.agents.value|
      && |r.chains| == |r.metadata| == |r.ens| == |r.recent24h| == |ChainKeys(indexed.agents.value)|
      && r.topAgents == TopAgents(indexed.agents.value)
  {
    match indexed
    case NoData => EmptyStats
    case Data(None) => EmptyStats
    case Data(Some(agents)) => ReportFrom(agents, ChainRows(agents, ChainKeys(agents), Since(nowMs)))
  }

  /** `parseInt(chainIdStr)` of a key of the groups object: the decimal
      rendering of the chain id reads back as that id. */
  function KeyToChainId(key: nat): (chainId: nat)
    ensures chainId == key
  {
    DecimalRoundTrip(key);
    ParseIntNoRadix(NatToDecimal(key)).value as nat
  }

  /** The handler: group, enumerate the keys, compute the per-chain figures
      and assemble the response. */
  method GetStats(indexed: IndexerData<IndexedAgent>, nowMs: int) returns (report: StatsReport)
    ensures report == StatsOf(indexed, nowMs)
  {
    if indexed.NoData? || indexed.agents.None? {
      return EmptyStats;
    }
    var agents := indexed.agents.value;
    var since := Since(nowMs);
    var groups, order := GroupByChain(agents);
    FirstSeenFacts(agents);
    ObjectKeysFacts(order);
    var keys := ObjectKeys(order);
    var chains := seq(|keys|, i requires 0 <= i < |keys| =>
      var chainId := KeyToChainId(keys[i]);
      ChainStatsOf(chainId, groups[chainId], since));
    assert chains == ChainRows(agents, keys, since);
    report := ReportFrom(agents, chains);
  }

  // ---------------------------------------------------------------------------
  // Properties of the report
  // ---------------------------------------------------------------------------

  /** The empty report is sent exactly when there is no agent to report on. */
  lemma EmptyExactlyWithoutAgents(indexed: IndexerData<IndexedAgent>, nowMs: int)
    ensures StatsOf(indexed, nowMs) == EmptyStats <==>
      indexed.NoData? || indexed.agents.None? || |indexed.agents.value| == 0
  {
    if indexed.Data? && indexed.agents.Some? && |indexed.agents.value| == 0 {
      assert ChainKeys([]) == [];
    }
  }

  /** Every agent is counted under exactly one chain: the per-chain counts add
      up to the total, and there is one row per distinct chain id. */
  lemma {:induction false} TotalsAddUp(agents: seq<IndexedAgent>, nowMs: int)
    ensures var r := StatsOf(Data(Some(agents)), nowMs);
      && r.totalAgents == |agents|
      && r.totalChains == |ChainIds(agents)|
      && SumAgentCounts(r.chains) == |agents|
  {
    var keys := ChainKeys(agents);
    FirstSeenFacts(agents);
    ObjectKeysFacts(FirstSeen(agents));
    ReportTotals(agents, keys, Since(nowMs));
    assert StatsOf(Data(Some(agents)), nowMs) == ReportFrom(agents, ChainRows(agents, keys, Since(nowMs)));
  }

  /** The totals of the report built over any list of the distinct chain ids. */
  lemma ReportTotals(agents: seq<IndexedAgent>, keys: seq<nat>, since: int)
    requires Distinct(keys) && forall c :: c in keys <==> c in ChainIds(agents)
    ensures var r := ReportFrom(agents, ChainRows(agents, keys, since));
      && r.totalAgents == |agents|
      && r.totalChains == |ChainIds(agents)|
      && SumAgentCounts(r.chains) == |agents|
  {
    DistinctCard(keys, ChainIds(agents));
    GroupsPartition(agents, keys);
    RowsFacts(agents, keys, since);
    var r := ReportFrom(agents, ChainRows(agents, keys, since));
    SummarySum(r.chains, agents, keys);
  }

  function SumAgentCounts(rows: seq<ChainSummary>): nat
    decreases |rows|
  {
    if |rows| == 0 then 0 else rows[0].agentCount + SumAgentCounts(rows[1..])
  }

  /** Rows whose counts are the group sizes of `keys` add up to their total. */
  lemma {:induction false} SummarySum(rows: seq<ChainSummary>, agents: seq<IndexedAgent>, keys: seq<nat>)
    requires |rows| == |keys|
    requires forall i :: 0 <= i < |rows| ==> rows[i].agentCount == |OnChain(agents, keys[i])|
    ensures SumAgentCounts(rows) == TotalOver(agents, keys)
    decreases |rows|
  {
    if |rows| > 0 {
      assert forall i :: 0 <= i < |rows[1..]| ==> rows[1..][i] == rows[i + 1] && keys[1..][i] == keys[i + 1];
      SummarySum(rows[1..], agents, keys[1..]);
    }
  }

  /** Each chain that occurs gets exactly one row in every section, at the
      same position; each row carries its chain's name and figures; the rows
      of index-sized chain ids come first in ascending order. */
  lemma ChainRowsFacts(agents: seq<IndexedAgent>, nowMs: int)
    ensures var r := StatsOf(Data(Some(agents)), nowMs); var keys := ChainKeys(agents);
      && |r.chains| == |r.metadata| == |r.ens| == |r.recent24h| == |keys|
      && Distinct(keys)
      && (forall c :: c in keys <==> c in ChainIds(agents))
      && (forall i, j :: 0 <= i < j < |keys| && IsIndexKey(keys[j]) ==> keys[i] < keys[j])
      && forall i :: 0 <= i < |keys| ==>
           var c := keys[i];
           && r.chains[i] == ChainSummary(c, ChainName(c), |OnChain(agents, c)|)
           && r.metadata[i].chainId == c && r.ens[i].chainId == c && r.recent24h[i].chainId == c
           && r.metadata[i].withMetadata == Count(OnChain(agents, c), HasMetadata)
           && r.metadata[i].withMetadata + r.metadata[i].withoutMetadata == |OnChain(agents, c)|
           && r.metadata[i].metadataPercentage <= 100
           && r.ens[i].withENS == Count(OnChain(agents, c), HasEns)
           && r.ens[i].withENS + r.ens[i].withoutENS == |OnChain(agents, c)|
           && r.ens[i].ensPercentage <= 100
           && r.recent24h[i].recentCount == Count(OnChain(agents, c), CreatedAfter(Since(nowMs)))
  {
    var keys := ChainKeys(agents);
    FirstSeenFacts(agents);
    ObjectKeysFacts(FirstSeen(agents));
    RowsFacts(agents, keys, Since(nowMs));
    assert StatsOf(Data(Some(agents)), nowMs) == ReportFrom(agents, ChainRows(agents, keys, Since(nowMs)));
  }

  /** The rows built for any list of keys carry each key's figures. */
  lemma RowsFacts(agents: seq<IndexedAgent>, keys: seq<nat>, since: int)
    ensures var r := ReportFrom(agents, ChainRows(agents, keys, since));
      && |r.chains| == |r.metadata| == |r.ens| == |r.recent24h| == |keys|
      && forall i :: 0 <= i < |keys| ==>
           var c := keys[i];
           && r.chains[i] == ChainSummary(c, ChainName(c), |OnChain(agents, c)|)
           && r.metadata[i].chainId == c && r.ens[i].chainId == c && r.recent24h[i].chainId == c
           && r.metadata[i].withMetadata == Count(OnChain(agents, c), HasMetadata)
           && r.metadata[i].withMetadata + r.metadata[i].withoutMetadata == |OnChain(agents, c)|
           && r.metadata[i].metadataPercentage <= 100
           && r.ens[i].withENS == Count(OnChain(agents, c), HasEns)
           && r.ens[i].withENS + r.ens[i].withoutENS == |OnChain(agents, c)|
           && r.ens[i].ensPercentage <= 100
           && r.recent24h[i].recentCount == Count(OnChain(agents, c), CreatedAfter(since))
  {
  }
}
