/** `buildPrompt` of the discover route: the instruction text sent to the
    chat-completion service, built from the user's query and the candidate
    agents with their optional skill cards. */
module DiscoverPrompt {
  import opened Wrappers
  import opened Text

  /** An agent as the caller sends it. */
  datatype Agent = Agent(agentId: string, agentName: string, description: Option<string>)

  /** One capability entry of an agent card. */
  datatype Skill = Skill(
    id: Option<string>,
    name: Option<string>,
    description: Option<string>,
    tags: Option<seq<string>>,
    examples: Option<seq<string>>,
    inputModes: Option<seq<string>>,
    outputModes: Option<seq<string>>)

  datatype Card = Card(name: Option<string>, description: Option<string>, skills: Option<seq<Skill>>)

  /** The unit the prompt serialises: an agent and its card, if any. */
  datatype AgentWithCard = AgentWithCard(agent: Agent, card: Option<Card>)

  /** Card lookup by agent name. The deployed handler has no card store and
      always answers "no card". */
  function GetAgentCard(agentName: string): (card: Option<Card>)
    ensures card.None?
  {
    None
  }

  /** The fixed instructions that open every prompt, line by line. */
  const HeaderLines: seq<string> := [
    "You are a trust and routing assistant. Given a user query and a list of agents (with names, descriptions, and skills from their agent cards), analyze each agent and return:",
    "1. The IDs of agents that best match the query (sorted by relevance)",
    "2. A trust score (0-100) for each matched agent based on:",
    "   - Quality and sentiment of feedback mentioned in their descriptions",
    "   - Strength and credibility of their relationship network",
    "   - Consistency and reliability indicators",
    "   - Relevance and specificity of their skills to the query",
    "",
    "Respond ONLY with JSON in the exact shape: ",
    "{",
    "  \"matches\": [",
    "    { \"agentId\": \"<id>\", \"trustScore\": <0-100>, \"reasoning\": \"<brief explanation>\" },",
    "    ...",
    "  ]",
    "}",
    "",
    "CRITICAL Guidelines:",
    "- ONLY include agents whose skills directly match or are relevant to the query",
    "- If an agent's skills don't fit the query, EXCLUDE them completely from results",
    "- Prefer agents with specific, well-documented skills that address the query",
    "- Higher trust scores for agents with positive feedback, strong relationships, credible networks, AND relevant skills",
    "- Include up to 10 matches. If none fit, return an empty array",
    "- Do not add commentary or code blocks, just JSON"
  ]

  const Header: string := Join(HeaderLines, "\n")

  const QueryMarker: string := "\n\nUser Query:\n"
  const AgentsMarker: string := "\n\nAgents:\n"
  const DescriptionLabel: string := "Description (includes feedback & trust graph):\n"
  const Placeholder: string := "No description available"
  const NoSkills: string := "Skills: None documented"
  const NameLabel: string := "    Name: "
  const SkillDescriptionLabel: string := "    Description: "
  const TagsLabel: string := "    Tags: "
  const ExamplesLabel: string := "    Examples: "

  /** A list field that is present and non-empty. */
  predicate NonEmptyList(l: Option<seq<string>>) {
    l.Some? && |l.value| > 0
  }

  /** The card has a non-empty skills list. */
  predicate HasSkills(card: Option<Card>) {
    card.Some? && card.value.skills.Some? && |card.value.skills.value| > 0
  }

  function SkillTitle(index: nat): string {
    "  Skill " + NatToDecimal(index) + ":"
  }

  /** The lines of skill number `index`: its title, then Name, Description,
      Tags and Examples, each only when present. */
  function SkillLines(index: nat, s: Skill): seq<string> {
    [SkillTitle(index)] + NameLines(s) + DescriptionLines(s) + TagLines(s) + ExampleLines(s)
  }

  function NameLines(s: Skill): seq<string> {
    if Present(s.name) then [NameLabel + s.name.value] else []
  }

  function DescriptionLines(s: Skill): seq<string> {
    if Present(s.description) then [SkillDescriptionLabel + s.description.value] else []
  }

  function TagLines(s: Skill): seq<string> {
    if NonEmptyList(s.tags) then [TagsLabel + Join(s.tags.value, ", ")] else []
  }

  function ExampleLines(s: Skill): seq<string> {
    if NonEmptyList(s.examples) then [ExamplesLabel + Join(s.examples.value, "; ")] else []
  }

  function SkillText(index: nat, s: Skill): string {
    Join(SkillLines(index, s), "\n")
  }

  function SkillsSection(card: Option<Card>): string {
    if HasSkills(card) then
      var skills := card.value.skills.value;
      "Skills:\n" + Join(seq(|skills|, i requires 0 <= i < |skills| => SkillText(i + 1, skills[i])), "\n")
    else NoSkills
  }

  /** `(a.description || 'No description available').toString()`. */
  function DescriptionText(d: Option<string>): string {
    if Present(d) then d.value else Placeholder
  }

  function HeaderLine(k: nat, a: Agent): string {
    "#" + NatToDecimal(k) + " id=" + a.agentId + " name=" + a.agentName
  }

  /** The block of the `k`-th agent (numbered from 1). */
  function AgentBlock(k: nat, a: AgentWithCard): string {
    Join([HeaderLine(k, a.agent), DescriptionLabel + DescriptionText(a.agent.description), SkillsSection(a.card)], "\n")
  }

  function AgentBlocks(agents: seq<AgentWithCard>): seq<string> {
    seq(|agents|, i requires 0 <= i < |agents| => AgentBlock(i + 1, agents[i]))
  }

  /** The agent blocks, in input order, separated by a blank line. */
  function AgentList(agents: seq<AgentWithCard>): string {
    Join(AgentBlocks(agents), "\n\n")
  }

  /** `buildPrompt(query, agents)`. */
  function BuildPrompt(query: string, agents: seq<AgentWithCard>): (p: string)
    ensures var off := |Header + QueryMarker|;
      && off + |query| <= |p|
      && p[..off] == Header + QueryMarker
      && p[off..off + |query|] == query
      && p[off + |query|..] == AgentsMarker + AgentList(agents)
  {
    var head := Header + QueryMarker;
    var tail := AgentsMarker + AgentList(agents);
    Layout(head, query, tail);
    head + query + tail
  }

  // ---------------------------------------------------------------------------
  // Properties of the prompt
  // ---------------------------------------------------------------------------

  /** Splitting a three-part concatenation at the ends of its first and second parts. */
  lemma Layout(head: string, q: string, tail: string)
    ensures var p := head + q + tail;
      && |head| + |q| <= |p|
      && p[..|head|] == head
      && p[|head|..|head| + |q|] == q
      && p[|head| + |q|..] == tail
  {
  }

  /** Two prompts over the same agents are equal only for equal queries. */
  lemma PromptDeterminesQuery(q1: string, q2: string, agents: seq<AgentWithCard>)
    requires BuildPrompt(q1, agents) == BuildPrompt(q2, agents)
    ensures q1 == q2
  {
    assert |BuildPrompt(q1, agents)| == |Header + QueryMarker| + |q1| + |AgentsMarker + AgentList(agents)|;
  }

  /** Each block starts with `#k id=<agentId> name=<agentName>`, followed by the
      description line (the placeholder when the description is missing or
      empty), and ends with the skills section. */
  lemma AgentBlockLayout(k: nat, a: AgentWithCard)
    ensures AgentBlock(k, a) ==
      "#" + NatToDecimal(k) + " id=" + a.agent.agentId + " name=" + a.agent.agentName + "\n"
      + DescriptionLabel + DescriptionText(a.agent.description) + "\n"
      + SkillsSection(a.card)
    ensures !Present(a.agent.description) ==> DescriptionText(a.agent.description) == Placeholder
    ensures Present(a.agent.description) ==> DescriptionText(a.agent.description) == a.agent.description.value
  {
    var header := HeaderLine(k, a.agent);
    var description := DescriptionLabel + DescriptionText(a.agent.description);
    Join3(header, description, SkillsSection(a.card), "\n");
    assert header + "\n" + description == header + "\n" + DescriptionLabel + DescriptionText(a.agent.description);
  }

  /** Appending an agent appends a blank line and that agent's block, numbered
      one past the previous ones: the blocks are numbered 1..n in input order. */
  lemma AgentListSnoc(agents: seq<AgentWithCard>, a: AgentWithCard)
    ensures AgentList(agents + [a]) ==
      if agents == [] then AgentBlock(1, a)
      else AgentList(agents) + "\n\n" + AgentBlock(|agents| + 1, a)
  {
    var blocks := AgentBlocks(agents + [a]);
    assert blocks == AgentBlocks(agents) + [AgentBlock(|agents| + 1, a)];
    if agents != [] {
      JoinSnoc(AgentBlocks(agents), AgentBlock(|agents| + 1, a), "\n\n");
    }
  }

  /** An agent gets exactly "Skills: None documented" when, and only when, it
      has no card or its card lists no skills. */
  lemma NoSkillsMarker(card: Option<Card>)
    ensures SkillsSection(card) == NoSkills <==> !HasSkills(card)
  {
    if HasSkills(card) {
      var s := SkillsSection(card);
      assert s[7] == '\n';
      assert NoSkills[7] == ' ';
    }
  }

  /** A skill section lists its title and, beyond it, exactly the fields that
      are present: the Name and Description when non-empty, the Tags joined by
      ", " and the Examples joined by "; " when those lists are non-empty. */
  lemma SkillLinesListPresentFields(index: nat, s: Skill)
    ensures SkillLines(index, s)[0] == SkillTitle(index)
    ensures (s.name.Some? && NameLabel + s.name.value in SkillLines(index, s)) <==> Present(s.name)
    ensures (s.description.Some? && SkillDescriptionLabel + s.description.value in SkillLines(index, s))
            <==> Present(s.description)
    ensures (s.tags.Some? && TagsLabel + Join(s.tags.value, ", ") in SkillLines(index, s))
            <==> NonEmptyList(s.tags)
    ensures (s.examples.Some? && ExamplesLabel + Join(s.examples.value, "; ") in SkillLines(index, s))
            <==> NonEmptyList(s.examples)
  {
    assert SkillLines(index, s) == [SkillTitle(index)] + NameLines(s) + DescriptionLines(s) + TagLines(s) + ExampleLines(s);
    if s.name.Some? {
      NameLineKind(index, s);
    }
    if s.description.Some? {
      DescriptionLineKind(index, s);
    }
    if s.tags.Some? {
      TagLineKind(index, s);
    }
    if s.examples.Some? {
      ExampleLineKind(index, s);
    }
  }

  // The fifth character tells the kinds of skill line apart, so a field's
  // line can only come from that field.
  lemma NameLineKind(index: nat, s: Skill)
    requires s.name.Some?
    ensures NameLabel + s.name.value in SkillLines(index, s) ==> NameLabel + s.name.value in NameLines(s)
  {
    var x := NameLabel + s.name.value;
    assert SkillLines(index, s) == [SkillTitle(index)] + NameLines(s) + DescriptionLines(s) + TagLines(s) + ExampleLines(s);
    assert x[4] == 'N';
    assert SkillTitle(index)[4] == 'i';
    assert forall line :: line in DescriptionLines(s) ==> line[4] == 'D';
    assert forall line :: line in TagLines(s) ==> line[4] == 'T';
    assert forall line :: line in ExampleLines(s) ==> line[4] == 'E';
  }

  lemma DescriptionLineKind(index: nat, s: Skill)
    requires s.description.Some?
    ensures SkillDescriptionLabel + s.description.value in SkillLines(index, s) ==> SkillDescriptionLabel + s.description.value in DescriptionLines(s)
  {
    var x := SkillDescriptionLabel + s.description.value;
    assert SkillLines(index, s) == [SkillTitle(index)] + NameLines(s) + DescriptionLines(s) + TagLines(s) + ExampleLines(s);
    assert x[4] == 'D';
    assert SkillTitle(index)[4] == 'i';
    assert forall line :: line in NameLines(s) ==> line[4] == 'N';
    assert forall line :: line in TagLines(s) ==> line[4] == 'T';
    assert forall line :: line in ExampleLines(s) ==> line[4] == 'E';
  }

  lemma TagLineKind(index: nat, s: Skill)
    requires s.tags.Some?
    ensures TagsLabel + Join(s.tags.value, ", ") in SkillLines(index, s) ==> TagsLabel + Join(s.tags.value, ", ") in TagLines(s)
  {
    var x := TagsLabel + Join(s.tags.value, ", ");
    assert SkillLines(index, s) == [SkillTitle(index)] + NameLines(s) + DescriptionLines(s) + TagLines(s) + ExampleLines(s);
    assert x[4] == 'T';
    assert SkillTitle(index)[4] == 'i';
    assert forall line :: line in NameLines(s) ==> line[4] == 'N';
    assert forall line :: line in DescriptionLines(s) ==> line[4] == 'D';
    assert forall line :: line in ExampleLines(s) ==> line[4] == 'E';
  }

  lemma ExampleLineKind(index: nat, s: Skill)
    requires s.examples.Some?
    ensures ExamplesLabel + Join(s.examples.value, "; ") in SkillLines(index, s) ==> ExamplesLabel + Join(s.examples.value, "; ") in ExampleLines(s)
  {
    var x := ExamplesLabel + Join(s.examples.value, "; ");
    assert SkillLines(index, s) == [SkillTitle(index)] + NameLines(s) + DescriptionLines(s) + TagLines(s) + ExampleLines(s);
    assert x[4] == 'E';
    assert SkillTitle(index)[4] == 'i';
    assert forall line :: line in NameLines(s) ==> line[4] == 'N';
    assert forall line :: line in DescriptionLines(s) ==> line[4] == 'D';
    assert forall line :: line in TagLines(s) ==> line[4] == 'T';
  }

  /** Neither a skill's id nor its input and output modes reach the prompt. */
  lemma SkillTextIgnoresIdAndModes(index: nat, s: Skill, id: Option<string>, inModes: Option<seq<string>>,
                                   outModes: Option<seq<string>>)
    ensures SkillText(index, s.(id := id, inputModes := inModes, outputModes := outModes)) == SkillText(index, s)
  {
  }
}
