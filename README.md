# Agent explorer API routes in Dafny

This project models the four server routes of the agent explorer web app, the
Next.js handlers under `apps/web/app/api/`:

- `POST /api/discover` validates a query and a list of candidate agents. It
  builds a routing prompt over at most 200 of them and asks a chat-completion
  service which agents match. It then recovers at most 50 match records from
  the untrusted reply, first by parsing the whole text and then by parsing its
  first `{ ... }` span.
- `GET /api/stats` groups the indexed agents by chain and enumerates the
  chains in `Object.keys` order. For each chain it counts the agents that have
  metadata, an ENS endpoint or were created in the last 24 hours, with
  rounded percentages. It also lists the first ten agents.
- `GET /api/agents` reads the paging and filter parameters (`parseInt`,
  clamping, trimming, lower-casing). It builds the indexer filters and answers
  `{rows, total, page, pageSize}`.
- `POST /api/graph-layout` validates a graph and builds its description with
  canvas defaults. It asks the service for coordinates and returns the
  `layout` member of the `{ ... "layout" ... }` span of the reply.

The handlers are modelled as functions of what they read. The request body
or query string, the environment variables (`OPENAI_API_KEY`,
`OPENAI_MODEL`) and the clock (`Date.now()`) are inputs. So are the outcomes
of the network calls: the chat-completion reply is an `Upstream` value, and
each GraphQL reply an `IndexerData` value. `JSON.parse` is a parameter
`parse: string -> Option<Json>`, where `None` stands for a thrown
`SyntaxError`. A handler that calls the service returns the call it made
(model, system instruction, prompt, temperature) next to its response, so the
contracts can say when a request is forwarded and with what.

Modules:

| module | contents |
|---|---|
| `Wrappers` | `Option` |
| `Text` | `join`, `trim`, `toLowerCase`, decimal rendering, `parseInt` with and without radix, and the first/last-occurrence and substring searches that build the spans of the two regular expressions passed to `String.prototype.match` |
| `Json` | parsed JSON values, property lookup, truthiness, `String(x)` |
| `Http` | response envelope, service call and reply, indexer reply |
| `DiscoverPrompt` | `buildPrompt`, `getAgentCard` |
| `DiscoverParse` | `tryParseMatches` and the coercion of match records |
| `Discover` | the discover handler |
| `Stats` | grouping, `Object.keys` order, per-chain figures, the stats report; `GroupByChain` and `GetStats` are methods with loops or step-by-step state |
| `Agents` | paging, filters (`BuildFilters` is step-by-step), the agents handler |
| `GraphLayout` | graph description, layout span, the graph-layout handler |

The source comment at `stats/route.ts:117` says the top agents are "sorted by
agentId". The code only takes the first ten in indexer order, and the model
follows the code (`Stats.TopAgents`).

## Model

Source paths are relative to the repository root.

| member | source | states |
|---|---|---|
| `Text.TrimStart` | apps/web/app/api/discover/route.ts:117 | the result is a suffix of the input that drops only whitespace and does not start with whitespace |
| `Text.TrimEnd` | apps/web/app/api/discover/route.ts:117 | the result is a prefix of the input that drops only whitespace and does not end with whitespace |
| `Text.Trim` | apps/web/app/api/agents/route.ts:50-52 | the result is no longer than the input, is empty exactly when the input is all whitespace, and has no whitespace at either end |
| `Text.TrimIdempotent` | apps/web/app/api/agents/route.ts:50-52 | trimming twice gives the same string as trimming once |
| `Text.ToLower` | apps/web/app/api/agents/route.ts:59-60 | lower-casing keeps the length, turns each capital A-Z into the lower-case letter at the same place in the alphabet, leaves no upper-case letter and changes nothing else |
| `Text.ToLowerFacts` | apps/web/app/api/agents/route.ts:59-60 | lower-casing keeps the length, turns each capital into its lower-case letter, leaves no upper-case letter, changes nothing else (whitespace included) and is idempotent |
| `Text.Join` | apps/web/app/api/discover/route.ts:66-78 | defined by its body: `Array.prototype.join`, the parts with the separator between neighbours; its properties are the next two lemmas |
| `Text.JoinStartsWithFirst` | apps/web/app/api/discover/route.ts:78 | a non-empty join starts with its first part |
| `Text.JoinSnoc` | apps/web/app/api/discover/route.ts:79 | appending a part appends the separator and that part |
| `Text.IndexOf` | apps/web/app/api/discover/route.ts:98 | the first position holding the character, or none when it does not occur |
| `Text.LastIndexOf` | apps/web/app/api/discover/route.ts:98 | the last position holding the character, or none when it does not occur |
| `Text.Contains` | apps/web/app/api/graph-layout/route.ts:84 | true exactly when the pattern occurs at some position |
| `Text.OccursInSlice` | apps/web/app/api/graph-layout/route.ts:84 | an occurrence inside a slice is an occurrence in the whole string within the slice's bounds, and conversely |
| `Text.NatToDecimal` | apps/web/app/api/discover/route.ts:60 | the rendering is non-empty, all digits, and has no leading zero |
| `Text.IntToDecimal` | apps/web/app/api/discover/route.ts:91 | defined by its body: `String(n)` of an integer, a minus sign before the rendering of a negative one; read back by `Text.IntegerRoundTrip` |
| `Text.DigitRunLength` | apps/web/app/api/agents/route.ts:46 | the length of the longest prefix made of digits of the radix |
| `Text.ParseIntWith` | apps/web/app/api/agents/route.ts:46-57 | a string without a decimal digit reads as NaN; with radix 10, a digit after the leading whitespace reads as a number of at least 0 |
| `Text.DecimalRoundTrip` | apps/web/app/api/stats/route.ts:98-99 | `parseInt(String(n))` gives a natural number `n` back, with or without a radix argument |
| `Text.NegativeRead` | apps/web/app/api/agents/route.ts:57 | `parseInt("-" + String(n))` gives -n, with or without a radix argument |
| `Text.IntegerRoundTrip` | apps/web/app/api/agents/route.ts:57 | `parseInt(String(n))` gives any integer n back, with or without a radix argument |
| `Text.HexRead` | apps/web/app/api/agents/route.ts:57 | without a radix argument, "0x" followed by hexadecimal digits is read in radix 16 |
| `Text.HexAsDecimal` | apps/web/app/api/agents/route.ts:46-47 | with radix 10, a string starting "0x" reads as 0 |
| `Text.ParseDecimalPrefix` | apps/web/app/api/discover/route.ts:155 | `parseInt` reads a rendered number and stops at the first non-digit |
| `Json.Lookup` | apps/web/app/api/discover/route.ts:88-89 | a key is found exactly when it is bound, and the value found is that of its last binding |
| `Json.Get` | apps/web/app/api/discover/route.ts:89-93 | defined by its body: an object's binding as found by `Json.Lookup`, and `undefined` on any other value |
| `Json.Truthy` | apps/web/app/api/discover/route.ts:89 | a value is falsy exactly when it is `null`, `false`, `0` or `""`; arrays and objects are truthy |
| `Json.ToStr` | apps/web/app/api/discover/route.ts:91 | `null` gives "null", a string itself, an empty array ""; an object throws exactly when it has an own `toString` member and otherwise gives "[object Object]" |
| `Json.ToStrEmpty` | apps/web/app/api/discover/route.ts:91-94 | only the empty string and arrays convert to "" |
| `Http.ModelName` | apps/web/app/api/discover/route.ts:134 | the model is the configured one when set and non-empty, and "gpt-4o-mini" when the variable is missing or empty |
| `Http.UpstreamFailure` | apps/web/app/api/discover/route.ts:153-155 | a non-OK reply gives status 500 with "OpenAI error: <status> <text>" |
| `Http.UpstreamStatusRecoverable` | apps/web/app/api/discover/route.ts:155 | the status can be read back from that error text |
| `DiscoverPrompt.GetAgentCard` | apps/web/app/api/discover/route.ts:24-29 | no agent has a card |
| `DiscoverPrompt.SkillsSection` | apps/web/app/api/discover/route.ts:64-76 | defined by its body: "Skills:" and the numbered skill texts, or "Skills: None documented"; stated by `DiscoverPrompt.NoSkillsMarker` |
| `DiscoverPrompt.AgentBlock` | apps/web/app/api/discover/route.ts:59-78 | defined by its body: the header line, the description line and the skills section joined by newlines; stated by `DiscoverPrompt.AgentBlockLayout` |
| `DiscoverPrompt.BuildPrompt` | apps/web/app/api/discover/route.ts:33-82 | the prompt is the fixed header, the query verbatim at a fixed offset, then the agent list |
| `DiscoverPrompt.PromptDeterminesQuery` | apps/web/app/api/discover/route.ts:81 | two prompts over the same agents are equal only for equal queries |
| `DiscoverPrompt.AgentBlockLayout` | apps/web/app/api/discover/route.ts:59-62 | each block is the `#k id= name=` line, the description line and the skills section; the placeholder appears exactly when the description is missing or empty |
| `DiscoverPrompt.AgentListSnoc` | apps/web/app/api/discover/route.ts:58-79 | the blocks are numbered 1..n in input order and separated by a blank line |
| `DiscoverPrompt.NoSkillsMarker` | apps/web/app/api/discover/route.ts:64-76 | "Skills: None documented" appears exactly when there is no card or no skill |
| `DiscoverPrompt.SkillLinesListPresentFields` | apps/web/app/api/discover/route.ts:66-71 | a skill lists its title and exactly the fields that are present: name and description when non-empty, tags and examples when non-empty lists |
| `DiscoverPrompt.SkillTextIgnoresIdAndModes` | apps/web/app/api/discover/route.ts:65-72 | a skill's id and input/output modes never reach the prompt |
| `DiscoverParse.IdSource` | apps/web/app/api/discover/route.ts:91 | defined by its body: `x.agentId || x`; stated by `DiscoverParse.CoerceMatch` and `DiscoverParse.ObjectWithoutIdIsKept` |
| `DiscoverParse.ScoreOf` | apps/web/app/api/discover/route.ts:92 | defined by its body: a numeric `trustScore`, else 50; stated by `DiscoverParse.ObjectElement` |
| `DiscoverParse.ReasoningOf` | apps/web/app/api/discover/route.ts:93 | defined by its body: a truthy `reasoning`, else none; stated by `DiscoverParse.ObjectElement` |
| `DiscoverParse.CoerceAll` | apps/web/app/api/discover/route.ts:90-93 | the map succeeds exactly when every element coerces, and then it keeps the length and each element's record |
| `DiscoverParse.CoerceMatch` | apps/web/app/api/discover/route.ts:90-93 | `null` throws; a bare string becomes a match with that id, score 50 and no reasoning; an object's string id is kept; the score and reasoning follow the record's fields |
| `DiscoverParse.KeepIdentified` | apps/web/app/api/discover/route.ts:94 | keeps exactly the records with a non-empty id, each as many times as it occurs, as an order-preserving subsequence; changes nothing when all ids are non-empty |
| `DiscoverParse.Extract` | apps/web/app/api/discover/route.ts:89-95 | matches are recovered exactly when the value is truthy and its `matches` member is an array whose every element coerces; they are then the coerced elements with a non-empty id |
| `DiscoverParse.TryParseMatches` | apps/web/app/api/discover/route.ts:86-112 | every returned match has a non-empty id |
| `DiscoverParse.BraceSpan` | apps/web/app/api/discover/route.ts:98 | a span starts at the first `{` and ends just after the last `}` |
| `DiscoverParse.BraceSpanIsRegexMatch` | apps/web/app/api/discover/route.ts:98 | the span is absent exactly when `/\{[\s\S]*\}/` has no match, and is otherwise its leftmost-longest match |
| `DiscoverParse.StrictBeforeSalvage` | apps/web/app/api/discover/route.ts:86-111 | the whole-text parse wins when it yields matches; the span is parsed only otherwise; else `[]` |
| `DiscoverParse.NoBraceNoMatches` | apps/web/app/api/discover/route.ts:98-111 | text that does not parse and has no braced span yields `[]` |
| `DiscoverParse.WholeTextIsBraceSpan` | apps/web/app/api/discover/route.ts:98 | a text that starts with `{` and ends with `}` is its own braced span |
| `DiscoverParse.NoOpenBraceNoMatches` | apps/web/app/api/discover/route.ts:96-111 | text that does not parse and has no `{` yields `[]` |
| `DiscoverParse.SingleMatch` | apps/web/app/api/discover/route.ts:89-94 | `{"matches": [x]}` yields exactly the record of `x` when it has an id |
| `DiscoverParse.NullElementFails` | apps/web/app/api/discover/route.ts:90-91 | a `null` element makes the whole coercion throw |
| `DiscoverParse.NullElementDiscardsAll` | apps/web/app/api/discover/route.ts:96-111 | so a single `null` in the matches of a braced reply discards every match |
| `DiscoverParse.BareIdElement` | apps/web/app/api/discover/route.ts:91-93 | a bare string element becomes a match with that id, score 50 and no reasoning |
| `DiscoverParse.ObjectElement` | apps/web/app/api/discover/route.ts:91-93 | an object with a string id keeps it; a numeric score is kept unclamped, anything else gives 50; reasoning is kept exactly when truthy |
| `DiscoverParse.ObjectWithoutIdIsKept` | apps/web/app/api/discover/route.ts:91 | an object without a truthy id gets the id "[object Object]" and is kept |
| `DiscoverParse.EmptyIdSources` | apps/web/app/api/discover/route.ts:91-94 | only an empty string or an array can yield an empty id |
| `DiscoverParse.WellFormedReply` | apps/web/app/api/discover/route.ts:88-94 | a well-formed reply yields its match with the given score |
| `DiscoverParse.WrappedReply` | apps/web/app/api/discover/route.ts:97-108 | a reply wrapped in brace-free commentary is recovered from its span |
| `DiscoverParse.FencedReply` | apps/web/app/api/discover/route.ts:97-108 | a reply in a fenced code block is recovered with the default score |
| `DiscoverParse.ProseReply` | apps/web/app/api/discover/route.ts:96-111 | a prose refusal yields no matches |
| `Discover.QueryText` | apps/web/app/api/discover/route.ts:117 | an absent or `null` query reads as "", a string query as itself |
| `Discover.WithCards` | apps/web/app/api/discover/route.ts:129-132 | the first min(n, 200) agents, in order, each with no card |
| `Discover.Take` | apps/web/app/api/discover/route.ts:160 | the first n elements, or the whole list when it has at most n |
| `Discover.DiscoverCall` | apps/web/app/api/discover/route.ts:129-147 | defined by its body: the configured model, the fixed system instruction, the prompt over the first 200 agents, temperature 0; stated by `Discover.ForwardedPrompt` and `Discover.HandleDiscover` |
| `Discover.Answer` | apps/web/app/api/discover/route.ts:153-162 | a reply with content yields the first 50 recovered matches; a non-OK reply the OpenAI error; a thrown call status 500 |
| `Discover.HandleDiscover` | apps/web/app/api/discover/route.ts:114-166 | the service is called exactly for a non-blank query, a non-empty agent list and a configured key, with temperature 0 and the built prompt; a blank query gives 400 before anything else is checked; no agents gives no matches; a missing key then gives 400 "OPENAI_API_KEY not configured"; an accepted answer has at most 50 matches, each with an id |
| `Discover.MissingQueryIffBlank` | apps/web/app/api/discover/route.ts:117-120 | "Missing query" is answered exactly when the query converts to whitespace only |
| `Discover.ForwardedPrompt` | apps/web/app/api/discover/route.ts:129-135 | the forwarded prompt carries the query verbatim after the header, then the list of the first 200 agents |
| `Discover.ForwardedQueryDetermined` | apps/web/app/api/discover/route.ts:135-147 | forwarded calls with different queries differ |
| `Stats.Grouping` | apps/web/app/api/stats/route.ts:80-86 | defined by its body: each chain that occurs mapped to its group; built by `Stats.GroupByChain` |
| `Stats.FirstSeen` | apps/web/app/api/stats/route.ts:80-86 | defined by its body: the chain ids in the order a chain is first met; stated by `Stats.FirstSeenFacts` |
| `Stats.OnChain` | apps/web/app/api/stats/route.ts:80-86 | a chain's group holds exactly the agents of that chain, and no more agents than the input |
| `Stats.OnChainSnoc` | apps/web/app/api/stats/route.ts:81-86 | one more agent is appended to the end of its own chain's group and to no other, so each group keeps input order |
| `Stats.FirstSeenFacts` | apps/web/app/api/stats/route.ts:80-86 | the insertion order lists each chain that occurs exactly once |
| `Stats.GroupingSnoc` | apps/web/app/api/stats/route.ts:81-86 | one more agent is appended to its chain's group, which is created if missing |
| `Stats.GroupByChain` | apps/web/app/api/stats/route.ts:80-86 | the loop builds exactly the grouping of the agents and the key insertion order |
| `Stats.InsertAscending` | apps/web/app/api/stats/route.ts:98 | inserting keeps a sequence ascending, adding exactly the new key |
| `Stats.SortAscending` | apps/web/app/api/stats/route.ts:98 | the result ascends and holds exactly the input's elements |
| `Stats.ObjectKeys` | apps/web/app/api/stats/route.ts:98 | defined by its body: the ascending index keys, then the other keys in insertion order; stated by `Stats.ObjectKeysFacts` |
| `Stats.ObjectKeysFacts` | apps/web/app/api/stats/route.ts:98 | `Object.keys` lists each key once; index keys come first in ascending order, then the others in insertion order |
| `Stats.KeyGroupsJoined` | apps/web/app/api/stats/route.ts:98 | an ascending run of index keys followed by distinct other keys has no repeats, and every index key sits in the ascending run |
| `Stats.GroupsPartition` | apps/web/app/api/stats/route.ts:80-86 | the group sizes add up to the number of agents |
| `Stats.ChainName` | apps/web/app/api/stats/route.ts:88-95 | a chain name is never empty |
| `Stats.ChainNameInjective` | apps/web/app/api/stats/route.ts:88-95 | different chains get different names |
| `Stats.Count` | apps/web/app/api/stats/route.ts:101-103 | a filter count is at most the group size; it is the size exactly when all agents pass, and 0 exactly when none do |
| `Stats.Since` | apps/web/app/api/stats/route.ts:77 | the cut-off is one day before now, with now floored to whole seconds |
| `Stats.ChainStatsOf` | apps/web/app/api/stats/route.ts:99-114 | a chain's row has its id, name and size; with and without metadata (and ENS) add up to the size; recent agents are at most the size |
| `Stats.Percentage` | apps/web/app/api/stats/route.ts:144 | 0 for an empty chain, else the nearest integer to 100·part/count; at most 100, exactly 100 when all agents pass, 0 when none do |
| `Stats.KeyToChainId` | apps/web/app/api/stats/route.ts:99-100 | `parseInt` of a key gives back the chain id it was made from |
| `Stats.StatsOf` | apps/web/app/api/stats/route.ts:59-164 | no data or no agents gives the all-zero report; otherwise the total is the number of agents, the four sections have one row per chain key, and the top list is that of the agents |
| `Stats.GetStats` | apps/web/app/api/stats/route.ts:59-164 | the handler's report equals the report of the specification |
| `Stats.EmptyExactlyWithoutAgents` | apps/web/app/api/stats/route.ts:59-74 | the all-zero report is answered exactly when there is no data or no agent |
| `Stats.TotalsAddUp` | apps/web/app/api/stats/route.ts:128-137 | the total is the number of agents; the chain total is the number of distinct chains; the per-chain counts add up to the total |
| `Stats.ChainRowsFacts` | apps/web/app/api/stats/route.ts:98-162 | each chain gets one row at the same position in all four sections, with its figures and percentages ≤ 100; the rows of index-sized ids ascend |
| `Stats.TopAgents` | apps/web/app/api/stats/route.ts:118-126 | the first ten agents in order, with chain name, "Unnamed" for a missing name, the ENS endpoint as ENS name when given and none otherwise |
| `Agents.ParamOr` | apps/web/app/api/agents/route.ts:46-52 | a present, non-empty parameter is taken, else the fallback |
| `Agents.MaxWith` | apps/web/app/api/agents/route.ts:46 | `Math.max` keeps NaN, and otherwise is at least the bound and one of its arguments |
| `Agents.MinWith` | apps/web/app/api/agents/route.ts:47 | `Math.min` keeps NaN, and otherwise is at most the bound and one of its arguments |
| `Agents.DefaultsParse` | apps/web/app/api/agents/route.ts:46-47 | the defaults "1" and "50" parse as 1 and 50 |
| `Agents.PageOf` | apps/web/app/api/agents/route.ts:46 | the page is at least 1, is 1 when the parameter is absent, and is NaN exactly when a given parameter does not parse |
| `Agents.PageSizeOf` | apps/web/app/api/agents/route.ts:47 | the page size lies in 1..100, is 50 when absent, and is NaN exactly when a given parameter does not parse |
| `Agents.OffsetOf` | apps/web/app/api/agents/route.ts:48 | the offset is finite exactly when page and size are, and is then (page - 1) · size |
| `Agents.TrimmedParam` | apps/web/app/api/agents/route.ts:50-52 | defined by its body: `(param || '').trim()`; stated by `Agents.ParamRead` |
| `Agents.FiltersOf` | apps/web/app/api/agents/route.ts:56-60 | limit and offset follow the page parameters; the chain filter is set exactly when that parameter is given and non-empty, and is then `parseInt` of it; each text filter is set exactly when its parameter has more than whitespace, and is then the trimmed parameter, lower-cased for owner and name |
| `Agents.ParamRead` | apps/web/app/api/agents/route.ts:50-52 | a trimmed parameter is non-empty exactly when the parameter has more than whitespace, and is then the trim of the given text |
| `Agents.DecimalParams` | apps/web/app/api/agents/route.ts:46-47 | a decimal page is clamped up to 1, a decimal size into 1..100 |
| `Agents.PagesTile` | apps/web/app/api/agents/route.ts:48 | page 1 starts at 0, and each page starts where the previous one ended |
| `Agents.BuildFilters` | apps/web/app/api/agents/route.ts:56-60 | the step-by-step filters equal the filters of the specification |
| `Agents.FiltersNormalised` | apps/web/app/api/agents/route.ts:50-60 | a text filter is set exactly when its parameter has more than whitespace; it is then non-blank with no whitespace at either end, and the owner and name filters have no upper-case letter; the chain filter is set exactly when that parameter is given and non-empty |
| `Agents.FiltersIdempotent` | apps/web/app/api/agents/route.ts:50-60 | feeding the filters back in as parameters yields the same filters |
| `Agents.TotalOf` | apps/web/app/api/agents/route.ts:102 | the total is the counted length when that is non-zero, else the number of rows |
| `Agents.ListAgents` | apps/web/app/api/agents/route.ts:43-104 | the page and size echo the parsed parameters; without data the page is empty with total 0; otherwise the rows are the agents returned and the total follows the count query |
| `GraphLayout.NodeViews` | apps/web/app/api/graph-layout/route.ts:34 | each node becomes its id and label, in order; a `null` node throws |
| `GraphLayout.EdgeViews` | apps/web/app/api/graph-layout/route.ts:35 | absent or `null` edges give none, another non-array throws, an array gives each edge's from, to and weight |
| `GraphLayout.Dimension` | apps/web/app/api/graph-layout/route.ts:21-22 | a truthy width or height is kept, else the default |
| `GraphLayout.LayoutSpan` | apps/web/app/api/graph-layout/route.ts:84 | a span starts at the first `{`, ends just after the last `}`, and has `"layout"` strictly inside |
| `GraphLayout.LayoutSpanIsRegexMatch` | apps/web/app/api/graph-layout/route.ts:84 | the span is absent exactly when `/\{[\s\S]*"layout"[\s\S]*\}/` has no match, and is otherwise its leftmost-longest match |
| `GraphLayout.LayoutOf` | apps/web/app/api/graph-layout/route.ts:90 | the layout is the truthy `layout` member or `[]`; never falsy |
| `GraphLayout.LayoutAnswer` | apps/web/app/api/graph-layout/route.ts:75-95 | non-OK gives the OpenAI error; a reply that cannot be read gives 500; no span gives "Invalid layout response from AI"; a span that does not parse or parses to `null` throws; otherwise Ok with a truthy layout |
| `GraphLayout.DescriptionOf` | apps/web/app/api/graph-layout/route.ts:33-37 | the description is built exactly when nodes and edges map without throwing, and holds their views and the canvas size |
| `GraphLayout.HasNodeArray` | apps/web/app/api/graph-layout/route.ts:24 | defined by its body: `body.nodes` is an array; stated by `GraphLayout.HandleLayout` |
| `GraphLayout.HandleLayout` | apps/web/app/api/graph-layout/route.ts:16-96 | an unreadable body gives 500; missing nodes give 400 before the key is checked; a missing key gives 400; a node or edge that cannot be read gives 500 without a call; otherwise the description is sent at temperature 0.3 and the reply decides the answer; success implies a call and a truthy layout |
| `GraphLayout.DescriptionKeepsNodes` | apps/web/app/api/graph-layout/route.ts:33-37 | every node appears in order with its id and label; no edges member gives no edges; falsy sizes give 600×400 |
| `GraphLayout.WholeReplyIsSpan` | apps/web/app/api/graph-layout/route.ts:84-89 | a reply that is one braced text mentioning `"layout"` is parsed whole |
| `GraphLayout.NoSpanRefused` | apps/web/app/api/graph-layout/route.ts:84-87 | a reply with no such span is refused |

## Left out

- Numbers are integers. JSON numbers with fractions or exponents, and floating-point arithmetic, are not modelled.
- Stats.Percentage: computed on exact rationals with halves rounded up; the floating-point rounding of `part / count * 100` before `Math.round` is not modelled.
- Text.NatToDecimal: renders every integer in plain decimal; JavaScript's exponent form for numbers of 1e21 and above is not modelled.
- Text.DigitRunLength: `parseInt` keeps every digit exactly; the loss of precision beyond 2^53 and the `Infinity` result are not modelled.
- Text.ToLower, Text.ToLowerFacts: `toLowerCase` is modelled on ASCII letters only.
- The elements of the agent lists (the discover request's `agents`, the indexer's agents in stats) are assumed well-typed records; so the stats handler's catch branch, which answers the all-zero report, is unreachable in the model.
- Agents.ListAgents: the catch branch of the agents route (`{rows: [], total: 0, page: 1, pageSize: 50}`) is unreachable in the model, because nothing in the modelled handler throws.
- GraphLayout.HandleLayout: the call carries the graph description rather than the prompt text; the prompt template and `JSON.stringify` are not modelled.
- The text of a caught exception (`e?.message || 'Unexpected error'`) is left abstract as `Thrown`.
- Stats chain ids are natural numbers; negative or non-integer chain ids are not modelled.
- `fetch`, the GraphQL helper `queryGraphQL` (its endpoint, status and `errors` checks), `console` logging, `process.env` and `Date.now()` are not modelled; their results are inputs.
- The request and response bodies are not serialised: `req.json()`, `NextResponse.json` and the GraphQL query text are outside the model.
- The instructions the prompts give the model (ten matches at most, trust scores from 0 to 100, layout margins) are advice to the model; the routes do not enforce them, and neither does the model.
- The proxy route and the Next.js configuration are not part of this model.
