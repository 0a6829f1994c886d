/** The `POST /api/discover` handler: validate the request, build the routing
    prompt over at most 200 agents, ask the chat-completion service, and return
    at most 50 recovered matches. */
module Discover {
  import opened Wrappers
  import opened Text
  import opened Json
  import opened Http
  import opened DiscoverPrompt
  import opened DiscoverParse

  /** The two fields the handler reads from the request body. `query` is the
      raw JSON value (`None` when absent, also when the body was not JSON and
      fell back to `{}`); `agents` is `None` unless it is an array. */
  datatype DiscoverBody = DiscoverBody(query: Option<Json>, agents: Option<seq<Agent>>)

  const SystemInstruction: string := "You are a helpful assistant that responds with strict JSON only."
  const MaxPromptAgents: nat := 200
  const MaxMatches: nat := 50

  /** `String(body?.query ?? '')`; `None` when the conversion throws. */
  function QueryText(query: Option<Json>): (r: Option<string>)
    ensures query.None? || query == Some(Null) ==> r == Some("")
    ensures query.Some? && query.value.Str? ==> r == Some(query.value.s)
  {
    match query
    case None => Some("")
    case Some(Null) => Some("")
    case Some(x) => ToStr(x)
  }

  /** `agents.slice(0, 200).map(a => ({...a, card: getAgentCard(a.agentName)}))`. */
  function WithCards(agents: seq<Agent>): (r: seq<AgentWithCard>)
    ensures |r| == if |agents| < MaxPromptAgents then |agents| else MaxPromptAgents
    ensures forall i :: 0 <= i < |r| ==> r[i].agent == agents[i] && r[i].card.None?
  {
    var n := if |agents| < MaxPromptAgents then |agents| else MaxPromptAgents;
    seq(n, i requires 0 <= i < n => AgentWithCard(agents[i], GetAgentCard(agents[i].agentName)))
  }

  /** `.slice(0, n)`. */
  function Take<T>(xs: seq<T>, n: nat): (r: seq<T>)
    ensures |r| == if |xs| <= n then |xs| else n
    ensures r == xs[..|r|]
    ensures |xs| <= n ==> r == xs
  {
    if |xs| <= n then xs else xs[..n]
  }

  /** The model request for a validated query over a non-empty agent list. */
  function DiscoverCall(query: string, agents: seq<Agent>, envModel: Option<string>): InferenceCall<string> {
    InferenceCall(ModelName(envModel), SystemInstruction, BuildPrompt(query, WithCards(agents)), 0.0)
  }

  /** The matches returned for one reply of the service. */
  function Answer(reply: Upstream, parse: string -> Option<Json>): (r: Response<seq<Match>>)
    ensures reply.Content? <==> r.Ok?
    ensures r.Ok? ==> r.body == Take(TryParseMatches(reply.text, parse), MaxMatches)
    ensures reply.NotOk? ==> r == UpstreamFailure(reply.status, reply.body)
    ensures reply.Broken? ==> r == Failure(500, Thrown)
    ensures r.Ok? ==> |r.body| <= MaxMatches && forall m :: m in r.body ==> m.agentId != ""
  {
    match reply
    case NotOk(status, text) => UpstreamFailure(status, text)
    case Broken => Failure(500, Thrown)
    case Content(text) => Ok(Take(TryParseMatches(text, parse), MaxMatches))
  }

  /** The whole handler. `apiKey` and `envModel` are the environment
      variables, `service` answers the one completion request, `parse` is
      `JSON.parse`. */
  function HandleDiscover(body: DiscoverBody, apiKey: Option<string>, envModel: Option<string>,
                          service: InferenceCall<string> -> Upstream, parse: string -> Option<Json>): (h: Handled<seq<Match>, string>)
    // a request is forwarded exactly when it has a query, agents and a key
    ensures h.call.Some? <==>
      QueryText(body.query).Some? && Trim(QueryText(body.query).value) != ""
      && body.agents.Some? && |body.agents.value| > 0 && Configured(apiKey)
    ensures h.call.Some? ==>
      h.call.value == DiscoverCall(Trim(QueryText(body.query).value), body.agents.value, envModel)
      && h.response == Answer(service(h.call.value), parse)
    // a blank query is refused before the agent list or the key is looked at
    ensures QueryText(body.query).Some? && Trim(QueryText(body.query).value) == "" ==>
      h.response == Failure(400, Fixed("Missing query"))
    // a query over no agents is answered with no matches, key or not
    ensures (QueryText(body.query).Some? && Trim(QueryText(body.query).value) != ""
             && (body.agents.None? || |body.agents.value| == 0)) ==> h.response == Ok([])
    // a request that would be forwarded is refused without a key
    ensures (QueryText(body.query).Some? && Trim(QueryText(body.query).value) != ""
             && body.agents.Some? && |body.agents.value| > 0 && !Configured(apiKey)) ==>
      h.response == Failure(400, Fixed("OPENAI_API_KEY not configured"))
    ensures QueryText(body.query).None? ==> h.response == Failure(500, Thrown)
    ensures h.response.Ok? ==>
      |h.response.body| <= MaxMatches && forall m :: m in h.response.body ==> m.agentId != ""
  {
    match QueryText(body.query)
    case None => Handled(Failure(500, Thrown), None)
    case Some(raw) =>
      var query := Trim(raw);
      var agents := body.agents.GetOr([]);
      if query == "" then Handled(Failure(400, Fixed("Missing query")), None)
      else if |agents| == 0 then Handled(Ok([]), None)
      else if !Configured(apiKey) then Handled(Failure(400, Fixed("OPENAI_API_KEY not configured")), None)
      else
        var call := DiscoverCall(query, agents, envModel);
        Handled(Answer(service(call), parse), Some(call))
  }

  /** "Missing query" is answered exactly for a query that is absent, `null`,
      or converts to a string of nothing but whitespace. */
  lemma MissingQueryIffBlank(body: DiscoverBody, apiKey: Option<string>, envModel: Option<string>,
                             service: InferenceCall<string> -> Upstream, parse: string -> Option<Json>)
    ensures HandleDiscover(body, apiKey, envModel, service, parse).response == Failure(400, Fixed("Missing query"))
        <==> QueryText(body.query).Some? && AllWhitespace(QueryText(body.query).value)
  {
  }

  /** The forwarded prompt carries the query right after the fixed
      instructions, then the agent list of the first (at most 200) agents. */
  lemma ForwardedPrompt(query: string, agents: seq<Agent>, envModel: Option<string>)
    ensures var call := DiscoverCall(query, agents, envModel); var off := |Header + QueryMarker|;
      && call.prompt[..off] == Header + QueryMarker
      && call.prompt[off..off + |query|] == query
      && call.prompt[off + |query|..] == AgentsMarker + AgentList(WithCards(agents))
  {
  }

  /** Two forwarded requests with different trimmed queries carry different
      prompts, whatever the agents. */
  lemma ForwardedQueryDetermined(q1: string, q2: string, agents: seq<Agent>, envModel: Option<string>)
    requires DiscoverCall(q1, agents, envModel) == DiscoverCall(q2, agents, envModel)
    ensures q1 == q2
  {
    PromptDeterminesQuery(q1, q2, WithCards(agents));
  }
}
