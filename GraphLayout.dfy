/** The `POST /api/graph-layout` handler: validate the graph in the request,
    ask the chat-completion service for node coordinates, and return the
    `layout` member of the first JSON-looking span of its reply. */
module GraphLayout {
  import opened Wrappers
  import opened Text
  import opened Json
  import opened Http

  /** `{ id: n.id, label: n.label }`; an absent member stays absent. */
  datatype NodeView = NodeView(id: Option<Json>, nodeLabel: Option<Json>)

  /** `{ from: e.from, to: e.to, weight: e.weight }`. */
  datatype EdgeView = EdgeView(from: Option<Json>, to: Option<Json>, weight: Option<Json>)

  /** The graph description the prompt serialises, with the canvas size. */
  datatype GraphDescription = GraphDescription(nodes: seq<NodeView>, edges: seq<EdgeView>, width: Json, height: Json)

  const SystemInstruction: string := "You are a graph visualization expert. Respond only with valid JSON."
  const DefaultWidth: int := 600
  const DefaultHeight: int := 400
  /** The member name the reply must mention, quotes included. */
  const LayoutKey: string := "\"layout\""

  // ---------------------------------------------------------------------------
  // The graph description
  // ---------------------------------------------------------------------------

  /** `nodes.map(n => ({ id: n.id, label: n.label }))`; `None` when an
      element is `null` (reading its `id` throws). */
  function NodeViews(nodes: seq<Json>): (r: Option<seq<NodeView>>)
    ensures r.Some? <==> forall i :: 0 <= i < |nodes| ==> nodes[i] != Null
    ensures r.Some? ==>
      |r.value| == |nodes| && forall i :: 0 <= i < |nodes| ==> r.value[i] == NodeView(Get(nodes[i], "id"), Get(nodes[i], "label"))
  {
    if forall i :: 0 <= i < |nodes| ==> nodes[i] != Null then
      Some(seq(|nodes|, i requires 0 <= i < |nodes| => NodeView(Get(nodes[i], "id"), Get(nodes[i], "label"))))
    else None
  }

  /** `edges?.map(e => ({ from: e.from, to: e.to, weight: e.weight })) || []`:
      no edges when the member is absent or `null`; `None` when it is some
      other non-array (its `map` is not a function) or an element is `null`. */
  function EdgeViews(edges: Option<Json>): (r: Option<seq<EdgeView>>)
    ensures edges.None? || edges == Some(Null) ==> r == Some([])
    ensures edges.Some? && edges.value != Null && !edges.value.Arr? ==> r.None?
    ensures edges.Some? && edges.value.Arr? ==>
      (r.Some? <==> forall i :: 0 <= i < |edges.value.items| ==> edges.value.items[i] != Null)
    ensures edges.Some? && edges.value.Arr? && r.Some? ==>
      var items := edges.value.items;
      |r.value| == |items|
      && forall i :: 0 <= i < |items| ==>
           r.value[i] == EdgeView(Get(items[i], "from"), Get(items[i], "to"), Get(items[i], "weight"))
  {
    match edges
    case None => Some([])
    case Some(Null) => Some([])
    case Some(Arr(items)) =>
      if forall i :: 0 <= i < |items| ==> items[i] != Null then
        Some(seq(|items|, i requires 0 <= i < |items| =>
          EdgeView(Get(items[i], "from"), Get(items[i], "to"), Get(items[i], "weight"))))
      else None
    case Some(_) => None
  }

  /** `body.width || 600` and `body.height || 400`. */
  function Dimension(value: Option<Json>, fallback: int): (d: Json)
    ensures fallback != 0 ==> Truthy(d)
    ensures TruthyOpt(value) ==> d == value.value
    ensures !TruthyOpt(value) ==> d == Num(fallback)
  {
    if TruthyOpt(value) then value.value else Num(fallback)
  }

  // ---------------------------------------------------------------------------
  // Reading the reply
  // ---------------------------------------------------------------------------

  /** A match of `/\{[\s\S]*"layout"[\s\S]*\}/` at `[i, j)`: a `{`, then
      `"layout"`, then a `}` closing the span. */
  predicate LayoutMatch(text: string, i: int, j: int) {
    && 0 <= i < j <= |text| && text[i] == '{' && text[j - 1] == '}'
    && exists q :: i < q && q + |LayoutKey| <= j - 1 && OccursAt(text, LayoutKey, q)
  }

  /** The span that regular expression matches: from the first `{` to the
      last `}`, when `"layout"` lies strictly between them. */
  function LayoutSpan(text: string): (r: Option<(nat, nat)>)
    ensures r.Some? ==> var (i, j) := r.value;
      && i + 1 < j <= |text| && text[i] == '{' && text[j - 1] == '}'
      && Contains(text[i + 1..j - 1], LayoutKey)
      && (forall k :: 0 <= k < i ==> text[k] != '{')
      && (forall k :: j <= k < |text| ==> text[k] != '}')
  {
    match IndexOf(text, '{')
    case None => None
    case Some(i) =>
      match LastIndexOf(text, '}')
      case None => None
      case Some(k) => if i < k && Contains(text[i + 1..k], LayoutKey) then Some((i, k + 1)) else None
  }

  /** `LayoutSpan` is the regular expression's match: none exactly when no
      span matches, otherwise the leftmost one, extended as far as possible. */
  lemma LayoutSpanIsRegexMatch(text: string)
    ensures LayoutSpan(text).None? <==> forall i, j :: !LayoutMatch(text, i, j)
    ensures LayoutSpan(text).Some? ==>
      && LayoutMatch(text, LayoutSpan(text).value.0, LayoutSpan(text).value.1)
      && forall i, j :: LayoutMatch(text, i, j) ==>
           LayoutSpan(text).value.0 < i || (LayoutSpan(text).value.0 == i && j <= LayoutSpan(text).value.1)
  {
    var first := IndexOf(text, '{');
    var last := LastIndexOf(text, '}');
    forall i, j | LayoutMatch(text, i, j)
      ensures first.Some? && last.Some? && first.value <= i && j - 1 <= last.value
      ensures LayoutSpan(text).Some?
    {
      var q :| i < q && q + |LayoutKey| <= j - 1 && OccursAt(text, LayoutKey, q);
      assert first.Some? && first.value <= i;
      assert last.Some? && last.value >= j - 1;
      OccursInSlice(text, LayoutKey, first.value + 1, last.value);
    }
    if LayoutSpan(text).Some? {
      var lo := first.value;
      var hi := last.value;
      OccursInSlice(text, LayoutKey, lo + 1, hi);
      assert LayoutMatch(text, lo, hi + 1);
    }
  }

  /** `layoutData.layout || []`: never a falsy value. */
  function LayoutOf(data: Json): (layout: Json)
    ensures Truthy(layout)
    ensures TruthyOpt(Get(data, "layout")) ==> layout == Get(data, "layout").value
    ensures !TruthyOpt(Get(data, "layout")) ==> layout == Arr([])
  {
    if TruthyOpt(Get(data, "layout")) then Get(data, "layout").value else Arr([])
  }

  /** The response for one reply of the service. */
  function LayoutAnswer(reply: Upstream, parse: string -> Option<Json>): (r: Response<Json>)
    ensures r.Ok? ==> Truthy(r.body)
    ensures reply.NotOk? ==> r == UpstreamFailure(reply.status, reply.body)
    ensures reply.Broken? ==> r == Failure(500, Thrown)
    ensures reply.Content? && LayoutSpan(reply.text).None? ==> r == Failure(500, Fixed("Invalid layout response from AI"))
    ensures reply.Content? && LayoutSpan(reply.text).Some? ==>
      var (i, j) := LayoutSpan(reply.text).value;
      r == match parse(reply.text[i..j])
           case None => Failure(500, Thrown)
           case Some(Null) => Failure(500, Thrown)
           case Some(data) => Ok(LayoutOf(data))
    ensures r.Ok? <==>
      reply.Content? && LayoutSpan(reply.text).Some? && var (i, j) := LayoutSpan(reply.text).value; parse(reply.text[i..j]).Some? && parse(reply.text[i..j]) != Some(Null)
  {
    match reply
    case NotOk(status, text) => UpstreamFailure(status, text)
    case Broken => Failure(500, Thrown)
    case Content(text) =>
      match LayoutSpan(text)
      case None => Failure(500, Fixed("Invalid layout response from AI"))
      case Some((i, j)) =>
        match parse(text[i..j])
        case None => Failure(500, Thrown)
        case Some(Null) => Failure(500, Thrown)
        case Some(data) => Ok(LayoutOf(data))
  }

  // ---------------------------------------------------------------------------
  // The handler
  // ---------------------------------------------------------------------------

  /** `Array.isArray(body.nodes)`. */
  predicate HasNodeArray(body: Json) {
    Get(body, "nodes").Some? && Get(body, "nodes").value.Arr?
  }

  /** The description sent for a request body, or `None` when building it throws. */
  function DescriptionOf(body: Json): (d: Option<GraphDescription>)
    requires HasNodeArray(body)
    ensures d.Some? <==> NodeViews(Get(body, "nodes").value.items).Some? && EdgeViews(Get(body, "edges")).Some?
    ensures d.Some? ==>
      && d.value.nodes == NodeViews(Get(body, "nodes").value.items).value
      && d.value.edges == EdgeViews(Get(body, "edges")).value
      && d.value.width == Dimension(Get(body, "width"), DefaultWidth)
      && d.value.height == Dimension(Get(body, "height"), DefaultHeight)
  {
    match NodeViews(Get(body, "nodes").value.items)
    case None => None
    case Some(nodes) =>
      match EdgeViews(Get(body, "edges"))
      case None => None
      case Some(edges) =>
        Some(GraphDescription(nodes, edges, Dimension(Get(body, "width"), DefaultWidth),
                              Dimension(Get(body, "height"), DefaultHeight)))
  }

  /** The whole handler. `body` is `await req.json()` (`None` when the body
      is not JSON), `service` answers the one completion request. */
  function HandleLayout(body: Option<Json>, apiKey: Option<string>, envModel: Option<string>,
                        service: InferenceCall<GraphDescription> -> Upstream,
                        parse: string -> Option<Json>): (h: Handled<Json, GraphDescription>)
    // an unreadable or `null` body throws
    ensures body.None? || body == Some(Null) ==> h == Handled(Failure(500, Thrown), None)
    // the nodes check comes before the key check
    ensures body.Some? && body.value != Null && !HasNodeArray(body.value) ==>
      h == Handled(Failure(400, Fixed("Missing nodes array")), None)
    ensures body.Some? && body.value != Null && HasNodeArray(body.value) && !Configured(apiKey) ==>
      h == Handled(Failure(400, Fixed("OPENAI_API_KEY not configured")), None)
    // a node or edge that cannot be read throws
    ensures (body.Some? && body.value != Null && HasNodeArray(body.value) && Configured(apiKey)
             && DescriptionOf(body.value).None?) ==> h == Handled(Failure(500, Thrown), None)
    // a request is forwarded exactly when the body is valid, the key is set
    // and the description can be built
    ensures h.call.Some? <==>
      body.Some? && body.value != Null && HasNodeArray(body.value) && Configured(apiKey)
      && DescriptionOf(body.value).Some?
    ensures h.call.Some? ==>
      && h.call.value == InferenceCall(ModelName(envModel), SystemInstruction, DescriptionOf(body.value).value, 0.3)
      && h.response == LayoutAnswer(service(h.call.value), parse)
    ensures h.response.Ok? ==> h.call.Some? && Truthy(h.response.body)
  {
    match body
    case None => Handled(Failure(500, Thrown), None)
    case Some(Null) => Handled(Failure(500, Thrown), None)
    case Some(request) =>
      if !HasNodeArray(request) then Handled(Failure(400, Fixed("Missing nodes array")), None)
      else if !Configured(apiKey) then Handled(Failure(400, Fixed("OPENAI_API_KEY not configured")), None)
      else
        match DescriptionOf(request)
        case None => Handled(Failure(500, Thrown), None)
        case Some(description) =>
          var call := InferenceCall(ModelName(envModel), SystemInstruction, description, 0.3);
          Handled(LayoutAnswer(service(call), parse), Some(call))
  }

  /** Every node of the request appears in the description, in order, with
      just its id and label; absent or `null` edges become no edges. */
  lemma DescriptionKeepsNodes(body: Json)
    requires HasNodeArray(body) && DescriptionOf(body).Some?
    ensures var nodes := Get(body, "nodes").value.items; var d := DescriptionOf(body).value;
      && |d.nodes| == |nodes|
      && (forall i :: 0 <= i < |nodes| ==> d.nodes[i].id == Get(nodes[i], "id") && d.nodes[i].nodeLabel == Get(nodes[i], "label"))
      && (Get(body, "edges").None? || Get(body, "edges") == Some(Null) ==> d.edges == [])
      && (!TruthyOpt(Get(body, "width")) ==> d.width == Num(DefaultWidth))
      && (!TruthyOpt(Get(body, "height")) ==> d.height == Num(DefaultHeight))
  {
  }

  /** A reply that is one braced text mentioning `"layout"` is parsed whole. */
  lemma WholeReplyIsSpan(text: string, q: nat)
    requires |text| >= 2 && text[0] == '{' && text[|text| - 1] == '}'
    requires 0 < q && q + |LayoutKey| <= |text| - 1 && OccursAt(text, LayoutKey, q)
    ensures LayoutSpan(text) == Some((0, |text|))
  {
    LayoutSpanIsRegexMatch(text);
    assert LayoutMatch(text, 0, |text|);
  }

  /** A reply without a `{ ... "layout" ... }` span is refused, whatever else
      it contains. */
  lemma NoSpanRefused(text: string, parse: string -> Option<Json>)
    requires forall i, j :: !LayoutMatch(text, i, j)
    ensures LayoutAnswer(Content(text), parse) == Failure(500, Fixed("Invalid layout response from AI"))
  {
    LayoutSpanIsRegexMatch(text);
  }
}
