/** The `GET /api/agents` handler: read the paging and filter parameters of
    the query string, ask the indexer for one page of agents and for the
    number of matching agents, and answer `{rows, total, page, pageSize}`. */
module Agents {
  import opened Wrappers
  import opened Text
  import opened Json
  import opened Http

  /** The query-string parameters the handler reads (`searchParams.get`),
      `None` when absent. */
  datatype ListQuery = ListQuery(
    page: Option<string>,
    pageSize: Option<string>,
    name: Option<string>,
    id: Option<string>,
    address: Option<string>,
    chainId: Option<string>)

  const DefaultPage: string := "1"
  const DefaultPageSize: string := "50"
  const MaxPageSize: int := 100

  /** `searchParams.get(key) || fallback`. */
  function ParamOr(param: Option<string>, fallback: string): (s: string)
    ensures Present(param) ==> s == param.value
    ensures !Present(param) ==> s == fallback
  {
    if Present(param) then param.value else fallback
  }

  /** `Math.max(lo, x)`; `NaN` stays `NaN`. */
  function MaxWith(lo: int, x: Number): (r: Number)
    ensures r.NaN? <==> x.NaN?
    ensures r.Finite? ==> r.value >= lo && (r.value == lo || r.value == x.value)
    ensures x.Finite? && x.value >= lo ==> r == x
  {
    match x
    case NaN => NaN
    case Finite(v) => Finite(if v < lo then lo else v)
  }

  /** `Math.min(hi, x)`; `NaN` stays `NaN`. */
  function MinWith(hi: int, x: Number): (r: Number)
    ensures r.NaN? <==> x.NaN?
    ensures r.Finite? ==> r.value <= hi && (r.value == hi || r.value == x.value)
    ensures x.Finite? && x.value <= hi ==> r == x
  {
    match x
    case NaN => NaN
    case Finite(v) => Finite(if v > hi then hi else v)
  }

  /** The default parameters read as the numbers they spell. */
  lemma DefaultsParse()
    ensures ParseIntDecimal(DefaultPage) == Finite(1)
    ensures ParseIntDecimal(DefaultPageSize) == Finite(50)
  {
    RenderedDefaults();
    DecimalRoundTrip(1);
    DecimalRoundTrip(50);
  }

  lemma RenderedDefaults()
    ensures NatToDecimal(1) == DefaultPage
    ensures NatToDecimal(50) == DefaultPageSize
  {
    assert NatToDecimal(5) == [DigitChar(5)];
  }

  /** `Math.max(1, parseInt(page || '1', 10))`. */
  function PageOf(param: Option<string>): (page: Number)
    ensures page.Finite? ==> page.value >= 1
    ensures !Present(param) ==> page == Finite(1)
    ensures page.NaN? <==> Present(param) && ParseIntDecimal(param.value).NaN?
  {
    DefaultsParse();
    MaxWith(1, ParseIntDecimal(ParamOr(param, DefaultPage)))
  }

  /** `Math.max(1, Math.min(100, parseInt(pageSize || '50', 10)))`. */
  function PageSizeOf(param: Option<string>): (size: Number)
    ensures size.Finite? ==> 1 <= size.value <= MaxPageSize
    ensures !Present(param) ==> size == Finite(50)
    ensures size.NaN? <==> Present(param) && ParseIntDecimal(param.value).NaN?
  {
    DefaultsParse();
    MaxWith(1, MinWith(MaxPageSize, ParseIntDecimal(ParamOr(param, DefaultPageSize))))
  }

  /** `(page - 1) * pageSize`; `NaN` when either is `NaN`. */
  function OffsetOf(page: Number, size: Number): (offset: Number)
    ensures offset.Finite? <==> page.Finite? && size.Finite?
    ensures offset.Finite? ==> offset.value == (page.value - 1) * size.value
  {
    if page.Finite? && size.Finite? then Finite((page.value - 1) * size.value) else NaN
  }

  /** A page number written in decimal is taken as is, clamped up to 1, and a
      page size clamped into 1..100. */
  lemma DecimalParams(n: nat)
    ensures PageOf(Some(NatToDecimal(n))) == Finite(if n < 1 then 1 else n)
    ensures PageSizeOf(Some(NatToDecimal(n))) == Finite(if n < 1 then 1 else if n > 100 then 100 else n)
  {
    DecimalRoundTrip(n);
    ParamsOfNumber(NatToDecimal(n), n);
  }

  lemma ParamsOfNumber(param: string, v: int)
    requires param != "" && ParseIntDecimal(param) == Finite(v)
    ensures PageOf(Some(param)) == Finite(if v < 1 then 1 else v)
    ensures PageSizeOf(Some(param)) == Finite(if v < 1 then 1 else if v > 100 then 100 else v)
  {
    assert ParamOr(Some(param), DefaultPage) == param;
    assert ParamOr(Some(param), DefaultPageSize) == param;
  }

  /** Pages tile the result set: page 1 starts at offset 0, every page starts
      where the previous one ended, and no page starts before 0. */
  lemma PagesTile(page: int, size: int)
    requires page >= 1 && size >= 1
    ensures OffsetOf(Finite(page), Finite(size)).value >= 0
    ensures OffsetOf(Finite(1), Finite(size)) == Finite(0)
    ensures OffsetOf(Finite(page + 1), Finite(size)).value == OffsetOf(Finite(page), Finite(size)).value + size
  {
    var k := page - 1;
    assert k * size >= 0;
    assert (k + 1) * size == k * size + size;
  }

  // ---------------------------------------------------------------------------
  // The indexer filters
  // ---------------------------------------------------------------------------

  /** The variables of both GraphQL queries; a filter is absent when its
      parameter is. */
  datatype Filters = Filters(
    limit: Number,
    offset: Number,
    chainId: Option<Number>,
    agentId: Option<string>,
    agentOwner: Option<string>,
    agentName: Option<string>)

  /** `(searchParams.get(key) || '').trim()`. */
  function TrimmedParam(param: Option<string>): string {
    Trim(ParamOr(param, ""))
  }

  /** A parameter reads as a non-empty trimmed text exactly when it holds
      more than whitespace, and that text is the trim of the parameter. */
  lemma ParamRead(param: Option<string>)
    ensures TrimmedParam(param) != "" <==> !AllWhitespace(ParamOr(param, ""))
    ensures TrimmedParam(param) != "" ==> param.Some? && TrimmedParam(param) == Trim(param.value)
  {
    if TrimmedParam(param) != "" {
      assert ParamOr(param, "") != "";
    }
  }

  /** The filters for a query, field by field. */
  function FiltersOf(q: ListQuery): (f: Filters)
    ensures f.limit == PageSizeOf(q.pageSize) && f.offset == OffsetOf(PageOf(q.page), f.limit)
    ensures f.chainId.Some? <==> Present(q.chainId)
    ensures f.agentId.Some? <==> !AllWhitespace(ParamOr(q.id, ""))
    ensures f.agentOwner.Some? <==> !AllWhitespace(ParamOr(q.address, ""))
    ensures f.agentName.Some? <==> !AllWhitespace(ParamOr(q.name, ""))
    // each filter that is set is its parameter read, trimmed or lower-cased
    ensures f.chainId.Some? ==> f.chainId.value == ParseIntNoRadix(q.chainId.value)
    ensures f.agentId.Some? ==> f.agentId.value == Trim(q.id.value)
    ensures f.agentOwner.Some? ==> f.agentOwner.value == ToLower(Trim(q.address.value))
    ensures f.agentName.Some? ==> f.agentName.value == ToLower(Trim(q.name.value))
  {
    ParamRead(q.id);
    ParamRead(q.address);
    ParamRead(q.name);
    var page := PageOf(q.page);
    var size := PageSizeOf(q.pageSize);
    Filters(
      size,
      OffsetOf(page, size),
      if Present(q.chainId) then Some(ParseIntNoRadix(q.chainId.value)) else None,
      if TrimmedParam(q.id) != "" then Some(TrimmedParam(q.id)) else None,
      if TrimmedParam(q.address) != "" then Some(ToLower(TrimmedParam(q.address))) else None,
      if TrimmedParam(q.name) != "" then Some(ToLower(TrimmedParam(q.name))) else None)
  }

  /** `const filters = { limit: pageSize, offset }` and the four guarded
      assignments that follow it. */
  method BuildFilters(q: ListQuery) returns (filters: Filters)
    ensures filters == FiltersOf(q)
  {
    var page := PageOf(q.page);
    var pageSize := PageSizeOf(q.pageSize);
    var offset := OffsetOf(page, pageSize);
    var name := TrimmedParam(q.name);
    var id := TrimmedParam(q.id);
    var address := TrimmedParam(q.address);
    filters := Filters(pageSize, offset, None, None, None, None);
    if Present(q.chainId) {
      filters := filters.(chainId := Some(ParseIntNoRadix(q.chainId.value)));
    }
    if id != "" {
      filters := filters.(agentId := Some(id));
    }
    if address != "" {
      filters := filters.(agentOwner := Some(ToLower(address)));
    }
    if name != "" {
      filters := filters.(agentName := Some(ToLower(name)));
    }
  }

  /** A text filter is present exactly when its parameter holds more than
      whitespace; it is never blank, never has whitespace at either end, and
      the owner and name filters hold no upper-case letter. */
  lemma FiltersNormalised(q: ListQuery)
    ensures var f := FiltersOf(q);
      && (f.agentId.Some? <==> Present(q.id) && !AllWhitespace(q.id.value))
      && (f.agentOwner.Some? <==> Present(q.address) && !AllWhitespace(q.address.value))
      && (f.agentName.Some? <==> Present(q.name) && !AllWhitespace(q.name.value))
      && (f.chainId.Some? <==> Present(q.chainId))
      && (f.agentId.Some? ==> Normalised(f.agentId.value))
      && (f.agentOwner.Some? ==> Normalised(f.agentOwner.value) && NoUpper(f.agentOwner.value))
      && (f.agentName.Some? ==> Normalised(f.agentName.value) && NoUpper(f.agentName.value))
  {
    NormalisedParam(q.id);
    NormalisedParam(q.address);
    NormalisedParam(q.name);
    LowerNormalised(TrimmedParam(q.address));
    LowerNormalised(TrimmedParam(q.name));
  }

  /** Non-empty, without whitespace at either end. */
  predicate Normalised(s: string) {
    |s| > 0 && !IsJsWhitespace(s[0]) && !IsJsWhitespace(s[|s| - 1])
  }

  predicate NoUpper(s: string) {
    forall i :: 0 <= i < |s| ==> !IsAsciiUpper(s[i])
  }

  lemma NormalisedParam(param: Option<string>)
    ensures TrimmedParam(param) != "" <==> Present(param) && !AllWhitespace(param.value)
    ensures TrimmedParam(param) != "" ==> Normalised(TrimmedParam(param))
  {
  }

  lemma LowerNormalised(s: string)
    requires s != "" ==> Normalised(s)
    ensures s != "" ==> Normalised(ToLower(s)) && NoUpper(ToLower(s))
  {
    ToLowerFacts(s);
  }

  /** A trimmed parameter, given again, is taken unchanged. */
  lemma TrimmedParamStable(param: Option<string>)
    ensures TrimmedParam(param) != "" ==> TrimmedParam(Some(TrimmedParam(param))) == TrimmedParam(param)
  {
    TrimmedGiven(TrimmedParam(param));
    TrimIdempotent(ParamOr(param, ""));
  }

  /** A parameter given as `s` is read as the trim of `s`. */
  lemma TrimmedGiven(s: string)
    ensures TrimmedParam(Some(s)) == Trim(s)
  {
    assert ParamOr(Some(s), "") == s;
  }

  lemma LowerStable(t: string)
    requires Normalised(t)
    ensures TrimmedParam(Some(ToLower(t))) == ToLower(t) && ToLower(ToLower(t)) == ToLower(t)
  {
    LowerNormalised(t);
    ToLowerFacts(t);
    TrimOfTrimmed(ToLower(t));
    assert ParamOr(Some(ToLower(t)), "") == ToLower(t);
  }

  /** A trimmed, lower-cased parameter, given again, is taken unchanged. */
  lemma LoweredParamStable(param: Option<string>)
    ensures var t := TrimmedParam(param);
      t != "" ==> TrimmedParam(Some(ToLower(t))) == ToLower(t) && ToLower(ToLower(t)) == ToLower(t)
  {
    var t := TrimmedParam(param);
    if t != "" {
      NormalisedParam(param);
      LowerStable(t);
    }
  }

  /** Feeding the filters back in as parameters yields the same filters: the
      normalisation is idempotent. */
  lemma FiltersIdempotent(q: ListQuery)
    ensures var f := FiltersOf(q);
      FiltersOf(q.(id := f.agentId, address := f.agentOwner, name := f.agentName)) == f
  {
    TrimmedParamStable(q.id);
    LoweredParamStable(q.address);
    LoweredParamStable(q.name);
    assert TrimmedParam(None) == "";
  }

  // ---------------------------------------------------------------------------
  // The response
  // ---------------------------------------------------------------------------

  /** `{ rows, total, page, pageSize }`. */
  datatype AgentsPage = AgentsPage(rows: seq<Json>, total: nat, page: Number, pageSize: Number)

  /** `countData?.agents?.length || rows.length`. */
  function TotalOf(counted: IndexerData<Json>, rowCount: nat): (total: nat)
    ensures counted.Data? && counted.agents.Some? && |counted.agents.value| > 0 ==> total == |counted.agents.value|
    ensures !(counted.Data? && counted.agents.Some? && |counted.agents.value| > 0) ==> total == rowCount
  {
    if counted.Data? && counted.agents.Some? && |counted.agents.value| > 0 then |counted.agents.value| else rowCount
  }

  /** The handler. `rowsQuery` and `countQuery` answer the page query and the
      count query for the given variables. */
  method ListAgents(q: ListQuery, rowsQuery: Filters -> IndexerData<Json>, countQuery: Filters -> IndexerData<Json>)
    returns (resp: AgentsPage)
    // the page and size echo the parsed parameters
    ensures resp.page == PageOf(q.page) && resp.pageSize == PageSizeOf(q.pageSize)
    // no indexer: an empty page
    ensures rowsQuery(FiltersOf(q)).NoData? ==> resp.rows == [] && resp.total == 0
    // otherwise both queries get the same filters, built from the parameters
    ensures rowsQuery(FiltersOf(q)).Data? ==>
      resp.rows == rowsQuery(FiltersOf(q)).agents.GetOr([])
      && resp.total == TotalOf(countQuery(FiltersOf(q)), |resp.rows|)
  {
    var filters := BuildFilters(q);
    var data := rowsQuery(filters);
    if data.NoData? {
      return AgentsPage([], 0, PageOf(q.page), filters.limit);
    }
    var rows := data.agents.GetOr([]);
    var total := TotalOf(countQuery(filters), |rows|);
    resp := AgentsPage(rows, total, PageOf(q.page), filters.limit);
  }
}
