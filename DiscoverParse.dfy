/** `tryParseMatches` of the discover route: recovering match records from the
    untrusted completion text. `JSON.parse` is the parameter `parse`, `None`
    standing for a thrown SyntaxError. */
module DiscoverParse {
  import opened Wrappers
  import opened Text
  import opened Json

  /** One recovered match. `reasoning` is whatever truthy value the model gave. */
  datatype Match = Match(agentId: string, trustScore: int, reasoning: Option<Json>)

  /** The outcome of one parse attempt: the recovered matches, or a fall-through
      (the text did not parse, was not an object with a `matches` array, or the
      coercion of an element threw). */
  datatype Attempt = Recovered(matches: seq<Match>) | NotRecovered

  // ---------------------------------------------------------------------------
  // Per-element coercion
  // ---------------------------------------------------------------------------

  /** `x.agentId || x`. */
  function IdSource(x: Json): Json {
    var field := Get(x, "agentId");
    if TruthyOpt(field) then field.value else x
  }

  /** `typeof x.trustScore === 'number' ? x.trustScore : 50`. */
  function ScoreOf(x: Json): int {
    match Get(x, "trustScore")
    case Some(Num(n)) => n
    case _ => 50
  }

  /** `x.reasoning || undefined`. */
  function ReasoningOf(x: Json): Option<Json> {
    var field := Get(x, "reasoning");
    if TruthyOpt(field) then field else None
  }

  /** The record built for one element of `matches`; `None` when building it
      throws: reading a property of `null`, or converting a value whose
      `String()` throws. */
  function CoerceMatch(x: Json): (r: Option<Match>)
    ensures x.Null? ==> r.None?
    ensures x.Str? ==> r == Some(Match(x.s, 50, None))
    ensures x.Obj? && TruthyOpt(Get(x, "agentId")) && Get(x, "agentId").value.Str? ==>
      r.Some? && r.value.agentId == Get(x, "agentId").value.s
    ensures r.Some? ==> r.value.trustScore == ScoreOf(x) && r.value.reasoning == ReasoningOf(x)
  {
    if x.Null? then None
    else
      match ToStr(IdSource(x))
      case None => None
      case Some(id) => Some(Match(id, ScoreOf(x), ReasoningOf(x)))
  }

  /** `matches.map(coerce)`: the coerced elements in order, or `None` when any
      element throws. */
  function CoerceAll(xs: seq<Json>): (r: Option<seq<Match>>)
    ensures r.Some? <==> forall i :: 0 <= i < |xs| ==> CoerceMatch(xs[i]).Some?
    ensures r.Some? ==> |r.value| == |xs|
    ensures r.Some? ==> forall i :: 0 <= i < |xs| ==> CoerceMatch(xs[i]) == Some(r.value[i])
    decreases |xs|
  {
    if |xs| == 0 then Some([])
    else
      match CoerceMatch(xs[0])
      case None => None
      case Some(m) =>
        match CoerceAll(xs[1..])
        case None =>
          assert !CoerceMatch(xs[1..][0]).Some? || exists i :: 0 <= i < |xs[1..]| && !CoerceMatch(xs[1..][i]).Some?;
          None
        case Some(ms) =>
          assert forall i :: 1 <= i < |xs| ==> xs[i] == xs[1..][i - 1];
          Some([m] + ms)
  }

  /** `ms` occurs in `all` in the same relative order (a subsequence). */
  predicate Subsequence(ms: seq<Match>, all: seq<Match>)
    decreases |all|
  {
    if |ms| == 0 then true
    else if |all| == 0 then false
    else if ms[0] == all[0] then Subsequence(ms[1..], all[1..])
    else Subsequence(ms, all[1..])
  }

  /** `.filter(x => x.agentId)`: drops the records whose id is empty and keeps
      the others, in their order. */
  function KeepIdentified(ms: seq<Match>): (r: seq<Match>)
    ensures forall m :: m in r <==> m in ms && m.agentId != ""
    ensures Subsequence(r, ms)
    ensures (forall m :: m in ms ==> m.agentId != "") ==> r == ms
    ensures forall m :: multiset(r)[m] == if m.agentId != "" then multiset(ms)[m] else 0
    decreases |ms|
  {
    if |ms| == 0 then []
    else
      var rest := KeepIdentified(ms[1..]);
      assert forall m :: m in ms <==> m == ms[0] || m in ms[1..];
      assert ms == [ms[0]] + ms[1..];
      assert multiset(ms) == multiset([ms[0]]) + multiset(ms[1..]);
      if ms[0].agentId != "" then [ms[0]] + rest else rest
  }

  // ---------------------------------------------------------------------------
  // The two attempts
  // ---------------------------------------------------------------------------

  /** `obj && Array.isArray(obj.matches)`, then map and filter. */
  function Extract(parsed: Option<Json>): (a: Attempt)
    ensures a.Recovered? <==>
      parsed.Some? && Truthy(parsed.value) && Get(parsed.value, "matches").Some?
      && Get(parsed.value, "matches").value.Arr?
      && forall i :: 0 <= i < |Get(parsed.value, "matches").value.items| ==>
           CoerceMatch(Get(parsed.value, "matches").value.items[i]).Some?
    ensures a.Recovered? ==> a.matches == KeepIdentified(CoerceAll(Get(parsed.value, "matches").value.items).value)
    ensures a.Recovered? ==> forall m :: m in a.matches ==> m.agentId != ""
  {
    match parsed
    case None => NotRecovered
    case Some(obj) =>
      if Truthy(obj) && Get(obj, "matches").Some? && Get(obj, "matches").value.Arr? then
        match CoerceAll(Get(obj, "matches").value.items)
        case None => NotRecovered
        case Some(ms) => Recovered(KeepIdentified(ms))
      else NotRecovered
  }

  /** The span `/\{[\s\S]*\}/` matches, as a half-open range: from the first
      `{` to the last `}`, when that `}` comes after that `{`. */
  function BraceSpan(text: string): (r: Option<(nat, nat)>)
    ensures r.Some? ==> var (i, j) := r.value;
      && i < j <= |text| && text[i] == '{' && text[j - 1] == '}'
      && (forall k :: 0 <= k < i ==> text[k] != '{')
      && (forall k :: j <= k < |text| ==> text[k] != '}')
  {
    match IndexOf(text, '{')
    case None => None
    case Some(i) =>
      match LastIndexOf(text, '}')
      case None => None
      case Some(k) => if i < k then Some((i, k + 1)) else None
  }

  /** `tryParseMatches(text)`: the strict whole-text parse first, then the
      brace span, and `[]` when neither yields matches. */
  function TryParseMatches(text: string, parse: string -> Option<Json>): (r: seq<Match>)
    ensures forall m :: m in r ==> m.agentId != ""
  {
    match Extract(parse(text))
    case Recovered(ms) => ms
    case NotRecovered =>
      match BraceSpan(text)
      case None => []
      case Some((i, j)) =>
        match Extract(parse(text[i..j]))
        case Recovered(ms) => ms
        case NotRecovered => []
  }

  // ---------------------------------------------------------------------------
  // Properties
  // ---------------------------------------------------------------------------

  /** A match of `/\{[\s\S]*\}/` at `[i, j)`: a `{`, anything, then a `}`. */
  predicate BraceMatch(text: string, i: int, j: int) {
    0 <= i && i + 2 <= j <= |text| && text[i] == '{' && text[j - 1] == '}'
  }

  /** `BraceSpan` is what the regular expression finds: no span exactly when
      no match exists, and otherwise the leftmost match, extended as far as
      possible (the greedy `[\s\S]*`). */
  lemma BraceSpanIsRegexMatch(text: string)
    ensures BraceSpan(text).None? <==> forall i, j :: !BraceMatch(text, i, j)
    ensures BraceSpan(text).Some? ==>
      && BraceMatch(text, BraceSpan(text).value.0, BraceSpan(text).value.1)
      && forall i, j :: BraceMatch(text, i, j) ==>
           BraceSpan(text).value.0 < i || (BraceSpan(text).value.0 == i && j <= BraceSpan(text).value.1)
  {
    var first := IndexOf(text, '{');
    var last := LastIndexOf(text, '}');
    if BraceSpan(text).None? {
      assert forall i, j :: !BraceMatch(text, i, j);
    } else {
      var lo := first.value;
      var hi := last.value;
      assert BraceSpan(text).value == (lo, hi + 1);
      assert BraceMatch(text, lo, hi + 1);
      forall i, j | BraceMatch(text, i, j) ensures lo < i || (lo == i && j <= hi + 1) {
        assert lo <= i;
        assert j - 1 <= hi;
      }
    }
  }

  /** The strict parse wins whenever it yields matches; the span is tried
      only when it does not, and `[]` is the answer when neither does. This
      is `TryParseMatches` read case by case; what it adds rests on `Extract`
      and `BraceSpan`, whose contracts pin each attempt independently. */
  lemma StrictBeforeSalvage(text: string, parse: string -> Option<Json>)
    ensures Extract(parse(text)).Recovered? ==> TryParseMatches(text, parse) == Extract(parse(text)).matches
    ensures Extract(parse(text)).NotRecovered? && BraceSpan(text).None? ==> TryParseMatches(text, parse) == []
    ensures Extract(parse(text)).NotRecovered? && BraceSpan(text).Some? ==>
      var (i, j) := BraceSpan(text).value;
      TryParseMatches(text, parse) ==
        if Extract(parse(text[i..j])).Recovered? then Extract(parse(text[i..j])).matches else []
  {
  }

  /** Text with no `{`, or with no `}` after its first `{`, yields `[]`
      whenever it does not parse as a whole. */
  lemma NoBraceNoMatches(text: string, parse: string -> Option<Json>)
    requires parse(text).None?
    requires forall i, j :: !BraceMatch(text, i, j)
    ensures TryParseMatches(text, parse) == []
  {
    BraceSpanIsRegexMatch(text);
  }

  /** A `null` element makes the coercion of the whole array throw. */
  lemma NullElementFails(members: seq<Member>, items: seq<Json>, k: nat)
    requires Lookup(members, "matches") == Some(Arr(items))
    requires k < |items| && items[k] == Null
    ensures Extract(Some(Obj(members))) == NotRecovered
  {
    assert CoerceMatch(items[k]).None?;
  }

  /** So a single `null` in `matches` discards every other match when the text
      is itself the span the salvage takes again. */
  lemma NullElementDiscardsAll(text: string, parse: string -> Option<Json>, members: seq<Member>, items: seq<Json>, k: nat)
    requires |text| >= 2 && text[0] == '{' && text[|text| - 1] == '}'
    requires parse(text) == Some(Obj(members)) && Lookup(members, "matches") == Some(Arr(items))
    requires k < |items| && items[k] == Null
    ensures TryParseMatches(text, parse) == []
  {
    NullElementFails(members, items, k);
    WholeTextIsBraceSpan(text);
    assert text[0..|text|] == text;
  }

  /** A text that opens with `{` and closes with `}` is its own brace span. */
  lemma WholeTextIsBraceSpan(text: string)
    requires |text| >= 2 && text[0] == '{' && text[|text| - 1] == '}'
    ensures BraceSpan(text) == Some((0, |text|))
  {
    assert IndexOf(text, '{') == Some(0);
    assert LastIndexOf(text, '}') == Some(|text| - 1);
  }

  // ---------------------------------------------------------------------------
  // What a coerced record holds
  // ---------------------------------------------------------------------------

  /** A bare string element becomes a match with that id and the default score. */
  lemma BareIdElement(id: string)
    ensures CoerceMatch(Str(id)) == Some(Match(id, 50, None))
  {
  }

  /** An object element with a string `agentId` keeps that id; its score is its
      numeric `trustScore`, unchanged and unclamped, or 50; its reasoning is
      kept only when truthy. */
  lemma ObjectElement(members: seq<Member>, id: string)
    requires Lookup(members, "agentId") == Some(Str(id)) && id != ""
    ensures CoerceMatch(Obj(members)).Some?
    ensures var m := CoerceMatch(Obj(members)).value;
      && m.agentId == id
      && (forall n :: Lookup(members, "trustScore") == Some(Num(n)) ==> m.trustScore == n)
      && (!(Lookup(members, "trustScore").Some? && Lookup(members, "trustScore").value.Num?) ==> m.trustScore == 50)
      && (m.reasoning.Some? <==> TruthyOpt(Lookup(members, "reasoning")))
  {
  }

  /** An object element without a truthy `agentId` falls back to `String(x)`,
      which is "[object Object]": such an element is kept, not dropped. */
  lemma ObjectWithoutIdIsKept(members: seq<Member>)
    requires !TruthyOpt(Lookup(members, "agentId")) && !HasKey(members, "toString")
    ensures CoerceMatch(Obj(members)).Some?
    ensures CoerceMatch(Obj(members)).value.agentId == "[object Object]"
  {
  }

  /** Only an empty-string element, or one whose id converts from a string or
      array to "", loses its id; numbers, booleans and plain objects never do. */
  lemma EmptyIdSources(x: Json)
    requires CoerceMatch(x).Some? && CoerceMatch(x).value.agentId == ""
    ensures IdSource(x) == Str("") || IdSource(x).Arr?
  {
    ToStrEmpty(IdSource(x));
  }

  // ---------------------------------------------------------------------------
  // Reply shapes: well-formed, wrapped in commentary, fenced, prose
  // ---------------------------------------------------------------------------

  /** A well-formed reply `{"matches":[{"agentId":"a1","trustScore":80}]}`. */
  lemma WellFormedReply(text: string, parse: string -> Option<Json>)
    requires parse(text) == Some(Obj([Member("matches", Arr([Obj([Member("agentId", Str("a1")), Member("trustScore", Num(80))])]))]))
    ensures TryParseMatches(text, parse) == [Match("a1", 80, None)]
  {
    var element := Obj([Member("agentId", Str("a1")), Member("trustScore", Num(80))]);
    assert Get(element, "agentId") == Some(Str("a1"));
    assert CoerceMatch(element) == Some(Match("a1", 80, None));
    SingleMatch(element, Match("a1", 80, None));
  }

  /** An object whose `matches` hold one element yields that element's record. */
  lemma SingleMatch(element: Json, m: Match)
    requires CoerceMatch(element) == Some(m) && m.agentId != ""
    ensures Extract(Some(Obj([Member("matches", Arr([element]))]))) == Recovered([m])
  {
    SingleElement(element, m);
    assert KeepIdentified([m]) == [m];
  }

  /** A one-element `matches` array coerces to its element's record. */
  lemma SingleElement(element: Json, m: Match)
    requires CoerceMatch(element) == Some(m)
    ensures CoerceAll([element]) == Some([m])
  {
    var r := CoerceAll([element]);
    assert r.Some? && |r.value| == 1 && r.value[0] == m;
    assert r.value == [m];
  }

  /** Text wrapped around a braced span, with no braces in the wrapping, has
      that span as its brace span. */
  lemma SpanOfWrapped(before: string, span: string, after: string)
    requires |span| >= 2 && span[0] == '{' && span[|span| - 1] == '}'
    requires '{' !in before && '}' !in after
    ensures BraceSpan(before + span + after) == Some((|before|, |before| + |span|))
    ensures (before + span + after)[|before|..|before| + |span|] == span
  {
    var text := before + span + after;
    var first := IndexOf(text, '{');
    var last := LastIndexOf(text, '}');
    assert text[|before|] == '{';
    assert text[|before| + |span| - 1] == '}';
    assert forall k :: 0 <= k < |before| ==> text[k] == before[k];
    assert forall k :: |before| + |span| <= k < |text| ==> text[k] == after[k - |before| - |span|];
    assert first == Some(|before|);
    assert last == Some(|before| + |span| - 1);
  }

  /** A reply wrapped in commentary without braces, whose whole text does not
      parse, is recovered from its brace span. */
  lemma WrappedReply(before: string, span: string, after: string, id: string, parse: string -> Option<Json>)
    requires |span| >= 2 && span[0] == '{' && span[|span| - 1] == '}'
    requires '{' !in before && '}' !in after && id != ""
    requires parse(before + span + after).None?
    requires parse(span) == Some(Obj([Member("matches", Arr([Obj([Member("agentId", Str(id))])]))]))
    ensures TryParseMatches(before + span + after, parse) == [Match(id, 50, None)]
  {
    SpanOfWrapped(before, span, after);
    var element := Obj([Member("agentId", Str(id))]);
    assert CoerceMatch(element) == Some(Match(id, 50, None));
    SingleMatch(element, Match(id, 50, None));
  }

  /** A reply inside a fenced code block is recovered, with the default score. */
  lemma FencedReply(parse: string -> Option<Json>)
    requires parse("Sure! ```json\n" + "{\"matches\":[{\"agentId\":\"a2\"}]}" + "\n```").None?
    requires parse("{\"matches\":[{\"agentId\":\"a2\"}]}") == Some(Obj([Member("matches", Arr([Obj([Member("agentId", Str("a2"))])]))]))
    ensures TryParseMatches("Sure! ```json\n" + "{\"matches\":[{\"agentId\":\"a2\"}]}" + "\n```", parse) == [Match("a2", 50, None)]
  {
    WrappedReply("Sure! ```json\n", "{\"matches\":[{\"agentId\":\"a2\"}]}", "\n```", "a2", parse);
  }

  /** A reply without any `{` that does not parse as a whole yields no matches. */
  lemma NoOpenBraceNoMatches(text: string, parse: string -> Option<Json>)
    requires parse(text).None?
    requires '{' !in text
    ensures TryParseMatches(text, parse) == []
  {
    assert IndexOf(text, '{').None?;
  }

  /** A refusal in plain prose yields no matches. */
  lemma ProseReply(parse: string -> Option<Json>)
    requires parse("I cannot help with that").None?
    ensures TryParseMatches("I cannot help with that", parse) == []
  {
    NoOpenBraceNoMatches("I cannot help with that", parse);
  }
}
