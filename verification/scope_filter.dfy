/** The curriculum scope check: a keyword short-circuit, then a fail-open YES/NO question to the
    language model, and the fixed refusal for out-of-scope queries. */
module ScopeFilter {
  import opened Wrappers
  import opened PyText
  import opened Config
  import opened Oracles

  datatype ScopeVerdict = ScopeVerdict(isRelevant: bool, reason: string)

  const UnclearReason := "LLM response unclear, defaulting to relevant"
  const ErrorReason := "Error occurred, defaulting to relevant"

  /** The first keyword at or after position `from` whose lower-case form occurs in `q`. */
  function FirstKeywordFrom(q: string, keywords: seq<string>, from: nat): (r: Option<nat>)
    requires from <= |keywords|
    ensures r.Some? ==>
              && from <= r.value < |keywords|
              && Contains(q, Lower(keywords[r.value]))
              && forall j | from <= j < r.value :: !Contains(q, Lower(keywords[j]))
    ensures r.None? ==> forall j | from <= j < |keywords| :: !Contains(q, Lower(keywords[j]))
    decreases |keywords| - from
  {
    if from == |keywords| then None
    else if Contains(q, Lower(keywords[from])) then Some(from)
    else FirstKeywordFrom(q, keywords, from + 1)
  }

  /** The position of the first keyword of the table that occurs in the lower-cased query. */
  function KeywordMatch(query: string): Option<nat> {
    FirstKeywordFrom(Lower(query), ScopeKeywords, 0)
  }

  /** Some keyword of the table occurs in the lower-cased query. */
  predicate InScopeByKeyword(query: string) {
    exists j | 0 <= j < |ScopeKeywords| :: Contains(Lower(query), Lower(ScopeKeywords[j]))
  }

  lemma KeywordMatchFindsAny(query: string)
    ensures KeywordMatch(query).Some? <==> InScopeByKeyword(query)
  {
  }

  /** The reply normalised as the source compares it: stripped, then upper-cased. */
  function NormalisedReply(content: string): string {
    Upper(Strip(content))
  }

  /** The verdict read off the language model's reply; a failed call is the exception path.
      Only an exact "NO" makes the query out of scope. */
  function ReadVerdict(reply: Result<string, string>): (v: ScopeVerdict)
    ensures !v.isRelevant <==> reply.Success? && NormalisedReply(reply.value) == "NO"
    ensures reply.Failure? ==> v.reason == ErrorReason
    ensures reply.Success? && NormalisedReply(reply.value) != "YES" && NormalisedReply(reply.value) != "NO"
            ==> v.reason == UnclearReason
    ensures reply.Success? && (NormalisedReply(reply.value) == "YES" || NormalisedReply(reply.value) == "NO")
            ==> v.reason == "LLM determined: " + NormalisedReply(reply.value)
  {
    match reply
    case Failure(_) => ScopeVerdict(true, ErrorReason)
    case Success(content) =>
      var answer := NormalisedReply(content);
      if answer != "YES" && answer != "NO" then ScopeVerdict(true, UnclearReason)
      else ScopeVerdict(answer == "YES", "LLM determined: " + answer)
  }

  /** `check_scope_relevance`: the verdict and the calls made. A keyword hit is relevant without
      consulting the model; otherwise the model is asked once about the query. */
  function CheckScopeRelevance(query: string, llm: Prompt -> Result<string, string>): (r: (ScopeVerdict, seq<Call>))
    ensures InScopeByKeyword(query) ==>
              && r.0.isRelevant && r.1 == []
              && KeywordMatch(query).Some?
              && r.0.reason == "Contains NCERT keyword: " + ScopeKeywords[KeywordMatch(query).value]
    ensures !InScopeByKeyword(query) ==> r.1 == [LlmCall(ScopePrompt(query))] && r.0 == ReadVerdict(llm(ScopePrompt(query)))
    ensures !r.0.isRelevant <==>
              && !InScopeByKeyword(query)
              && llm(ScopePrompt(query)).Success?
              && NormalisedReply(llm(ScopePrompt(query)).value) == "NO"
  {
    KeywordMatchFindsAny(query);
    match KeywordMatch(query)
    case Some(k) => (ScopeVerdict(true, "Contains NCERT keyword: " + ScopeKeywords[k]), [])
    case None => (ReadVerdict(llm(ScopePrompt(query))), [LlmCall(ScopePrompt(query))])
  }

  /** A query that is in scope by keyword stays in scope inside any longer text. */
  lemma {:induction false} KeywordScopeMonotone(query: string, text: string)
    requires InScopeByKeyword(query) && Contains(text, query)
    ensures InScopeByKeyword(text)
  {
    var j :| 0 <= j < |ScopeKeywords| && Contains(Lower(query), Lower(ScopeKeywords[j]));
    ContainsLower(text, query);
    ContainsTransitive(Lower(text), Lower(query), Lower(ScopeKeywords[j]));
  }

  /** A keyword of the table found in the lower-cased query settles the scope without the model. */
  lemma {:induction false} KeywordDecides(query: string, j: nat, llm: Prompt -> Result<string, string>)
    requires j < |ScopeKeywords| && Contains(Lower(query), ScopeKeywords[j])
    ensures CheckScopeRelevance(query, llm).0.isRelevant
    ensures CheckScopeRelevance(query, llm).1 == []
  {
    ScopeKeywordsLowercase();
  }

  /** "friction" is a keyword: any query mentioning it is in scope, with no model call. */
  lemma {:induction false} FrictionInScope(query: string, llm: Prompt -> Result<string, string>)
    requires Contains(Lower(query), "friction")
    ensures CheckScopeRelevance(query, llm).0.isRelevant && CheckScopeRelevance(query, llm).1 == []
  {
    ScopeKeywordsHaveMultiWordEntries();
    KeywordDecides(query, 14, llm);
  }

  /** Short keywords match inside longer words: "start" contains "star", "excellent" contains "cell". */
  lemma {:induction false} ShortKeywordsMatchInsideWords(query: string, llm: Prompt -> Result<string, string>)
    requires Contains(Lower(query), "start") || Contains(Lower(query), "excellent")
    ensures CheckScopeRelevance(query, llm).0.isRelevant && CheckScopeRelevance(query, llm).1 == []
  {
    ScopeKeywordsHaveMultiWordEntries();
    if Contains(Lower(query), "start") {
      assert OccursAt("start", "star", 0);
      ContainsTransitive(Lower(query), "start", "star");
      KeywordDecides(query, 33, llm);
    } else {
      assert OccursAt("excellent", "cell", 2);
      ContainsTransitive(Lower(query), "excellent", "cell");
      KeywordDecides(query, 19, llm);
    }
  }

  const RefusalPrefix := "I'm sorry, but '"
  const RefusalSuffix :=
    "' is outside the scope of NCERT Science Class 8. I can help you with topics like crop production, "
    + "microorganisms, materials, force, pressure, sound, light, and environmental science. "
    + "Please ask me about any NCERT Science Class 8 topics!"

  /** `generate_scope_response`: the fixed refusal with the query quoted verbatim; no model call. */
  function GenerateScopeResponse(query: string): (r: string)
    ensures |r| == |RefusalPrefix| + |query| + |RefusalSuffix|
    ensures r[..|RefusalPrefix|] == RefusalPrefix
    ensures r[|RefusalPrefix|..|RefusalPrefix| + |query|] == query
    ensures r[|RefusalPrefix| + |query|..] == RefusalSuffix
  {
    RefusalPrefix + query + RefusalSuffix
  }

  /** Different queries get different refusals: the quoted query can be read back. */
  lemma {:induction false} ScopeResponseInjective(a: string, b: string)
    requires GenerateScopeResponse(a) == GenerateScopeResponse(b)
    ensures a == b
  {
    var n := |RefusalPrefix|;
    assert |a| == |b|;
    assert a == GenerateScopeResponse(a)[n..n + |a|];
  }
}
