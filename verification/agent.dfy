/** The query router: history questions first, then (for text queries) follow-ups, then the image
    step, the scope check, retrieval, generation and the memory write. The language model, the
    vector search and the image model are the `Services` of one request. */
module Agent {
  import opened Wrappers
  import opened Seqs
  import opened PyText
  import opened Values
  import opened Oracles
  import opened MemoryManager
  import opened MemoryContext
  import opened MemoryHistory
  import opened ScopeFilter
  import opened Retriever
  import opened ImageGate

  const HistoryKeywords: seq<string> :=
    ["first", "last", "previous", "before", "how many", "what did", "what was", "all questions"]
  const FollowUpKeywords: seq<string> :=
    ["it", "that", "this", "the", "those", "these", "above", "mentioned", "said", "explained",
     "discussed", "talked about", "also", "too", "as well", "in addition", "furthermore", "moreover"]
  const Pronouns: seq<string> := ["it", "that", "this", "the", "those", "these", "they", "them", "their"]
  const ContextWords: seq<string> :=
    ["above", "mentioned", "said", "explained", "discussed", "talked about", "earlier", "before"]
  const ContextOpeners: seq<string> := ["what about", "how about", "and", "but", "so", "then"]
  const ShortQuestionWords := 5

  const ApologyText := "I apologize, but I encountered an error while processing your question. Please try again."
  const FollowUpTroubleText :=
    "I'm having trouble understanding your follow-up question. Could you please rephrase it or provide more context?"
  const ImageShowsSeparator := " - Image shows: "

  const AgentMaxHistory := 10
  const AgentMaxAgeHours := 24
  const RetrievalChunks := 5
  const FollowUpTurns := 5

  /** The memory an agent starts with. */
  function AgentMemory(): (m: Memory)
    ensures m.maxHistory == AgentMaxHistory && m.maxAgeHours == AgentMaxAgeHours
    ensures m.conversations == [] && m.userContext == map[]
  {
    NewMemory(AgentMaxHistory, AgentMaxAgeHours)
  }

  /** Any history keyword occurs in the lower-cased query, even inside another word. */
  predicate IsHistoryQuestion(query: string) {
    ContainsAny(Lower(query), HistoryKeywords)
  }

  /** Any follow-up keyword occurs in the lower-cased query, even inside another word. */
  predicate HasFollowUpKeyword(query: string) {
    ContainsAny(Lower(query), FollowUpKeywords)
  }

  /** The structural cues of `_is_follow_up_question`: a pronoun or context word, at most five
      words, or a conversational opener. */
  predicate FollowUpCue(query: string) {
    || ContainsAny(Lower(query), Pronouns)
    || ContainsAny(Lower(query), ContextWords)
    || |Words(query)| <= ShortQuestionWords
    || StartsWithAny(Lower(query), ContextOpeners)
  }

  /** `_is_follow_up_question`: a cue, and something earlier to follow up on. */
  predicate IsFollowUpQuestion(query: string, m: Memory) {
    FollowUpCue(query) && |m.conversations| > 0
  }

  /** The history test is a substring test: a text that contains a history question, in any
      letter case, is a history question too. */
  lemma {:induction false} HistoryQuestionInLongerText(query: string, text: string)
    requires IsHistoryQuestion(query) && Contains(text, query)
    ensures IsHistoryQuestion(text)
  {
    var k :| 0 <= k < |HistoryKeywords| && Contains(Lower(query), HistoryKeywords[k]);
    ContainsLower(text, query);
    ContainsTransitive(Lower(text), Lower(query), HistoryKeywords[k]);
  }

  /** A follow-up needs earlier turns. With them, a query of at most five words is one, and so is
      a query holding a pronoun or context word anywhere, even inside a longer word, or opening
      with a conversational phrase. */
  lemma {:induction false} FollowUpQuestionCues(query: string, m: Memory)
    ensures m.conversations == [] ==> !IsFollowUpQuestion(query, m)
    ensures m.conversations != [] && |Words(query)| <= 5 ==> IsFollowUpQuestion(query, m)
    ensures m.conversations != [] && Contains(Lower(query), "the") ==> IsFollowUpQuestion(query, m)
    ensures m.conversations != [] && Contains(Lower(query), "earlier") ==> IsFollowUpQuestion(query, m)
    ensures m.conversations != [] && StartsWith(Lower(query), "and") ==> IsFollowUpQuestion(query, m)
  {
    assert Pronouns[3] == "the";
    assert ContextWords[6] == "earlier";
    assert ContextOpeners[2] == "and";
  }

  /** A follow-up keyword in a text that contains the query, in any letter case, is still there. */
  lemma {:induction false} FollowUpKeywordInLongerText(query: string, text: string)
    requires HasFollowUpKeyword(query) && Contains(text, query)
    ensures HasFollowUpKeyword(text)
  {
    var k :| 0 <= k < |FollowUpKeywords| && Contains(Lower(query), FollowUpKeywords[k]);
    ContainsLower(text, query);
    ContainsTransitive(Lower(text), Lower(query), FollowUpKeywords[k]);
  }

  /** Python truthiness of the optional image data. */
  predicate ImageDataPresent(imageData: Option<string>) {
    imageData.Some? && imageData.value != ""
  }

  /** `has_image and image_data`. */
  predicate ImageAttached(hasImage: bool, imageData: Option<string>) {
    hasImage && ImageDataPresent(imageData)
  }

  /** The per-request state the router fills in. */
  datatype AgentState = AgentState(
    query: string,
    processedQuery: string,
    context: string,
    response: string,
    messages: seq<string>,
    metadata: Metadata)

  function InitialState(query: string, hasImage: bool): (st: AgentState)
    ensures st.processedQuery == query && st.context == "" && st.response == "" && st.messages == []
    ensures st.metadata.Keys == {"has_image", "context_retrieved", "scope_checked"}
    ensures st.metadata["has_image"] == MBool(hasImage)
    ensures st.metadata["context_retrieved"] == MBool(false) && st.metadata["scope_checked"] == MBool(false)
  {
    AgentState(query, query, "", "", [],
      map["has_image" := MBool(hasImage), "context_retrieved" := MBool(false), "scope_checked" := MBool(false)])
  }

  /** The state the outer handler returns when an exception escapes: the apology, and metadata
      holding only the image flag and the error text. */
  function ErrorState(query: string, hasImage: bool, error: string): (st: AgentState)
    ensures st.response == ApologyText && st.processedQuery == query && st.context == ""
    ensures st.metadata.Keys == {"has_image", "error"}
    ensures st.metadata["has_image"] == MBool(hasImage) && st.metadata["error"] == MText(error)
  {
    AgentState(query, query, "", ApologyText, [], map["has_image" := MBool(hasImage), "error" := MText(error)])
  }

  /** Which branch answered a query. */
  datatype Route = HistoryRoute | FollowUpRoute | OutOfScopeRoute | AnsweredRoute

  /** The result of one query: the final state, the branch, the memory afterwards and the calls made. */
  datatype QueryOutcome = QueryOutcome(state: AgentState, route: Route, memory: Memory, calls: seq<Call>)

  /** The query the scope check and retrieval see: with an attached image whose description is
      non-empty, the query followed by the description; otherwise the query itself. */
  function ProcessedQuery(query: string, hasImage: bool, imageData: Option<string>, s: Services): (r: (string, seq<Call>))
    ensures !ImageAttached(hasImage, imageData) ==> r == (query, [])
    ensures ImageAttached(hasImage, imageData) ==>
              var (desc, calls) := DescribeImage(imageData, query, s);
              && r.1 == calls
              && (desc.Some? && desc.value != "" ==> r.0 == query + ImageShowsSeparator + desc.value)
              && (desc.None? || desc.value == "" ==> r.0 == query)
  {
    if ImageAttached(hasImage, imageData) then
      var (desc, calls) := DescribeImage(imageData, query, s);
      if desc.Some? && desc.value != "" then (query + ImageShowsSeparator + desc.value, calls)
      else (query, calls)
    else (query, [])
  }

  /** `_retrieve_context`: the passages for the processed query, five at most, and the flag set.
      The store formats its own failures, so the handler that would clear the flag never runs. */
  function RetrieveContext(st: AgentState, s: Services): (r: (AgentState, seq<Call>))
    ensures r.1 == GetRelevantContext(st.processedQuery, RetrievalChunks, s).1
    ensures r.0.context == GetRelevantContext(st.processedQuery, RetrievalChunks, s).0
    ensures r.0.metadata == st.metadata["context_retrieved" := MBool(true)]
    ensures r.0.(context := st.context, metadata := st.metadata) == st
  {
    var (context, calls) := GetRelevantContext(st.processedQuery, RetrievalChunks, s);
    (st.(context := context, metadata := st.metadata["context_retrieved" := MBool(true)]), calls)
  }

  /** The answer request: passages, the last five turns, related turns, the original question, and
      the processed query as the image analysis whenever image data is present. */
  function AnswerPromptFor(st: AgentState, query: string, imageData: Option<string>, m: Memory): Prompt {
    AnswerPrompt(st.context, ConversationContext(m, FollowUpTurns), RelatedContext(m, query), query,
                 if ImageDataPresent(imageData) then Some(st.processedQuery) else None)
  }

  /** `_generate_response`: the model's answer, or the apology when the call raises; the response is
      also appended to the messages. Nothing else in the state changes. */
  function GenerateResponse(st: AgentState, query: string, imageData: Option<string>, m: Memory, s: Services): (r: (AgentState, seq<Call>))
    ensures r.1 == [LlmCall(AnswerPromptFor(st, query, imageData, m))]
    ensures s.llm(AnswerPromptFor(st, query, imageData, m)).Success? ==>
              r.0.response == s.llm(AnswerPromptFor(st, query, imageData, m)).value
    ensures s.llm(AnswerPromptFor(st, query, imageData, m)).Failure? ==> r.0.response == ApologyText
    ensures r.0.messages == st.messages + [r.0.response]
    ensures r.0.(response := st.response, messages := st.messages) == st
  {
    var prompt := AnswerPromptFor(st, query, imageData, m);
    var response := match s.llm(prompt) case Success(content) => content case Failure(_) => ApologyText;
    (st.(response := response, messages := st.messages + [response]), [LlmCall(prompt)])
  }

  /** `_generate_follow_up_response`: the model's answer from conversation alone, or the fixed
      request to rephrase when the call raises. */
  function GenerateFollowUp(query: string, conversation: string, related: string, s: Services): (r: (string, seq<Call>))
    ensures r.1 == [LlmCall(FollowUpPrompt(conversation, related, query))]
    ensures s.llm(FollowUpPrompt(conversation, related, query)).Success? ==>
              r.0 == s.llm(FollowUpPrompt(conversation, related, query)).value
    ensures s.llm(FollowUpPrompt(conversation, related, query)).Failure? ==> r.0 == FollowUpTroubleText
  {
    var prompt := FollowUpPrompt(conversation, related, query);
    match s.llm(prompt)
    case Success(content) => (content, [LlmCall(prompt)])
    case Failure(_) => (FollowUpTroubleText, [LlmCall(prompt)])
  }

  /** The follow-up branch is taken: not a history question, no attached image, a follow-up keyword
      or cue, and a non-empty memory. */
  predicate TakesFollowUp(query: string, hasImage: bool, imageData: Option<string>, m: Memory) {
    && !IsHistoryQuestion(query)
    && !ImageAttached(hasImage, imageData)
    && (HasFollowUpKeyword(query) || IsFollowUpQuestion(query, m))
    && m.conversations != []
  }

  /** The scope verdict on the processed query, for queries that reach the scope check. */
  function ScopeOf(query: string, hasImage: bool, imageData: Option<string>, s: Services): ScopeVerdict {
    CheckScopeRelevance(ProcessedQuery(query, hasImage, imageData, s).0, s.llm).0
  }

  /** The steps after routing, for queries that are neither history questions nor follow-ups:
      the image step, the scope check on the processed query, and for an in-scope query retrieval,
      generation and exactly one memory write of the original query and the final response. */
  function AnswerQuery(query: string, hasImage: bool, imageData: Option<string>, m: Memory, now: int, s: Services): (out: QueryOutcome)
    ensures out.route == OutOfScopeRoute || out.route == AnsweredRoute
    ensures out.route == OutOfScopeRoute <==> !ScopeOf(query, hasImage, imageData, s).isRelevant
    ensures out.route == OutOfScopeRoute ==>
              var (processed, imageCalls) := ProcessedQuery(query, hasImage, imageData, s);
              && out.memory == m
              && out.state.response == GenerateScopeResponse(query)
              && out.state.processedQuery == processed
              && out.state.metadata == InitialState(query, hasImage).metadata["scope_checked" := MBool(true)]
              && out.calls == imageCalls + CheckScopeRelevance(processed, s.llm).1
    ensures out.route == AnsweredRoute ==>
              var (processed, imageCalls) := ProcessedQuery(query, hasImage, imageData, s);
              && out.state.processedQuery == processed
              && out.state.metadata == InitialState(query, hasImage).metadata
                   ["scope_checked" := MBool(true)]["context_retrieved" := MBool(true)]
              && out.state.context == GetRelevantContext(processed, RetrievalChunks, s).0
              && out.state.response
                 == (match s.llm(AnswerPromptFor(out.state, query, imageData, m))
                     case Success(content) => content
                     case Failure(_) => ApologyText)
              && out.memory == AddInteraction(m, query, out.state.response, Some(out.state.metadata), now)
              && out.calls == imageCalls + CheckScopeRelevance(processed, s.llm).1
                              + GetRelevantContext(processed, RetrievalChunks, s).1
                              + [LlmCall(AnswerPromptFor(out.state, query, imageData, m))]
  {
    var init := InitialState(query, hasImage);
    var (processed, imageCalls) := ProcessedQuery(query, hasImage, imageData, s);
    var (verdict, scopeCalls) := CheckScopeRelevance(processed, s.llm);
    var checked := init.(processedQuery := processed, metadata := init.metadata["scope_checked" := MBool(true)]);
    if !verdict.isRelevant then
      QueryOutcome(checked.(response := GenerateScopeResponse(query)), OutOfScopeRoute, m, imageCalls + scopeCalls)
    else
      var (retrieved, searchCalls) := RetrieveContext(checked, s);
      var (answered, answerCalls) := GenerateResponse(retrieved, query, imageData, m, s);
      assert AnswerPromptFor(answered, query, imageData, m) == AnswerPromptFor(retrieved, query, imageData, m);
      QueryOutcome(answered, AnsweredRoute, AddInteraction(m, query, answered.response, Some(answered.metadata), now),
                   imageCalls + scopeCalls + searchCalls + answerCalls)
  }

  /** The follow-up test as the source writes it, on the five-turn context, is the memory being
      non-empty. */
  lemma FollowUpContextMeansHistory(m: Memory)
    ensures var c := ConversationContext(m, FollowUpTurns);
            (c != "" && c != NoHistoryText) <==> m.conversations != []
  {
  }

  /** The steps after the history check: the follow-up reply for a text query with something to
      follow up on, otherwise the full answer. */
  function FollowUpOrAnswer(query: string, hasImage: bool, imageData: Option<string>, m: Memory, now: int, s: Services): (out: QueryOutcome)
    requires !IsHistoryQuestion(query)
    ensures out.route == FollowUpRoute <==> TakesFollowUp(query, hasImage, imageData, m)
    ensures !TakesFollowUp(query, hasImage, imageData, m) ==> out == AnswerQuery(query, hasImage, imageData, m, now, s)
    ensures out.route == FollowUpRoute ==>
              var conversation := ConversationContext(m, FollowUpTurns);
              var related := RelatedContext(m, query);
              && out.memory == m
              && out.state.response == GenerateFollowUp(query, conversation, related, s).0
              && out.calls == [LlmCall(FollowUpPrompt(conversation, related, query))]
  {
    var conversation := ConversationContext(m, FollowUpTurns);
    FollowUpContextMeansHistory(m);
    if !ImageAttached(hasImage, imageData)
       && (HasFollowUpKeyword(query) || IsFollowUpQuestion(query, m))
       && conversation != "" && conversation != NoHistoryText
    then
      var (response, calls) := GenerateFollowUp(query, conversation, RelatedContext(m, query), s);
      QueryOutcome(InitialState(query, hasImage).(response := response), FollowUpRoute, m, calls)
    else
      AnswerQuery(query, hasImage, imageData, m, now, s)
  }

  /** `process_query` at time `now` against memory `m`: history questions first, then follow-ups
      for text queries, then the scope check and the answer. Only an answered query writes memory. */
  function ProcessQuery(query: string, hasImage: bool, imageData: Option<string>, m: Memory, now: int, s: Services): (out: QueryOutcome)
    ensures out.route == HistoryRoute <==> IsHistoryQuestion(query)
    ensures out.route == FollowUpRoute <==> TakesFollowUp(query, hasImage, imageData, m)
    ensures !IsHistoryQuestion(query) && !TakesFollowUp(query, hasImage, imageData, m) ==>
              out == AnswerQuery(query, hasImage, imageData, m, now, s)
    ensures out.route != AnsweredRoute ==> out.memory == m
    ensures out.route == HistoryRoute ==>
              out.state.response == HistoryInfo(m, query) && out.calls == [] && out.state.processedQuery == query
    ensures out.route == FollowUpRoute ==>
              var conversation := ConversationContext(m, FollowUpTurns);
              var related := RelatedContext(m, query);
              out.state.response == GenerateFollowUp(query, conversation, related, s).0
              && out.calls == [LlmCall(FollowUpPrompt(conversation, related, query))]
  {
    if ContainsAny(Lower(query), HistoryKeywords) then
      QueryOutcome(InitialState(query, hasImage).(response := HistoryInfo(m, query)), HistoryRoute, m, [])
    else
      FollowUpOrAnswer(query, hasImage, imageData, m, now, s)
  }
}
