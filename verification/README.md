# HelpBuddy AI query pipeline, modelled in Dafny

HelpBuddy AI is a tutoring chatbot for NCERT Science Class 8. A student asks a question by text, by
voice or about an uploaded image. The agent routes the question as follows:

- A question about the conversation itself ("what was my first question?") is answered from memory.
- A text follow-up is answered from the conversation alone.
- Any other query is first checked against the curriculum. An out-of-scope query gets a fixed
  refusal.
- An in-scope query is answered from passages retrieved from the textbook, plus the recent and
  related conversation. The exchange is then written to a bounded, age-limited memory.

This project models that deterministic core as pure functions over immutable datatypes:

- the memory manager: add with age and count eviction, the context texts, the history answers,
  the summary, the user context and the export;
- the router, `process_query`, with its four routes and the calls it makes;
- the scope check and the refusal;
- the scope keyword table and the API-key check;
- the passage retrieval and formatting;
- the image-description gates;
- the rebuild of memory from the chat transcript, `sync_conversation_history`;
- the chat front end's pure bookkeeping: choosing the input, ignoring resubmission, appending the
  exchange, and grouping the transcript into display pairs.

The language model, the vector search and the base64 probe are function-valued fields of a
`Services` value. Every call made is returned as a trace of `Call`s, so contracts can say exactly
which collaborator was asked what.

Files, one module each:

- `wrappers.dfy`: `Option` and `Result`.
- `seqs.dfy`: Python slicing, suffixes and subsequences.
- `pytext.dfy`: Python `str` operations: `lower`, `upper`, `strip`, `split`, `join`, `in`,
  `startswith` and decimal rendering.
- `values.dfy`: metadata values.
- `config.dfy`: the settings.
- `oracles.dfy`: the collaborators.
- `memory.dfy`, `memory_context.dfy`, `history.dfy`: the memory manager.
- `scope_filter.dfy`: the content filter.
- `retriever.dfy`: the vector store's search and context.
- `image_gate.dfy`: the image processor.
- `agent.dfy`: the router. `IsHistoryQuestion` and `HasFollowUpKeyword` are its keyword tests,
  and `IsFollowUpQuestion` is `_is_follow_up_question`.
- `sync.dfy`: the transcript sync.
- `chat_history.dfy`: the front end.
- `scenarios.dfy`: concrete queries.

Where the code and the written design disagree, the model follows the code:

- Retrieval failures are swallowed inside `get_relevant_context`, which returns the no-information
  text. So `_retrieve_context` never reaches its own handler, and on the in-scope path the
  `context_retrieved` flag is always true. The design suggests the flag can record a degraded
  retrieval; `Agent.RetrieveContext` and `Agent.AnswerQuery` state the code's behaviour.
- The sync walks the transcript in strides of two. A pair that is out of step is dropped, and so is
  every pair behind it that the stride splits. The display loop instead re-aligns after a lone
  message. The two agree only on an alternating transcript, which is what `ChatHistory.Submit`
  maintains (`ChatHistory.PairsAgreeWithSync`).
- History and follow-up keywords are matched as substrings, not as words. "plastic" contains "last"
  and is routed as a history question; "photosynthesis" contains "the" and is treated as a follow-up
  (`Scenarios`).
- The follow-up gate compares the context against the misspelt literal "No previous conversation
  histroy". This is the very literal the memory produces, so the gate works as the design intends
  (`Scenarios.HistroyLiteralGatesFollowUp`).

## Model

| member | source | states |
|---|---|---|
| `Config.ValidateConfig` | src/config/__init__.py:65-72 | fails, with the missing-key message, exactly when the Google key is absent or empty; otherwise succeeds with True |
| `Config.ValidateConfigIgnoresLangchainKey` | src/config/__init__.py:68-72 | the outcome does not depend on the LangSmith key |
| `Config.ScopeKeywordsLowercase` | src/config/__init__.py:49-59 | every scope keyword is already lower case, so lower-casing it in the scope check changes nothing |
| `Config.ScopeKeywordsHaveMultiWordEntries` | src/config/__init__.py:49-59 | the table holds the multi-word entries "class 8", "solar system" and "natural phenomenon", and the short entries "star" and "cell" |
| `MemoryManager.EvictOld` | src/utils/memory_manager.py:313-322 | keeps every interaction strictly newer than the cutoff and only those, in their original order |
| `MemoryManager.EvictOldKeepsFresh` | src/utils/memory_manager.py:319-322 | a list whose interactions are all newer than the cutoff is left unchanged |
| `MemoryManager.EvictOldIdempotent` | src/utils/memory_manager.py:313-322 | a second cleanup with the same cutoff removes nothing more |
| `MemoryManager.EvictOldAppend` | src/utils/memory_manager.py:319-322 | the age filter distributes over concatenation |
| `MemoryManager.TruncateHistory` | src/utils/memory_manager.py:51-53 | the result is a suffix of the list; with a limit of at least 1 its length is the smaller of the limit and the list length; a limit of 0 keeps everything; a list within the limit is unchanged |
| `MemoryManager.AddInteraction` | src/utils/memory_manager.py:24-53 | limits and user context unchanged; every kept turn is newer than the cutoff; the result is a subsequence of the old turns plus the new one; with a positive limit, it is the most recent turns of the survivors plus the new turn (a suffix), as many as the limit or all of them, whichever is fewer; a limit of 0 keeps exactly the survivors plus the new turn; with a positive age limit the new turn is last |
| `MemoryManager.AppendThenEvict` | src/utils/memory_manager.py:46-49 | cleaning up after the append gives the old survivors, plus the new turn when the age limit is positive |
| `MemoryManager.TruncatedIsSubsequence` | src/utils/memory_manager.py:52-53 | the count limit keeps the subsequence relation to the list before cleanup |
| `MemoryManager.CleanupIdempotentAfterAdd` | src/utils/memory_manager.py:46-53 | right after an add, another cleanup at the same instant removes nothing |
| `MemoryManager.AddToFreshMemory` | src/utils/memory_manager.py:39-53 | when every stored turn is fresh, an add appends the new turn and keeps the last max_history turns |
| `MemoryManager.TruncateBeforeAppend` | src/utils/memory_manager.py:52-53 | truncating before appending has no effect once the result is truncated again |
| `MemoryManager.ClearMemory` | src/utils/memory_manager.py:327-331 | no interactions and no user context remain; the limits are kept |
| `MemoryManager.UpdateUserContext` | src/utils/memory_manager.py:230-242 | conversations are unchanged and the key set gains the key |
| `MemoryManager.GetUserContext` | src/utils/memory_manager.py:249-263 | a value exactly when the key was stored, and then the stored value; None otherwise |
| `MemoryManager.UserContextLastWriteWins` | src/utils/memory_manager.py:239-263 | reading a key just stored returns the new value; other keys read as before; after a clear every key reads None |
| `MemoryManager.ExportConversation` | src/utils/memory_manager.py:369-387 | one exported record per stored turn, in order, carrying its timestamp, query, response and metadata |
| `MemoryContext.ClippedLineShows` | src/utils/memory_manager.py:83-87 | a response within the limit is shown whole; a longer one shows exactly its first `limit` characters and "..." |
| `MemoryContext.NumberedEntries` | src/utils/memory_manager.py:79-87 | two lines per turn: the turn's number and user query, then its response clipped at 200 |
| `MemoryContext.ConversationContext` | src/utils/memory_manager.py:60-89 | the no-history literal exactly on empty memory; otherwise the header and the last `last_n` turns numbered from 1, with all turns shown when `last_n` is 0 |
| `MemoryContext.KeepChosen` | src/utils/memory_manager.py:113-130 | keeps exactly the scored entries whose position is chosen |
| `MemoryContext.KeepChosenAscending` | src/utils/memory_manager.py:113-130 | the filtered entries stay in memory order |
| `MemoryContext.QualifyingPositions` | src/utils/memory_manager.py:118-130 | a position is chosen exactly when its turn passes the overlap test, query overlap above 0.3 or response overlap above 0.2 |
| `MemoryContext.InsertByRelevance` | src/utils/memory_manager.py:136-139 | insertion adds exactly the one element |
| `MemoryContext.InsertKeepsOrder` | src/utils/memory_manager.py:136-139 | inserting an entry later in memory keeps the ranking: higher relevance first, ties in memory order |
| `MemoryContext.SortByRelevance` | src/utils/memory_manager.py:136-139 | the sort is a permutation of its input |
| `MemoryContext.SortedByRelevance` | src/utils/memory_manager.py:136-139 | sorting entries given in memory order yields Python's stable descending order on relevance |
| `MemoryContext.RankedRelated` | src/utils/memory_manager.py:113-139 | the ranking is a permutation of the qualifying turns with their positions and relevance |
| `MemoryContext.RankedRelatedOrdered` | src/utils/memory_manager.py:136-139 | the ranking is in stable descending relevance order |
| `MemoryContext.RankedRelatedMember` | src/utils/memory_manager.py:113-130 | every ranked entry is a stored turn at its position, qualifies, and carries its own relevance |
| `MemoryContext.RankedRelatedComplete` | src/utils/memory_manager.py:113-130 | every qualifying stored turn is ranked |
| `MemoryContext.SelectRelated` | src/utils/memory_manager.py:144 | the shown entries are the first three of the ranking, or all of it when shorter |
| `MemoryContext.SelectRelatedShown` | src/utils/memory_manager.py:113-144 | everything shown is a qualifying stored turn, in ranking order |
| `MemoryContext.SelectRelatedTopThree` | src/utils/memory_manager.py:136-144 | a qualifying turn is shown unless three turns that precede it in the ranking are shown |
| `MemoryContext.SelectRelatedEmpty` | src/utils/memory_manager.py:132-133 | nothing is shown exactly when no stored turn qualifies |
| `MemoryContext.RelatedEntries` | src/utils/memory_manager.py:144-153 | two lines per shown turn: its earlier query, then its response clipped at 150 |
| `MemoryContext.RelatedContext` | src/utils/memory_manager.py:95-155 | empty exactly when no stored turn qualifies, which covers empty memory; otherwise the header followed by the entries of the top three |
| `MemoryContext.IdenticalQueryQualifies` | src/utils/memory_manager.py:118-126 | a stored turn whose query is the current query, and has at least one word, always qualifies |
| `MemoryHistory.SummaryTopicsArePrefix` | src/utils/memory_manager.py:290-295 | the summary's topic list is the history answer's list without its last three topics |
| `MemoryHistory.SelectHistoryRule` | src/utils/memory_manager.py:178-224 | each answer is chosen exactly under its branch condition; the first-word group wins over the last-word group; a group without question/ask or response/answer falls through to the recent context |
| `MemoryHistory.UserQueries` | src/utils/memory_manager.py:199 | the stored queries, oldest first |
| `MemoryHistory.DiscussedTopics` | src/utils/memory_manager.py:207-209 | exactly the listed topics found in the text, in list order |
| `MemoryHistory.ScienceTopicsAreWords` | src/utils/memory_manager.py:201-206 | every listed topic is a non-empty word without spaces |
| `MemoryHistory.TopicInJoinedQueries` | src/utils/memory_manager.py:199-208 | a word without spaces occurs in the lower-cased joined queries exactly when it occurs in one lower-cased query |
| `MemoryHistory.NumberedQuestions` | src/utils/memory_manager.py:218-220 | one line per stored query: its number from 1, then the query |
| `MemoryHistory.TopicsReply` | src/utils/memory_manager.py:211-214 | the no-topics sentence exactly when no topic was found; otherwise "We have discussed: " followed by the topics joined with ", " |
| `MemoryHistory.HistoryInfo` | src/utils/memory_manager.py:161-224 | the empty-history sentence on empty memory; otherwise, for each branch, the first or last query, the first or last response cut at 200, the count, the topics, the numbered questions, or the three-turn context |
| `MemoryHistory.QuestionCountReadsBack` | src/utils/memory_manager.py:194-195 | the number in the count answer reads back as the number of stored turns |
| `MemoryHistory.FoundTopicsMeaning` | src/utils/memory_manager.py:199-209 | a topic is found exactly when some stored query mentions it; found topics keep list order |
| `MemoryHistory.TopicsAnswerMeaning` | src/utils/memory_manager.py:197-214 | the topics answer lists exactly the science topics some query mentions, and says none were discussed exactly when none is; when some are, the answer is "We have discussed: " followed by them joined with ", " |
| `MemoryHistory.ConversationSummary` | src/utils/memory_manager.py:269-307 | the empty summary exactly on empty memory; otherwise the turn count, the summary topics some query mentions in list order, and the first and last queries cut at 50 with "..." |
| `MemoryHistory.SummaryTopicsWithinHistoryTopics` | src/utils/memory_manager.py:290-300 | the summary's topics are the history answer's topics that lie in the shorter list |
| `ScopeFilter.FirstKeywordFrom` | src/guardrails/content_filter.py:74-77 | returns the first keyword, from the given position on, that occurs in the query; none exactly when no later keyword occurs |
| `ScopeFilter.KeywordMatchFindsAny` | src/guardrails/content_filter.py:73-77 | a keyword is reported exactly when some keyword of the table occurs in the lower-cased query |
| `ScopeFilter.ReadVerdict` | src/guardrails/content_filter.py:94-107 | out of scope exactly when the model answers, and its stripped upper-cased reply is "NO"; an unclear reply or a raised call defaults to relevant with its own reason |
| `ScopeFilter.CheckScopeRelevance` | src/guardrails/content_filter.py:69-107 | a keyword hit is relevant, names the first matching keyword and makes no call; otherwise exactly one scope question is put to the model and its verdict is read; out of scope exactly when no keyword occurs and the model says NO |
| `ScopeFilter.KeywordScopeMonotone` | src/guardrails/content_filter.py:73-77 | a text that contains a keyword-matched query is keyword-matched too |
| `ScopeFilter.KeywordDecides` | src/guardrails/content_filter.py:74-77 | any table keyword in the lower-cased query makes it relevant without a model call |
| `ScopeFilter.FrictionInScope` | src/guardrails/content_filter.py:74-77 | a query mentioning "friction" is in scope without a model call |
| `ScopeFilter.ShortKeywordsMatchInsideWords` | src/guardrails/content_filter.py:74-77 | "start" and "excellent" put a query in scope through "star" and "cell" |
| `ScopeFilter.GenerateScopeResponse` | src/guardrails/content_filter.py:109-119 | the fixed refusal prefix, the query verbatim, then the fixed suffix |
| `ScopeFilter.ScopeResponseInjective` | src/guardrails/content_filter.py:119 | different queries get different refusals |
| `Retriever.SimilaritySearch` | src/vectorstore/chroma_store.py:184-210 | no results and no call without a store; otherwise one search call, no results when it raises, and one hit per returned passage in order, with its content, metadata and score |
| `Retriever.PageLabel` | src/vectorstore/chroma_store.py:243 | the page value as rendered, or "Unknown" when the passage has no page |
| `Retriever.ContextBlock` | src/vectorstore/chroma_store.py:242-247 | the block header, then the passage stripped of surrounding whitespace |
| `Retriever.ContextBlocks` | src/vectorstore/chroma_store.py:240-247 | one block per hit, numbered consecutively in hit order |
| `Retriever.GetRelevantContext` | src/vectorstore/chroma_store.py:212-255 | the no-information sentence exactly when the search yields nothing; otherwise the blocks numbered from 1 joined by blank lines; the same calls as the search |
| `Retriever.BlockNumberReadsBack` | src/vectorstore/chroma_store.py:246 | the number in a block header reads back as the block's position |
| `Retriever.RetrievalKeepsEveryPassage` | src/vectorstore/chroma_store.py:231-249 | with a working store there is one block per returned passage, in order, holding that passage stripped |
| `ImageGate.ImageHint` | src/utils/image_processor.py:57-63 | the question is put into the request exactly when it is non-empty |
| `ImageGate.DescribeImage` | src/utils/image_processor.py:33-99 | no description and no call when the data is missing, empty, shorter than 100 characters, or fails the base64 probe on its first 100 characters plus "=="; otherwise one call, no description when it raises, and the stripped reply when it answers |
| `ImageGate.DescriptionIsStripped` | src/utils/image_processor.py:84 | a description has no surrounding whitespace |
| `ImageGate.ShortDataRefused` | src/utils/image_processor.py:42-44 | data shorter than 100 characters is refused before the probe and without a call |
| `Agent.AgentMemory` | src/agents/helpbuddy_agent.py:32 | the agent's memory starts empty, keeping 10 turns for 24 hours |
| `Agent.InitialState` | src/agents/helpbuddy_agent.py:50-61 | the initial state holds the query, empty context and response, and metadata with has_image, no context retrieved and no scope check |
| `Agent.ErrorState` | src/agents/helpbuddy_agent.py:148-160 | the apology with metadata holding has_image and the error text |
| `Agent.ProcessedQuery` | src/agents/helpbuddy_agent.py:97-116 | a text query, or an image query without data, is unchanged with no call; an attached image is described once, and a non-empty description is appended after " - Image shows: " |
| `Agent.RetrieveContext` | src/agents/helpbuddy_agent.py:162-178 | the context is the retrieval for the processed query with 5 chunks, and the flag is set; nothing else in the state changes |
| `Agent.GenerateResponse` | src/agents/helpbuddy_agent.py:186-261 | one answer request; the response is the model's reply, or the apology when it raises; the response is appended to the messages; nothing else changes |
| `Agent.GenerateFollowUp` | src/agents/helpbuddy_agent.py:350-380 | one follow-up request; the model's reply, or the rephrase request when it raises |
| `Agent.HistoryQuestionInLongerText` | src/agents/helpbuddy_agent.py:64-67 | the history-question test is a substring test on the lower-cased query: any text containing a history question is one too |
| `Agent.FollowUpKeywordInLongerText` | src/agents/helpbuddy_agent.py:65-68 | the follow-up keyword test is a substring test on the lower-cased query: any text containing a query with a follow-up keyword has one too |
| `Agent.FollowUpQuestionCues` | src/agents/helpbuddy_agent.py:317-340 | `_is_follow_up_question` is never true on empty memory; with earlier turns it is true for a query of at most five words, for one containing "the" or "earlier" anywhere, even inside a longer word, and for one opening with "and" |
| `Agent.FollowUpContextMeansHistory` | src/agents/helpbuddy_agent.py:88-91 | the follow-up gate on the five-turn context passes exactly when memory is non-empty |
| `Agent.AnswerQuery` | src/agents/helpbuddy_agent.py:96-146 | out of scope exactly when the verdict on the processed query is irrelevant: the refusal, memory untouched; otherwise the context is what retrieval on the processed query returns, the response is the model's reply to the answer prompt or the apology when that request fails, and there is exactly one memory write of the original query and that response, with the flags set and the calls in order |
| `Agent.FollowUpOrAnswer` | src/agents/helpbuddy_agent.py:78-94 | the follow-up route exactly when there is no attached image, a follow-up cue, and memory to follow up on; it makes one request and leaves memory alone; every other query takes the full answer path |
| `Agent.ProcessQuery` | src/agents/helpbuddy_agent.py:44-146 | the history route exactly for history questions, answered from memory with no call; the follow-up route exactly when it is taken; otherwise the full answer; only an answered query changes memory |
| `AgentSync.StridePairs` | src/agents/helpbuddy_agent.py:298-301 | the entries at positions 2k and 2k+1, for each complete pair |
| `AgentSync.SyncPairs` | src/agents/helpbuddy_agent.py:298-303 | exactly the stride pairs whose roles are user then assistant, in order |
| `AgentSync.SyncPairsCounts` | src/agents/helpbuddy_agent.py:298-307 | a user/assistant pair is replayed as many times as it occurs among the stride pairs, so a repeated exchange is replayed each time; any other pair never |
| `AgentSync.SyncPairsOfAlternating` | src/agents/helpbuddy_agent.py:298-303 | on a transcript alternating user and assistant, every stride pair is kept |
| `AgentSync.PairInteractionAt` | src/agents/helpbuddy_agent.py:304-308 | replayed pair k becomes interaction k |
| `AgentSync.ReplayPairs` | src/agents/helpbuddy_agent.py:298-308 | replaying keeps the limits and the user context |
| `AgentSync.ReplayStep` | src/agents/helpbuddy_agent.py:304-308 | one replayed add on fresh memory appends the pair, truncates, and keeps memory fresh and within its limit |
| `AgentSync.TruncateThenAppend` | src/utils/memory_manager.py:52-53 | truncating after each append agrees with truncating once at the end |
| `AgentSync.ReplayOntoFresh` | src/agents/helpbuddy_agent.py:298-308 | replaying onto fresh memory leaves the last max_history of the old turns followed by the replayed ones |
| `AgentSync.SyncConversationHistory` | src/agents/helpbuddy_agent.py:287-311 | always reports success; an empty transcript leaves memory alone; otherwise memory with turns is cleared, including its user context, and with positive limits it holds the last max_history user/assistant pairs replayed |
| `AgentSync.SyncedTurnAt` | src/agents/helpbuddy_agent.py:298-308 | kept turn k is the replayed pair k places into the kept ones |
| `AgentSync.SyncedTurnOfStride` | src/agents/helpbuddy_agent.py:298-308 | when every stride pair is a turn, a kept exchange j sits at its shifted position with its question and answer |
| `AgentSync.SyncedTurnsCount` | src/agents/helpbuddy_agent.py:298-308 | a sync keeps the smaller of max_history and the number of user/assistant pairs |
| `ChatHistory.SelectInput` | app.py:228-236 | the text query when text is submitted; otherwise the image question with the upload when all image inputs are present; otherwise nothing |
| `ChatHistory.Submit` | app.py:239-266 | only a non-empty query that differs from the last answered one is sent; when it succeeds, the user and assistant turns are appended and the query remembered; when it raises, nothing changes |
| `ChatHistory.HandleInputs` | app.py:228-261 | the selected input, if any, is submitted |
| `ChatHistory.HandleAudio` | app.py:158-176 | a non-empty transcription is submitted without an image once the store is ready; otherwise nothing happens |
| `ChatHistory.TextBeforeImage` | app.py:228-232 | while the text path is chosen, only the text query is sent |
| `ChatHistory.ResubmitIsIgnored` | app.py:239 | a rerun with the query just answered sends nothing and changes nothing |
| `ChatHistory.ExchangeKeepsAlternating` | app.py:249-258 | appending an exchange keeps the transcript alternating |
| `ChatHistory.SubmitKeepsAlternating` | app.py:239-261 | submitting keeps the transcript alternating, whatever the agent does |
| `ChatHistory.PairedRoles` | app.py:282-287 | a full display pair is always a user entry followed by an assistant entry |
| `ChatHistory.PairsConsumeEveryMessage` | app.py:279-295 | the display pairs use every message exactly once, in order |
| `ChatHistory.PairMessages` | app.py:279-295 | the display loop computes the pairing: a user entry followed by an assistant entry pairs, any other entry stands alone |
| `ChatHistory.PairsOfAlternatingStride` | app.py:279-295 | on an alternating transcript, the display pairs are the stride pairs |
| `ChatHistory.PairsAgreeWithSync` | app.py:279-295 | on an alternating transcript of 2n entries, the display shows n full pairs, exactly the pairs the sync replays |
| `ChatHistory.PairsAppendExchange` | app.py:279-295 | an appended exchange adds one full pair at the end of the display pairs |
| `ChatHistory.SubmitAddsOnePair` | app.py:239-261 | an answered query adds exactly one display pair: the query and its answer |
| `ChatHistory.DisplayOrder` | app.py:298 | the pairs are shown newest first |
| `ChatHistory.NewestPairShownFirst` | app.py:298 | after an answered query, its pair is shown at the top |
| `ChatHistory.SyncOfAlternatingCount` | src/agents/helpbuddy_agent.py:298-308 | rebuilding memory from an alternating transcript of n exchanges keeps the smaller of max_history and n turns |
| `ChatHistory.SyncOfAlternatingTurn` | src/agents/helpbuddy_agent.py:298-308 | each kept exchange sits at its shifted position, oldest first, with its question and answer |
| `Scenarios.PlasticIsHistoryQuestion` | src/agents/helpbuddy_agent.py:64-76 | "plastic" contains "last", so it is answered from the history with no call and no memory write, as the three-turn context |
| `Scenarios.PhotosynthesisIsNoHistoryQuestion` | src/agents/helpbuddy_agent.py:65-68 | "photosynthesis" contains no history keyword |
| `Scenarios.PhotosynthesisIsFollowUp` | src/agents/helpbuddy_agent.py:66-94 | "photosynthesis" contains "the", so with any stored turn it gets the follow-up reply alone and memory is not written |
| `Scenarios.PhotosynthesisImageSkipsFollowUp` | src/agents/helpbuddy_agent.py:78-82 | with an attached image, the same query skips the follow-up test and goes to the scope check |
| `Scenarios.WhatAboutIsFollowUp` | src/agents/helpbuddy_agent.py:317-340 | "What about pressure" opens with a context phrase, so it is a follow-up once memory holds a turn |
| `Scenarios.HowManyQuestionsIsCounted` | src/utils/memory_manager.py:194-195 | with three stored turns, "How many questions have I asked?" is answered "You have asked 3 questions so far." with no call |
| `Scenarios.HistroyLiteralGatesFollowUp` | src/utils/memory_manager.py:71-72 | the five-turn context is the misspelt no-history literal exactly on empty memory, and is never the correctly spelt sentence |
| `Scenarios.ZeroLimitKeepsEverything` | src/utils/memory_manager.py:52-53 | a count limit of 0 bounds nothing: an add to fresh memory grows it by one turn |

## Left out

- Logging, the Streamlit widgets and layout, and the page styling are left out: they produce
  output only.
- The wording of the prompts is left out. Each `Prompt` variant names only the values placed into
  it; the text around them is opaque to the model.
- The vector store's infrastructure is left out: initialisation, PDF indexing, collection info,
  reset and debugging. Only `storeReady` and the search oracle remain. The search's `filter_dict`
  argument is never passed by the agent and is not modelled.
- `check_content_safety`, `get_memory_info` (sizes of Python `str()` renderings), the audio
  processor and the logging configuration are not part of this model.
- Python `lower` and `upper` are modelled on ASCII letters only. `strip` and `split` use Python's
  whitespace set. Unicode case mapping is out of scope.
- The overlap ratios of `get_related_context` are floats in the source. They are compared exactly
  by cross-multiplying integers. Relevance is the larger numerator, since both ratios share a
  denominator.
- Timestamps are integers, and an add takes one `now`. The source reads the clock twice in an
  add, once for the stamp and once for the cutoff; both are that one `now` here.
- `AgentSync.ReplayPairs`: every replayed turn is stamped with the one instant `now`. The source
  reads the clock inside each add, so its stamps rise slightly during a sync. Which turns survive
  and their order are the same as long as the sync takes less than the age limit; the exact
  stamps are not. `AgentSync.SyncedTurns` and `AgentSync.SyncConversationHistory` inherit this.
- `isoformat` in the export and `strftime("%H:%M")` in the front end are not rendered: an exported
  timestamp stays an integer, and the front end's time is a string parameter.
- The base64 encoding of an upload and the `base64.b64decode` probe are left out: the upload
  arrives already encoded, and the probe is the `isBase64` oracle.
- Exceptions inside the memory manager's own handlers are left out. No modelled step can raise
  there, so the handlers' fallbacks ("Error retreiving conversation context." and the like) are
  not modelled.
- The outer handler of `process_query` is left out as a path. No modelled step raises past its
  own handler, so it is unreachable. `Agent.ErrorState` gives only the shape of its reply.
- `result.get("response", …)` in the front end is left out: the agent always returns a response.
  Transcript entries always carry role, content and timestamp, so the `.get` defaults of the sync
  are left out too.
- The front end's startup sync, its gating on the store being ready, and the sidebar's clear
  button are left out. The clear button is `MemoryManager.ClearMemory` plus `ChatHistory.NewSession`.
- `AgentSync.SyncConversationHistory`: the replayed turns are pinned down only for a positive age
  limit and a count limit of at least one. The agent always uses 24 hours and 10 turns; other
  limits only get the facts about limits and user context.
- `MemoryManager.AddInteraction`: with a negative count limit, Python's `[-n:]` drops turns from
  the front. The contract then states only freshness and the subsequence relation, not the length.
