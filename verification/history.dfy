/** Answers to questions about the conversation itself ("what was my first question?") and the
    conversation summary. */
module MemoryHistory {
  import opened Seqs
  import opened PyText
  import opened MemoryManager
  import opened MemoryContext

  const EmptyHistoryText := "No conversation history available."
  const NoTopicsText := "We haven't" + " discussed any specific science topics yet."
  const ResponseClip: nat := 200
  const SummaryClip: nat := 50
  const RecentTurns := 3

  const FirstWords: seq<string> := ["first", "1st", "initial", "start"]
  const LastWords: seq<string> := ["last", "recent", "previous", "before"]

  /** The topics the history answer looks for, in the order it lists them. */
  const ScienceTopics: seq<string> := [
    "photosynthesis", "cell", "force", "motion", "light", "sound",
    "electricity", "magnet", "chemical", "reaction", "acid", "base",
    "animal", "plant", "reproduction", "food", "nutrition",
    "respiration", "excretion", "weeds", "crop", "fertilizer"]

  /** The topics of the summary: the same list without the last three. */
  const SummaryTopics: seq<string> := [
    "photosynthesis", "cell", "force", "motion", "light",
    "sound", "electricity", "magnet", "chemical", "reaction",
    "acid", "base", "animal", "plant", "reproduction",
    "food", "nutrition", "respiration", "excretion"]

  lemma SummaryTopicsArePrefix()
    ensures SummaryTopics == ScienceTopics[..19]
  {
  }

  predicate AsksQuestion(q: string) {
    Contains(q, "question") || Contains(q, "ask")
  }

  predicate AsksResponse(q: string) {
    Contains(q, "response") || Contains(q, "answer")
  }

  /** Which answer a history question gets. */
  datatype HistoryRule =
    | FirstQuestion | FirstResponse | LastQuestion | LastResponse
    | QuestionCount | Topics | AllQuestions | RecentContext

  /** The branch taken on the lower-cased query. The first-word group wins over the last-word group,
      and a group without "question"/"ask" or "response"/"answer" falls through to the recent context
      rather than to the later tests. */
  function SelectHistoryRule(q: string): (rule: HistoryRule)
    ensures rule == FirstQuestion <==> ContainsAny(q, FirstWords) && AsksQuestion(q)
    ensures rule == FirstResponse <==> ContainsAny(q, FirstWords) && !AsksQuestion(q) && AsksResponse(q)
    ensures rule == LastQuestion <==> !ContainsAny(q, FirstWords) && ContainsAny(q, LastWords) && AsksQuestion(q)
    ensures rule == LastResponse <==>
              !ContainsAny(q, FirstWords) && ContainsAny(q, LastWords) && !AsksQuestion(q) && AsksResponse(q)
    ensures rule == QuestionCount <==>
              !ContainsAny(q, FirstWords) && !ContainsAny(q, LastWords) && Contains(q, "how many") && AsksQuestion(q)
    ensures rule == Topics <==>
              && !ContainsAny(q, FirstWords) && !ContainsAny(q, LastWords)
              && !(Contains(q, "how many") && AsksQuestion(q))
              && Contains(q, "what") && Contains(q, "discuss")
    ensures rule == AllQuestions <==>
              && !ContainsAny(q, FirstWords) && !ContainsAny(q, LastWords)
              && !(Contains(q, "how many") && AsksQuestion(q))
              && !(Contains(q, "what") && Contains(q, "discuss"))
              && Contains(q, "all") && AsksQuestion(q)
    ensures (ContainsAny(q, FirstWords) || ContainsAny(q, LastWords)) && !AsksQuestion(q) && !AsksResponse(q)
            ==> rule == RecentContext
  {
    if ContainsAny(q, FirstWords) then
      if AsksQuestion(q) then FirstQuestion
      else if AsksResponse(q) then FirstResponse
      else RecentContext
    else if ContainsAny(q, LastWords) then
      if AsksQuestion(q) then LastQuestion
      else if AsksResponse(q) then LastResponse
      else RecentContext
    else if Contains(q, "how many") && AsksQuestion(q) then QuestionCount
    else if Contains(q, "what") && Contains(q, "discuss") then Topics
    else if Contains(q, "all") && AsksQuestion(q) then AllQuestions
    else RecentContext
  }

  /** The stored user queries, oldest first. */
  function UserQueries(convs: seq<Interaction>): (qs: seq<string>)
    ensures |qs| == |convs|
    ensures forall k | 0 <= k < |convs| :: qs[k] == convs[k].userQuery
  {
    seq(|convs|, k requires 0 <= k < |convs| => convs[k].userQuery)
  }

  /** The topics of `topics` that occur in `text`, in list order. */
  function DiscussedTopics(text: string, topics: seq<string>): (found: seq<string>)
    ensures IsSubsequence(found, topics)
    ensures forall t :: t in found <==> t in topics && Contains(text, t)
    decreases |topics|
  {
    if topics == [] then []
    else
      var rest := DiscussedTopics(text, topics[1..]);
      assert topics == [topics[0]] + topics[1..];
      if Contains(text, topics[0]) then
        SubsequenceCons(topics[0], rest, topics[1..]);
        [topics[0]] + rest
      else
        PrependToSuper(topics[0], rest, topics[1..]);
        rest
  }

  /** Every listed topic is a non-empty lower-case word. */
  lemma ScienceTopicsAreWords()
    ensures forall k | 0 <= k < |ScienceTopics| :: ScienceTopics[k] != "" && ' ' !in ScienceTopics[k]
  {
  }

  /** A word without spaces occurs in the space-joined queries, lower-cased, iff it occurs in one
      of the queries, lower-cased: joining never makes a topic appear across two queries. */
  lemma {:induction false} TopicInJoinedQueries(queries: seq<string>, topic: string)
    requires topic != "" && ' ' !in topic
    ensures Contains(Lower(Join(" ", queries)), topic)
            <==> exists k | 0 <= k < |queries| :: Contains(Lower(queries[k]), topic)
  {
    var lowered := seq(|queries|, k requires 0 <= k < |queries| => Lower(queries[k]));
    LowerJoin(" ", queries, lowered);
    assert Lower(" ") == " ";
    ContainsInJoin(' ', lowered, topic);
    assert !Contains("", topic);
  }

  /** The numbered question lines of the all-questions answer. */
  function NumberedQuestions(convs: seq<Interaction>, first: nat): (lines: seq<string>)
    ensures |lines| == |convs|
    ensures forall k | 0 <= k < |convs| :: lines[k] == NatToString(first + k) + ". " + convs[k].userQuery
    decreases |convs|
  {
    if convs == [] then []
    else
      assert forall k | 1 <= k < |convs| :: convs[k] == convs[1..][k - 1];
      [NatToString(first) + ". " + convs[0].userQuery] + NumberedQuestions(convs[1..], first + 1)
  }

  /** The topics answer for the topics found. */
  function TopicsReply(found: seq<string>): (r: string)
    ensures r == NoTopicsText <==> found == []
    ensures found != [] ==> r == "We have discussed: " + Join(", ", found)
  {
    if found != [] then
      var r := "We have discussed: " + Join(", ", found);
      assert r[7] == "We have discussed: "[7] == ' ';
      assert NoTopicsText[7] == 'n';
      r
    else NoTopicsText
  }

  function TopicsAnswer(convs: seq<Interaction>): string {
    TopicsReply(DiscussedTopics(Lower(Join(" ", UserQueries(convs))), ScienceTopics))
  }

  /** `get_conversation_history_info`: the answer for each branch of the question. */
  function HistoryInfo(m: Memory, query: string): (r: string)
    ensures m.conversations == [] ==> r == EmptyHistoryText
    ensures m.conversations != [] ==>
              var convs := m.conversations;
              match SelectHistoryRule(Lower(query))
              case FirstQuestion => r == "Your first question was: '" + convs[0].userQuery + "'"
              case FirstResponse =>
                r == "My first response was: '" + Take(convs[0].botResponse, ResponseClip) + "...'"
              case LastQuestion => r == "Your last question was: '" + convs[|convs| - 1].userQuery + "'"
              case LastResponse =>
                r == "My last response was: '" + Take(convs[|convs| - 1].botResponse, ResponseClip) + "...'"
              case QuestionCount => r == "You have asked " + NatToString(|convs|) + " questions so far."
              case Topics => r == TopicsAnswer(convs)
              case AllQuestions => r == "All your questions:\n" + Join("\n", NumberedQuestions(convs, 1))
              case RecentContext => r == ConversationContext(m, RecentTurns)
  {
    var convs := m.conversations;
    if convs == [] then EmptyHistoryText
    else
      match SelectHistoryRule(Lower(query))
      case FirstQuestion => "Your first question was: '" + convs[0].userQuery + "'"
      case FirstResponse => "My first response was: '" + Take(convs[0].botResponse, ResponseClip) + "...'"
      case LastQuestion => "Your last question was: '" + convs[|convs| - 1].userQuery + "'"
      case LastResponse =>
        "My last response was: '" + Take(convs[|convs| - 1].botResponse, ResponseClip) + "...'"
      case QuestionCount => "You have asked " + NatToString(|convs|) + " questions so far."
      case Topics => TopicsAnswer(convs)
      case AllQuestions => "All your questions:\n" + Join("\n", NumberedQuestions(convs, 1))
      case RecentContext => ConversationContext(m, RecentTurns)
  }

  /** The count in the question-count answer reads back as the number of stored turns. */
  lemma {:induction false} QuestionCountReadsBack(m: Memory, query: string)
    requires m.conversations != [] && SelectHistoryRule(Lower(query)) == QuestionCount
    ensures exists digits ::
              HistoryInfo(m, query) == "You have asked " + digits + " questions so far."
              && DecimalValue(digits) == |m.conversations|
  {
    DecimalRoundTrip(|m.conversations|);
    var digits := NatToString(|m.conversations|);
    assert HistoryInfo(m, query) == "You have asked " + digits + " questions so far.";
  }

  /** For a list of words, the topics found in the joined queries are exactly those some stored
      query mentions, in list order. */
  lemma {:induction false} FoundTopicsMeaning(convs: seq<Interaction>, topics: seq<string>)
    requires forall k | 0 <= k < |topics| :: topics[k] != "" && ' ' !in topics[k]
    ensures var found := DiscussedTopics(Lower(Join(" ", UserQueries(convs))), topics);
            && IsSubsequence(found, topics)
            && (forall t | t in topics ::
                  t in found <==> exists k | 0 <= k < |convs| :: Contains(Lower(convs[k].userQuery), t))
  {
    var queries := UserQueries(convs);
    var found := DiscussedTopics(Lower(Join(" ", queries)), topics);
    forall t | t in topics
      ensures t in found <==> exists k | 0 <= k < |convs| :: Contains(Lower(convs[k].userQuery), t)
    {
      TopicInJoinedQueries(queries, t);
      if exists k | 0 <= k < |queries| :: Contains(Lower(queries[k]), t) {
        var k :| 0 <= k < |queries| && Contains(Lower(queries[k]), t);
        assert Contains(Lower(convs[k].userQuery), t);
      }
      if exists k | 0 <= k < |convs| :: Contains(Lower(convs[k].userQuery), t) {
        var k :| 0 <= k < |convs| && Contains(Lower(convs[k].userQuery), t);
        assert Contains(Lower(queries[k]), t);
      }
    }
  }

  /** The topics answer lists exactly the science topics some stored query mentions, in list order,
      and says none were discussed exactly when no stored query mentions any. */
  lemma {:induction false} TopicsAnswerMeaning(convs: seq<Interaction>)
    ensures var found := DiscussedTopics(Lower(Join(" ", UserQueries(convs))), ScienceTopics);
            && IsSubsequence(found, ScienceTopics)
            && (forall t | t in ScienceTopics ::
                  t in found <==> exists k | 0 <= k < |convs| :: Contains(Lower(convs[k].userQuery), t))
            && (TopicsAnswer(convs) == NoTopicsText <==> found == [])
            && (found != [] ==> TopicsAnswer(convs) == "We have discussed: " + Join(", ", found))
  {
    ScienceTopicsAreWords();
    FoundTopicsMeaning(convs, ScienceTopics);
  }

  /** `get_conversation_summary`: the counts and topics, or the empty summary on empty memory. */
  datatype Summary =
    | NoInteractions
    | Summary(totalInteractions: nat, topicsDiscussed: seq<string>, firstQuery: string, lastQuery: string)

  function ConversationSummary(m: Memory): (r: Summary)
    ensures r.NoInteractions? <==> m.conversations == []
    ensures r.Summary? ==>
              && r.totalInteractions == |m.conversations|
              && IsSubsequence(r.topicsDiscussed, SummaryTopics)
              && (forall t :: t in r.topicsDiscussed <==>
                    t in SummaryTopics && Contains(Lower(Join(" ", UserQueries(m.conversations))), t))
              && r.firstQuery == Take(m.conversations[0].userQuery, SummaryClip) + "..."
              && r.lastQuery == Take(m.conversations[|m.conversations| - 1].userQuery, SummaryClip) + "..."
  {
    var convs := m.conversations;
    if convs == [] then NoInteractions
    else
      Summary(|convs|, DiscussedTopics(Lower(Join(" ", UserQueries(convs))), SummaryTopics),
              Take(convs[0].userQuery, SummaryClip) + "...",
              Take(convs[|convs| - 1].userQuery, SummaryClip) + "...")
  }

  /** The summary's topics are the history answer's topics restricted to the shorter list. */
  lemma {:induction false} SummaryTopicsWithinHistoryTopics(m: Memory)
    requires m.conversations != []
    ensures var text := Lower(Join(" ", UserQueries(m.conversations)));
            forall t :: t in ConversationSummary(m).topicsDiscussed <==>
                          t in DiscussedTopics(text, ScienceTopics) && t in SummaryTopics
  {
    SummaryTopicsArePrefix();
    assert forall t | t in SummaryTopics :: t in ScienceTopics;
  }
}
