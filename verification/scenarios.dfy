/** Concrete queries whose routing follows from the substring tests in ways a reader may not expect. */
module Scenarios {
  import opened Wrappers
  import opened Seqs
  import opened PyText
  import opened Values
  import opened Oracles
  import opened MemoryManager
  import opened MemoryContext
  import opened MemoryHistory
  import opened Agent

  /** "plastic" contains "last": it is answered from the history, with no model call and no memory
      write, and since it asks for neither a question nor a response it gets the recent context. */
  lemma {:induction false} PlasticIsHistoryQuestion(hasImage: bool, imageData: Option<string>, m: Memory, now: int, s: Services)
    ensures var out := ProcessQuery("plastic", hasImage, imageData, m, now, s);
            && out.route == HistoryRoute && out.memory == m && out.calls == []
            && (m.conversations != [] ==> out.state.response == ConversationContext(m, RecentTurns))
  {
    PlasticContainsLast();
    PlasticGetsRecentContext();
  }

  lemma PlasticContainsLast()
    ensures Lower("plastic") == "plastic"
    ensures IsHistoryQuestion("plastic") && ContainsAny("plastic", LastWords)
  {
    LowerOfNoUpper("plastic");
    assert OccursAt("plastic", "last", 1);
    assert Contains("plastic", HistoryKeywords[1]);
    assert Contains("plastic", LastWords[0]);
  }

  lemma PlasticGetsRecentContext()
    requires ContainsAny("plastic", LastWords)
    ensures SelectHistoryRule("plastic") == RecentContext
  {
    NotContainsByChar("plastic", "question", 0);
    NotContainsByChar("plastic", "ask", 2);
    NotContainsByChar("plastic", "response", 0);
    NotContainsByChar("plastic", "answer", 3);
  }

  /** "photosynthesis" is no history question ... */
  lemma PhotosynthesisIsNoHistoryQuestion()
    ensures !IsHistoryQuestion("photosynthesis")
  {
    LowerOfNoUpper("photosynthesis");
    NoneContained("photosynthesis", HistoryKeywords, [0, 0, 1, 0, 3, 4, 4, 0]);
  }

  /** ... but contains "the", so with anything in memory it gets the follow-up reply from the
      conversation alone, and memory is not written. */
  lemma {:induction false} PhotosynthesisIsFollowUp(m: Memory, now: int, s: Services)
    requires m.conversations != []
    ensures var out := ProcessQuery("photosynthesis", false, None, m, now, s);
            out.route == FollowUpRoute && out.memory == m
            && out.calls == [LlmCall(FollowUpPrompt(ConversationContext(m, FollowUpTurns), RelatedContext(m, "photosynthesis"), "photosynthesis"))]
  {
    PhotosynthesisIsNoHistoryQuestion();
    PhotosynthesisHasFollowUpKeyword();
  }

  lemma PhotosynthesisHasFollowUpKeyword()
    ensures HasFollowUpKeyword("photosynthesis")
  {
    LowerOfNoUpper("photosynthesis");
    assert OccursAt("photosynthesis", "the", 8);
    assert Contains("photosynthesis", FollowUpKeywords[3]);
  }

  /** The same query with an attached image skips the follow-up test and goes to the scope check. */
  lemma {:induction false} PhotosynthesisImageSkipsFollowUp(imageData: Option<string>, m: Memory, now: int, s: Services)
    requires ImageDataPresent(imageData)
    ensures var out := ProcessQuery("photosynthesis", true, imageData, m, now, s);
            && (out.route == OutOfScopeRoute || out.route == AnsweredRoute)
            && out == AnswerQuery("photosynthesis", true, imageData, m, now, s)
  {
    PhotosynthesisIsNoHistoryQuestion();
  }

  /** "What about pressure" is no history question, and opens with "what about", so it is a
      follow-up once memory holds a turn. */
  lemma {:induction false} WhatAboutIsFollowUp(m: Memory, now: int, s: Services)
    requires m.conversations != []
    ensures ProcessQuery("What about pressure", false, None, m, now, s).route == FollowUpRoute
    ensures ProcessQuery("What about pressure", false, None, m, now, s).memory == m
  {
    WhatAboutIsNoHistoryQuestion();
    WhatAboutHasCue();
  }

  lemma LowerWhatAbout()
    ensures Lower("What about pressure") == "what about pressure"
  {
  }

  lemma WhatAboutIsNoHistoryQuestion()
    ensures !IsHistoryQuestion("What about pressure")
  {
    var lq := "what about pressure";
    LowerWhatAbout();
    NoneContained(lq, HistoryKeywords[..6], [0, 0, 3, 2, 4, 5]);
    NotContainsByPair(lq, HistoryKeywords[6], 5);
    NotContainsByChar(lq, HistoryKeywords[7], 1);
    forall k | 0 <= k < |HistoryKeywords| ensures !Contains(lq, HistoryKeywords[k]) {
      if k < 6 {
        assert HistoryKeywords[k] == HistoryKeywords[..6][k];
      }
    }
  }

  lemma WhatAboutHasCue()
    ensures FollowUpCue("What about pressure")
  {
    LowerWhatAbout();
    assert StartsWith("what about pressure", ContextOpeners[0]);
  }

  /** "How many questions have I asked?" reads the count back exactly, with no model call. */
  lemma {:induction false} HowManyQuestionsIsCounted(m: Memory, now: int, s: Services)
    requires |m.conversations| == 3
    ensures var out := ProcessQuery("How many questions have I asked?", false, None, m, now, s);
            && out.route == HistoryRoute && out.calls == [] && out.memory == m
            && out.state.response == "You have asked 3 questions so far."
  {
    HowManyIsHistoryQuestion();
    HowManyAnswer(m);
  }

  lemma {:induction false} HowManyAnswer(m: Memory)
    requires |m.conversations| == 3
    ensures HistoryInfo(m, "How many questions have I asked?") == "You have asked 3 questions so far."
  {
    HowManyIsQuestionCount();
    assert NatToString(3) == "3";
  }

  lemma LowerHowMany()
    ensures Lower("How many questions have I asked?") == "how many questions have i asked?"
  {
  }

  lemma HowManyIsHistoryQuestion()
    ensures IsHistoryQuestion("How many questions have I asked?")
  {
    LowerHowMany();
    HowManyAsksCount();
    assert Contains("how many questions have i asked?", HistoryKeywords[4]);
  }

  lemma HowManyIsQuestionCount()
    ensures SelectHistoryRule(Lower("How many questions have I asked?")) == QuestionCount
  {
    LowerHowMany();
    HowManyNamesNoTurn();
    HowManyAsksCount();
  }

  /** The lower-cased query names none of the first or last words ... */
  lemma HowManyNamesNoTurn()
    ensures !ContainsAny("how many questions have i asked?", FirstWords)
    ensures !ContainsAny("how many questions have i asked?", LastWords)
  {
    NoneContained("how many questions have i asked?", FirstWords, [0, 0, 6, 3]);
    NoneContained("how many questions have i asked?", LastWords, [0, 0, 1, 0]);
  }

  /** ... and does say "how many" and "question". */
  lemma HowManyAsksCount()
    ensures Contains("how many questions have i asked?", "how many")
    ensures Contains("how many questions have i asked?", "question")
  {
    OpensWithHowMany();
    StartsWithContains("how many questions have i asked?", "how many");
    SaysQuestion();
  }

  lemma OpensWithHowMany()
    ensures StartsWith("how many questions have i asked?", "how many")
  {
    assert "how many questions have i asked?" == "how many" + " questions have i asked?";
  }

  lemma SaysQuestion()
    ensures Contains("how many questions have i asked?", "question")
  {
    assert "how many questions have i asked?" == "how many " + "question" + "s have i asked?";
    OccursInMiddle("how many ", "question", "s have i asked?");
  }

  /** The follow-up gate compares the five-turn context against the no-history text spelled
      "histroy"; the correctly spelled sentence is never produced. */
  lemma {:induction false} HistroyLiteralGatesFollowUp(m: Memory)
    ensures ConversationContext(m, FollowUpTurns) == "No previous conversation histroy" <==> m.conversations == []
    ensures ConversationContext(m, FollowUpTurns) != "No previous conversation history"
  {
    assert "No previous conversation history"[29] != NoHistoryText[29];
  }

  /** A count limit of 0 bounds nothing: every add to a fresh memory grows it by one turn. */
  lemma {:induction false} ZeroLimitKeepsEverything(m: Memory, userQuery: string, botResponse: string, now: int)
    requires m.maxHistory == 0 && m.maxAgeHours > 0
    requires forall k | 0 <= k < |m.conversations| :: m.conversations[k].timestamp > AgeCutoff(now, m.maxAgeHours)
    ensures |AddInteraction(m, userQuery, botResponse, None, now).conversations| == |m.conversations| + 1
  {
    EvictOldKeepsFresh(m.conversations, AgeCutoff(now, m.maxAgeHours));
  }
}
