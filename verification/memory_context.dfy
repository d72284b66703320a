/** The context texts the memory hands to the prompts: the recent conversation, and the
    earlier turns that share words with the current query. */
module MemoryContext {
  import opened Seqs
  import opened PyText
  import opened MemoryManager

  const NoHistoryText := "No previous conversation histroy"
  const ContextHeader := "Previous conversation context:"
  const RelatedHeader := "Related previous discussions:"
  const ContextClip: nat := 200
  const RelatedClip: nat := 150
  const RelatedLimit: nat := 3

  /** A response line of a context block: cut to `limit` characters plus "..." when longer.
      The source indents the two forms differently, two spaces against one. */
  function ClippedLine(tag: string, text: string, limit: nat): string {
    if |text| > limit then "  " + tag + text[..limit] + "..." else " " + tag + text
  }

  /** The clipped line shows the whole text when it fits, else exactly its first `limit` characters. */
  lemma ClippedLineShows(tag: string, text: string, limit: nat)
    ensures |text| <= limit ==> EndsWith(ClippedLine(tag, text, limit), text)
    ensures |text| > limit ==> EndsWith(ClippedLine(tag, text, limit), text[..limit] + "...")
    ensures |text| > limit ==> |ClippedLine(tag, text, limit)| == |tag| + limit + 5
  {
  }

  predicate EndsWith(s: string, suffix: string) {
    |suffix| <= |s| && s[|s| - |suffix|..] == suffix
  }

  /** Two lines per interaction: the numbered user query, then its clipped response. */
  function NumberedEntries(convs: seq<Interaction>, first: nat): (lines: seq<string>)
    ensures |lines| == 2 * |convs|
    ensures forall k | 0 <= k < |convs| ::
              lines[2 * k] == "\n" + NatToString(first + k) + ". User: " + convs[k].userQuery
              && lines[2 * k + 1] == ClippedLine("Assistant: ", convs[k].botResponse, ContextClip)
    decreases |convs|
  {
    if convs == [] then []
    else
      var rest := NumberedEntries(convs[1..], first + 1);
      var head := ["\n" + NatToString(first) + ". User: " + convs[0].userQuery,
                   ClippedLine("Assistant: ", convs[0].botResponse, ContextClip)];
      assert forall k | 1 <= k < |convs| :: convs[k] == convs[1..][k - 1];
      assert forall k | 2 <= k < 2 * |convs| :: (head + rest)[k] == rest[k - 2];
      head + rest
  }

  /** `get_conversation_context(last_n)`: the no-history literal on empty memory, otherwise the
      header followed by the last `last_n` turns (all of them when `last_n` is 0), numbered from 1. */
  function ConversationContext(m: Memory, lastN: int): (r: string)
    ensures m.conversations == [] ==> r == NoHistoryText
    ensures m.conversations != [] ==>
              var shown := LastN(m.conversations, lastN);
              && (lastN >= 1 ==> |shown| == Min(lastN, |m.conversations|))
              && shown == m.conversations[|m.conversations| - |shown|..]
              && r == Join("\n", [ContextHeader] + NumberedEntries(shown, 1))
    ensures m.conversations != [] ==> StartsWith(r, ContextHeader) && r != NoHistoryText && r != ""
  {
    if m.conversations == [] then NoHistoryText
    else
      var parts := [ContextHeader] + NumberedEntries(LastN(m.conversations, lastN), 1);
      JoinStartsWithFirst("\n", parts);
      assert NoHistoryText[..|ContextHeader|] != ContextHeader by {
        assert NoHistoryText[0] != ContextHeader[0];
      }
      Join("\n", parts)
  }

  /** The lower-cased whitespace-separated words of `s`, as a set. */
  function WordSet(s: string): set<string> {
    Elements(Words(Lower(s)))
  }

  /** The elements of a sequence, as a set. */
  function Elements(ws: seq<string>): (r: set<string>)
    ensures forall w :: w in r <==> w in ws
  {
    if ws == [] then {} else {ws[0]} + Elements(ws[1..])
  }

  /** The denominator of both overlap ratios: `max(len(query_words), 1)`. */
  function Denominator(queryWords: set<string>): nat {
    if |queryWords| >= 1 then |queryWords| else 1
  }

  /** `query_overlap > 0.3 or response_overlap > 0.2`, by cross-multiplying the ratios. */
  predicate Qualifies(queryWords: set<string>, c: Interaction) {
    10 * |queryWords * WordSet(c.userQuery)| > 3 * Denominator(queryWords)
    || 5 * |queryWords * WordSet(c.botResponse)| > Denominator(queryWords)
  }

  /** The numerator of `max(query_overlap, response_overlap)`; both ratios share a denominator,
      so ordering by it is ordering by the ratio. */
  function Relevance(queryWords: set<string>, c: Interaction): nat {
    Max(|queryWords * WordSet(c.userQuery)|, |queryWords * WordSet(c.botResponse)|)
  }

  /** A qualifying interaction, its position in memory and its relevance. */
  datatype Ranked = Ranked(index: nat, relevance: nat, interaction: Interaction)

  /** Indices strictly increase along `s`, as they do in memory order. */
  predicate IndexAscending(s: seq<Ranked>) {
    forall k, l | 0 <= k < l < |s| :: s[k].index < s[l].index
  }

  /** `convs` (which starts at memory position `offset`) with each interaction's position and relevance. */
  function Scored(convs: seq<Interaction>, queryWords: set<string>, offset: nat): (rs: seq<Ranked>)
    ensures |rs| == |convs|
    ensures forall k | 0 <= k < |rs| :: rs[k] == Ranked(offset + k, Relevance(queryWords, convs[k]), convs[k])
  {
    seq(|convs|, k requires 0 <= k < |convs| => Ranked(offset + k, Relevance(queryWords, convs[k]), convs[k]))
  }

  /** The entries of `rs` whose position is in `chosen`, in their original order. */
  function KeepChosen(rs: seq<Ranked>, chosen: set<nat>): (cs: seq<Ranked>)
    ensures forall x | x in cs :: x in rs && x.index in chosen
    ensures forall x | x in rs && x.index in chosen :: x in cs
    decreases |rs|
  {
    if rs == [] then []
    else
      assert rs == [rs[0]] + rs[1..];
      if rs[0].index in chosen then [rs[0]] + KeepChosen(rs[1..], chosen)
      else KeepChosen(rs[1..], chosen)
  }

  /** The tail of an ascending sequence is ascending and lies after its head. */
  lemma {:induction false} AscendingTail(rs: seq<Ranked>)
    requires rs != [] && IndexAscending(rs)
    ensures IndexAscending(rs[1..])
    ensures forall y | y in rs[1..] :: rs[0].index < y.index
  {
    forall k, l | 0 <= k < l < |rs[1..]| ensures rs[1..][k].index < rs[1..][l].index {
      assert rs[1..][k] == rs[k + 1] && rs[1..][l] == rs[l + 1];
    }
    forall y | y in rs[1..] ensures rs[0].index < y.index {
      var j :| 0 <= j < |rs[1..]| && rs[1..][j] == y;
      assert rs[j + 1] == y;
    }
  }

  /** An entry before everything in an ascending sequence can be put in front. */
  lemma {:induction false} AscendingCons(x: Ranked, s: seq<Ranked>)
    requires IndexAscending(s)
    requires forall y | y in s :: x.index < y.index
    ensures IndexAscending([x] + s)
  {
    var r := [x] + s;
    forall k, l | 0 <= k < l < |r| ensures r[k].index < r[l].index {
      assert r[l] == s[l - 1] && s[l - 1] in s;
      if k > 0 {
        assert r[k] == s[k - 1];
      }
    }
  }

  /** Filtering keeps memory order. */
  lemma {:induction false} KeepChosenAscending(rs: seq<Ranked>, chosen: set<nat>)
    requires IndexAscending(rs)
    ensures IndexAscending(KeepChosen(rs, chosen))
    decreases |rs|
  {
    if rs != [] {
      AscendingTail(rs);
      KeepChosenAscending(rs[1..], chosen);
      if rs[0].index in chosen {
        AscendingCons(rs[0], KeepChosen(rs[1..], chosen));
      }
    }
  }

  /** The memory positions whose interaction qualifies for `query`. */
  function QualifyingPositions(m: Memory, query: string): (chosen: set<nat>)
    ensures forall i: nat :: i in chosen <==> i < |m.conversations| && Qualifies(WordSet(query), m.conversations[i])
  {
    set i: nat | i < |m.conversations| && Qualifies(WordSet(query), m.conversations[i])
  }

  /** The order of a descending stable sort on relevance: more relevant first, ties by memory order. */
  predicate Precedes(a: Ranked, b: Ranked) {
    a.relevance > b.relevance || (a.relevance == b.relevance && a.index < b.index)
  }

  predicate RankedOrder(s: seq<Ranked>) {
    forall k, l | 0 <= k < l < |s| :: Precedes(s[k], s[l])
  }

  /** Places `x` after every element at least as relevant as it. */
  function InsertByRelevance(x: Ranked, s: seq<Ranked>): (r: seq<Ranked>)
    ensures multiset(r) == multiset(s) + multiset{x}
    decreases |s|
  {
    if s == [] then [x]
    else if s[0].relevance >= x.relevance then
      assert s == [s[0]] + s[1..];
      [s[0]] + InsertByRelevance(x, s[1..])
    else [x] + s
  }

  /** The tail of a ranking is a ranking, all of it after the head. */
  lemma {:induction false} RankedOrderTail(s: seq<Ranked>)
    requires s != [] && RankedOrder(s)
    ensures RankedOrder(s[1..])
    ensures forall y | y in s[1..] :: Precedes(s[0], y)
  {
    forall k, l | 0 <= k < l < |s[1..]| ensures Precedes(s[1..][k], s[1..][l]) {
      assert s[1..][k] == s[k + 1] && s[1..][l] == s[l + 1];
    }
    forall y | y in s[1..] ensures Precedes(s[0], y) {
      var j :| 0 <= j < |s[1..]| && s[1..][j] == y;
      assert s[j + 1] == y;
    }
  }

  /** An entry preceding everything in a ranking can be put in front. */
  lemma {:induction false} RankedOrderCons(x: Ranked, s: seq<Ranked>)
    requires RankedOrder(s)
    requires forall y | y in s :: Precedes(x, y)
    ensures RankedOrder([x] + s)
  {
    var r := [x] + s;
    forall k, l | 0 <= k < l < |r| ensures Precedes(r[k], r[l]) {
      assert r[l] == s[l - 1] && s[l - 1] in s;
      if k > 0 {
        assert r[k] == s[k - 1];
      }
    }
  }

  /** Inserting an entry later in memory than everything already sorted keeps the ranking order. */
  lemma {:induction false} InsertKeepsOrder(x: Ranked, s: seq<Ranked>)
    requires RankedOrder(s)
    requires forall y | y in s :: y.index < x.index
    ensures RankedOrder(InsertByRelevance(x, s))
    decreases |s|
  {
    if s != [] {
      RankedOrderTail(s);
      if s[0].relevance >= x.relevance {
        var rest := InsertByRelevance(x, s[1..]);
        forall y | y in s[1..] ensures y.index < x.index {
          assert y in s;
        }
        InsertKeepsOrder(x, s[1..]);
        forall y | y in rest ensures Precedes(s[0], y) {
          assert y in multiset(rest);
          if y != x {
            assert y in multiset(s[1..]);
          }
        }
        RankedOrderCons(s[0], rest);
      } else {
        forall y | y in s ensures Precedes(x, y) {
          if y != s[0] {
            var j :| 0 <= j < |s| && s[j] == y;
            assert y in s[1..] by { assert s[1..][j - 1] == y; }
          }
        }
        RankedOrderCons(x, s);
      }
    }
  }

  /** Python's stable `sort(key=relevance, reverse=True)`, as insertion from the left. */
  function SortByRelevance(xs: seq<Ranked>): (r: seq<Ranked>)
    ensures multiset(r) == multiset(xs)
    decreases |xs|
  {
    if xs == [] then []
    else
      assert xs == xs[..|xs| - 1] + [xs[|xs| - 1]];
      InsertByRelevance(xs[|xs| - 1], SortByRelevance(xs[..|xs| - 1]))
  }

  /** Sorting entries taken in memory order yields the ranking order. */
  lemma {:induction false} SortedByRelevance(xs: seq<Ranked>)
    requires IndexAscending(xs)
    ensures RankedOrder(SortByRelevance(xs))
    decreases |xs|
  {
    if xs != [] {
      var init := xs[..|xs| - 1];
      var last := xs[|xs| - 1];
      assert xs == init + [last];
      var sorted := SortByRelevance(init);
      assert IndexAscending(init) by {
        forall k, l | 0 <= k < l < |init| ensures init[k].index < init[l].index {
          assert init[k] == xs[k] && init[l] == xs[l];
        }
      }
      SortedByRelevance(init);
      forall y | y in sorted ensures y.index < last.index {
        assert y in multiset(sorted);
        assert y in multiset(init);
        var j :| 0 <= j < |init| && init[j] == y;
        assert xs[j] == y;
      }
      InsertKeepsOrder(last, sorted);
    }
  }

  /** Every qualifying interaction of `m` for `query`, most relevant first; the top three are shown. */
  function RankedRelated(m: Memory, query: string): (ranked: seq<Ranked>)
    ensures multiset(ranked)
            == multiset(KeepChosen(Scored(m.conversations, WordSet(query), 0), QualifyingPositions(m, query)))
  {
    SortByRelevance(KeepChosen(Scored(m.conversations, WordSet(query), 0), QualifyingPositions(m, query)))
  }

  lemma {:induction false} RankedRelatedOrdered(m: Memory, query: string)
    ensures RankedOrder(RankedRelated(m, query))
  {
    var scored := Scored(m.conversations, WordSet(query), 0);
    var cs := KeepChosen(scored, QualifyingPositions(m, query));
    assert IndexAscending(scored);
    KeepChosenAscending(scored, QualifyingPositions(m, query));
    SortedByRelevance(cs);
  }

  /** Everything ranked is a scored qualifying interaction of `m`. */
  lemma {:induction false} RankedRelatedMember(m: Memory, query: string)
    ensures forall x | x in RankedRelated(m, query) ::
              && x.index < |m.conversations| && x.interaction == m.conversations[x.index]
              && Qualifies(WordSet(query), x.interaction)
              && x.relevance == Relevance(WordSet(query), x.interaction)
  {
    var scored := Scored(m.conversations, WordSet(query), 0);
    forall x | x in RankedRelated(m, query)
      ensures && x.index < |m.conversations| && x.interaction == m.conversations[x.index]
              && Qualifies(WordSet(query), x.interaction)
              && x.relevance == Relevance(WordSet(query), x.interaction)
    {
      assert x in multiset(RankedRelated(m, query));
      assert x in KeepChosen(scored, QualifyingPositions(m, query));
      var j :| 0 <= j < |scored| && scored[j] == x;
    }
  }

  /** Every qualifying interaction of `m` is ranked. */
  lemma {:induction false} RankedRelatedComplete(m: Memory, query: string, i: nat)
    requires i < |m.conversations| && Qualifies(WordSet(query), m.conversations[i])
    ensures Ranked(i, Relevance(WordSet(query), m.conversations[i]), m.conversations[i]) in RankedRelated(m, query)
  {
    var scored := Scored(m.conversations, WordSet(query), 0);
    var cs := KeepChosen(scored, QualifyingPositions(m, query));
    assert scored[i] in scored;
    assert scored[i] in cs;
    assert scored[i] in multiset(cs);
  }

  /** The related interactions shown: the first three of the ranking. */
  function SelectRelated(m: Memory, query: string): (sel: seq<Ranked>)
    ensures |sel| <= RelatedLimit && |sel| <= |RankedRelated(m, query)|
    ensures sel == RankedRelated(m, query)[..|sel|]
    ensures |sel| < RelatedLimit ==> sel == RankedRelated(m, query)
  {
    var ranked := RankedRelated(m, query);
    ranked[..Min(RelatedLimit, |ranked|)]
  }

  /** Everything shown is a qualifying stored interaction, in ranking order. */
  lemma {:induction false} SelectRelatedShown(m: Memory, query: string)
    ensures RankedOrder(SelectRelated(m, query))
    ensures forall x | x in SelectRelated(m, query) ::
              && x.index < |m.conversations|
              && x.interaction == m.conversations[x.index]
              && Qualifies(WordSet(query), x.interaction)
              && x.relevance == Relevance(WordSet(query), x.interaction)
  {
    var ranked := RankedRelated(m, query);
    var sel := SelectRelated(m, query);
    RankedRelatedOrdered(m, query);
    RankedRelatedMember(m, query);
    forall k, l | 0 <= k < l < |sel| ensures Precedes(sel[k], sel[l]) {
      assert sel[k] == ranked[k] && sel[l] == ranked[l];
    }
    forall x | x in sel
      ensures && x.index < |m.conversations|
              && x.interaction == m.conversations[x.index]
              && Qualifies(WordSet(query), x.interaction)
              && x.relevance == Relevance(WordSet(query), x.interaction)
    {
      var k :| 0 <= k < |sel| && sel[k] == x;
      assert ranked[k] == x;
    }
  }

  /** No qualifying interaction is left out unless three that precede it in the ranking are shown. */
  lemma {:induction false} SelectRelatedTopThree(m: Memory, query: string, i: nat)
    requires i < |m.conversations| && Qualifies(WordSet(query), m.conversations[i])
    ensures var x := Ranked(i, Relevance(WordSet(query), m.conversations[i]), m.conversations[i]);
            var sel := SelectRelated(m, query);
            x in sel || (|sel| == RelatedLimit && forall k | 0 <= k < |sel| :: Precedes(sel[k], x))
  {
    var ranked := RankedRelated(m, query);
    var sel := SelectRelated(m, query);
    var x := Ranked(i, Relevance(WordSet(query), m.conversations[i]), m.conversations[i]);
    RankedRelatedComplete(m, query, i);
    var p :| 0 <= p < |ranked| && ranked[p] == x;
    if p < |sel| {
      assert sel[p] == x;
    } else {
      RankedRelatedOrdered(m, query);
      forall k | 0 <= k < |sel| ensures Precedes(sel[k], x) {
        assert sel[k] == ranked[k];
      }
    }
  }

  /** Nothing is shown exactly when no stored interaction qualifies. */
  lemma {:induction false} SelectRelatedEmpty(m: Memory, query: string)
    ensures SelectRelated(m, query) == []
            <==> forall i | 0 <= i < |m.conversations| :: !Qualifies(WordSet(query), m.conversations[i])
  {
    var ranked := RankedRelated(m, query);
    if ranked != [] {
      RankedRelatedMember(m, query);
      assert ranked[0] in ranked;
    }
    forall i | 0 <= i < |m.conversations| && Qualifies(WordSet(query), m.conversations[i])
      ensures ranked != []
    {
      RankedRelatedComplete(m, query, i);
    }
  }

  /** Two lines per related interaction: the earlier query, then its response clipped at 150. */
  function RelatedEntries(sel: seq<Ranked>): (lines: seq<string>)
    ensures |lines| == 2 * |sel|
    ensures forall k | 0 <= k < |sel| ::
              lines[2 * k] == "\n- Previously asked: " + sel[k].interaction.userQuery
              && lines[2 * k + 1] == ClippedLine("Response: ", sel[k].interaction.botResponse, RelatedClip)
    decreases |sel|
  {
    if sel == [] then []
    else
      var rest := RelatedEntries(sel[1..]);
      var head := ["\n- Previously asked: " + sel[0].interaction.userQuery,
                   ClippedLine("Response: ", sel[0].interaction.botResponse, RelatedClip)];
      assert forall k | 1 <= k < |sel| :: sel[k] == sel[1..][k - 1];
      assert forall k | 2 <= k < 2 * |sel| :: (head + rest)[k] == rest[k - 2];
      head + rest
  }

  /** `get_related_context`: empty exactly when no stored interaction qualifies (in particular
      on empty memory); otherwise the header and the selected interactions. */
  function RelatedContext(m: Memory, query: string): (r: string)
    ensures r == "" <==> forall i | 0 <= i < |m.conversations| :: !Qualifies(WordSet(query), m.conversations[i])
    ensures r != "" ==> r == Join("\n", [RelatedHeader] + RelatedEntries(SelectRelated(m, query)))
    ensures r != "" ==> StartsWith(r, RelatedHeader)
  {
    if m.conversations == [] then ""
    else
      var sel := SelectRelated(m, query);
      SelectRelatedEmpty(m, query);
      if sel == [] then ""
      else
        var parts := [RelatedHeader] + RelatedEntries(sel);
        JoinStartsWithFirst("\n", parts);
        Join("\n", parts)
  }

  /** A stored interaction whose query is the current query qualifies as soon as the query has a word. */
  lemma {:induction false} IdenticalQueryQualifies(c: Interaction, query: string)
    requires c.userQuery == query
    requires Words(Lower(query)) != []
    ensures Qualifies(WordSet(query), c)
  {
    var qw := WordSet(query);
    assert Words(Lower(query))[0] in qw;
    assert qw * WordSet(c.userQuery) == qw;
  }
}
