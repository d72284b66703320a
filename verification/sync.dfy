/** `sync_conversation_history`: rebuilding the agent's memory from the chat transcript the user
    interface keeps, an alternating list of user and assistant messages. */
module AgentSync {
  import opened Wrappers
  import opened Seqs
  import opened Values
  import opened MemoryManager

  /** One transcript entry. */
  datatype Message = Message(role: string, content: string, timestamp: string)

  predicate IsTurn(p: (Message, Message)) {
    p.0.role == "user" && p.1.role == "assistant"
  }

  /** The entries at positions (0, 1), (2, 3), ...; a trailing odd entry has no partner. */
  function StridePairs(history: seq<Message>): (pairs: seq<(Message, Message)>)
    ensures |pairs| == |history| / 2
    ensures forall k | 0 <= k < |pairs| :: pairs[k] == (history[2 * k], history[2 * k + 1])
  {
    seq(|history| / 2, k requires 0 <= k < |history| / 2 => (history[2 * k], history[2 * k + 1]))
  }

  lemma {:induction false} StridePairsCons(history: seq<Message>)
    requires |history| >= 2
    ensures StridePairs(history) == [(history[0], history[1])] + StridePairs(history[2..])
  {
    var rest := StridePairs(history[2..]);
    assert forall k | 0 <= k < |rest| :: rest[k] == (history[2 * k + 2], history[2 * k + 3]);
  }

  /** The stride-2 walk of the source, keeping only pairs whose roles are user then assistant. */
  function SyncPairs(history: seq<Message>): (pairs: seq<(Message, Message)>)
    ensures IsSubsequence(pairs, StridePairs(history))
    ensures forall p :: p in pairs <==> p in StridePairs(history) && IsTurn(p)
    decreases |history|
  {
    if |history| < 2 then []
    else
      var head := (history[0], history[1]);
      var rest := SyncPairs(history[2..]);
      StridePairsCons(history);
      if IsTurn(head) then
        SubsequenceCons(head, rest, StridePairs(history[2..]));
        [head] + rest
      else
        PrependToSuper(head, rest, StridePairs(history[2..]));
        rest
  }

  /** A turn is replayed as many times as it occurs among the stride pairs; any other pair never. */
  lemma {:induction false} SyncPairsCounts(history: seq<Message>, p: (Message, Message))
    ensures multiset(SyncPairs(history))[p] == if IsTurn(p) then multiset(StridePairs(history))[p] else 0
    decreases |history|
  {
    if |history| >= 2 {
      StridePairsCons(history);
      SyncPairsCounts(history[2..], p);
    }
  }

  /** On a transcript that alternates user and assistant, every stride pair is kept. */
  lemma {:induction false} SyncPairsOfAlternating(history: seq<Message>)
    requires forall k | 0 <= k < |history| / 2 :: IsTurn((history[2 * k], history[2 * k + 1]))
    ensures SyncPairs(history) == StridePairs(history)
    decreases |history|
  {
    if |history| >= 2 {
      assert IsTurn((history[2 * 0], history[2 * 0 + 1]));
      StridePairsCons(history);
      assert forall k | 0 <= k < |history[2..]| / 2 ::
               (history[2..][2 * k], history[2..][2 * k + 1]) == (history[2 * (k + 1)], history[2 * (k + 1) + 1]);
      SyncPairsOfAlternating(history[2..]);
    }
  }

  /** The metadata a replayed turn carries: the user message's timestamp. */
  function PairMetadata(p: (Message, Message)): Metadata {
    map["timestamp" := MText(p.0.timestamp)]
  }

  /** The interaction a replayed pair becomes when added at `now`. */
  function PairInteraction(p: (Message, Message), now: int): Interaction {
    Interaction(now, p.0.content, p.1.content, PairMetadata(p))
  }

  /** The interactions the pairs become, in order. */
  function PairInteractions(pairs: seq<(Message, Message)>, now: int): (r: seq<Interaction>)
    ensures |r| == |pairs|
    decreases |pairs|
  {
    if pairs == [] then [] else [PairInteraction(pairs[0], now)] + PairInteractions(pairs[1..], now)
  }

  lemma PairInteractionsCons(pairs: seq<(Message, Message)>, now: int)
    requires pairs != []
    ensures PairInteractions(pairs, now) == [PairInteraction(pairs[0], now)] + PairInteractions(pairs[1..], now)
  {
  }

  lemma {:induction false} PairInteractionAt(pairs: seq<(Message, Message)>, now: int, k: nat)
    requires k < |pairs|
    ensures PairInteractions(pairs, now)[k] == PairInteraction(pairs[k], now)
    decreases k
  {
    if k > 0 {
      PairInteractionAt(pairs[1..], now, k - 1);
    }
  }

  /** Adds the pairs in order, all at `now`. */
  function ReplayPairs(m: Memory, pairs: seq<(Message, Message)>, now: int): (m': Memory)
    ensures m'.maxHistory == m.maxHistory && m'.maxAgeHours == m.maxAgeHours
    ensures m'.userContext == m.userContext
    decreases |pairs|
  {
    if pairs == [] then m
    else ReplayPairs(AddInteraction(m, pairs[0].0.content, pairs[0].1.content, Some(PairMetadata(pairs[0])), now), pairs[1..], now)
  }

  /** Every stored turn is younger than the age limit and the count limit holds. */
  predicate FreshWithin(m: Memory, now: int) {
    && m.maxAgeHours > 0 && m.maxHistory >= 1 && |m.conversations| <= m.maxHistory
    && forall k | 0 <= k < |m.conversations| :: m.conversations[k].timestamp > AgeCutoff(now, m.maxAgeHours)
  }

  /** One replayed add on a fresh memory within its count limit: the new turn is appended, the
      result is truncated, and the memory stays fresh and within its limit. */
  lemma {:induction false} ReplayStep(m: Memory, p: (Message, Message), now: int)
    requires FreshWithin(m, now)
    ensures var m1 := AddInteraction(m, p.0.content, p.1.content, Some(PairMetadata(p)), now);
            && m1.conversations == TruncateHistory(m.conversations + [PairInteraction(p, now)], m.maxHistory)
            && m1.maxHistory == m.maxHistory
            && FreshWithin(m1, now)
  {
    var m1 := AddInteraction(m, p.0.content, p.1.content, Some(PairMetadata(p)), now);
    AddToFreshMemory(m, p.0.content, p.1.content, Some(PairMetadata(p)), now);
    assert |m1.conversations| <= m1.maxHistory;
  }

  /** Truncating after each appended turn and once at the end agree. */
  lemma {:induction false} TruncateThenAppend(c: seq<Interaction>, x: Interaction, rest: seq<Interaction>, maxHistory: int)
    requires maxHistory >= 1
    ensures TruncateHistory(TruncateHistory(c + [x], maxHistory) + rest, maxHistory)
            == TruncateHistory(c + ([x] + rest), maxHistory)
  {
    TruncateBeforeAppend(c + [x], rest, maxHistory);
    AppendAssoc(c, [x], rest);
  }

  /** Replaying onto a memory whose turns are all fresh and within the count limit leaves the most
      recent `max_history` of the old turns followed by the replayed ones. */
  lemma {:induction false} ReplayOntoFresh(m: Memory, pairs: seq<(Message, Message)>, now: int)
    requires FreshWithin(m, now)
    ensures ReplayPairs(m, pairs, now).conversations
            == TruncateHistory(m.conversations + PairInteractions(pairs, now), m.maxHistory)
    decreases |pairs|
  {
    if pairs == [] {
      assert m.conversations + PairInteractions(pairs, now) == m.conversations;
    } else {
      var m1 := AddInteraction(m, pairs[0].0.content, pairs[0].1.content, Some(PairMetadata(pairs[0])), now);
      ReplayStep(m, pairs[0], now);
      ReplayOntoFresh(m1, pairs[1..], now);
      PairInteractionsCons(pairs, now);
      TruncateThenAppend(m.conversations, PairInteraction(pairs[0], now), PairInteractions(pairs[1..], now), m.maxHistory);
    }
  }

  /** The reference for a sync into a memory keeping `maxHistory` turns: every user/assistant pair
      replayed at `now`, cut to the most recent `maxHistory`. */
  function SyncedTurns(history: seq<Message>, maxHistory: int, now: int): seq<Interaction> {
    TruncateHistory(PairInteractions(SyncPairs(history), now), maxHistory)
  }

  /** `sync_conversation_history`: always reports success. An empty transcript leaves memory alone;
      otherwise memory is cleared when it holds turns, and the user/assistant pairs are replayed. */
  function SyncConversationHistory(m: Memory, history: seq<Message>, now: int): (r: (bool, Memory))
    ensures r.0
    ensures history == [] ==> r.1 == m
    ensures history != [] ==>
              && r.1.maxHistory == m.maxHistory && r.1.maxAgeHours == m.maxAgeHours
              && r.1.userContext == (if m.conversations != [] then map[] else m.userContext)
    ensures history != [] && m.maxAgeHours > 0 && m.maxHistory >= 1 ==>
              r.1.conversations == SyncedTurns(history, m.maxHistory, now)
  {
    if history == [] then (true, m)
    else
      var start := if m.conversations != [] then ClearMemory(m) else m;
      var pairs := SyncPairs(history);
      assert m.maxAgeHours > 0 && m.maxHistory >= 1 ==>
               ReplayPairs(start, pairs, now).conversations == TruncateHistory(PairInteractions(pairs, now), m.maxHistory) by {
        if m.maxAgeHours > 0 && m.maxHistory >= 1 {
          ReplayOntoFresh(start, pairs, now);
          assert start.conversations + PairInteractions(pairs, now) == PairInteractions(pairs, now);
        }
      }
      (true, ReplayPairs(start, pairs, now))
  }

  /** Turn `k` after cutting replayed pairs to `maxHistory` is the pair `k` places from the start
      of the kept ones. */
  lemma {:induction false} TruncatedTurnAt(pairs: seq<(Message, Message)>, maxHistory: int, now: int, k: nat)
    requires k < |TruncateHistory(PairInteractions(pairs, now), maxHistory)|
    ensures var c := TruncateHistory(PairInteractions(pairs, now), maxHistory);
            c[k] == PairInteraction(pairs[|pairs| - |c| + k], now)
  {
    var turns := PairInteractions(pairs, now);
    var j := |pairs| - |TruncateHistory(turns, maxHistory)| + k;
    TruncatedAt(turns, maxHistory, k, j);
    PairInteractionAt(pairs, now, j);
  }

  /** Turn `k` after a sync is the replayed pair `k` places from the start of the kept ones. */
  lemma {:induction false} SyncedTurnAt(history: seq<Message>, maxHistory: int, now: int, k: nat)
    requires k < |SyncedTurns(history, maxHistory, now)|
    ensures var pairs := SyncPairs(history);
            var c := SyncedTurns(history, maxHistory, now);
            c[k] == PairInteraction(pairs[|pairs| - |c| + k], now)
  {
    TruncatedTurnAt(SyncPairs(history), maxHistory, now, k);
  }

  /** When every stride pair is a turn, exchange `j` of the transcript, if among the kept ones,
      sits in the turn `j - (|history| / 2 - |kept|)` with its question and its answer. */
  lemma {:induction false} SyncedTurnOfStride(history: seq<Message>, maxHistory: int, now: int, j: nat)
    requires SyncPairs(history) == StridePairs(history)
    requires |history| / 2 - |SyncedTurns(history, maxHistory, now)| <= j < |history| / 2
    ensures var c := SyncedTurns(history, maxHistory, now);
            var k := j - (|history| / 2 - |c|);
            && 0 <= k < |c|
            && c[k].userQuery == history[2 * j].content && c[k].botResponse == history[2 * j + 1].content
  {
    var pairs := SyncPairs(history);
    var c := SyncedTurns(history, maxHistory, now);
    var k := j - (|pairs| - |c|);
    SyncedTurnAt(history, maxHistory, now, k);
    StrideTurnFields(c, pairs, history, now, j);
  }

  /** The kept turn holding stride pair `j` carries that pair's question and answer. */
  lemma StrideTurnFields(c: seq<Interaction>, pairs: seq<(Message, Message)>, history: seq<Message>, now: int, j: nat)
    requires pairs == StridePairs(history)
    requires |pairs| - |c| <= j < |pairs| && c[j - (|pairs| - |c|)] == PairInteraction(pairs[j], now)
    ensures var k := j - (|history| / 2 - |c|);
            && 0 <= k < |c|
            && c[k].userQuery == history[2 * j].content && c[k].botResponse == history[2 * j + 1].content
  {
  }

  /** A sync keeps the last `maxHistory` replayed pairs. */
  lemma SyncedTurnsCount(history: seq<Message>, maxHistory: int, now: int)
    requires maxHistory >= 1
    ensures |SyncedTurns(history, maxHistory, now)| == Min(maxHistory, |SyncPairs(history)|)
  {
  }
}
