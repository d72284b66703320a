/** Bounded conversation memory: the interaction list with its age and count eviction,
    and the per-user key/value context. Time is an explicit `now`, in microseconds. */
module MemoryManager {
  import opened Wrappers
  import opened Values
  import opened Seqs

  const MicrosPerHour: int := 3_600_000_000

  /** One stored turn. */
  datatype Interaction = Interaction(timestamp: int, userQuery: string, botResponse: string, metadata: Metadata)

  /** A user-context value with the time it was stored. */
  datatype ContextEntry = ContextEntry(value: MetaValue, timestamp: int)

  /** The memory of one session; `conversations` is in insertion (chronological) order. */
  datatype Memory = Memory(
    maxHistory: int,
    maxAgeHours: int,
    conversations: seq<Interaction>,
    userContext: map<string, ContextEntry>)

  function NewMemory(maxHistory: int, maxAgeHours: int): Memory {
    Memory(maxHistory, maxAgeHours, [], map[])
  }

  /** Interactions stamped at or before this instant are too old to keep. */
  function AgeCutoff(now: int, maxAgeHours: int): int {
    now - maxAgeHours * MicrosPerHour
  }

  /** The age filter: keeps the interactions strictly newer than `cutoff`, in their order. */
  function EvictOld(convs: seq<Interaction>, cutoff: int): (kept: seq<Interaction>)
    ensures forall k | 0 <= k < |kept| :: kept[k].timestamp > cutoff
    ensures forall k | 0 <= k < |convs| && convs[k].timestamp > cutoff :: convs[k] in kept
    ensures IsSubsequence(kept, convs)
    decreases |convs|
  {
    if convs == [] then []
    else
      var rest := EvictOld(convs[1..], cutoff);
      assert forall k | 1 <= k < |convs| :: convs[k] == convs[1..][k - 1];
      assert [convs[0]] + convs[1..] == convs;
      PrependToSuper(convs[0], rest, convs[1..]);
      if convs[0].timestamp > cutoff then
        SubsequenceCons(convs[0], rest, convs[1..]);
        [convs[0]] + rest
      else
        rest
  }

  /** The age filter leaves a list of fresh interactions untouched. */
  lemma {:induction false} EvictOldKeepsFresh(convs: seq<Interaction>, cutoff: int)
    requires forall k | 0 <= k < |convs| :: convs[k].timestamp > cutoff
    ensures EvictOld(convs, cutoff) == convs
    decreases |convs|
  {
    if convs != [] {
      EvictOldKeepsFresh(convs[1..], cutoff);
      assert [convs[0]] + convs[1..] == convs;
    }
  }

  /** Re-running the age filter with the same cutoff removes nothing more. */
  lemma {:induction false} EvictOldIdempotent(convs: seq<Interaction>, cutoff: int)
    ensures EvictOld(EvictOld(convs, cutoff), cutoff) == EvictOld(convs, cutoff)
  {
    EvictOldKeepsFresh(EvictOld(convs, cutoff), cutoff);
  }

  /** The age filter works element by element, so it distributes over concatenation. */
  lemma {:induction false} EvictOldAppend(a: seq<Interaction>, b: seq<Interaction>, cutoff: int)
    ensures EvictOld(a + b, cutoff) == EvictOld(a, cutoff) + EvictOld(b, cutoff)
    decreases |a|
  {
    if a == [] {
      assert a + b == b;
    } else {
      assert (a + b)[1..] == a[1..] + b;
      EvictOldAppend(a[1..], b, cutoff);
    }
  }

  /** The count limit: `conversations[-max_history:]` when the list is longer than `max_history`.
      A limit of 0 keeps everything, because `[-0:]` is the whole list. */
  function TruncateHistory(convs: seq<Interaction>, maxHistory: int): (r: seq<Interaction>)
    ensures |r| <= |convs|
    ensures r == convs[|convs| - |r|..]
    ensures maxHistory >= 1 ==> |r| == Min(maxHistory, |convs|)
    ensures maxHistory == 0 ==> r == convs
    ensures |convs| <= maxHistory ==> r == convs
  {
    if |convs| > maxHistory then LastN(convs, maxHistory) else convs
  }

  /** Python's `metadata or {}`. */
  function StoredMetadata(metadata: Option<Metadata>): Metadata {
    metadata.GetOr(map[])
  }

  /** The interactions of `m` that survive the age filter at time `now`. */
  function Survivors(m: Memory, now: int): seq<Interaction> {
    EvictOld(m.conversations, AgeCutoff(now, m.maxAgeHours))
  }

  /** The turns the count limit chooses from after adding `added` at `now`: the survivors of the
      age filter, then the new turn when the age limit is positive. */
  function Candidates(m: Memory, added: Interaction, now: int): seq<Interaction> {
    Survivors(m, now) + (if m.maxAgeHours > 0 then [added] else [])
  }

  /** `add_interaction`: append the new turn stamped `now`, drop what is too old, then keep the
      most recent `max_history`. */
  function AddInteraction(m: Memory, userQuery: string, botResponse: string, metadata: Option<Metadata>, now: int): (m': Memory)
    ensures m'.maxHistory == m.maxHistory && m'.maxAgeHours == m.maxAgeHours
    ensures m'.userContext == m.userContext
    ensures m.maxHistory >= 1 ==> |m'.conversations| <= m.maxHistory
    ensures forall k | 0 <= k < |m'.conversations| ::
              m'.conversations[k].timestamp > AgeCutoff(now, m.maxAgeHours)
    ensures IsSubsequence(m'.conversations,
              m.conversations + [Interaction(now, userQuery, botResponse, StoredMetadata(metadata))])
    ensures var cands := Candidates(m, Interaction(now, userQuery, botResponse, StoredMetadata(metadata)), now);
            && (m.maxHistory >= 1 ==> |m'.conversations| == Min(m.maxHistory, |cands|) && IsSuffix(m'.conversations, cands))
            && (m.maxHistory == 0 ==> m'.conversations == cands)
    ensures m.maxAgeHours > 0 && m.maxHistory >= 0 ==>
              |m'.conversations| > 0
              && m'.conversations[|m'.conversations| - 1] == Interaction(now, userQuery, botResponse, StoredMetadata(metadata))
  {
    var added := Interaction(now, userQuery, botResponse, StoredMetadata(metadata));
    var kept := EvictOld(m.conversations + [added], AgeCutoff(now, m.maxAgeHours));
    AppendThenEvict(m, added, now);
    TruncatedIsSubsequence(kept, m.conversations + [added], m.maxHistory);
    TruncatedIsSuffix(kept, m.maxHistory);
    m.(conversations := TruncateHistory(kept, m.maxHistory))
  }

  /** Turn `k` after the count limit is the turn `k` places from the start of the kept ones. */
  lemma TruncatedAt(convs: seq<Interaction>, maxHistory: int, k: nat, j: int)
    requires k < |TruncateHistory(convs, maxHistory)|
    requires j == |convs| - |TruncateHistory(convs, maxHistory)| + k
    ensures 0 <= j < |convs| && TruncateHistory(convs, maxHistory)[k] == convs[j]
  {
  }

  /** The count limit keeps the most recent turns, stated with `IsSuffix`. */
  lemma TruncatedIsSuffix(convs: seq<Interaction>, maxHistory: int)
    ensures IsSuffix(TruncateHistory(convs, maxHistory), convs)
  {
  }

  /** Filtering the appended list is filtering the old list, plus the new turn when it is fresh. */
  lemma {:induction false} AppendThenEvict(m: Memory, added: Interaction, now: int)
    requires added.timestamp == now
    ensures EvictOld(m.conversations + [added], AgeCutoff(now, m.maxAgeHours))
            == Candidates(m, added, now)
  {
    var cutoff := AgeCutoff(now, m.maxAgeHours);
    EvictOldAppend(m.conversations, [added], cutoff);
    assert m.maxAgeHours > 0 <==> added.timestamp > cutoff;
    assert EvictOld([added], cutoff) == (if added.timestamp > cutoff then [added] else []);
  }

  lemma {:induction false} TruncatedIsSubsequence(kept: seq<Interaction>, all: seq<Interaction>, maxHistory: int)
    requires IsSubsequence(kept, all)
    ensures IsSubsequence(TruncateHistory(kept, maxHistory), all)
  {
    var truncated := TruncateHistory(kept, maxHistory);
    SuffixIsSubsequence(kept, |kept| - |truncated|);
    SubsequenceTransitive(truncated, kept, all);
  }

  /** After an add, the age filter at the same instant has nothing left to remove. */
  lemma {:induction false} CleanupIdempotentAfterAdd(m: Memory, userQuery: string, botResponse: string, metadata: Option<Metadata>, now: int)
    ensures var m' := AddInteraction(m, userQuery, botResponse, metadata, now);
            EvictOld(m'.conversations, AgeCutoff(now, m.maxAgeHours)) == m'.conversations
  {
    var m' := AddInteraction(m, userQuery, botResponse, metadata, now);
    EvictOldKeepsFresh(m'.conversations, AgeCutoff(now, m.maxAgeHours));
  }

  /** When every stored turn is still fresh, an add with a positive age limit appends the new turn
      and keeps the most recent `max_history`. */
  lemma {:induction false} AddToFreshMemory(m: Memory, userQuery: string, botResponse: string, metadata: Option<Metadata>, now: int)
    requires m.maxAgeHours > 0
    requires forall k | 0 <= k < |m.conversations| :: m.conversations[k].timestamp > AgeCutoff(now, m.maxAgeHours)
    ensures AddInteraction(m, userQuery, botResponse, metadata, now).conversations
            == TruncateHistory(m.conversations + [Interaction(now, userQuery, botResponse, StoredMetadata(metadata))], m.maxHistory)
  {
    var added := Interaction(now, userQuery, botResponse, StoredMetadata(metadata));
    AppendThenEvict(m, added, now);
    EvictOldKeepsFresh(m.conversations, AgeCutoff(now, m.maxAgeHours));
  }

  /** Truncating before appending changes nothing once the result is truncated again. */
  lemma {:induction false} TruncateBeforeAppend(a: seq<Interaction>, b: seq<Interaction>, maxHistory: int)
    requires maxHistory >= 1
    ensures TruncateHistory(TruncateHistory(a, maxHistory) + b, maxHistory) == TruncateHistory(a + b, maxHistory)
  {
    var t := TruncateHistory(a, maxHistory);
    var lhs := TruncateHistory(t + b, maxHistory);
    var rhs := TruncateHistory(a + b, maxHistory);
    assert IsSuffix(t, a);
    SuffixAppend(t, a, b);
    assert IsSuffix(lhs, t + b);
    SuffixTransitive(lhs, t + b, a + b);
    assert IsSuffix(rhs, a + b);
    SuffixUnique(lhs, rhs, a + b);
  }

  /** `clear_memory`: no interactions and no user context remain. */
  function ClearMemory(m: Memory): (m': Memory)
    ensures m'.conversations == [] && m'.userContext == map[]
    ensures m'.maxHistory == m.maxHistory && m'.maxAgeHours == m.maxAgeHours
  {
    m.(conversations := [], userContext := map[])
  }

  /** `update_user_context`: stores `value` under `key`, stamped `now`. */
  function UpdateUserContext(m: Memory, key: string, value: MetaValue, now: int): (m': Memory)
    ensures m'.conversations == m.conversations
    ensures m'.userContext.Keys == m.userContext.Keys + {key}
  {
    m.(userContext := m.userContext[key := ContextEntry(value, now)])
  }

  /** `get_user_context`: the stored value, or nothing when the key was never stored. */
  function GetUserContext(m: Memory, key: string): (r: Option<MetaValue>)
    ensures r.Some? <==> key in m.userContext
    ensures r.Some? ==> r.value == m.userContext[key].value
  {
    if key in m.userContext then Some(m.userContext[key].value) else None
  }

  /** Reading a key returns the last value stored under it, and storing leaves other keys alone. */
  lemma UserContextLastWriteWins(m: Memory, key: string, other: string, value: MetaValue, now: int)
    requires other != key
    ensures GetUserContext(UpdateUserContext(m, key, value, now), key) == Some(value)
    ensures GetUserContext(UpdateUserContext(m, key, value, now), other) == GetUserContext(m, other)
    ensures GetUserContext(ClearMemory(m), key) == None
  {
  }

  /** One exported turn; the timestamp stays an instant rather than its ISO text. */
  datatype ExportedInteraction = ExportedInteraction(timestamp: int, userQuery: string, botResponse: string, metadata: Metadata)

  /** `export_conversation`: every stored turn, in order, with all four fields. */
  function ExportConversation(m: Memory): (r: seq<ExportedInteraction>)
    ensures |r| == |m.conversations|
    ensures forall k | 0 <= k < |r| ::
              var c := m.conversations[k];
              r[k] == ExportedInteraction(c.timestamp, c.userQuery, c.botResponse, c.metadata)
  {
    seq(|m.conversations|, k requires 0 <= k < |m.conversations| =>
      var c := m.conversations[k];
      ExportedInteraction(c.timestamp, c.userQuery, c.botResponse, c.metadata))
  }
}
