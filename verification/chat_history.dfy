/** The user interface's transcript bookkeeping: choosing which input to answer, the dedupe-and-append
    step after a query is answered, and the grouping of the transcript into user/assistant pairs
    for display. The agent itself is an oracle here: `process` stands for `process_query`, and a
    `Failure` for an exception it raised. */
module ChatHistory {
  import opened Wrappers
  import opened Seqs
  import opened MemoryManager
  import opened AgentSync

  /** The transcript and the last query that was answered. */
  datatype Session = Session(history: seq<Message>, lastProcessedQuery: string)

  function NewSession(): Session {
    Session([], "")
  }

  /** The arguments of one `process_query` request. */
  datatype ProcessCall = ProcessCall(query: string, hasImage: bool, imageData: Option<string>)

  /** The widgets read on one run: the text box and its button, the upload (already in its base64
      text form) and the image question with its button. */
  datatype Inputs = Inputs(textInput: string, textSubmit: bool, upload: Option<string>,
                           imageQuestion: string, imageSubmit: bool)

  predicate TextChosen(inp: Inputs) {
    inp.textInput != "" && inp.textSubmit
  }

  predicate ImageChosen(inp: Inputs) {
    inp.upload.Some? && inp.imageQuestion != "" && inp.imageSubmit
  }

  /** The query to answer on this run, with its image data: text first, then an image question. */
  function SelectInput(inp: Inputs): (r: Option<ProcessCall>)
    ensures r.None? <==> !TextChosen(inp) && !ImageChosen(inp)
    ensures TextChosen(inp) ==> r == Some(ProcessCall(inp.textInput, false, None))
    ensures !TextChosen(inp) && ImageChosen(inp) ==> r == Some(ProcessCall(inp.imageQuestion, true, inp.upload))
  {
    if TextChosen(inp) then Some(ProcessCall(inp.textInput, false, None))
    else if ImageChosen(inp) then Some(ProcessCall(inp.imageQuestion, true, inp.upload))
    else None
  }

  /** The user turn and the assistant turn one answered query adds, both stamped `time`. */
  function Exchange(query: string, response: string, time: string): seq<Message> {
    [Message("user", query, time), Message("assistant", response, time)]
  }

  /** Answering a query: only a non-empty query other than the last one answered is sent; when the
      request succeeds the exchange is appended and the query remembered, when it raises nothing
      changes. The second component lists the requests made. */
  function Submit(sess: Session, call: ProcessCall, process: ProcessCall -> Result<string, string>, time: string)
    : (r: (Session, seq<ProcessCall>))
    ensures r.1 == (if call.query != "" && call.query != sess.lastProcessedQuery then [call] else [])
    ensures r.0 != sess <==> r.1 != [] && process(call).Success?
    ensures r.0 != sess ==>
              r.0 == Session(sess.history + Exchange(call.query, process(call).value, time), call.query)
  {
    if call.query != "" && call.query != sess.lastProcessedQuery then
      match process(call)
      case Success(response) =>
        var next := Session(sess.history + Exchange(call.query, response, time), call.query);
        assert |next.history| > |sess.history|;
        (next, [call])
      case Failure(_) => (sess, [call])
    else (sess, [])
  }

  /** One run of the text and image path: the selected input, if any, is submitted. */
  function HandleInputs(sess: Session, inp: Inputs, process: ProcessCall -> Result<string, string>, time: string)
    : (r: (Session, seq<ProcessCall>))
    ensures SelectInput(inp).None? ==> r == (sess, [])
    ensures SelectInput(inp).Some? ==> r == Submit(sess, SelectInput(inp).value, process, time)
  {
    match SelectInput(inp)
    case None => (sess, [])
    case Some(call) => Submit(sess, call, process, time)
  }

  /** The voice path: a transcription is submitted, without an image, once the store is ready. */
  function HandleAudio(sess: Session, audioText: string, storeReady: bool,
                       process: ProcessCall -> Result<string, string>, time: string)
    : (r: (Session, seq<ProcessCall>))
    ensures audioText == "" || !storeReady ==> r == (sess, [])
    ensures audioText != "" && storeReady ==> r == Submit(sess, ProcessCall(audioText, false, None), process, time)
  {
    if audioText != "" && storeReady then Submit(sess, ProcessCall(audioText, false, None), process, time)
    else (sess, [])
  }

  /** The query answered on one run never comes from the image path while the text path is chosen. */
  lemma TextBeforeImage(sess: Session, inp: Inputs, process: ProcessCall -> Result<string, string>, time: string)
    requires TextChosen(inp)
    ensures forall c | c in HandleInputs(sess, inp, process, time).1 :: c == ProcessCall(inp.textInput, false, None)
  {
  }

  /** A rerun with the query just answered sends nothing and changes nothing. */
  lemma ResubmitIsIgnored(sess: Session, call: ProcessCall, process: ProcessCall -> Result<string, string>,
                          time: string, call2: ProcessCall, time2: string)
    requires Submit(sess, call, process, time).0 != sess
    requires call2.query == call.query
    ensures var after := Submit(sess, call, process, time).0;
            Submit(after, call2, process, time2) == (after, [])
  {
  }

  /** The transcript alternates: user then assistant, pair after pair. */
  predicate Alternating(h: seq<Message>) {
    |h| % 2 == 0 && forall k | 0 <= k < |h| / 2 :: IsTurn((h[2 * k], h[2 * k + 1]))
  }

  /** Appending an exchange keeps a transcript alternating. */
  lemma {:induction false} ExchangeKeepsAlternating(h: seq<Message>, query: string, response: string, time: string)
    requires Alternating(h)
    ensures Alternating(h + Exchange(query, response, time))
  {
    var h' := h + Exchange(query, response, time);
    forall k | 0 <= k < |h'| / 2 ensures IsTurn((h'[2 * k], h'[2 * k + 1])) {
      if k < |h| / 2 {
        assert h'[2 * k] == h[2 * k] && h'[2 * k + 1] == h[2 * k + 1];
      } else {
        assert k == |h| / 2;
        assert h'[2 * k] == Message("user", query, time);
      }
    }
  }

  /** Submitting keeps the transcript alternating, whatever the agent does. */
  lemma {:induction false} SubmitKeepsAlternating(sess: Session, call: ProcessCall, process: ProcessCall -> Result<string, string>, time: string)
    requires Alternating(sess.history)
    ensures Alternating(Submit(sess, call, process, time).0.history)
  {
    var r := Submit(sess, call, process, time).0;
    if r != sess {
      ExchangeKeepsAlternating(sess.history, call.query, process(call).value, time);
    }
  }

  /** A displayed entry: a user/assistant pair, or a message shown on its own. */
  datatype Pair = Pair(first: Message, second: Option<Message>)

  /** The grouping the display loop computes: a user entry followed by an assistant entry makes one
      pair; any other entry, including a trailing one, stands alone. */
  function Pairs(h: seq<Message>): (ps: seq<Pair>)
    ensures |ps| <= |h|
    decreases |h|
  {
    if h == [] then []
    else if |h| >= 2 && h[0].role == "user" && h[1].role == "assistant" then [Pair(h[0], Some(h[1]))] + Pairs(h[2..])
    else [Pair(h[0], None)] + Pairs(h[1..])
  }

  /** A full pair is always a user entry followed by an assistant entry. */
  lemma {:induction false} PairedRoles(h: seq<Message>)
    ensures forall k | 0 <= k < |Pairs(h)| && Pairs(h)[k].second.Some? ::
              Pairs(h)[k].first.role == "user" && Pairs(h)[k].second.value.role == "assistant"
    decreases |h|
  {
    if h != [] {
      var ps := Pairs(h);
      var tail := if |h| >= 2 && h[0].role == "user" && h[1].role == "assistant" then h[2..] else h[1..];
      PairedRoles(tail);
      assert ps[1..] == Pairs(tail);
      forall k | 1 <= k < |ps| ensures ps[k] == Pairs(tail)[k - 1] {
      }
    }
  }

  /** The messages of the pairs, in order. */
  function Flatten(ps: seq<Pair>): (h: seq<Message>)
    decreases |ps|
  {
    if ps == [] then []
    else [ps[0].first] + (if ps[0].second.Some? then [ps[0].second.value] else []) + Flatten(ps[1..])
  }

  /** Grouping consumes every message exactly once and in order. */
  lemma {:induction false} PairsConsumeEveryMessage(h: seq<Message>)
    ensures Flatten(Pairs(h)) == h
    decreases |h|
  {
    if h != [] {
      var ps := Pairs(h);
      if |h| >= 2 && h[0].role == "user" && h[1].role == "assistant" {
        PairsConsumeEveryMessage(h[2..]);
        assert ps[1..] == Pairs(h[2..]);
        assert h == [h[0]] + [h[1]] + h[2..];
      } else {
        PairsConsumeEveryMessage(h[1..]);
        assert ps[1..] == Pairs(h[1..]);
        assert h == [h[0]] + h[1..];
      }
    }
  }

  /** The grouping of a suffix, one step unfolded. */
  lemma {:induction false} PairsFrom(h: seq<Message>, i: nat)
    requires i < |h|
    ensures i + 1 < |h| && h[i].role == "user" && h[i + 1].role == "assistant" ==>
              Pairs(h[i..]) == [Pair(h[i], Some(h[i + 1]))] + Pairs(h[i + 2..])
    ensures !(i + 1 < |h| && h[i].role == "user" && h[i + 1].role == "assistant") ==>
              Pairs(h[i..]) == [Pair(h[i], None)] + Pairs(h[i + 1..])
  {
    assert h[i..][1..] == h[i + 1..];
    if i + 1 < |h| {
      assert h[i..][2..] == h[i + 2..];
    }
  }

  /** The display loop: walks the transcript once, pairing a user entry with the assistant entry
      right after it and otherwise showing the entry alone. */
  method PairMessages(h: seq<Message>) returns (ps: seq<Pair>)
    ensures ps == Pairs(h)
  {
    ps := [];
    var i := 0;
    while i < |h|
      invariant 0 <= i <= |h|
      invariant ps + Pairs(h[i..]) == Pairs(h)
      decreases |h| - i
    {
      PairsFrom(h, i);
      var shown: Pair;
      var step: nat;
      if i + 1 < |h| {
        var userMsg := h[i];
        var assistantMsg := h[i + 1];
        if userMsg.role == "user" && assistantMsg.role == "assistant" {
          shown, step := Pair(userMsg, Some(assistantMsg)), 2;
        } else {
          shown, step := Pair(userMsg, None), 1;
        }
      } else {
        shown, step := Pair(h[i], None), 1;
      }
      assert Pairs(h[i..]) == [shown] + Pairs(h[i + step..]);
      assert (ps + [shown]) + Pairs(h[i + step..]) == ps + ([shown] + Pairs(h[i + step..]));
      ps := ps + [shown];
      i := i + step;
    }
    assert h[i..] == [];
  }

  /** The sync's turns as display pairs. */
  function FullPairs(turns: seq<(Message, Message)>): (ps: seq<Pair>)
    ensures |ps| == |turns|
    ensures forall k | 0 <= k < |turns| :: ps[k] == Pair(turns[k].0, Some(turns[k].1))
  {
    seq(|turns|, k requires 0 <= k < |turns| => Pair(turns[k].0, Some(turns[k].1)))
  }

  lemma {:induction false} PairsOfAlternatingStride(h: seq<Message>)
    requires Alternating(h)
    ensures Pairs(h) == FullPairs(StridePairs(h))
    decreases |h|
  {
    if h != [] {
      assert IsTurn((h[2 * 0], h[2 * 0 + 1]));
      StridePairsCons(h);
      var t := h[2..];
      forall k | 0 <= k < |t| / 2 ensures IsTurn((t[2 * k], t[2 * k + 1])) {
        assert t[2 * k] == h[2 * (k + 1)] && t[2 * k + 1] == h[2 * (k + 1) + 1];
      }
      PairsOfAlternatingStride(t);
      var tail := StridePairs(t);
      assert FullPairs([(h[0], h[1])] + tail) == [Pair(h[0], Some(h[1]))] + FullPairs(tail);
    }
  }

  /** On an alternating transcript of `2n` entries the display shows `n` full pairs, and they are
      exactly the turns the memory sync replays. */
  lemma {:induction false} PairsAgreeWithSync(h: seq<Message>)
    requires Alternating(h)
    ensures |Pairs(h)| == |h| / 2
    ensures Pairs(h) == FullPairs(SyncPairs(h))
  {
    SyncPairsOfAlternating(h);
    PairsOfAlternatingStride(h);
  }

  /** Appending an answered exchange to an alternating transcript adds one full pair at the end. */
  lemma {:induction false} PairsAppendExchange(h: seq<Message>, query: string, response: string, time: string)
    requires Alternating(h)
    ensures Pairs(h + Exchange(query, response, time))
            == Pairs(h) + [Pair(Message("user", query, time), Some(Message("assistant", response, time)))]
    decreases |h|
  {
    var e := Exchange(query, response, time);
    if h == [] {
      assert [] + e == e;
      assert e[2..] == [];
    } else {
      assert IsTurn((h[2 * 0], h[2 * 0 + 1]));
      var t := h[2..];
      forall k | 0 <= k < |t| / 2 ensures IsTurn((t[2 * k], t[2 * k + 1])) {
        assert t[2 * k] == h[2 * (k + 1)] && t[2 * k + 1] == h[2 * (k + 1) + 1];
      }
      PairsAppendExchange(t, query, response, time);
      assert (h + e)[2..] == t + e;
    }
  }

  /** Seen through the display, an answered query adds exactly one pair: the query and its answer. */
  lemma {:induction false} SubmitAddsOnePair(sess: Session, call: ProcessCall, process: ProcessCall -> Result<string, string>, time: string)
    requires Alternating(sess.history)
    ensures var r := Submit(sess, call, process, time).0;
            r != sess ==>
              Pairs(r.history)
              == Pairs(sess.history) + [Pair(Message("user", call.query, time), Some(Message("assistant", process(call).value, time)))]
  {
    var r := Submit(sess, call, process, time).0;
    if r != sess {
      PairsAppendExchange(sess.history, call.query, process(call).value, time);
    }
  }

  /** Newest first: the pairs in reverse. */
  function DisplayOrder(ps: seq<Pair>): (r: seq<Pair>)
    ensures |r| == |ps|
    ensures forall k | 0 <= k < |ps| :: r[k] == ps[|ps| - 1 - k]
  {
    seq(|ps|, k requires 0 <= k < |ps| => ps[|ps| - 1 - k])
  }

  /** After an answered query the newest pair is shown at the top. */
  lemma {:induction false} NewestPairShownFirst(sess: Session, call: ProcessCall, process: ProcessCall -> Result<string, string>, time: string)
    requires Alternating(sess.history)
    requires Submit(sess, call, process, time).0 != sess
    ensures var shown := DisplayOrder(Pairs(Submit(sess, call, process, time).0.history));
            shown != [] && shown[0] == Pair(Message("user", call.query, time), Some(Message("assistant", process(call).value, time)))
  {
    SubmitAddsOnePair(sess, call, process, time);
  }

  /** Rebuilding memory from an alternating transcript of `n` exchanges keeps the most recent
      `max_history` of them. */
  lemma {:induction false} SyncOfAlternatingCount(h: seq<Message>, maxHistory: int, now: int)
    requires Alternating(h) && maxHistory >= 1
    ensures |SyncedTurns(h, maxHistory, now)| == Min(maxHistory, |h| / 2)
  {
    SyncPairsOfAlternating(h);
    SyncedTurnsCount(h, maxHistory, now);
  }

  /** ... oldest first: exchange `j`, when among the kept ones, sits in turn
      `j - (n - |kept|)` with its question and its answer. */
  lemma {:induction false} SyncOfAlternatingTurn(h: seq<Message>, maxHistory: int, now: int, j: nat)
    requires Alternating(h) && maxHistory >= 1
    requires |h| / 2 - |SyncedTurns(h, maxHistory, now)| <= j < |h| / 2
    ensures var c := SyncedTurns(h, maxHistory, now);
            var k := j - (|h| / 2 - |c|);
            && 0 <= k < |c|
            && c[k].userQuery == h[2 * j].content && c[k].botResponse == h[2 * j + 1].content
  {
    SyncPairsOfAlternating(h);
    SyncedTurnOfStride(h, maxHistory, now, j);
  }
}
