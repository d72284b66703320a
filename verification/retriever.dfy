/** Passage retrieval over an abstract nearest-neighbour search, and the formatting of the passages
    into the numbered context blocks the answer prompt receives. */
module Retriever {
  import opened Wrappers
  import opened PyText
  import opened Values
  import opened Oracles

  const NoInformationText := "No information" + " found in NCERT Science Class 8."
  const DefaultMaxChunks := 5

  /** One search result as the store hands it on. */
  datatype SearchHit = SearchHit(content: string, metadata: Metadata, similarityScore: real)

  /** `similarity_search`: no results without a store or when the search raises; otherwise every
      returned passage, in the order and number returned. The search is consulted only when the
      store exists. */
  function SimilaritySearch(query: string, k: int, s: Services): (r: (seq<SearchHit>, seq<Call>))
    ensures !s.storeReady ==> r.0 == [] && r.1 == []
    ensures s.storeReady ==> r.1 == [SearchCall(query, k)]
    ensures s.storeReady && s.search(query, k).Failure? ==> r.0 == []
    ensures s.storeReady && s.search(query, k).Success? ==>
              var docs := s.search(query, k).value;
              |r.0| == |docs|
              && forall i | 0 <= i < |docs| ::
                   r.0[i] == SearchHit(docs[i].content, docs[i].metadata, docs[i].score)
  {
    if !s.storeReady then ([], [])
    else
      match s.search(query, k)
      case Failure(_) => ([], [SearchCall(query, k)])
      case Success(docs) =>
        (seq(|docs|, i requires 0 <= i < |docs| => SearchHit(docs[i].content, docs[i].metadata, docs[i].score)),
         [SearchCall(query, k)])
  }

  /** `metadata.get("page", "Unknown")` as the f-string shows it. */
  function PageLabel(metadata: Metadata): (r: string)
    ensures "page" in metadata ==> r == Render(metadata["page"])
    ensures "page" !in metadata ==> r == "Unknown"
  {
    if "page" in metadata then Render(metadata["page"]) else "Unknown"
  }

  /** The header of block `i`. */
  function BlockHeader(i: nat, hit: SearchHit): string {
    "[Context " + NatToString(i) + " - Page " + PageLabel(hit.metadata) + "]\n"
  }

  /** Block `i`: its header, then the passage with surrounding whitespace stripped. */
  function ContextBlock(i: nat, hit: SearchHit): (b: string)
    ensures StartsWith(b, "[Context ")
    ensures b == BlockHeader(i, hit) + Strip(hit.content)
  {
    var b := BlockHeader(i, hit) + Strip(hit.content);
    assert b[..9] == "[Context ";
    b
  }

  /** One block per hit, numbered from `first` in hit order. */
  function ContextBlocks(hits: seq<SearchHit>, first: nat): (blocks: seq<string>)
    ensures |blocks| == |hits|
    ensures forall i | 0 <= i < |hits| :: blocks[i] == ContextBlock(first + i, hits[i])
  {
    seq(|hits|, i requires 0 <= i < |hits| => ContextBlock(first + i, hits[i]))
  }

  /** `get_relevant_context`: the no-information literal exactly when the search yields nothing,
      otherwise the blocks of all hits, numbered from 1 and separated by a blank line. */
  function GetRelevantContext(query: string, maxChunks: int, s: Services): (r: (string, seq<Call>))
    ensures r.1 == SimilaritySearch(query, maxChunks, s).1
    ensures r.0 == NoInformationText <==> SimilaritySearch(query, maxChunks, s).0 == []
    ensures SimilaritySearch(query, maxChunks, s).0 != [] ==>
              r.0 == Join("\n\n", ContextBlocks(SimilaritySearch(query, maxChunks, s).0, 1))
  {
    var (hits, calls) := SimilaritySearch(query, maxChunks, s);
    if hits == [] then (NoInformationText, calls)
    else
      var blocks := ContextBlocks(hits, 1);
      JoinStartsWithFirst("\n\n", blocks);
      var text := Join("\n\n", blocks);
      assert text[0] == '[' && NoInformationText[0] == 'N';
      (text, calls)
  }

  /** The header of a block reads back its 1-based position. */
  lemma {:induction false} BlockNumberReadsBack(i: nat, hit: SearchHit)
    ensures exists digits ::
              StartsWith(ContextBlock(i, hit), "[Context " + digits + " - Page ")
              && DecimalValue(digits) == i
  {
    DecimalRoundTrip(i);
    var digits := NatToString(i);
    var b := ContextBlock(i, hit);
    assert b == ("[Context " + digits + " - Page ") + (PageLabel(hit.metadata) + "]\n" + Strip(hit.content));
  }

  /** Retrieval with a store whose search succeeds yields as many blocks as passages, in order. */
  lemma RetrievalKeepsEveryPassage(query: string, maxChunks: int, s: Services)
    requires s.storeReady && s.search(query, maxChunks).Success?
    ensures var docs := s.search(query, maxChunks).value;
            var hits := SimilaritySearch(query, maxChunks, s).0;
            |ContextBlocks(hits, 1)| == |docs|
            && forall i | 0 <= i < |docs| ::
                 ContextBlocks(hits, 1)[i] == BlockHeader(i + 1, hits[i]) + Strip(docs[i].content)
  {
  }
}
