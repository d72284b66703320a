/** The external collaborators the pipeline consults, reduced to their interfaces.
    The language model answers a `Prompt`; the prompt's wording is opaque, and each variant
    names the pieces the source places into it. */
module Oracles {
  import opened Wrappers
  import opened Values

  datatype Prompt =
    /** The YES/NO curriculum question about a processed query. */
    | ScopePrompt(query: string)
    /** The image description request: with the user's question when it is non-empty. */
    | ImagePrompt(hint: Option<string>, imageData: string)
    /** The answer request: retrieved passages, recent and related conversation, the question,
        and for image queries the image-augmented query as well. */
    | AnswerPrompt(context: string, conversation: string, related: string, question: string, imageAnalysis: Option<string>)
    /** The follow-up request: conversation only, no retrieved passages. */
    | FollowUpPrompt(conversation: string, related: string, question: string)

  /** One passage returned by nearest-neighbour search, with its distance score. */
  datatype ScoredDoc = ScoredDoc(content: string, metadata: Metadata, score: real)

  /** A call the pipeline made to a collaborator, in the order made. */
  datatype Call = LlmCall(prompt: Prompt) | SearchCall(query: string, k: int)

  /** The collaborators of one request. A `Failure` is the exception the call raised.
      `storeReady` is false when the vector store was never initialised; `isBase64` stands for
      the `base64.b64decode` probe succeeding on its argument. */
  datatype Services = Services(
    llm: Prompt -> Result<string, string>,
    search: (string, int) -> Result<seq<ScoredDoc>, string>,
    storeReady: bool,
    isBase64: string -> bool)
}
