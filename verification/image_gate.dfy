/** The image description step: validation gates on the uploaded data, then one request to the
    vision model whose reply is stripped. */
module ImageGate {
  import opened Wrappers
  import opened PyText
  import opened Oracles

  const MinImageLength := 100
  const Base64Padding := "=="

  /** The checks the data must pass before the model is asked: present and non-empty, at least
      100 characters, and its first 100 characters plus "==" decode as base64. */
  predicate PassesGates(imageData: Option<string>, isBase64: string -> bool) {
    && imageData.Some?
    && imageData.value != ""
    && |imageData.value| >= MinImageLength
    && isBase64(imageData.value[..MinImageLength] + Base64Padding)
  }

  /** The question goes into the request only when it is non-empty. */
  function ImageHint(userQuery: string): (h: Option<string>)
    ensures h.Some? <==> userQuery != ""
    ensures h.Some? ==> h.value == userQuery
  {
    if userQuery != "" then Some(userQuery) else None
  }

  /** `describe_image`: no description and no model call when a gate fails; otherwise one call,
      no description when it raises, and the stripped reply (possibly empty) when it answers. */
  function DescribeImage(imageData: Option<string>, userQuery: string, s: Services): (r: (Option<string>, seq<Call>))
    ensures !PassesGates(imageData, s.isBase64) ==> r.0 == None && r.1 == []
    ensures PassesGates(imageData, s.isBase64) ==>
              var prompt := ImagePrompt(ImageHint(userQuery), imageData.value);
              && r.1 == [LlmCall(prompt)]
              && (s.llm(prompt).Failure? ==> r.0 == None)
              && (s.llm(prompt).Success? ==> r.0 == Some(Strip(s.llm(prompt).value)))
  {
    if imageData.None? || imageData.value == "" then (None, [])
    else if |imageData.value| < MinImageLength then (None, [])
    else if !s.isBase64(imageData.value[..MinImageLength] + Base64Padding) then (None, [])
    else
      var prompt := ImagePrompt(ImageHint(userQuery), imageData.value);
      match s.llm(prompt)
      case Failure(_) => (None, [LlmCall(prompt)])
      case Success(content) => (Some(Strip(content)), [LlmCall(prompt)])
  }

  /** A description never has surrounding whitespace, so stripping it again changes nothing. */
  lemma {:induction false} DescriptionIsStripped(imageData: Option<string>, userQuery: string, s: Services)
    ensures var d := DescribeImage(imageData, userQuery, s).0;
            d.Some? ==> Strip(d.value) == d.value
                        && (d.value != "" ==> !IsSpace(d.value[0]) && !IsSpace(d.value[|d.value| - 1]))
  {
    var prompt := ImagePrompt(ImageHint(userQuery), if imageData.Some? then imageData.value else "");
    if PassesGates(imageData, s.isBase64) && s.llm(prompt).Success? {
      StripIdempotent(s.llm(prompt).value);
    }
  }

  /** Data shorter than 100 characters is refused before the base64 probe and the model. */
  lemma ShortDataRefused(data: string, userQuery: string, s: Services)
    requires |data| < MinImageLength
    ensures DescribeImage(Some(data), userQuery, s) == (None, [])
  {
  }
}
