/** Application settings: the curriculum keyword table and the API-key check. */
module Config {
  import opened Wrappers
  import PyText

  /** Terms whose presence puts a query in scope without asking the language model. */
  const ScopeKeywords: seq<string> :=
    ["science", "physics", "chemistry", "biology", "ncert", "class 8"] +
    ["experiment", "theory", "concept", "lesson", "chapter", "textbook"] +
    ["force", "pressure", "friction", "sound", "light", "electricity"] +
    ["magnet", "cell", "reproduction", "adolescence", "crop", "microorganism"] +
    ["fiber", "plastic", "metal", "coal", "petroleum", "combustion"] +
    ["conservation", "pollution", "solar system", "star", "natural phenomenon"] +
    ["kharif", "rabi", "agriculture", "farming", "plant", "seed", "soil"] +
    ["fertilizer", "pesticide", "irrigation", "harvest", "grain", "wheat"] +
    ["rice", "maize", "pulse", "vegetable", "fruit", "flower"]

  const MissingKeyMessage := "Missing required environment variable: GOOGLE_API_KEY"

  /** Python truthiness of an optional environment variable. */
  predicate IsSet(v: Option<string>) {
    v.Some? && v.value != ""
  }

  /** The configuration check: an exception when the Google key is absent or empty, else `True`.
      The LangSmith key is optional and never inspected. */
  function ValidateConfig(googleApiKey: Option<string>, langchainApiKey: Option<string>): (r: Result<bool, string>)
    ensures r.Failure? <==> !IsSet(googleApiKey)
    ensures r.Failure? ==> r.error == MissingKeyMessage
    ensures r.Success? ==> r.value
  {
    if !IsSet(googleApiKey) then Failure(MissingKeyMessage) else Success(true)
  }

  /** The outcome depends on the Google key alone. */
  lemma ValidateConfigIgnoresLangchainKey(g: Option<string>, l1: Option<string>, l2: Option<string>)
    ensures ValidateConfig(g, l1) == ValidateConfig(g, l2)
  {
  }

  lemma KeywordsNoUpperFrom0()
    ensures forall i | 0 <= i < 9 :: PyText.NoUpper(ScopeKeywords[i])
  {
  }

  lemma KeywordsNoUpperFrom9()
    ensures forall i | 9 <= i < 18 :: PyText.NoUpper(ScopeKeywords[i])
  {
  }

  lemma KeywordsNoUpperFrom18()
    ensures forall i | 18 <= i < 27 :: PyText.NoUpper(ScopeKeywords[i])
  {
  }

  lemma KeywordsNoUpperFrom27()
    ensures forall i | 27 <= i < 36 :: PyText.NoUpper(ScopeKeywords[i])
  {
  }

  lemma KeywordsNoUpperFrom36()
    ensures forall i | 36 <= i < 45 :: PyText.NoUpper(ScopeKeywords[i])
  {
  }

  lemma KeywordsNoUpperFrom45()
    ensures forall i | 45 <= i < 54 :: PyText.NoUpper(ScopeKeywords[i])
  {
  }

  /** Every keyword is already lower case, so `keyword.lower()` is the keyword itself. */
  lemma ScopeKeywordsLowercase()
    ensures |ScopeKeywords| == 54
    ensures forall i | 0 <= i < |ScopeKeywords| :: PyText.Lower(ScopeKeywords[i]) == ScopeKeywords[i]
  {
    KeywordsNoUpperFrom0();
    KeywordsNoUpperFrom9();
    KeywordsNoUpperFrom18();
    KeywordsNoUpperFrom27();
    KeywordsNoUpperFrom36();
    KeywordsNoUpperFrom45();
    forall i | 0 <= i < |ScopeKeywords|
      ensures PyText.Lower(ScopeKeywords[i]) == ScopeKeywords[i]
    {
      PyText.LowerOfNoUpper(ScopeKeywords[i]);
    }
  }

  /** The table holds multi-word entries, matched as whole substrings. */
  lemma ScopeKeywordsHaveMultiWordEntries()
    ensures ScopeKeywords[5] == "class 8"
    ensures ScopeKeywords[32] == "solar system"
    ensures ScopeKeywords[34] == "natural phenomenon"
    ensures ScopeKeywords[14] == "friction"
    ensures ScopeKeywords[19] == "cell"
    ensures ScopeKeywords[33] == "star"
  {
  }
}
