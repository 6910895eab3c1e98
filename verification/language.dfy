/** The language-code table and the lookup that picks the prompt's target language. */
module Language {
  import opened Wrappers

  /** The five codes the relay knows, each with the full name put into the prompt. */
  const LangMap: map<string, string> :=
    map["en" := "English", "ko" := "Korean", "ja" := "Japanese", "fr" := "French", "es" := "Spanish"]

  /** The code assumed when the request carries no `language` field. */
  const DefaultCode: string := "en"

  /** The name used for any code the table does not know. */
  const FallbackName: string := "English"

  /**
    The target language for a request's optional `language` field: an
    absent field means the default code, and an unknown code falls back
    to English rather than being rejected.
   */
  function Resolve(language: Option<string>): (name: string)
    ensures name in LangMap.Values
    ensures name == FallbackName <==> language.None? || language.value == DefaultCode || language.value !in LangMap
    ensures language.Some? && language.value in LangMap ==> name == LangMap[language.value]
  {
    var code := match language case Some(c) => c case None => DefaultCode;
    if code in LangMap then LangMap[code]
    else
      assert LangMap[DefaultCode] == FallbackName;
      FallbackName
  }

  /** Every name the lookup can produce is a single non-empty line. */
  lemma ResolvedNameIsOneLine(language: Option<string>)
    ensures Resolve(language) != []
    ensures '\n' !in Resolve(language)
  {
    var name := Resolve(language);
    assert name in {"English", "Korean", "Japanese", "French", "Spanish"};
  }

  /** The table, entry by entry, plus the two fallbacks. */
  lemma ResolveTable(other: string)
    requires other !in {"en", "ko", "ja", "fr", "es"}
    ensures Resolve(Some("en")) == "English"
    ensures Resolve(Some("ko")) == "Korean"
    ensures Resolve(Some("ja")) == "Japanese"
    ensures Resolve(Some("fr")) == "French"
    ensures Resolve(Some("es")) == "Spanish"
    ensures Resolve(None) == "English"
    ensures Resolve(Some(other)) == "English"
  {
  }

  /** Distinct known codes never share a name, so the lookup loses no information on them. */
  lemma ResolveInjectiveOnKnownCodes(a: string, b: string)
    requires a in LangMap && b in LangMap
    ensures Resolve(Some(a)) == Resolve(Some(b)) <==> a == b
  {
  }
}
