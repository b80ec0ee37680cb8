/** `resolveDeepLTargetLang` (content.js:57-80): the language code of the
    settings becomes one of DeepL's target codes; anything unknown, the
    empty code included, becomes Japanese. */
module DeepLTarget {
  import opened Strings

  /** The target codes the mapping can produce. */
  predicate IsTargetCode(code: string) {
    code in {"EN", "JA", "KO", "FR", "DE", "ES", "ZH"}
  }

  function ResolveDeepLTargetLang(lang: string): (code: string)
    ensures IsTargetCode(code)
  {
    var l := Lower(lang);
    if l == "en" || l == "en-us" || l == "en-gb" then "EN"
    else if l == "ja" then "JA"
    else if l == "ko" then "KO"
    else if l == "fr" then "FR"
    else if l == "de" then "DE"
    else if l == "es" then "ES"
    else if l == "zh" || l == "zh-cn" || l == "zh-tw" then "ZH"
    else "JA"
  }

  /** The mapping ignores the case of the code. */
  lemma ResolveIgnoresCase(lang: string)
    ensures ResolveDeepLTargetLang(Lower(lang)) == ResolveDeepLTargetLang(lang)
  {
    LowerIdempotent(lang);
  }

  /** The regional English and Chinese codes share their language's target,
      and the empty code falls back to Japanese. */
  lemma RegionalCodes()
    ensures ResolveDeepLTargetLang("en-GB") == ResolveDeepLTargetLang("en-US") == "EN"
    ensures ResolveDeepLTargetLang("zh-TW") == ResolveDeepLTargetLang("zh-CN") == "ZH"
    ensures ResolveDeepLTargetLang("") == "JA"
  {
    EnglishCodesLowered();
    ChineseCodesLowered();
  }

  /** The codes the switch names, after lower-casing. */
  predicate KnownCode(l: string) {
    l in {"en", "en-us", "en-gb", "ja", "ko", "fr", "de", "es", "zh", "zh-cn", "zh-tw"}
  }

  /** Every code the switch does not name, empty or not, falls back to
      Japanese; only the named Japanese code maps there otherwise. */
  lemma UnknownCodeIsJapanese(lang: string)
    ensures !KnownCode(Lower(lang)) ==> ResolveDeepLTargetLang(lang) == "JA"
    ensures ResolveDeepLTargetLang(lang) == "JA" <==> !KnownCode(Lower(lang)) || Lower(lang) == "ja"
  {
  }

  lemma EnglishCodesLowered()
    ensures Lower("en-GB") == "en-gb" && Lower("en-US") == "en-us"
  {
    assert Lower("en-GB") == "en-gb";
  }

  lemma ChineseCodesLowered()
    ensures Lower("zh-TW") == "zh-tw" && Lower("zh-CN") == "zh-cn"
  {
    assert Lower("zh-TW") == "zh-tw";
  }
}
