/**
 * The language provider: a `language` code that starts as "en", the
 * translation tables for English, Hindi and Kannada, a lookup that falls
 * back to English, and the `useLanguage` hook that fails outside a provider.
 */
module Language {
  import opened Wrappers

  /** A `Translations` value: its `sidebar` object, key to label. */
  datatype Translations = Translations(sidebar: map<string, string>)

  /** The five keys the `Translations` type gives a sidebar. */
  const SidebarKeys: set<string> :=
    {"expertSystem", "visualAnalyzer", "mandiPrices", "kishanMitro", "userHistory"}

  const English := Translations(map[
    "expertSystem" := "Expert System",
    "visualAnalyzer" := "Visual Analyzer",
    "mandiPrices" := "Mandi Prices",
    "kishanMitro" := "KishanMitro",
    "userHistory" := "User History"])

  const Hindi := Translations(map[
    "expertSystem" := "विशेषज्ञ प्रणाली",
    "visualAnalyzer" := "दृश्य विश्लेषक",
    "mandiPrices" := "मंडी कीमतें",
    "kishanMitro" := "किसान मित्र",
    "userHistory" := "उपयोगकर्ता इतिहास"])

  const Kannada := Translations(map[
    "expertSystem" := "ತಜ್ಞ ವ್ಯವಸ್ಥೆ",
    "visualAnalyzer" := "ದೃಶ್ಯ ವಿಶ್ಲೇಷಕ",
    "mandiPrices" := "ಮಂಡಿ ಬೆಲೆಗಳು",
    "kishanMitro" := "ಕಿಸಾನ್ ಮಿಟ್ರೋ",
    "userHistory" := "ಬಳಕೆದಾರರ ಇತಿಹಾಸ"])

  /** The own properties of the `translations` object. */
  const Table: map<string, Translations> := map["en" := English, "hi" := Hindi, "kn" := Kannada]

  /** A table labels exactly the five sidebar entries, none left blank. */
  ghost predicate DefinesSidebar(t: Translations) {
    && t.sidebar.Keys == SidebarKeys
    && forall k :: k in t.sidebar ==> t.sidebar[k] != ""
  }

  lemma EnglishDefinesSidebar()
    ensures DefinesSidebar(English)
  {
    assert English.sidebar.Keys == SidebarKeys;
  }

  lemma HindiDefinesSidebar()
    ensures DefinesSidebar(Hindi)
  {
    assert Hindi.sidebar.Keys == SidebarKeys;
  }

  lemma KannadaDefinesSidebar()
    ensures DefinesSidebar(Kannada)
  {
    assert Kannada.sidebar.Keys == SidebarKeys;
  }

  /** The table has exactly the three languages, and each labels the whole sidebar. */
  lemma EveryTableDefinesSidebar()
    ensures Table.Keys == {"en", "hi", "kn"}
    ensures forall code :: code in Table ==> DefinesSidebar(Table[code])
  {
    EnglishDefinesSidebar();
    HindiDefinesSidebar();
    KannadaDefinesSidebar();
    assert Table.Keys == {"en", "hi", "kn"};
  }

  /**
   * The translations exposed for a language code: the code's own table,
   * or English when `translations` has no table under that code.
   */
  function Lookup(code: string): (t: Translations)
    ensures code in Table ==> t == Table[code]
    ensures code !in Table ==> t == English
  {
    if code in Table then Table[code] else English
  }

  /** Whatever the code, the translations in use label the whole sidebar. */
  lemma LookupDefinesSidebar(code: string)
    ensures DefinesSidebar(Lookup(code))
  {
    EveryTableDefinesSidebar();
    if code !in Table {
      EnglishDefinesSidebar();
    }
  }

  /** The three codes the language menu offers. */
  lemma KnownCodesHaveTheirOwnTable()
    ensures Lookup("en") == English && Lookup("hi") == Hindi && Lookup("kn") == Kannada
    ensures Lookup("hi") != English && Lookup("kn") != English
  {
    assert Hindi.sidebar["expertSystem"] != English.sidebar["expertSystem"];
    assert Kannada.sidebar["expertSystem"] != English.sidebar["expertSystem"];
  }

  // ---- `translations[language] || translations.en` as written ----

  /**
   * What reading a property of a plain object literal yields: one of its own
   * tables, a member inherited from `Object.prototype` (a function, or the
   * prototype object itself for `__proto__`), or `undefined`.
   */
  datatype PropertyValue = OwnTable(table: Translations) | InheritedMember(name: string) | Undefined

  /** The property names every object literal inherits from `Object.prototype`. */
  const ObjectPrototypeMembers: set<string> := {
    "constructor", "hasOwnProperty", "isPrototypeOf", "propertyIsEnumerable",
    "toLocaleString", "toString", "valueOf", "__proto__",
    "__defineGetter__", "__defineSetter__", "__lookupGetter__", "__lookupSetter__"}

  /** `translations[code]`, which also finds inherited members. */
  function ReadProperty(code: string): (v: PropertyValue)
    ensures code in Table ==> v == OwnTable(Table[code])
    ensures code !in Table && code in ObjectPrototypeMembers ==> v == InheritedMember(code)
    ensures code !in Table && code !in ObjectPrototypeMembers ==> v == Undefined
  {
    if code in Table then OwnTable(Table[code])
    else if code in ObjectPrototypeMembers then InheritedMember(code)
    else Undefined
  }

  /** Objects and functions are truthy; `undefined` is not. */
  predicate Truthy(v: PropertyValue) {
    !v.Undefined?
  }

  /** `translations[language] || translations.en`, exactly as the provider evaluates it. */
  function LookupAsWritten(code: string): (v: PropertyValue)
    ensures Truthy(v)
  {
    var own := ReadProperty(code);
    if Truthy(own) then own else OwnTable(English)
  }

  /** For every code that is not an inherited member name, the expression does what was meant. */
  lemma AsWrittenAgreesOffPrototype(code: string)
    requires code !in ObjectPrototypeMembers
    ensures LookupAsWritten(code) == OwnTable(Lookup(code))
  {
  }

  /**
   * The code "toString" is not a language, yet the expression yields the
   * inherited function instead of falling back to English; the corrected
   * lookup gives English.
   */
  lemma AsWrittenMissesFallback()
    ensures "toString" !in Table
    ensures !LookupAsWritten("toString").OwnTable?
    ensures Lookup("toString") == English
  {
    assert "toString" in ObjectPrototypeMembers;
  }

  /** The value a `LanguageContext.Provider` publishes (its setter is the provider's method). */
  datatype LanguageContext = LanguageContext(language: string, translations: Translations)

  /** `LanguageProvider`: the `language` state and what it publishes. */
  class LanguageProvider {
    var language: string

    constructor ()
      ensures language == "en"
      ensures Context() == LanguageContext("en", English)
    {
      language := "en";
    }

    /**
     * What the provider publishes, with the corrected lookup. For every code
     * that is not an `Object.prototype` member name this is exactly what
     * `translations[language] || translations.en` gives.
     */
    function Context(): (ctx: LanguageContext)
      reads this
      ensures ctx.language == language
      ensures ctx.translations == Lookup(language)
      ensures language !in ObjectPrototypeMembers ==> LookupAsWritten(language) == OwnTable(ctx.translations)
    {
      var ctx := LanguageContext(language, Lookup(language));
      if language in ObjectPrototypeMembers then ctx else (AsWrittenAgreesOffPrototype(language); ctx)
    }

    /** `setLanguage(code)`: only the code changes; the translations follow it. */
    method SetLanguage(code: string)
      modifies this
      ensures language == code
      ensures Context() == LanguageContext(code, Lookup(code))
      ensures code !in ObjectPrototypeMembers ==> LookupAsWritten(code) == OwnTable(Context().translations)
    {
      language := code;
    }
  }

  const OutsideProviderMessage := "useLanguage must be used within a LanguageProvider"

  /**
   * `useLanguage()`: the nearest provider's context, or the error it throws
   * when no provider encloses the caller (`ctx` is None).
   */
  function UseLanguage(ctx: Option<LanguageContext>): (r: Result<LanguageContext, string>)
    ensures r.Success? <==> ctx.Some?
    ensures ctx.Some? ==> r.value == ctx.value
    ensures ctx.None? ==> r.error == OutsideProviderMessage
  {
    match ctx
    case None => Failure(OutsideProviderMessage)
    case Some(c) => Success(c)
  }
}
