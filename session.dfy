/**
 * The part of Streamlit's per-session state that the dashboard uses: the
 * stored language and the value of the language selector (app.py, lines
 * 48-61), and `_` reading the stored language (lines 63-65).
 */
module Session {
  import opened Wrappers
  import opened StrFormat
  import opened Localization

  class SessionState {
    /** `st.session_state.language`; `None` while the session holds no such field. */
    var language: Option<string>
    /** `st.session_state.lang_select`: the current value of the language selector. */
    var langSelect: string

    /** The selector only ever holds one of its options, and a stored language is a table key. */
    ghost predicate Valid()
      reads this
    {
      && langSelect in LanguageOptions
      && (language.Some? ==> language.value in Translations)
    }

    /** A new session: nothing stored yet, the selector on its first option. */
    constructor ()
      ensures Valid()
      ensures language == None && langSelect == LanguageOptions[0]
    {
      language := None;
      langSelect := LanguageOptions[0];
    }

    /** Lines 48-49: store the default language unless a language is stored already. */
    method InitLanguage()
      requires Valid()
      modifies this
      ensures Valid()
      ensures language == (if old(language).None? then Some(DefaultLanguage) else old(language))
      ensures langSelect == old(langSelect)
    {
      if language.None? {
        language := Some(DefaultLanguage);
      }
    }

    /** Lines 56-61: the user picks one of the selector's options. */
    method Choose(option: string)
      requires Valid() && option in LanguageOptions
      modifies this
      ensures Valid()
      ensures langSelect == option && language == old(language)
    {
      langSelect := option;
    }

    /** `set_language` (lines 51-53), the selector's change callback: copy its value into `language`. */
    method SetLanguage()
      requires Valid()
      modifies this
      ensures Valid()
      ensures language == Some(old(langSelect)) && langSelect == old(langSelect)
    {
      language := Some(langSelect);
    }

    /**
     * `_(key)` in this session. The stored language is always a table key, so
     * the lookup never raises KeyError; only a missing key that holds a brace
     * makes `.format()` raise.
     */
    function Gettext(key: string): (r: Result<string, Error>)
      reads this
      requires Valid() && language.Some?
      ensures key in Translations[language.value] ==> r == Success(Translations[language.value][key])
      ensures key !in Translations[language.value] && BraceFree(key) ==> r == Success(key)
      ensures r.Failure? ==> key !in Translations[language.value] && r.error == BadTemplate(key)
    {
      if key in Translations[language.value] then
        TableLookup(language.value, key);
        Translate(Translations, language.value, key)
      else
        Translate(Translations, language.value, key)
    }
  }

  /** Switching the language changes what `_` returns for a key both tables define. */
  method LanguageSwitchScenario()
  {
    var session := new SessionState();
    session.InitLanguage();
    var before := session.Gettext("all_wards");
    assert before == Success(EnAllWards);
    session.Choose(NepaliName);
    session.SetLanguage();
    var after := session.Gettext("all_wards");
    assert after == Success(NeAllWards);
    assert before != after;
  }
}
