/**
 * `useLanguage`: the language toggle and the text lookups in the current or a
 * given language, over the store's `language` field.
 */
module UseLanguage {
  import opened Entities
  import opened KeyValueStore
  import opened Helpers
  import opened AppContext

  /** The language `toggleLanguage` switches to: English from Thai, Thai from anything else. */
  function ToggleLanguage(language: string): (r: string)
    ensures r == "en" <==> language == "th"
    ensures r == "th" <==> language != "th"
  {
    if language == "th" then "en" else "th"
  }

  /** `toggleLanguage()`: dispatches `SET_LANGUAGE` with the toggled language. */
  function ToggleAction(state: AppState): Action {
    SetLanguage(ToggleLanguage(state.language))
  }

  /**
   * `t(textObj)`: the text in the store's current language when it has one,
   * else the Thai text, else the English.
   */
  function T(state: AppState, textObj: Text): (r: string)
    ensures textObj.At(state.language) != "" ==> r == textObj.At(state.language)
    ensures textObj.At(state.language) == "" && textObj.th != "" ==> r == textObj.th
    ensures textObj.At(state.language) == "" && textObj.th == "" ==> r == textObj.en
    ensures r == GetTextInLanguage(textObj, state.language)
  {
    GetText(textObj, state.language)
  }

  /** `getTextInLanguage(textObj, language)`. */
  function GetTextInLanguage(textObj: Text, language: string): (r: string)
    ensures language != "th" && language != "en" ==> r == GetText(textObj, "th")
    ensures r == "" <==> textObj.At(language) == "" && textObj.th == "" && textObj.en == ""
  {
    GetText(textObj, language)
  }

  /** `isThaiLanguage()`: exactly when the toggle would switch to English. */
  predicate IsThaiLanguage(state: AppState): (r: bool)
    ensures r <==> ToggleLanguage(state.language) == "en"
  {
    state.language == "th"
  }

  /** `isEnglishLanguage()`: then the toggle switches to Thai. */
  predicate IsEnglishLanguage(state: AppState): (r: bool)
    ensures r ==> ToggleLanguage(state.language) == "th" && !IsThaiLanguage(state)
  {
    state.language == "en"
  }

  /**
   * Toggling twice from Thai or English gives the language back; from any
   * other language it ends on English, since the first toggle goes to Thai.
   */
  lemma ToggleTwice(language: string)
    ensures language == "th" || language == "en" ==> ToggleLanguage(ToggleLanguage(language)) == language
    ensures language != "th" && language != "en" ==> ToggleLanguage(ToggleLanguage(language)) == "en"
  {
  }

  /**
   * Dispatching the toggle flips the store between Thai and English: after it
   * exactly one of `isThaiLanguage` and `isEnglishLanguage` holds, the other
   * one than before when the store was in Thai, and `t` reads the new language.
   */
  lemma ToggleFlipsStore(state: AppState, entries: map<string, Entry<Json>>, cartItemId: string,
                         textObj: Text)
    ensures var next := Next(state, ToggleAction(state), entries, cartItemId);
      && (IsThaiLanguage(next) <==> !IsEnglishLanguage(next))
      && (IsThaiLanguage(next) <==> !IsThaiLanguage(state))
      && T(next, textObj) == GetTextInLanguage(textObj, ToggleLanguage(state.language))
      && next.cart == state.cart
  {
  }

  /** `isThaiLanguage` and `isEnglishLanguage` are never both true. */
  lemma NeverBothLanguages(state: AppState)
    ensures !(IsThaiLanguage(state) && IsEnglishLanguage(state))
  {
  }

  /**
   * `t` follows the current language with the fallback of `getText`: the text
   * of that language when it has one, else the Thai text, else the English.
   */
  lemma TFallsBack(state: AppState, textObj: Text)
    ensures textObj.At(state.language) != "" ==> T(state, textObj) == textObj.At(state.language)
    ensures textObj.At(state.language) == "" && textObj.th != "" ==> T(state, textObj) == textObj.th
    ensures textObj.At(state.language) == "" && textObj.th == "" ==> T(state, textObj) == textObj.en
    ensures IsEnglishLanguage(state) && textObj.en != "" ==> T(state, textObj) == textObj.en
  {
  }
}
