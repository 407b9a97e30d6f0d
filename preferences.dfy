/** The per-session preference store the tools read, and the rule all three
    city-taking tools use to resolve the city they were asked about. */
module Preferences {
  import opened Text

  /** The session state: string keys to string values. */
  type State = map<string, string>

  const CityKey := "user_preference_city"
  const UnitKey := "user_preference_temperature_unit"
  const LastCityKey := "last_city_checked"

  const DefaultCity := "Tunis"
  const DefaultUnit := "Celsius"

  /** `state.get(key, default)`. */
  function Get(state: State, key: string, default: string): string {
    if key in state then state[key] else default
  }

  function PreferredCity(state: State): string {
    Get(state, CityKey, DefaultCity)
  }

  function PreferredUnit(state: State): string {
    Get(state, UnitKey, DefaultUnit)
  }

  /** A city argument that stands for "use my preferred city": empty, or
      "default" / "preferred" once lower-cased. */
  predicate IsSentinel(city: string) {
    city == "" || Lower(city) == "default" || Lower(city) == "preferred"
  }

  /** The city a tool actually looks up: the argument itself or the stored
      preferred city; only an argument of length 0, 7 or 9 can be replaced. */
  function EffectiveCity(city: string, state: State): (r: string)
    ensures r == city || r == Get(state, "user_preference_city", "Tunis")
    ensures |city| != 0 && |city| != 7 && |city| != 9 ==> r == city
  {
    if IsSentinel(city) then PreferredCity(state) else city
  }

  /** `s` spells the lower-case `word`, each letter in either case. */
  ghost predicate SpellsIgnoringCase(s: string, word: string) {
    && |s| == |word|
    && forall i :: 0 <= i < |s| ==>
         s[i] == word[i] || (IsUpper(s[i]) && s[i] as int + 32 == word[i] as int)
  }

  /** Comparing `s.lower()` with a lower-case word is spelling it in any case. */
  lemma LowerEqualsSpelling(s: string, word: string)
    requires forall i :: 0 <= i < |word| ==> !IsUpper(word[i])
    ensures Lower(s) == word <==> SpellsIgnoringCase(s, word)
  {
    if SpellsIgnoringCase(s, word) {
      assert forall i :: 0 <= i < |s| ==> Lower(s)[i] == word[i];
    }
  }

  /** The resolution rule, stated letter by letter: an empty city or any
      spelling of "default" or "preferred" becomes the stored preferred city
      (or "Tunis" when none is stored); any other city is used verbatim. */
  lemma EffectiveCityRule(city: string, state: State)
    ensures EffectiveCity(city, state) ==
      if city == "" || SpellsIgnoringCase(city, "default") || SpellsIgnoringCase(city, "preferred")
      then (if "user_preference_city" in state then state["user_preference_city"] else "Tunis")
      else city
  {
    LowerEqualsSpelling(city, "default");
    LowerEqualsSpelling(city, "preferred");
  }

  /** Resolving twice changes nothing, provided the stored preferred city is
      not itself a sentinel. */
  lemma EffectiveCityIdempotent(city: string, state: State)
    requires !IsSentinel(PreferredCity(state))
    ensures !IsSentinel(EffectiveCity(city, state))
    ensures EffectiveCity(EffectiveCity(city, state), state) == EffectiveCity(city, state)
  {
  }
}
