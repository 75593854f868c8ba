/** The `LanguageSelector` component: which language the page shows, chosen
    on mount from the URL query or the stored preference, and changed by a
    click on one of the language buttons.

    The rules are pure functions; the component is a class over the shared
    i18next instance and `localStorage`, whose methods are the mount effect,
    the re-sync effect and the click handler, called explicitly. */
module LanguageSelector {
  import opened Optional
  import opened Host

  /** The `localStorage` key of the language preference. */
  const LanguageKey: string := "language"

  /** The language shown when i18next reports none. */
  const FallbackLanguage: string := "en"

  /** The values of `LanguageSelectorTypeEnum`, in button order. */
  const Supported: seq<string> := ["en", "es", "de"]

  predicate IsSupported(code: string): (b: bool)
    ensures b <==> code == "en" || code == "es" || code == "de"
  {
    code in Supported
  }

  /** `i18n.language || "en"`. */
  function LanguageOrFallback(language: string): (r: string)
    ensures r != ""
    ensures language != "" ==> r == language
    ensures language == "" ==> r == FallbackLanguage
  {
    if language == "" then FallbackLanguage else language
  }

  // ---------------------------------------------------------------------
  // Normalization of the query code: `split("-")[0].toLowerCase()`
  // ---------------------------------------------------------------------

  /** The text before the first `-`, or all of `s` when it has none. */
  function BeforeDash(s: string): (r: string)
    ensures |r| <= |s| && r == s[..|r|]
    ensures '-' !in r
    ensures |r| < |s| ==> s[|r|] == '-'
  {
    if s == [] || s[0] == '-' then [] else [s[0]] + BeforeDash(s[1..])
  }

  predicate IsUpper(c: char)
  {
    'A' <= c <= 'Z'
  }

  /** `toLowerCase` on one character (only A..Z change). */
  function LowerChar(c: char): (r: char)
    ensures !IsUpper(r)
    ensures IsUpper(c) ==> r as int == c as int + 32
    ensures !IsUpper(c) ==> r == c
  {
    if IsUpper(c) then (c as int + 32) as char else c
  }

  function ToLower(s: string): (r: string)
    ensures |r| == |s|
    ensures forall i :: 0 <= i < |r| ==> r[i] == LowerChar(s[i])
  {
    if s == [] then [] else [LowerChar(s[0])] + ToLower(s[1..])
  }

  /** The primary subtag of a query code, lower-cased. */
  function Normalize(query: string): (r: string)
    ensures |r| <= |query|
    ensures forall i :: 0 <= i < |r| ==> r[i] == LowerChar(query[i])
    ensures '-' !in r
    ensures |r| < |query| ==> query[|r|] == '-'
  {
    var head := BeforeDash(query);
    var r := ToLower(head);
    assert forall i :: 0 <= i < |r| ==> r[i] != '-' by {
      forall i | 0 <= i < |r| ensures r[i] != '-' {
        assert head[i] in head;
      }
    }
    r
  }

  /** Normalizing a normalized code changes nothing. */
  lemma NormalizeIdempotent(query: string)
    ensures Normalize(Normalize(query)) == Normalize(query)
  {
  }

  /** The region subtag is dropped and case is ignored. */
  lemma NormalizeExamples()
    ensures Normalize("en-US") == "en"
    ensures Normalize("DE") == "de"
    ensures Normalize("es") == "es"
  {
  }

  // ---------------------------------------------------------------------
  // Reading the URL query
  // ---------------------------------------------------------------------

  /** `URLSearchParams.get(key)` over decoded (name, value) pairs: the value
      of the first pair with that name, or null. */
  function QueryGet(params: seq<(string, string)>, key: string): (r: Option<string>)
    ensures r.None? <==> forall i :: 0 <= i < |params| ==> params[i].0 != key
    ensures r.Some? ==> exists i :: 0 <= i < |params| && params[i] == (key, r.value)
                                    && forall j :: 0 <= j < i ==> params[j].0 != key
  {
    if params == [] then None
    else if params[0].0 == key then Some(params[0].1)
    else
      var r := QueryGet(params[1..], key);
      assert r.Some? ==> exists i :: 0 <= i < |params| - 1 && params[1..][i] == (key, r.value)
                                    && forall j :: 0 <= j < i ==> params[1..][j].0 != key;
      assert r.Some? ==> exists i :: 1 <= i < |params| && params[i] == (key, r.value)
                                    && forall j :: 0 <= j < i ==> params[j].0 != key;
      r
  }

  /** `urlParams.get("lang") || urlParams.get("language")`, with an empty
      result (both missing or empty) as None. */
  function QueryLanguage(params: seq<(string, string)>): (r: Option<string>)
    ensures r.Some? ==> r.value != ""
    ensures QueryGet(params, "lang").Some? && QueryGet(params, "lang").value != ""
            ==> r == QueryGet(params, "lang")
    ensures QueryGet(params, "lang").GetOr("") == "" && QueryGet(params, "language").GetOr("") != ""
            ==> r == QueryGet(params, "language")
    ensures r.None? <==> QueryGet(params, "lang").GetOr("") == "" && QueryGet(params, "language").GetOr("") == ""
  {
    var lang := QueryGet(params, "lang").GetOr("");
    var language := QueryGet(params, "language").GetOr("");
    if lang != "" then Some(lang) else if language != "" then Some(language) else None
  }

  // ---------------------------------------------------------------------
  // The mount-time decision
  // ---------------------------------------------------------------------

  /** What the mount effect does: nothing, or switch to `code`, writing it
      to storage when `persist`. */
  datatype MountAction = Keep | Adopt(code: string, persist: bool)

  /** The language in force after an action. */
  function Apply(action: MountAction, active: string): (r: string)
  {
    if action.Adopt? then action.code else active
  }

  /** The mount effect's decision, from the query language, the stored
      preference and the active i18next language. A query code, once
      present, decides alone; the stored value is read only without one. */
  function ResolveOnMount(query: Option<string>, stored: Option<string>, active: string): (d: MountAction)
    ensures d.Adopt? ==> IsSupported(d.code) && d.code != active
    ensures query.Some? ==>
              (d.Adopt? <==> IsSupported(Normalize(query.value)) && Normalize(query.value) != active)
              && (d.Adopt? ==> d.code == Normalize(query.value) && d.persist)
    ensures query.None? ==>
              (d.Adopt? <==> stored.Some? && IsSupported(stored.value) && stored.value != active)
              && (d.Adopt? ==> d.code == stored.value && !d.persist)
  {
    match query
    case Some(q) =>
      var code := Normalize(q);
      if IsSupported(code) && active != code then Adopt(code, true) else Keep
    case None =>
      if stored.Some? && stored.value != "" && IsSupported(stored.value) && active != stored.value
      then Adopt(stored.value, false)
      else Keep
  }

  /** With a query code present the stored preference is never consulted,
      even when the query code is unsupported. */
  lemma QueryShadowsStorage(query: string, stored1: Option<string>, stored2: Option<string>, active: string)
    ensures ResolveOnMount(Some(query), stored1, active) == ResolveOnMount(Some(query), stored2, active)
  {
  }

  /** After a mount, mounting again with the same inputs does nothing. */
  lemma MountIdempotent(query: Option<string>, stored: Option<string>, active: string)
    ensures ResolveOnMount(query, stored, Apply(ResolveOnMount(query, stored, active), active)) == Keep
  {
  }

  /** Mounting never leaves a supported active language for an unsupported one. */
  lemma MountKeepsSupported(query: Option<string>, stored: Option<string>, active: string)
    requires IsSupported(active)
    ensures IsSupported(Apply(ResolveOnMount(query, stored, active), active))
  {
  }

  /** A supported language that was selected, and so stored, is back after a
      reload without a query code, whatever language i18next starts in. */
  lemma ReloadRestoresSelection(selected: string, initial: string)
    requires IsSupported(selected)
    ensures Apply(ResolveOnMount(None, Some(selected), initial), initial) == selected
  {
  }

  /** The query code wins over the stored preference. */
  lemma QueryBeatsStored(query: string, stored: string, active: string)
    requires IsSupported(Normalize(query)) && IsSupported(stored)
    ensures Apply(ResolveOnMount(Some(query), Some(stored), active), active) == Normalize(query)
  {
  }

  // ---------------------------------------------------------------------
  // The language buttons
  // ---------------------------------------------------------------------

  /** The `active` flag of each button, in button order. */
  function ButtonStates(current: string): (r: seq<bool>)
    ensures |r| == |Supported|
    ensures forall i :: 0 <= i < |r| ==> (r[i] <==> Supported[i] == current)
  {
    seq(|Supported|, i requires 0 <= i < |Supported| => Supported[i] == current)
  }

  /** At most one button is active, and one is exactly when the current
      language is supported. */
  lemma AtMostOneActive(current: string)
    ensures forall i, j :: 0 <= i < j < |Supported| ==> !(ButtonStates(current)[i] && ButtonStates(current)[j])
    ensures (exists i :: 0 <= i < |Supported| && ButtonStates(current)[i]) <==> IsSupported(current)
  {
    var r := ButtonStates(current);
    if IsSupported(current) {
      var i :| 0 <= i < |Supported| && Supported[i] == current;
      assert r[i];
    }
  }

  // ---------------------------------------------------------------------
  // The component
  // ---------------------------------------------------------------------

  class LanguageSelector {
    const i18n: I18n
    const storage: LocalStorage
    var currentLanguage: string

    /** First render: `useState(i18n.language || "en")`. */
    constructor (i18n: I18n, storage: LocalStorage)
      ensures this.i18n == i18n && this.storage == storage
      ensures currentLanguage == LanguageOrFallback(i18n.language)
    {
      this.i18n := i18n;
      this.storage := storage;
      currentLanguage := LanguageOrFallback(i18n.language);
    }

    /** `currentLanguage` follows i18next's language. */
    ghost predicate InSync()
      reads this, i18n
    {
      currentLanguage == LanguageOrFallback(i18n.language)
    }

    /** The effect that runs whenever `i18n.language` changes. */
    method SyncWithI18n()
      modifies this
      ensures InSync()
      ensures i18n.language == old(i18n.language)
    {
      currentLanguage := LanguageOrFallback(i18n.language);
    }

    /** `handleChangeLanguage`: a click writes the code through to i18next,
        the component and storage. */
    method HandleChangeLanguage(lang: string)
      modifies this, i18n, storage
      ensures i18n.language == lang && currentLanguage == lang
      ensures storage.items == old(storage.items)[LanguageKey := lang]
      ensures lang != "" ==> InSync()
    {
      i18n.ChangeLanguage(lang);
      currentLanguage := lang;
      storage.SetItem(LanguageKey, lang);
    }

    /** The mount effect, on the page's query parameters. */
    method Mount(params: seq<(string, string)>)
      modifies this, i18n, storage
      ensures var d := ResolveOnMount(QueryLanguage(params), old(storage.GetItem(LanguageKey)), old(i18n.language));
              && i18n.language == Apply(d, old(i18n.language))
              && currentLanguage == (if d.Adopt? then d.code else old(currentLanguage))
              && storage.items == (if d.Adopt? && d.persist then old(storage.items)[LanguageKey := d.code]
                                   else old(storage.items))
    {
      var queryLang := QueryLanguage(params);
      if queryLang.Some? {
        var normalized := Normalize(queryLang.value);
        if IsSupported(normalized) && i18n.language != normalized {
          i18n.ChangeLanguage(normalized);
          currentLanguage := normalized;
          storage.SetItem(LanguageKey, normalized);
        }
      } else {
        var stored := storage.GetItem(LanguageKey);
        if stored.Some? && stored.value != "" && IsSupported(stored.value) && i18n.language != stored.value {
          i18n.ChangeLanguage(stored.value);
          currentLanguage := stored.value;
        }
      }
    }

  }

  /** Select a language, then reload the page: a fresh component over a
      fresh i18next instance and the same storage shows that language again
      once mounted without a query code. */
  method SelectThenReload(storage: LocalStorage, lang: string, initial: string) returns (reloaded: LanguageSelector)
    requires IsSupported(lang)
    modifies storage
    ensures reloaded.currentLanguage == lang && reloaded.i18n.language == lang
  {
    var before := new I18n(initial);
    var selector := new LanguageSelector(before, storage);
    selector.HandleChangeLanguage(lang);
    var after := new I18n(initial);
    reloaded := new LanguageSelector(after, storage);
    reloaded.Mount([]);
    ReloadRestoresSelection(lang, initial);
  }
}
