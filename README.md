# Portfolio preferences and durations, modelled in Dafny

A model of the few pieces of logic in a personal portfolio website (Next.js,
React, i18next):

- **Duration** (`duration.dfy`): the `useDuration` hook's `calculate`, which
  turns a start date and an optional end date into text such as
  "1 year y 6 months". Dates are reduced to their calendar year and month
  index (0..11), plus a day and time of day that the calculation ignores;
  the current date is a parameter.
- **LanguageSelector** (`language_selector.dfy`): which interface language is
  shown. The rules (normalizing a query code, the support check, the mount
  decision, the active button) are pure functions; the component is a class
  over the shared i18next instance and `localStorage`, with the mount effect,
  the re-sync effect and the click handler as methods.
- **DarkModeToggle** (`dark_mode_toggle.dfy`): the selected color theme, kept
  equal in the component, the root element's `data-theme` attribute and the
  stored `"theme"` key. A class whose methods are the mount effect, the click
  handler and the effect that re-runs when the selected mode changes.
- **ServerBackend** (`server_backend.dfy`): the i18next backend used while
  rendering on the server, a fixed table of the three bundled translation
  files with `read` and `init`.
- `host.dfy` holds the browser objects the components mutate (`LocalStorage`,
  `Document`, `I18n`); `optional.dfy` holds `Option`.

React effects are methods the caller invokes in the order React would run
them; `MountAndSync` and `SelectThenReload` show two such sequences.

Behaviours of the code worth knowing:

- With both parts of a duration zero the text is `"0 " + literals.month`,
  the singular word, not "0 months".
- An end before the start is not rejected and no part is clamped: the years
  part goes negative and is dropped from the text, so an end one month before
  the start reads "11 months" (`Duration.EndBeforeStart`,
  `Duration.ExampleOneMonthBackwards`).
- A query code that is present but unsupported does not fall through to the
  stored language: nothing changes (`LanguageSelector.QueryShadowsStorage`).
- A stored theme is adopted as it is, even when it is neither "light" nor
  "dark", and nothing guards against `localStorage` being unavailable.

The enumeration files of the two components are not part of this model. The
language codes and their button order (en, es, de) follow the mock of
`LanguageSelectorTypeEnum` in `__tests__/pages/index.test.tsx:96-100`, which
agrees as a set with `supportedLngs` in `i18n.ts:11`; the theme values are "light" and
"dark", light first.

## Model

| member | source | states |
|---|---|---|
| Duration.EndOrNow | hooks/useDuration.ts:6-10 | the end of the period is the given end, and the current instant when none is given |
| Duration.Difference | hooks/useDuration.ts:12-18 | after the borrow the months part is in 0..11 and years*12+months equals the month count from start to end |
| Duration.DifferenceIsDivMod | hooks/useDuration.ts:12-18 | the years and months parts are exactly the quotient and remainder of the month count by twelve |
| Duration.YearsNonNegativeIff | hooks/useDuration.ts:12-18 | years is non-negative if and only if the end is not earlier than the start at month granularity |
| Duration.NatToString | hooks/useDuration.ts:21 | a number is rendered as a non-empty string of decimal digits with no leading zero |
| Duration.NatToStringRoundTrip | hooks/useDuration.ts:21 | reading the rendered digits back gives the number |
| Duration.NatToStringInjective | hooks/useDuration.ts:21 | different counts never render as the same digits |
| Duration.Fragment | hooks/useDuration.ts:20-25 | a fragment is empty exactly when its count is zero or negative, and otherwise starts with the count's digits |
| Duration.FragmentWords | hooks/useDuration.ts:20-25 | a count of one takes the singular word, a larger count the plural |
| Duration.NonEmpty | hooks/useDuration.ts:28 | filtering keeps exactly the non-empty parts, all taken from the input, keeps an input without empty parts whole, and is empty exactly when every part is empty |
| Duration.NonEmptyAppend | hooks/useDuration.ts:28 | filtering a concatenation is the concatenation of the filtered halves, so kept parts stay in order |
| Duration.Join | hooks/useDuration.ts:28 | joining nothing gives the empty string, one part gives that part, and two parts give them with the separator between |
| Duration.JoinFragments | hooks/useDuration.ts:28 | the joined text is empty iff both fragments are, is the non-empty one alone, or both joined by " y " |
| Duration.SpanText | hooks/useDuration.ts:20-30 | the text for a span is never empty |
| Duration.Calculate | hooks/useDuration.ts:4-31 | the duration text is never empty |
| Duration.MissingEndMeansNow | hooks/useDuration.ts:6-10 | a missing end gives the same text as an end equal to now |
| Duration.OnlyYearAndMonthMatter | hooks/useDuration.ts:12-13 | dates that agree on year and month give the same text, whatever their day, time of day or the current instant |
| Duration.CalculateCases | hooks/useDuration.ts:20-30 | the text is years y months, years alone, months alone, or "0 " + month, by which parts are positive |
| Duration.EndBeforeStart | hooks/useDuration.ts:12-21 | an end before the start gives negative years, whose fragment is dropped, leaving the borrowed months |
| Duration.ExampleYearAndMonths | hooks/useDuration.ts:4-31 | June 2021 to December 2022 reads "1 year y 6 months" |
| Duration.ExampleSameMonth | hooks/useDuration.ts:27-30 | a period within one month reads "0 month" |
| Duration.ExampleOneMonthBackwards | hooks/useDuration.ts:12-25 | an end one month before the start reads "11 months" |
| Host.LocalStorage.GetItem | components/features/LanguageSelector/LanguageSelector.tsx:41 | a read returns the stored string exactly when the key is present |
| Host.LocalStorage.SetItem | components/features/LanguageSelector/LanguageSelector.tsx:17 | a write sets one key and leaves every other key as it was |
| Host.Document.SetTheme | components/features/DarkModeToggle/DarkModeToggle.tsx:23 | the root element's theme attribute becomes the given value |
| Host.I18n.ChangeLanguage | components/features/LanguageSelector/LanguageSelector.tsx:15 | the active i18next language becomes the given code |
| LanguageSelector.IsSupported | components/features/LanguageSelector/LanguageSelector.tsx:28-33 | a code is supported exactly when it is en, es or de |
| LanguageSelector.LanguageOrFallback | components/features/LanguageSelector/LanguageSelector.tsx:10-12 | the shown language is i18next's when it is non-empty and "en" when it is empty, never empty |
| LanguageSelector.BeforeDash | components/features/LanguageSelector/LanguageSelector.tsx:31 | the result is the longest dash-free prefix: a prefix with no dash, followed by a dash or the end |
| LanguageSelector.LowerChar | components/features/LanguageSelector/LanguageSelector.tsx:31 | upper-case letters become their lower-case letter and nothing else changes |
| LanguageSelector.ToLower | components/features/LanguageSelector/LanguageSelector.tsx:31 | lower-casing keeps the length and lower-cases each character in place |
| LanguageSelector.Normalize | components/features/LanguageSelector/LanguageSelector.tsx:31 | the code is the lower-cased text before the first dash of the query value |
| LanguageSelector.NormalizeIdempotent | components/features/LanguageSelector/LanguageSelector.tsx:31 | normalizing an already normalized code changes nothing |
| LanguageSelector.NormalizeExamples | components/features/LanguageSelector/LanguageSelector.tsx:31 | "en-US" becomes "en" and "DE" becomes "de" |
| LanguageSelector.QueryGet | components/features/LanguageSelector/LanguageSelector.tsx:26-27 | a query lookup gives the value of the first parameter with that name, and null exactly when there is none |
| LanguageSelector.QueryLanguage | components/features/LanguageSelector/LanguageSelector.tsx:27 | a non-empty "lang" wins; a missing or empty "lang" gives a non-empty "language"; both missing or empty means no query code |
| LanguageSelector.ResolveOnMount | components/features/LanguageSelector/LanguageSelector.tsx:30-49 | with a query code, adopt its normalized form iff supported and different from i18next's, and persist it; without one, adopt the stored value iff supported and different, without rewriting storage |
| LanguageSelector.QueryShadowsStorage | components/features/LanguageSelector/LanguageSelector.tsx:30-40 | once a query code is present the stored value has no influence, even when the code is unsupported |
| LanguageSelector.MountIdempotent | components/features/LanguageSelector/LanguageSelector.tsx:32-46 | mounting again with the same inputs after a mount does nothing |
| LanguageSelector.MountKeepsSupported | components/features/LanguageSelector/LanguageSelector.tsx:32-46 | a mount never replaces a supported language with an unsupported one |
| LanguageSelector.ReloadRestoresSelection | components/features/LanguageSelector/LanguageSelector.tsx:41-49 | a stored supported language is in force after a mount without a query code, whatever i18next started with |
| LanguageSelector.QueryBeatsStored | components/features/LanguageSelector/LanguageSelector.tsx:27-39 | a supported query code wins over a supported stored language |
| LanguageSelector.ButtonStates | components/features/LanguageSelector/LanguageSelector.tsx:62-70 | there is one button per supported language, active exactly when its code is the current language |
| LanguageSelector.AtMostOneActive | components/features/LanguageSelector/LanguageSelector.tsx:62-70 | at most one language button is active, and one is exactly when the current language is supported |
| LanguageSelector.LanguageSelector.constructor | components/features/LanguageSelector/LanguageSelector.tsx:10-12 | the initial current language is i18next's language or "en" |
| LanguageSelector.LanguageSelector.SyncWithI18n | components/features/LanguageSelector/LanguageSelector.tsx:20-22 | the current language is re-derived from i18next's language, which is not touched |
| LanguageSelector.LanguageSelector.HandleChangeLanguage | components/features/LanguageSelector/LanguageSelector.tsx:14-18 | a click sets i18next's language, the current language and the stored "language" to the code; other keys keep their values |
| LanguageSelector.LanguageSelector.Mount | components/features/LanguageSelector/LanguageSelector.tsx:24-53 | the mount effect carries out ResolveOnMount on the query parameters, the stored value and i18next's language, writing storage only for a query code |
| LanguageSelector.SelectThenReload | components/features/LanguageSelector/LanguageSelector.tsx:14-49 | after a click on a supported language, a reloaded component over the same storage shows that language without a query code |
| DarkModeToggle.InitialMode | components/features/DarkModeToggle/DarkModeToggle.tsx:18-35 | a non-empty stored theme is taken unchecked; otherwise the mode is dark iff the device prefers dark, else light |
| DarkModeToggle.InitialModeIsMode | components/features/DarkModeToggle/DarkModeToggle.tsx:18-35 | without a stored value, or with a valid one, the initial mode is light or dark |
| DarkModeToggle.ButtonStates | components/features/DarkModeToggle/DarkModeToggle.tsx:61-67 | there is one button per mode, active exactly when it equals the selected mode |
| DarkModeToggle.ActiveButtons | components/features/DarkModeToggle/DarkModeToggle.tsx:61-67 | at most one mode button is active, and none when an unchecked stored value is selected |
| DarkModeToggle.DarkModeToggle.constructor | components/features/DarkModeToggle/DarkModeToggle.tsx:10-13 | before mount the mode is light and the component is not mounted |
| DarkModeToggle.DarkModeToggle.MountEffect | components/features/DarkModeToggle/DarkModeToggle.tsx:15-36 | mounting selects InitialMode of the stored theme and the device preference and sets the attribute to it, without writing storage |
| DarkModeToggle.DarkModeToggle.HandleChangeDarkMode | components/features/DarkModeToggle/DarkModeToggle.tsx:38-44 | the mode is always selected; attribute and storage follow only once mounted; re-selecting the selected mode changes nothing when the component is not yet mounted or is already synced |
| DarkModeToggle.DarkModeToggle.SyncEffect | components/features/DarkModeToggle/DarkModeToggle.tsx:46-51 | once mounted the attribute, stored theme and selected mode agree; before mount nothing is written |
| DarkModeToggle.DarkModeToggle.MountAndSync | components/features/DarkModeToggle/DarkModeToggle.tsx:15-51 | mount followed by the effect persists the initial choice: all three places agree and no other stored key changes |
| ServerBackend.TranslationsTable | i18n-server-backend.ts:13-17 | the table has exactly the keys es, en and de, each mapped to its own bundled file |
| ServerBackend.NotFoundError | i18n-server-backend.ts:30-33 | the error message is the fixed prefix followed by the language |
| ServerBackend.MessageLanguage | i18n-server-backend.ts:31 | a language read from a message is the one the message was built with |
| ServerBackend.NotFoundMessageRoundTrip | i18n-server-backend.ts:31 | the not-found message names the requested language |
| ServerBackend.Init | i18n-server-backend.ts:21-23 | init leaves the table as it is |
| ServerBackend.InitKeepsReads | i18n-server-backend.ts:21-23 | no later read is affected by init |
| ServerBackend.Respond | i18n-server-backend.ts:27-34 | the callback is called once, with exactly one of error and data |
| ServerBackend.Read | i18n-server-backend.ts:24-38 | one callback call: the table's entry and no error for a language in the table, otherwise the not-found error and no data |
| ServerBackend.ReadServerTable | i18n-server-backend.ts:13-34 | on the bundled table a read delivers data exactly for es, en and de, that language's own file, and otherwise an error naming the language |
| ServerBackend.ReadIgnoresNamespace | i18n-server-backend.ts:24-27 | the namespace argument never changes the result |
| ServerBackend.BracketLookup | i18n-server-backend.ts:26 | a property lookup on the table finds own keys first and falls back to the names inherited from Object.prototype |
| ServerBackend.ReadAsWritten | i18n-server-backend.ts:24-34 | the lookup as written still calls the callback once with exactly one of error and data |
| ServerBackend.ReadAsWrittenAcceptsInheritedName | i18n-server-backend.ts:26-28 | as written, reading "toString" succeeds with an inherited function as data, where Read gives the not-found error |
| ServerBackend.ReadAsWrittenDiffers | i18n-server-backend.ts:26-34 | the written lookup and Read differ exactly on inherited names that are not table keys |

## Findings

| source | as written | input that shows it | evidently intended | confidence | as-written member | corrected member |
|---|---|---|---|---|---|---|
| i18n-server-backend.ts:26-27 | `translations[language]` on an object literal, then a truthiness test, so names inherited from `Object.prototype` count as present | `read("toString", ns, cb)` calls `cb(null, Object.prototype.toString)` | only the table's own keys es, en and de give data; every other language gets the not-found error | high (JavaScript property lookup semantics); not executed | ServerBackend.ReadAsWrittenAcceptsInheritedName | ServerBackend.Read |

## Left out

- Date parsing (`new Date(string)`), time zones, the clock and invalid dates: dates are given as year and month index, and "now" is a parameter. Any falsy `end` (missing, `null` or the empty string) means "now", and is given as `None`.
- JavaScript number limits: years and months are unbounded integers, which only matters far outside any calendar year.
- `toLowerCase` beyond ASCII: only A..Z are lower-cased. No other character lower-cases to a letter of "en", "es" or "de", so the support check is the same.
- URL parsing and percent-decoding: the query is given as decoded (name, value) pairs in order.
- The `typeof window` guard: the mount effect is modelled as it runs in the browser; on the server it does nothing.
- i18next's `changeLanguage` loading resources and emitting events: it is modelled as setting the active language at once.
- React scheduling and re-rendering: each effect is a method; the order in which React would call them is shown by `MountAndSync` and `SelectThenReload`, not enforced.
- Storage that is unavailable or throws: the code has no fallback for it.
- Read (and Respond, ReadAsWritten): the model assumes the callback returns normally. The `try` in `i18n-server-backend.ts:25-34` also wraps the callback calls, so a callback that throws is called a second time, with that error and null data, from the `catch` at lines 35-37; "called exactly once" holds only for a callback that returns.
- The content of the translation files, the rendered markup, icons, aria labels and `t()` lookups.
- The `type: "backend"` field of the backend object, which only tags it for i18next.
- The Section renderer, `useFormatDate`, the presentational buttons and pills, `GoToTop`, the legacy component copies, the page shell and the build scripts are not part of this model.
