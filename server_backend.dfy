/** The i18next backend used for server rendering: a fixed table of the
    three bundled translation files and a `read` that hands the entry for a
    language to i18next's callback.

    A callback invocation is a value (`CallbackArgs`), and `read` returns the
    sequence of invocations it makes, so "called exactly once" is a statement
    about the length of that sequence. The JSON content of a translation file
    is not modelled: `Bundle(l)` stands for the file `locales/l/l.json`. */
module ServerBackend {
  import opened Optional

  /** What a property lookup on the table can produce: a bundled translation
      file, or a member inherited from `Object.prototype`. */
  datatype Value = Bundle(locale: string) | PrototypeMember(name: string)

  datatype Error = Error(message: string)

  /** The two arguments of one `callback(err, data)` invocation. */
  datatype CallbackArgs = CallbackArgs(err: Option<Error>, data: Option<Value>)

  /** The backend object; `table` is the `translations` record. */
  datatype Backend = Backend(table: map<string, Value>)

  const Translations: map<string, Value> :=
    map["es" := Bundle("es"), "en" := Bundle("en"), "de" := Bundle("de")]

  const ServerBackendModule: Backend := Backend(Translations)

  const NotFoundPrefix: string := "Translation not found for language: "

  /** The table holds exactly the three supported languages, each mapped to
      its own file. */
  lemma TranslationsTable()
    ensures Translations.Keys == {"es", "en", "de"}
    ensures forall l :: l in Translations ==> Translations[l] == Bundle(l)
  {
  }

  /** The error message for a language that is not in the table. */
  function NotFoundError(language: string): (e: Error)
    ensures |e.message| == |NotFoundPrefix| + |language|
    ensures e.message[..|NotFoundPrefix|] == NotFoundPrefix
    ensures e.message[|NotFoundPrefix|..] == language
  {
    Error(NotFoundPrefix + language)
  }

  /** The language named in a not-found message, if it is one. */
  function MessageLanguage(message: string): (r: Option<string>)
    ensures r.Some? ==> message == NotFoundPrefix + r.value
  {
    if |message| >= |NotFoundPrefix| && message[..|NotFoundPrefix|] == NotFoundPrefix
    then Some(message[|NotFoundPrefix|..])
    else None
  }

  /** The message names the language it was raised for. */
  lemma {:induction false} NotFoundMessageRoundTrip(language: string)
    ensures MessageLanguage(NotFoundError(language).message) == Some(language)
  {
  }

  /** `init`: nothing to do, the table is already loaded. */
  function Init(b: Backend): (r: Backend)
    ensures r.table == b.table
  {
    b
  }

  /** The result of `read` when the lookup found `entry` (or nothing). */
  function Respond(language: string, entry: Option<Value>): (calls: seq<CallbackArgs>)
    ensures |calls| == 1
    ensures calls[0].err.Some? != calls[0].data.Some?
  {
    if entry.Some? then [CallbackArgs(None, entry)]
    else [CallbackArgs(Some(NotFoundError(language)), None)]
  }

  /** `read(language, namespace, callback)`: the callback is called once,
      with the language's table entry, or with a not-found error when the
      table has no entry for it. The namespace plays no part. */
  function Read(b: Backend, language: string, namespace: string): (calls: seq<CallbackArgs>)
    ensures |calls| == 1
    ensures calls[0].err.Some? != calls[0].data.Some?
    ensures language in b.table ==> calls[0] == CallbackArgs(None, Some(b.table[language]))
    ensures language !in b.table ==> calls[0] == CallbackArgs(Some(NotFoundError(language)), None)
  {
    Respond(language, if language in b.table then Some(b.table[language]) else None)
  }

  /** On the server's table, a read succeeds exactly for es, en and de and
      then delivers that language's own file. */
  lemma ReadServerTable(language: string, namespace: string)
    ensures var c := Read(ServerBackendModule, language, namespace)[0];
            && (c.data.Some? <==> language in {"es", "en", "de"})
            && (c.data.Some? ==> c.data.value == Bundle(language))
            && (c.err.Some? ==> MessageLanguage(c.err.value.message) == Some(language))
  {
  }

  /** The namespace argument is ignored. */
  lemma ReadIgnoresNamespace(b: Backend, language: string, ns1: string, ns2: string)
    ensures Read(b, language, ns1) == Read(b, language, ns2)
  {
  }

  /** `init` changes no later read. */
  lemma InitKeepsReads(b: Backend, language: string, namespace: string)
    ensures Read(Init(b), language, namespace) == Read(b, language, namespace)
  {
  }

  // ---------------------------------------------------------------------
  // The lookup as written: `translations[language]` on an object literal
  // ---------------------------------------------------------------------

  /** The properties every object literal inherits from `Object.prototype`.
      Each is truthy: a function, or for `__proto__` the prototype itself. */
  const PrototypeNames: set<string> := {
    "constructor", "hasOwnProperty", "isPrototypeOf", "propertyIsEnumerable",
    "toLocaleString", "toString", "valueOf", "__proto__",
    "__defineGetter__", "__defineSetter__", "__lookupGetter__", "__lookupSetter__"
  }

  /** JavaScript's bracket lookup on a plain object: an own property first,
      then one inherited from `Object.prototype`, otherwise `undefined`. */
  function BracketLookup(table: map<string, Value>, key: string): (r: Option<Value>)
    ensures key in table ==> r == Some(table[key])
    ensures r.None? <==> key !in table && key !in PrototypeNames
  {
    if key in table then Some(table[key])
    else if key in PrototypeNames then Some(PrototypeMember(key))
    else None
  }

  /** `read` as written: any truthy lookup result is passed on as data. */
  function ReadAsWritten(b: Backend, language: string, namespace: string): (calls: seq<CallbackArgs>)
    ensures |calls| == 1
    ensures calls[0].err.Some? != calls[0].data.Some?
  {
    Respond(language, BracketLookup(b.table, language))
  }

  /** As written, reading "toString" succeeds and hands i18next the
      inherited `Object.prototype.toString` function as its translations;
      the table's own keys give the not-found error. */
  lemma ReadAsWrittenAcceptsInheritedName(namespace: string)
    ensures ReadAsWritten(ServerBackendModule, "toString", namespace)
         == [CallbackArgs(None, Some(PrototypeMember("toString")))]
    ensures Read(ServerBackendModule, "toString", namespace)
         == [CallbackArgs(Some(NotFoundError("toString")), None)]
  {
  }

  /** The two reads differ exactly on the inherited names that are not keys
      of the table. */
  lemma ReadAsWrittenDiffers(b: Backend, language: string, namespace: string)
    ensures ReadAsWritten(b, language, namespace) != Read(b, language, namespace)
            <==> language !in b.table && language in PrototypeNames
  {
  }
}
