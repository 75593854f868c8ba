/** The browser and localization objects that the components mutate:
    the page's `localStorage`, the root element's `data-theme` attribute and
    the shared i18next instance. Each is a class whose methods change its
    fields in place, as the browser APIs do. */
module Host {
  import opened Optional

  /** `window.localStorage`: a string-to-string store shared by every
      component of the page and kept across reloads. */
  class LocalStorage {
    var items: map<string, string>

    constructor (initial: map<string, string>)
      ensures items == initial
    {
      items := initial;
    }

    /** `localStorage.getItem(key)`: the stored string, or null. */
    function GetItem(key: string): (r: Option<string>)
      reads this
      ensures r.Some? <==> key in items
      ensures r.Some? ==> r.value == items[key]
    {
      if key in items then Some(items[key]) else None
    }

    /** `localStorage.setItem(key, value)`: every other key keeps its value. */
    method SetItem(key: string, value: string)
      modifies this
      ensures items == old(items)[key := value]
      ensures GetItem(key) == Some(value)
      ensures forall k :: k != key ==> GetItem(k) == old(GetItem(k))
    {
      items := items[key := value];
    }
  }

  /** `document.documentElement`, reduced to its `dataset.theme` attribute
      (`undefined` until a component first sets it). */
  class Document {
    var theme: Option<string>

    constructor ()
      ensures theme == None
    {
      theme := None;
    }

    method SetTheme(value: string)
      modifies this
      ensures theme == Some(value)
    {
      theme := Some(value);
    }
  }

  /** The i18next instance, reduced to its active language. */
  class I18n {
    var language: string

    constructor (lng: string)
      ensures language == lng
    {
      language := lng;
    }

    /** `i18n.changeLanguage(lng)`: the active language becomes `lng`. */
    method ChangeLanguage(lng: string)
      modifies this
      ensures language == lng
    {
      language := lng;
    }
  }
}
