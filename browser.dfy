/** The browser facilities the console relies on: an optional value, a
    navigation request, and the key-value `localStorage`. */
module Browser {

  datatype Option<T> = None | Some(value: T)

  /** A request to the router to go to `to`; `replace` is true for a
      history-replacing navigation (`<Navigate replace />`) and false for a
      push (`router.push`, `navigate(...)`). */
  datatype Navigation = Navigation(to: string, replace: bool)

  /** `localStorage.getItem(key)`: the stored string, or null (None). */
  function GetItem(items: map<string, string>, key: string): (r: Option<string>)
    ensures r.Some? <==> key in items
    ensures r.Some? ==> r.value == items[key]
  {
    if key in items then Some(items[key]) else None
  }

  /** The browser's `localStorage`: a string-to-string store shared by every
      page of the application. */
  class LocalStorage {
    var items: map<string, string>

    constructor (initial: map<string, string>)
      ensures items == initial
    {
      items := initial;
    }

    /** `localStorage.removeItem(key)`: drops the key if present, and is a
        no-op otherwise. */
    method RemoveItem(key: string)
      modifies this
      ensures items == old(items) - {key}
    {
      items := items - {key};
    }
  }
}
