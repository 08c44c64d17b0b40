/** A string-keyed store that handlers update in place: the browser's
    `localStorage`, or its cookie jar as `js-cookie` sees it. */
module KeyValue {

  class Store {
    var items: map<string, string>

    constructor (initial: map<string, string>)
      ensures items == initial
    {
      items := initial;
    }

    /** `setItem(key, value)` / `Cookies.set(key, value)`. */
    method Set(key: string, value: string)
      modifies this
      ensures items == old(items)[key := value]
    {
      items := items[key := value];
    }

    /** `removeItem(key)`: drops the key and keeps every other entry. */
    method Remove(key: string)
      modifies this
      ensures items == old(items) - {key}
      ensures forall k :: k in old(items) && k != key ==> k in items && items[k] == old(items)[k]
    {
      items := items - {key};
    }
  }
}
