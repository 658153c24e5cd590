/** The browser's origin-scoped `localStorage`: string keys to string
    values, shared by every component of the dashboard. */
module Storage {
  import opened Common

  class Store {
    var entries: map<string, string>

    /** A storage area holding nothing yet. */
    constructor ()
      ensures entries == map[]
    {
      entries := map[];
    }

    /** `getItem(key)`: the stored value, absent when the key was never set
        or has been removed. */
    function Get(key: string): (r: Option<string>)
      reads this
      ensures r.Some? <==> key in entries
      ensures r.Some? ==> r.value == entries[key]
    {
      if key in entries then Some(entries[key]) else None
    }

    /** `setItem(key, value)` */
    method SetItem(key: string, value: string)
      modifies this
      ensures entries == old(entries)[key := value]
    {
      entries := entries[key := value];
    }

    /** `removeItem(key)` */
    method RemoveItem(key: string)
      modifies this
      ensures entries == old(entries) - {key}
    {
      entries := entries - {key};
    }

    /** `clear()`: every key goes at once. */
    method Clear()
      modifies this
      ensures entries == map[]
    {
      entries := map[];
    }
  }
}
