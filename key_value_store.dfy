/**
 * The `storage` helper: `localStorage` behind `JSON.stringify` and `JSON.parse`,
 * with every failure caught. A key maps to a stored value or to text that does
 * not parse; both a missing key and an unreadable entry read as `null`, and a
 * write the browser refuses (a full quota) leaves the store as it was.
 */
module KeyValueStore {
  import opened Wrappers

  /** What the browser holds under a key, as `JSON.parse` sees it. */
  datatype Entry<V> = Stored(value: V) | Unreadable

  /** `storage.get(key)`: `null` for a missing key and for an entry that does not parse. */
  function Read<V>(entries: map<string, Entry<V>>, key: string): (r: Option<V>)
    ensures r.Some? <==> key in entries && entries[key].Stored?
  {
    if key in entries && entries[key].Stored? then Some(entries[key].value) else None
  }

  /**
   * `storage.set(key, value)`: `accepted` is whether `localStorage.setItem` went
   * through; a refused write is dropped silently. Other keys are untouched.
   */
  function Write<V>(entries: map<string, Entry<V>>, key: string, value: V, accepted: bool)
    : (r: map<string, Entry<V>>)
    ensures Read(r, key) == (if accepted then Some(value) else Read(entries, key))
    ensures forall other :: other != key ==> Read(r, other) == Read(entries, other)
  {
    if accepted then entries[key := Stored(value)] else entries
  }

  /** `storage.remove(key)`: afterwards the key reads as `null`; other keys are untouched. */
  function Delete<V>(entries: map<string, Entry<V>>, key: string): (r: map<string, Entry<V>>)
    ensures Read(r, key) == None
    ensures forall other :: other != key ==> Read(r, other) == Read(entries, other)
  {
    entries - {key}
  }

  /** The browser's `localStorage` as the storefront sees it. */
  class Storage<V> {
    var entries: map<string, Entry<V>>

    constructor(initial: map<string, Entry<V>>)
      ensures entries == initial
    {
      entries := initial;
    }

    method Get(key: string) returns (v: Option<V>)
      ensures v == Read(entries, key)
    {
      if key in entries && entries[key].Stored? {
        v := Some(entries[key].value);
      } else {
        v := None;
      }
    }

    method Set(key: string, value: V, accepted: bool)
      modifies this
      ensures entries == Write(old(entries), key, value, accepted)
    {
      if accepted {
        entries := entries[key := Stored(value)];
      }
    }

    method Remove(key: string)
      modifies this
      ensures entries == Delete(old(entries), key)
    {
      entries := entries - {key};
    }
  }
}
