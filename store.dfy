/**
 * The bot's memory: the `sentMemes` Map from the serialized id of a sent
 * view-once message to the URL of the meme it carried (index.js:19).
 */
module Store {

  import opened Wrappers

  class MemeStore {
    /** The entries of the Map, from sent-message id to meme URL. */
    var entries: map<string, string>

    /** A fresh Map is empty: the memory does not survive a restart. */
    constructor ()
      ensures entries == map[]
    {
      entries := map[];
    }

    /** `sentMemes.clear()`: every entry goes, whatever the store held. */
    method Clear()
      modifies this
      ensures entries == map[]
    {
      entries := map[];
    }

    /** `sentMemes.set(id, url)`: inserts, or overwrites an entry for `id`. */
    method Set(id: string, url: string)
      modifies this
      ensures entries.Keys == old(entries).Keys + {id}
      ensures entries[id] == url
      ensures forall k :: k in old(entries) && k != id ==> entries[k] == old(entries)[k]
    {
      entries := entries[id := url];
    }

    /** `sentMemes.has(id)`. */
    method Has(id: string) returns (present: bool)
      ensures present <==> id in entries
    {
      present := id in entries;
    }

    /** `sentMemes.get(id)`: the URL stored for `id`, or nothing. */
    method Get(id: string) returns (url: Option<string>)
      ensures url.Some? <==> id in entries
      ensures url.Some? ==> url.value == entries[id]
    {
      if id in entries {
        url := Some(entries[id]);
      } else {
        url := None;
      }
    }

    /** `sentMemes.delete(id)`: removes `id` if present, a no-op otherwise. */
    method Delete(id: string)
      modifies this
      ensures entries.Keys == old(entries).Keys - {id}
      ensures forall k :: k in entries ==> entries[k] == old(entries)[k]
    {
      entries := entries - {id};
    }
  }

}
