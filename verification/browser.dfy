/** The part of the browser the console touches: `localStorage` as a map
    from keys to stored values. JSON is not modelled as text: a record the
    console wrote with `JSON.stringify` is kept as the record itself, and
    `JSON.parse` of it gives the record back. */
module Browser {
  import opened Entities

  /** A stored value: the JSON of an admin record, or some other text. */
  datatype Stored = AdminJson(admin: AdminRecord) | Text(text: string)

  type Store = map<string, Stored>

  /** `localStorage.removeItem(key)`: the key is gone, every other key keeps
      its value. */
  function Remove(store: Store, key: string): (r: Store)
    ensures key !in r
    ensures forall k :: k in store && k != key ==> k in r && r[k] == store[k]
    ensures forall k :: k in r ==> k in store
  {
    store - {key}
  }

  /** Removing an absent key changes nothing, so removal is idempotent. */
  lemma RemoveIdempotent(store: Store, key: string)
    ensures Remove(Remove(store, key), key) == Remove(store, key)
    ensures key !in store ==> Remove(store, key) == store
  {
    var once := Remove(store, key);
    assert Remove(once, key) == once by {
      assert forall k :: k in Remove(once, key) <==> k in once;
    }
  }

  /** The last toast the page raised (react-toastify), if any. */
  datatype Toast = NoToast | SuccessToast(text: string) | ErrorToast(text: string)
}
