/**
 * The browser's `localStorage` as the application uses it: string keys, each
 * holding the JSON text of one of the application's values or some other text.
 * A value is recorded by what it parses to; `Text` stands for any text that is
 * not the JSON of the value the reader expects (the admin flag `'true'`, the
 * empty string, text left behind by another program).
 */
module LocalStore {
  import opened Wrappers
  import opened Medicines

  /** An entry of the offline queue (`OfflineOperation`); its payload is kept as its JSON text. */
  datatype QueuedOperation = QueuedOperation(kind: string, data: string, timestamp: int, id: string)

  datatype Value =
    | MedicineList(medicines: seq<Medicine>)
    | OperationList(operations: seq<QueuedOperation>)
    | CacheEntry(data: string, timestamp: int, version: string)
    | Text(text: string)

  /** `!localStorage.getItem(key)`: the key is absent or holds the empty string. */
  predicate Blank(v: Option<Value>) {
    v.None? || v == Some(Text(""))
  }

  class Store {
    var items: map<string, Value>

    constructor()
      ensures items == map[]
    {
      items := map[];
    }

    /** `localStorage.getItem(key)`, with `None` for `null`. */
    function GetItem(key: string): (r: Option<Value>)
      reads this
      ensures r.None? <==> key !in items
      ensures r.Some? ==> r.value == items[key]
    {
      if key in items then Some(items[key]) else None
    }

    /** `localStorage.setItem(key, JSON.stringify(v))`. */
    method SetItem(key: string, v: Value)
      modifies this
      ensures items == old(items)[key := v]
      ensures GetItem(key) == Some(v)
    {
      items := items[key := v];
    }

    /** `localStorage.removeItem(key)`. */
    method RemoveItem(key: string)
      modifies this
      ensures items == old(items) - {key}
      ensures GetItem(key) == None
    {
      items := items - {key};
    }
  }
}
