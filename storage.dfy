/** The storage wrapper over the host's synchronous key-value store. The host
    store is a map from keys to stored values; a read of a key it lacks gives
    the empty string, which the wrapper takes to mean "not found". Every call
    may make the host throw: the `fault` parameter is the message of that
    error, and the wrapper turns it into a failed result instead of throwing. */
module Storage {
  import opened Common

  /** A value the host can store (it serialises JSON-like data). */
  datatype Value =
    | Text(text: string)
    | Number(number: int)
    | Bool(flag: bool)
    | Null
    | List(elements: seq<Value>)
    | Record(fields: map<string, Value>)

  /** What the host's read gives: the stored value, or `""` for a missing key. */
  function HostRead(items: map<string, Value>, key: string): Value {
    if key in items then items[key] else Text("")
  }

  /** The error of a read that finds the empty string. */
  function NotFound(key: string): string {
    "Key \"" + key + "\" not found"
  }

  /** The outcome of `getItem` when the host does not throw. */
  function ReadResult(items: map<string, Value>, key: string): (r: Result<Value>)
    ensures r.Ok? <==> key in items && items[key] != Text("")
    ensures r.Ok? ==> r.value == items[key]
    ensures r.Err? ==> r.error == NotFound(key)
  {
    var value := HostRead(items, key);
    if value == Text("") then Err(NotFound(key)) else Ok(value)
  }

  /** A value other than the empty string reads back as it was written. */
  lemma SetThenGet(items: map<string, Value>, key: string, value: Value)
    requires value != Text("")
    ensures ReadResult(items[key := value], key) == Ok(value)
  {
  }

  /** A stored empty string is indistinguishable from a missing key. */
  lemma StoredEmptyIsNotFound(items: map<string, Value>, key: string)
    ensures ReadResult(items[key := Text("")], key) == ReadResult(items - {key}, key)
    ensures ReadResult(items[key := Text("")], key) == Err(NotFound(key))
  {
  }

  /** After a removal, or after clearing, a key reads as not found. */
  lemma RemovedIsNotFound(items: map<string, Value>, key: string, other: string)
    ensures ReadResult(items - {key}, key) == Err(NotFound(key))
    ensures ReadResult(map[], other) == Err(NotFound(other))
  {
  }

  /** Writing or removing one key leaves what every other key reads unchanged. */
  lemma OtherKeysUnchanged(items: map<string, Value>, key: string, other: string, value: Value)
    requires other != key
    ensures ReadResult(items[key := value], other) == ReadResult(items, other)
    ensures ReadResult(items - {key}, other) == ReadResult(items, other)
  {
  }

  /** The host store with the four wrapped operations. */
  class Host {
    var items: map<string, Value>

    constructor ()
      ensures items == map[]
    {
      items := map[];
    }

    /** `getItem`: the stored value, "not found" for the empty string, or
      the message of the error the host threw. */
    method GetItem(key: string, fault: Option<string>) returns (r: Result<Value>)
      ensures fault.Some? ==> r == Err(fault.value)
      ensures fault.None? ==> r == ReadResult(items, key)
    {
      if fault.Some? {
        return Err(fault.value);
      }
      var value := HostRead(items, key);
      if value == Text("") {
        return Err(NotFound(key));
      }
      return Ok(value);
    }

    /** `setItem`: store `value` under `key`, unless the host throws. */
    method SetItem(key: string, value: Value, fault: Option<string>) returns (r: Result<()>)
      modifies this
      ensures fault.Some? ==> r == Err(fault.value) && items == old(items)
      ensures fault.None? ==> r == Ok(()) && items == old(items)[key := value]
    {
      if fault.Some? {
        return Err(fault.value);
      }
      items := items[key := value];
      return Ok(());
    }

    /** `removeItem`: drop `key`, which succeeds whether or not it was there. */
    method RemoveItem(key: string, fault: Option<string>) returns (r: Result<()>)
      modifies this
      ensures fault.Some? ==> r == Err(fault.value) && items == old(items)
      ensures fault.None? ==> r == Ok(()) && items == old(items) - {key}
    {
      if fault.Some? {
        return Err(fault.value);
      }
      items := items - {key};
      return Ok(());
    }

    /** `clear`: drop every key. */
    method Clear(fault: Option<string>) returns (r: Result<()>)
      modifies this
      ensures fault.Some? ==> r == Err(fault.value) && items == old(items)
      ensures fault.None? ==> r == Ok(()) && items == map[]
    {
      if fault.Some? {
        return Err(fault.value);
      }
      items := map[];
      return Ok(());
    }
  }
}
