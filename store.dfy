/** The cache the sessions and the likes live in: string keys mapped to a
    JSON payload with an optional TTL. Expiry itself is not modelled. */
module Store {
  import opened Values

  /** What `json.loads` makes of a stored payload. */
  datatype Payload = Decoded(data: Data) | Undecodable

  datatype Entry = Entry(payload: Payload, ttl: Option<nat>)

  type Entries = map<string, Entry>

  /** `get`: a missing key and an undecodable payload both read as None. */
  function Lookup(entries: Entries, key: string): (r: Option<Data>)
    ensures r.Some? <==> key in entries && entries[key].payload.Decoded?
    ensures r.Some? ==> r.value == entries[key].payload.data
  {
    if key in entries && entries[key].payload.Decoded? then Some(entries[key].payload.data) else None
  }

  /** A value written with a TTL reads back as written, and no other key changes. */
  lemma SetExThenGet(entries: Entries, key: string, ttl: nat, value: Data, other: string)
    ensures Lookup(entries[key := Entry(Decoded(value), Some(ttl))], key) == Some(value)
    ensures other != key ==> Lookup(entries[key := Entry(Decoded(value), Some(ttl))], other) == Lookup(entries, other)
  {
  }

  class Cache {
    var entries: Entries

    constructor (entries: Entries)
      ensures this.entries == entries
    {
      this.entries := entries;
    }

    method Get(key: string) returns (r: Option<Data>)
      ensures r.Some? <==> key in entries && entries[key].payload.Decoded?
      ensures r.Some? ==> r.value == entries[key].payload.data
    {
      r := Lookup(entries, key);
    }

    /** `set`: overwrites the entry and leaves it without a TTL. */
    method Set(key: string, value: Data)
      modifies this
      ensures entries == old(entries)[key := Entry(Decoded(value), None)]
    {
      entries := entries[key := Entry(Decoded(value), None)];
    }

    /** `setex`: overwrites the entry with an absolute TTL. */
    method SetEx(key: string, ttl: nat, value: Data)
      modifies this
      ensures entries == old(entries)[key := Entry(Decoded(value), Some(ttl))]
    {
      entries := entries[key := Entry(Decoded(value), Some(ttl))];
    }

    /** `del_`. */
    method Delete(key: string)
      modifies this
      ensures entries == old(entries) - {key}
    {
      entries := entries - {key};
    }
  }
}
