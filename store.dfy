/** The three mutable handles the services share: the database session,
    the Redis cache and the ImageKit storage. */
module Store {
  import opened Domain

  /** The relational store. Each service call is one transaction: a method
      either assigns its new tables (commit) or leaves them (rollback). */
  class Database {
    var users: map<Uuid, User>
    var videos: map<Uuid, Video>
    var comments: map<Uuid, Comment>
    var tags: map<Uuid, Tag>

    constructor ()
      ensures State() == Tables(map[], map[], map[], map[])
      ensures Valid()
    {
      users, videos, comments, tags := map[], map[], map[], map[];
    }

    function State(): Tables
      reads this
    {
      Tables(users, videos, comments, tags)
    }

    predicate Valid()
      reads this
    {
      Consistent(State())
    }
  }

  /** A cached value with the expiry (in seconds) it was set with. */
  datatype Entry = Entry(value: string, ttl: nat)

  /** `return_decoded_value` (app/lib/utils.py:3-7): the cached string, if any.
      A stored empty value is falsy, so it comes back as raw bytes, which
      compare unequal to every string: to every caller it is as good as absent. */
  function Lookup(entries: map<string, Entry>, key: string): (r: Option<string>)
    ensures r.Some? ==> key in entries && r.value == entries[key].value && r.value != ""
    ensures r.None? ==> key !in entries || entries[key].value == ""
  {
    if key in entries && entries[key].value != "" then Some(entries[key].value) else None
  }

  /** The key-value cache. Expiry has no clock here: it is the explicit
      `Expire` step, which any time may take. */
  class KeyValueCache {
    var entries: map<string, Entry>

    constructor ()
      ensures entries == map[]
    {
      entries := map[];
    }

    method Get(key: string) returns (r: Option<string>)
      ensures r == Lookup(entries, key)
    {
      if key in entries && entries[key].value != "" {
        r := Some(entries[key].value);
      } else {
        r := None;
      }
    }

    method Set(key: string, value: string, ttl: nat)
      modifies this
      ensures entries == old(entries)[key := Entry(value, ttl)]
    {
      entries := entries[key := Entry(value, ttl)];
    }

    method Delete(key: string)
      modifies this
      ensures entries == old(entries) - {key}
    {
      entries := entries - {key};
    }

    /** The passage of an entry's time to live. */
    method Expire(key: string)
      requires key in entries
      modifies this
      ensures entries == old(entries) - {key}
    {
      entries := entries - {key};
    }
  }

  /** The blob storage: the set of file ids that are live. */
  class BlobStorage {
    var live: set<string>

    constructor ()
      ensures live == {}
    {
      live := {};
    }

    /** The storage hands out a file id that is not in use. */
    method Upload(b: Blob)
      requires b.fileId !in live
      modifies this
      ensures live == old(live) + {b.fileId}
    {
      live := live + {b.fileId};
    }

    method DeleteFile(fileId: string)
      modifies this
      ensures live == old(live) - {fileId}
    {
      live := live - {fileId};
    }
  }
}
