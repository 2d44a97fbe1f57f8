/**
 * The idempotency-key store: a table from key to `Unknown` / `Finished`.
 * The in-memory backend stores into its map in place and never fails; a
 * backend that cannot be reached fails every call (the only behaviour of the
 * remote backend this model keeps).
 */
module Keys {
  import opened Wrappers
  import opened Errors

  /**
   * `middleware.Status`, declared with `iota`: Unknown = 0, Finished = 1, so
   * Unknown is the zero value a missing key reads as.
   */
  datatype Status = Unknown | Finished

  /** The status a table gives a key: Unknown when the key was never set. */
  function Lookup(entries: map<string, Status>, key: string): Status {
    if key in entries then entries[key] else Unknown
  }

  /** Storing a status is read back for that key and leaves every other key's status as it was. */
  lemma LookupAfterStore(entries: map<string, Status>, key: string, s: Status, other: string)
    ensures Lookup(entries[key := s], key) == s
    ensures other != key ==> Lookup(entries[key := s], other) == Lookup(entries, other)
  {
  }

  class KeyStore {
    /** The keys set so far (`sync.Map`). */
    var entries: map<string, Status>
    /** Whether every call fails; never true of the in-memory store. */
    const unreachable: bool
    /** The error a failing call returns. */
    const failure: Error

    /** `NewInMemIdempotencyKeysRepository`: an empty table. */
    constructor InMemory()
      ensures entries == map[] && !unreachable
    {
      entries := map[];
      unreachable := false;
      failure := Plain("");
    }

    /** A store whose every call fails with `e`. */
    constructor Failing(e: Error)
      ensures entries == map[] && unreachable && failure == e
    {
      entries := map[];
      unreachable := true;
      failure := e;
    }

    /** `Status(key)`: the stored status, Unknown for a key never set; the in-memory store never errs. */
    method Status(key: string) returns (s: Status, err: Option<Error>)
      ensures !unreachable ==> err == None && s == Lookup(entries, key)
      ensures unreachable ==> err == Some(failure) && s == Unknown
    {
      if unreachable {
        return Unknown, Some(failure);
      }
      if key !in entries {
        return Unknown, None;
      }
      return entries[key], None;
    }

    /** `SetStatus(key, s)`: store in place; the in-memory store never errs. */
    method SetStatus(key: string, s: Status) returns (err: Option<Error>)
      modifies this
      ensures !unreachable ==> err == None && entries == old(entries)[key := s]
      ensures unreachable ==> err == Some(failure) && entries == old(entries)
    {
      if unreachable {
        return Some(failure);
      }
      entries := entries[key := s];
      return None;
    }
  }
}
