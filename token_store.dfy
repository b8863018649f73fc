/**
 * The session store: the Redis handle, reduced to the commands the gateway
 * uses. Redis keeps an absolute expiry time per key, or none for a key that
 * persists, and treats a key whose expiry has passed as absent; the model
 * keeps such entries in the map and reads them the same way. The server
 * clock `now` counts seconds.
 */
module TokenStore {
  import opened Outcomes

  /** A stored value and its expiry time, `None` for a key without a time to live. */
  datatype Entry = Entry(value: string, expiresAt: Option<int>)

  /** The key exists in the store at time `now`: present and not yet expired. */
  predicate LiveIn(entries: map<string, Entry>, now: int, key: string) {
    key in entries && (entries[key].expiresAt.None? || entries[key].expiresAt.value > now)
  }

  class Store {
    var entries: map<string, Entry>
    var now: int
    /** False while the Redis server cannot be reached: every command then raises. */
    var reachable: bool

    /**
     * A connection to a database that holds `initial` at time `start`,
     * whoever wrote it.
     */
    constructor (start: int, initial: map<string, Entry>)
      ensures entries == initial && now == start && reachable
    {
      entries := initial;
      now := start;
      reachable := true;
    }

    /** EXISTS: the number of the given keys (here one) that exist. */
    method Exists(key: string) returns (count: Option<nat>)
      ensures !reachable ==> count == None
      ensures reachable ==> count == Some(if LiveIn(entries, now, key) then 1 else 0)
    {
      if !reachable {
        return None;
      }
      count := Some(if LiveIn(entries, now, key) then 1 else 0);
    }

    /**
     * EXPIRE: give a key that exists a new time to live, keeping its value,
     * whether it had one before or not; a key that does not exist is left
     * alone. A time to live that is not positive expires the key at once.
     */
    method Expire(key: string, seconds: int) returns (applied: Option<bool>)
      modifies this`entries
      ensures !reachable ==> applied == None && entries == old(entries)
      ensures reachable ==> applied == Some(LiveIn(old(entries), now, key))
      ensures entries == if reachable && LiveIn(old(entries), now, key)
                         then old(entries)[key := Entry(old(entries)[key].value, Some(now + seconds))]
                         else old(entries)
    {
      if !reachable {
        return None;
      }
      if LiveIn(entries, now, key) {
        entries := entries[key := Entry(entries[key].value, Some(now + seconds))];
        applied := Some(true);
      } else {
        applied := Some(false);
      }
    }

    /** SETEX: store `value` under `key` with the given positive time to live, replacing any entry. */
    method SetEx(key: string, seconds: int, value: string) returns (ok: bool)
      requires seconds > 0
      modifies this`entries
      ensures ok == reachable
      ensures entries == if reachable then old(entries)[key := Entry(value, Some(now + seconds))] else old(entries)
    {
      if !reachable {
        return false;
      }
      entries := entries[key := Entry(value, Some(now + seconds))];
      ok := true;
    }

    /** The passage of time on the server. */
    method Advance(seconds: nat)
      modifies this`now
      ensures now == old(now) + seconds
    {
      now := now + seconds;
    }

    /** The server going away or coming back. */
    method SetReachable(up: bool)
      modifies this`reachable
      ensures reachable == up
    {
      reachable := up;
    }
  }
}
