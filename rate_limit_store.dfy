/**
 * The module-level `Map` of src/rateLimit/store.js, holding one fixed
 * window per client key, behind `get` and `set`.
 */
module RateLimitStore {
  import opened Wrappers

  /** `{ count, resetAt }`: requests seen in the window and when it ends. */
  datatype Window = Window(count: int, resetAt: int)

  class WindowStore {
    var entries: map<string, Window>

    /** `new Map()`: no key has a value. */
    constructor ()
      ensures entries == map[]
    {
      entries := map[];
    }

    /** `get(key)`: the value last set for `key`, or nothing if it never was. */
    method Get(key: string) returns (r: Option<Window>)
      ensures r.Some? <==> key in entries
      ensures r.Some? ==> r.value == entries[key]
    {
      if key in entries {
        r := Some(entries[key]);
      } else {
        r := None;
      }
    }

    /** `set(key, value)`: replaces the value of `key` and of no other key. */
    method Set(key: string, value: Window)
      modifies this
      ensures entries == old(entries)[key := value]
      ensures forall other :: other != key && other in old(entries) ==> other in entries && entries[other] == old(entries)[other]
      ensures forall other :: other != key && other !in old(entries) ==> other !in entries
    {
      entries := entries[key := value];
    }
  }
}
