/** Absent keys of the bot's JSON objects, and lookups that fall back to a default. */
module Wrappers {

  /** A value the file may lack: `None` is a key that is not there. */
  datatype Option<+T> = None | Some(value: T)

  /** Python's `d.get(k, default)`. */
  function Get<K, V>(d: map<K, V>, k: K, default: V): V {
    if k in d then d[k] else default
  }
}
