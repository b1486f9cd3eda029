/**
  The test double's shared invocation log: for each method name, the argument lists of
  its calls in order. The map starts nil and is created on the first record.
*/
module InvocationLog {
  import opened Wrappers

  /** Go's `interface{}`: an argument value of any type. */
  type Value

  type Args = seq<Value>

  type Log = map<string, seq<Args>>

  /** The entries of a possibly nil log; a nil map has none. */
  function Contents(log: Option<Log>): Log
  {
    if log.Some? then log.value else map[]
  }

  /** The calls recorded under `key`; a missing key reads as no calls. */
  function CallsOf(log: Option<Log>, key: string): seq<Args>
  {
    if key in Contents(log) then Contents(log)[key] else []
  }

  /**
    The log after recording one call of `key` with `args`: that key's list grows by
    exactly one entry at its end (the key is created if missing) and every other key
    keeps its list.
  */
  function Recorded(log: Option<Log>, key: string, args: Args): (r: Log)
    ensures r.Keys == Contents(log).Keys + {key}
    ensures r[key] == CallsOf(log, key) + [args]
    ensures forall k :: k in r && k != key ==> r[k] == Contents(log)[k]
  {
    var m := Contents(log);
    var calls := if key in m then m[key] else [];
    m[key := calls + [args]]
  }
}
