/** The shared counter store that the limiter drives: counters with an optional
    expiry, and the three commands the limiter issues.  Times are nanoseconds. */
module RedisStore {
  import opened Wrappers

  datatype Counter = Counter(count: nat, expiry: Option<nat>)

  type Store = map<string, Counter>

  /** What can go wrong with one command: it never reaches the server, or it is
      applied and the reply is lost.  Either way the client sees an error. */
  datatype Fault = NoFault | LostRequest | LostReply

  predicate Live(s: Store, k: string, t: nat) {
    k in s && (s[k].expiry.Some? ==> t < s[k].expiry.value)
  }

  function CountAt(s: Store, k: string, t: nat): nat {
    if Live(s, k, t) then s[k].count else 0
  }

  /** INCR: a missing or expired key restarts at 1 and has no expiry. */
  function Incr(s: Store, k: string, t: nat): Store {
    s[k := if Live(s, k, t) then s[k].(count := s[k].count + 1) else Counter(1, None)]
  }

  /** EXPIREAT: a moment that is not in the future deletes the key at once. */
  function ExpireAt(s: Store, k: string, at: nat, t: nat): Store {
    if !Live(s, k, t) then s
    else if at <= t then s - {k}
    else s[k := s[k].(expiry := Some(at))]
  }

  function Delivered(f: Fault, before: Store, after: Store): Store {
    if f.LostRequest? then before else after
  }

  /** The server as one client connection sees it. */
  class Server {
    var data: Store

    constructor ()
      ensures data == map[]
    {
      data := map[];
    }

    method Increment(k: string, t: nat, fault: Fault) returns (reply: Option<nat>)
      modifies this
      ensures data == Delivered(fault, old(data), Incr(old(data), k, t))
      ensures reply == if fault.NoFault? then Some(CountAt(data, k, t)) else None
    {
      if fault.LostRequest? {
        return None;
      }
      if Live(data, k, t) {
        data := data[k := data[k].(count := data[k].count + 1)];
      } else {
        data := data[k := Counter(1, None)];
      }
      reply := if fault.NoFault? then Some(data[k].count) else None;
    }

    method SetExpiry(k: string, at: nat, t: nat, fault: Fault) returns (ok: bool)
      modifies this
      ensures data == Delivered(fault, old(data), ExpireAt(old(data), k, at, t))
      ensures ok == fault.NoFault?
    {
      if !fault.LostRequest? && Live(data, k, t) {
        if at <= t {
          data := data - {k};
        } else {
          data := data[k := data[k].(expiry := Some(at))];
        }
      }
      ok := fault.NoFault?;
    }
  }
}
