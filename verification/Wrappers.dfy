/** Datatypes shared by the model: optional values, results, and the identifiers the SFU uses. */
module Wrappers {

  datatype Option<+T> = None | Some(value: T)

  datatype Result<+T, +E> = Ok(value: T) | Err(error: E)

  /** Identifiers are opaque to the system; only equality matters. */
  type SessionId = nat
  type UserId = nat
  type LobbyId = nat
  type InfoId = nat

  /** Track ids are text: they travel in SDP attributes. */
  datatype TrackId = TrackId(text: string)

  const UINT32: int := 0x1_0000_0000

  /** Go's `uint32`. */
  type Uint32 = x: int | 0 <= x < UINT32

  function Lookup<K, V>(m: map<K, V>, k: K): (r: Option<V>)
    ensures r.Some? <==> k in m
  {
    if k in m then Some(m[k]) else None
  }
}
