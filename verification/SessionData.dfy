/** What both servers keep of a session, in their memory and in Redis. */
module SessionData {
  import opened Prelude
  import opened Grid
  import opened Broadcast

  const HEARTBEAT_TIMEOUT_SEC := 12

  /** What a value-initialised sockaddr_in prints to; no packet arrives from it. */
  const NO_ADDR := Addr(0, 0)

  // ----- Redis: hashes with optional deadlines, in milliseconds -----

  /** The fields of a session hash. */
  datatype Fields = Fields(playerId: Option<int>, username: Option<Text>, charId: Option<int>,
                           charName: Option<Text>, sessionKey: Option<string>, fd: Option<Addr>)

  datatype Hash = Hash(fields: Fields, deadline: Option<int>)

  type Redis = map<string, Hash>

  predicate Present(r: Redis, key: string, now: int) {
    key in r && (r[key].deadline.Some? ==> now < r[key].deadline.value)
  }

  function Over<T>(after: Option<T>, before: Option<T>): Option<T> {
    if after.Some? then after else before
  }

  function Merge(f: Fields, g: Fields): Fields {
    Fields(Over(g.playerId, f.playerId), Over(g.username, f.username), Over(g.charId, f.charId),
           Over(g.charName, f.charName), Over(g.sessionKey, f.sessionKey), Over(g.fd, f.fd))
  }

  /** HSET keeps the deadline of a hash; on a missing key it makes a hash without one. */
  function HSet(r: Redis, key: string, now: int, f: Fields): Redis {
    r[key := if Present(r, key, now) then Hash(Merge(r[key].fields, f), r[key].deadline) else Hash(f, None)]
  }

  /** EXPIRE does nothing on a missing key. */
  function Expire(r: Redis, key: string, now: int, seconds: int): Redis {
    if Present(r, key, now) then r[key := r[key].(deadline := Some(now + 1000 * seconds))] else r
  }

  /** A heartbeat refreshes the hash of a session that has a key. */
  function Refreshed(r: Redis, key: string, now: int): Redis {
    if key != "" then Expire(r, key, now, HEARTBEAT_TIMEOUT_SEC + 1) else r
  }

  /** HGETALL: the fields of a hash that is there. */
  function Found(r: Redis, key: string, now: int): Option<Fields> {
    if Present(r, key, now) then Some(r[key].fields) else None
  }

  /** A game connect writes the client's handle into a hash it has found. */
  function Claimed(r: Redis, key: string, now: int, fd: Addr): Redis {
    if Present(r, key, now) then HSet(r, key, now, Fields(None, None, None, None, None, Some(fd))) else r
  }

  // ----- sessions in memory -----

  /** SessionInfo without the player it may hold; `key` is its sessionKey. */
  datatype SessionInfo = SessionInfo(playerId: int, charId: int, username: Text, charName: Text, key: string,
                                     lastHeartbeat: int, clientAddr: Addr)

  /** The session operator[] creates for an endpoint it has not seen. */
  function NewInfo(): SessionInfo {
    SessionInfo(-1, -1, [], [], "", 0, NO_ADDR)
  }

  /** More than 12 whole seconds since the last heartbeat; times are in milliseconds. */
  predicate Expired(s: SessionInfo, now: int) {
    Quotient(now - s.lastHeartbeat, 1000) > HEARTBEAT_TIMEOUT_SEC
  }

  function Get<T>(o: Option<T>, default: T): T {
    if o.Some? then o.value else default
  }

  /** A session filled in from the hash of its key. */
  function Filled(s: SessionInfo, f: Fields, a: Addr, key: string, now: int): SessionInfo {
    s.(playerId := Get(f.playerId, s.playerId), charId := Get(f.charId, s.charId),
       username := Get(f.username, s.username), charName := Get(f.charName, s.charName),
       // the source's else belongs to the charName test alone
       key := if f.charName.Some? then Get(f.sessionKey, s.key) else key,
       lastHeartbeat := now, clientAddr := a)
  }
}
