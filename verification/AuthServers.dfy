/** The auth server's handlers over its real fields, each shown to be the matching handoff step. */
module AuthServers {
  import opened Prelude
  import opened Broadcast
  import opened SessionData
  import opened SessionHandoff
  import T = CharacterTable
  import L = CharacterList

  datatype Account = Account(id: int, password: Text)

  /** A game server as its hash in Redis describes it; a hash that cannot be read is `None`. */
  datatype GameServerInfo = GameServerInfo(ip: Text, port: int, maxPlayers: int, currentPlayers: int)

  datatype AuthPacket =
    | LOGIN_REQUEST(username: Text, password: Text)
    | CHAR_CREATE(name: Text, classId: T.Int16)
    | CHAR_SELECT(charId: L.Int32)
    | CHAR_DELETE(charId: L.Int32)
    | CHAR_LIST_REQUEST
    | CONNECT_REQUEST
    | OTHER

  datatype AuthReply =
    | NoReply
    | LoginResponse(code: int, key: string)
    | CharCreateResult(code: int, charId: int)
    | CharSelectResult(code: int, address: Text, port: int)
    | CharDeleteResult(code: int, charId: int)
    | CharListResult(packet: seq<Byte>)
    | HeartbeatReply

  /** What the environment supplies while a packet is handled: the time, the key generator, the
      database's row counter and row order, and the game servers found in Redis. */
  datatype Env = Env(now: int, newKey: string, newId: L.Int32, listing: seq<L.Int32>,
                     servers: Option<seq<Option<GameServerInfo>>>)

  predicate HasRoom(s: Option<GameServerInfo>) {
    s.Some? && (s.value.maxPlayers == 0 || s.value.currentPlayers < s.value.maxPlayers)
  }

  /** The first game server with room. */
  function FirstRoom(servers: seq<Option<GameServerInfo>>): Option<GameServerInfo> {
    if servers == [] then None else if HasRoom(servers[0]) then servers[0] else FirstRoom(servers[1..])
  }

  predicate RoomFound(servers: Option<seq<Option<GameServerInfo>>>) {
    servers.Some? && FirstRoom(servers.value).Some?
  }

  /** The rows as the handoff sees them. */
  function Owners(t: T.Table): map<int, Character> {
    map id: int | id in t :: Character(t[id].account, t[id].name)
  }

  function Verdict(accounts: map<Text, Account>, username: Text, password: Text): Option<int> {
    if username in accounts && accounts[username].password == password then Some(accounts[username].id) else None
  }

  /** The request a packet of `account` makes of the character table. */
  function RequestOf(packet: AuthPacket, account: int, newId: L.Int32): T.Request {
    match packet
    case CHAR_CREATE(name, classId) => T.Create(account, name, classId, newId)
    case CHAR_DELETE(id) => T.Delete(account, id)
    case _ => T.Read(account)
  }

  /** The step of the handoff that a packet is. */
  function EventOf(n: Net, t: T.Table, accounts: map<Text, Account>, packet: AuthPacket, from: Addr, env: Env): Event
  {
    var account := At(n.auth, from).playerId;
    match packet
    case LOGIN_REQUEST(username, password) => Login(from, T.Trim(username), Verdict(accounts, T.Trim(username), password))
    case CONNECT_REQUEST => AuthConnect(from, env.newKey)
    case CHAR_SELECT(id) => Select(from, id, RoomFound(env.servers))
    case _ =>
      if account == -1 || packet.OTHER? || packet.CHAR_LIST_REQUEST? then AuthOther(from)
      else Characters(Owners(T.Apply(t, RequestOf(packet, account, env.newId))))
  }

  /** The answer to a request on the character table. */
  function ReplyTo(t: T.Table, packet: AuthPacket, account: int, env: Env): AuthReply
    requires packet.CHAR_LIST_REQUEST? ==> forall id :: id in env.listing ==> id in t
  {
    match packet
    case CHAR_CREATE(name, _) => if T.Accepted(t, name) then CharCreateResult(0, env.newId) else CharCreateResult(1, 0)
    case CHAR_DELETE(id) => CharDeleteResult(if T.Owns(t, account, id) then 0 else 1, id)
    case CHAR_LIST_REQUEST => CharListResult(L.Layout(T.Listed(t, env.listing)))
    case _ => NoReply
  }

  /** The answer to a select: not owned, Redis silent, no server with room, or the first one with room. */
  function SelectReply(t: T.Table, account: int, id: L.Int32, servers: Option<seq<Option<GameServerInfo>>>): AuthReply {
    if !T.Owns(t, account, id) then CharSelectResult(1, [], 0)
    else if servers.None? then CharSelectResult(3, [], 0)
    else
      var server := FirstRoom(servers.value);
      if server.None? then CharSelectResult(2, [], 0)
      else CharSelectResult(0, server.value.ip, server.value.port)
  }

  function LoginReply(verdict: Option<int>, key: string): AuthReply {
    if verdict.Some? then LoginResponse(0, key) else LoginResponse(1, "")
  }

  /** The answer to any packet. */
  function Answer(n: Net, t: T.Table, accounts: map<Text, Account>, packet: AuthPacket, from: Addr, env: Env): AuthReply
    requires packet.CHAR_LIST_REQUEST? ==> forall id :: id in env.listing ==> id in t
  {
    var s := At(n.auth, from);
    match packet
    case LOGIN_REQUEST(username, password) => LoginReply(Verdict(accounts, T.Trim(username), password), s.key)
    case CONNECT_REQUEST => HeartbeatReply
    case CHAR_SELECT(id) => if s.playerId == -1 then NoReply else SelectReply(t, s.playerId, id, env.servers)
    case _ => if s.playerId == -1 then NoReply else ReplyTo(t, packet, s.playerId, env)
  }

  predicate OnTable(packet: AuthPacket) {
    packet.CHAR_CREATE? || packet.CHAR_DELETE? || packet.CHAR_LIST_REQUEST?
  }

  /** The table after a packet; without a login it stays. */
  function TableAfter(t: T.Table, packet: AuthPacket, account: int, env: Env): T.Table {
    if account == -1 then t else T.Apply(t, RequestOf(packet, account, env.newId))
  }

  lemma OffTable(t: T.Table, packet: AuthPacket, account: int, env: Env)
    requires account == -1 || !OnTable(packet)
    ensures TableAfter(t, packet, account, env) == t
  {
  }

  lemma TouchedStep(n: Net, ev: Event, from: Addr)
    requires ev.Login? || ev.Select? || ev.AuthConnect? || ev.AuthOther?
    requires ev.from == from
    ensures Step(n.(auth := Touched(n.auth, from)), ev) == Step(n, ev)
  {
    var m := n.(auth := Touched(n.auth, from));
    assert At(m.auth, from) == At(n.auth, from);
    match ev
    case Login(_, username, verdict) =>
      if verdict.Some? {
        var s := At(n.auth, from).(playerId := verdict.value, username := username);
        assert m.auth[from := s] == n.auth[from := s];
      }
    case Select(_, charId, found) =>
      if MaySelect(n, from, charId, found) { assert m == n; }
    case AuthConnect(_, key) =>
      var s := NewInfo().(key := key, lastHeartbeat := n.now, clientAddr := from);
      assert m.auth[from := s] == n.auth[from := s];
    case AuthOther(_) =>
  }

  /** Making the session first changes nothing about what a packet does. */
  lemma TouchedFirst(n: Net, t: T.Table, accounts: map<Text, Account>, packet: AuthPacket, from: Addr, env: Env)
    requires !OnTable(packet)
    ensures var m := n.(auth := Touched(n.auth, from));
      Step(m, EventOf(m, t, accounts, packet, from, env))
      == Step(n, EventOf(n, t, accounts, packet, from, env))
  {
    var m := n.(auth := Touched(n.auth, from));
    assert At(m.auth, from) == At(n.auth, from);
    TouchedStep(n, EventOf(n, t, accounts, packet, from, env), from);
  }

  lemma TableEvent(n: Net, t: T.Table, accounts: map<Text, Account>, packet: AuthPacket, from: Addr, env: Env)
    requires At(n.auth, from).playerId != -1 && OnTable(packet)
    ensures EventOf(n, t, accounts, packet, from, env)
         == if packet.CHAR_LIST_REQUEST? then AuthOther(from)
            else Characters(Owners(T.Apply(t, RequestOf(packet, At(n.auth, from).playerId, env.newId))))
  {
  }

  lemma CharactersStep(n: Net, ev: Event, chars: map<int, Character>)
    requires ev == Characters(chars)
    ensures Step(n, ev) == n.(chars := chars)
  {
  }

  lemma KnownStep(n: Net, ev: Event, from: Addr)
    requires ev == AuthOther(from) && from in n.auth
    ensures Step(n, ev) == n
  {
  }

  lemma TableStep(n: Net, t: T.Table, t1: T.Table, accounts: map<Text, Account>, packet: AuthPacket, from: Addr, env: Env)
    requires At(n.auth, from).playerId != -1 && n.chars == Owners(t) && OnTable(packet)
    requires t1 == T.Apply(t, RequestOf(packet, At(n.auth, from).playerId, env.newId))
    ensures Step(n, EventOf(n, t, accounts, packet, from, env)) == n.(chars := Owners(t1))
  {
    TableEvent(n, t, accounts, packet, from, env);
    var ev := EventOf(n, t, accounts, packet, from, env);
    if packet.CHAR_LIST_REQUEST? {
      KnownStep(n, ev, from);
    } else {
      CharactersStep(n, ev, Owners(t1));
    }
  }

  lemma OtherStep(n: Net, t: T.Table, accounts: map<Text, Account>, packet: AuthPacket, from: Addr, env: Env)
    requires At(n.auth, from).playerId == -1 && !packet.LOGIN_REQUEST? && !packet.CONNECT_REQUEST?
    ensures Step(n, EventOf(n, t, accounts, packet, from, env)) == n.(auth := Touched(n.auth, from))
  {
  }

  // ----- what the answers and steps come to, in the terms of the tables themselves -----

  /** The account and name are in the session and its hash, which expires 14 seconds later, and nothing
      else has changed. */
  ghost predicate Granted(n: Net, n1: Net, from: Addr, name: Text, account: int) {
    var s := At(n.auth, from);
    && n1.auth == n.auth[from := s.(playerId := account, username := name)]
    && s.key in n1.redis && n1.redis[s.key].deadline == Some(n.now + 14000)
    && n1.redis[s.key].fields.playerId == Some(account) && n1.redis[s.key].fields.username == Some(name)
    && n1.redis[s.key].fields.charId == Some(s.charId) && n1.redis[s.key].fields.sessionKey == Some(s.key)
    && n1.redis[s.key].fields.fd == Some(from)
    && n1.redis - {s.key} == n.redis - {s.key}
  }

  /** No hash has changed and no session has gained anything. */
  ghost predicate Refused(n: Net, n1: Net) {
    n1.redis == n.redis && forall a :: At(n1.auth, a) == At(n.auth, a)
  }

  lemma GrantRecords(n: Net, ev: Event, from: Addr, name: Text, account: int)
    requires ev == Login(from, name, Some(account))
    ensures Granted(n, Step(n, ev), from, name, account)
  {
  }

  lemma RefusalRecords(n: Net, ev: Event, from: Addr, name: Text)
    requires ev == Login(from, name, None)
    ensures Refused(n, Step(n, ev))
  {
  }

  /** The answer to a login is a grant exactly when the trimmed name has an account with the password that
      was sent, and then it is the session's key. */
  lemma LoginReplies(n: Net, t: T.Table, accounts: map<Text, Account>, username: Text, password: Text, from: Addr, env: Env)
    ensures LoginAnswered(accounts, username, password, At(n.auth, from).key,
                          Answer(n, t, accounts, LOGIN_REQUEST(username, password), from, env))
  {
  }

  lemma LoginEvent(n: Net, t: T.Table, accounts: map<Text, Account>, username: Text, password: Text, from: Addr, env: Env)
    ensures EventOf(n, t, accounts, LOGIN_REQUEST(username, password), from, env)
         == Login(from, T.Trim(username),
                  if T.Trim(username) in accounts && accounts[T.Trim(username)].password == password
                  then Some(accounts[T.Trim(username)].id) else None)
  {
  }

  /** A login with the password of the trimmed name's account gives the session that account; any other
      changes no hash and gives no session an account. */
  lemma LoginDecides(n: Net, t: T.Table, accounts: map<Text, Account>, username: Text, password: Text, from: Addr, env: Env)
    ensures var name, n1 := T.Trim(username), Step(n, EventOf(n, t, accounts, LOGIN_REQUEST(username, password), from, env));
      if name in accounts && accounts[name].password == password
      then Granted(n, n1, from, name, accounts[name].id) else Refused(n, n1)
  {
    LoginEvent(n, t, accounts, username, password, from, env);
    var name, ev := T.Trim(username), EventOf(n, t, accounts, LOGIN_REQUEST(username, password), from, env);
    if name in accounts && accounts[name].password == password {
      GrantRecords(n, ev, from, name, accounts[name].id);
    } else {
      RefusalRecords(n, ev, from, name);
    }
  }

  /** Some listed server that can be read has room, and no earlier one does: `i` is its place. */
  ghost predicate FirstWithRoom(servers: seq<Option<GameServerInfo>>, i: int) {
    && 0 <= i < |servers| && servers[i].Some?
    && (servers[i].value.maxPlayers == 0 || servers[i].value.currentPlayers < servers[i].value.maxPlayers)
    && forall j :: 0 <= j < i && servers[j].Some? ==>
         servers[j].value.maxPlayers != 0 && servers[j].value.currentPlayers >= servers[j].value.maxPlayers
  }

  /** What a select must be answered, written out over the table and the servers. */
  ghost predicate SelectAnswered(t: T.Table, account: int, id: L.Int32, servers: Option<seq<Option<GameServerInfo>>>, r: AuthReply) {
    var owned := id in t && t[id].account == account;
    && r.CharSelectResult?
    && (r.code == 1 <==> !owned)
    && (r.code == 3 <==> owned && servers.None?)
    && (r.code == 2 <==> owned && servers.Some? && !exists i :: FirstWithRoom(servers.value, i))
    && (r.code == 0 <==> owned && servers.Some? && exists i :: FirstWithRoom(servers.value, i))
    && (r.code == 0 ==> exists i :: FirstWithRoom(servers.value, i)
                          && r.address == servers.value[i].value.ip && r.port == servers.value[i].value.port)
    && (r.code != 0 ==> r.address == [] && r.port == 0)
  }

  lemma {:induction false} FirstRoomIs(servers: seq<Option<GameServerInfo>>)
    ensures FirstRoom(servers).Some? <==> exists i :: FirstWithRoom(servers, i)
    ensures forall i :: FirstWithRoom(servers, i) ==> FirstRoom(servers) == servers[i]
    decreases |servers|
  {
    if servers != [] {
      var rest := servers[1..];
      FirstRoomIs(rest);
      if HasRoom(servers[0]) {
        assert FirstWithRoom(servers, 0);
      } else if i :| FirstWithRoom(rest, i) {
        assert FirstWithRoom(servers, i + 1);
      }
      forall i | FirstWithRoom(servers, i) ensures FirstRoom(servers) == servers[i] {
        if i > 0 { assert FirstWithRoom(rest, i - 1); }
      }
    }
  }

  /** A select is answered with the first game server that has room: its address and port. */
  lemma SelectReplies(t: T.Table, account: int, id: L.Int32, servers: Option<seq<Option<GameServerInfo>>>)
    ensures SelectAnswered(t, account, id, servers, SelectReply(t, account, id, servers))
  {
    if servers.Some? { FirstRoomIs(servers.value); }
  }

  /** The character and its name are in the session and its hash, which keeps its deadline if it was there,
      and nothing else has changed. */
  ghost predicate Chosen(n: Net, n1: Net, from: Addr, charId: int, name: Text) {
    var s := At(n.auth, from).(charId := charId, charName := name);
    && n1.auth == n.auth[from := s] && s.key in n1.redis
    && n1.redis[s.key].deadline == (if Present(n.redis, s.key, n.now) then n.redis[s.key].deadline else None)
    && n1.redis[s.key].fields
       == Fields(Some(s.playerId), Some(s.username), Some(charId), Some(name), Some(s.key), Some(from))
    && n1.redis - {s.key} == n.redis - {s.key}
  }

  lemma SelectRecords(n: Net, ev: Event, from: Addr, charId: int, found: bool)
    requires ev == Select(from, charId, found) && At(n.auth, from).playerId != -1
    ensures if found && charId in n.chars && n.chars[charId].account == At(n.auth, from).playerId
      then Chosen(n, Step(n, ev), from, charId, n.chars[charId].name) else Refused(n, Step(n, ev))
  {
  }

  /** A select takes effect exactly when it is answered with a server: the session and its hash then carry
      the character; otherwise no hash and no session has changed. */
  lemma SelectDecides(n: Net, t: T.Table, accounts: map<Text, Account>, id: L.Int32, from: Addr, env: Env)
    requires n.chars == Owners(t) && At(n.auth, from).playerId != -1
    ensures var packet := CHAR_SELECT(id);
      var n1, reply := Step(n, EventOf(n, t, accounts, packet, from, env)), Answer(n, t, accounts, packet, from, env);
      && SelectAnswered(t, At(n.auth, from).playerId, id, env.servers, reply)
      && if reply.code == 0 then Chosen(n, n1, from, id, t[id].name) else Refused(n, n1)
  {
    var ev := EventOf(n, t, accounts, CHAR_SELECT(id), from, env);
    assert ev == Select(from, id, RoomFound(env.servers));
    SelectRecords(n, ev, from, id, RoomFound(env.servers));
    SelectReplies(t, At(n.auth, from).playerId, id, env.servers);
  }

  /** A connect replaces the session of its endpoint by a new one with the generated key, and is greeted. */
  lemma ConnectDecides(n: Net, t: T.Table, accounts: map<Text, Account>, from: Addr, env: Env)
    ensures var n1 := Step(n, EventOf(n, t, accounts, CONNECT_REQUEST, from, env));
      && Answer(n, t, accounts, CONNECT_REQUEST, from, env) == HeartbeatReply
      && n1.redis == n.redis && from in n1.auth && n1.auth - {from} == n.auth - {from}
      && n1.auth[from] == SessionInfo(-1, -1, [], [], env.newKey, n.now, from)
  {
  }

  /** What a create must come to: accepted exactly when the trimmed name has 1 to 31 bytes and no row of any
      account has it; then there is one more row, with the class that was asked for. */
  ghost predicate CreateAnswered(t: T.Table, t1: T.Table, account: int, name: Text, classId: T.Int16, newId: L.Int32, r: AuthReply) {
    && r.CharCreateResult?
    && (r.code == 0 <==> 1 <= |T.Trim(name)| <= 31 && forall id :: id in t ==> t[id].name != T.Trim(name))
    && (r.code == 0 ==> r.charId == newId && t1 == t[newId := T.Row(account, T.Trim(name), classId)])
    && (r.code != 0 ==> r.code == 1 && r.charId == 0 && t1 == t)
  }

  /** What a delete must come to: the row goes exactly when it is the account's. */
  predicate DeleteAnswered(t: T.Table, t1: T.Table, account: int, id: L.Int32, r: AuthReply) {
    && r.CharDeleteResult? && r.charId == id
    && (r.code == 0 <==> id in t && t[id].account == account)
    && (r.code == 0 ==> t1 == t - {id})
    && (r.code != 0 ==> r.code == 1 && t1 == t)
  }

  /** What a list request must be answered: the packet reads back entry by entry as the listed rows. */
  ghost predicate ListAnswered(t: T.Table, t1: T.Table, listing: seq<L.Int32>, r: AuthReply) {
    && r.CharListResult? && t1 == t && |r.packet| == 3 + 38 * |listing|
    && r.packet[2] == |listing| % 0x100
    && forall i :: 0 <= i < L.Signed8(r.packet[2]) <= |listing| ==>
         listing[i] in t && L.EntryAt(r.packet, 3 + 38 * i) == L.Shown(L.Entry(listing[i], t[listing[i]].name, t[listing[i]].classId))
  }

  /** What requests on the table come to, written out over its rows. */
  lemma TableDecides(t: T.Table, packet: AuthPacket, account: int, env: Env)
    requires account != -1 && OnTable(packet)
    requires packet.CHAR_LIST_REQUEST? ==> forall id :: id in env.listing ==> id in t
    ensures var t1, r := TableAfter(t, packet, account, env), ReplyTo(t, packet, account, env);
      match packet
      case CHAR_CREATE(name, classId) => CreateAnswered(t, t1, account, name, classId, env.newId, r)
      case CHAR_DELETE(id) => DeleteAnswered(t, t1, account, id, r)
      case _ => ListAnswered(t, t1, env.listing, r)
  {
    match packet
    case CHAR_CREATE(name, classId) =>
    case CHAR_DELETE(id) =>
    case _ => ListReads(t, env.listing);
  }

  lemma ListReads(t: T.Table, listing: seq<L.Int32>)
    requires forall id :: id in listing ==> id in t
    ensures ListAnswered(t, t, listing, CharListResult(L.Layout(T.Listed(t, listing))))
  {
    var rows := T.Listed(t, listing);
    L.LayoutHead(rows);
    forall i | 0 <= i < L.Signed8(|rows| % 0x100)
      ensures L.EntryAt(L.Layout(rows), 3 + 38 * i) == L.Shown(L.Entry(listing[i], t[listing[i]].name, t[listing[i]].classId))
    {
      L.ReplyEntries(rows, i);
    }
  }

  /** What a login must be answered, written out over the accounts. */
  predicate LoginAnswered(accounts: map<Text, Account>, username: Text, password: Text, key: string, r: AuthReply) {
    var name := T.Trim(username);
    && r.LoginResponse?
    && (r.code == 0 <==> name in accounts && accounts[name].password == password)
    && (r.code == 0 ==> r.key == key)
    && (r.code != 0 ==> r.code == 1 && r.key == "")
  }

  class AuthServer {
    const accounts: map<Text, Account>
    var sessionMap: Sessions
    var redis: Redis
    var characters: T.Table

    constructor (accounts: map<Text, Account>, characters: T.Table)
      ensures Matches(Start(0, Owners(characters))) && this.characters == characters && this.accounts == accounts
    {
      this.accounts, this.characters := accounts, characters;
      sessionMap, redis := map[], map[];
    }

    /** This server's part of the whole net. */
    ghost predicate Matches(n: Net)
      reads this
    {
      n.auth == sessionMap && n.redis == redis && n.chars == Owners(characters)
    }

    /** One packet: the step of the handoff it is, the table after it and the answer to it; and, written out,
        what an unknown endpoint, a login and a select come to. */
    method HandlePacket(packet: AuthPacket, from: Addr, env: Env, ghost n: Net) returns (reply: AuthReply)
      requires Matches(n) && n.now == env.now && Serves(env, from)
      modifies this
      ensures Matches(Step(n, EventOf(n, old(characters), accounts, packet, from, env)))
      ensures characters == TableAfter(old(characters), packet, At(n.auth, from).playerId, env)
      ensures reply == Answer(n, old(characters), accounts, packet, from, env)
      ensures At(old(sessionMap), from).playerId == -1 && !packet.LOGIN_REQUEST? && !packet.CONNECT_REQUEST? ==>
        reply == NoReply && characters == old(characters) && redis == old(redis) && forall a :: At(sessionMap, a) == At(old(sessionMap), a)
      ensures packet.LOGIN_REQUEST? ==> LoginAnswered(accounts, packet.username, packet.password, At(old(sessionMap), from).key, reply)
      ensures packet.LOGIN_REQUEST? && reply.code == 0 ==>
        Granted(n, Step(n, EventOf(n, old(characters), accounts, packet, from, env)), from,
                T.Trim(packet.username), accounts[T.Trim(packet.username)].id)
      ensures packet.LOGIN_REQUEST? && reply.code != 0 ==>
        redis == old(redis) && forall a :: At(sessionMap, a) == At(old(sessionMap), a)
      ensures packet.CHAR_SELECT? && At(old(sessionMap), from).playerId != -1 ==>
        && SelectAnswered(old(characters), At(old(sessionMap), from).playerId, packet.charId, env.servers, reply)
        && var n1 := Step(n, EventOf(n, old(characters), accounts, packet, from, env));
           if reply.code == 0 then Chosen(n, n1, from, packet.charId, old(characters)[packet.charId].name) else Refused(n, n1)
      ensures packet.CHAR_CREATE? && At(old(sessionMap), from).playerId != -1 ==>
        CreateAnswered(old(characters), characters, At(old(sessionMap), from).playerId, packet.name, packet.classId, env.newId, reply)
      ensures packet.CHAR_DELETE? && At(old(sessionMap), from).playerId != -1 ==>
        DeleteAnswered(old(characters), characters, At(old(sessionMap), from).playerId, packet.charId, reply)
      ensures packet.CHAR_LIST_REQUEST? && At(old(sessionMap), from).playerId != -1 ==>
        ListAnswered(old(characters), characters, env.listing, reply)
      ensures packet.CONNECT_REQUEST? ==>
        reply == HeartbeatReply && from in sessionMap && sessionMap[from].key == env.newKey && sessionMap[from].playerId == -1
        && sessionMap[from].lastHeartbeat == env.now && sessionMap[from].clientAddr == from && redis == old(redis)
    {
      TellOutcome(n, characters, packet, from, env);
      if OnTable(packet) && At(sessionMap, from).playerId != -1 {
        TableDecides(characters, packet, At(sessionMap, from).playerId, env);
      }
      reply := Dispatch(packet, from, env, n);
    }

    /** What packets without a login, logins and selects come to. */
    lemma TellOutcome(n: Net, t: T.Table, packet: AuthPacket, from: Addr, env: Env)
      requires n.chars == Owners(t) && (packet.CHAR_LIST_REQUEST? ==> forall id :: id in env.listing ==> id in t)
      ensures At(n.auth, from).playerId == -1 && !packet.LOGIN_REQUEST? && !packet.CONNECT_REQUEST? ==>
        && Answer(n, t, accounts, packet, from, env) == NoReply && TableAfter(t, packet, -1, env) == t
        && Refused(n, Step(n, EventOf(n, t, accounts, packet, from, env)))
      ensures packet.LOGIN_REQUEST? ==>
        var n1, reply := Step(n, EventOf(n, t, accounts, packet, from, env)), Answer(n, t, accounts, packet, from, env);
        && LoginAnswered(accounts, packet.username, packet.password, At(n.auth, from).key, reply)
        && if reply.code == 0 then Granted(n, n1, from, T.Trim(packet.username), accounts[T.Trim(packet.username)].id)
           else Refused(n, n1)
      ensures packet.CHAR_SELECT? && At(n.auth, from).playerId != -1 ==>
        var n1, reply := Step(n, EventOf(n, t, accounts, packet, from, env)), Answer(n, t, accounts, packet, from, env);
        && SelectAnswered(t, At(n.auth, from).playerId, packet.charId, env.servers, reply)
        && if reply.code == 0 then Chosen(n, n1, from, packet.charId, t[packet.charId].name) else Refused(n, n1)
    {
      if At(n.auth, from).playerId == -1 && !packet.LOGIN_REQUEST? && !packet.CONNECT_REQUEST? {
        OtherStep(n, t, accounts, packet, from, env);
      }
      match packet
      case LOGIN_REQUEST(username, password) =>
        LoginReplies(n, t, accounts, username, password, from, env);
        LoginDecides(n, t, accounts, username, password, from, env);
      case CHAR_SELECT(id) =>
        if At(n.auth, from).playerId != -1 { SelectDecides(n, t, accounts, id, from, env); }
      case _ =>
    }

    /** The database lists the account's rows and has not given out the next identifier. */
    ghost predicate Serves(env: Env, from: Addr)
      reads this
    {
      env.newId !in characters && T.Lists(env.listing, characters, At(sessionMap, from).playerId)
    }

    /** Every packet first gets a session for its endpoint; without a login only login and connect
        requests pass. */
    method Dispatch(packet: AuthPacket, from: Addr, env: Env, ghost n: Net) returns (reply: AuthReply)
      requires Matches(n) && n.now == env.now && Serves(env, from)
      modifies this
      ensures Matches(Step(n, EventOf(n, old(characters), accounts, packet, from, env)))
      ensures characters == TableAfter(old(characters), packet, At(n.auth, from).playerId, env)
      ensures reply == Answer(n, old(characters), accounts, packet, from, env)
    {
      TouchSession(from);
      var account := sessionMap[from].playerId;
      if account == -1 && !packet.LOGIN_REQUEST? && !packet.CONNECT_REQUEST? {
        OtherStep(n, characters, accounts, packet, from, env);
        OffTable(characters, packet, account, env);
        reply := NoReply;
      } else if OnTable(packet) {
        reply := HandleTable(packet, from, env, n);
      } else {
        OffTable(characters, packet, account, env);
        reply := HandleSession(packet, from, env, n);
      }
    }

    method HandleSession(packet: AuthPacket, from: Addr, env: Env, ghost n: Net) returns (reply: AuthReply)
      requires Matches(n.(auth := Touched(n.auth, from))) && n.now == env.now && from in sessionMap && !OnTable(packet)
      requires sessionMap[from].playerId != -1 || packet.LOGIN_REQUEST? || packet.CONNECT_REQUEST?
      modifies this`sessionMap, this`redis
      ensures Matches(Step(n, EventOf(n, characters, accounts, packet, from, env)))
      ensures reply == Answer(n, characters, accounts, packet, from, env)
    {
      reply := NoReply;
      ghost var m := n.(auth := Touched(n.auth, from));
      TouchedFirst(n, characters, accounts, packet, from, env);
      match packet
      case LOGIN_REQUEST(username, password) =>
        reply := HandleLogin(from, username, password, env.now, m);
      case CHAR_SELECT(charId) =>
        reply := HandleCharSelect(from, charId, env.servers, env.now, m);
      case CONNECT_REQUEST =>
        reply := OnConnect(from, env.newKey, env.now, m);
      case OTHER =>
    }

    method HandleTable(packet: AuthPacket, from: Addr, env: Env, ghost n: Net) returns (reply: AuthReply)
      requires Matches(n) && Serves(env, from) && At(n.auth, from).playerId != -1 && OnTable(packet)
      modifies this`characters
      ensures Matches(Step(n, EventOf(n, old(characters), accounts, packet, from, env)))
      ensures characters == TableAfter(old(characters), packet, At(n.auth, from).playerId, env)
      ensures reply == ReplyTo(old(characters), packet, At(n.auth, from).playerId, env)
    {
      ghost var t := characters;
      reply := ServeTable(packet, sessionMap[from].playerId, env);
      TableStep(n, t, characters, accounts, packet, from, env);
    }

    method ServeTable(packet: AuthPacket, account: int, env: Env) returns (reply: AuthReply)
      requires env.newId !in characters && T.Lists(env.listing, characters, account) && OnTable(packet)
      modifies this`characters
      ensures characters == T.Apply(old(characters), RequestOf(packet, account, env.newId))
      ensures reply == ReplyTo(old(characters), packet, account, env)
    {
      if packet.CHAR_LIST_REQUEST? {
        reply := HandleCharList(account, env.listing);
      } else if packet.CHAR_DELETE? {
        assert RequestOf(packet, account, env.newId) == T.Delete(account, packet.charId);
        reply := HandleCharDelete(account, packet.charId);
      } else {
        assert RequestOf(packet, account, env.newId) == T.Create(account, packet.name, packet.classId, env.newId);
        reply := HandleCharCreate(account, packet.name, packet.classId, env.newId);
      }
    }

    method TouchSession(from: Addr)
      modifies this`sessionMap
      ensures sessionMap == Touched(old(sessionMap), from)
    {
      if from !in sessionMap {
        sessionMap := sessionMap[from := NewInfo()];
      }
    }

    method HandleLogin(from: Addr, username: Text, password: Text, now: int, ghost n: Net) returns (reply: AuthReply)
      requires Matches(n) && n.now == now && from in sessionMap
      modifies this`sessionMap, this`redis
      ensures Matches(Step(n, Login(from, T.Trim(username), Verdict(accounts, T.Trim(username), password))))
      ensures reply == LoginReply(Verdict(accounts, T.Trim(username), password), old(sessionMap)[from].key)
      ensures LoginAnswered(accounts, username, password, old(sessionMap)[from].key, reply)
      ensures reply.code == 0 ==>
        var s := old(sessionMap)[from].(playerId := accounts[T.Trim(username)].id, username := T.Trim(username));
        sessionMap == old(sessionMap)[from := s]
      ensures reply.code != 0 ==> sessionMap == old(sessionMap) && redis == old(redis)
    {
      var name := T.CleanName(username);
      if name !in accounts || accounts[name].password != password {
        return LoginResponse(1, "");
      }
      reply := LoginResponse(0, sessionMap[from].key);
      GrantLogin(from, name, accounts[name].id, now, n);
    }

    method GrantLogin(from: Addr, username: Text, playerId: int, now: int, ghost n: Net)
      requires Matches(n) && n.now == now && from in sessionMap
      modifies this`sessionMap, this`redis
      ensures Matches(LogIn(n, from, username, playerId))
      ensures sessionMap == old(sessionMap)[from := old(sessionMap)[from].(playerId := playerId, username := username)]
    {
      var s := sessionMap[from];
      var sessionFields := Fields(Some(playerId), Some(username), Some(s.charId), None, Some(s.key), Some(from));
      redis := HSet(redis, s.key, now, sessionFields);
      redis := Expire(redis, s.key, now, HEARTBEAT_TIMEOUT_SEC + 2);
      sessionMap := sessionMap[from := s.(playerId := playerId, username := username)];
    }

    /** The name must be free over all accounts; the identifier is asked back from the database. */
    method HandleCharCreate(account: int, name: Text, classId: T.Int16, newId: L.Int32) returns (reply: AuthReply)
      requires newId !in characters
      modifies this`characters
      ensures characters == T.Apply(old(characters), T.Create(account, name, classId, newId))
      ensures reply == if T.Accepted(old(characters), name) then CharCreateResult(0, newId) else CharCreateResult(1, 0)
      ensures CreateAnswered(old(characters), characters, account, name, classId, newId, reply)
    {
      var charName := T.CleanName(name);
      if charName == [] || |charName| > T.NAME_MAX {
        return CharCreateResult(1, 0);
      }
      if T.Taken(characters, charName) {
        return CharCreateResult(1, 0);
      }
      ghost var t := characters;
      characters := characters[newId := T.Row(account, charName, classId)];
      assert newId in characters && characters[newId].name == charName;
      var id :| id in characters && characters[id].name == charName && characters[id].account == account;
      T.CreatedIdIsFound(t, account, name, classId, newId, id);
      reply := CharCreateResult(0, id);
    }

    /** The first game server with room, in the order of the keys in Redis. */
    method PickServer(servers: seq<Option<GameServerInfo>>) returns (r: Option<GameServerInfo>)
      ensures r == FirstRoom(servers)
      ensures r.Some? ==> exists i :: FirstWithRoom(servers, i) && servers[i] == r
      ensures r.None? ==> !exists i :: FirstWithRoom(servers, i)
    {
      FirstRoomIs(servers);
      assert servers[0..] == servers;
      for i := 0 to |servers|
        invariant forall j :: 0 <= j < i ==> !HasRoom(servers[j])
        invariant FirstRoom(servers) == FirstRoom(servers[i..])
      {
        assert servers[i..][1..] == servers[i + 1..];
        if HasRoom(servers[i]) {
          return servers[i];
        }
      }
      r := None;
    }

    method HandleCharSelect(from: Addr, charId: L.Int32, servers: Option<seq<Option<GameServerInfo>>>, now: int, ghost n: Net)
      returns (reply: AuthReply)
      requires Matches(n) && n.now == now && from in sessionMap && sessionMap[from].playerId != -1
      modifies this`sessionMap, this`redis
      ensures Matches(Step(n, Select(from, charId, RoomFound(servers))))
      ensures reply == SelectReply(characters, old(sessionMap)[from].playerId, charId, servers)
      ensures reply.code == 0 <==> MaySelect(n, from, charId, RoomFound(servers))
      ensures SelectAnswered(characters, old(sessionMap)[from].playerId, charId, servers, reply)
    {
      SelectReplies(characters, sessionMap[from].playerId, charId, servers);
      var account := sessionMap[from].playerId;
      if charId !in characters || characters[charId].account != account {
        return CharSelectResult(1, [], 0);
      }
      if servers.None? {
        return CharSelectResult(3, [], 0);
      }
      var server := PickServer(servers.value);
      if server.None? {
        return CharSelectResult(2, [], 0);
      }
      var s := sessionMap[from].(charId := charId, charName := characters[charId].name);
      sessionMap := sessionMap[from := s];
      var sessionFields :=
        Fields(Some(s.playerId), Some(s.username), Some(s.charId), Some(s.charName), Some(s.key), Some(from));
      redis := HSet(redis, s.key, now, sessionFields);
      reply := CharSelectResult(0, server.value.ip, server.value.port);
    }

    method HandleCharDelete(account: int, charId: L.Int32) returns (reply: AuthReply)
      modifies this`characters
      ensures characters == T.Apply(old(characters), T.Delete(account, charId))
      ensures reply == CharDeleteResult(if T.Owns(old(characters), account, charId) then 0 else 1, charId)
      ensures DeleteAnswered(old(characters), characters, account, charId, reply)
    {
      if charId !in characters || characters[charId].account != account {
        return CharDeleteResult(1, charId);
      }
      characters := characters - {charId};
      reply := CharDeleteResult(0, charId);
    }

    method HandleCharList(account: int, listing: seq<L.Int32>) returns (reply: AuthReply)
      requires T.Lists(listing, characters, account)
      ensures reply == CharListResult(L.Layout(T.Listed(characters, listing)))
      ensures ListAnswered(characters, characters, listing, reply)
    {
      ListReads(characters, listing);
      var buf := L.BuildReply(T.Listed(characters, listing));
      reply := CharListResult(buf[..]);
    }

    /** The connection handler: the session of the endpoint is replaced, then given its key. */
    method OnConnect(from: Addr, newKey: string, now: int, ghost n: Net) returns (reply: AuthReply)
      requires Matches(n) && n.now == now
      modifies this`sessionMap
      ensures Matches(Step(n, AuthConnect(from, newKey))) && reply == HeartbeatReply
    {
      var info := NewInfo().(lastHeartbeat := now, clientAddr := from);
      sessionMap := sessionMap[from := info];
      sessionMap := sessionMap[from := sessionMap[from].(key := newKey)];
      reply := HeartbeatReply;
    }

    method HandleHeartbeat(from: Addr, now: int, ghost n: Net) returns (reply: AuthReply)
      requires Matches(n) && n.now == now
      modifies this`sessionMap, this`redis
      ensures Matches(Step(n, AuthBeat(from)))
      ensures reply == if from in n.auth && n.auth[from].key != "" then HeartbeatReply else NoReply
    {
      reply := NoReply;
      if from in sessionMap {
        var s := sessionMap[from];
        if s.key != "" {
          redis := Expire(redis, s.key, now, HEARTBEAT_TIMEOUT_SEC + 1);
          sessionMap := sessionMap[from := s.(lastHeartbeat := now)];
          reply := HeartbeatReply;
        }
      }
    }

    /** Two passes: collect the overdue keys, then erase each one that is still there by the address
        stored in its session. `listing` is the order of the session map. */
    method CheckHeartbeatTimeouts(listing: seq<Addr>, now: int) returns (ghost keys: seq<Addr>)
      requires Enumerates(listing, sessionMap.Keys)
      modifies this`sessionMap
      ensures ListsOverdue(old(sessionMap), keys, now) && sessionMap == EraseAll(old(sessionMap), keys)
    {
      var toDisconnect := CollectOverdue(listing, now);
      keys := toDisconnect;
      for i := 0 to |toDisconnect|
        invariant sessionMap == EraseAll(old(sessionMap), toDisconnect[..i])
      {
        assert toDisconnect[..i + 1][..i] == toDisconnect[..i];
        var endpointKey := toDisconnect[i];
        if endpointKey in sessionMap {
          sessionMap := sessionMap - {sessionMap[endpointKey].clientAddr};
        }
      }
      assert toDisconnect[..|toDisconnect|] == toDisconnect;
    }

    method CollectOverdue(listing: seq<Addr>, now: int) returns (keys: seq<Addr>)
      requires Enumerates(listing, sessionMap.Keys)
      ensures ListsOverdue(sessionMap, keys, now)
    {
      keys := [];
      for i := 0 to |listing|
        invariant NoDuplicates(keys) && forall a :: a in keys <==> a in listing[..i] && Expired(sessionMap[a], now)
      {
        if Expired(sessionMap[listing[i]], now) {
          keys := keys + [listing[i]];
        }
      }
    }
  }

  // ----- both sides of the server together -----

  lemma PacketIsTimely(n: Net, t: T.Table, accounts: map<Text, Account>, packet: AuthPacket, from: Addr, env: Env)
    requires from != NO_ADDR && env.newKey != ""
    ensures Timely(n, EventOf(n, t, accounts, packet, from, env))
  {
  }

  /** Whatever the packet, hashes go on to outlive the sessions they back. */
  lemma PacketKeepsTtl(n: Net, t: T.Table, accounts: map<Text, Account>, packet: AuthPacket, from: Addr, env: Env)
    requires TtlSafe(n) && from != NO_ADDR && env.newKey != ""
    ensures TtlSafe(Step(n, EventOf(n, t, accounts, packet, from, env)))
  {
    PacketIsTimely(n, t, accounts, packet, from, env);
    StepTtl(n, EventOf(n, t, accounts, packet, from, env));
  }

  /** Whatever the packet, the character table stays well formed. */
  lemma PacketKeepsTable(t: T.Table, packet: AuthPacket, account: int, env: Env)
    requires T.TableInv(t) && env.newId !in t
    ensures T.TableInv(TableAfter(t, packet, account, env))
  {
    T.ApplyKeepsTable(t, RequestOf(packet, account, env.newId));
  }
}
