/** The game server's handlers over its real fields, each shown to be the matching world step. */
module GameServers {
  import opened Prelude
  import opened ZoneIndex
  import opened Broadcast
  import opened SessionData
  import opened GameWorld = World
  import opened ZoneManagers
  import R = SystemRuns

  /** What handlePacket distinguishes; a packet too short for its type is `OTHER`. */
  datatype ClientPacket = CONNECT_REQUEST(key: string) | MOVE_REQUEST(x: real, y: real, z: real) | OTHER

  datatype ServerReply = NoReply | ConnectResult(code: int) | HeartbeatReply

  /** Making the session first changes nothing about a connect. */
  lemma TouchedConnect(w: GameWorld.World<Entity>, a: Addr, r: Fields, key: string, now: int, e: Entity)
    requires w.scene.zoneSize > 0
    ensures ConnectAccepted(Touch(w, a), a, r, key, now, e) == ConnectAccepted(w, a, r, key, now, e)
  {
    var s := Session(Filled(Touch(w, a).sessions[a].info, r, a, key, now), Some(e));
    assert Touch(w, a).sessions[a := s] == w.sessions[a := s];
  }

  /** What an accepted connect sends, in the world it leads to. */
  ghost function ConnectMail(w1: GameWorld.World<Entity>, i: Info, ord: Order): seq<Sent>
    requires w1.scene.WellFormed() && IsOrder(ord)
  {
    AddMail(w1.scene.ix, w1.scene.ents, w1.scene.zoneSize, ord, i.zoneId, i)
  }

  /** What a move sends, if it is not dropped. */
  ghost function MoveRequestMail(w: GameWorld.World<Entity>, a: Addr, x: real, y: real, z: real, ord: Order): seq<Sent>
    requires w.scene.WellFormed() && IsOrder(ord)
  {
    if MayMove(w, a) then MoveToMail(w.scene, PlayerOf(w, a), x, y, z, ord) else []
  }

  /** In runs the clients are delivered exactly what the handlers send. */
  lemma ConnectSendsEventMail(w: GameWorld.World<Entity>, a: Addr, r: Fields, key: string, now: int, e: Entity, ord: Order)
    requires Inv(w) && Admissible(w, Connect(a, Some(r), key, now, e)) && IsOrder(ord)
    ensures var w1 := ConnectAccepted(w, a, r, key, now, e);
      && w1.scene.WellFormed() && e in w1.scene.ents
      && ConnectMail(w1, w1.scene.ents[e], ord) == R.EventMail(w, Connect(a, Some(r), key, now, e), ord)
  {
    StepInv(w, Connect(a, Some(r), key, now, e));
    InvWellFormed(ConnectAccepted(w, a, r, key, now, e));
  }

  lemma MoveSendsEventMail(w: GameWorld.World<Entity>, a: Addr, x: real, y: real, z: real, ord: Order)
    requires Inv(w) && a != NO_ADDR && IsOrder(ord)
    ensures w.scene.WellFormed() && MoveRequestMail(w, a, x, y, z, ord) == R.EventMail(w, Move(a, x, y, z), ord)
  {
    InvWellFormed(w);
  }

  class GameServer {
    const zoneManager: ZoneManager
    var sessionMap: map<Addr, Session<Entity>>
    var characters: map<int, Position>
    var redis: Redis

    ghost predicate Valid()
      reads this, zoneManager, zoneManager.live
    {
      && zoneManager.Valid()
      && forall a :: a in sessionMap && sessionMap[a].player.Some? ==> sessionMap[a].player.value in zoneManager.live
    }

    ghost function State(): World<Entity>
      reads this, zoneManager, zoneManager.live
    {
      GameWorld.World.World(zoneManager.Scene(), sessionMap, characters)
    }

    constructor (zoneSize: int, characters: map<int, Position>, redis: Redis)
      ensures Valid() && State() == Start(if zoneSize > 0 then zoneSize else DEFAULT_ZONE_SIZE, characters)
      ensures fresh(zoneManager) && zoneManager.sent == [] && this.redis == redis
    {
      zoneManager := new ZoneManager();
      sessionMap := map[];
      this.characters, this.redis := characters, redis;
      new;
      zoneManager.SetZoneSize(zoneSize);
    }

    /** Every packet first gets a session for its endpoint; without a login only connect requests pass. */
    method HandlePacket(packet: ClientPacket, from: Addr, now: int, ord: Order)
      returns (player: Option<Entity>, answer: ServerReply)
      requires Valid() && IsOrder(ord)
      modifies this, zoneManager, zoneManager.live
      ensures Valid()
      ensures packet.CONNECT_REQUEST? ==>
        var reply := Found(old(redis), packet.key, now);
        && redis == Claimed(old(redis), packet.key, now, from)
        && answer == ConnectResult(if reply.Some? then 0 else 1)
        && (reply.Some? ==>
              && player.Some? && fresh(player.value)
              && State() == ConnectAccepted(old(State()), from, reply.value, packet.key, now, player.value)
              && zoneManager.sent == old(zoneManager.sent) + ConnectMail(State(), player.value.Snapshot(), ord))
        && (reply.None? ==> State() == ConnectRefused(Touch(old(State()), from), from) && zoneManager.sent == old(zoneManager.sent))
      ensures packet.MOVE_REQUEST? ==>
        && State() == MovePlayer(old(State()), from, packet.x, packet.y, packet.z)
        && zoneManager.sent == old(zoneManager.sent) + MoveRequestMail(old(State()), from, packet.x, packet.y, packet.z, ord)
      ensures packet.OTHER? ==> State() == Touch(old(State()), from) && zoneManager.sent == old(zoneManager.sent)
      ensures !packet.CONNECT_REQUEST? ==> redis == old(redis) && answer == NoReply
    {
      player, answer := None, NoReply;
      TouchSession(from);
      if sessionMap[from].info.playerId == -1 && !packet.CONNECT_REQUEST? {
        return;
      }
      match packet
      case CONNECT_REQUEST(key) =>
        ghost var w := old(State());
        player, answer := HandleConnect(from, key, now, ord);
        if player.Some? { TouchedConnect(w, from, Found(old(redis), key, now).value, key, now, player.value); }
      case MOVE_REQUEST(x, y, z) =>
        HandleMove(from, x, y, z, ord);
      case OTHER =>
    }

    method TouchSession(from: Addr)
      requires Valid()
      modifies this`sessionMap
      ensures Valid() && from in sessionMap && State() == Touch(old(State()), from)
    {
      if from !in sessionMap {
        sessionMap := sessionMap[from := NewSession()];
      }
    }

    method HandleConnect(from: Addr, key: string, now: int, ord: Order)
      returns (player: Option<Entity>, answer: ServerReply)
      requires Valid() && IsOrder(ord) && from in sessionMap
      modifies this`sessionMap, this`redis, zoneManager
      ensures Valid() && redis == Claimed(old(redis), key, now, from)
      ensures var reply := Found(old(redis), key, now);
        && answer == ConnectResult(if reply.Some? then 0 else 1)
        && (reply.Some? ==>
              && player.Some? && fresh(player.value)
              && State() == ConnectAccepted(old(State()), from, reply.value, key, now, player.value)
              && from in sessionMap && sessionMap[from].info.lastHeartbeat == now
              && zoneManager.sent == old(zoneManager.sent) + ConnectMail(State(), player.value.Snapshot(), ord))
        && (reply.None? ==> player.None? && State() == ConnectRefused(old(State()), from) && zoneManager.sent == old(zoneManager.sent))
    {
      var sessionData := Found(redis, key, now);
      if sessionData.None? {
        player, answer := None, ConnectResult(1);
        sessionMap := sessionMap - {from};
      } else {
        redis := HSet(redis, key, now, Fields(None, None, None, None, None, Some(from)));
        var e := EnterPlayer(from, sessionData.value, key, now, ord);
        player, answer := Some(e), ConnectResult(0);
      }
    }

    method HandleMove(from: Addr, x: real, y: real, z: real, ord: Order)
      requires Valid() && IsOrder(ord) && from in sessionMap && sessionMap[from].info.playerId != -1
      modifies zoneManager, zoneManager.live
      ensures Valid() && State() == MovePlayer(old(State()), from, x, y, z)
      ensures zoneManager.sent == old(zoneManager.sent) + MoveRequestMail(old(State()), from, x, y, z, ord)
    {
      if sessionMap[from].player.Some? {
        MovePlayerTo(sessionMap[from].player.value, x, y, z, ord);
      }
    }

    method MovePlayerTo(e: Entity, x: real, y: real, z: real, ord: Order)
      requires Valid() && IsOrder(ord) && e in zoneManager.live
      modifies e, zoneManager
      ensures Valid()
      ensures State() == old(State()).(scene := MoveScene(old(State()).scene, e, x, y, z))
      ensures zoneManager.sent == old(zoneManager.sent) + MoveToMail(old(State()).scene, e, x, y, z, ord)
    {
      e.MoveTo(zoneManager, x, y, z, ord);
    }

    /** The accepted branch of a connect: fill the session in, load the player, file it. */
    method EnterPlayer(from: Addr, r: Fields, key: string, now: int, ord: Order) returns (e: Entity)
      requires Valid() && IsOrder(ord) && from in sessionMap
      modifies this`sessionMap, zoneManager
      ensures Valid() && fresh(e)
      ensures State() == ConnectAccepted(old(State()), from, r, key, now, e)
      ensures zoneManager.sent == old(zoneManager.sent) + ConnectMail(State(), e.Snapshot(), ord)
    {
      var info := FillSession(sessionMap[from].info, from, r, key, now);
      e := SpawnPlayer(info.charId, from, ord);
      sessionMap := sessionMap[from := Session(info, Some(e))];
    }

    method SpawnPlayer(charId: int, from: Addr, ord: Order) returns (e: Entity)
      requires Valid() && IsOrder(ord)
      modifies zoneManager
      ensures Valid() && fresh(e) && e in zoneManager.live
      ensures zoneManager.Scene() == Enter(old(zoneManager.Scene()), Loaded(old(State()), charId, from), e)
      ensures zoneManager.sent == old(zoneManager.sent)
        + AddMail(zoneManager.Index(), Snap(zoneManager.live), zoneManager.zoneSize, ord, e.zoneId, e.Snapshot())
    {
      e := LoadPlayer(charId, from);
      FilePlayer(e, ord);
    }

    static method FillSession(s: SessionInfo, from: Addr, r: Fields, key: string, now: int) returns (session: SessionInfo)
      ensures session == Filled(s, r, from, key, now)
      ensures session.lastHeartbeat == now && session.clientAddr == from
    {
      session := s;
      if r.playerId.Some? { session := session.(playerId := r.playerId.value); }
      if r.charId.Some? { session := session.(charId := r.charId.value); }
      if r.username.Some? { session := session.(username := r.username.value); }
      if r.sessionKey.Some? { session := session.(key := r.sessionKey.value); }
      if r.charName.Some? { session := session.(charName := r.charName.value); }
      else { session := session.(key := key); }
      session := session.(lastHeartbeat := now, clientAddr := from);
    }

    /** InitFromDB on a new player. */
    method LoadPlayer(charId: int, from: Addr) returns (e: Entity)
      requires Valid()
      ensures Valid() && fresh(e) && e.Snapshot() == Loaded(State(), charId, from)
    {
      var x, y, z := 0.0, 0.0, 0.0;
      if charId in characters {
        x, y, z := characters[charId].x, characters[charId].y, characters[charId].z;
      }
      e := new Entity(PLAYER, charId, x, y, z, zoneManager.CalculateZoneId(x, y), Some(from));
    }

    method FilePlayer(e: Entity, ord: Order)
      requires Valid() && IsOrder(ord)
      modifies zoneManager
      ensures Valid() && e in zoneManager.live
      ensures zoneManager.Scene() == Enter(old(zoneManager.Scene()), e.Snapshot(), e)
      ensures zoneManager.sent == old(zoneManager.sent)
        + AddMail(zoneManager.Index(), Snap(zoneManager.live), zoneManager.zoneSize, ord, e.zoneId, e.Snapshot())
    {
      ghost var ents := Snap(zoneManager.live);
      zoneManager.AddEntityToZone(e.zoneId, e, ord);
      assert Snap(zoneManager.live) == ents[e := e.Snapshot()];
    }

    /** A heartbeat of a session with a key refreshes session and hash, and is answered. */
    method HandleHeartbeat(from: Addr, now: int) returns (answer: ServerReply)
      requires Valid()
      modifies this`sessionMap, this`redis
      ensures Valid() && State() == Beat(old(State()), from, now)
      ensures redis == if from in old(sessionMap) then Refreshed(old(redis), old(sessionMap)[from].info.key, now) else old(redis)
      ensures answer == if from in old(sessionMap) && old(sessionMap)[from].info.key != "" then HeartbeatReply else NoReply
    {
      answer := NoReply;
      if from in sessionMap {
        var session := sessionMap[from];
        if session.info.key != "" {
          redis := Expire(redis, session.info.key, now, HEARTBEAT_TIMEOUT_SEC + 1);
          sessionMap := sessionMap[from := session.(info := session.info.(lastHeartbeat := now))];
          answer := HeartbeatReply;
        }
      }
    }

    /** An UPDATE of the row with the player's id. */
    method SaveToDB(e: Entity)
      modifies this`characters
      ensures characters == Saved(old(characters), e.Snapshot())
    {
      if e.id in characters {
        characters := characters[e.id := Position(e.x, e.y, e.z)];
      }
    }

    method OnClientDisconnected(clientAddr: Addr, ord: Order)
      requires Valid() && IsOrder(ord)
      modifies this`sessionMap, this`characters, zoneManager
      ensures Valid() && zoneManager.live == old(zoneManager.live)
      ensures State() == Disconnect(old(State()), clientAddr)
      ensures zoneManager.sent == old(zoneManager.sent) + DisconnectMail(old(State()), clientAddr, ord)
    {
      if clientAddr in sessionMap {
        if sessionMap[clientAddr].player.Some? {
          var e := sessionMap[clientAddr].player.value;
          SaveToDB(e);
          UnfilePlayer(e, ord);
        }
      }
      sessionMap := sessionMap - {clientAddr};
    }

    method UnfilePlayer(e: Entity, ord: Order)
      requires Valid() && IsOrder(ord)
      modifies zoneManager
      ensures Valid() && zoneManager.live == old(zoneManager.live)
      ensures zoneManager.Scene() == old(zoneManager.Scene()).(ix := Remove(old(zoneManager.Index()), e.zoneId, e.id))
      ensures zoneManager.sent == old(zoneManager.sent)
        + RemoveMail(old(zoneManager.Index()), Snap(zoneManager.live), zoneManager.zoneSize, ord, e.zoneId, e.id)
    {
      zoneManager.RemoveEntityFromZone(e.zoneId, e.id, ord);
    }

    /** Two passes: collect the overdue keys, then disconnect each one that is still there by the
        address stored in its session. `listing` is the order of the session map. */
    method CheckHeartbeatTimeouts(listing: seq<Addr>, now: int, ord: Order)
      requires Valid() && IsOrder(ord) && Enumerates(listing, sessionMap.Keys)
      modifies this`sessionMap, this`characters, zoneManager
      ensures Valid() && State() == Sweep(old(State()), listing, now)
      ensures zoneManager.sent == old(zoneManager.sent) + SweepMail(old(State()), Overdue(old(State()), listing, now), ord)
    {
      ghost var w := State();
      var toDisconnect := CollectOverdue(listing, now);
      for i := 0 to |toDisconnect|
        invariant Valid() && zoneManager.live == old(zoneManager.live)
        invariant State() == DropAll(w, toDisconnect[..i])
        invariant zoneManager.sent == old(zoneManager.sent) + SweepMail(w, toDisconnect[..i], ord)
      {
        assert toDisconnect[..i + 1][..i] == toDisconnect[..i];
        var endpointKey := toDisconnect[i];
        if endpointKey in sessionMap {
          AppendAssociates(old(zoneManager.sent), SweepMail(w, toDisconnect[..i], ord),
                           DisconnectMail(State(), sessionMap[endpointKey].info.clientAddr, ord));
          OnClientDisconnected(sessionMap[endpointKey].info.clientAddr, ord);
        }
      }
      assert toDisconnect[..|toDisconnect|] == toDisconnect;
    }

    method CollectOverdue(listing: seq<Addr>, now: int) returns (toDisconnect: seq<Addr>)
      requires Valid() && Enumerates(listing, sessionMap.Keys)
      ensures toDisconnect == Overdue(State(), listing, now)
    {
      toDisconnect := [];
      for i := 0 to |listing|
        invariant toDisconnect == Overdue(State(), listing[..i], now)
      {
        assert listing[..i + 1][..i] == listing[..i];
        assert listing[i] in listing;
        if Expired(sessionMap[listing[i]].info, now) {
          toDisconnect := toDisconnect + [listing[i]];
        }
      }
      assert listing[..|listing|] == listing;
    }
  }
}
