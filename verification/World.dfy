/** The game world as a state machine over packets and timeout sweeps, and what every run keeps. */
module World {
  import opened Prelude
  import opened Grid
  import opened ZoneIndex
  import opened Broadcast
  import opened SessionData

  datatype Position = Position(x: real, y: real, z: real)

  datatype Session<E> = Session(info: SessionInfo, player: Option<E>)

  datatype World<E> = World(scene: Scene<E>, sessions: map<Addr, Session<E>>, db: map<int, Position>)

  function NewSession<E>(): Session<E> {
    Session(NewInfo(), None)
  }

  function Touch<E>(w: World<E>, a: Addr): World<E> {
    if a in w.sessions then w else w.(sessions := w.sessions[a := NewSession()])
  }

  // ----- players and the character table -----

  /** InitFromDB: the stored position, or the origin for a character without a row. */
  function Loaded<E>(w: World<E>, charId: int, a: Addr): Info
    requires w.scene.zoneSize > 0
  {
    var at := if charId in w.db then w.db[charId] else Position(0.0, 0.0, 0.0);
    Info(charId, PLAYER, at.x, at.y, at.z, w.scene.ZoneAt(at.x, at.y), Some(a))
  }

  /** SaveToDB: an UPDATE, so a character without a row is not stored. */
  function Saved(db: map<int, Position>, i: Info): map<int, Position> {
    if i.id in db then db[i.id := Position(i.x, i.y, i.z)] else db
  }

  // ----- the handlers -----

  function Enter<E>(sc: Scene<E>, i: Info, e: E): Scene<E> {
    sc.(ix := Add(sc.ix, i.zoneId, i.id, i.kind, e), ents := sc.ents[e := i])
  }

  /** A connect whose key is known: the session is filled in and a new player is loaded and filed. */
  function ConnectAccepted<E>(w: World<E>, a: Addr, r: Fields, key: string, now: int, e: E): World<E>
    requires w.scene.zoneSize > 0
  {
    var s := Filled(Touch(w, a).sessions[a].info, r, a, key, now);
    World(Enter(w.scene, Loaded(w, s.charId, a), e), w.sessions[a := Session(s, Some(e))], w.db)
  }

  /** A connect whose key is unknown drops the session, whatever it held. */
  function ConnectRefused<E>(w: World<E>, a: Addr): World<E> {
    w.(sessions := w.sessions - {a})
  }

  /** Moves are dropped until the session is logged in and has a player. */
  predicate MayMove<E>(w: World<E>, a: Addr) {
    Online(w, a) && w.sessions[a].info.playerId != -1 && PlayerOf(w, a) in w.scene.ents
  }

  function MovePlayer<E>(w: World<E>, a: Addr, x: real, y: real, z: real): World<E>
    requires w.scene.zoneSize > 0
  {
    var w1 := Touch(w, a);
    if !MayMove(w1, a) then w1
    else w1.(scene := MoveScene(w1.scene, PlayerOf(w, a), x, y, z))
  }

  /** A move changes something only in a session that is logged in and has a player. */
  lemma MoveNeedsLogin<E>(w: World<E>, a: Addr, x: real, y: real, z: real)
    requires w.scene.zoneSize > 0 && MovePlayer(w, a, x, y, z).scene != w.scene
    ensures a in w.sessions && w.sessions[a].info.playerId != -1 && w.sessions[a].player.Some?
  {
  }

  function Beat<E>(w: World<E>, a: Addr, now: int): World<E> {
    if a in w.sessions && w.sessions[a].info.key != "" then
      w.(sessions := w.sessions[a := w.sessions[a].(info := w.sessions[a].info.(lastHeartbeat := now))])
    else w
  }

  /** onClientDisconnected: saves and un-files the player of the session found under the printed
      address, then erases that session. */
  function Disconnect<E>(w: World<E>, a: Addr): World<E> {
    if !(Online(w, a) && PlayerOf(w, a) in w.scene.ents) then w.(sessions := w.sessions - {a})
    else
      var i := w.scene.ents[PlayerOf(w, a)];
      World(w.scene.(ix := Remove(w.scene.ix, i.zoneId, i.id)), w.sessions - {a}, Saved(w.db, i))
  }

  // ----- the world invariant -----

  predicate Online<E>(w: World<E>, a: Addr) {
    a in w.sessions && w.sessions[a].player.Some?
  }

  function PlayerOf<E>(w: World<E>, a: Addr): E
    requires Online(w, a)
  {
    w.sessions[a].player.value
  }

  /** The player of a session points back at it, is filed in the zone it carries, and that zone is
      the zone of its position. */
  ghost predicate SessionFiled<E>(w: World<E>, a: Addr)
    requires w.scene.zoneSize > 0
  {
    Online(w, a) ==>
      var e := PlayerOf(w, a);
      && e in w.scene.ents
      && w.sessions[a].info.clientAddr == a
      && var i := w.scene.ents[e];
         && i.kind == PLAYER && i.session == Some(a)
         && i.zoneId == w.scene.ZoneAt(i.x, i.y)
         && Filed(w.scene.ix.entities, i.zoneId, i.id)
         && w.scene.ix.entities[i.zoneId][i.id] == e
  }

  /** Whatever is filed is the player of a live session, under its own zone and id. */
  ghost predicate EntryOwned<E>(w: World<E>, zone: int, id: int) {
    Filed(w.scene.ix.entities, zone, id) ==>
      var e := w.scene.ix.entities[zone][id];
      && e in w.scene.ents
      && var i := w.scene.ents[e];
         && i.zoneId == zone && i.id == id && i.session.Some?
         && Online(w, i.session.value) && PlayerOf(w, i.session.value) == e
  }

  ghost predicate PlayersOnly<E>(ix: Index<E>) {
    ix.players == ix.entities && ix.mobs == ix.npcs == ix.items == map[]
  }

  ghost predicate IdsDiffer<E>(w: World<E>, a: Addr, b: Addr) {
    Online(w, a) && Online(w, b) && a != b
    && PlayerOf(w, a) in w.scene.ents && PlayerOf(w, b) in w.scene.ents ==>
      w.scene.ents[PlayerOf(w, a)].id != w.scene.ents[PlayerOf(w, b)].id
  }

  /** A session without a player is one nobody has connected through. */
  ghost predicate IdleUnused<E>(w: World<E>, a: Addr) {
    a in w.sessions && w.sessions[a].player.None? ==> w.sessions[a].info.clientAddr == NO_ADDR
  }

  ghost predicate Inv<E>(w: World<E>) {
    && w.scene.zoneSize > 0
    && PlayersOnly(w.scene.ix)
    && NO_ADDR !in w.sessions
    && (forall a :: SessionFiled(w, a))
    && (forall zone, id :: EntryOwned(w, zone, id))
    && (forall a, b :: IdsDiffer(w, a, b))
    && (forall a :: IdleUnused(w, a))
  }

  lemma InvWellFormed<E>(w: World<E>)
    requires Inv(w)
    ensures w.scene.WellFormed()
  {
    forall zone, id | Filed(w.scene.ix.entities, zone, id) ensures w.scene.ix.entities[zone][id] in w.scene.ents {
      assert EntryOwned(w, zone, id);
    }
  }

  /** Each online player is filed in exactly one zone, and under no other id. */
  lemma FiledOnce<E>(w: World<E>, a: Addr, zone: int, id: int)
    requires Inv(w) && Online(w, a) && Filed(w.scene.ix.entities, zone, id)
    ensures PlayerOf(w, a) in w.scene.ents
    ensures var i := w.scene.ents[PlayerOf(w, a)];
      && (w.scene.ix.entities[zone][id] == PlayerOf(w, a) <==> zone == i.zoneId && id == i.id)
      && (id == i.id ==> zone == i.zoneId)
  {
    assert SessionFiled(w, a) && EntryOwned(w, zone, id);
    var b := w.scene.ents[w.scene.ix.entities[zone][id]].session.value;
    assert SessionFiled(w, b) && IdsDiffer(w, a, b);
  }

  // ----- moving -----

  lemma MoveInPlaceInv<E>(w: World<E>, a: Addr, x: real, y: real, z: real)
    requires Inv(w) && Online(w, a) && PlayerOf(w, a) in w.scene.ents
    requires w.scene.ZoneAt(x, y) == w.scene.ents[PlayerOf(w, a)].zoneId
    ensures Inv(w.(scene := PlaceScene(w.scene, PlayerOf(w, a), x, y, z)))
  {
    var e := PlayerOf(w, a);
    var w1 := w.(scene := PlaceScene(w.scene, e, x, y, z));
    assert SessionFiled(w, a);
    forall b ensures SessionFiled(w1, b) {
      assert SessionFiled(w, b);
    }
    forall zone, id ensures EntryOwned(w1, zone, id) {
      assert EntryOwned(w, zone, id);
    }
    forall b, c ensures IdsDiffer(w1, b, c) {
      assert SessionFiled(w, b) && SessionFiled(w, c) && IdsDiffer(w, b, c);
    }
    forall b ensures IdleUnused(w1, b) {
      assert IdleUnused(w, b);
    }
  }

  lemma RefiledEntries<E>(ix: Index<E>, i: Info, zone: int, e: E)
    requires PlayersOnly(ix) && i.kind == PLAYER
    ensures PlayersOnly(Refiled(ix, i, zone, e))
    ensures forall z, k :: Filed(Refiled(ix, i, zone, e).entities, z, k) <==>
      (z == zone && k == i.id) || (Filed(ix.entities, z, k) && !(z == i.zoneId && k == i.id))
    ensures forall z, k :: Filed(Refiled(ix, i, zone, e).entities, z, k) ==>
      Refiled(ix, i, zone, e).entities[z][k] == if z == zone && k == i.id then e else ix.entities[z][k]
  {
    EraseEntries(ix.entities, i.zoneId, i.id);
    PutEntries(Erase(ix.entities, i.zoneId, i.id), zone, i.id, e);
  }

  /** A zone crossing keeps the invariant: entity, index and both zone fields change together. */
  lemma CrossInv<E>(w: World<E>, a: Addr, x: real, y: real, z: real)
    requires Inv(w) && Online(w, a) && PlayerOf(w, a) in w.scene.ents
    ensures var e := PlayerOf(w, a);
      Inv(w.(scene := CrossScene(PlaceScene(w.scene, e, x, y, z), e, w.scene.ZoneAt(x, y))))
  {
    var e, zone := PlayerOf(w, a), w.scene.ZoneAt(x, y);
    var w1 := w.(scene := CrossScene(PlaceScene(w.scene, e, x, y, z), e, zone));
    var i := w.scene.ents[e];
    assert SessionFiled(w, a);
    RefiledEntries(w.scene.ix, i, zone, e);
    assert w1.scene.ix == Refiled(w.scene.ix, i, zone, e);
    forall b ensures SessionFiled(w1, b) {
      assert SessionFiled(w, b) && IdsDiffer(w, a, b);
    }
    forall z, k ensures EntryOwned(w1, z, k) {
      assert EntryOwned(w, z, k);
      if Filed(w.scene.ix.entities, z, k) { FiledOnce(w, a, z, k); }
    }
    forall b, c ensures IdsDiffer(w1, b, c) {
      assert SessionFiled(w, b) && SessionFiled(w, c) && IdsDiffer(w, b, c);
    }
    forall b ensures IdleUnused(w1, b) {
      assert IdleUnused(w, b);
    }
  }

  lemma TouchInv<E>(w: World<E>, a: Addr)
    requires Inv(w) && a != NO_ADDR
    ensures Inv(Touch(w, a))
  {
    var w1 := Touch(w, a);
    forall b ensures SessionFiled(w1, b) && IdleUnused(w1, b) {
      assert SessionFiled(w, b) && IdleUnused(w, b);
    }
    forall zone, id ensures EntryOwned(w1, zone, id) {
      assert EntryOwned(w, zone, id);
    }
    forall b, c ensures IdsDiffer(w1, b, c) {
      assert IdsDiffer(w, b, c);
    }
  }

  lemma MovePlayerInv<E>(w: World<E>, a: Addr, x: real, y: real, z: real)
    requires Inv(w) && a != NO_ADDR
    ensures Inv(MovePlayer(w, a, x, y, z))
  {
    TouchInv(w, a);
    assert SessionFiled(w, a);
    if Online(w, a) {
      if w.scene.ZoneAt(x, y) == w.scene.ents[PlayerOf(w, a)].zoneId {
        MoveInPlaceInv(w, a, x, y, z);
      } else {
        CrossInv(w, a, x, y, z);
      }
    }
  }

  lemma BeatInv<E>(w: World<E>, a: Addr, now: int)
    requires Inv(w)
    ensures Inv(Beat(w, a, now))
  {
    var w1 := Beat(w, a, now);
    forall b ensures SessionFiled(w1, b) && IdleUnused(w1, b) {
      assert SessionFiled(w, b) && IdleUnused(w, b);
    }
    forall zone, id ensures EntryOwned(w1, zone, id) {
      assert EntryOwned(w, zone, id);
    }
    forall b, c ensures IdsDiffer(w1, b, c) {
      assert IdsDiffer(w, b, c);
    }
  }

  // ----- connecting -----

  /** What a connect must respect: nobody else plays that character, and a player already held by
      this session is the same character in the same zone. */
  ghost predicate ConnectFits<E>(w: World<E>, a: Addr, i: Info) {
    && (forall b :: b != a && Online(w, b) && PlayerOf(w, b) in w.scene.ents ==> w.scene.ents[PlayerOf(w, b)].id != i.id)
    && (Online(w, a) && PlayerOf(w, a) in w.scene.ents ==>
          w.scene.ents[PlayerOf(w, a)].id == i.id && w.scene.ents[PlayerOf(w, a)].zoneId == i.zoneId)
  }

  /** The player a connect with this reply loads. */
  function Newcomer<E>(w: World<E>, a: Addr, r: Fields): Info
    requires w.scene.zoneSize > 0
  {
    Loaded(w, Get(r.charId, Touch(w, a).sessions[a].info.charId), a)
  }

  lemma FittingConnectInv<E>(w: World<E>, a: Addr, r: Fields, key: string, now: int, e: E)
    requires Inv(w) && a != NO_ADDR && e !in w.scene.ents && ConnectFits(w, a, Newcomer(w, a, r))
    ensures Inv(ConnectAccepted(w, a, r, key, now, e))
  {
    var i, w1 := Newcomer(w, a, r), ConnectAccepted(w, a, r, key, now, e);
    PutEntries(w.scene.ix.entities, i.zoneId, i.id, e);
    forall b ensures SessionFiled(w1, b) {
      assert SessionFiled(w, b);
    }
    FittingEntries(w, a, r, key, now, e);
    forall b, c ensures IdsDiffer(w1, b, c) {
      assert SessionFiled(w, b) && SessionFiled(w, c) && IdsDiffer(w, b, c);
    }
    forall b ensures IdleUnused(w1, b) {
      assert IdleUnused(w, b);
    }
  }

  lemma FittingEntries<E>(w: World<E>, a: Addr, r: Fields, key: string, now: int, e: E)
    requires Inv(w) && e !in w.scene.ents && ConnectFits(w, a, Newcomer(w, a, r))
    ensures forall zone, id :: EntryOwned(ConnectAccepted(w, a, r, key, now, e), zone, id)
  {
    var i, w1 := Newcomer(w, a, r), ConnectAccepted(w, a, r, key, now, e);
    PutEntries(w.scene.ix.entities, i.zoneId, i.id, e);
    forall zone, id ensures EntryOwned(w1, zone, id) {
      assert EntryOwned(w, zone, id);
      if Filed(w.scene.ix.entities, zone, id) && Online(w, a) { FiledOnce(w, a, zone, id); }
    }
  }

  /** For every world in the invariant, an accepted connect keeps it exactly when it fits: a second
      session for a character, or a session whose earlier player stays filed elsewhere, breaks it. */
  lemma ConnectKeepsInvIff<E>(w: World<E>, a: Addr, r: Fields, key: string, now: int, e: E)
    requires Inv(w) && a != NO_ADDR && e !in w.scene.ents
    ensures Inv(ConnectAccepted(w, a, r, key, now, e)) <==> ConnectFits(w, a, Newcomer(w, a, r))
  {
    var i, w1 := Newcomer(w, a, r), ConnectAccepted(w, a, r, key, now, e);
    if ConnectFits(w, a, i) {
      FittingConnectInv(w, a, r, key, now, e);
    } else if b :| b != a && Online(w, b) && PlayerOf(w, b) in w.scene.ents && w.scene.ents[PlayerOf(w, b)].id == i.id {
      assert !IdsDiffer(w1, a, b);
    } else {
      var i0 := w.scene.ents[PlayerOf(w, a)];
      assert SessionFiled(w, a);
      PutEntries(w.scene.ix.entities, i.zoneId, i.id, e);
      assert !EntryOwned(w1, i0.zoneId, i0.id);
    }
  }

  /** A refused connect keeps the invariant exactly when the session it drops has no player. */
  lemma RefusalKeepsInvIff<E>(w: World<E>, a: Addr)
    requires Inv(w)
    ensures Inv(ConnectRefused(w, a)) <==> !Online(w, a)
  {
    var w1 := ConnectRefused(w, a);
    if Online(w, a) {
      assert SessionFiled(w, a);
      var i := w.scene.ents[PlayerOf(w, a)];
      assert !EntryOwned(w1, i.zoneId, i.id);
    } else {
      forall b ensures SessionFiled(w1, b) && IdleUnused(w1, b) {
        assert SessionFiled(w, b) && IdleUnused(w, b);
      }
      forall zone, id ensures EntryOwned(w1, zone, id) {
        assert EntryOwned(w, zone, id);
      }
      forall b, c ensures IdsDiffer(w1, b, c) {
        assert IdsDiffer(w, b, c);
      }
    }
  }

  // ----- disconnecting and the timeout sweep -----

  lemma DisconnectInv<E>(w: World<E>, a: Addr)
    requires Inv(w)
    ensures Inv(Disconnect(w, a))
  {
    if !Online(w, a) {
      RefusalKeepsInvIff(w, a);
    } else {
      assert SessionFiled(w, a);
      var i, w1 := w.scene.ents[PlayerOf(w, a)], Disconnect(w, a);
      EraseEntries(w.scene.ix.entities, i.zoneId, i.id);
      assert w1.scene.ix == Remove(w.scene.ix, i.zoneId, i.id);
      forall b ensures SessionFiled(w1, b) && IdleUnused(w1, b) {
        assert SessionFiled(w, b) && IdleUnused(w, b) && IdsDiffer(w, a, b);
      }
      forall zone, id ensures EntryOwned(w1, zone, id) {
        assert EntryOwned(w, zone, id);
        if Filed(w.scene.ix.entities, zone, id) { FiledOnce(w, a, zone, id); }
      }
      forall b, c ensures IdsDiffer(w1, b, c) {
        assert IdsDiffer(w, b, c);
      }
    }
  }

  /** First pass: the keys of the overdue sessions, in the order of the map. */
  function Overdue<E>(w: World<E>, listing: seq<Addr>, now: int): seq<Addr> {
    if listing == [] then []
    else
      var key := listing[|listing| - 1];
      Overdue(w, listing[..|listing| - 1], now)
      + (if key in w.sessions && Expired(w.sessions[key].info, now) then [key] else [])
  }

  /** Second pass: each key that is still there is disconnected by its stored address. */
  function DropAll<E>(w: World<E>, keys: seq<Addr>): World<E> {
    if keys == [] then w
    else
      var w1, key := DropAll(w, keys[..|keys| - 1]), keys[|keys| - 1];
      if key in w1.sessions then Disconnect(w1, w1.sessions[key].info.clientAddr) else w1
  }

  function Sweep<E>(w: World<E>, listing: seq<Addr>, now: int): World<E> {
    DropAll(w, Overdue(w, listing, now))
  }

  /** What the clients around a disconnected player, and its own, are sent. */
  ghost function DisconnectMail<E>(w: World<E>, a: Addr, ord: Order): seq<Sent>
    requires w.scene.WellFormed() && IsOrder(ord)
  {
    if Online(w, a) && PlayerOf(w, a) in w.scene.ents then
      var i := w.scene.ents[PlayerOf(w, a)];
      RemoveMail(w.scene.ix, w.scene.ents, w.scene.zoneSize, ord, i.zoneId, i.id)
    else []
  }

  lemma {:induction false} DropAllWellFormed<E>(w: World<E>, keys: seq<Addr>)
    requires w.scene.WellFormed()
    ensures DropAll(w, keys).scene.WellFormed() && DropAll(w, keys).scene.ents == w.scene.ents
    decreases |keys|
  {
    if keys != [] {
      var init, key := keys[..|keys| - 1], keys[|keys| - 1];
      DropAllWellFormed(w, init);
      var w1 := DropAll(w, init);
      if key in w1.sessions {
        var a := w1.sessions[key].info.clientAddr;
        if Online(w1, a) && PlayerOf(w1, a) in w1.scene.ents {
          var i := w1.scene.ents[PlayerOf(w1, a)];
          RemoveKeepsKnown(w1.scene.ix, w1.scene.ents, i.zoneId, i.id);
        }
      }
    }
  }

  /** What the second pass sends, one disconnect after the other. */
  ghost function SweepMail<E>(w: World<E>, keys: seq<Addr>, ord: Order): seq<Sent>
    requires w.scene.WellFormed() && IsOrder(ord)
  {
    if keys == [] then []
    else
      var init, key := keys[..|keys| - 1], keys[|keys| - 1];
      DropAllWellFormed(w, init);
      var w1 := DropAll(w, init);
      SweepMail(w, init, ord)
      + (if key in w1.sessions then DisconnectMail(w1, w1.sessions[key].info.clientAddr, ord) else [])
  }

  /** `w1` is `w` with exactly the players of the sessions in `gone` saved, un-filed and erased. */
  ghost predicate WithoutPlayers<E>(w: World<E>, w1: World<E>, gone: set<Addr>) {
    && w1.scene.ents == w.scene.ents && w1.scene.zoneSize == w.scene.zoneSize
    && (forall a :: a in w1.sessions <==> a in w.sessions && a !in gone)
    && (forall a :: a in w1.sessions ==> w1.sessions[a] == w.sessions[a])
    && (forall zone, id :: Filed(w1.scene.ix.entities, zone, id) <==>
          Filed(w.scene.ix.entities, zone, id) && !OwnedBy(w, zone, id, gone))
    && (forall zone, id :: Filed(w1.scene.ix.entities, zone, id) ==>
          w1.scene.ix.entities[zone][id] == w.scene.ix.entities[zone][id])
    && w1.db.Keys == w.db.Keys
    && (forall a :: a in gone && Online(w, a) && PlayerOf(w, a) in w.scene.ents ==>
          var i := w.scene.ents[PlayerOf(w, a)];
          i.id in w.db ==> w1.db[i.id] == Position(i.x, i.y, i.z))
    && (forall id :: id in w.db && !PlaysAny(w, id, gone) ==> w1.db[id] == w.db[id])
  }

  ghost predicate OwnedBy<E>(w: World<E>, zone: int, id: int, gone: set<Addr>)
    requires Filed(w.scene.ix.entities, zone, id)
  {
    exists a :: a in gone && Online(w, a) && w.scene.ix.entities[zone][id] == PlayerOf(w, a)
  }

  ghost predicate PlaysAny<E>(w: World<E>, id: int, gone: set<Addr>) {
    exists a :: a in gone && Online(w, a) && PlayerOf(w, a) in w.scene.ents && w.scene.ents[PlayerOf(w, a)].id == id
  }

  lemma DropOneMore<E>(w: World<E>, w1: World<E>, gone: set<Addr>, a: Addr)
    requires Inv(w) && Inv(w1) && WithoutPlayers(w, w1, gone)
    requires Online(w, a) && a !in gone
    ensures WithoutPlayers(w, Disconnect(w1, a), gone + {a})
  {
    assert SessionFiled(w, a) && SessionFiled(w1, a);
    var i, w2 := w.scene.ents[PlayerOf(w, a)], Disconnect(w1, a);
    EraseEntries(w1.scene.ix.entities, i.zoneId, i.id);
    forall zone, id | Filed(w.scene.ix.entities, zone, id)
      ensures OwnedBy(w, zone, id, gone + {a}) <==> OwnedBy(w, zone, id, gone) || (zone == i.zoneId && id == i.id)
    {
      FiledOnce(w, a, zone, id);
    }
    StoreOneMore(w, w1, gone, a);
  }

  lemma StoreOneMore<E>(w: World<E>, w1: World<E>, gone: set<Addr>, a: Addr)
    requires Inv(w) && WithoutPlayers(w, w1, gone)
    requires Online(w, a) && a !in gone && PlayerOf(w, a) in w.scene.ents
    ensures var i := w.scene.ents[PlayerOf(w, a)];
      var db2 := Saved(w1.db, i);
      && db2.Keys == w.db.Keys
      && (forall b :: b in gone + {a} && Online(w, b) && PlayerOf(w, b) in w.scene.ents ==>
            var j := w.scene.ents[PlayerOf(w, b)];
            j.id in w.db ==> db2[j.id] == Position(j.x, j.y, j.z))
      && (forall id :: id in w.db && !PlaysAny(w, id, gone + {a}) ==> db2[id] == w.db[id])
  {
    var i := w.scene.ents[PlayerOf(w, a)];
    forall b | b in gone && Online(w, b) && PlayerOf(w, b) in w.scene.ents
      ensures w.scene.ents[PlayerOf(w, b)].id != i.id
    {
      assert IdsDiffer(w, a, b);
    }
    forall id | id in w.db && !PlaysAny(w, id, gone + {a}) ensures !PlaysAny(w, id, gone) && id != i.id {
    }
  }

  /** The sessions among `keys` that hold a player. */
  function Playing<E>(w: World<E>, keys: seq<Addr>): set<Addr> {
    set a | a in keys && Online(w, a)
  }

  lemma {:induction false} DropAllExact<E>(w: World<E>, keys: seq<Addr>)
    requires Inv(w) && NoDuplicates(keys) && forall k :: k in keys ==> k in w.sessions
    ensures Inv(DropAll(w, keys)) && WithoutPlayers(w, DropAll(w, keys), Playing(w, keys))
    decreases |keys|
  {
    if keys != [] {
      var init, a := keys[..|keys| - 1], keys[|keys| - 1];
      assert keys == init + [a] && a !in init;
      DropAllExact(w, init);
      DropNext(w, DropAll(w, init), Playing(w, init), a);
      assert Playing(w, keys) == if Online(w, a) then Playing(w, init) + {a} else Playing(w, init);
    }
  }

  /** One more key of the second pass: a player goes, a session without one stays. */
  lemma DropNext<E>(w: World<E>, w1: World<E>, gone: set<Addr>, a: Addr)
    requires Inv(w) && Inv(w1) && WithoutPlayers(w, w1, gone) && a in w.sessions && a !in gone
    ensures a in w1.sessions
    ensures var w2 := Disconnect(w1, w1.sessions[a].info.clientAddr);
      Inv(w2) && WithoutPlayers(w, w2, if Online(w, a) then gone + {a} else gone)
  {
    assert SessionFiled(w, a) && IdleUnused(w, a);
    DisconnectInv(w1, w1.sessions[a].info.clientAddr);
    if Online(w, a) {
      DropOneMore(w, w1, gone, a);
    } else {
      assert w1.sessions - {NO_ADDR} == w1.sessions;
      assert Disconnect(w1, NO_ADDR) == w1;
    }
  }

  lemma {:induction false} OverdueMembers<E>(w: World<E>, listing: seq<Addr>, now: int)
    requires NoDuplicates(listing)
    ensures NoDuplicates(Overdue(w, listing, now))
    ensures forall a :: a in Overdue(w, listing, now) <==>
      a in listing && a in w.sessions && Expired(w.sessions[a].info, now)
    decreases |listing|
  {
    if listing != [] {
      var init, a := listing[..|listing| - 1], listing[|listing| - 1];
      assert listing == init + [a];
      assert a !in init;
      OverdueMembers(w, init, now);
    }
  }

  /** The sweep, in whatever order the session map is visited, saves, un-files and erases exactly
      the players of the sessions that are overdue and leaves everything else as it was. */
  lemma SweepExact<E>(w: World<E>, listing: seq<Addr>, now: int)
    requires Inv(w) && Enumerates(listing, w.sessions.Keys)
    ensures Inv(Sweep(w, listing, now))
    ensures WithoutPlayers(w, Sweep(w, listing, now), set a | a in w.sessions && Online(w, a) && Expired(w.sessions[a].info, now))
  {
    OverdueMembers(w, listing, now);
    DropAllExact(w, Overdue(w, listing, now));
    assert Playing(w, Overdue(w, listing, now)) == set a | a in w.sessions && Online(w, a) && Expired(w.sessions[a].info, now);
  }

  /** A swept player who reconnects is back at the same place in the same zone exactly when the
      character has a row, or was standing at the origin anyway. */
  lemma ReloadAfterSweep<E>(w: World<E>, listing: seq<Addr>, now: int, a: Addr, b: Addr)
    requires Inv(w) && Enumerates(listing, w.sessions.Keys)
    requires Online(w, a) && Expired(w.sessions[a].info, now) && PlayerOf(w, a) in w.scene.ents
    ensures var i := w.scene.ents[PlayerOf(w, a)];
      Sweep(w, listing, now).scene.zoneSize > 0
      && (Loaded(Sweep(w, listing, now), i.id, b) == i.(session := Some(b))
          <==> i.id in w.db || (i.x == 0.0 && i.y == 0.0 && i.z == 0.0))
  {
    SweepExact(w, listing, now);
    assert SessionFiled(w, a);
  }

  // ----- runs -----

  datatype Event<E> =
    | Connect(from: Addr, reply: Option<Fields>, key: string, now: int, e: E)
    | Move(from: Addr, x: real, y: real, z: real)
    | Heartbeat(from: Addr, now: int)
    | Other(from: Addr)
    | Timeout(listing: seq<Addr>, now: int)

  function Step<E>(w: World<E>, ev: Event<E>): World<E>
    requires w.scene.zoneSize > 0
  {
    match ev
    case Connect(a, reply, key, now, e) =>
      if reply.Some? then ConnectAccepted(w, a, reply.value, key, now, e) else ConnectRefused(Touch(w, a), a)
    case Move(a, x, y, z) => MovePlayer(w, a, x, y, z)
    case Heartbeat(a, now) => Beat(w, a, now)
    case Other(a) => Touch(w, a)
    case Timeout(listing, now) => Sweep(w, listing, now)
  }

  /** What is true of every event: packets come from real endpoints, a connect allocates a new
      player, and the sweep visits each session once. */
  ghost predicate Genuine<E>(w: World<E>, ev: Event<E>) {
    match ev
    case Connect(a, reply, key, now, e) => a != NO_ADDR && e !in w.scene.ents
    case Move(a, x, y, z) => a != NO_ADDR
    case Heartbeat(a, now) => true
    case Other(a) => a != NO_ADDR
    case Timeout(listing, now) => Enumerates(listing, w.sessions.Keys)
  }

  /** An accepted connect fits, and a refused one drops no player. */
  ghost predicate Fitting<E>(w: World<E>, ev: Event<E>)
    requires w.scene.zoneSize > 0
  {
    ev.Connect? ==>
      if ev.reply.Some? then ConnectFits(w, ev.from, Newcomer(w, ev.from, ev.reply.value)) else !Online(w, ev.from)
  }

  /** The events that keep the world invariant (`StepInvIff`). */
  ghost predicate Admissible<E>(w: World<E>, ev: Event<E>)
    requires w.scene.zoneSize > 0
  {
    Genuine(w, ev) && Fitting(w, ev)
  }

  function Start<E>(zoneSize: int, db: map<int, Position>): World<E> {
    World(Scene(EmptyIndex(), map[], zoneSize), map[], db)
  }

  /** One event keeps the world invariant exactly when it is no connect that does not fit. */
  lemma StepInvIff<E>(w: World<E>, ev: Event<E>)
    requires Inv(w) && Genuine(w, ev)
    ensures Inv(Step(w, ev)) <==> Fitting(w, ev)
  {
    match ev
    case Connect(a, reply, key, now, e) =>
      if reply.Some? {
        ConnectKeepsInvIff(w, a, reply.value, key, now, e);
      } else {
        TouchInv(w, a);
        RefusalKeepsInvIff(Touch(w, a), a);
      }
    case Move(a, x, y, z) => MovePlayerInv(w, a, x, y, z);
    case Heartbeat(a, now) => BeatInv(w, a, now);
    case Other(a) => TouchInv(w, a);
    case Timeout(listing, now) => SweepExact(w, listing, now);
  }

  lemma StepInv<E>(w: World<E>, ev: Event<E>)
    requires Inv(w) && Admissible(w, ev)
    ensures Inv(Step(w, ev))
  {
    StepInvIff(w, ev);
  }

  ghost predicate GenuineRun<E>(w: World<E>, evs: seq<Event<E>>)
    decreases |evs|
  {
    evs == [] || (w.scene.zoneSize > 0 && Genuine(w, evs[0]) && GenuineRun(Step(w, evs[0]), evs[1..]))
  }

  ghost predicate FittingRun<E>(w: World<E>, evs: seq<Event<E>>)
    decreases |evs|
  {
    evs == [] || (w.scene.zoneSize > 0 && Fitting(w, evs[0]) && FittingRun(Step(w, evs[0]), evs[1..]))
  }

  /** The world invariant holds in every world of the run. */
  ghost predicate AlwaysInv<E>(w: World<E>, evs: seq<Event<E>>)
    decreases |evs|
  {
    Inv(w) && (evs == [] || AlwaysInv(Step(w, evs[0]), evs[1..]))
  }

  /** Over every run, in any interleaving of the endpoints: the world invariant holds throughout
      exactly when every accepted connect in it fits and no refused one drops a player. */
  lemma {:induction false} RunsKeepInvIff<E>(w: World<E>, evs: seq<Event<E>>)
    requires Inv(w) && GenuineRun(w, evs)
    ensures AlwaysInv(w, evs) <==> FittingRun(w, evs)
    decreases |evs|
  {
    if evs != [] {
      StepInvIff(w, evs[0]);
      if Fitting(w, evs[0]) {
        RunsKeepInvIff(Step(w, evs[0]), evs[1..]);
      }
    }
  }

  /** A run: each event admissible in the world the earlier ones led to. */
  ghost predicate Reaches<E>(w: World<E>, evs: seq<Event<E>>, w1: World<E>)
    decreases |evs|
  {
    if evs == [] then w1 == w
    else
      && w.scene.zoneSize > 0 && Admissible(w, evs[0]) && Reaches(Step(w, evs[0]), evs[1..], w1)
  }

  /** The world invariant holds in every world any admissible run reaches. */
  lemma {:induction false} RunsKeepInv<E>(w: World<E>, evs: seq<Event<E>>, w1: World<E>)
    requires Inv(w) && Reaches(w, evs, w1)
    ensures Inv(w1)
    decreases |evs|
  {
    if evs != [] {
      StepInv(w, evs[0]);
      RunsKeepInv(Step(w, evs[0]), evs[1..], w1);
    }
  }

  ghost predicate Reachable<E(!new)>(w: World<E>, w1: World<E>) {
    exists evs :: Reaches(w, evs, w1)
  }

  lemma ReachableSelf<E(!new)>(w: World<E>)
    ensures Reachable(w, w)
  {
    assert Reaches(w, [], w);
  }

  lemma ReachableStep<E(!new)>(w: World<E>, w1: World<E>, ev: Event<E>, w2: World<E>)
    requires Reachable(w, w1) && w1.scene.zoneSize > 0 && Admissible(w1, ev) && w2 == Step(w1, ev)
    ensures Reachable(w, w2)
  {
    var evs :| Reaches(w, evs, w1);
    ReachesOneMore(w, evs, w1, ev, w2);
  }

  lemma {:induction false} ReachesOneMore<E>(w: World<E>, evs: seq<Event<E>>, w1: World<E>, ev: Event<E>, w2: World<E>)
    requires Reaches(w, evs, w1) && w1.scene.zoneSize > 0 && Admissible(w1, ev) && w2 == Step(w1, ev)
    ensures Reaches(w, evs + [ev], w2)
    decreases |evs|
  {
    if evs == [] {
      assert [ev][1..] == [];
    } else {
      assert (evs + [ev])[1..] == evs[1..] + [ev];
      ReachesOneMore(Step(w, evs[0]), evs[1..], w1, ev, w2);
    }
  }

  lemma StartInv<E>(zoneSize: int, db: map<int, Position>)
    requires zoneSize > 0
    ensures Inv<E>(Start(zoneSize, db))
  {
  }

  // ----- the zone size -----

  function Resized<E>(w: World<E>, zoneSize: int): World<E> {
    w.(scene := w.scene.(zoneSize := zoneSize))
  }

  /** Setting another zone size keeps the invariant exactly when every online player already is in
      the zone that the new size gives its position; before the first connect that is every size. */
  lemma ResizeKeepsInvIff<E>(w: World<E>, zoneSize: int)
    requires Inv(w) && zoneSize > 0
    ensures Inv(Resized(w, zoneSize)) <==>
      forall a :: Online(w, a) && PlayerOf(w, a) in w.scene.ents ==> InPlace(w, a, zoneSize)
  {
    var w1 := Resized(w, zoneSize);
    if forall a :: Online(w, a) && PlayerOf(w, a) in w.scene.ents ==> InPlace(w, a, zoneSize) {
      forall a ensures SessionFiled(w1, a) && IdleUnused(w1, a) {
        assert SessionFiled(w, a) && IdleUnused(w, a);
      }
      forall zone, id ensures EntryOwned(w1, zone, id) {
        assert EntryOwned(w, zone, id);
      }
      forall a, b ensures IdsDiffer(w1, a, b) {
        assert IdsDiffer(w, a, b);
      }
    } else {
      var a :| Online(w, a) && PlayerOf(w, a) in w.scene.ents && !InPlace(w, a, zoneSize);
      assert !SessionFiled(w1, a);
    }
  }

  predicate InPlace<E>(w: World<E>, a: Addr, zoneSize: int)
    requires Online(w, a) && PlayerOf(w, a) in w.scene.ents && zoneSize > 0
  {
    var i := w.scene.ents[PlayerOf(w, a)];
    i.zoneId == ZoneIdAt(i.x, i.y, zoneSize)
  }

  // ----- conservation -----

  function Players<E>(w: World<E>): set<Addr> {
    set a | a in w.sessions && Online(w, a)
  }

  lemma FiledHasOwner<E>(w: World<E>, zone: int, id: int) returns (a: Addr)
    requires Inv(w) && Filed(w.scene.ix.entities, zone, id)
    ensures a in Players(w) && PlayerOf(w, a) == w.scene.ix.entities[zone][id]
  {
    assert EntryOwned(w, zone, id);
    a := w.scene.ents[w.scene.ix.entities[zone][id]].session.value;
  }

  lemma EraseDropsOneEntry<E>(b: Buckets<E>, zone: int, id: int)
    requires Filed(b, zone, id)
    ensures |Entries(b)| == |Entries(Erase(b, zone, id))| + 1
  {
    EraseEntries(b, zone, id);
    var b1, here := Erase(b, zone, id), (zone, id);
    forall p | p in Entries(b) ensures p in Entries(b1) + {here} {
      assert p != here ==> Filed(b1, p.0, p.1);
    }
    assert Entries(b) == Entries(b1) + {here};
    assert here !in Entries(b1);
  }

  lemma NobodyOnline<E>(w: World<E>)
    requires Inv(w) && Players(w) == {}
    ensures Entries(w.scene.ix.entities) == {}
  {
    if Entries(w.scene.ix.entities) != {} {
      var p := Member(Entries(w.scene.ix.entities));
      var a := FiledHasOwner(w, p.0, p.1);
    }
  }

  /** The index holds exactly one entry per online player. */
  lemma {:induction false} EntriesAreOnline<E>(w: World<E>)
    requires Inv(w)
    ensures |Entries(w.scene.ix.entities)| == |Players(w)|
    decreases |Players(w)|
  {
    if Players(w) == {} {
      NobodyOnline(w);
    } else {
      var a := Member(Players(w));
      var w1 := Disconnect(w, a);
      assert SessionFiled(w, a);
      var i := w.scene.ents[PlayerOf(w, a)];
      DisconnectInv(w, a);
      assert Players(w1) == Players(w) - {a};
      EntriesAreOnline(w1);
      EraseDropsOneEntry(w.scene.ix.entities, i.zoneId, i.id);
    }
  }

  /** The ids filed in a zone under an entity that is a player. */
  ghost function PlayersIn<E>(w: World<E>, zone: int): set<int> {
    set i | i in Bucket(w.scene.ix.entities, zone)
      && w.scene.ix.entities[zone][i] in w.scene.ents && w.scene.ents[w.scene.ix.entities[zone][i]].kind == PLAYER
  }

  lemma ZoneCountsPlayers<E>(w: World<E>, zone: int)
    requires Inv(w)
    ensures |Bucket(w.scene.ix.players, zone)| == |PlayersIn(w, zone)|
  {
    var bucket := Bucket(w.scene.ix.players, zone);
    forall i ensures i in bucket.Keys <==> i in PlayersIn(w, zone) {
      if i in bucket {
        assert EntryOwned(w, zone, i);
        assert SessionFiled(w, w.scene.ents[bucket[i]].session.value);
      }
    }
    assert bucket.Keys == PlayersIn(w, zone) && |bucket| == |bucket.Keys|;
  }

  /** The zone summary conserves players: the player count of each zone is the number of its
      entities that are players and, whatever the order of the rows, entity counts and player counts
      each sum to the number of online players. */
  lemma SummaryCountsOnline<E>(w: World<E>, zones: seq<int>)
    requires Inv(w) && Enumerates(zones, w.scene.ix.entities.Keys)
    ensures forall zone :: |Bucket(w.scene.ix.players, zone)| == |PlayersIn(w, zone)|
    ensures SumOf(Sizes(w.scene.ix.entities, zones)) == |Players(w)|
    ensures SumOf(Sizes(w.scene.ix.players, zones)) == |Players(w)|
  {
    forall zone ensures |Bucket(w.scene.ix.players, zone)| == |PlayersIn(w, zone)| {
      ZoneCountsPlayers(w, zone);
    }
    SizesSumToEntries(w.scene.ix.entities, zones, w.scene.ix.entities.Keys);
    EntriesAreOnline(w);
  }
}
