/** What the players' clients hold after the server's packets have been replayed through their tables. */
module View {
  import opened Prelude
  import opened Grid
  import opened ZoneIndex
  import opened Broadcast
  import opened World
  import opened Reach
  import T = EntityTable

  /** One client: the character it selected and its entity tables. */
  datatype Client = Client(selected: int, t: T.Tables)

  type Clients = map<Addr, Client>

  /** HandleGamePacket: of the spawns only the player's is handled, and the client ignores the
      position of its own character. */
  function Receive(c: Client, p: Packet): Client {
    match p
    case Spawn(kind, id, shard, x, y, z) =>
      if kind == PLAYER then c.(t := T.PlayerSpawned(c.t, id, shard, T.Location(x, y, z))) else c
    case Despawn(id) => c.(t := T.Despawned(c.t, id))
    case Moved(id, _, _, x, y, z) =>
      if id == c.selected then c else c.(t := T.Relocated(c.t, id, T.Location(x, y, z)))
  }

  /** The game packets of one client, handed on to its entity tables. */
  class GameClient {
    const manager: T.NetworkedEntityManager
    var SelectedCharacterId: int

    ghost function Value(): Client
      reads this, manager
    {
      Client(SelectedCharacterId, manager.Contents())
    }

    constructor (selected: int)
      ensures Value() == Client(selected, T.EMPTY_TABLES) && fresh(manager)
    {
      manager := new T.NetworkedEntityManager();
      SelectedCharacterId := selected;
    }

    method HandleGamePacket(p: Packet)
      modifies manager
      ensures Value() == Receive(old(Value()), p)
    {
      match p
      case Spawn(kind, id, shard, x, y, z) =>
        if kind == PLAYER {
          manager.SpawnPlayerEntity(id, shard, T.Location(x, y, z));
        }
      case Despawn(id) =>
        manager.DespawnEntity(id);
      case Moved(id, _, _, x, y, z) =>
        if id != SelectedCharacterId {
          manager.MoveEntity(id, T.Location(x, y, z));
        }
    }
  }

  function Lookup(c: Client, id: int): Option<T.EntityInfo> {
    if id in c.t.entities then Some(c.t.entities[id]) else None
  }

  /** Every packet reaches the client it is addressed to, in order. */
  function Deliver(cs: Clients, mail: seq<Sent>): Clients {
    if mail == [] then cs
    else
      var cs1, s := Deliver(cs, mail[..|mail| - 1]), mail[|mail| - 1];
      if s.to in cs1 then cs1[s.to := Receive(cs1[s.to], s.packet)] else cs1
  }

  lemma {:induction false} DeliverAppend(cs: Clients, m1: seq<Sent>, m2: seq<Sent>)
    ensures Deliver(cs, m1 + m2) == Deliver(Deliver(cs, m1), m2)
    decreases |m2|
  {
    if m2 == [] {
      assert m1 + m2 == m1;
    } else {
      assert (m1 + m2)[..|m1 + m2| - 1] == m1 + m2[..|m2| - 1];
      DeliverAppend(cs, m1, m2[..|m2| - 1]);
    }
  }

  // ----- one entry of one client -----

  /** What a packet does to the entry of `id`. */
  function Effect(selected: int, p: Packet, id: int, was: Option<T.EntityInfo>): Option<T.EntityInfo> {
    if p.id != id then was
    else
      match p
      case Spawn(kind, _, shard, x, y, z) =>
        if kind != PLAYER then was
        else if was.Some? then Some(was.value.(at := T.Location(x, y, z)))
        else Some(T.EntityInfo(id, PLAYER, shard, T.Location(x, y, z)))
      case Despawn(_) => None
      case Moved(_, _, _, x, y, z) =>
        if id == selected || was.None? then was else Some(was.value.(at := T.Location(x, y, z)))
  }

  function Fate(selected: int, mail: seq<Sent>, to: Addr, id: int, was: Option<T.EntityInfo>): Option<T.EntityInfo> {
    if mail == [] then was
    else
      var mid, s := Fate(selected, mail[..|mail| - 1], to, id, was), mail[|mail| - 1];
      if s.to == to then Effect(selected, s.packet, id, mid) else mid
  }

  lemma ReceiveLookup(c: Client, p: Packet, id: int)
    ensures Receive(c, p).selected == c.selected
    ensures Lookup(Receive(c, p), id) == Effect(c.selected, p, id, Lookup(c, id))
  {
  }

  lemma {:induction false} DeliverLookup(cs: Clients, mail: seq<Sent>, a: Addr, id: int)
    requires a in cs
    ensures a in Deliver(cs, mail) && Deliver(cs, mail)[a].selected == cs[a].selected
    ensures Lookup(Deliver(cs, mail)[a], id) == Fate(cs[a].selected, mail, a, id, Lookup(cs[a], id))
    decreases |mail|
  {
    if mail != [] {
      var init, s := mail[..|mail| - 1], mail[|mail| - 1];
      DeliverLookup(cs, init, a, id);
      ReceiveLookup(Deliver(cs, init)[a], s.packet, id);
    }
  }

  lemma {:induction false} FateAppend(selected: int, m1: seq<Sent>, m2: seq<Sent>, to: Addr, id: int, was: Option<T.EntityInfo>)
    ensures Fate(selected, m1 + m2, to, id, was) == Fate(selected, m2, to, id, Fate(selected, m1, to, id, was))
    decreases |m2|
  {
    if m2 == [] {
      assert m1 + m2 == m1;
    } else {
      assert (m1 + m2)[..|m1 + m2| - 1] == m1 + m2[..|m2| - 1];
      FateAppend(selected, m1, m2[..|m2| - 1], to, id, was);
    }
  }

  /** Of the arrivals only players are shown; a position is taken for a known entity other than the client's
      own character, and a removal for any. */
  lemma ReceiveShows(c: Client, kind: Kind, id: int, shard: int, x: real, y: real, z: real)
    ensures kind != PLAYER ==> Receive(c, Spawn(kind, id, shard, x, y, z)) == c
    ensures var was := Lookup(Receive(c, Spawn(PLAYER, id, shard, x, y, z)), id);
      was.Some? && was.value.at == T.Location(x, y, z) && (Lookup(c, id) == None ==> was.value == T.EntityInfo(id, PLAYER, shard, T.Location(x, y, z)))
    ensures Receive(c, Moved(c.selected, kind, shard, x, y, z)) == c
    ensures id != c.selected && Lookup(c, id).Some? ==>
      Lookup(Receive(c, Moved(id, kind, shard, x, y, z)), id) == Some(Lookup(c, id).value.(at := T.Location(x, y, z)))
    ensures Lookup(c, id) == None ==> Receive(c, Moved(id, kind, shard, x, y, z)) == c
    ensures Lookup(Receive(c, Despawn(id)), id) == None
  {
  }

  /** Repeating a packet changes nothing. */
  lemma EffectIdempotent(selected: int, p: Packet, id: int, was: Option<T.EntityInfo>)
    ensures Effect(selected, p, id, Effect(selected, p, id, was)) == Effect(selected, p, id, was)
  {
  }

  /** When all packets for one client about one id are the same packet, it counts once: neither
      duplicates nor the order of the mail matter. */
  lemma {:induction false} FateUniform(selected: int, mail: seq<Sent>, to: Addr, id: int, p: Packet, was: Option<T.EntityInfo>)
    requires forall s :: s in mail && s.to == to && s.packet.id == id ==> s.packet == p
    ensures Fate(selected, mail, to, id, was) == if Sent(to, p) in mail && p.id == id then Effect(selected, p, id, was) else was
    decreases |mail|
  {
    if mail != [] {
      var init, s := mail[..|mail| - 1], mail[|mail| - 1];
      assert mail == init + [s];
      FateUniform(selected, init, to, id, p, was);
      EffectIdempotent(selected, p, id, was);
    }
  }

  // ----- the phases of a crossing, a join and a leave -----

  predicate Around(zone: int, x: real, y: real, zoneSize: int)
    requires zoneSize > 0
  {
    zone in Block(Cell(x, zoneSize), Cell(y, zoneSize))
  }

  ghost predicate FiledAround<E>(w: World<E>, id: int, x: real, y: real)
    requires w.scene.zoneSize > 0
  {
    exists zone :: Filed(w.scene.ix.entities, zone, id) && Around(zone, x, y, w.scene.zoneSize)
  }

  function InfoOf<E>(w: World<E>, a: Addr): Info
    requires Online(w, a) && PlayerOf(w, a) in w.scene.ents
  {
    w.scene.ents[PlayerOf(w, a)]
  }

  /** Removal mail while the player stands at (x, y), wherever it is filed. */
  function LeaveMail<E>(w: World<E>, a: Addr, x: real, y: real, z: real, ord: Order): seq<Sent>
    requires w.scene.WellFormed() && IsOrder(ord) && Online(w, a) && PlayerOf(w, a) in w.scene.ents
  {
    var i, sc1 := InfoOf(w, a), PlaceScene(w.scene, PlayerOf(w, a), x, y, z);
    RemoveMail(sc1.ix, sc1.ents, sc1.zoneSize, ord, i.zoneId, i.id)
  }

  lemma RemovalZonesAround<E>(w: World<E>, a: Addr, x: real, y: real, z: real, zone: int, id: int)
    requires Inv(w) && Online(w, a) && PlayerOf(w, a) in w.scene.ents && Known(w.scene.ix.entities, w.scene.ents)
    ensures var i, sc1 := InfoOf(w, a), PlaceScene(w.scene, PlayerOf(w, a), x, y, z);
      && (zone in RemovalZones(sc1.ix.entities, sc1.ents, sc1.zoneSize, i.zoneId, i.id) ==> Around(zone, x, y, w.scene.zoneSize))
      && (Filed(w.scene.ix.entities, zone, id) && id != i.id && Around(zone, x, y, w.scene.zoneSize) ==>
            zone in RemovalZones(sc1.ix.entities, sc1.ents, sc1.zoneSize, i.zoneId, i.id))
  {
    assert SessionFiled(w, a);
    var i := InfoOf(w, a);
    EraseEntries(w.scene.ix.entities, i.zoneId, i.id);
    NearbyMembers(Erase(w.scene.ix.entities, i.zoneId, i.id), x, y, w.scene.zoneSize);
    if Filed(w.scene.ix.entities, zone, id) && id != i.id {
      assert Filed(Erase(w.scene.ix.entities, i.zoneId, i.id), zone, id);
    }
  }

  /** Another player hears of a removal exactly when it is filed around the removed player's position. */
  lemma LeaveFateOther<E>(w: World<E>, a: Addr, x: real, y: real, z: real, ord: Order, b: Addr, sel: int, k: int, was: Option<T.EntityInfo>)
    requires Inv(w) && IsOrder(ord) && Online(w, a) && Online(w, b) && a != b
    ensures w.scene.WellFormed() && PlayerOf(w, a) in w.scene.ents && PlayerOf(w, b) in w.scene.ents
    ensures Fate(sel, LeaveMail(w, a, x, y, z, ord), b, k, was)
         == if k == InfoOf(w, a).id && Around(InfoOf(w, b).zoneId, x, y, w.scene.zoneSize) then None else was
  {
    InvWellFormed(w);
    assert SessionFiled(w, a) && SessionFiled(w, b) && IdsDiffer(w, a, b);
    var i, j, sc1, mail := InfoOf(w, a), InfoOf(w, b), PlaceScene(w.scene, PlayerOf(w, a), x, y, z), LeaveMail(w, a, x, y, z, ord);
    forall s | s in mail && s.to == b ensures s.packet == Despawn(i.id) && Around(j.zoneId, x, y, w.scene.zoneSize) {
      var batch, zone, id := RemoveMailSound(sc1.ix, sc1.ents, sc1.zoneSize, ord, i.zoneId, i.id, s);
      assert EntryOwned(w, zone, id);
      FiledOnce(w, b, zone, id);
      RemovalZonesAround(w, a, x, y, z, zone, id);
    }
    if Around(j.zoneId, x, y, w.scene.zoneSize) {
      RemovalZonesAround(w, a, x, y, z, j.zoneId, j.id);
      RemoveMailTells(sc1.ix, sc1.ents, sc1.zoneSize, ord, i.zoneId, i.id, j.zoneId, j.id, b);
    }
    FateUniform(sel, mail, b, k, Despawn(i.id), was);
  }

  lemma RemoveMailTells<E>(ix: Index<E>, ents: map<E, Info>, zoneSize: int, ord: Order, zone: int, id: int, z: int, k: int, b: Addr)
    requires zoneSize > 0 && IsOrder(ord) && Known(ix.entities, ents) && Known(ix.players, ents)
    requires z in RemovalZones(ix.entities, ents, zoneSize, zone, id) && !(z == zone && k == id)
    requires Filed(ix.players, z, k) && ents[ix.players[z][k]].session == Some(b)
    requires OwnerOf(ix.players, ents, zone, id) != Some(b)
    ensures Sent(b, Despawn(id)) in RemoveMail(ix, ents, zoneSize, ord, zone, id)
  {
    RemoveKeepsKnown(ix, ents, zone, id);
    EraseEntries(ix.players, zone, id);
    var zones, owner, ix1 := RemovalZones(ix.entities, ents, zoneSize, zone, id), OwnerOf(ix.players, ents, zone, id), Remove(ix, zone, id);
    MailComplete(zones, ix1.players, ents, DESPAWN, ord, Tell(Despawn(id), owner), Sent(b, Despawn(id)), z, k);
  }

  lemma RemoveMailHides<E>(ix: Index<E>, ents: map<E, Info>, zoneSize: int, ord: Order, zone: int, id: int, z: int, k: int, a: Addr)
    requires zoneSize > 0 && IsOrder(ord) && Known(ix.entities, ents) && Known(ix.players, ents)
    requires z in RemovalZones(ix.entities, ents, zoneSize, zone, id) && k != id
    requires Filed(ix.entities, z, k) && ents[ix.entities[z][k]].id == k
    requires OwnerOf(ix.players, ents, zone, id) == Some(a)
    ensures Sent(a, Despawn(k)) in RemoveMail(ix, ents, zoneSize, ord, zone, id)
  {
    RemoveKeepsKnown(ix, ents, zone, id);
    EraseEntries(ix.entities, zone, id);
    var zones, ix1 := RemovalZones(ix.entities, ents, zoneSize, zone, id), Remove(ix, zone, id);
    MailComplete(zones, ix1.entities, ents, BATCH_DESPAWN, ord, Hide(a, id), Sent(a, Despawn(k)), z, k);
  }

  /** The removed player itself is told to drop exactly the others filed around its position. */
  lemma LeaveFateSelf<E>(w: World<E>, a: Addr, x: real, y: real, z: real, ord: Order, sel: int, k: int, was: Option<T.EntityInfo>)
    requires Inv(w) && IsOrder(ord) && Online(w, a)
    ensures w.scene.WellFormed() && PlayerOf(w, a) in w.scene.ents
    ensures Fate(sel, LeaveMail(w, a, x, y, z, ord), a, k, was)
         == if k != InfoOf(w, a).id && FiledAround(w, k, x, y) then None else was
  {
    InvWellFormed(w);
    assert SessionFiled(w, a);
    var i, sc1, mail := InfoOf(w, a), PlaceScene(w.scene, PlayerOf(w, a), x, y, z), LeaveMail(w, a, x, y, z, ord);
    assert OwnerOf(sc1.ix.players, sc1.ents, i.zoneId, i.id) == Some(a);
    forall s | s in mail && s.to == a && s.packet.id == k
      ensures s.packet == Despawn(k) && k != i.id && FiledAround(w, k, x, y)
    {
      var batch, zone, id := RemoveMailSound(sc1.ix, sc1.ents, sc1.zoneSize, ord, i.zoneId, i.id, s);
      assert EntryOwned(w, zone, id);
      FiledOnce(w, a, zone, id);
      RemovalZonesAround(w, a, x, y, z, zone, id);
    }
    if k != i.id && FiledAround(w, k, x, y) {
      var zone :| Filed(w.scene.ix.entities, zone, k) && Around(zone, x, y, w.scene.zoneSize);
      assert EntryOwned(w, zone, k);
      FiledOnce(w, a, zone, k);
      RemovalZonesAround(w, a, x, y, z, zone, k);
      RemoveMailHides(sc1.ix, sc1.ents, sc1.zoneSize, ord, i.zoneId, i.id, zone, k, a);
    }
    FateUniform(sel, mail, a, k, Despawn(k), was);
  }

  // ----- arriving -----

  /** The entities as they are while `e` is being announced: its zone field may still be the old one. */
  ghost predicate SameButZone<E>(ents: map<E, Info>, now: map<E, Info>, e: E) {
    && ents.Keys == now.Keys && e in now
    && (forall f :: f in now && f != e ==> ents[f] == now[f])
    && ents[e] == now[e].(zoneId := ents[e].zoneId)
  }

  /** Announcing the player of session `a`, filed in its zone, to the world `w` around it. */
  function JoinMail<E>(w: World<E>, a: Addr, ents: map<E, Info>, ord: Order): seq<Sent>
    requires w.scene.WellFormed() && IsOrder(ord) && Online(w, a) && PlayerOf(w, a) in ents && PlayerOf(w, a) in w.scene.ents
    requires Known(w.scene.ix.entities, ents) && Known(w.scene.ix.players, ents)
  {
    AddMail(w.scene.ix, ents, w.scene.zoneSize, ord, InfoOf(w, a).zoneId, ents[PlayerOf(w, a)])
  }

  lemma OwnZoneNear<E>(w: World<E>, a: Addr)
    requires Inv(w) && Online(w, a)
    ensures PlayerOf(w, a) in w.scene.ents
    ensures Around(InfoOf(w, a).zoneId, InfoOf(w, a).x, InfoOf(w, a).y, w.scene.zoneSize)
    ensures InfoOf(w, a).zoneId in Nearby(w.scene.ix.entities, InfoOf(w, a).x, InfoOf(w, a).y, w.scene.zoneSize)
  {
    assert SessionFiled(w, a);
    var i := InfoOf(w, a);
    OwnCellInBlock(Cell(i.x, w.scene.zoneSize), Cell(i.y, w.scene.zoneSize));
    NearbyMembers(w.scene.ix.entities, i.x, i.y, w.scene.zoneSize);
  }

  /** Another player hears of an arrival exactly when it is filed around the newcomer. */
  lemma JoinFateOther<E>(w: World<E>, a: Addr, ents: map<E, Info>, ord: Order, b: Addr, sel: int, k: int, was: Option<T.EntityInfo>)
    requires Inv(w) && IsOrder(ord) && Online(w, a) && Online(w, b) && a != b
    requires SameButZone(ents, w.scene.ents, PlayerOf(w, a))
    ensures w.scene.WellFormed() && PlayerOf(w, b) in w.scene.ents
    ensures Known(w.scene.ix.entities, ents) && Known(w.scene.ix.players, ents)
    ensures var i := InfoOf(w, a);
      Fate(sel, JoinMail(w, a, ents, ord), b, k, was)
      == if k == i.id && Around(InfoOf(w, b).zoneId, i.x, i.y, w.scene.zoneSize) then Effect(sel, SpawnOf(i, i.zoneId), k, was) else was
  {
    InvWellFormed(w);
    assert SessionFiled(w, a) && SessionFiled(w, b) && IdsDiffer(w, a, b);
    var i, j, sc := InfoOf(w, a), InfoOf(w, b), w.scene;
    assert Known(sc.ix.entities, ents) && Known(sc.ix.players, ents);
    var i1, mail, zones := ents[PlayerOf(w, a)], JoinMail(w, a, ents, ord), Nearby(sc.ix.entities, i.x, i.y, sc.zoneSize);
    NearbyMembers(sc.ix.entities, i.x, i.y, sc.zoneSize);
    forall s | s in mail && s.to == b ensures s.packet == SpawnOf(i, i.zoneId) && Around(j.zoneId, i.x, i.y, sc.zoneSize) {
      var told, zone, id := ArrivalSound(zones, sc.ix, ents, ord, i.zoneId, i1, s);
      assert EntryOwned(w, zone, id);
      FiledOnce(w, b, zone, id);
    }
    if Around(j.zoneId, i.x, i.y, sc.zoneSize) {
      ArrivalTells(zones, sc.ix, ents, ord, i.zoneId, i1, Sent(b, SpawnOf(i, i.zoneId)), j.zoneId, j.id);
    }
    FateUniform(sel, mail, b, k, SpawnOf(i, i.zoneId), was);
  }

  /** The newcomer is shown itself and the players of the zone it was filed in, and nobody else. */
  lemma JoinFateSelf<E>(w: World<E>, a: Addr, ents: map<E, Info>, ord: Order, sel: int, k: int, was: Option<T.EntityInfo>)
    requires Inv(w) && IsOrder(ord) && Online(w, a)
    requires SameButZone(ents, w.scene.ents, PlayerOf(w, a))
    ensures w.scene.WellFormed() && Known(w.scene.ix.entities, ents) && Known(w.scene.ix.players, ents)
    ensures var i := InfoOf(w, a);
      Fate(sel, JoinMail(w, a, ents, ord), a, k, was)
      == if Filed(w.scene.ix.entities, i.zoneId, k)
         then Effect(sel, SpawnOf(w.scene.ents[w.scene.ix.entities[i.zoneId][k]], i.zoneId), k, was) else was
  {
    InvWellFormed(w);
    assert SessionFiled(w, a);
    var i, sc := InfoOf(w, a), w.scene;
    assert Known(sc.ix.entities, ents) && Known(sc.ix.players, ents);
    var i1, mail, zones := ents[PlayerOf(w, a)], JoinMail(w, a, ents, ord), Nearby(sc.ix.entities, i.x, i.y, sc.zoneSize);
    NearbyMembers(sc.ix.entities, i.x, i.y, sc.zoneSize);
    OwnZoneNear(w, a);
    var zone := i.zoneId;
    forall s | s in mail && s.to == a && s.packet.id == k
      ensures Filed(sc.ix.entities, zone, k) && s.packet == SpawnOf(sc.ents[sc.ix.entities[zone][k]], zone)
    {
      var told, at, id := ArrivalSound(zones, sc.ix, ents, ord, zone, i1, s);
      assert EntryOwned(w, at, id);
      FiledOnce(w, a, at, id);
    }
    if Filed(sc.ix.entities, zone, k) {
      assert EntryOwned(w, zone, k);
      FiledOnce(w, a, zone, k);
      var p := SpawnOf(sc.ents[sc.ix.entities[zone][k]], zone);
      if k == i.id {
        ArrivalTells(zones, sc.ix, ents, ord, zone, i1, Sent(a, p), zone, k);
      } else {
        ArrivalShows(zones, sc.ix, ents, ord, zone, i1, Sent(a, p), k);
      }
      FateUniform(sel, mail, a, k, p, was);
    } else {
      FateUniform(sel, mail, a, k, Despawn(k), was);
    }
  }

  // ----- telling a position -----

  lemma TellFate<E>(w: World<E>, a: Addr, ord: Order, b: Addr, sel: int, k: int, was: Option<T.EntityInfo>)
    requires Inv(w) && IsOrder(ord) && Online(w, a) && Online(w, b)
    ensures w.scene.WellFormed() && PlayerOf(w, a) in w.scene.ents && PlayerOf(w, b) in w.scene.ents
    ensures var i := InfoOf(w, a);
      Fate(sel, TellMail(w.scene, ord, PlayerOf(w, a)), b, k, was)
      == if k == i.id && Around(InfoOf(w, b).zoneId, i.x, i.y, w.scene.zoneSize) then Effect(sel, MoveOf(i), k, was) else was
  {
    InvWellFormed(w);
    assert SessionFiled(w, a) && SessionFiled(w, b);
    var i, j, sc := InfoOf(w, a), InfoOf(w, b), w.scene;
    var zones, mail, tell := Nearby(sc.ix.entities, i.x, i.y, sc.zoneSize), TellMail(sc, ord, PlayerOf(w, a)), Tell(MoveOf(i), None);
    NearbyMembers(sc.ix.entities, i.x, i.y, sc.zoneSize);
    forall s | s in mail && s.to == b ensures s.packet == MoveOf(i) && Around(j.zoneId, i.x, i.y, sc.zoneSize) {
      var zone, id := MailSound(zones, sc.ix.players, sc.ents, MOVE, ord, tell, s);
      LetterForm(tell, sc.ents[sc.ix.players[zone][id]], s);
      assert EntryOwned(w, zone, id);
      FiledOnce(w, b, zone, id);
    }
    if Around(j.zoneId, i.x, i.y, sc.zoneSize) {
      MailComplete(zones, sc.ix.players, sc.ents, MOVE, ord, tell, Sent(b, MoveOf(i)), j.zoneId, j.id);
    }
    FateUniform(sel, mail, b, k, MoveOf(i), was);
  }
}
