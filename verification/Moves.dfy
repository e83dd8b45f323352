/** Filing, un-filing and moving any entity, mobs and items included: what happens to the indexes and who is
    told. */
module Moves {
  import opened Prelude
  import opened Grid
  import opened ZoneIndex
  import opened Broadcast

  /** The player of session `b` is filed in `zone` of this index. */
  ghost predicate Listens<E>(ix: Index<E>, ents: map<E, Info>, zone: int, id: int, b: Addr) {
    Filed(ix.players, zone, id) && zone in ix.entities
    && ix.players[zone][id] in ents && ents[ix.players[zone][id]].session == Some(b)
  }

  /** The arrival of any entity is told, with its kind, id, zone and place, to each player filed around it. */
  lemma ArrivalIsTold<E>(ix: Index<E>, ents: map<E, Info>, n: int, ord: Order, zone: int, i: Info, at: int, id: int, b: Addr)
    requires n > 0 && IsOrder(ord) && Known(ix.entities, ents) && Known(ix.players, ents)
    requires Listens(ix, ents, at, id, b) && at in Block(Cell(i.x, n), Cell(i.y, n))
    ensures Sent(b, Spawn(i.kind, i.id, zone, i.x, i.y, i.z)) in AddMail(ix, ents, n, ord, zone, i)
  {
    NearbyMembers(ix.entities, i.x, i.y, n);
    ArrivalTells(Nearby(ix.entities, i.x, i.y, n), ix, ents, ord, zone, i, Sent(b, Spawn(i.kind, i.id, zone, i.x, i.y, i.z)), at, id);
  }

  /** The removal of any filed entity is told to each other player filed around the place it has now. */
  lemma RemovalIsTold<E>(ix: Index<E>, ents: map<E, Info>, n: int, ord: Order, zone: int, id: int, at: int, k: int, b: Addr)
    requires n > 0 && IsOrder(ord) && Known(ix.entities, ents) && Known(ix.players, ents) && NoEmptyBucket(ix.entities)
    requires Filed(ix.entities, zone, id) && Listens(ix, ents, at, k, b) && Filed(ix.entities, at, k) && !(at == zone && k == id)
    requires at in Block(Cell(ents[ix.entities[zone][id]].x, n), Cell(ents[ix.entities[zone][id]].y, n))
    requires OwnerOf(ix.players, ents, zone, id) != Some(b)
    ensures Sent(b, Despawn(id)) in RemoveMail(ix, ents, n, ord, zone, id)
  {
    RemovalLooksAround(ix.entities, ents, n, zone, id, at);
    RemoveKeepsKnown(ix, ents, zone, id);
    EraseEntries(ix.players, zone, id);
    var owner, ix1 := OwnerOf(ix.players, ents, zone, id), Remove(ix, zone, id);
    MailComplete(RemovalZones(ix.entities, ents, n, zone, id), ix1.players, ents, DESPAWN, ord, Tell(Despawn(id), owner),
                 Sent(b, Despawn(id)), at, k);
  }

  /** After a move the entity has the new place, the zone of that place, and all else as before. */
  lemma MovedInfo<E>(sc: Scene<E>, e: E, x: real, y: real, z: real)
    requires sc.zoneSize > 0 && e in sc.ents
    ensures var sc1, i, n := MoveScene(sc, e, x, y, z), sc.ents[e], sc.zoneSize;
      && sc1.zoneSize == n && e in sc1.ents
      && sc1.ents[e] == Info(i.id, i.kind, x, y, z, CellId(Cell(x, n), Cell(y, n)), i.session)
      && forall f :: f != e ==> (f in sc1.ents <==> f in sc.ents) && (f in sc.ents ==> sc1.ents[f] == sc.ents[f])
  {
  }

  /** An entity filed in the zone it carries is filed, after a move, in the zone of its new place and no
      longer in another one; every other entry of the indexes is as before. */
  lemma MoveFilesAnew<E>(sc: Scene<E>, e: E, x: real, y: real, z: real)
    requires sc.zoneSize > 0 && e in sc.ents
    requires var i := sc.ents[e];
      Filed(sc.ix.entities, i.zoneId, i.id) && sc.ix.entities[i.zoneId][i.id] == e
      && Filed(Part(sc.ix, i.kind), i.zoneId, i.id) && Part(sc.ix, i.kind)[i.zoneId][i.id] == e
    ensures var ix1, i, zone := MoveScene(sc, e, x, y, z).ix, sc.ents[e], ZoneIdAt(x, y, sc.zoneSize);
      && Filed(ix1.entities, zone, i.id) && ix1.entities[zone][i.id] == e
      && Filed(Part(ix1, i.kind), zone, i.id) && Part(ix1, i.kind)[zone][i.id] == e
      && (zone != i.zoneId ==> !Filed(ix1.entities, i.zoneId, i.id) && !Filed(Part(ix1, i.kind), i.zoneId, i.id))
      && forall at, k :: !(k == i.id && (at == zone || at == i.zoneId)) ==>
           (Filed(ix1.entities, at, k) <==> Filed(sc.ix.entities, at, k))
           && (Filed(sc.ix.entities, at, k) ==> ix1.entities[at][k] == sc.ix.entities[at][k])
  {
    var i, zone := sc.ents[e], ZoneIdAt(x, y, sc.zoneSize);
    if zone != i.zoneId {
      RemoveUnfiles(sc.ix, i.zoneId, i.id, i.kind);
      AddFiles(Remove(sc.ix, i.zoneId, i.id), zone, i.id, i.kind, e);
    }
  }

  /** A move keeps the five indexes in agreement, unless its id is filed in the new zone under another kind. */
  lemma MoveKeepsAgreement<E>(sc: Scene<E>, e: E, x: real, y: real, z: real, kindOf: E -> Kind)
    requires sc.zoneSize > 0 && e in sc.ents && kindOf(e) == sc.ents[e].kind && Agree(sc.ix, kindOf)
    requires KindFits(sc.ix, kindOf, ZoneIdAt(x, y, sc.zoneSize), sc.ents[e].id, e)
    ensures Agree(MoveScene(sc, e, x, y, z).ix, kindOf)
  {
    var i, zone := sc.ents[e], ZoneIdAt(x, y, sc.zoneSize);
    if zone != i.zoneId {
      RemoveAgrees(sc.ix, kindOf, i.zoneId, i.id);
      EraseEntries(sc.ix.entities, i.zoneId, i.id);
      AddAgrees(Remove(sc.ix, i.zoneId, i.id), kindOf, zone, i.id, e);
    }
  }

  /** The new place of any entity is told, with its kind, id and new zone, to each player filed around it
      after the move. */
  lemma MoveIsTold<E>(sc: Scene<E>, e: E, x: real, y: real, z: real, ord: Order, at: int, k: int, b: Addr)
    requires sc.WellFormed() && e in sc.ents && IsOrder(ord)
    requires Listens(MoveScene(sc, e, x, y, z).ix, MoveScene(sc, e, x, y, z).ents, at, k, b)
    requires at in Block(Cell(x, sc.zoneSize), Cell(y, sc.zoneSize))
    ensures var i, n := sc.ents[e], sc.zoneSize;
      Sent(b, Moved(i.id, i.kind, CellId(Cell(x, n), Cell(y, n)), x, y, z)) in MoveToMail(sc, e, x, y, z, ord)
  {
    MoveSceneWellFormed(sc, e, x, y, z);
    MovedInfo(sc, e, x, y, z);
    var sc1 := MoveScene(sc, e, x, y, z);
    TellIsTold(sc1, ord, e, at, k, b);
  }

  lemma TellIsTold<E>(sc: Scene<E>, ord: Order, e: E, at: int, k: int, b: Addr)
    requires sc.WellFormed() && IsOrder(ord) && e in sc.ents && Listens(sc.ix, sc.ents, at, k, b)
    requires at in Block(Cell(sc.ents[e].x, sc.zoneSize), Cell(sc.ents[e].y, sc.zoneSize))
    ensures var i := sc.ents[e]; Sent(b, Moved(i.id, i.kind, i.zoneId, i.x, i.y, i.z)) in TellMail(sc, ord, e)
  {
    var i := sc.ents[e];
    NearbyMembers(sc.ix.entities, i.x, i.y, sc.zoneSize);
    MailComplete(Nearby(sc.ix.entities, i.x, i.y, sc.zoneSize), sc.ix.players, sc.ents, MOVE, ord, Tell(MoveOf(i), None),
                 Sent(b, MoveOf(i)), at, k);
  }
}
