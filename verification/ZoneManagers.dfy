/** The zone manager and the entities it files, as the objects they are: fields updated in place,
    every packet handed to the server appended to `sent`. */
module ZoneManagers {
  import opened Prelude
  import opened Grid
  import opened ZoneIndex
  import opened Broadcast

  const DEFAULT_ZONE_SIZE := 100

  class Entity {
    const kind: Kind
    var id: int
    var x: real
    var y: real
    var z: real
    var zoneId: int
    var session: Option<Addr>

    constructor (kind: Kind, id: int, x: real, y: real, z: real, zoneId: int, session: Option<Addr>)
      ensures Snapshot() == Info(id, kind, x, y, z, zoneId, session)
    {
      this.kind, this.id, this.x, this.y, this.z := kind, id, x, y, z;
      this.zoneId, this.session := zoneId, session;
    }

    function Snapshot(): Info
      reads this
    {
      Info(id, kind, x, y, z, zoneId, session)
    }

    /** Writes the new position first, then re-files the entity if its zone changed, and last sends
        the position to every player nearby. */
    method MoveTo(zm: ZoneManager, newX: real, newY: real, newZ: real, ord: Order)
      requires zm.Valid() && this in zm.live && IsOrder(ord)
      modifies this, zm
      ensures zm.Valid() && zm.live == old(zm.live)
      ensures zm.Scene() == MoveScene(old(zm.Scene()), this, newX, newY, newZ)
      ensures zm.sent == old(zm.sent) + MoveToMail(old(zm.Scene()), this, newX, newY, newZ, ord)
      ensures forall s :: s in zm.sent[|old(zm.sent)|..] && s.packet.Moved? ==>
        s.packet == Moved(id, kind, zm.CalculateZoneId(newX, newY), newX, newY, newZ)
    {
      ghost var sc := zm.Scene();
      MoveSceneWellFormed(sc, this, newX, newY, newZ);
      Place(zm, newX, newY, newZ);
      var newZone := zm.CalculateZoneId(x, y);
      assert newZone == sc.ZoneAt(newX, newY);
      if newZone != zoneId {
        CrossInto(zm, newZone, ord);
      } else {
        TellPosition(zm, ord);
      }
      assert zm.sent[|old(zm.sent)|..] == MoveToMail(sc, this, newX, newY, newZ, ord);
      forall s | s in MoveToMail(sc, this, newX, newY, newZ, ord) && s.packet.Moved?
        ensures s.packet == Moved(id, kind, zm.CalculateZoneId(newX, newY), newX, newY, newZ)
      {
        MovedFields(sc, this, newX, newY, newZ, ord, s);
      }
    }

    method Place(zm: ZoneManager, newX: real, newY: real, newZ: real)
      requires zm.Valid() && this in zm.live
      modifies this
      ensures zm.Valid() && zoneId == old(zoneId) && x == newX && y == newY && z == newZ
      ensures zm.Scene() == PlaceScene(old(zm.Scene()), this, newX, newY, newZ)
    {
      x := newX;
      y := newY;
      z := newZ;
    }

    method CrossInto(zm: ZoneManager, newZone: int, ord: Order)
      requires zm.Valid() && this in zm.live && IsOrder(ord)
      modifies this, zm
      ensures zm.Valid() && zm.live == old(zm.live)
      ensures zm.Scene() == CrossScene(old(zm.Scene()), this, newZone)
      ensures zm.sent == old(zm.sent)
        + (CrossingMail(old(zm.Scene()), ord, this, newZone) + TellMail(zm.Scene(), ord, this))
    {
      ghost var sc, before := zm.Scene(), zm.sent;
      Refile(zm, newZone, ord);
      TellPosition(zm, ord);
      AppendAssociates(before, CrossingMail(sc, ord, this, newZone), TellMail(zm.Scene(), ord, this));
    }

    method Refile(zm: ZoneManager, newZone: int, ord: Order)
      requires zm.Valid() && this in zm.live && IsOrder(ord)
      modifies this, zm
      ensures zm.Valid() && zm.live == old(zm.live)
      ensures zm.Scene() == CrossScene(old(zm.Scene()), this, newZone)
      ensures zm.sent == old(zm.sent) + CrossingMail(old(zm.Scene()), ord, this, newZone)
    {
      ghost var sc, before, i := zm.Scene(), zm.sent, Snapshot();
      zm.RemoveEntityFromZone(zoneId, id, ord);
      zm.AddEntityToZone(newZone, this, ord);
      assert zm.live == old(zm.live);
      AppendAssociates(before, RemoveMail(sc.ix, sc.ents, zm.zoneSize, ord, i.zoneId, i.id),
                       AddMail(zm.Index(), sc.ents, zm.zoneSize, ord, newZone, i));
      SetZone(zm, newZone);
    }

    method SetZone(zm: ZoneManager, newZone: int)
      requires zm.Valid() && this in zm.live
      modifies this
      ensures zm.Valid()
      ensures Snap(zm.live) == old(Snap(zm.live))[this := old(Snapshot()).(zoneId := newZone)]
    {
      zoneId := newZone;
    }

    method TellPosition(zm: ZoneManager, ord: Order)
      requires zm.Valid() && this in zm.live && IsOrder(ord)
      modifies zm`sent
      ensures zm.sent == old(zm.sent) + TellMail(zm.Scene(), ord, this)
      ensures forall s :: s in zm.sent[|old(zm.sent)|..] ==> s.packet == Moved(id, kind, zoneId, x, y, z)
    {
      var zones := zm.GetNearbyZones(x, y, z);
      zm.VisitZones(zones, zm.zonePlayers, MOVE, ord, Tell(Moved(id, kind, zoneId, x, y, z), None));
      ghost var mail := TellMail(zm.Scene(), ord, this);
      assert zm.sent[|old(zm.sent)|..] == mail;
      forall s | s in mail ensures s.packet == Moved(id, kind, zoneId, x, y, z) {
        TellForm(zm.Scene(), ord, this, s);
      }
    }
  }

  ghost function Snap(live: set<Entity>): map<Entity, Info>
    reads live
  {
    map e | e in live :: e.Snapshot()
  }

  class ZoneManager {
    var zoneSize: int
    var zoneEntities: Buckets<Entity>
    var zonePlayers: Buckets<Entity>
    var zoneMobs: Buckets<Entity>
    var zoneNPCs: Buckets<Entity>
    var zoneItems: Buckets<Entity>
    var sent: seq<Sent>
    ghost var live: set<Entity>

    ghost predicate Valid()
      reads this, live
    {
      && zoneSize > 0
      && Known(zoneEntities, Snap(live))
      && Known(zonePlayers, Snap(live))
    }

    ghost function Index(): Index<Entity>
      reads this
    {
      ZoneIndex.Index(zoneEntities, zonePlayers, zoneMobs, zoneNPCs, zoneItems)
    }

    ghost function Scene(): Scene<Entity>
      reads this, live
    {
      Broadcast.Scene(Index(), Snap(live), zoneSize)
    }

    constructor ()
      ensures Valid() && zoneSize == DEFAULT_ZONE_SIZE && Index() == EmptyIndex() && sent == [] && live == {}
    {
      zoneSize := DEFAULT_ZONE_SIZE;
      zoneEntities, zonePlayers, zoneMobs, zoneNPCs, zoneItems := map[], map[], map[], map[], map[];
      sent, live := [], {};
    }

    /** A size that is not positive is replaced by the default, so the grid is always usable. */
    method SetZoneSize(size: int)
      modifies this`zoneSize
      ensures zoneSize == if size > 0 then size else DEFAULT_ZONE_SIZE
    {
      zoneSize := size;
      if zoneSize <= 0 {
        zoneSize := DEFAULT_ZONE_SIZE;
      }
    }

    function CalculateZoneId(x: real, y: real): int
      requires zoneSize > 0
      reads this`zoneSize
    {
      Quotient(Truncate(x), zoneSize) + 1000 * Quotient(Truncate(y), zoneSize)
    }

    /** The two loops over offsets list the occupied zones of the 3x3 block, each once. */
    method GetNearbyZones(x: real, y: real, z: real) returns (zones: seq<int>)
      requires zoneSize > 0
      ensures zones == Nearby(zoneEntities, x, y, zoneSize)
    {
      var zx := Quotient(Truncate(x), zoneSize);
      var zy := Quotient(Truncate(y), zoneSize);
      ghost var block, seen := Block(zx, zy), [];
      zones := [];
      for dx := -1 to 2
        invariant seen == block[..3 * (dx + 1)] && zones == Occupied(seen, zoneEntities)
      {
        for dy := -1 to 2
          invariant seen == block[..3 * (dx + 1) + dy + 1] && zones == Occupied(seen, zoneEntities)
        {
          var zoneId := (zx + dx) + 1000 * (zy + dy);
          assert block[3 * (dx + 1) + dy + 1] == zoneId && (seen + [zoneId])[..|seen|] == seen;
          seen := seen + [zoneId];
          if zoneId in zoneEntities {
            zones := zones + [zoneId];
          }
        }
      }
      assert block[..9] == block;
    }

    /** Sends what one visited entity causes. */
    method Send(n: Notice, e: Entity)
      modifies this`sent
      ensures sent == old(sent) + Letter(n, e.Snapshot())
    {
      match n
      case Tell(packet, except) =>
        if e.session.Some? && e.session != except {
          sent := sent + [Sent(e.session.value, packet)];
        }
      case Hide(to, self) =>
        if e.id != self {
          sent := sent + [Sent(to, Despawn(e.id))];
        }
      case Show(to, self, shard) =>
        if e.id != self {
          sent := sent + [Sent(to, Spawn(e.kind, e.id, shard, e.x, e.y, e.z))];
        }
    }

    /** One loop over the entries of a zone. */
    method VisitBucket(zone: int, b: Buckets<Entity>, site: Site, ord: Order, n: Notice)
      requires IsOrder(ord) && Known(b, Snap(live))
      modifies this`sent
      ensures sent == old(sent) + Round(zone, b, Snap(live), site, ord, n)
    {
      ghost var ents := Snap(live);
      var bucket := Bucket(b, zone);
      var keys := ord(site, zone, bucket.Keys);
      assert Enumerates(keys, bucket.Keys);
      assert forall k :: k in bucket ==> Filed(b, zone, k);
      VisitKeys(keys, bucket, n);
    }

    method VisitKeys(keys: seq<int>, bucket: map<int, Entity>, n: Notice)
      requires forall k :: k in keys ==> k in bucket && bucket[k] in live
      modifies this`sent
      ensures sent == old(sent) + Letters(keys, bucket, Snap(live), n)
    {
      ghost var ents := Snap(live);
      for i := 0 to |keys|
        invariant sent == old(sent) + Letters(keys[..i], bucket, ents, n)
      {
        assert keys[..i + 1][..i] == keys[..i];
        var k := keys[i];
        assert k in keys;
        Send(n, bucket[k]);
        AppendAssociates(old(sent), Letters(keys[..i], bucket, ents, n), Letter(n, ents[bucket[k]]));
      }
      assert keys[..|keys|] == keys;
    }

    method VisitZones(zones: seq<int>, b: Buckets<Entity>, site: Site, ord: Order, n: Notice)
      requires IsOrder(ord) && Known(b, Snap(live))
      modifies this`sent
      ensures sent == old(sent) + Mail(zones, b, Snap(live), site, ord, n)
    {
      ghost var ents := Snap(live);
      for i := 0 to |zones|
        invariant sent == old(sent) + Mail(zones[..i], b, ents, site, ord, n)
      {
        assert zones[..i + 1][..i] == zones[..i];
        VisitBucket(zones[i], b, site, ord, n);
        AppendAssociates(old(sent), Mail(zones[..i], b, ents, site, ord, n), Round(zones[i], b, ents, site, ord, n));
      }
      assert zones[..|zones|] == zones;
    }

    method AddEntityToZone(zoneId: int, entity: Entity, ord: Order)
      requires Valid() && IsOrder(ord)
      modifies this
      ensures Valid() && zoneSize == old(zoneSize) && live == old(live) + {entity}
      ensures Index() == Add(old(Index()), zoneId, entity.id, entity.kind, entity)
      ensures sent == old(sent) + AddMail(Index(), Snap(live), zoneSize, ord, zoneId, entity.Snapshot())
    {
      FileEntity(zoneId, entity);
      AnnounceArrival(zoneId, entity, ord);
    }

    method FileEntity(zoneId: int, entity: Entity)
      requires Valid()
      modifies this
      ensures Valid() && zoneSize == old(zoneSize) && live == old(live) + {entity} && sent == old(sent)
      ensures Index() == Add(old(Index()), zoneId, entity.id, entity.kind, entity)
    {
      var id := entity.id;
      live := live + {entity};
      AddKeepsKnown(Index(), Snap(live), zoneId, id, entity.kind, entity);
      zoneEntities := zoneEntities[zoneId := Bucket(zoneEntities, zoneId)[id := entity]];
      match entity.kind {
        case PLAYER => zonePlayers := zonePlayers[zoneId := Bucket(zonePlayers, zoneId)[id := entity]];
        case MOB => zoneMobs := zoneMobs[zoneId := Bucket(zoneMobs, zoneId)[id := entity]];
        case NPC => zoneNPCs := zoneNPCs[zoneId := Bucket(zoneNPCs, zoneId)[id := entity]];
        case ITEM => zoneItems := zoneItems[zoneId := Bucket(zoneItems, zoneId)[id := entity]];
      }
    }

    method AnnounceArrival(zoneId: int, entity: Entity, ord: Order)
      requires Valid() && IsOrder(ord)
      modifies this`sent
      ensures sent == old(sent) + AddMail(Index(), Snap(live), zoneSize, ord, zoneId, entity.Snapshot())
    {
      var zones := GetNearbyZones(entity.x, entity.y, entity.z);
      AnnounceIn(zones, zoneId, entity, ord);
    }

    method AnnounceIn(zones: seq<int>, zoneId: int, entity: Entity, ord: Order)
      requires Valid() && IsOrder(ord)
      modifies this`sent
      ensures sent == old(sent) + Arrival(zones, Index(), Snap(live), ord, zoneId, entity.Snapshot())
    {
      ghost var ix, ents, info := Index(), Snap(live), entity.Snapshot();
      for i := 0 to |zones|
        invariant sent == old(sent) + Arrival(zones[..i], ix, ents, ord, zoneId, info)
      {
        assert zones[..i + 1][..i] == zones[..i];
        Announce(zones[i], zoneId, entity, ord);
        AppendAssociates(old(sent), Arrival(zones[..i], ix, ents, ord, zoneId, info),
                         Welcome(zones[i], ix, ents, ord, zoneId, info));
      }
      assert zones[..|zones|] == zones;
    }

    method Announce(zId: int, zoneId: int, entity: Entity, ord: Order)
      requires Valid() && IsOrder(ord)
      modifies this`sent
      ensures sent == old(sent) + Welcome(zId, Index(), Snap(live), ord, zoneId, entity.Snapshot())
    {
      ghost var before := sent;
      VisitBucket(zId, zonePlayers, SPAWN, ord,
                  Tell(Spawn(entity.kind, entity.id, zoneId, entity.x, entity.y, entity.z), None));
      if entity.kind == PLAYER && entity.session.Some? {
        ghost var told := Round(zId, zonePlayers, Snap(live), SPAWN, ord, Tell(SpawnOf(entity.Snapshot(), zoneId), None));
        ghost var shown := Round(zoneId, zoneEntities, Snap(live), SNAPSHOT, ord, Show(entity.session.value, entity.id, zoneId));
        VisitBucket(zoneId, zoneEntities, SNAPSHOT, ord, Show(entity.session.value, entity.id, zoneId));
        AppendAssociates(before, told, shown);
      }
    }

    method RemoveEntityFromZone(zoneId: int, entityId: int, ord: Order)
      requires Valid() && IsOrder(ord)
      modifies this`zoneEntities, this`zonePlayers, this`zoneMobs, this`zoneNPCs, this`zoneItems, this`sent
      ensures Valid()
      ensures Index() == Remove(old(Index()), zoneId, entityId)
      ensures sent == old(sent) + RemoveMail(old(Index()), Snap(live), zoneSize, ord, zoneId, entityId)
    {
      ghost var before := sent;
      var nearbyZones, sock := Unfile(zoneId, entityId, ord);
      ClearOthers(zoneId, entityId);
      VisitZones(nearbyZones, zonePlayers, DESPAWN, ord, Tell(Despawn(entityId), sock));
      AppendAssociates(before, BatchMail(nearbyZones, zoneEntities, Snap(live), ord, sock, entityId),
                       Mail(nearbyZones, zonePlayers, Snap(live), DESPAWN, ord, Tell(Despawn(entityId), sock)));
    }

    method Unfile(zoneId: int, entityId: int, ord: Order) returns (nearbyZones: seq<int>, sock: Option<Addr>)
      requires Valid() && IsOrder(ord)
      modifies this`zoneEntities, this`zonePlayers, this`sent
      ensures Valid()
      ensures zoneEntities == Erase(old(zoneEntities), zoneId, entityId)
      ensures zonePlayers == Erase(old(zonePlayers), zoneId, entityId)
      ensures nearbyZones == RemovalZones(old(zoneEntities), Snap(live), zoneSize, zoneId, entityId)
      ensures sock == OwnerOf(old(zonePlayers), Snap(live), zoneId, entityId)
      ensures sent == old(sent) + BatchMail(nearbyZones, zoneEntities, Snap(live), ord, sock, entityId)
    {
      nearbyZones := ClearMain(zoneId, entityId);
      sock := ClearPlayer(zoneId, entityId, nearbyZones, ord);
    }

    /** The main index part of a removal, and the zones around the entity as it is now. */
    method ClearMain(zoneId: int, entityId: int) returns (nearbyZones: seq<int>)
      requires Valid()
      modifies this`zoneEntities
      ensures Valid() && zoneEntities == Erase(old(zoneEntities), zoneId, entityId)
      ensures nearbyZones == RemovalZones(old(zoneEntities), Snap(live), zoneSize, zoneId, entityId)
    {
      EraseKeepsKnown(zoneEntities, Snap(live), zoneId, entityId);
      var removedX, removedY, removedZ := 0.0, 0.0, 0.0;
      if zoneId in zoneEntities {
        if entityId in zoneEntities[zoneId] {
          assert Filed(zoneEntities, zoneId, entityId);
          var e := zoneEntities[zoneId][entityId];
          removedX, removedY, removedZ := e.x, e.y, e.z;
        }
        zoneEntities := Without(zoneEntities, zoneId, entityId);
      }
      nearbyZones := GetNearbyZones(removedX, removedY, removedZ);
    }

    method ClearOthers(zoneId: int, entityId: int)
      modifies this`zoneMobs, this`zoneNPCs, this`zoneItems
      ensures zoneMobs == Erase(old(zoneMobs), zoneId, entityId)
      ensures zoneNPCs == Erase(old(zoneNPCs), zoneId, entityId)
      ensures zoneItems == Erase(old(zoneItems), zoneId, entityId)
    {
      zoneMobs := Without(zoneMobs, zoneId, entityId);
      zoneNPCs := Without(zoneNPCs, zoneId, entityId);
      zoneItems := Without(zoneItems, zoneId, entityId);
    }

    /** The player part of a removal: the removed player is told to drop everything nearby. */
    method ClearPlayer(zoneId: int, entityId: int, nearbyZones: seq<int>, ord: Order) returns (sock: Option<Addr>)
      requires Valid() && IsOrder(ord)
      modifies this`zonePlayers, this`sent
      ensures Valid() && zonePlayers == Erase(old(zonePlayers), zoneId, entityId)
      ensures sock == OwnerOf(old(zonePlayers), Snap(live), zoneId, entityId)
      ensures sent == old(sent) + BatchMail(nearbyZones, zoneEntities, Snap(live), ord, sock, entityId)
    {
      ghost var players := zonePlayers;
      EraseKeepsKnown(zonePlayers, Snap(live), zoneId, entityId);
      sock := None;
      if zoneId in zonePlayers {
        if entityId in zonePlayers[zoneId] {
          assert Filed(zonePlayers, zoneId, entityId);
          sock := zonePlayers[zoneId][entityId].session;
        }
        if sock.Some? && nearbyZones != [] {
          VisitZones(nearbyZones, zoneEntities, BATCH_DESPAWN, ord, Hide(sock.value, entityId));
        }
        zonePlayers := Without(zonePlayers, zoneId, entityId);
      }
    }

    /** erase(entityId) on the inner map of a zone, if there is one, and of that map once it is empty. */
    static method Without(b: Buckets<Entity>, zoneId: int, entityId: int) returns (b': Buckets<Entity>)
      ensures b' == Erase(b, zoneId, entityId)
    {
      b' := b;
      if zoneId in b {
        b' := b[zoneId := b[zoneId] - {entityId}];
        if |b'[zoneId]| == 0 {
          b' := b' - {zoneId};
          assert b' == b - {zoneId};
        }
      }
    }

    /** One row per zone with its entity and player counts; `listing` is the order of the map. */
    method GetZoneSummary(listing: seq<int>) returns (rows: seq<(int, int, int)>)
      requires Enumerates(listing, zoneEntities.Keys)
      ensures |rows| == |listing|
      ensures forall i :: 0 <= i < |rows| ==>
        rows[i] == (listing[i], |zoneEntities[listing[i]]|, |Bucket(zonePlayers, listing[i])|)
    {
      rows := [];
      for i := 0 to |listing|
        invariant |rows| == i
        invariant forall j :: 0 <= j < i ==>
          rows[j] == (listing[j], |zoneEntities[listing[j]]|, |Bucket(zonePlayers, listing[j])|)
      {
        var zoneId := listing[i];
        assert zoneId in listing;
        var entityCount := |zoneEntities[zoneId]|;
        var playerCount := 0;
        if zoneId in zonePlayers {
          playerCount := |zonePlayers[zoneId]|;
        }
        rows := rows + [(zoneId, entityCount, playerCount)];
      }
    }
  }
}
