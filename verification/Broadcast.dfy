/** Who is sent which packet when an entity is filed, un-filed or moved. */
module Broadcast {
  import opened Prelude
  import opened Grid
  import opened ZoneIndex

  /** A UDP endpoint; the socket layer keeps one handle per endpoint, so it also names the handle. */
  datatype Addr = Addr(ip: int, port: int)

  /** The fields of one entity at one moment; `session` is the session a player points to. */
  datatype Info = Info(id: int, kind: Kind, x: real, y: real, z: real, zoneId: int, session: Option<Addr>)

  datatype Packet =
    | Spawn(kind: Kind, id: int, shard: int, x: real, y: real, z: real)
    | Despawn(id: int)
    | Moved(id: int, kind: Kind, shard: int, x: real, y: real, z: real)

  datatype Sent = Sent(to: Addr, packet: Packet)

  /** The loops over unordered maps; each may list the keys of its map in an order of its own. */
  datatype Site = BATCH_DESPAWN | DESPAWN | SPAWN | SNAPSHOT | MOVE

  type Order = (Site, int, set<int>) -> seq<int>

  ghost predicate IsOrder(ord: Order) {
    forall site, zone, keys :: Enumerates(ord(site, zone, keys), keys)
  }

  lemma {:induction false} Listing(keys: set<int>) returns (s: seq<int>)
    ensures Enumerates(s, keys)
    decreases |keys|
  {
    if keys == {} {
      s := [];
    } else {
      var k := Member(keys);
      var rest := Listing(keys - {k});
      s := rest + [k];
    }
  }

  ghost predicate Listable(keys: set<int>) {
    exists s :: Enumerates(s, keys)
  }

  /** Every set of keys can be listed, so there are such orders. */
  lemma OrderExists()
    ensures exists ord :: IsOrder(ord)
  {
    forall keys ensures Listable(keys) {
      var s := Listing(keys);
    }
    var ord: Order := (site, zone, keys) => assert Listable(keys); var s :| Enumerates(s, keys); s;
    assert IsOrder(ord);
  }

  /** What one loop body sends: `Tell` addresses the visited player, `Hide` and `Show` address one
      fixed player and are about the visited entity. */
  datatype Notice =
    | Tell(packet: Packet, except: Option<Addr>)
    | Hide(to: Addr, self: int)
    | Show(to: Addr, self: int, shard: int)

  function SpawnOf(i: Info, shard: int): Packet {
    Spawn(i.kind, i.id, shard, i.x, i.y, i.z)
  }

  function MoveOf(i: Info): Packet {
    Moved(i.id, i.kind, i.zoneId, i.x, i.y, i.z)
  }

  /** The packet, if any, that one loop iteration sends on visiting entity `i`. */
  function Letter(n: Notice, i: Info): seq<Sent> {
    match n
    case Tell(packet, except) =>
      if i.session.Some? && i.session != except then [Sent(i.session.value, packet)] else []
    case Hide(to, self) =>
      if i.id != self then [Sent(to, Despawn(i.id))] else []
    case Show(to, self, shard) =>
      if i.id != self then [Sent(to, SpawnOf(i, shard))] else []
  }

  ghost predicate Known<E>(b: Buckets<E>, ents: map<E, Info>) {
    forall z, id :: Filed(b, z, id) ==> b[z][id] in ents
  }

  function Letters<E>(keys: seq<int>, bucket: map<int, E>, ents: map<E, Info>, n: Notice): seq<Sent>
    requires forall k :: k in keys ==> k in bucket && bucket[k] in ents
  {
    if keys == [] then []
    else
      var k := keys[|keys| - 1];
      assert k in keys;
      Letters(keys[..|keys| - 1], bucket, ents, n) + Letter(n, ents[bucket[k]])
  }

  /** One loop over a bucket of the index. */
  function Round<E>(zone: int, b: Buckets<E>, ents: map<E, Info>, site: Site, ord: Order, n: Notice): seq<Sent>
    requires IsOrder(ord) && Known(b, ents)
  {
    var bucket := Bucket(b, zone);
    assert Enumerates(ord(site, zone, bucket.Keys), bucket.Keys);
    assert forall k :: k in bucket ==> Filed(b, zone, k);
    Letters(ord(site, zone, bucket.Keys), bucket, ents, n)
  }

  /** The nested loops: the buckets of `zones`, one after the other. */
  function Mail<E>(zones: seq<int>, b: Buckets<E>, ents: map<E, Info>, site: Site, ord: Order, n: Notice): seq<Sent>
    requires IsOrder(ord) && Known(b, ents)
  {
    if zones == [] then []
    else
      Mail(zones[..|zones| - 1], b, ents, site, ord, n) + Round(zones[|zones| - 1], b, ents, site, ord, n)
  }

  /** The zones of a list that have an entry in the main index, in order. */
  function Occupied<E>(zones: seq<int>, b: Buckets<E>): seq<int> {
    if zones == [] then []
    else Occupied(zones[..|zones| - 1], b) + (if zones[|zones| - 1] in b then [zones[|zones| - 1]] else [])
  }

  function Nearby<E>(b: Buckets<E>, x: real, y: real, zoneSize: int): seq<int>
    requires zoneSize > 0
  {
    Occupied(Block(Cell(x, zoneSize), Cell(y, zoneSize)), b)
  }

  // ----- the three broadcasts -----

  /** What AddEntityToZone sends for one nearby zone: the spawn of the entity to the players there
      and, when it is a player itself, the content of the zone it was filed in. */
  function Welcome<E>(at: int, ix: Index<E>, ents: map<E, Info>, ord: Order, zone: int, i: Info): seq<Sent>
    requires IsOrder(ord) && Known(ix.entities, ents) && Known(ix.players, ents)
  {
    Round(at, ix.players, ents, SPAWN, ord, Tell(SpawnOf(i, zone), None))
    + (if i.kind == PLAYER && i.session.Some?
       then Round(zone, ix.entities, ents, SNAPSHOT, ord, Show(i.session.value, i.id, zone)) else [])
  }

  function Arrival<E>(zones: seq<int>, ix: Index<E>, ents: map<E, Info>, ord: Order, zone: int, i: Info): seq<Sent>
    requires IsOrder(ord) && Known(ix.entities, ents) && Known(ix.players, ents)
  {
    if zones == [] then []
    else Arrival(zones[..|zones| - 1], ix, ents, ord, zone, i) + Welcome(zones[|zones| - 1], ix, ents, ord, zone, i)
  }

  function AddMail<E>(ix: Index<E>, ents: map<E, Info>, zoneSize: int, ord: Order, zone: int, i: Info): seq<Sent>
    requires zoneSize > 0 && IsOrder(ord) && Known(ix.entities, ents) && Known(ix.players, ents)
  {
    Arrival(Nearby(ix.entities, i.x, i.y, zoneSize), ix, ents, ord, zone, i)
  }

  /** The session of the player an entry of the player index holds. */
  function OwnerOf<E>(players: Buckets<E>, ents: map<E, Info>, zone: int, id: int): Option<Addr>
    requires Known(players, ents)
  {
    if Filed(players, zone, id) then ents[players[zone][id]].session else None
  }

  /** The zones RemoveEntityFromZone looks at: around the entity's current position, or around the
      origin when it is not filed, after its main entry is gone. */
  function RemovalZones<E>(entities: Buckets<E>, ents: map<E, Info>, zoneSize: int, zone: int, id: int): seq<int>
    requires zoneSize > 0 && Known(entities, ents)
  {
    var at := if Filed(entities, zone, id) then (ents[entities[zone][id]].x, ents[entities[zone][id]].y)
              else (0.0, 0.0);
    Nearby(Erase(entities, zone, id), at.0, at.1, zoneSize)
  }

  lemma EraseKeepsKnown<E>(b: Buckets<E>, ents: map<E, Info>, zone: int, id: int)
    requires Known(b, ents)
    ensures Known(Erase(b, zone, id), ents)
  {
    EraseEntries(b, zone, id);
  }

  lemma RemoveKeepsKnown<E>(ix: Index<E>, ents: map<E, Info>, zone: int, id: int)
    requires Known(ix.entities, ents) && Known(ix.players, ents)
    ensures Known(Remove(ix, zone, id).entities, ents) && Known(Remove(ix, zone, id).players, ents)
  {
    EraseKeepsKnown(ix.entities, ents, zone, id);
    EraseKeepsKnown(ix.players, ents, zone, id);
  }

  lemma AddKeepsKnown<E>(ix: Index<E>, ents: map<E, Info>, zone: int, id: int, kind: Kind, e: E)
    requires Known(ix.entities, ents) && Known(ix.players, ents) && e in ents
    ensures Known(Add(ix, zone, id, kind, e).entities, ents) && Known(Add(ix, zone, id, kind, e).players, ents)
  {
    PutEntries(ix.entities, zone, id, e);
    PutEntries(ix.players, zone, id, e);
  }

  function BatchMail<E>(zones: seq<int>, b: Buckets<E>, ents: map<E, Info>, ord: Order, owner: Option<Addr>, id: int): seq<Sent>
    requires IsOrder(ord) && Known(b, ents)
  {
    if owner.Some? then Mail(zones, b, ents, BATCH_DESPAWN, ord, Hide(owner.value, id)) else []
  }

  /** Sent by RemoveEntityFromZone: a despawn of everything nearby to the removed player, then its
      own despawn to the other players nearby. */
  function RemoveMail<E>(ix: Index<E>, ents: map<E, Info>, zoneSize: int, ord: Order, zone: int, id: int): seq<Sent>
    requires zoneSize > 0 && IsOrder(ord) && Known(ix.entities, ents) && Known(ix.players, ents)
  {
    RemoveKeepsKnown(ix, ents, zone, id);
    var zones := RemovalZones(ix.entities, ents, zoneSize, zone, id);
    var owner := OwnerOf(ix.players, ents, zone, id);
    var ix1 := Remove(ix, zone, id);
    BatchMail(zones, ix1.entities, ents, ord, owner, id)
    + Mail(zones, ix1.players, ents, DESPAWN, ord, Tell(Despawn(id), owner))
  }

  /** Sent at the end of MoveTo: the new position to every player nearby. */
  function MoveMail<E>(ix: Index<E>, ents: map<E, Info>, zoneSize: int, ord: Order, i: Info): seq<Sent>
    requires zoneSize > 0 && IsOrder(ord) && Known(ix.entities, ents) && Known(ix.players, ents)
  {
    Mail(Nearby(ix.entities, i.x, i.y, zoneSize), ix.players, ents, MOVE, ord, Tell(MoveOf(i), None))
  }

  // ----- moving an entity -----

  /** The zone manager's state: the index, the entities it may refer to, and the grid. */
  datatype Scene<E> = Scene(ix: Index<E>, ents: map<E, Info>, zoneSize: int) {
    ghost predicate WellFormed() {
      zoneSize > 0 && Known(ix.entities, ents) && Known(ix.players, ents)
    }

    function ZoneAt(x: real, y: real): int
      requires zoneSize > 0
    {
      ZoneIdAt(x, y, zoneSize)
    }
  }

  /** MoveTo writes the new position first; the zone is still the old one. */
  function PlaceScene<E>(sc: Scene<E>, e: E, x: real, y: real, z: real): Scene<E>
    requires e in sc.ents
  {
    sc.(ents := sc.ents[e := sc.ents[e].(x := x, y := y, z := z)])
  }

  function Refiled<E>(ix: Index<E>, i: Info, zone: int, e: E): Index<E> {
    Add(Remove(ix, i.zoneId, i.id), zone, i.id, i.kind, e)
  }

  /** Un-files an entity from its old zone, files it in `zone`, and last writes its zone. */
  function CrossScene<E>(sc: Scene<E>, e: E, zone: int): Scene<E>
    requires e in sc.ents
  {
    sc.(ix := Refiled(sc.ix, sc.ents[e], zone, e), ents := sc.ents[e := sc.ents[e].(zoneId := zone)])
  }

  function MoveScene<E>(sc: Scene<E>, e: E, x: real, y: real, z: real): Scene<E>
    requires sc.zoneSize > 0 && e in sc.ents
  {
    var sc1, zone := PlaceScene(sc, e, x, y, z), sc.ZoneAt(x, y);
    if zone == sc.ents[e].zoneId then sc1 else CrossScene(sc1, e, zone)
  }

  lemma RefileKeepsKnown<E>(ix: Index<E>, ents: map<E, Info>, i: Info, zone: int, e: E)
    requires Known(ix.entities, ents) && Known(ix.players, ents) && e in ents
    ensures Known(Refiled(ix, i, zone, e).entities, ents) && Known(Refiled(ix, i, zone, e).players, ents)
  {
    RemoveKeepsKnown(ix, ents, i.zoneId, i.id);
    AddKeepsKnown(Remove(ix, i.zoneId, i.id), ents, zone, i.id, i.kind, e);
  }

  lemma CrossSceneWellFormed<E>(sc: Scene<E>, e: E, zone: int)
    requires sc.WellFormed() && e in sc.ents
    ensures CrossScene(sc, e, zone).WellFormed()
  {
    RefileKeepsKnown(sc.ix, sc.ents, sc.ents[e], zone, e);
  }

  lemma MoveSceneWellFormed<E>(sc: Scene<E>, e: E, x: real, y: real, z: real)
    requires sc.WellFormed() && e in sc.ents
    ensures PlaceScene(sc, e, x, y, z).WellFormed() && MoveScene(sc, e, x, y, z).WellFormed()
  {
    CrossSceneWellFormed(PlaceScene(sc, e, x, y, z), e, sc.ZoneAt(x, y));
  }

  /** Sent when the zone changes, while the entity still carries its old zone. */
  function CrossingMail<E>(sc: Scene<E>, ord: Order, e: E, zone: int): seq<Sent>
    requires sc.WellFormed() && IsOrder(ord) && e in sc.ents
  {
    var i := sc.ents[e];
    RefileKeepsKnown(sc.ix, sc.ents, i, zone, e);
    RemoveMail(sc.ix, sc.ents, sc.zoneSize, ord, i.zoneId, i.id)
    + AddMail(Refiled(sc.ix, i, zone, e), sc.ents, sc.zoneSize, ord, zone, i)
  }

  /** Sent when the position is settled. */
  function TellMail<E>(sc: Scene<E>, ord: Order, e: E): seq<Sent>
    requires sc.WellFormed() && IsOrder(ord) && e in sc.ents
  {
    MoveMail(sc.ix, sc.ents, sc.zoneSize, ord, sc.ents[e])
  }

  function MoveToMail<E>(sc: Scene<E>, e: E, x: real, y: real, z: real, ord: Order): seq<Sent>
    requires sc.WellFormed() && e in sc.ents && IsOrder(ord)
  {
    MoveSceneWellFormed(sc, e, x, y, z);
    var sc1, zone := PlaceScene(sc, e, x, y, z), sc.ZoneAt(x, y);
    if zone == sc.ents[e].zoneId then TellMail(sc1, ord, e)
    else CrossingMail(sc1, ord, e, zone) + TellMail(CrossScene(sc1, e, zone), ord, e)
  }

  // ----- which packets a loop sends, whatever the order of the maps -----

  lemma {:induction false} LettersSound<E>(keys: seq<int>, bucket: map<int, E>, ents: map<E, Info>, n: Notice, s: Sent)
    returns (k: int)
    requires forall k :: k in keys ==> k in bucket && bucket[k] in ents
    requires s in Letters(keys, bucket, ents, n)
    ensures k in keys && s in Letter(n, ents[bucket[k]])
    decreases |keys|
  {
    k := keys[|keys| - 1];
    assert k in keys;
    if s !in Letter(n, ents[bucket[k]]) {
      k := LettersSound(keys[..|keys| - 1], bucket, ents, n, s);
    }
  }

  lemma {:induction false} LettersComplete<E>(keys: seq<int>, bucket: map<int, E>, ents: map<E, Info>, n: Notice, s: Sent, k: int)
    requires forall k :: k in keys ==> k in bucket && bucket[k] in ents
    requires k in keys && s in Letter(n, ents[bucket[k]])
    ensures s in Letters(keys, bucket, ents, n)
    decreases |keys|
  {
    var last := keys[|keys| - 1];
    assert last in keys;
    if k != last {
      var i :| 0 <= i < |keys| && keys[i] == k;
      assert keys[..|keys| - 1][i] == k;
      LettersComplete(keys[..|keys| - 1], bucket, ents, n, s, k);
    }
  }

  lemma RoundSound<E>(zone: int, b: Buckets<E>, ents: map<E, Info>, site: Site, ord: Order, n: Notice, s: Sent)
    returns (id: int)
    requires IsOrder(ord) && Known(b, ents)
    requires s in Round(zone, b, ents, site, ord, n)
    ensures Filed(b, zone, id) && s in Letter(n, ents[b[zone][id]])
  {
    var bucket := Bucket(b, zone);
    var keys := ord(site, zone, bucket.Keys);
    assert Enumerates(keys, bucket.Keys);
    assert forall k :: k in bucket ==> Filed(b, zone, k);
    id := LettersSound(keys, bucket, ents, n, s);
  }

  lemma RoundComplete<E>(zone: int, b: Buckets<E>, ents: map<E, Info>, site: Site, ord: Order, n: Notice, s: Sent, id: int)
    requires IsOrder(ord) && Known(b, ents)
    requires Filed(b, zone, id) && s in Letter(n, ents[b[zone][id]])
    ensures s in Round(zone, b, ents, site, ord, n)
  {
    var bucket := Bucket(b, zone);
    var keys := ord(site, zone, bucket.Keys);
    assert Enumerates(keys, bucket.Keys);
    assert forall k :: k in bucket ==> Filed(b, zone, k);
    LettersComplete(keys, bucket, ents, n, s, id);
  }

  lemma {:induction false} MailSound<E>(zones: seq<int>, b: Buckets<E>, ents: map<E, Info>, site: Site, ord: Order, n: Notice, s: Sent)
    returns (zone: int, id: int)
    requires IsOrder(ord) && Known(b, ents)
    requires s in Mail(zones, b, ents, site, ord, n)
    ensures zone in zones && Filed(b, zone, id) && s in Letter(n, ents[b[zone][id]])
    decreases |zones|
  {
    zone := zones[|zones| - 1];
    if s in Round(zone, b, ents, site, ord, n) {
      id := RoundSound(zone, b, ents, site, ord, n, s);
    } else {
      zone, id := MailSound(zones[..|zones| - 1], b, ents, site, ord, n, s);
    }
  }

  lemma {:induction false} MailComplete<E>(zones: seq<int>, b: Buckets<E>, ents: map<E, Info>, site: Site,
                                           ord: Order, n: Notice, s: Sent, zone: int, id: int)
    requires IsOrder(ord) && Known(b, ents)
    requires zone in zones && Filed(b, zone, id) && s in Letter(n, ents[b[zone][id]])
    ensures s in Mail(zones, b, ents, site, ord, n)
    decreases |zones|
  {
    var last := zones[|zones| - 1];
    if zone == last {
      RoundComplete(zone, b, ents, site, ord, n, s, id);
    } else {
      var i :| 0 <= i < |zones| && zones[i] == zone;
      assert zones[..|zones| - 1][i] == zone;
      MailComplete(zones[..|zones| - 1], b, ents, site, ord, n, s, zone, id);
    }
  }

  lemma {:induction false} OccupiedMembers<E>(zones: seq<int>, b: Buckets<E>, zone: int)
    ensures zone in Occupied(zones, b) <==> zone in zones && zone in b
    decreases |zones|
  {
    if zones != [] {
      OccupiedMembers(zones[..|zones| - 1], b, zone);
      assert zones == zones[..|zones| - 1] + [zones[|zones| - 1]];
    }
  }

  lemma NearbyMembers<E>(b: Buckets<E>, x: real, y: real, zoneSize: int)
    requires zoneSize > 0
    ensures NoDuplicates(Nearby(b, x, y, zoneSize))
    ensures forall zone :: zone in Nearby(b, x, y, zoneSize) <==>
      zone in b && zone in Block(Cell(x, zoneSize), Cell(y, zoneSize))
  {
    var block := Block(Cell(x, zoneSize), Cell(y, zoneSize));
    BlockIsDistinct(Cell(x, zoneSize), Cell(y, zoneSize));
    OccupiedDistinct(block, b);
    forall zone ensures zone in Occupied(block, b) <==> zone in b && zone in block {
      OccupiedMembers(block, b, zone);
    }
  }

  lemma {:induction false} OccupiedDistinct<E>(zones: seq<int>, b: Buckets<E>)
    requires NoDuplicates(zones)
    ensures NoDuplicates(Occupied(zones, b))
    decreases |zones|
  {
    if zones != [] {
      var init, last := zones[..|zones| - 1], zones[|zones| - 1];
      OccupiedDistinct(init, b);
      OccupiedMembers(init, b, last);
    }
  }

  /** What a letter looks like. */
  lemma LetterForm(n: Notice, i: Info, s: Sent)
    requires s in Letter(n, i)
    ensures match n
      case Tell(packet, except) => i.session == Some(s.to) && i.session != except && s.packet == packet
      case Hide(to, self) => s == Sent(to, Despawn(i.id)) && i.id != self
      case Show(to, self, shard) => s == Sent(to, SpawnOf(i, shard)) && i.id != self
  {
  }

  lemma {:induction false} ArrivalSound<E>(zones: seq<int>, ix: Index<E>, ents: map<E, Info>, ord: Order, zone: int, i: Info, s: Sent)
    returns (told: bool, at: int, id: int)
    requires IsOrder(ord) && Known(ix.entities, ents) && Known(ix.players, ents)
    requires s in Arrival(zones, ix, ents, ord, zone, i)
    ensures told ==>
      && at in zones && Filed(ix.players, at, id)
      && ents[ix.players[at][id]].session == Some(s.to) && s.packet == Spawn(i.kind, i.id, zone, i.x, i.y, i.z)
    ensures !told ==>
      && i.kind == PLAYER && i.session == Some(s.to) && at == zone && Filed(ix.entities, zone, id)
      && var j := ents[ix.entities[zone][id]]; j.id != i.id && s.packet == Spawn(j.kind, j.id, zone, j.x, j.y, j.z)
    decreases |zones|
  {
    var init, last := zones[..|zones| - 1], zones[|zones| - 1];
    var tell := Tell(SpawnOf(i, zone), None);
    if s in Arrival(init, ix, ents, ord, zone, i) {
      told, at, id := ArrivalSound(init, ix, ents, ord, zone, i, s);
    } else if s in Round(last, ix.players, ents, SPAWN, ord, tell) {
      told, at := true, last;
      id := RoundSound(last, ix.players, ents, SPAWN, ord, tell, s);
      LetterForm(tell, ents[ix.players[at][id]], s);
    } else {
      told, at := false, zone;
      var show := Show(i.session.value, i.id, zone);
      id := RoundSound(zone, ix.entities, ents, SNAPSHOT, ord, show, s);
      LetterForm(show, ents[ix.entities[zone][id]], s);
    }
  }

  lemma {:induction false} ArrivalTells<E>(zones: seq<int>, ix: Index<E>, ents: map<E, Info>,
                                           ord: Order, zone: int, i: Info, s: Sent, at: int, id: int)
    requires IsOrder(ord) && Known(ix.entities, ents) && Known(ix.players, ents)
    requires at in zones && Filed(ix.players, at, id) && ents[ix.players[at][id]].session == Some(s.to)
    requires s.packet == Spawn(i.kind, i.id, zone, i.x, i.y, i.z)
    ensures s in Arrival(zones, ix, ents, ord, zone, i)
    decreases |zones|
  {
    var init, last := zones[..|zones| - 1], zones[|zones| - 1];
    if at == last {
      RoundComplete(last, ix.players, ents, SPAWN, ord, Tell(SpawnOf(i, zone), None), s, id);
    } else {
      var j :| 0 <= j < |zones| && zones[j] == at;
      assert init[j] == at;
      ArrivalTells(init, ix, ents, ord, zone, i, s, at, id);
    }
  }

  lemma ArrivalShows<E>(zones: seq<int>, ix: Index<E>, ents: map<E, Info>, ord: Order, zone: int, i: Info, s: Sent, id: int)
    requires IsOrder(ord) && Known(ix.entities, ents) && Known(ix.players, ents)
    requires zones != [] && i.kind == PLAYER && i.session.Some? && Filed(ix.entities, zone, id)
    requires var j := ents[ix.entities[zone][id]];
      j.id != i.id && s == Sent(i.session.value, Spawn(j.kind, j.id, zone, j.x, j.y, j.z))
    ensures s in Arrival(zones, ix, ents, ord, zone, i)
  {
    RoundComplete(zone, ix.entities, ents, SNAPSHOT, ord, Show(i.session.value, i.id, zone), s, id);
  }

  // ----- how often -----

  function Count(mail: seq<Sent>, s: Sent): nat {
    multiset(mail)[s]
  }

  lemma CountAppend(a: seq<Sent>, b: seq<Sent>, s: Sent)
    ensures Count(a + b, s) == Count(a, s) + Count(b, s)
  {
  }

  /** One entity causes at most one packet. */
  lemma LetterCount(n: Notice, i: Info, s: Sent)
    ensures Count(Letter(n, i), s) == if s in Letter(n, i) then 1 else 0
  {
  }

  /** The packets of the keys before the last, and those of the last. */
  lemma LettersOfLast<E>(init: seq<int>, k: int, bucket: map<int, E>, ents: map<E, Info>, n: Notice, s: Sent)
    requires forall j :: j in init + [k] ==> j in bucket && bucket[j] in ents
    ensures forall j :: j in init ==> j in bucket && bucket[j] in ents
    ensures k in bucket && bucket[k] in ents
    ensures Count(Letters(init + [k], bucket, ents, n), s)
         == Count(Letters(init, bucket, ents, n), s) + if s in Letter(n, ents[bucket[k]]) then 1 else 0
  {
    var keys := init + [k];
    assert keys[..|keys| - 1] == init && keys[|keys| - 1] == k;
    assert k in keys;
    forall j | j in init ensures j in bucket && bucket[j] in ents {
      assert j in keys;
    }
    CountAppend(Letters(init, bucket, ents, n), Letter(n, ents[bucket[k]]), s);
    LetterCount(n, ents[bucket[k]], s);
  }

  /** Visiting every key once, a packet only one entity can cause is sent once, and a packet no
      entity can cause is not sent. */
  lemma {:induction false} LettersCount<E>(keys: seq<int>, bucket: map<int, E>, ents: map<E, Info>, n: Notice, s: Sent, only: int)
    requires NoDuplicates(keys)
    requires forall k :: k in keys ==> k in bucket && bucket[k] in ents
    requires forall k :: k in keys && k != only ==> s !in Letter(n, ents[bucket[k]])
    ensures Count(Letters(keys, bucket, ents, n), s)
         == if only in keys && s in Letter(n, ents[bucket[only]]) then 1 else 0
    decreases |keys|
  {
    if keys != [] {
      var init, k := keys[..|keys| - 1], keys[|keys| - 1];
      assert k in keys && k !in init;
      assert keys == init + [k];
      LettersOfLast(init, k, bucket, ents, n, s);
      LettersCount(init, bucket, ents, n, s, only);
      assert only in keys <==> only in init || only == k;
    }
  }

  lemma {:induction false} MailCount<E>(zones: seq<int>, b: Buckets<E>, ents: map<E, Info>, site: Site,
                                        ord: Order, n: Notice, s: Sent, zone: int, id: int)
    requires IsOrder(ord) && Known(b, ents) && NoDuplicates(zones)
    requires forall z, k :: Filed(b, z, k) && !(z == zone && k == id) ==> s !in Letter(n, ents[b[z][k]])
    ensures Count(Mail(zones, b, ents, site, ord, n), s)
         == if zone in zones && Filed(b, zone, id) && s in Letter(n, ents[b[zone][id]]) then 1 else 0
    decreases |zones|
  {
    if zones != [] {
      var init, last := zones[..|zones| - 1], zones[|zones| - 1];
      assert zones == init + [last];
      assert last !in init;
      MailCount(init, b, ents, site, ord, n, s, zone, id);
      var bucket := Bucket(b, last);
      var keys := ord(site, last, bucket.Keys);
      assert Enumerates(keys, bucket.Keys);
      assert forall k :: k in bucket ==> Filed(b, last, k);
      if last == zone {
        LettersCount(keys, bucket, ents, n, s, id);
      } else if s in Round(last, b, ents, site, ord, n) {
        var k := RoundSound(last, b, ents, site, ord, n, s);
      }
    }
  }

  // ----- the packets of a move, sorted out -----

  /** Where a removal looks: at the zones around the entity as it is now, or around the origin when it is
      not filed, that hold anything else. */
  lemma RemovalLooksAround<E>(entities: Buckets<E>, ents: map<E, Info>, n: int, zone: int, id: int, z: int)
    requires n > 0 && Known(entities, ents) && NoEmptyBucket(entities)
    ensures Filed(entities, zone, id) ==>
      var i := ents[entities[zone][id]];
      z in RemovalZones(entities, ents, n, zone, id)
      <==> z in Block(Cell(i.x, n), Cell(i.y, n)) && exists k :: Filed(entities, z, k) && !(z == zone && k == id)
    ensures !Filed(entities, zone, id) ==>
      (z in RemovalZones(entities, ents, n, zone, id) <==> z in Block(0, 0) && exists k :: Filed(entities, z, k))
  {
    EraseEntries(entities, zone, id);
    var rest := Erase(entities, zone, id);
    NearbyMembers(rest, 0.0, 0.0, n);
    if Filed(entities, zone, id) {
      var i := ents[entities[zone][id]];
      NearbyMembers(rest, i.x, i.y, n);
    }
    if z in rest {
      var k := Member(rest[z].Keys);
      assert Filed(rest, z, k);
    }
    forall k | Filed(entities, z, k) && !(z == zone && k == id) ensures z in rest {
      assert Filed(rest, z, k);
    }
  }

  lemma RemoveMailSound<E>(ix: Index<E>, ents: map<E, Info>, zoneSize: int, ord: Order, zone: int, id: int, s: Sent)
    returns (batch: bool, z: int, k: int)
    requires zoneSize > 0 && IsOrder(ord) && Known(ix.entities, ents) && Known(ix.players, ents)
    requires s in RemoveMail(ix, ents, zoneSize, ord, zone, id)
    ensures z in RemovalZones(ix.entities, ents, zoneSize, zone, id) && !(z == zone && k == id)
    ensures batch ==>
      && OwnerOf(ix.players, ents, zone, id) == Some(s.to) && Filed(ix.entities, z, k)
      && s.packet == Despawn(ents[ix.entities[z][k]].id)
    ensures !batch ==>
      && Filed(ix.players, z, k) && ents[ix.players[z][k]].session == Some(s.to)
      && OwnerOf(ix.players, ents, zone, id) != Some(s.to) && s.packet == Despawn(id)
  {
    RemoveKeepsKnown(ix, ents, zone, id);
    EraseEntries(ix.entities, zone, id);
    EraseEntries(ix.players, zone, id);
    var zones, owner := RemovalZones(ix.entities, ents, zoneSize, zone, id), OwnerOf(ix.players, ents, zone, id);
    var ix1 := Remove(ix, zone, id);
    var tell := Tell(Despawn(id), owner);
    if s in Mail(zones, ix1.players, ents, DESPAWN, ord, tell) {
      batch := false;
      z, k := MailSound(zones, ix1.players, ents, DESPAWN, ord, tell, s);
      LetterForm(tell, ents[ix.players[z][k]], s);
    } else {
      batch := true;
      var drop := Hide(owner.value, id);
      z, k := MailSound(zones, ix1.entities, ents, BATCH_DESPAWN, ord, drop, s);
      LetterForm(drop, ents[ix.entities[z][k]], s);
    }
  }

  lemma RemovalTellsNoPosition<E>(ix: Index<E>, ents: map<E, Info>, zoneSize: int, ord: Order, zone: int, id: int, s: Sent)
    requires zoneSize > 0 && IsOrder(ord) && Known(ix.entities, ents) && Known(ix.players, ents)
    requires s in RemoveMail(ix, ents, zoneSize, ord, zone, id)
    ensures s.packet.Despawn?
  {
    var batch, z, k := RemoveMailSound(ix, ents, zoneSize, ord, zone, id, s);
  }

  lemma ArrivalTellsNoPosition<E>(zones: seq<int>, ix: Index<E>, ents: map<E, Info>, ord: Order, zone: int, i: Info, s: Sent)
    requires IsOrder(ord) && Known(ix.entities, ents) && Known(ix.players, ents)
    requires s in Arrival(zones, ix, ents, ord, zone, i)
    ensures s.packet.Spawn?
  {
    var told, z, k := ArrivalSound(zones, ix, ents, ord, zone, i, s);
  }

  lemma CrossingTellsNoPosition<E>(sc: Scene<E>, ord: Order, e: E, zone: int, s: Sent)
    requires sc.WellFormed() && IsOrder(ord) && e in sc.ents
    requires s in CrossingMail(sc, ord, e, zone)
    ensures !s.packet.Moved?
  {
    var i := sc.ents[e];
    RefileKeepsKnown(sc.ix, sc.ents, i, zone, e);
    var removal := RemoveMail(sc.ix, sc.ents, sc.zoneSize, ord, i.zoneId, i.id);
    var ix1 := Refiled(sc.ix, i, zone, e);
    if s in removal {
      RemovalTellsNoPosition(sc.ix, sc.ents, sc.zoneSize, ord, i.zoneId, i.id, s);
    } else {
      ArrivalTellsNoPosition(Nearby(ix1.entities, i.x, i.y, sc.zoneSize), ix1, sc.ents, ord, zone, i, s);
    }
  }

  /** The position broadcast says the id, kind, zone and place of the entity. */
  lemma TellForm<E>(sc: Scene<E>, ord: Order, e: E, s: Sent)
    requires sc.WellFormed() && IsOrder(ord) && e in sc.ents && s in TellMail(sc, ord, e)
    ensures var i := sc.ents[e]; s.packet == Moved(i.id, i.kind, i.zoneId, i.x, i.y, i.z)
  {
    var i := sc.ents[e];
    var zone, id := MailSound(Nearby(sc.ix.entities, i.x, i.y, sc.zoneSize), sc.ix.players, sc.ents, MOVE, ord, Tell(MoveOf(i), None), s);
    LetterForm(Tell(MoveOf(i), None), sc.ents[sc.ix.players[zone][id]], s);
  }

  /** Whatever the entity and wherever it moves: every position packet says its id and kind, the zone of
      the new place, and exactly that place. */
  lemma MovedFields<E>(sc: Scene<E>, e: E, x: real, y: real, z: real, ord: Order, s: Sent)
    requires sc.WellFormed() && e in sc.ents && IsOrder(ord)
    requires s in MoveToMail(sc, e, x, y, z, ord) && s.packet.Moved?
    ensures var i, n := sc.ents[e], sc.zoneSize; s.packet == Moved(i.id, i.kind, CellId(Cell(x, n), Cell(y, n)), x, y, z)
  {
    MoveSceneWellFormed(sc, e, x, y, z);
    var sc1, zone := PlaceScene(sc, e, x, y, z), sc.ZoneAt(x, y);
    if zone == sc.ents[e].zoneId {
      TellForm(sc1, ord, e, s);
    } else {
      if s in CrossingMail(sc1, ord, e, zone) { CrossingTellsNoPosition(sc1, ord, e, zone, s); }
      TellForm(CrossScene(sc1, e, zone), ord, e, s);
    }
  }
}
