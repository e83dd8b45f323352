/** The client's replicated entity table: one main table, a shard index and four kind indexes. */
module EntityTable {
  import opened Prelude
  import opened ZoneIndex

  datatype Location = Location(x: real, y: real, z: real)

  datatype EntityInfo = EntityInfo(id: int, kind: Kind, shard: int, at: Location)

  /** The contents of the tables at one moment. */
  datatype Tables = Tables(entities: map<int, EntityInfo>, shards: map<int, seq<int>>,
                           players: map<int, EntityInfo>, mobs: map<int, EntityInfo>,
                           npcs: map<int, EntityInfo>, items: map<int, EntityInfo>)

  const EMPTY_TABLES := Tables(map[], map[], map[], map[], map[], map[])

  /** Adding to the array of a shard, which is created when it is missing. */
  function Listed(shards: map<int, seq<int>>, shard: int): seq<int> {
    if shard in shards then shards[shard] else []
  }

  /** TArray::Remove: every occurrence goes. */
  function Drop(ids: seq<int>, id: int): seq<int> {
    if ids == [] then []
    else
      Drop(ids[..|ids| - 1], id) + (if ids[|ids| - 1] == id then [] else [ids[|ids| - 1]])
  }

  function AddIf(wanted: bool, m: map<int, EntityInfo>, info: EntityInfo): map<int, EntityInfo> {
    if wanted then m[info.id := info] else m
  }

  function DropIf(wanted: bool, m: map<int, EntityInfo>, id: int): map<int, EntityInfo> {
    if wanted then m - {id} else m
  }

  function AddKind(t: Tables, info: EntityInfo): Tables {
    Tables(t.entities, t.shards, AddIf(info.kind == PLAYER, t.players, info), AddIf(info.kind == MOB, t.mobs, info),
           AddIf(info.kind == NPC, t.npcs, info), AddIf(info.kind == ITEM, t.items, info))
  }

  function DropKind(t: Tables, kind: Kind, id: int): Tables {
    Tables(t.entities, t.shards, DropIf(kind == PLAYER, t.players, id), DropIf(kind == MOB, t.mobs, id),
           DropIf(kind == NPC, t.npcs, id), DropIf(kind == ITEM, t.items, id))
  }

  function Unlist(t: Tables, id: int): Tables
    requires id in t.entities
  {
    var shard := t.entities[id].shard;
    t.(shards := t.shards[shard := Drop(Listed(t.shards, shard), id)], entities := t.entities - {id})
  }

  function Spawned(t: Tables, info: EntityInfo): Tables {
    if info.id in t.entities then t
    else
      AddKind(t.(entities := t.entities[info.id := info],
                 shards := t.shards[info.shard := Listed(t.shards, info.shard) + [info.id]]), info)
  }

  function Despawned(t: Tables, id: int): Tables {
    if id !in t.entities then t else DropKind(Unlist(t, id), t.entities[id].kind, id)
  }

  function Relocated(t: Tables, id: int, at: Location): Tables {
    if id !in t.entities then t else t.(entities := t.entities[id := t.entities[id].(at := at)])
  }

  function Resharded(t: Tables, id: int, shard: int): Tables {
    if id !in t.entities || t.entities[id].shard == shard then t
    else
      var t1 := t.(shards := t.shards[t.entities[id].shard := Drop(Listed(t.shards, t.entities[id].shard), id)]);
      t1.(entities := t.entities[id := t.entities[id].(shard := shard)],
          shards := t1.shards[shard := Listed(t1.shards, shard) + [id]])
  }

  /** Deloading forgets the entity in the main table and the shard index only. */
  function Deloaded(t: Tables, id: int): Tables {
    if id !in t.entities then t else Unlist(t, id)
  }

  /** A player spawn for a known id only moves it. */
  function PlayerSpawned(t: Tables, id: int, shard: int, at: Location): Tables {
    if id in t.entities then Relocated(t, id, at) else Spawned(t, EntityInfo(id, PLAYER, shard, at))
  }

  class NetworkedEntityManager {
    var Entities: map<int, EntityInfo>
    var ShardEntities: map<int, seq<int>>
    var PlayerEntities: map<int, EntityInfo>
    var MobEntities: map<int, EntityInfo>
    var NPCEntities: map<int, EntityInfo>
    var ItemEntities: map<int, EntityInfo>

    function Contents(): Tables
      reads this
    {
      Tables(Entities, ShardEntities, PlayerEntities, MobEntities, NPCEntities, ItemEntities)
    }

    constructor ()
      ensures Contents() == EMPTY_TABLES
    {
      Entities, ShardEntities := map[], map[];
      PlayerEntities, MobEntities, NPCEntities, ItemEntities := map[], map[], map[], map[];
    }

    method ClearAllEntities()
      modifies this
      ensures Contents() == EMPTY_TABLES
    {
      Entities := map[];
      PlayerEntities := map[];
      MobEntities := map[];
      NPCEntities := map[];
      ItemEntities := map[];
      ShardEntities := map[];
    }

    method SpawnEntity(entityId: int, kind: Kind, shardId: int, location: Location)
      modifies this
      ensures Contents() == Spawned(old(Contents()), EntityInfo(entityId, kind, shardId, location))
    {
      if entityId in Entities {
        return;
      }
      var info := EntityInfo(entityId, kind, shardId, location);
      Entities := Entities[entityId := info];
      if shardId !in ShardEntities {
        ShardEntities := ShardEntities[shardId := []];
      }
      ShardEntities := ShardEntities[shardId := ShardEntities[shardId] + [entityId]];
      match kind
      case PLAYER => PlayerEntities := PlayerEntities[entityId := info];
      case MOB => MobEntities := MobEntities[entityId := info];
      case NPC => NPCEntities := NPCEntities[entityId := info];
      case ITEM => ItemEntities := ItemEntities[entityId := info];
    }

    method DespawnEntity(entityId: int)
      modifies this
      ensures Contents() == Despawned(old(Contents()), entityId)
    {
      if entityId !in Entities {
        return;
      }
      var info := Entities[entityId];
      RemoveFromShard(info.shard, entityId);
      match info.kind {
        case PLAYER => PlayerEntities := PlayerEntities - {entityId};
        case MOB => MobEntities := MobEntities - {entityId};
        case NPC => NPCEntities := NPCEntities - {entityId};
        case ITEM => ItemEntities := ItemEntities - {entityId};
      }
      Entities := Entities - {entityId};
    }

    /** FindOrAdd(shard).Remove(id): the scan drops every occurrence, and a missing array is created. */
    method RemoveFromShard(shardId: int, entityId: int)
      modifies this`ShardEntities
      ensures ShardEntities == old(ShardEntities)[shardId := Drop(Listed(old(ShardEntities), shardId), entityId)]
    {
      var ids := if shardId in ShardEntities then ShardEntities[shardId] else [];
      var kept := [];
      for i := 0 to |ids|
        invariant kept == Drop(ids[..i], entityId)
      {
        assert ids[..i + 1][..i] == ids[..i];
        if ids[i] != entityId {
          kept := kept + [ids[i]];
        }
      }
      assert ids[..|ids|] == ids;
      ShardEntities := ShardEntities[shardId := kept];
    }

    method MoveEntity(entityId: int, newLocation: Location)
      modifies this
      ensures Contents() == Relocated(old(Contents()), entityId, newLocation)
    {
      if entityId in Entities {
        Entities := Entities[entityId := Entities[entityId].(at := newLocation)];
      }
    }

    method SetEntityShard(entityId: int, newShardId: int)
      modifies this
      ensures Contents() == Resharded(old(Contents()), entityId, newShardId)
    {
      if entityId in Entities && Entities[entityId].shard != newShardId {
        RemoveFromShard(Entities[entityId].shard, entityId);
        Entities := Entities[entityId := Entities[entityId].(shard := newShardId)];
        if newShardId !in ShardEntities {
          ShardEntities := ShardEntities[newShardId := []];
        }
        ShardEntities := ShardEntities[newShardId := ShardEntities[newShardId] + [entityId]];
      }
    }

    method DeloadEntity(entityId: int)
      modifies this
      ensures Contents() == Deloaded(old(Contents()), entityId)
    {
      if entityId in Entities {
        RemoveFromShard(Entities[entityId].shard, entityId);
        Entities := Entities - {entityId};
      }
    }

    method SpawnPlayerEntity(entityId: int, shardId: int, location: Location)
      modifies this
      ensures Contents() == PlayerSpawned(old(Contents()), entityId, shardId, location)
    {
      if entityId !in Entities {
        SpawnEntity(entityId, PLAYER, shardId, location);
      } else {
        MoveEntity(entityId, location);
      }
    }

    /** In tables kept by the operations, each entity of the shard once and nothing else. */
    method GetEntitiesInShard(shardId: int) returns (result: seq<EntityInfo>)
      ensures result == InShard(Contents(), shardId)
    {
      result := [];
      if shardId in ShardEntities {
        var ids := ShardEntities[shardId];
        for i := 0 to |ids|
          invariant result == Infos(Entities, ids[..i])
        {
          assert ids[..i + 1][..i] == ids[..i];
          if ids[i] in Entities {
            result := result + [Entities[ids[i]]];
          }
        }
        assert ids[..|ids|] == ids;
      }
    }
  }

  function Infos(entities: map<int, EntityInfo>, ids: seq<int>): seq<EntityInfo> {
    if ids == [] then []
    else
      Infos(entities, ids[..|ids| - 1])
      + (if ids[|ids| - 1] in entities then [entities[ids[|ids| - 1]]] else [])
  }

  function InShard(t: Tables, shard: int): seq<EntityInfo> {
    Infos(t.entities, Listed(t.shards, shard))
  }

  // ----- the shard index -----

  function Occurrences(shards: map<int, seq<int>>, shard: int, id: int): nat {
    multiset(Listed(shards, shard))[id]
  }

  lemma {:induction false} DropCount(ids: seq<int>, id: int, k: int)
    ensures multiset(Drop(ids, id))[k] == if k == id then 0 else multiset(ids)[k]
    decreases |ids|
  {
    if ids != [] {
      assert ids == ids[..|ids| - 1] + [ids[|ids| - 1]];
      DropCount(ids[..|ids| - 1], id, k);
    }
  }

  lemma AppendOccurrences(shards: map<int, seq<int>>, shard: int, id: int, s: int, k: int)
    ensures Occurrences(shards[shard := Listed(shards, shard) + [id]], s, k)
         == Occurrences(shards, s, k) + if s == shard && k == id then 1 else 0
  {
  }

  lemma DropOccurrences(shards: map<int, seq<int>>, shard: int, id: int, s: int, k: int)
    ensures Occurrences(shards[shard := Drop(Listed(shards, shard), id)], s, k)
         == if s == shard && k == id then 0 else Occurrences(shards, s, k)
  {
    DropCount(Listed(shards, shard), id, k);
  }

  datatype TableOp =
    | Spawn(info: EntityInfo)
    | SpawnPlayer(id: int, shard: int, at: Location)
    | Despawn(id: int)
    | Relocate(id: int, at: Location)
    | Reshard(id: int, shard: int)
    | Deload(id: int)
    | Clear

  function Apply(t: Tables, op: TableOp): Tables {
    match op
    case Spawn(info) => Spawned(t, info)
    case SpawnPlayer(id, shard, at) => PlayerSpawned(t, id, shard, at)
    case Despawn(id) => Despawned(t, id)
    case Relocate(id, at) => Relocated(t, id, at)
    case Reshard(id, shard) => Resharded(t, id, shard)
    case Deload(id) => Deloaded(t, id)
    case Clear => EMPTY_TABLES
  }

  function ApplyAll(ops: seq<TableOp>): Tables {
    if ops == [] then EMPTY_TABLES else Apply(ApplyAll(ops[..|ops| - 1]), ops[|ops| - 1])
  }

  /** Entries carry their own id, and an id is listed in a shard once if that is the shard of its
      entity and otherwise not at all. */
  ghost predicate ShardsMatch(entities: map<int, EntityInfo>, shards: map<int, seq<int>>) {
    && (forall id :: id in entities ==> entities[id].id == id)
    && (forall shard, id :: Occurrences(shards, shard, id)
                         == if id in entities && entities[id].shard == shard then 1 else 0)
  }

  ghost predicate ShardsExact(t: Tables) {
    ShardsMatch(t.entities, t.shards)
  }

  lemma AppendMatches(entities: map<int, EntityInfo>, shards: map<int, seq<int>>, info: EntityInfo)
    requires ShardsMatch(entities, shards) && info.id !in entities
    ensures ShardsMatch(entities[info.id := info], shards[info.shard := Listed(shards, info.shard) + [info.id]])
  {
    var entities1, shards1 := entities[info.id := info], shards[info.shard := Listed(shards, info.shard) + [info.id]];
    forall shard, id
      ensures Occurrences(shards1, shard, id) == if id in entities1 && entities1[id].shard == shard then 1 else 0
    {
      AppendOccurrences(shards, info.shard, info.id, shard, id);
      assert Occurrences(shards, shard, id) == if id in entities && entities[id].shard == shard then 1 else 0;
    }
  }

  lemma DropMatches(entities: map<int, EntityInfo>, shards: map<int, seq<int>>, id: int)
    requires ShardsMatch(entities, shards) && id in entities
    ensures ShardsMatch(entities - {id}, shards[entities[id].shard := Drop(Listed(shards, entities[id].shard), id)])
  {
    var from := entities[id].shard;
    var entities1, shards1 := entities - {id}, shards[from := Drop(Listed(shards, from), id)];
    forall shard, k
      ensures Occurrences(shards1, shard, k) == if k in entities1 && entities1[k].shard == shard then 1 else 0
    {
      DropOccurrences(shards, from, id, shard, k);
      assert Occurrences(shards, shard, k) == if k in entities && entities[k].shard == shard then 1 else 0;
    }
  }

  lemma OpKeepsShards(t: Tables, op: TableOp)
    requires ShardsExact(t)
    ensures ShardsExact(Apply(t, op))
  {
    match op
    case Spawn(info) => SpawnMatches(t, info);
    case SpawnPlayer(id, shard, at) =>
      if id in t.entities { RelocateMatches(t, id, at); } else { SpawnMatches(t, EntityInfo(id, PLAYER, shard, at)); }
    case Despawn(id) => DespawnMatches(t, id);
    case Relocate(id, at) => RelocateMatches(t, id, at);
    case Reshard(id, shard) => ReshardMatches(t, id, shard);
    case Deload(id) =>
      if id in t.entities { DropMatches(t.entities, t.shards, id); }
    case Clear =>
  }

  lemma SpawnMatches(t: Tables, info: EntityInfo)
    requires ShardsExact(t)
    ensures ShardsExact(Spawned(t, info))
  {
    if info.id !in t.entities { AppendMatches(t.entities, t.shards, info); }
  }

  lemma DespawnMatches(t: Tables, id: int)
    requires ShardsExact(t)
    ensures ShardsExact(Despawned(t, id))
  {
    if id in t.entities { DropMatches(t.entities, t.shards, id); }
  }

  lemma RelocateMatches(t: Tables, id: int, at: Location)
    requires ShardsExact(t)
    ensures ShardsExact(Relocated(t, id, at))
  {
    var t1 := Relocated(t, id, at);
    assert t1.shards == t.shards;
    assert forall k :: k in t1.entities <==> k in t.entities;
    assert forall k :: k in t.entities ==> t1.entities[k].shard == t.entities[k].shard;
    forall shard, k ensures Occurrences(t1.shards, shard, k) == if k in t1.entities && t1.entities[k].shard == shard then 1 else 0 {
      assert Occurrences(t.shards, shard, k) == if k in t.entities && t.entities[k].shard == shard then 1 else 0;
    }
  }

  lemma ReshardMatches(t: Tables, id: int, shard: int)
    requires ShardsExact(t)
    ensures ShardsExact(Resharded(t, id, shard))
  {
    if id in t.entities && t.entities[id].shard != shard {
      var from, info := t.entities[id].shard, t.entities[id].(shard := shard);
      var rest, shards := t.entities - {id}, t.shards[from := Drop(Listed(t.shards, from), id)];
      DropMatches(t.entities, t.shards, id);
      AppendMatches(rest, shards, info);
      assert rest[id := info] == t.entities[id := info];
    }
  }

  lemma {:induction false} OpsKeepShards(ops: seq<TableOp>)
    ensures ShardsExact(ApplyAll(ops))
    decreases |ops|
  {
    if ops != [] {
      OpsKeepShards(ops[..|ops| - 1]);
      OpKeepsShards(ApplyAll(ops[..|ops| - 1]), ops[|ops| - 1]);
    }
  }

  lemma {:induction false} InfosCount(entities: map<int, EntityInfo>, ids: seq<int>, info: EntityInfo)
    requires forall id :: id in entities ==> entities[id].id == id
    ensures multiset(Infos(entities, ids))[info]
         == if info.id in entities && entities[info.id] == info then multiset(ids)[info.id] else 0
    decreases |ids|
  {
    if ids != [] {
      var init, last := ids[..|ids| - 1], ids[|ids| - 1];
      assert ids == init + [last];
      InfosCount(entities, init, info);
    }
  }

  /** After every sequence of operations a shard query returns each entity of the table that is in
      that shard exactly once, and nothing else. */
  lemma ShardQueryExact(ops: seq<TableOp>, shard: int, info: EntityInfo)
    ensures var t := ApplyAll(ops);
      multiset(InShard(t, shard))[info]
      == if info.id in t.entities && t.entities[info.id] == info && info.shard == shard then 1 else 0
  {
    OpsKeepShards(ops);
    ShownIff(ApplyAll(ops), shard, info);
  }

  /** How often a query for a shard shows exactly this record. */
  function Shown(t: Tables, shard: int, info: EntityInfo): nat {
    multiset(InShard(t, shard))[info]
  }

  lemma ShownIff(t: Tables, shard: int, info: EntityInfo)
    requires ShardsExact(t)
    ensures Shown(t, shard, info)
         == if info.id in t.entities && t.entities[info.id] == info && info.shard == shard then 1 else 0
  {
    InfosCount(t.entities, Listed(t.shards, shard), info);
    assert Occurrences(t.shards, shard, info.id) == if info.id in t.entities && t.entities[info.id].shard == shard then 1 else 0;
  }

  /** Every record but those of `id` is shown as before. */
  ghost predicate OthersShown(t: Tables, t1: Tables, id: int) {
    forall shard, other: EntityInfo :: other.id != id ==> Shown(t1, shard, other) == Shown(t, shard, other)
  }

  ghost predicate SameBut(before: map<int, EntityInfo>, after: map<int, EntityInfo>, id: int) {
    forall k :: k != id ==> (k in after <==> k in before) && (k in before ==> after[k] == before[k])
  }

  lemma OthersAreShown(t: Tables, t1: Tables, id: int)
    requires ShardsExact(t) && ShardsExact(t1) && SameBut(t.entities, t1.entities, id)
    ensures OthersShown(t, t1, id)
  {
    forall shard, other: EntityInfo | other.id != id ensures Shown(t1, shard, other) == Shown(t, shard, other) {
      ShownIff(t, shard, other);
      ShownIff(t1, shard, other);
    }
  }

  predicate About(op: TableOp, id: int) {
    match op
    case Spawn(info) => info.id == id
    case Clear => false
    case _ => op.id == id
  }

  lemma OpSparesOthers(t: Tables, op: TableOp, id: int)
    requires About(op, id)
    ensures SameBut(t.entities, Apply(t, op).entities, id)
  {
  }

  /** A spawn of an id that is not known: the query for its shard shows it once, and it is in the index of
      its kind; a known id is left as it was. */
  lemma SpawnShows(t: Tables, info: EntityInfo)
    requires ShardsExact(t)
    ensures info.id in t.entities ==> Apply(t, Spawn(info)) == t
    ensures info.id !in t.entities ==>
      var t1 := Apply(t, Spawn(info));
      && Shown(t1, info.shard, info) == 1 && OthersShown(t, t1, info.id)
      && info.id in KindIndex(t1, info.kind) && KindIndex(t1, info.kind)[info.id] == info
  {
    var t1 := Apply(t, Spawn(info));
    OpKeepsShards(t, Spawn(info));
    OpSparesOthers(t, Spawn(info), info.id);
    OthersAreShown(t, t1, info.id);
    ShownIff(t1, info.shard, info);
  }

  /** A move of a known id: the query for its shard shows it once at the new place and no longer at
      another, and every other record is shown as before. */
  lemma RelocateShows(t: Tables, id: int, at: Location)
    requires ShardsExact(t) && id in t.entities
    ensures var t1, info := Apply(t, Relocate(id, at)), t.entities[id];
      && Shown(t1, info.shard, info.(at := at)) == 1 && (at != info.at ==> Shown(t1, info.shard, info) == 0)
      && OthersShown(t, t1, id)
  {
    var t1, info := Apply(t, Relocate(id, at)), t.entities[id];
    OpKeepsShards(t, Relocate(id, at));
    OpSparesOthers(t, Relocate(id, at), id);
    OthersAreShown(t, t1, id);
    ShownIff(t1, info.shard, info.(at := at));
    ShownIff(t1, info.shard, info);
  }

  /** A new shard for a known id: the query for the new shard finds it, with its kind and place, the one
      for the old shard does not, and every other record is shown as before. */
  lemma ReshardShows(t: Tables, id: int, shard: int)
    requires ShardsExact(t) && id in t.entities
    ensures var t1, info := Apply(t, Reshard(id, shard)), t.entities[id];
      && Shown(t1, shard, info.(shard := shard)) == 1 && OthersShown(t, t1, id)
      && (shard != info.shard ==> forall record: EntityInfo :: record.id == id ==> Shown(t1, info.shard, record) == 0)
  {
    var t1, info := Apply(t, Reshard(id, shard)), t.entities[id];
    OpKeepsShards(t, Reshard(id, shard));
    OpSparesOthers(t, Reshard(id, shard), id);
    OthersAreShown(t, t1, id);
    ShownIff(t1, shard, info.(shard := shard));
    forall record: EntityInfo | shard != info.shard && record.id == id ensures Shown(t1, info.shard, record) == 0 {
      ShownIff(t1, info.shard, record);
    }
  }

  /** After a despawn or a deload no query shows the id, and every other record is shown as before. */
  lemma RemovalShows(t: Tables, id: int, op: TableOp)
    requires ShardsExact(t) && (op == Despawn(id) || op == Deload(id))
    ensures var t1 := Apply(t, op);
      && id !in t1.entities && OthersShown(t, t1, id)
      && forall shard, record: EntityInfo :: record.id == id ==> Shown(t1, shard, record) == 0
  {
    var t1 := Apply(t, op);
    OpKeepsShards(t, op);
    OpSparesOthers(t, op, id);
    OthersAreShown(t, t1, id);
    forall shard, record: EntityInfo | record.id == id ensures Shown(t1, shard, record) == 0 {
      ShownIff(t1, shard, record);
    }
  }

  // ----- the kind indexes -----

  function KindIndex(t: Tables, kind: Kind): map<int, EntityInfo> {
    match kind
    case PLAYER => t.players
    case MOB => t.mobs
    case NPC => t.npcs
    case ITEM => t.items
  }

  /** The key set of each kind index is exactly the ids of that kind. */
  ghost predicate KindKeysExact(t: Tables) {
    forall kind, id :: id in KindIndex(t, kind) <==> id in t.entities && t.entities[id].kind == kind
  }

  lemma AddKindKeys(t: Tables, info: EntityInfo, kind: Kind, id: int)
    ensures id in KindIndex(AddKind(t, info), kind) <==> id in KindIndex(t, kind) || (kind == info.kind && id == info.id)
  {
  }

  lemma DropKindKeys(t: Tables, kind: Kind, id: int)
    ensures DropKind(t, kind, id).entities == t.entities
    ensures forall k, i :: i in KindIndex(DropKind(t, kind, id), k) <==>
      i in KindIndex(t, k) && !(k == kind && i == id)
  {
  }

  lemma SpawnKeepsKindKeys(t: Tables, info: EntityInfo)
    requires KindKeysExact(t)
    ensures KindKeysExact(Spawned(t, info))
  {
    if info.id !in t.entities {
      var t1 := t.(entities := t.entities[info.id := info], shards := t.shards[info.shard := Listed(t.shards, info.shard) + [info.id]]);
      forall kind, id
        ensures id in KindIndex(AddKind(t1, info), kind) <==> id in t1.entities && t1.entities[id].kind == kind
      {
        AddKindKeys(t1, info, kind, id);
        assert id in KindIndex(t, kind) <==> id in t.entities && t.entities[id].kind == kind;
      }
    }
  }

  lemma DespawnKeepsKindKeys(t: Tables, id: int)
    requires KindKeysExact(t)
    ensures KindKeysExact(Despawned(t, id))
  {
    if id in t.entities {
      var t1 := Unlist(t, id);
      DropKindKeys(t1, t.entities[id].kind, id);
      forall kind, i ensures i in KindIndex(t1, kind) <==> i in KindIndex(t, kind) {
      }
    }
  }

  lemma SameKindsKeepKindKeys(t: Tables, t1: Tables)
    requires KindKeysExact(t)
    requires forall kind :: KindIndex(t1, kind) == KindIndex(t, kind)
    requires t1.entities.Keys == t.entities.Keys
    requires forall id :: id in t.entities ==> t1.entities[id].kind == t.entities[id].kind
    ensures KindKeysExact(t1)
  {
    forall kind, id ensures id in KindIndex(t1, kind) <==> id in t1.entities && t1.entities[id].kind == kind {
      assert KindIndex(t1, kind) == KindIndex(t, kind);
      assert id in t1.entities <==> id in t1.entities.Keys;
    }
  }

  lemma PlayerSpawnKeepsKindKeys(t: Tables, id: int, shard: int, at: Location)
    requires KindKeysExact(t)
    ensures KindKeysExact(PlayerSpawned(t, id, shard, at))
  {
    if id in t.entities {
      RelocateKeepsKindKeys(t, id, at);
    } else {
      SpawnKeepsKindKeys(t, EntityInfo(id, PLAYER, shard, at));
    }
  }

  lemma RelocateKeepsKindKeys(t: Tables, id: int, at: Location)
    requires KindKeysExact(t)
    ensures KindKeysExact(Relocated(t, id, at))
  {
    SameKindsKeepKindKeys(t, Relocated(t, id, at));
  }

  lemma ReshardKeepsKindKeys(t: Tables, id: int, shard: int)
    requires KindKeysExact(t)
    ensures KindKeysExact(Resharded(t, id, shard))
  {
    SameKindsKeepKindKeys(t, Resharded(t, id, shard));
  }

  lemma DeloadBreaksKindKeys(t: Tables, id: int)
    requires KindKeysExact(t)
    ensures KindKeysExact(Deloaded(t, id)) <==> id !in t.entities
  {
    if id in t.entities {
      var kind := t.entities[id].kind;
      assert id in KindIndex(t, kind) && KindIndex(Deloaded(t, id), kind) == KindIndex(t, kind);
    }
  }

  /** For all tables with exact key sets: an operation keeps them exact, unless it deloads a known id. */
  lemma OpKeepsKindKeysIff(t: Tables, op: TableOp)
    requires KindKeysExact(t)
    ensures KindKeysExact(Apply(t, op)) <==> !(op.Deload? && op.id in t.entities)
  {
    match op
    case Spawn(info) => SpawnKeepsKindKeys(t, info);
    case SpawnPlayer(id, shard, at) => PlayerSpawnKeepsKindKeys(t, id, shard, at);
    case Despawn(id) => DespawnKeepsKindKeys(t, id);
    case Relocate(id, at) => RelocateKeepsKindKeys(t, id, at);
    case Reshard(id, shard) => ReshardKeepsKindKeys(t, id, shard);
    case Deload(id) => DeloadBreaksKindKeys(t, id);
    case Clear =>
  }

  lemma {:induction false} OpsKeepKindKeys(ops: seq<TableOp>)
    requires forall op :: op in ops ==> !op.Deload?
    ensures KindKeysExact(ApplyAll(ops))
    decreases |ops|
  {
    if ops != [] {
      OpsKeepKindKeys(ops[..|ops| - 1]);
      OpKeepsKindKeysIff(ApplyAll(ops[..|ops| - 1]), ops[|ops| - 1]);
    }
  }
}
