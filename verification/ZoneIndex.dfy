/** The five parallel zone indexes, zone id -> entity id -> entity, and what keeps them in step. */
module ZoneIndex {
  import opened Prelude

  datatype Kind = PLAYER | NPC | MOB | ITEM

  type Buckets<E> = map<int, map<int, E>>

  datatype Index<E> = Index(entities: Buckets<E>, players: Buckets<E>, mobs: Buckets<E>,
                            npcs: Buckets<E>, items: Buckets<E>)

  function EmptyIndex<E>(): Index<E> {
    Index(map[], map[], map[], map[], map[])
  }

  function Bucket<E>(b: Buckets<E>, zone: int): map<int, E> {
    if zone in b then b[zone] else map[]
  }

  predicate Filed<E>(b: Buckets<E>, zone: int, id: int) {
    zone in b && id in b[zone]
  }

  function Put<E>(b: Buckets<E>, zone: int, id: int, e: E): Buckets<E> {
    b[zone := Bucket(b, zone)[id := e]]
  }

  /** Erases the entry, and the inner map with it when that was its last entry. */
  function Erase<E>(b: Buckets<E>, zone: int, id: int): Buckets<E> {
    if zone !in b then b
    else
      var rest := b[zone] - {id};
      if |rest| == 0 then b - {zone} else b[zone := rest]
  }

  function PutIf<E>(wanted: bool, b: Buckets<E>, zone: int, id: int, e: E): Buckets<E> {
    if wanted then Put(b, zone, id, e) else b
  }

  function Add<E>(ix: Index<E>, zone: int, id: int, kind: Kind, e: E): Index<E> {
    Index(Put(ix.entities, zone, id, e), PutIf(kind == PLAYER, ix.players, zone, id, e),
          PutIf(kind == MOB, ix.mobs, zone, id, e), PutIf(kind == NPC, ix.npcs, zone, id, e),
          PutIf(kind == ITEM, ix.items, zone, id, e))
  }

  function Remove<E>(ix: Index<E>, zone: int, id: int): Index<E> {
    Index(Erase(ix.entities, zone, id), Erase(ix.players, zone, id), Erase(ix.mobs, zone, id),
          Erase(ix.npcs, zone, id), Erase(ix.items, zone, id))
  }

  // ----- what Put and Erase do, entry by entry -----

  lemma PutEntries<E>(b: Buckets<E>, zone: int, id: int, e: E)
    ensures forall z, i :: Filed(Put(b, zone, id, e), z, i) <==> (z == zone && i == id) || Filed(b, z, i)
    ensures forall z, i :: Filed(Put(b, zone, id, e), z, i) ==>
      Put(b, zone, id, e)[z][i] == if z == zone && i == id then e else b[z][i]
    ensures NoEmptyBucket(b) ==> NoEmptyBucket(Put(b, zone, id, e))
  {
  }

  lemma EraseEntries<E>(b: Buckets<E>, zone: int, id: int)
    ensures forall z, i :: Filed(Erase(b, zone, id), z, i) <==> !(z == zone && i == id) && Filed(b, z, i)
    ensures forall z, i :: Filed(Erase(b, zone, id), z, i) ==> Erase(b, zone, id)[z][i] == b[z][i]
    ensures NoEmptyBucket(b) ==> NoEmptyBucket(Erase(b, zone, id))
  {
    if zone in b {
      var rest := b[zone] - {id};
      if |rest| == 0 {
        assert forall i :: i in b[zone] && i != id ==> i in rest;
      }
    }
  }

  /** The index of one kind. */
  function Part<E>(ix: Index<E>, kind: Kind): Buckets<E> {
    match kind
    case PLAYER => ix.players
    case MOB => ix.mobs
    case NPC => ix.npcs
    case ITEM => ix.items
  }

  /** Filing: the main index and the index of its kind hold the entity under that zone and id; every
      other entry of every index is as before. */
  lemma AddFiles<E>(ix: Index<E>, zone: int, id: int, kind: Kind, e: E)
    ensures var ix1 := Add(ix, zone, id, kind, e);
      && Filed(ix1.entities, zone, id) && ix1.entities[zone][id] == e
      && Filed(Part(ix1, kind), zone, id) && Part(ix1, kind)[zone][id] == e
      && (forall k :: k != kind ==> Part(ix1, k) == Part(ix, k))
      && (forall z, i :: !(z == zone && i == id) ==>
            && (Filed(ix1.entities, z, i) <==> Filed(ix.entities, z, i))
            && (Filed(Part(ix1, kind), z, i) <==> Filed(Part(ix, kind), z, i)))
      && (forall z, i :: !(z == zone && i == id) && Filed(ix.entities, z, i) ==> ix1.entities[z][i] == ix.entities[z][i])
  {
    PutEntries(ix.entities, zone, id, e);
    PutEntries(Part(ix, kind), zone, id, e);
  }

  /** Un-filing: no index holds anything under that zone and id; every other entry is as before. */
  lemma RemoveUnfiles<E>(ix: Index<E>, zone: int, id: int, kind: Kind)
    ensures var ix1 := Remove(ix, zone, id);
      && !Filed(ix1.entities, zone, id) && !Filed(Part(ix1, kind), zone, id)
      && (forall z, i :: !(z == zone && i == id) ==>
            && (Filed(ix1.entities, z, i) <==> Filed(ix.entities, z, i))
            && (Filed(Part(ix1, kind), z, i) <==> Filed(Part(ix, kind), z, i)))
      && (forall z, i :: Filed(ix1.entities, z, i) ==> ix1.entities[z][i] == ix.entities[z][i])
  {
    EraseEntries(ix.entities, zone, id);
    EraseEntries(Part(ix, kind), zone, id);
  }

  // ----- agreement of the five indexes -----

  ghost predicate NoEmptyBucket<E>(b: Buckets<E>) {
    forall z :: z in b ==> |b[z]| > 0
  }

  /** `part` is exactly the part of `whole` whose entities have kind `k`. */
  ghost predicate HoldsKind<E>(part: Buckets<E>, whole: Buckets<E>, kindOf: E -> Kind, k: Kind) {
    && NoEmptyBucket(part)
    && (forall z, i :: Filed(part, z, i) ==> Filed(whole, z, i) && part[z][i] == whole[z][i] && kindOf(part[z][i]) == k)
    && (forall z, i :: Filed(whole, z, i) && kindOf(whole[z][i]) == k ==> Filed(part, z, i))
  }

  /** The four kind indexes partition the main index, entry for entry, and no inner map is empty. */
  ghost predicate Agree<E>(ix: Index<E>, kindOf: E -> Kind) {
    && NoEmptyBucket(ix.entities)
    && HoldsKind(ix.players, ix.entities, kindOf, PLAYER)
    && HoldsKind(ix.mobs, ix.entities, kindOf, MOB)
    && HoldsKind(ix.npcs, ix.entities, kindOf, NPC)
    && HoldsKind(ix.items, ix.entities, kindOf, ITEM)
  }

  /** Filing an entity where the same id is not already filed under another kind. */
  predicate KindFits<E>(ix: Index<E>, kindOf: E -> Kind, zone: int, id: int, e: E) {
    Filed(ix.entities, zone, id) ==> kindOf(ix.entities[zone][id]) == kindOf(e)
  }

  lemma PutKeepsKind<E>(part: Buckets<E>, whole: Buckets<E>, kindOf: E -> Kind, k: Kind, zone: int, id: int, e: E)
    requires HoldsKind(part, whole, kindOf, k)
    requires Filed(whole, zone, id) ==> kindOf(whole[zone][id]) == kindOf(e)
    ensures HoldsKind(PutIf(kindOf(e) == k, part, zone, id, e), Put(whole, zone, id, e), kindOf, k)
  {
    PutEntries(part, zone, id, e);
    PutEntries(whole, zone, id, e);
  }

  lemma EraseKeepsKind<E>(part: Buckets<E>, whole: Buckets<E>, kindOf: E -> Kind, k: Kind, zone: int, id: int)
    requires HoldsKind(part, whole, kindOf, k)
    ensures HoldsKind(Erase(part, zone, id), Erase(whole, zone, id), kindOf, k)
  {
    EraseEntries(part, zone, id);
    EraseEntries(whole, zone, id);
  }

  lemma AddAgrees<E>(ix: Index<E>, kindOf: E -> Kind, zone: int, id: int, e: E)
    requires Agree(ix, kindOf) && KindFits(ix, kindOf, zone, id, e)
    ensures Agree(Add(ix, zone, id, kindOf(e), e), kindOf)
  {
    PutKeepsKind(ix.players, ix.entities, kindOf, PLAYER, zone, id, e);
    PutKeepsKind(ix.mobs, ix.entities, kindOf, MOB, zone, id, e);
    PutKeepsKind(ix.npcs, ix.entities, kindOf, NPC, zone, id, e);
    PutKeepsKind(ix.items, ix.entities, kindOf, ITEM, zone, id, e);
    assert NoEmptyBucket(Put(ix.entities, zone, id, e)) by { PutEntries(ix.entities, zone, id, e); }
  }

  lemma StaleEntryBreaksKind<E>(part: Buckets<E>, whole: Buckets<E>, kindOf: E -> Kind, k: Kind, zone: int, id: int, e: E)
    requires Filed(part, zone, id) && kindOf(e) != k
    ensures !HoldsKind(PutIf(kindOf(e) == k, part, zone, id, e), Put(whole, zone, id, e), kindOf, k)
  {
    PutEntries(whole, zone, id, e);
  }

  /** For all states in agreement: adding keeps agreement exactly when the id is not filed in that
      zone under another kind. */
  lemma AddAgreesIff<E>(ix: Index<E>, kindOf: E -> Kind, zone: int, id: int, e: E)
    requires Agree(ix, kindOf)
    ensures Agree(Add(ix, zone, id, kindOf(e), e), kindOf) <==> KindFits(ix, kindOf, zone, id, e)
  {
    if KindFits(ix, kindOf, zone, id, e) {
      AddAgrees(ix, kindOf, zone, id, e);
    } else {
      var k := kindOf(ix.entities[zone][id]);
      match k
      case PLAYER => StaleEntryBreaksKind(ix.players, ix.entities, kindOf, k, zone, id, e);
      case MOB => StaleEntryBreaksKind(ix.mobs, ix.entities, kindOf, k, zone, id, e);
      case NPC => StaleEntryBreaksKind(ix.npcs, ix.entities, kindOf, k, zone, id, e);
      case ITEM => StaleEntryBreaksKind(ix.items, ix.entities, kindOf, k, zone, id, e);
    }
  }

  /** Removing keeps agreement always, also for an id that is not filed. */
  lemma RemoveAgrees<E>(ix: Index<E>, kindOf: E -> Kind, zone: int, id: int)
    requires Agree(ix, kindOf)
    ensures Agree(Remove(ix, zone, id), kindOf)
  {
    assert NoEmptyBucket(Erase(ix.entities, zone, id)) by { EraseEntries(ix.entities, zone, id); }
    EraseKeepsKind(ix.players, ix.entities, kindOf, PLAYER, zone, id);
    EraseKeepsKind(ix.mobs, ix.entities, kindOf, MOB, zone, id);
    EraseKeepsKind(ix.npcs, ix.entities, kindOf, NPC, zone, id);
    EraseKeepsKind(ix.items, ix.entities, kindOf, ITEM, zone, id);
  }

  // ----- runs of additions and removals -----

  datatype Op<E> = AddOp(zone: int, id: int, e: E) | RemoveOp(zone: int, id: int)

  function Perform<E>(ix: Index<E>, kindOf: E -> Kind, op: Op<E>): Index<E> {
    match op
    case AddOp(zone, id, e) => Add(ix, zone, id, kindOf(e), e)
    case RemoveOp(zone, id) => Remove(ix, zone, id)
  }

  function PerformAll<E>(kindOf: E -> Kind, ops: seq<Op<E>>): Index<E> {
    if ops == [] then EmptyIndex()
    else Perform(PerformAll(kindOf, ops[..|ops| - 1]), kindOf, ops[|ops| - 1])
  }

  /** Each id keeps one kind over the whole run. */
  ghost predicate StableKinds<E>(kindOf: E -> Kind, idKind: int -> Kind, ops: seq<Op<E>>) {
    forall op :: op in ops && op.AddOp? ==> kindOf(op.e) == idKind(op.id)
  }

  ghost predicate IdsKeepKind<E>(b: Buckets<E>, kindOf: E -> Kind, idKind: int -> Kind) {
    forall z, i :: Filed(b, z, i) ==> kindOf(b[z][i]) == idKind(i)
  }

  lemma OpAgrees<E>(ix: Index<E>, kindOf: E -> Kind, idKind: int -> Kind, op: Op<E>)
    requires Agree(ix, kindOf) && IdsKeepKind(ix.entities, kindOf, idKind)
    requires op.AddOp? ==> kindOf(op.e) == idKind(op.id)
    ensures Agree(Perform(ix, kindOf, op), kindOf)
    ensures IdsKeepKind(Perform(ix, kindOf, op).entities, kindOf, idKind)
  {
    match op
    case AddOp(zone, id, e) =>
      AddAgrees(ix, kindOf, zone, id, e);
      assert IdsKeepKind(Put(ix.entities, zone, id, e), kindOf, idKind) by { PutEntries(ix.entities, zone, id, e); }
    case RemoveOp(zone, id) =>
      RemoveAgrees(ix, kindOf, zone, id);
      assert IdsKeepKind(Erase(ix.entities, zone, id), kindOf, idKind) by { EraseEntries(ix.entities, zone, id); }
  }

  /** Five-index agreement over every run in which the kind of an id is stable. */
  lemma {:induction false} RunsAgree<E>(kindOf: E -> Kind, idKind: int -> Kind, ops: seq<Op<E>>)
    requires StableKinds(kindOf, idKind, ops)
    ensures Agree(PerformAll(kindOf, ops), kindOf)
    ensures IdsKeepKind(PerformAll(kindOf, ops).entities, kindOf, idKind)
    decreases |ops|
  {
    if ops != [] {
      var init, op := ops[..|ops| - 1], ops[|ops| - 1];
      RunsAgree(kindOf, idKind, init);
      OpAgrees(PerformAll(kindOf, init), kindOf, idKind, op);
    }
  }

  /** Stability is needed: re-filing id 7 as a mob leaves it in the player index of its zone. */
  lemma UnstableKindDisagrees()
    ensures var kindOf := (e: Kind) => e;
            !Agree(PerformAll(kindOf, [AddOp(0, 7, PLAYER), AddOp(0, 7, MOB)]), kindOf)
  {
    var kindOf := (e: Kind) => e;
    var ops := [AddOp(0, 7, PLAYER), AddOp(0, 7, MOB)];
    assert ops[..1] == [AddOp(0, 7, PLAYER)] && ops[..1][..0] == [];
    assert PerformAll(kindOf, ops[..1]) == Add(EmptyIndex(), 0, 7, PLAYER, PLAYER);
    assert Filed(PerformAll(kindOf, ops).players, 0, 7);
  }

  /** Looking for players in nearby zones through the main index loses no player. */
  lemma FilterLosesNoPlayer<E>(ix: Index<E>, kindOf: E -> Kind, zone: int)
    requires Agree(ix, kindOf) && zone !in ix.entities
    ensures Bucket(ix.players, zone) == map[]
  {
    if zone in ix.players {
      var id := Member(ix.players[zone].Keys);
      assert Filed(ix.players, zone, id);
    }
  }

  // ----- counting -----

  /** The ids of one zone whose entities are players. */
  ghost function PlayerIds<E>(ix: Index<E>, kindOf: E -> Kind, zone: int): set<int> {
    set i | i in Bucket(ix.entities, zone) && kindOf(ix.entities[zone][i]) == PLAYER
  }

  /** In every index in agreement the player index of a zone holds exactly the players among its
      entities, so their sizes are equal. */
  lemma PlayersOfZone<E>(ix: Index<E>, kindOf: E -> Kind, zone: int)
    requires Agree(ix, kindOf)
    ensures Bucket(ix.players, zone).Keys == PlayerIds(ix, kindOf, zone)
    ensures |Bucket(ix.players, zone)| == |PlayerIds(ix, kindOf, zone)|
  {
    var players := Bucket(ix.players, zone);
    forall i ensures i in players.Keys <==> i in PlayerIds(ix, kindOf, zone) {
      assert i in players ==> Filed(ix.players, zone, i);
      assert i in Bucket(ix.entities, zone) ==> Filed(ix.entities, zone, i);
    }
    assert |players| == |players.Keys|;
  }

  /** Over every run with stable kinds: the player count of each zone is the number of its entities
      that are players, and the counts of all zones sum to the number of filed players. */
  lemma RunsCountPlayers<E>(kindOf: E -> Kind, idKind: int -> Kind, ops: seq<Op<E>>, zone: int, zones: seq<int>)
    requires StableKinds(kindOf, idKind, ops) && Enumerates(zones, PerformAll(kindOf, ops).entities.Keys)
    ensures var ix := PerformAll(kindOf, ops);
      && |Bucket(ix.players, zone)| == |PlayerIds(ix, kindOf, zone)|
      && SumOf(Sizes(ix.entities, zones)) == |Entries(ix.entities)|
      && SumOf(Sizes(ix.players, zones)) == |Entries(ix.players)|
  {
    var ix := PerformAll(kindOf, ops);
    RunsAgree(kindOf, idKind, ops);
    PlayersOfZone(ix, kindOf, zone);
    SizesSumToEntries(ix.entities, zones, ix.entities.Keys);
    forall z | z in ix.players.Keys ensures z in ix.entities.Keys {
      if z !in ix.entities { FilterLosesNoPlayer(ix, kindOf, z); }
    }
    SizesSumToEntries(ix.players, zones, ix.entities.Keys);
  }

  function Entries<E>(b: Buckets<E>): set<(int, int)> {
    set z, i | z in b && i in b[z] :: (z, i)
  }

  function SumOf(counts: seq<int>): int {
    if counts == [] then 0 else SumOf(counts[..|counts| - 1]) + counts[|counts| - 1]
  }

  function Sizes<E>(b: Buckets<E>, zones: seq<int>): seq<int> {
    seq(|zones|, i requires 0 <= i < |zones| => |Bucket(b, zones[i])|)
  }

  lemma PairsCount(z: int, ids: set<int>)
    ensures |set i | i in ids :: (z, i)| == |ids|
  {
    if ids != {} {
      var i := Member(ids);
      PairsCount(z, ids - {i});
      assert (set j | j in ids :: (z, j)) == (set j | j in ids - {i} :: (z, j)) + {(z, i)};
    }
  }

  lemma EntriesOfZone<E>(b: Buckets<E>, z: int)
    ensures |Entries(b)| == |Entries(b - {z})| + |Bucket(b, z)|
  {
    var rest, ids := b - {z}, Bucket(b, z).Keys;
    var mine := set i | i in ids :: (z, i);
    PairsCount(z, ids);
    forall p | p in Entries(b) ensures p in Entries(rest) + mine {
      if p.0 != z { assert p.0 in rest && p.1 in rest[p.0]; }
    }
    assert Entries(b) == Entries(rest) + mine;
    assert Entries(rest) !! mine;
  }

  /** Conservation: over any listing of zones that covers the index, the per-zone counts sum to
      the number of filed entries. */
  lemma {:induction false} SizesSumToEntries<E>(b: Buckets<E>, zones: seq<int>, keys: set<int>)
    requires Enumerates(zones, keys)
    requires b.Keys <= keys
    ensures SumOf(Sizes(b, zones)) == |Entries(b)|
    decreases |zones|
  {
    if zones == [] {
      assert b.Keys == {};
      assert Entries(b) == {};
    } else {
      var init, z := zones[..|zones| - 1], zones[|zones| - 1];
      EnumerationDropsLast(zones, keys);
      var rest := b - {z};
      SizesSumToEntries(rest, init, keys - {z});
      EntriesOfZone(b, z);
      assert Sizes(b, zones)[..|zones| - 1] == Sizes(rest, init) by {
        forall i | 0 <= i < |init| ensures Sizes(rest, init)[i] == Sizes(b, zones)[i] {
          assert zones[i] != z;
        }
      }
    }
  }
}
