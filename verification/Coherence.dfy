/** Server and clients together: exact views after a crossing, a step inside a zone, a join and a
    leave, and the coherence every run keeps. */
module Coherence {
  import opened Prelude
  import opened Grid
  import opened ZoneIndex
  import opened Broadcast
  import opened World
  import opened View
  import T = EntityTable

  function PlaceOf(i: Info): T.Location {
    T.Location(i.x, i.y, i.z)
  }

  /** The entry a client without one gets from a spawn. */
  function EntryOf(i: Info): T.EntityInfo {
    T.EntityInfo(i.id, PLAYER, i.zoneId, PlaceOf(i))
  }

  /** A move that changes the zone of the player of session `a`. */
  ghost predicate Crosses<E>(w: World<E>, a: Addr, x: real, y: real) {
    && Inv(w) && MayMove(w, a)
    && w.scene.ZoneAt(x, y) != InfoOf(w, a).zoneId
  }

  function MailOfMove<E>(w: World<E>, a: Addr, x: real, y: real, z: real, ord: Order): seq<Sent>
    requires Inv(w) && MayMove(w, a) && IsOrder(ord)
  {
    InvWellFormed(w);
    MoveToMail(w.scene, PlayerOf(w, a), x, y, z, ord)
  }

  // ----- crossing into another zone -----

  /** The mail of a crossing is a leave, a join and a position, in this order. */
  lemma CrossingParts<E>(w: World<E>, a: Addr, x: real, y: real, z: real, ord: Order)
    requires Crosses(w, a, x, y) && IsOrder(ord)
    ensures var w1, ents1 := MovePlayer(w, a, x, y, z), w.scene.ents[PlayerOf(w, a) := InfoOf(w, a).(x := x, y := y, z := z)];
      && Inv(w1) && Online(w1, a) && w.scene.WellFormed() && w1.scene.WellFormed() && PlayerOf(w1, a) == PlayerOf(w, a)
      && SameButZone(ents1, w1.scene.ents, PlayerOf(w, a))
      && Known(w1.scene.ix.entities, ents1) && Known(w1.scene.ix.players, ents1)
      && InfoOf(w1, a) == InfoOf(w, a).(x := x, y := y, z := z, zoneId := w.scene.ZoneAt(x, y))
      && MailOfMove(w, a, x, y, z, ord)
         == LeaveMail(w, a, x, y, z, ord) + JoinMail(w1, a, ents1, ord) + TellMail(w1.scene, ord, PlayerOf(w, a))
  {
    var w1, e := MovePlayer(w, a, x, y, z), PlayerOf(w, a);
    assert SessionFiled(w, a);
    InvWellFormed(w);
    MovePlayerInv(w, a, x, y, z);
    InvWellFormed(w1);
    MoveSceneWellFormed(w.scene, e, x, y, z);
    RefileKeepsKnown(w.scene.ix, PlaceScene(w.scene, e, x, y, z).ents, InfoOf(w, a).(x := x, y := y, z := z), w.scene.ZoneAt(x, y), e);
  }

  /** Three mails one after another, as they act on one entry. */
  lemma DeliverThree(cs: Clients, m1: seq<Sent>, m2: seq<Sent>, m3: seq<Sent>, b: Addr, k: int)
    requires b in cs
    ensures b in Deliver(cs, m1 + m2 + m3)
    ensures var sel := cs[b].selected;
      Lookup(Deliver(cs, m1 + m2 + m3)[b], k)
      == Fate(sel, m3, b, k, Fate(sel, m2, b, k, Fate(sel, m1, b, k, Lookup(cs[b], k))))
  {
    var sel, was := cs[b].selected, Lookup(cs[b], k);
    DeliverLookup(cs, m1 + m2 + m3, b, k);
    FateAppend(sel, m1 + m2, m3, b, k, was);
    FateAppend(sel, m1, m2, b, k, was);
  }

  lemma CrossingKeepsOthers<E>(w: World<E>, a: Addr, x: real, y: real, z: real, b: Addr)
    requires Crosses(w, a, x, y) && Online(w, b) && a != b
    ensures PlayerOf(w, a) in w.scene.ents && PlayerOf(w, b) in w.scene.ents && InfoOf(w, a).kind == PLAYER
    ensures var w1 := MovePlayer(w, a, x, y, z);
      Online(w1, b) && PlayerOf(w1, b) in w1.scene.ents && InfoOf(w1, b) == InfoOf(w, b) && w1.scene.zoneSize == w.scene.zoneSize
  {
    assert SessionFiled(w, a) && SessionFiled(w, b) && IdsDiffer(w, a, b);
  }

  /** A spawn and then the position leave exactly the entry of that place. */
  lemma IntroducedEntry(sel: int, i: Info)
    requires i.kind == PLAYER
    ensures Effect(sel, MoveOf(i), i.id, Effect(sel, SpawnOf(i, i.zoneId), i.id, None)) == Some(EntryOf(i))
  {
  }

  /** Others: everyone filed around the new position ends with exactly the mover's new entry, and
      no other entry of anybody changes. */
  lemma CrossingSeenByOthers<E>(w: World<E>, a: Addr, x: real, y: real, z: real, ord: Order, cs: Clients, b: Addr, k: int)
    requires Crosses(w, a, x, y) && IsOrder(ord) && Online(w, b) && a != b && b in cs
    ensures PlayerOf(w, b) in w.scene.ents && b in Deliver(cs, MailOfMove(w, a, x, y, z, ord))
    ensures var i1 := InfoOf(w, a).(x := x, y := y, z := z, zoneId := w.scene.ZoneAt(x, y));
      Lookup(Deliver(cs, MailOfMove(w, a, x, y, z, ord))[b], k)
      == if k == i1.id && Around(InfoOf(w, b).zoneId, x, y, w.scene.zoneSize) then Some(EntryOf(i1)) else Lookup(cs[b], k)
  {
    CrossingParts(w, a, x, y, z, ord);
    var w1, e, sel, was := MovePlayer(w, a, x, y, z), PlayerOf(w, a), cs[b].selected, Lookup(cs[b], k);
    var ents1 := w.scene.ents[e := InfoOf(w, a).(x := x, y := y, z := z)];
    var leave, join, tell := LeaveMail(w, a, x, y, z, ord), JoinMail(w1, a, ents1, ord), TellMail(w1.scene, ord, e);
    CrossingKeepsOthers(w, a, x, y, z, b);
    DeliverThree(cs, leave, join, tell, b, k);
    LeaveFateOther(w, a, x, y, z, ord, b, sel, k, was);
    JoinFateOther(w1, a, ents1, ord, b, sel, k, Fate(sel, leave, b, k, was));
    TellFate(w1, a, ord, b, sel, k, Fate(sel, join, b, k, Fate(sel, leave, b, k, was)));
    IntroducedEntry(sel, InfoOf(w1, a));
  }

  /** The three phases, as they act on the mover's own table. */
  lemma CrossingSelfPhases<E>(w: World<E>, a: Addr, x: real, y: real, z: real, ord: Order, cs: Clients, k: int)
    requires Crosses(w, a, x, y) && IsOrder(ord) && a in cs
    ensures a in Deliver(cs, MailOfMove(w, a, x, y, z, ord))
    ensures Inv(MovePlayer(w, a, x, y, z)) && Online(MovePlayer(w, a, x, y, z), a)
    ensures Known(MovePlayer(w, a, x, y, z).scene.ix.entities, MovePlayer(w, a, x, y, z).scene.ents)
    ensures PlayerOf(MovePlayer(w, a, x, y, z), a) in MovePlayer(w, a, x, y, z).scene.ents
    ensures var w1, sel := MovePlayer(w, a, x, y, z), cs[a].selected;
      var i1 := InfoOf(w1, a);
      var left := if k != i1.id && FiledAround(w, k, x, y) then None else Lookup(cs[a], k);
      var shown := if Filed(w1.scene.ix.entities, i1.zoneId, k)
        then Effect(sel, SpawnOf(w1.scene.ents[w1.scene.ix.entities[i1.zoneId][k]], i1.zoneId), k, left) else left;
      Lookup(Deliver(cs, MailOfMove(w, a, x, y, z, ord))[a], k)
      == if k == i1.id then Effect(sel, MoveOf(i1), k, shown) else shown
  {
    CrossingParts(w, a, x, y, z, ord);
    var w1, e, sel, was := MovePlayer(w, a, x, y, z), PlayerOf(w, a), cs[a].selected, Lookup(cs[a], k);
    var ents1 := w.scene.ents[e := InfoOf(w, a).(x := x, y := y, z := z)];
    var leave, join, tell := LeaveMail(w, a, x, y, z, ord), JoinMail(w1, a, ents1, ord), TellMail(w1.scene, ord, e);
    DeliverThree(cs, leave, join, tell, a, k);
    LeaveFateSelf(w, a, x, y, z, ord, sel, k, was);
    JoinFateSelf(w1, a, ents1, ord, sel, k, Fate(sel, leave, a, k, was));
    TellFate(w1, a, ord, a, sel, k, Fate(sel, join, a, k, Fate(sel, leave, a, k, was)));
    OwnZoneNear(w1, a);
  }

  lemma FiledStaysAround<E>(w: World<E>, a: Addr, x: real, y: real, z: real, k: int)
    requires Crosses(w, a, x, y)
    ensures Inv(MovePlayer(w, a, x, y, z))
    ensures PlayerOf(w, a) in w.scene.ents
    ensures k != InfoOf(w, a).id ==>
      && (Filed(MovePlayer(w, a, x, y, z).scene.ix.entities, w.scene.ZoneAt(x, y), k) ==> FiledAround(w, k, x, y))
      && (FiledAround(MovePlayer(w, a, x, y, z), k, x, y) <==> FiledAround(w, k, x, y))
  {
    MovePlayerInv(w, a, x, y, z);
    assert SessionFiled(w, a);
    var w1, e, zone := MovePlayer(w, a, x, y, z), PlayerOf(w, a), w.scene.ZoneAt(x, y);
    var i := InfoOf(w, a);
    RefiledEntries(w.scene.ix, i.(x := x, y := y, z := z), zone, e);
    OwnCellInBlock(Cell(x, w.scene.zoneSize), Cell(y, w.scene.zoneSize));
    assert Around(zone, x, y, w.scene.zoneSize);
    if k != i.id {
      assert forall at :: Filed(w1.scene.ix.entities, at, k) <==> Filed(w.scene.ix.entities, at, k);
    }
  }

  /** The mover: of the players filed around the new position it holds exactly itself and those of
      its new zone, each at its current place; entries of players elsewhere stay as they were. */
  lemma CrossingSeenBySelf<E>(w: World<E>, a: Addr, x: real, y: real, z: real, ord: Order, cs: Clients, k: int)
    requires Crosses(w, a, x, y) && IsOrder(ord) && a in cs && cs[a].selected == InfoOf(w, a).id
    ensures a in Deliver(cs, MailOfMove(w, a, x, y, z, ord))
    ensures Inv(MovePlayer(w, a, x, y, z))
    ensures Known(MovePlayer(w, a, x, y, z).scene.ix.entities, MovePlayer(w, a, x, y, z).scene.ents)
    ensures var i, w1, zone := InfoOf(w, a), MovePlayer(w, a, x, y, z), w.scene.ZoneAt(x, y);
      Lookup(Deliver(cs, MailOfMove(w, a, x, y, z, ord))[a], k)
      == if k == i.id then
           Some(if Lookup(cs[a], k).Some? then Lookup(cs[a], k).value.(at := T.Location(x, y, z))
                else T.EntityInfo(k, PLAYER, zone, T.Location(x, y, z)))
         else if Filed(w1.scene.ix.entities, zone, k) then
           Some(EntryOf(w1.scene.ents[w1.scene.ix.entities[zone][k]]))
         else if FiledAround(w, k, x, y) then None
         else Lookup(cs[a], k)
  {
    CrossingSelfPhases(w, a, x, y, z, ord, cs, k);
    FiledStaysAround(w, a, x, y, z, k);
    CrossingOwnEntry(w, a, x, y, z);
    var w1 := MovePlayer(w, a, x, y, z);
    var zone := w.scene.ZoneAt(x, y);
    assert EntryOwned(w1, zone, k);
    if Filed(w1.scene.ix.entities, zone, k) {
      assert SessionFiled(w1, w1.scene.ents[w1.scene.ix.entities[zone][k]].session.value);
    }
  }

  lemma CrossingOwnEntry<E>(w: World<E>, a: Addr, x: real, y: real, z: real)
    requires Crosses(w, a, x, y)
    ensures Inv(MovePlayer(w, a, x, y, z)) && Online(MovePlayer(w, a, x, y, z), a)
    ensures PlayerOf(MovePlayer(w, a, x, y, z), a) in MovePlayer(w, a, x, y, z).scene.ents
    ensures var w1, zone := MovePlayer(w, a, x, y, z), w.scene.ZoneAt(x, y);
      && InfoOf(w1, a) == InfoOf(w, a).(x := x, y := y, z := z, zoneId := zone)
      && InfoOf(w1, a).kind == PLAYER
      && Filed(w1.scene.ix.entities, zone, InfoOf(w, a).id)
      && w1.scene.ix.entities[zone][InfoOf(w, a).id] == PlayerOf(w, a)
  {
    MovePlayerInv(w, a, x, y, z);
    assert SessionFiled(w, a) && SessionFiled(MovePlayer(w, a, x, y, z), a);
  }

  /** End to end: after a crossing every player around the new position, the mover included, holds
      the mover at its new place, and of the players filed around it the mover holds itself and
      those of its new zone and no others. */
  lemma CrossingEndToEnd<E>(w: World<E>, a: Addr, x: real, y: real, z: real, ord: Order, cs: Clients)
    requires Crosses(w, a, x, y) && IsOrder(ord) && a in cs && cs[a].selected == InfoOf(w, a).id
    requires forall b :: Online(w, b) ==> b in cs
    ensures var i, w1, cs1 := InfoOf(w, a), MovePlayer(w, a, x, y, z), Deliver(cs, MailOfMove(w, a, x, y, z, ord));
      && Inv(w1)
      && (forall b :: Online(w1, b) && PlayerOf(w1, b) in w1.scene.ents && Around(InfoOf(w1, b).zoneId, x, y, w1.scene.zoneSize) ==>
            b in cs1 && Lookup(cs1[b], i.id).Some? && Lookup(cs1[b], i.id).value.at == T.Location(x, y, z))
      && a in cs1
      && (forall k :: FiledAround(w1, k, x, y) ==>
            (k in cs1[a].t.entities <==> Filed(w1.scene.ix.entities, w.scene.ZoneAt(x, y), k)))
  {
    var i, w1, cs1 := InfoOf(w, a), MovePlayer(w, a, x, y, z), Deliver(cs, MailOfMove(w, a, x, y, z, ord));
    var zone, e := w.scene.ZoneAt(x, y), PlayerOf(w, a);
    CrossingSeenBySelf(w, a, x, y, z, ord, cs, i.id);
    forall b | Online(w1, b) && PlayerOf(w1, b) in w1.scene.ents && Around(InfoOf(w1, b).zoneId, x, y, w1.scene.zoneSize)
      ensures b in cs1 && Lookup(cs1[b], i.id).Some? && Lookup(cs1[b], i.id).value.at == T.Location(x, y, z)
    {
      if b != a {
        assert SessionFiled(w, b) && IdsDiffer(w, a, b);
        CrossingSeenByOthers(w, a, x, y, z, ord, cs, b, i.id);
      }
    }
    CrossingOwnEntry(w, a, x, y, z);
    forall k | FiledAround(w1, k, x, y) ensures k in cs1[a].t.entities <==> Filed(w1.scene.ix.entities, zone, k) {
      CrossingSeenBySelf(w, a, x, y, z, ord, cs, k);
      FiledStaysAround(w, a, x, y, z, k);
    }
  }

  /** A player who was near the mover's old place but is not around the new one is told nothing:
      its entry for the mover stays at the old place. */
  lemma CrossingLeavesStaleEntry<E>(w: World<E>, a: Addr, x: real, y: real, z: real, ord: Order, cs: Clients, b: Addr)
    requires Crosses(w, a, x, y) && IsOrder(ord) && Online(w, b) && a != b && b in cs
    requires PlayerOf(w, b) in w.scene.ents && !Around(InfoOf(w, b).zoneId, x, y, w.scene.zoneSize)
    ensures b in Deliver(cs, MailOfMove(w, a, x, y, z, ord))
    ensures forall k :: Lookup(Deliver(cs, MailOfMove(w, a, x, y, z, ord))[b], k) == Lookup(cs[b], k)
  {
    CrossingSeenByOthers(w, a, x, y, z, ord, cs, b, 0);
    forall k ensures Lookup(Deliver(cs, MailOfMove(w, a, x, y, z, ord))[b], k) == Lookup(cs[b], k) {
      CrossingSeenByOthers(w, a, x, y, z, ord, cs, b, k);
    }
  }

  // ----- a step inside a zone -----

  /** Inside a zone only the mover's entry changes, only where there is one, and never its own. */
  lemma StepSeen<E>(w: World<E>, a: Addr, x: real, y: real, z: real, ord: Order, cs: Clients, b: Addr, k: int)
    requires Inv(w) && MayMove(w, a) && !Crosses(w, a, x, y) && IsOrder(ord) && Online(w, b) && b in cs
    ensures PlayerOf(w, b) in w.scene.ents && b in Deliver(cs, MailOfMove(w, a, x, y, z, ord))
    ensures var was := Lookup(cs[b], k);
      Lookup(Deliver(cs, MailOfMove(w, a, x, y, z, ord))[b], k)
      == if k == InfoOf(w, a).id && k != cs[b].selected && was.Some? && Around(InfoOf(w, b).zoneId, x, y, w.scene.zoneSize)
         then Some(was.value.(at := T.Location(x, y, z))) else was
  {
    var w1, e := MovePlayer(w, a, x, y, z), PlayerOf(w, a);
    InvWellFormed(w);
    MovePlayerInv(w, a, x, y, z);
    assert SessionFiled(w, a) && SessionFiled(w, b);
    MoveSceneWellFormed(w.scene, e, x, y, z);
    assert MailOfMove(w, a, x, y, z, ord) == TellMail(w1.scene, ord, e);
    DeliverLookup(cs, MailOfMove(w, a, x, y, z, ord), b, k);
    TellFate(w1, a, ord, b, cs[b].selected, k, Lookup(cs[b], k));
  }
}
