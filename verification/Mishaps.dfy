/** Reached worlds in which the server loses its own invariant, or a client does not see a neighbour. */
module Mishaps {
  import opened Prelude
  import opened Grid
  import opened ZoneIndex
  import opened Broadcast
  import opened SessionData
  import opened World
  import opened View
  import opened Coherence
  import opened SystemRuns

  /** A character without a stored place joined at the origin and walked 250 away. */
  lemma WalkedAway() returns (w0: World<int>, w: World<int>, a: Addr)
    ensures w0 == Start(100, map[]) && Reachable(w0, w) && Inv(w) && w.scene.zoneSize == 100 && w.db == map[]
    ensures a != NO_ADDR && Online(w, a) && PlayerOf(w, a) in w.scene.ents && 2 !in w.scene.ents
    ensures InfoOf(w, a) == Info(1, PLAYER, 250.0, 0.0, 0.0, 2, Some(a))
  {
    a := Addr(1, 1);
    OrderExists();
    var ord :| IsOrder(ord);
    var w1, cs;
    w0, w1, cs := OneAtOrigin(a, ord);
    w := Walked(w1, a, w0);
  }

  lemma Walked(w1: World<int>, a: Addr, w0: World<int>) returns (w: World<int>)
    requires Inv(w1) && MayMove(w1, a) && a != NO_ADDR && PlayerOf(w1, a) == 1 && InfoOf(w1, a) == AtOrigin(1, a)
    requires w1.scene.zoneSize == 100 && w1.db == map[] && w1.scene.ents.Keys == {1} && Reachable(w0, w1)
    ensures Inv(w) && Reachable(w0, w) && w.scene.zoneSize == 100 && w.db == map[] && 2 !in w.scene.ents
    ensures Online(w, a) && PlayerOf(w, a) in w.scene.ents && InfoOf(w, a) == Info(1, PLAYER, 250.0, 0.0, 0.0, 2, Some(a))
  {
    w := MovePlayer(w1, a, 250.0, 0.0, 0.0);
    MovePlayerInv(w1, a, 250.0, 0.0, 0.0);
    MoveFrame(w1, a, 250.0, 0.0, 0.0, a);
    FarFromOrigin();
    ReachableStep(w0, w1, Move(a, 250.0, 0.0, 0.0), w);
  }

  lemma ElsewhereBreaks(w: World<int>, ev: Event<int>, i: Info)
    requires Inv(w) && Genuine(w, ev) && ev.Connect? && ev.reply.Some?
    requires Online(w, ev.from) && PlayerOf(w, ev.from) in w.scene.ents
    requires i == Newcomer(w, ev.from, ev.reply.value) && i.zoneId != InfoOf(w, ev.from).zoneId
    ensures !Inv(Step(w, ev))
  {
    StepInvIff(w, ev);
  }

  lemma AgainAtOrigin(w: World<int>, a: Addr, id: int) returns (r: Fields, i: Info)
    requires w.scene.zoneSize == 100 && w.db == map[]
    ensures r.charId == Some(id) && i == Newcomer(w, a, r) && i.zoneId == 0
  {
    r := LoginOf(id);
    i := NewcomerIs(w, a, id);
  }

  /** A player away from the origin, and the login of the character it plays. */
  lemma LoginElsewhere() returns (w0: World<int>, w: World<int>, a: Addr, r: Fields, i: Info)
    ensures w0 == Start(100, map[]) && Reachable(w0, w) && Inv(w) && w.scene.zoneSize > 0 && 2 !in w.scene.ents
    ensures a != NO_ADDR && Online(w, a) && PlayerOf(w, a) in w.scene.ents && r.charId == Some(InfoOf(w, a).id)
    ensures i == Newcomer(w, a, r) && i.zoneId != InfoOf(w, a).zoneId
  {
    w0, w, a := WalkedAway();
    r, i := AgainAtOrigin(w, a, 1);
  }

  /** Connecting again with the character it plays: the earlier player stays filed where it walked. */
  lemma ReconnectBreaks() returns (w0: World<int>, w: World<int>, ev: Event<int>)
    ensures w0 == Start(100, map[]) && Reachable(w0, w) && Inv(w) && w.scene.zoneSize > 0
    ensures Genuine(w, ev) && ev.Connect? && ev.reply.Some? && Online(w, ev.from) && PlayerOf(w, ev.from) in w.scene.ents
    ensures ev.reply.value.charId == Some(InfoOf(w, ev.from).id) && !Inv(Step(w, ev))
  {
    var a, r, i;
    w0, w, a, r, i := LoginElsewhere();
    ev := Connect(a, Some(r), "k", 0, 2);
    ElsewhereBreaks(w, ev, i);
  }

  /** A connect that Redis does not know, from an endpoint that plays: the player stays filed. */
  lemma RefusalBreaks() returns (w0: World<int>, w: World<int>, ev: Event<int>)
    ensures w0 == Start(100, map[]) && Reachable(w0, w) && Inv(w) && w.scene.zoneSize > 0
    ensures Genuine(w, ev) && ev.Connect? && ev.reply.None? && !Inv(Step(w, ev))
  {
    var a;
    w0, w, a := WalkedAway();
    ev := Connect(a, None, "k", 0, 2);
    StepInvIff(w, ev);
  }

  /** Halving the zone size while a player is online: it stays filed in the zone of the old size. */
  lemma ResizeBreaks() returns (w0: World<int>, w: World<int>)
    ensures w0 == Start(100, map[]) && Reachable(w0, w) && Inv(w) && !Inv(Resized(w, 50))
  {
    var a;
    w0, w, a := WalkedAway();
    assert Cell(250.0, 50) == 5 && Cell(0.0, 50) == 0;
    assert !InPlace(w, a, 50);
    ResizeKeepsInvIff(w, 50);
  }
}
