/** The index against a brute-force scan: who is told about a move. */
module Reach {
  import opened Prelude
  import opened Grid
  import opened ZoneIndex
  import opened Broadcast
  import opened SessionData
  import opened World

  // ----- exactly the players of the block, each once -----

  lemma TellCount<E>(w: World<E>, e: E, ord: Order, b: Addr)
    requires Inv(w) && IsOrder(ord) && e in w.scene.ents && Online(w, b)
    ensures w.scene.WellFormed() && PlayerOf(w, b) in w.scene.ents
    ensures var i, j := w.scene.ents[e], w.scene.ents[PlayerOf(w, b)];
      Count(TellMail(w.scene, ord, e), Sent(b, MoveOf(i)))
      == if j.zoneId in Block(Cell(i.x, w.scene.zoneSize), Cell(i.y, w.scene.zoneSize)) then 1 else 0
  {
    InvWellFormed(w);
    assert SessionFiled(w, b);
    var sc, i, j := w.scene, w.scene.ents[e], w.scene.ents[PlayerOf(w, b)];
    NearbyMembers(sc.ix.entities, i.x, i.y, sc.zoneSize);
    forall zone, id | Filed(sc.ix.players, zone, id) && !(zone == j.zoneId && id == j.id)
      ensures Sent(b, MoveOf(i)) !in Letter(Tell(MoveOf(i), None), sc.ents[sc.ix.players[zone][id]])
    {
      assert EntryOwned(w, zone, id);
      FiledOnce(w, b, zone, id);
    }
    MailCount(Nearby(sc.ix.entities, i.x, i.y, sc.zoneSize), sc.ix.players, sc.ents, MOVE, ord,
              Tell(MoveOf(i), None), Sent(b, MoveOf(i)), j.zoneId, j.id);
  }

  lemma CountOfAbsent(mail: seq<Sent>, s: Sent)
    requires s !in mail
    ensures Count(mail, s) == 0
  {
  }

  /** The mover after an accepted move. */
  lemma MoverAfter<E>(w: World<E>, a: Addr, x: real, y: real, z: real)
    requires Inv(w) && MayMove(w, a)
    ensures PlayerOf(w, a) in MovePlayer(w, a, x, y, z).scene.ents
    ensures var i, i1, n := w.scene.ents[PlayerOf(w, a)], MovePlayer(w, a, x, y, z).scene.ents[PlayerOf(w, a)], w.scene.zoneSize;
      && i1.id == i.id && i1.x == x && i1.y == y && i1.z == z
      && MoveOf(i1) == Moved(i.id, PLAYER, CellId(Cell(x, n), Cell(y, n)), x, y, z)
  {
    assert SessionFiled(w, a);
  }

  /** One accepted move, in any world of the invariant and with any map orders: the player of session
      `b` is sent the mover's id, kind, new zone and new position exactly once if the zone it is filed
      in is one of the nine ids around the new cell, and otherwise not at all. */
  lemma MoveReachesBlock<E>(w: World<E>, a: Addr, x: real, y: real, z: real, ord: Order, b: Addr)
    requires Inv(w) && MayMove(w, a) && Online(w, b) && IsOrder(ord)
    ensures w.scene.WellFormed() && MovePlayer(w, a, x, y, z).scene.WellFormed()
    ensures PlayerOf(w, b) in MovePlayer(w, a, x, y, z).scene.ents
    ensures var e, n := PlayerOf(w, a), w.scene.zoneSize;
      Count(MoveToMail(w.scene, e, x, y, z, ord), Sent(b, Moved(w.scene.ents[e].id, PLAYER, CellId(Cell(x, n), Cell(y, n)), x, y, z)))
      == if MovePlayer(w, a, x, y, z).scene.ents[PlayerOf(w, b)].zoneId in Block(Cell(x, n), Cell(y, n)) then 1 else 0
  {
    InvWellFormed(w);
    assert SessionFiled(w, a) && SessionFiled(w, b);
    var e, w1, zone := PlayerOf(w, a), MovePlayer(w, a, x, y, z), w.scene.ZoneAt(x, y);
    MovePlayerInv(w, a, x, y, z);
    MoverAfter(w, a, x, y, z);
    TellCount(w1, e, ord, b);
    MoveSceneWellFormed(w.scene, e, x, y, z);
    var s := Sent(b, MoveOf(w1.scene.ents[e]));
    if zone != w.scene.ents[e].zoneId {
      var crossing := CrossingMail(PlaceScene(w.scene, e, x, y, z), ord, e, zone);
      if s in crossing {
        CrossingTellsNoPosition(PlaceScene(w.scene, e, x, y, z), ord, e, zone, s);
      }
      CountOfAbsent(crossing, s);
    }
  }

  /** Nobody else hears of the move: a position goes to a player who is online, and says the mover's id,
      its kind, the zone of the new place and exactly that place. */
  lemma MoveReachesOnlyPlayers<E>(w: World<E>, a: Addr, x: real, y: real, z: real, ord: Order, s: Sent)
    requires Inv(w) && MayMove(w, a) && IsOrder(ord)
    ensures w.scene.WellFormed()
    ensures s in MoveToMail(w.scene, PlayerOf(w, a), x, y, z, ord) && s.packet.Moved? ==>
      var n := w.scene.zoneSize;
      Online(w, s.to) && s.packet == Moved(w.scene.ents[PlayerOf(w, a)].id, PLAYER, CellId(Cell(x, n), Cell(y, n)), x, y, z)
  {
    MoverAfter(w, a, x, y, z);
    InvWellFormed(w);
    assert SessionFiled(w, a);
    MovePlayerInv(w, a, x, y, z);
    InvWellFormed(MovePlayer(w, a, x, y, z));
    MoveSceneWellFormed(w.scene, PlayerOf(w, a), x, y, z);
    if s in MoveToMail(w.scene, PlayerOf(w, a), x, y, z, ord) && s.packet.Moved? {
      PositionReceiver(w, a, x, y, z, ord, s);
    }
  }

  lemma PositionReceiver<E>(w: World<E>, a: Addr, x: real, y: real, z: real, ord: Order, s: Sent)
    requires Inv(w) && MayMove(w, a) && IsOrder(ord) && w.scene.WellFormed()
    requires s in MoveToMail(w.scene, PlayerOf(w, a), x, y, z, ord) && s.packet.Moved?
    ensures Online(w, s.to) && s.packet == MoveOf(MovePlayer(w, a, x, y, z).scene.ents[PlayerOf(w, a)])
  {
    assert SessionFiled(w, a);
    var e, w1, zone := PlayerOf(w, a), MovePlayer(w, a, x, y, z), w.scene.ZoneAt(x, y);
    MovePlayerInv(w, a, x, y, z);
    InvWellFormed(w1);
    MoveSceneWellFormed(w.scene, e, x, y, z);
    if zone != w.scene.ents[e].zoneId && s in CrossingMail(PlaceScene(w.scene, e, x, y, z), ord, e, zone) {
      CrossingTellsNoPosition(PlaceScene(w.scene, e, x, y, z), ord, e, zone, s);
    } else {
      var i := w1.scene.ents[e];
      var at, id := MailSound(Nearby(w1.scene.ix.entities, i.x, i.y, w1.scene.zoneSize), w1.scene.ix.players,
                              w1.scene.ents, MOVE, ord, Tell(MoveOf(i), None), s);
      assert EntryOwned(w1, at, id);
    }
  }

  /** The new place and the place of another player `b` lie in the 999 columns around the origin,
      where ids do not alias. */
  predicate BothInStrip<E>(w: World<E>, a: Addr, x: real, b: Addr) {
    w.scene.zoneSize > 0 && InStrip(Cell(x, w.scene.zoneSize))
    && (b != a && Online(w, b) && PlayerOf(w, b) in w.scene.ents ==> InStrip(Cell(w.scene.ents[PlayerOf(w, b)].x, w.scene.zoneSize)))
  }

  predicate SameBlock(i: Info, j: Info, zoneSize: int)
    requires zoneSize > 0
  {
    Adjacent(Cell(j.x, zoneSize), Cell(i.x, zoneSize)) && Adjacent(Cell(j.y, zoneSize), Cell(i.y, zoneSize))
  }

  /** Inside the strip the indexed broadcast is the brute-force scan over all players for adjacent
      cells, each found player told once. */
  lemma MoveRefinesScan<E>(w: World<E>, a: Addr, x: real, y: real, z: real, ord: Order, b: Addr)
    requires Inv(w) && MayMove(w, a) && Online(w, b) && IsOrder(ord)
    requires BothInStrip(w, a, x, b)
    ensures w.scene.WellFormed() && PlayerOf(w, b) in MovePlayer(w, a, x, y, z).scene.ents
    ensures var e, sc1, n := PlayerOf(w, a), MovePlayer(w, a, x, y, z).scene, w.scene.zoneSize;
      Count(MoveToMail(w.scene, e, x, y, z, ord), Sent(b, Moved(w.scene.ents[e].id, PLAYER, CellId(Cell(x, n), Cell(y, n)), x, y, z)))
      == if SameBlock(sc1.ents[e], sc1.ents[PlayerOf(w, b)], sc1.zoneSize) then 1 else 0
  {
    MoveReachesBlock(w, a, x, y, z, ord, b);
    var w1 := MovePlayer(w, a, x, y, z);
    MovePlayerInv(w, a, x, y, z);
    assert SessionFiled(w1, a) && SessionFiled(w1, b);
    var i, j, n := w1.scene.ents[PlayerOf(w1, a)], w1.scene.ents[PlayerOf(w1, b)], w1.scene.zoneSize;
    assert i.x == x && i.y == y;
    BlockInStrip(Cell(x, n), Cell(y, n), Cell(j.x, n), Cell(j.y, n));
  }

  /** In distances: everyone within one zone side on both axes is told, nobody at three zone sides
      or more on either axis is. */
  lemma MoveReachesByDistance<E>(w: World<E>, a: Addr, x: real, y: real, z: real, ord: Order, b: Addr)
    requires Inv(w) && MayMove(w, a) && Online(w, b) && IsOrder(ord)
    requires BothInStrip(w, a, x, b)
    ensures w.scene.WellFormed() && PlayerOf(w, b) in MovePlayer(w, a, x, y, z).scene.ents
    ensures var e, j, n := PlayerOf(w, a), MovePlayer(w, a, x, y, z).scene.ents[PlayerOf(w, b)], w.scene.zoneSize;
      var told := Count(MoveToMail(w.scene, e, x, y, z, ord),
                        Sent(b, Moved(w.scene.ents[e].id, PLAYER, CellId(Cell(x, n), Cell(y, n)), x, y, z)));
      && (Distance(j.x, x) <= n as real && Distance(j.y, y) <= n as real ==> told == 1)
      && (Distance(j.x, x) >= (3 * n) as real || Distance(j.y, y) >= (3 * n) as real ==> told == 0)
  {
    MoveRefinesScan(w, a, x, y, z, ord, b);
    var w1 := MovePlayer(w, a, x, y, z);
    assert SessionFiled(w, a);
    var j, n := w1.scene.ents[PlayerOf(w, b)], w1.scene.zoneSize;
    if Distance(j.x, x) <= n as real { CloseIsAdjacent(j.x, x, n); }
    if Distance(j.y, y) <= n as real { CloseIsAdjacent(j.y, y, n); }
    if Distance(j.x, x) >= (3 * n) as real { FarIsNotAdjacent(j.x, x, n); }
    if Distance(j.y, y) >= (3 * n) as real { FarIsNotAdjacent(j.y, y, n); }
  }

  // ----- the strip is needed -----

  /** Two online characters 999 columns apart, in cells (499, 0) and (-500, 1), reached by two
      admissible connects. */
  lemma FarApart() returns (w: World<int>, a: Addr, b: Addr, x: real, y: real)
    ensures Inv(w) && w.scene.zoneSize == 100 && Cell(x, 100) == 499 && Cell(y, 100) == 0
    ensures MayMove(w, a) && PlayerOf(w, a) == 1 && Online(w, b) && PlayerOf(w, b) == 2
    ensures 1 in w.scene.ents && Cell(w.scene.ents[1].x, 100) == 499 && w.scene.ents[1].zoneId == CellId(499, 0)
    ensures 2 in w.scene.ents && Cell(w.scene.ents[2].x, 100) == -500 && w.scene.ents[2].zoneId == CellId(-500, 1)
  {
    var login := (id: int) => Fields(Some(id), None, Some(id), None, None, None);
    var w0: World<int> := Start(100, map[1 := Position(49900.0, 0.0, 0.0), 2 := Position(-50000.0, 100.0, 0.0)]);
    a, b, x, y := Addr(1, 1), Addr(2, 2), 49900.0, 0.0;
    StartInv<int>(100, w0.db);
    FittingConnectInv(w0, a, login(1), "k", 0, 1);
    var w1 := ConnectAccepted(w0, a, login(1), "k", 0, 1);
    FittingConnectInv(w1, b, login(2), "k", 0, 2);
    w := ConnectAccepted(w1, b, login(2), "k", 0, 2);
    FarCells();
  }

  lemma FarCells()
    ensures Cell(49900.0, 100) == 499 && Cell(0.0, 100) == 0 && Cell(-50000.0, 100) == -500 && Cell(100.0, 100) == 1
  {
  }

  /** Outside the strip a move is told to a player 999 cells away. */
  lemma AliasReachesFar(ord: Order) returns (w: World<int>, a: Addr, b: Addr, x: real, y: real)
    requires IsOrder(ord)
    ensures Inv(w) && MayMove(w, a) && Online(w, b) && w.scene.WellFormed() && w.scene.zoneSize == 100
    ensures PlayerOf(w, b) in w.scene.ents && Cell(w.scene.ents[PlayerOf(w, b)].x, 100) == -500 && Cell(x, 100) == 499
    ensures Count(MoveToMail(w.scene, PlayerOf(w, a), x, y, 0.0, ord),
                  Sent(b, Moved(w.scene.ents[PlayerOf(w, a)].id, PLAYER, CellId(499, 0), x, y, 0.0))) == 1
  {
    w, a, b, x, y := FarApart();
    BlockAliasesOutsideStrip();
    MoveReachesBlock(w, a, x, y, 0.0, ord, b);
  }
}
