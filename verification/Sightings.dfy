/** What clients hold of players in the zones around them, over every run. */
module Sightings {
  import opened Prelude
  import opened Grid
  import opened ZoneIndex
  import opened Broadcast
  import opened SessionData
  import opened World
  import opened View
  import opened Coherence
  import opened SystemRuns

  /** A client whose player's zone is around another player holds that player where it is now, or not
      at all. */
  ghost predicate Current<E>(w: World<E>, cs: Clients, b: Addr, c: Addr) {
    Near(w, b, c) ==>
      b in cs && (Lookup(cs[b], InfoOf(w, c).id).Some? ==> Lookup(cs[b], InfoOf(w, c).id).value.at == PlaceOf(InfoOf(w, c)))
  }

  /** `b` and `c` play, and the zone of `b` is around the place of `c`. */
  ghost predicate Near<E>(w: World<E>, b: Addr, c: Addr) {
    && b != c && w.scene.zoneSize > 0 && Online(w, b) && Online(w, c)
    && PlayerOf(w, b) in w.scene.ents && PlayerOf(w, c) in w.scene.ents
    && Around(InfoOf(w, b).zoneId, InfoOf(w, c).x, InfoOf(w, c).y, w.scene.zoneSize)
  }

  /** Same-zone players hold each other where they are, and nobody around holds anything outdated. */
  ghost predicate Truthful<E>(w: World<E>, cs: Clients) {
    Coherent(w, cs) && forall b, c :: Current(w, cs, b, c)
  }

  /** Nearness is mutual, so a player filed around `b` is told about `b`, and the other way round. */
  lemma NearIsMutual<E>(w: World<E>, b: Addr, c: Addr)
    requires Inv(w)
    ensures Near(w, b, c) <==> Near(w, c, b)
  {
    if Online(w, b) && Online(w, c) {
      assert SessionFiled(w, b) && SessionFiled(w, c);
      var i, j, n := InfoOf(w, b), InfoOf(w, c), w.scene.zoneSize;
      BlockIsMutual(Cell(i.x, n), Cell(i.y, n), Cell(j.x, n), Cell(j.y, n));
    }
  }

  /** What the mover holds of a player around its new zone: it was told, or lost, or never had it. */
  lemma CrossingShowsOthers<E>(w: World<E>, a: Addr, x: real, y: real, z: real, ord: Order, cs: Clients, c: Addr)
    requires Crosses(w, a, x, y) && IsOrder(ord) && Played(w, cs, a) && Near(MovePlayer(w, a, x, y, z), a, c)
    ensures Current(MovePlayer(w, a, x, y, z), Deliver(cs, MailOfMove(w, a, x, y, z, ord)), a, c)
  {
    var w1, zone := MovePlayer(w, a, x, y, z), w.scene.ZoneAt(x, y);
    MoveFrame(w, a, x, y, z, a);
    MoveFrame(w, a, x, y, z, c);
    var id := InfoOf(w1, c).id;
    CrossingSeenBySelf(w, a, x, y, z, ord, cs, id);
    FiledHere(w1, c);
    if Filed(w1.scene.ix.entities, zone, id) {
      FiledOnce(w1, c, zone, id);
    } else {
      NearIsMutual(w1, a, c);
      FiledHere(w, c);
    }
  }

  lemma FiledHere<E>(w: World<E>, c: Addr)
    requires Inv(w) && Online(w, c)
    ensures PlayerOf(w, c) in w.scene.ents && Filed(w.scene.ix.entities, InfoOf(w, c).zoneId, InfoOf(w, c).id)
    ensures w.scene.ix.entities[InfoOf(w, c).zoneId][InfoOf(w, c).id] == PlayerOf(w, c)
  {
    assert SessionFiled(w, c);
  }

  lemma CrossingCurrent<E>(w: World<E>, a: Addr, x: real, y: real, z: real, ord: Order, cs: Clients, b: Addr, c: Addr)
    requires Crosses(w, a, x, y) && IsOrder(ord) && Played(w, cs, a) && Played(w, cs, b) && Current(w, cs, b, c)
    ensures Current(MovePlayer(w, a, x, y, z), Deliver(cs, MailOfMove(w, a, x, y, z, ord)), b, c)
  {
    var w1 := MovePlayer(w, a, x, y, z);
    if Near(w1, b, c) {
      if b == a {
        CrossingShowsOthers(w, a, x, y, z, ord, cs, c);
      } else {
        MoveFrame(w, a, x, y, z, a);
        MoveFrame(w, a, x, y, z, b);
        MoveFrame(w, a, x, y, z, c);
        CrossingSeenByOthers(w, a, x, y, z, ord, cs, b, InfoOf(w1, c).id);
      }
    }
  }

  lemma StepCurrent<E>(w: World<E>, a: Addr, x: real, y: real, z: real, ord: Order, cs: Clients, b: Addr, c: Addr)
    requires Inv(w) && MayMove(w, a) && !Crosses(w, a, x, y) && IsOrder(ord) && Played(w, cs, b) && Current(w, cs, b, c)
    ensures Current(MovePlayer(w, a, x, y, z), Deliver(cs, MailOfMove(w, a, x, y, z, ord)), b, c)
  {
    var w1 := MovePlayer(w, a, x, y, z);
    MoveFrame(w, a, x, y, z, a);
    MoveFrame(w, a, x, y, z, b);
    MoveFrame(w, a, x, y, z, c);
    if Near(w1, b, c) {
      StepSeen(w, a, x, y, z, ord, cs, b, InfoOf(w1, c).id);
    }
  }

  lemma MoveTruthful<E>(w: World<E>, a: Addr, x: real, y: real, z: real, ord: Order, cs: Clients)
    requires Truthful(w, cs) && MayMove(w, a) && IsOrder(ord)
    ensures Truthful(MovePlayer(w, a, x, y, z), Deliver(cs, MailOfMove(w, a, x, y, z, ord)))
  {
    MoveCoherent(w, a, x, y, z, ord, cs);
    forall b, c ensures Current(MovePlayer(w, a, x, y, z), Deliver(cs, MailOfMove(w, a, x, y, z, ord)), b, c) {
      assert Played(w, cs, a) && Played(w, cs, b) && Current(w, cs, b, c);
      if Crosses(w, a, x, y) { CrossingCurrent(w, a, x, y, z, ord, cs, b, c); }
      else { StepCurrent(w, a, x, y, z, ord, cs, b, c); }
    }
  }

  /** A client that holds nothing of players other than its own. */
  ghost predicate Blank(client: Client) {
    forall k :: k != client.selected ==> Lookup(client, k) == None
  }

  lemma JoinCurrent<E>(w: World<E>, w1: World<E>, a: Addr, client: Client, ord: Order, cs: Clients, b: Addr, c: Addr)
    requires Truthful(w, cs) && Inv(w1) && Online(w1, a) && IsOrder(ord) && Blank(client) && Played(w1, cs[a := client], a)
    requires w1.scene.zoneSize == w.scene.zoneSize && forall d :: d != a ==> Unmoved(w, w1, d)
    ensures Current(w1, Deliver(cs[a := client], MailOfJoin(w1, a, ord)), b, c)
  {
    if Near(w1, b, c) {
      assert SessionFiled(w1, a) && SessionFiled(w1, b) && SessionFiled(w1, c) && IdsDiffer(w1, b, c) && IdsDiffer(w1, a, c);
      if b != a { assert Unmoved(w, w1, b) && SessionFiled(w, b) && Played(w, cs, b); }
      if c != a { assert Unmoved(w, w1, c) && SessionFiled(w, c) && Current(w, cs, b, c); }
      var id, zone := InfoOf(w1, c).id, InfoOf(w1, a).zoneId;
      JoinSeen(w1, a, ord, cs[a := client], b, id);
      if Filed(w1.scene.ix.entities, zone, id) { FiledOnce(w1, c, zone, id); }
    }
  }

  /** Why "or not at all": a newcomer that starts blank is shown its own zone and nobody else, however
      near. */
  lemma NewcomerHoldsIff<E>(w1: World<E>, a: Addr, client: Client, ord: Order, cs: Clients, c: Addr)
    requires Inv(w1) && Online(w1, a) && Online(w1, c) && a != c && IsOrder(ord) && Blank(client) && Played(w1, cs[a := client], a)
    ensures PlayerOf(w1, a) in w1.scene.ents && PlayerOf(w1, c) in w1.scene.ents
    ensures a in Deliver(cs[a := client], MailOfJoin(w1, a, ord))
    ensures Lookup(Deliver(cs[a := client], MailOfJoin(w1, a, ord))[a], InfoOf(w1, c).id).Some?
       <==> InfoOf(w1, c).zoneId == InfoOf(w1, a).zoneId
  {
    FiledHere(w1, a);
    FiledHere(w1, c);
    assert IdsDiffer(w1, a, c);
    var id, zone := InfoOf(w1, c).id, InfoOf(w1, a).zoneId;
    JoinSeen(w1, a, ord, cs[a := client], a, id);
    if Filed(w1.scene.ix.entities, zone, id) { FiledOnce(w1, c, zone, id); }
  }

  lemma JoinTruthful<E>(w: World<E>, a: Addr, r: Fields, key: string, now: int, e: E, client: Client, ord: Order, cs: Clients)
    requires Truthful(w, cs) && Admissible(w, Connect(a, Some(r), key, now, e)) && IsOrder(ord)
    requires client.selected == Newcomer(w, a, r).id && Blank(client)
    ensures Inv(ConnectAccepted(w, a, r, key, now, e)) && Online(ConnectAccepted(w, a, r, key, now, e), a)
    ensures Truthful(ConnectAccepted(w, a, r, key, now, e),
                     Deliver(cs[a := client], MailOfJoin(ConnectAccepted(w, a, r, key, now, e), a, ord)))
  {
    JoinCoherent(w, a, r, key, now, e, client, ord, cs);
    var w1 := ConnectAccepted(w, a, r, key, now, e);
    forall d | d != a ensures Unmoved(w, w1, d) {
      JoinUnmoved(w, a, r, key, now, e, d);
    }
    var cs0 := cs[a := client];
    assert Played(w1, cs0, a);
    var cs1 := Deliver(cs0, MailOfJoin(w1, a, ord));
    forall b, c ensures Current(w1, cs1, b, c) {
      JoinCurrent(w, w1, a, client, ord, cs, b, c);
    }
  }

  lemma LeaveTruthful<E>(w: World<E>, a: Addr, ord: Order, cs: Clients)
    requires Truthful(w, cs) && Online(w, a) && IsOrder(ord)
    ensures Truthful(Disconnect(w, a), Deliver(cs, MailOfLeave(w, a, ord)))
  {
    LeaveCoherent(w, a, ord, cs);
    forall b, c ensures Current(Disconnect(w, a), Deliver(cs, MailOfLeave(w, a, ord)), b, c) {
      assert SessionFiled(w, a);
      if Near(Disconnect(w, a), b, c) {
        assert Near(w, b, c) && Current(w, cs, b, c) && IdsDiffer(w, a, c);
        LeaveSeen(w, a, ord, cs, b, InfoOf(w, c).id);
      }
    }
  }

  lemma SamePlayersTruthful<E>(w: World<E>, w1: World<E>, cs: Clients)
    requires Truthful(w, cs) && Inv(w1) && w1.scene.ents == w.scene.ents && w1.scene.zoneSize == w.scene.zoneSize
    requires forall a :: Online(w1, a) ==> Online(w, a) && PlayerOf(w1, a) == PlayerOf(w, a)
    ensures Truthful(w1, cs)
  {
    SamePlayersCoherent(w, w1, cs);
    forall b, c ensures Current(w1, cs, b, c) {
      assert Current(w, cs, b, c);
    }
  }

  lemma DropTruthful<E>(w: World<E>, a: Addr, ord: Order, cs: Clients)
    requires Truthful(w, cs) && IsOrder(ord) && Inv(Disconnect(w, a))
    ensures w.scene.WellFormed() && Truthful(Disconnect(w, a), Deliver(cs, DisconnectMail(w, a, ord)))
  {
    InvWellFormed(w);
    if Online(w, a) {
      MailOfLeaveIsSent(w, a, ord);
      LeaveTruthful(w, a, ord, cs);
    } else {
      SamePlayersTruthful(w, Disconnect(w, a), cs);
    }
  }

  lemma {:induction false} SweepTruthful<E>(w: World<E>, keys: seq<Addr>, ord: Order, cs: Clients)
    requires Truthful(w, cs) && IsOrder(ord) && NoDuplicates(keys) && forall k :: k in keys ==> k in w.sessions
    ensures w.scene.WellFormed() && Truthful(DropAll(w, keys), Deliver(cs, SweepMail(w, keys, ord)))
    decreases |keys|
  {
    InvWellFormed(w);
    if keys != [] {
      var init, a := keys[..|keys| - 1], keys[|keys| - 1];
      SweepTruthful(w, init, ord, cs);
      DropAllExact(w, init);
      DropAllExact(w, keys);
      var w1, mail := DropAll(w, init), SweepMail(w, init, ord);
      if a in w1.sessions {
        InvWellFormed(w1);
        DeliverAppend(cs, mail, DisconnectMail(w1, w1.sessions[a].info.clientAddr, ord));
        DropTruthful(w1, w1.sessions[a].info.clientAddr, ord, Deliver(cs, mail));
      }
    }
  }

  ghost predicate BlankJoin<E>(act: Act<E>) {
    act.ev.Connect? && act.ev.reply.Some? ==> Blank(act.client)
  }

  lemma ActTruthful<E>(w: World<E>, cs: Clients, act: Act<E>)
    requires Truthful(w, cs) && Allowed(w, act) && BlankJoin(act)
    ensures Truthful(Step(w, act.ev), ClientsAfter(w, cs, act))
  {
    StepInv(w, act.ev);
    match act.ev
    case Connect(a, reply, key, now, e) =>
      if reply.None? { SamePlayersTruthful(w, Step(w, act.ev), cs); }
      else { JoinTruthful(w, a, reply.value, key, now, e, act.client, act.ord, cs); }
    case Move(a, x, y, z) =>
      if MayMove(w, a) { MoveTruthful(w, a, x, y, z, act.ord, cs); }
      else { SamePlayersTruthful(w, Step(w, act.ev), cs); }
    case Timeout(listing, now) =>
      OverdueMembers(w, listing, now);
      SweepTruthful(w, Overdue(w, listing, now), act.ord, cs);
    case _ => SamePlayersTruthful(w, Step(w, act.ev), cs);
  }

  /** Over every run in which joining clients start blank, for every order of the server's maps: a
      client never holds a player around it anywhere but at its current place. */
  lemma {:induction false} RunsTruthful<E>(w: World<E>, cs: Clients, acts: seq<Act<E>>, w1: World<E>, cs1: Clients)
    requires Truthful(w, cs) && RunsTo(w, cs, acts, w1, cs1) && forall act :: act in acts ==> BlankJoin(act)
    ensures Truthful(w1, cs1)
    decreases |acts|
  {
    if acts != [] {
      assert acts[0] in acts;
      ActTruthful(w, cs, acts[0]);
      RunsTruthful(Step(w, acts[0].ev), ClientsAfter(w, cs, acts[0]), acts[1..], w1, cs1);
    }
  }
}
