/** Runs of the server together with every player's client: what is true of their views throughout. */
module SystemRuns {
  import opened Prelude
  import opened Grid
  import opened ZoneIndex
  import opened Broadcast
  import opened SessionData
  import opened World
  import opened View
  import opened Coherence
  import T = EntityTable

  // ----- joining and leaving -----

  ghost function MailOfJoin<E>(w1: World<E>, a: Addr, ord: Order): seq<Sent>
    requires Inv(w1) && Online(w1, a) && IsOrder(ord)
  {
    InvWellFormed(w1);
    assert SessionFiled(w1, a);
    JoinMail(w1, a, w1.scene.ents, ord)
  }

  ghost function MailOfLeave<E>(w: World<E>, a: Addr, ord: Order): seq<Sent>
    requires Inv(w) && Online(w, a) && IsOrder(ord)
  {
    InvWellFormed(w);
    assert SessionFiled(w, a);
    LeaveMail(w, a, InfoOf(w, a).x, InfoOf(w, a).y, InfoOf(w, a).z, ord)
  }

  /** It is the mail of a disconnect, that is, of RemoveEntityFromZone for the entities as they are. */
  lemma MailOfLeaveIsSent<E>(w: World<E>, a: Addr, ord: Order)
    requires Inv(w) && Online(w, a) && IsOrder(ord)
    ensures w.scene.WellFormed() && MailOfLeave(w, a, ord) == DisconnectMail(w, a, ord)
  {
    InvWellFormed(w);
    assert SessionFiled(w, a);
    assert w.scene.ents[PlayerOf(w, a) := InfoOf(w, a)] == w.scene.ents;
  }

  /** After a join everyone around the newcomer holds it at its place, the newcomer holds itself
      and the players of its own zone at their places, and nothing else changes, whatever the
      clients held before. */
  lemma JoinSeen<E>(w1: World<E>, a: Addr, ord: Order, cs: Clients, b: Addr, k: int)
    requires Inv(w1) && Online(w1, a) && Online(w1, b) && IsOrder(ord) && b in cs
    ensures PlayerOf(w1, a) in w1.scene.ents && PlayerOf(w1, b) in w1.scene.ents
    ensures b in Deliver(cs, MailOfJoin(w1, a, ord))
    ensures Known(w1.scene.ix.entities, w1.scene.ents)
    ensures var i, j, was, now := InfoOf(w1, a), InfoOf(w1, b), Lookup(cs[b], k), Lookup(Deliver(cs, MailOfJoin(w1, a, ord))[b], k);
      if b == a && Filed(w1.scene.ix.entities, i.zoneId, k) then
        now.Some? && now.value.at == PlaceOf(w1.scene.ents[w1.scene.ix.entities[i.zoneId][k]])
      else if b != a && k == i.id && Around(j.zoneId, i.x, i.y, w1.scene.zoneSize) then
        now.Some? && now.value.at == PlaceOf(i)
      else now == was
  {
    InvWellFormed(w1);
    assert SessionFiled(w1, a) && SessionFiled(w1, b);
    DeliverLookup(cs, MailOfJoin(w1, a, ord), b, k);
    var i, sel, was := InfoOf(w1, a), cs[b].selected, Lookup(cs[b], k);
    if b == a {
      JoinFateSelf(w1, a, w1.scene.ents, ord, sel, k, was);
      assert EntryOwned(w1, i.zoneId, k);
      if Filed(w1.scene.ix.entities, i.zoneId, k) {
        assert SessionFiled(w1, w1.scene.ents[w1.scene.ix.entities[i.zoneId][k]].session.value);
      }
    } else {
      JoinFateOther(w1, a, w1.scene.ents, ord, b, sel, k, was);
    }
  }

  /** A leave removes the leaver from the clients around it, the others around from its own client,
      and changes nothing else. */
  lemma LeaveSeen<E>(w: World<E>, a: Addr, ord: Order, cs: Clients, b: Addr, k: int)
    requires Inv(w) && Online(w, a) && Online(w, b) && IsOrder(ord) && b in cs
    ensures PlayerOf(w, a) in w.scene.ents && PlayerOf(w, b) in w.scene.ents
    ensures b in Deliver(cs, MailOfLeave(w, a, ord))
    ensures var i := InfoOf(w, a);
      Lookup(Deliver(cs, MailOfLeave(w, a, ord))[b], k)
      == if b == a && k != i.id && FiledAround(w, k, i.x, i.y) then None
         else if b != a && k == i.id && Around(InfoOf(w, b).zoneId, i.x, i.y, w.scene.zoneSize) then None
         else Lookup(cs[b], k)
  {
    assert SessionFiled(w, a) && SessionFiled(w, b);
    var i := InfoOf(w, a);
    DeliverLookup(cs, MailOfLeave(w, a, ord), b, k);
    if b == a {
      LeaveFateSelf(w, a, i.x, i.y, i.z, ord, cs[b].selected, k, Lookup(cs[b], k));
    } else {
      LeaveFateOther(w, a, i.x, i.y, i.z, ord, b, cs[b].selected, k, Lookup(cs[b], k));
    }
  }

  // ----- the coherence invariant -----

  /** A client whose player stands in the same zone as another player holds that player at exactly
      its current place; for its own player it holds an entry. */
  ghost predicate Knows<E>(w: World<E>, cs: Clients, a: Addr, b: Addr) {
    Online(w, a) && Online(w, b) && PlayerOf(w, a) in w.scene.ents && PlayerOf(w, b) in w.scene.ents
    && InfoOf(w, a).zoneId == InfoOf(w, b).zoneId ==>
      && a in cs && Lookup(cs[a], InfoOf(w, b).id).Some?
      && (a != b ==> Lookup(cs[a], InfoOf(w, b).id).value.at == PlaceOf(InfoOf(w, b)))
  }

  /** Every online player has a client, on which it is the selected character. */
  ghost predicate Played<E>(w: World<E>, cs: Clients, a: Addr) {
    Online(w, a) && PlayerOf(w, a) in w.scene.ents ==> a in cs && cs[a].selected == InfoOf(w, a).id
  }

  ghost predicate Coherent<E>(w: World<E>, cs: Clients) {
    && Inv(w)
    && (forall a :: Played(w, cs, a))
    && (forall a, b :: Knows(w, cs, a, b))
  }

  /** Worlds that differ in nothing a view depends on. */
  lemma SamePlayersCoherent<E>(w: World<E>, w1: World<E>, cs: Clients)
    requires Coherent(w, cs) && Inv(w1) && w1.scene.ents == w.scene.ents
    requires forall a :: Online(w1, a) ==> Online(w, a) && PlayerOf(w1, a) == PlayerOf(w, a)
    ensures Coherent(w1, cs)
  {
    forall a ensures Played(w1, cs, a) {
      assert Played(w, cs, a);
    }
    forall a, b ensures Knows(w1, cs, a, b) {
      assert Knows(w, cs, a, b);
    }
  }

  lemma MoveFrame<E>(w: World<E>, a: Addr, x: real, y: real, z: real, b: Addr)
    requires Inv(w) && MayMove(w, a)
    ensures Online(MovePlayer(w, a, x, y, z), b) <==> Online(w, b)
    ensures Online(w, b) ==>
      && PlayerOf(w, b) in w.scene.ents && PlayerOf(w, b) in MovePlayer(w, a, x, y, z).scene.ents
      && (b == a ==> InfoOf(MovePlayer(w, a, x, y, z), b) == InfoOf(w, a).(x := x, y := y, z := z, zoneId := w.scene.ZoneAt(x, y)))
      && (b != a ==> InfoOf(MovePlayer(w, a, x, y, z), b) == InfoOf(w, b) && InfoOf(w, b).id != InfoOf(w, a).id)
  {
    assert SessionFiled(w, a) && SessionFiled(w, b) && IdsDiffer(w, a, b);
  }

  lemma CrossingKnows<E>(w: World<E>, a: Addr, x: real, y: real, z: real, ord: Order, cs: Clients, b: Addr, c: Addr)
    requires Coherent(w, cs) && Crosses(w, a, x, y) && IsOrder(ord)
    ensures Knows(MovePlayer(w, a, x, y, z), Deliver(cs, MailOfMove(w, a, x, y, z, ord)), b, c)
  {
    var w1, zone := MovePlayer(w, a, x, y, z), w.scene.ZoneAt(x, y);
    MoveFrame(w, a, x, y, z, a);
    MoveFrame(w, a, x, y, z, b);
    MoveFrame(w, a, x, y, z, c);
    if Online(w1, b) && Online(w1, c) && InfoOf(w1, b).zoneId == InfoOf(w1, c).zoneId {
      assert Played(w, cs, a) && Played(w, cs, b) && Knows(w, cs, b, c);
      var id := InfoOf(w1, c).id;
      if b == a {
        CrossingSeenBySelf(w, a, x, y, z, ord, cs, id);
        assert SessionFiled(w1, c);
      } else {
        CrossingSeenByOthers(w, a, x, y, z, ord, cs, b, id);
        OwnCellInBlock(Cell(x, w.scene.zoneSize), Cell(y, w.scene.zoneSize));
      }
    }
  }

  lemma StepKnows<E>(w: World<E>, a: Addr, x: real, y: real, z: real, ord: Order, cs: Clients, b: Addr, c: Addr)
    requires Coherent(w, cs) && MayMove(w, a) && !Crosses(w, a, x, y) && IsOrder(ord)
    ensures Knows(MovePlayer(w, a, x, y, z), Deliver(cs, MailOfMove(w, a, x, y, z, ord)), b, c)
  {
    var w1 := MovePlayer(w, a, x, y, z);
    MoveFrame(w, a, x, y, z, a);
    MoveFrame(w, a, x, y, z, b);
    MoveFrame(w, a, x, y, z, c);
    if Online(w1, b) && Online(w1, c) && InfoOf(w1, b).zoneId == InfoOf(w1, c).zoneId {
      assert Played(w, cs, b) && Knows(w, cs, b, c);
      StepSeen(w, a, x, y, z, ord, cs, b, InfoOf(w1, c).id);
      OwnCellInBlock(Cell(x, w.scene.zoneSize), Cell(y, w.scene.zoneSize));
    }
  }

  lemma MoveCoherent<E>(w: World<E>, a: Addr, x: real, y: real, z: real, ord: Order, cs: Clients)
    requires Coherent(w, cs) && MayMove(w, a) && IsOrder(ord)
    ensures Coherent(MovePlayer(w, a, x, y, z), Deliver(cs, MailOfMove(w, a, x, y, z, ord)))
  {
    var w1, cs1 := MovePlayer(w, a, x, y, z), Deliver(cs, MailOfMove(w, a, x, y, z, ord));
    assert a != NO_ADDR;
    MovePlayerInv(w, a, x, y, z);
    forall b ensures Played(w1, cs1, b) {
      MoveFrame(w, a, x, y, z, b);
      assert Played(w, cs, b);
      if Online(w, b) { DeliverLookup(cs, MailOfMove(w, a, x, y, z, ord), b, 0); }
    }
    forall b, c ensures Knows(w1, cs1, b, c) {
      if Crosses(w, a, x, y) { CrossingKnows(w, a, x, y, z, ord, cs, b, c); }
      else { StepKnows(w, a, x, y, z, ord, cs, b, c); }
    }
  }

  /** Who is online beside the newcomer was online before, with the same player at the same place. */
  ghost predicate Unmoved<E>(w: World<E>, w1: World<E>, d: Addr) {
    Online(w1, d) ==>
      && Online(w, d) && PlayerOf(w1, d) == PlayerOf(w, d)
      && (PlayerOf(w, d) in w.scene.ents ==> PlayerOf(w, d) in w1.scene.ents && InfoOf(w1, d) == InfoOf(w, d))
  }

  lemma JoinKnows<E>(w: World<E>, w1: World<E>, a: Addr, client: Client, ord: Order, cs: Clients, b: Addr, c: Addr)
    requires Coherent(w, cs) && Inv(w1) && Online(w1, a) && IsOrder(ord)
    requires forall d :: d != a ==> Unmoved(w, w1, d)
    ensures Knows(w1, Deliver(cs[a := client], MailOfJoin(w1, a, ord)), b, c)
  {
    if Online(w1, b) && Online(w1, c) {
      assert SessionFiled(w1, a) && SessionFiled(w1, b) && SessionFiled(w1, c) && IdsDiffer(w1, a, c);
      if b != a { assert Unmoved(w, w1, b) && SessionFiled(w, b) && Played(w, cs, b); }
      if c != a { assert Unmoved(w, w1, c) && SessionFiled(w, c) && Knows(w, cs, b, c); }
      if InfoOf(w1, b).zoneId == InfoOf(w1, c).zoneId {
        JoinSeen(w1, a, ord, cs[a := client], b, InfoOf(w1, c).id);
        OwnZoneNear(w1, a);
      }
    }
  }

  lemma JoinPlayed<E>(w: World<E>, w1: World<E>, a: Addr, client: Client, ord: Order, cs: Clients, b: Addr)
    requires Coherent(w, cs) && Inv(w1) && Online(w1, a) && IsOrder(ord)
    requires if b == a then Played(w1, cs[a := client], a) else Unmoved(w, w1, b)
    ensures Played(w1, Deliver(cs[a := client], MailOfJoin(w1, a, ord)), b)
  {
    if Online(w1, b) {
      if b != a { assert SessionFiled(w, b) && Played(w, cs, b); }
      assert SessionFiled(w1, b);
      DeliverLookup(cs[a := client], MailOfJoin(w1, a, ord), b, 0);
    }
  }

  lemma JoinUnmoved<E>(w: World<E>, a: Addr, r: Fields, key: string, now: int, e: E, d: Addr)
    requires Inv(w) && e !in w.scene.ents && d != a
    ensures Unmoved(w, ConnectAccepted(w, a, r, key, now, e), d)
  {
  }

  lemma JoinCoherent<E>(w: World<E>, a: Addr, r: Fields, key: string, now: int, e: E, client: Client, ord: Order, cs: Clients)
    requires Coherent(w, cs) && Admissible(w, Connect(a, Some(r), key, now, e)) && IsOrder(ord)
    requires client.selected == Newcomer(w, a, r).id
    ensures Inv(ConnectAccepted(w, a, r, key, now, e)) && Online(ConnectAccepted(w, a, r, key, now, e), a)
    ensures Coherent(ConnectAccepted(w, a, r, key, now, e),
                     Deliver(cs[a := client], MailOfJoin(ConnectAccepted(w, a, r, key, now, e), a, ord)))
  {
    StepInv(w, Connect(a, Some(r), key, now, e));
    var w1 := ConnectAccepted(w, a, r, key, now, e);
    forall d | d != a ensures Unmoved(w, w1, d) {
      JoinUnmoved(w, a, r, key, now, e, d);
    }
    JoinedCoherent(w, w1, a, client, ord, cs);
  }

  lemma JoinedCoherent<E>(w: World<E>, w1: World<E>, a: Addr, client: Client, ord: Order, cs: Clients)
    requires Coherent(w, cs) && Inv(w1) && Online(w1, a) && IsOrder(ord) && Played(w1, cs[a := client], a)
    requires forall d :: d != a ==> Unmoved(w, w1, d)
    ensures Coherent(w1, Deliver(cs[a := client], MailOfJoin(w1, a, ord)))
  {
    var cs1 := Deliver(cs[a := client], MailOfJoin(w1, a, ord));
    forall b ensures Played(w1, cs1, b) {
      JoinPlayed(w, w1, a, client, ord, cs, b);
    }
    forall b, c ensures Knows(w1, cs1, b, c) {
      JoinKnows(w, w1, a, client, ord, cs, b, c);
    }
  }

  lemma LeaveKnows<E>(w: World<E>, a: Addr, ord: Order, cs: Clients, b: Addr, c: Addr)
    requires Coherent(w, cs) && Online(w, a) && IsOrder(ord)
    ensures Knows(Disconnect(w, a), Deliver(cs, MailOfLeave(w, a, ord)), b, c)
  {
    var w1 := Disconnect(w, a);
    assert SessionFiled(w, a);
    if Online(w1, b) && Online(w1, c) {
      assert SessionFiled(w, b) && SessionFiled(w, c) && Knows(w, cs, b, c) && Played(w, cs, b) && IdsDiffer(w, a, c);
      LeaveSeen(w, a, ord, cs, b, InfoOf(w, c).id);
    }
  }

  lemma LeaveCoherent<E>(w: World<E>, a: Addr, ord: Order, cs: Clients)
    requires Coherent(w, cs) && Online(w, a) && IsOrder(ord)
    ensures Coherent(Disconnect(w, a), Deliver(cs, MailOfLeave(w, a, ord)))
  {
    var w1, mail := Disconnect(w, a), MailOfLeave(w, a, ord);
    DisconnectInv(w, a);
    assert SessionFiled(w, a);
    forall b ensures Played(w1, Deliver(cs, mail), b) {
      assert SessionFiled(w, b) && Played(w, cs, b);
      if Online(w1, b) { DeliverLookup(cs, mail, b, 0); }
    }
    forall b, c ensures Knows(w1, Deliver(cs, mail), b, c) {
      LeaveKnows(w, a, ord, cs, b, c);
    }
  }

  // ----- the sweep -----

  lemma {:induction false} SweepCoherent<E>(w: World<E>, keys: seq<Addr>, ord: Order, cs: Clients)
    requires Coherent(w, cs) && IsOrder(ord) && NoDuplicates(keys) && forall k :: k in keys ==> k in w.sessions
    ensures w.scene.WellFormed() && Coherent(DropAll(w, keys), Deliver(cs, SweepMail(w, keys, ord)))
    decreases |keys|
  {
    InvWellFormed(w);
    if keys != [] {
      var init, a := keys[..|keys| - 1], keys[|keys| - 1];
      SweepCoherent(w, init, ord, cs);
      DropAllExact(w, init);
      DropAllExact(w, keys);
      var w1, mail := DropAll(w, init), SweepMail(w, init, ord);
      if a in w1.sessions {
        InvWellFormed(w1);
        DeliverAppend(cs, mail, DisconnectMail(w1, w1.sessions[a].info.clientAddr, ord));
        DropCoherent(w1, w1.sessions[a].info.clientAddr, ord, Deliver(cs, mail));
      }
    }
  }

  lemma DropCoherent<E>(w: World<E>, a: Addr, ord: Order, cs: Clients)
    requires Coherent(w, cs) && IsOrder(ord) && Inv(Disconnect(w, a))
    ensures w.scene.WellFormed() && Coherent(Disconnect(w, a), Deliver(cs, DisconnectMail(w, a, ord)))
  {
    InvWellFormed(w);
    if Online(w, a) {
      MailOfLeaveIsSent(w, a, ord);
      LeaveCoherent(w, a, ord, cs);
    } else {
      SamePlayersCoherent(w, Disconnect(w, a), cs);
    }
  }

  // ----- runs -----

  /** An event of the server, with the client that connects (used by an accepted connect only). */
  datatype Act<E> = Act(ev: Event<E>, client: Client, ord: Order)

  /** Admissible for the server; a connecting client has selected the character it connects with. */
  ghost predicate Allowed<E>(w: World<E>, act: Act<E>)
    requires w.scene.zoneSize > 0
  {
    && Admissible(w, act.ev) && IsOrder(act.ord)
    && (act.ev.Connect? && act.ev.reply.Some? ==> act.client.selected == Newcomer(w, act.ev.from, act.ev.reply.value).id)
  }

  /** What the server sends for an event. */
  ghost function EventMail<E>(w: World<E>, ev: Event<E>, ord: Order): seq<Sent>
    requires Inv(w) && Admissible(w, ev) && IsOrder(ord)
  {
    StepInv(w, ev);
    InvWellFormed(w);
    match ev
    case Connect(a, reply, key, now, e) => if reply.None? then [] else MailOfJoin(Step(w, ev), a, ord)
    case Move(a, x, y, z) => if MayMove(w, a) then MailOfMove(w, a, x, y, z, ord) else []
    case Timeout(listing, now) => SweepMail(w, Overdue(w, listing, now), ord)
    case _ => []
  }

  /** The clients after an event: the one that connects is there, and all mail is delivered. */
  ghost function ClientsAfter<E>(w: World<E>, cs: Clients, act: Act<E>): Clients
    requires Inv(w) && Allowed(w, act)
  {
    Deliver(if act.ev.Connect? && act.ev.reply.Some? then cs[act.ev.from := act.client] else cs,
            EventMail(w, act.ev, act.ord))
  }

  lemma ActCoherent<E>(w: World<E>, cs: Clients, act: Act<E>)
    requires Coherent(w, cs) && Allowed(w, act)
    ensures Coherent(Step(w, act.ev), ClientsAfter(w, cs, act))
  {
    StepInv(w, act.ev);
    match act.ev
    case Connect(a, reply, key, now, e) =>
      if reply.None? { SamePlayersCoherent(w, Step(w, act.ev), cs); }
      else { JoinCoherent(w, a, reply.value, key, now, e, act.client, act.ord, cs); }
    case Move(a, x, y, z) =>
      if MayMove(w, a) { MoveCoherent(w, a, x, y, z, act.ord, cs); }
      else { SamePlayersCoherent(w, Step(w, act.ev), cs); }
    case Timeout(listing, now) =>
      OverdueMembers(w, listing, now);
      SweepCoherent(w, Overdue(w, listing, now), act.ord, cs);
    case _ => SamePlayersCoherent(w, Step(w, act.ev), cs);
  }

  ghost predicate RunsTo<E>(w: World<E>, cs: Clients, acts: seq<Act<E>>, w1: World<E>, cs1: Clients)
    decreases |acts|
  {
    if acts == [] then w1 == w && cs1 == cs
    else
      Inv(w) && Allowed(w, acts[0]) && RunsTo(Step(w, acts[0].ev), ClientsAfter(w, cs, acts[0]), acts[1..], w1, cs1)
  }

  /** Over every run of connects, moves, heartbeats and sweeps, for every order of the server's
      maps and whatever the joining clients held before: players in the same zone hold each other
      at exactly their current places. */
  lemma {:induction false} RunsCoherent<E>(w: World<E>, cs: Clients, acts: seq<Act<E>>, w1: World<E>, cs1: Clients)
    requires Coherent(w, cs) && RunsTo(w, cs, acts, w1, cs1)
    ensures Coherent(w1, cs1)
    decreases |acts|
  {
    if acts != [] {
      ActCoherent(w, cs, acts[0]);
      RunsCoherent(Step(w, acts[0].ev), ClientsAfter(w, cs, acts[0]), acts[1..], w1, cs1);
    }
  }

  lemma StartCoherent<E>(zoneSize: int, db: map<int, Position>)
    requires zoneSize > 0
    ensures Coherent<E>(Start(zoneSize, db), map[])
  {
    StartInv<E>(zoneSize, db);
  }

  // ----- where coherence ends -----

  /** A neighbour of the old zone sees a crossing exactly when it is around the new place, for the
      removal, too, has looked there; otherwise it goes on holding the mover where it was. */
  lemma CrossingSeenIff<E>(w: World<E>, a: Addr, x: real, y: real, z: real, ord: Order, cs: Clients, b: Addr)
    requires Coherent(w, cs) && Crosses(w, a, x, y) && IsOrder(ord) && Online(w, b) && a != b
    requires PlayerOf(w, b) in w.scene.ents && InfoOf(w, b).zoneId == InfoOf(w, a).zoneId
    ensures b in Deliver(cs, MailOfMove(w, a, x, y, z, ord))
    ensures var held := Lookup(Deliver(cs, MailOfMove(w, a, x, y, z, ord))[b], InfoOf(w, a).id);
      && held.Some? && (held.value.at == T.Location(x, y, z) <==> Around(InfoOf(w, b).zoneId, x, y, w.scene.zoneSize))
      && held.value.at in {T.Location(x, y, z), PlaceOf(InfoOf(w, a))}
  {
    assert SessionFiled(w, a) && Played(w, cs, b) && Knows(w, cs, b, a);
    CrossingSeenByOthers(w, a, x, y, z, ord, cs, b, InfoOf(w, a).id);
  }

  /** Sessions and entities beside the newcomer are as they were. */
  ghost predicate OnlyNewcomer<E>(w: World<E>, w1: World<E>, a: Addr, e: E, i: Info) {
    && w1.scene.zoneSize == w.scene.zoneSize && w1.db == w.db && w1.scene.ents == w.scene.ents[e := i]
    && Online(w1, a) && PlayerOf(w1, a) == e
    && forall b :: b != a ==> SameSession(w, w1, b)
  }

  ghost predicate SameSession<E>(w: World<E>, w1: World<E>, b: Addr) {
    (b in w1.sessions <==> b in w.sessions) && (b in w.sessions ==> w1.sessions[b] == w.sessions[b])
  }

  lemma Joined<E(!new)>(w: World<E>, cs: Clients, a: Addr, r: Fields, e: E, i: Info, ord: Order) returns (w1: World<E>, cs1: Clients)
    requires Coherent(w, cs) && Admissible(w, Connect(a, Some(r), "k", 0, e)) && i == Newcomer(w, a, r) && IsOrder(ord)
    ensures Coherent(w1, cs1) && OnlyNewcomer(w, w1, a, e, i)
    ensures forall w0 :: Reachable(w0, w) ==> Reachable(w0, w1)
    ensures r.playerId.Some? ==> w1.sessions[a].info.playerId == r.playerId.value
  {
    var client := Client(i.id, T.EMPTY_TABLES);
    JoinCoherent(w, a, r, "k", 0, e, client, ord, cs);
    w1 := ConnectAccepted(w, a, r, "k", 0, e);
    forall w0 | Reachable(w0, w) ensures Reachable(w0, w1) {
      ReachableStep(w0, w, Connect(a, Some(r), "k", 0, e), w1);
    }
    cs1 := Deliver(cs[a := client], MailOfJoin(w1, a, ord));
  }

  function LoginOf(id: int): Fields {
    Fields(Some(id), None, Some(id), None, None, None)
  }

  function AtOrigin(id: int, a: Addr): Info {
    Info(id, PLAYER, 0.0, 0.0, 0.0, 0, Some(a))
  }

  lemma NewcomerAtOrigin(w: World<int>, a: Addr, id: int)
    requires w.scene.zoneSize == 100 && w.db == map[]
    ensures Newcomer(w, a, LoginOf(id)) == AtOrigin(id, a)
  {
  }

  lemma NewcomerIs(w: World<int>, a: Addr, id: int) returns (i: Info)
    requires w.scene.zoneSize == 100 && w.db == map[]
    ensures i == Newcomer(w, a, LoginOf(id))
    ensures i == AtOrigin(id, a)
  {
    i := Newcomer(w, a, LoginOf(id));
    NewcomerAtOrigin(w, a, id);
  }

  lemma MayJoinAs(w: World<int>, a: Addr, id: int)
    requires w.scene.zoneSize > 0 && a != NO_ADDR && !Online(w, a) && id !in w.scene.ents
    requires forall b :: Online(w, b) && PlayerOf(w, b) in w.scene.ents ==> w.scene.ents[PlayerOf(w, b)].id != id
    ensures Admissible(w, Connect(a, Some(LoginOf(id)), "k", 0, id))
  {
  }

  /** A character without a stored place joins at the origin. */
  lemma JoinedAtOrigin(w: World<int>, cs: Clients, a: Addr, id: int, ord: Order) returns (w1: World<int>, cs1: Clients)
    requires Coherent(w, cs) && IsOrder(ord) && w.scene.zoneSize == 100 && w.db == map[]
    requires a != NO_ADDR && !Online(w, a) && id !in w.scene.ents
    requires forall b :: Online(w, b) && PlayerOf(w, b) in w.scene.ents ==> w.scene.ents[PlayerOf(w, b)].id != id
    ensures Coherent(w1, cs1) && OnlyNewcomer(w, w1, a, id, AtOrigin(id, a))
    ensures forall w0 :: Reachable(w0, w) ==> Reachable(w0, w1)
    ensures w1.sessions[a].info.playerId == id
  {
    MayJoinAs(w, a, id);
    var i := NewcomerIs(w, a, id);
    w1, cs1 := Joined(w, cs, a, LoginOf(id), id, i, ord);
  }

  lemma EmptyWorld() returns (w: World<int>)
    ensures Coherent(w, map[]) && w == Start(100, map[]) && w.scene.zoneSize == 100 && w.db == map[] && w.sessions == map[] && w.scene.ents == map[]
  {
    w := Start(100, map[]);
    StartCoherent<int>(100, map[]);
  }

  lemma OneAtOrigin(a: Addr, ord: Order) returns (w0: World<int>, w: World<int>, cs: Clients)
    requires IsOrder(ord) && a != NO_ADDR
    ensures w0 == Start(100, map[]) && Reachable(w0, w)
    ensures Coherent(w, cs) && w.scene.zoneSize == 100 && w.db == map[] && w.scene.ents.Keys == {1}
    ensures MayMove(w, a) && PlayerOf(w, a) == 1 && InfoOf(w, a) == AtOrigin(1, a)
    ensures forall c :: Online(w, c) ==> c == a
  {
    w0 := EmptyWorld();
    ReachableSelf(w0);
    w, cs := JoinedAtOrigin(w0, map[], a, 1, ord);
    forall c ensures Online(w, c) ==> c == a {
      assert c != a ==> SameSession(w0, w, c);
    }
  }

  lemma FirstStays(w1: World<int>, w: World<int>, a: Addr, b: Addr, i: Info)
    requires MayMove(w1, a) && PlayerOf(w1, a) == 1 && a != b && OnlyNewcomer(w1, w, b, 2, i)
    ensures MayMove(w, a) && InfoOf(w, a) == InfoOf(w1, a)
  {
    assert SameSession(w1, w, a);
  }

  /** Two characters met at the origin. */
  lemma TwoAtOrigin(ord: Order) returns (w: World<int>, cs: Clients, a: Addr, b: Addr)
    requires IsOrder(ord)
    ensures Coherent(w, cs) && a != b && MayMove(w, a) && MayMove(w, b) && w.scene.zoneSize == 100
    ensures InfoOf(w, a) == AtOrigin(1, a) && InfoOf(w, b) == AtOrigin(2, b)
  {
    a, b := Addr(1, 1), Addr(2, 2);
    var w0, w1, cs1 := OneAtOrigin(a, ord);
    w, cs := JoinedAtOrigin(w1, cs1, b, 2, ord);
    FirstStays(w1, w, a, b, AtOrigin(2, b));
  }

  /** It does happen: one of the two walks 250 away, and the other goes on seeing it at the origin. */
  lemma StaleEntryHappens(ord: Order) returns (w: World<int>, cs: Clients, a: Addr, b: Addr)
    requires IsOrder(ord)
    ensures Coherent(w, cs) && Crosses(w, a, 250.0, 0.0) && Online(w, b) && PlayerOf(w, b) in w.scene.ents
    ensures b in Deliver(cs, MailOfMove(w, a, 250.0, 0.0, 0.0, ord))
    ensures var held := Lookup(Deliver(cs, MailOfMove(w, a, 250.0, 0.0, 0.0, ord))[b], InfoOf(w, a).id);
      held.Some? && held.value.at == PlaceOf(InfoOf(w, a)) != T.Location(250.0, 0.0, 0.0)
  {
    w, cs, a, b := TwoAtOrigin(ord);
    FarFromOrigin();
    CrossingSeenIff(w, a, 250.0, 0.0, 0.0, ord, cs, b);
  }

  lemma FarFromOrigin()
    ensures ZoneIdAt(250.0, 0.0, 100) == 2 && !Around(0, 250.0, 0.0, 100)
  {
    assert Cell(250.0, 100) == 2 && Cell(0.0, 100) == 0;
    BlockInStrip(2, 0, 0, 0);
  }
}
