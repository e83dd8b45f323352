/** Who stays in the game world: the timeout sweep against connects and heartbeats, over time. */
module KeepAlive {
  import opened Prelude
  import opened Grid
  import opened ZoneIndex
  import opened Broadcast
  import opened SessionData
  import opened World

  /** The 12 seconds of the source are whole seconds, so a session lasts 13000 milliseconds. */
  lemma ExpiredIff(s: SessionInfo, now: int)
    ensures Expired(s, now) <==> now >= s.lastHeartbeat + 13000
  {
    QuotientBounds(now - s.lastHeartbeat, 1000);
  }

  /** `e` plays in session `a`, under its id and in its zone. */
  ghost predicate Plays<E>(w: World<E>, a: Addr, e: E) {
    Online(w, a) && PlayerOf(w, a) == e && e in w.scene.ents
    && var i := w.scene.ents[e];
       Filed(w.scene.ix.entities, i.zoneId, i.id) && w.scene.ix.entities[i.zoneId][i.id] == e
  }

  /** Nothing of `e` is left: no session holds it and no zone lists it. */
  ghost predicate Gone<E>(w: World<E>, e: E) {
    && (forall b :: Online(w, b) ==> PlayerOf(w, b) != e)
    && (forall zone, id :: Filed(w.scene.ix.entities, zone, id) ==> w.scene.ix.entities[zone][id] != e)
  }

  lemma PlaysInside<E>(w: World<E>, a: Addr)
    requires Inv(w) && Online(w, a)
    ensures Plays(w, a, PlayerOf(w, a))
  {
    assert SessionFiled(w, a);
  }

  lemma OfflineIsGone<E>(w: World<E>, a: Addr, e: E)
    requires Inv(w) && !Online(w, a) && e in w.scene.ents && w.scene.ents[e].session == Some(a)
    ensures Gone(w, e)
  {
    forall b | Online(w, b) ensures PlayerOf(w, b) != e {
      assert SessionFiled(w, b);
    }
    forall zone, id | Filed(w.scene.ix.entities, zone, id) ensures w.scene.ix.entities[zone][id] != e {
      assert EntryOwned(w, zone, id);
    }
  }

  /** One sweep, for every order in which it visits the sessions: a player stays in the world, filed
      where it was, exactly while less than 13 seconds have passed since its session's last sign of
      life; afterwards nothing of it is left. */
  lemma SweepDecides<E>(w: World<E>, a: Addr, listing: seq<Addr>, t: int)
    requires Inv(w) && Online(w, a) && Enumerates(listing, w.sessions.Keys)
    ensures var last, e, w1 := w.sessions[a].info.lastHeartbeat, PlayerOf(w, a), Sweep(w, listing, t);
      && (t < last + 13000 ==> Plays(w1, a, e) && w1.sessions[a] == w.sessions[a] && w1.scene.ents == w.scene.ents)
      && (t >= last + 13000 ==> a !in w1.sessions && Gone(w1, e))
  {
    SweepExact(w, listing, t);
    ExpiredIff(w.sessions[a].info, t);
    assert SessionFiled(w, a);
    if t < w.sessions[a].info.lastHeartbeat + 13000 {
      PlaysInside(Sweep(w, listing, t), a);
    } else {
      OfflineIsGone(Sweep(w, listing, t), a, PlayerOf(w, a));
    }
  }

  /** An accepted connect starts the clock: the newcomer survives every sweep within 13 seconds of it
      and no later one. */
  lemma NewcomerSurvivesIff<E>(w: World<E>, a: Addr, r: Fields, key: string, now: int, e: E, listing: seq<Addr>, t: int)
    requires Inv(w) && Admissible(w, Connect(a, Some(r), key, now, e))
    requires Enumerates(listing, ConnectAccepted(w, a, r, key, now, e).sessions.Keys)
    ensures var w1 := Sweep(ConnectAccepted(w, a, r, key, now, e), listing, t);
      && (t < now + 13000 ==> Plays(w1, a, e))
      && (t >= now + 13000 ==> a !in w1.sessions && Gone(w1, e))
  {
    StepInv(w, Connect(a, Some(r), key, now, e));
    SweepDecides(ConnectAccepted(w, a, r, key, now, e), a, listing, t);
  }

  // ----- over runs -----

  /** Over the events of a run in which `a` does not connect: no sweep comes 13 seconds or more after
      the last heartbeat of `a` before it. */
  predicate Regular<E(==)>(evs: seq<Event<E>>, a: Addr, last: int)
    decreases |evs|
  {
    if evs == [] then true
    else
      match evs[0]
      case Heartbeat(from, now) => Regular(evs[1..], a, if from == a then now else last)
      case Timeout(_, now) => now < last + 13000 && Regular(evs[1..], a, last)
      case _ => Regular(evs[1..], a, last)
  }

  ghost predicate NoConnectOf<E>(evs: seq<Event<E>>, a: Addr) {
    forall ev :: ev in evs && ev.Connect? ==> ev.from != a
  }

  /** What one event other than a sweep does to the session of a player. */
  lemma StepKeepsPlayer<E>(w: World<E>, ev: Event<E>, a: Addr)
    requires Inv(w) && Admissible(w, ev) && Online(w, a) && !ev.Timeout? && !(ev.Connect? && ev.from == a)
    ensures Online(Step(w, ev), a) && PlayerOf(Step(w, ev), a) == PlayerOf(w, a)
    ensures Step(w, ev).sessions[a].info.key == w.sessions[a].info.key
    ensures Step(w, ev).sessions[a].info.lastHeartbeat
         == if ev.Heartbeat? && ev.from == a && w.sessions[a].info.key != "" then ev.now else w.sessions[a].info.lastHeartbeat
  {
  }

  lemma {:induction false} StaysOut<E>(w: World<E>, evs: seq<Event<E>>, w1: World<E>, a: Addr)
    requires Inv(w) && Reaches(w, evs, w1) && !Online(w, a) && NoConnectOf(evs, a)
    ensures !Online(w1, a)
    decreases |evs|
  {
    if evs != [] {
      assert evs[0] in evs;
      StepInv(w, evs[0]);
      if evs[0].Timeout? { SweepExact(w, evs[0].listing, evs[0].now); }
      StaysOut(Step(w, evs[0]), evs[1..], w1, a);
    }
  }

  /** Over every run without a connect of `a`, whatever everyone else does: its player is still in the
      world at the end exactly when its heartbeats kept up with the sweeps. */
  lemma {:induction false} StaysOnlineIff<E>(w: World<E>, evs: seq<Event<E>>, w1: World<E>, a: Addr)
    requires Inv(w) && Reaches(w, evs, w1) && NoConnectOf(evs, a)
    requires Online(w, a) && w.sessions[a].info.key != ""
    ensures Online(w1, a) <==> Regular(evs, a, w.sessions[a].info.lastHeartbeat)
    ensures Online(w1, a) ==> PlayerOf(w1, a) == PlayerOf(w, a)
    decreases |evs|
  {
    if evs != [] {
      assert evs[0] in evs;
      var w2 := Step(w, evs[0]);
      StepInv(w, evs[0]);
      if evs[0].Timeout? {
        SweepDecides(w, a, evs[0].listing, evs[0].now);
        if !Online(w2, a) { StaysOut(w2, evs[1..], w1, a); }
      } else {
        StepKeepsPlayer(w, evs[0], a);
      }
      if Online(w2, a) { StaysOnlineIff(w2, evs[1..], w1, a); }
    }
  }
}
