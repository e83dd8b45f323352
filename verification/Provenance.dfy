/** The game world and the session handoff in one run: who may play which character. */
module Provenance {
  import opened Prelude
  import opened Broadcast
  import opened SessionData
  import opened World
  import H = SessionHandoff

  /** The game server's world beside the sessions and hashes of all servers. */
  datatype Whole<E> = Whole(w: World<E>, n: H.Net)

  /** What the game server is sent, or anything that happens elsewhere: on the auth server, in the
      character table, or time passing. */
  datatype Act<E> =
    | Enter(from: Addr, key: string, e: E)
    | Walk(from: Addr, x: real, y: real, z: real)
    | Pulse(from: Addr)
    | Noise(from: Addr)
    | Check(listing: seq<Addr>)
    | Elsewhere(ev: H.Event)

  predicate IsElsewhere(ev: H.Event) {
    !ev.GameConnect? && !ev.GameBeat? && !ev.GameOther? && !ev.GameSweep?
  }

  /** The event of the game world; a connect gets what Redis holds at that moment. */
  function GameEvent<E>(s: Whole<E>, act: Act<E>): Event<E>
    requires !act.Elsewhere?
  {
    match act
    case Enter(a, key, e) => Connect(a, Found(s.n.redis, key, s.n.now), key, s.n.now, e)
    case Walk(a, x, y, z) => Move(a, x, y, z)
    case Pulse(a) => Heartbeat(a, s.n.now)
    case Noise(a) => Other(a)
    case Check(listing) => Timeout(listing, s.n.now)
  }

  function NetEvent<E>(s: Whole<E>, act: Act<E>): H.Event {
    match act
    case Enter(a, key, _) => H.GameConnect(a, key)
    case Walk(a, _, _, _) => H.GameOther(a)
    case Pulse(a) => H.GameBeat(a)
    case Noise(a) => H.GameOther(a)
    case Check(listing) => H.GameSweep(Overdue(s.w, listing, s.n.now))
    case Elsewhere(ev) => ev
  }

  function Perform<E>(s: Whole<E>, act: Act<E>): Whole<E>
    requires s.w.scene.zoneSize > 0
  {
    Whole(if act.Elsewhere? then s.w else Step(s.w, GameEvent(s, act)), H.Step(s.n, NetEvent(s, act)))
  }

  // ----- both models keep the same sessions -----

  ghost predicate SameInfo<E>(w: World<E>, game: H.Sessions, a: Addr) {
    && (a in game <==> a in w.sessions)
    && (a in w.sessions ==> game[a] == w.sessions[a].info)
  }

  ghost predicate Linked<E>(w: World<E>, game: H.Sessions) {
    forall a :: SameInfo(w, game, a)
  }

  lemma {:induction false} SweepsLink<E>(w: World<E>, game: H.Sessions, keys: seq<Addr>)
    requires Linked(w, game)
    ensures Linked(DropAll(w, keys), H.EraseAll(game, keys))
    decreases |keys|
  {
    if keys != [] {
      var init, key := keys[..|keys| - 1], keys[|keys| - 1];
      SweepsLink(w, game, init);
      var w1, game1 := DropAll(w, init), H.EraseAll(game, init);
      assert SameInfo(w1, game1, key);
      forall a ensures SameInfo(DropAll(w, keys), H.EraseAll(game, keys), a) {
        assert SameInfo(w1, game1, a);
      }
    }
  }

  /** Step for step the two models of the game server hold the same sessions. */
  lemma PerformLinks<E>(s: Whole<E>, act: Act<E>)
    requires s.w.scene.zoneSize > 0 && Linked(s.w, s.n.game)
    requires act.Elsewhere? ==> IsElsewhere(act.ev)
    ensures Linked(Perform(s, act).w, Perform(s, act).n.game)
  {
    var s1 := Perform(s, act);
    if act.Check? {
      SweepsLink(s.w, s.n.game, Overdue(s.w, act.listing, s.n.now));
    } else if act.Enter? {
      EnterLinks(s, act.from, act.key, act.e);
    } else {
      forall a ensures SameInfo(s1.w, s1.n.game, a) {
        assert SameInfo(s.w, s.n.game, a);
      }
    }
  }

  lemma EnterLinks<E>(s: Whole<E>, from: Addr, key: string, e: E)
    requires s.w.scene.zoneSize > 0 && Linked(s.w, s.n.game)
    ensures Linked(Perform(s, Enter(from, key, e)).w, Perform(s, Enter(from, key, e)).n.game)
  {
    var s1 := Perform(s, Enter(from, key, e));
    assert SameInfo(s.w, s.n.game, from);
    forall a ensures SameInfo(s1.w, s1.n.game, a) {
      assert SameInfo(s.w, s.n.game, a);
    }
  }

  // ----- a player is the character of its session -----

  ghost predicate PlaysCharacter<E>(w: World<E>, a: Addr) {
    Online(w, a) ==> PlayerOf(w, a) in w.scene.ents && w.scene.ents[PlayerOf(w, a)].id == w.sessions[a].info.charId
  }

  ghost predicate AllPlay<E>(w: World<E>) {
    w.scene.zoneSize > 0 && forall a :: PlaysCharacter(w, a)
  }

  lemma {:induction false} SweepPlays<E>(w: World<E>, keys: seq<Addr>)
    requires AllPlay(w)
    ensures AllPlay(DropAll(w, keys))
    decreases |keys|
  {
    if keys != [] {
      var init, key := keys[..|keys| - 1], keys[|keys| - 1];
      SweepPlays(w, init);
      var w1 := DropAll(w, init);
      forall a ensures PlaysCharacter(DropAll(w, keys), a) {
        assert PlaysCharacter(w1, a);
      }
    }
  }

  lemma StepPlays<E>(w: World<E>, ev: Event<E>)
    requires AllPlay(w) && (ev.Connect? ==> ev.e !in w.scene.ents)
    ensures AllPlay(Step(w, ev))
  {
    if ev.Timeout? {
      SweepPlays(w, Overdue(w, ev.listing, ev.now));
    } else {
      var w1 := Step(w, ev);
      forall a ensures PlaysCharacter(w1, a) {
        assert PlaysCharacter(w, a);
      }
    }
  }

  // ----- runs -----

  /** A connect allocates a new player, and logins elsewhere fit. */
  ghost predicate Proper<E>(s: Whole<E>, act: Act<E>) {
    match act
    case Enter(_, _, e) => e !in s.w.scene.ents
    case Elsewhere(ev) => IsElsewhere(ev) && H.Fitting(s.n, ev)
    case _ => true
  }

  ghost predicate Traced<E>(s: Whole<E>) {
    AllPlay(s.w) && Linked(s.w, s.n.game) && H.Earned(s.n)
  }

  lemma PerformTraced<E>(s: Whole<E>, act: Act<E>)
    requires Traced(s) && Proper(s, act)
    ensures Traced(Perform(s, act))
  {
    PerformLinks(s, act);
    H.StepEarnedIff(s.n, NetEvent(s, act));
    if !act.Elsewhere? { StepPlays(s.w, GameEvent(s, act)); }
  }

  ghost predicate LeadsTo<E>(s: Whole<E>, acts: seq<Act<E>>, s1: Whole<E>)
    decreases |acts|
  {
    if acts == [] then s1 == s
    else s.w.scene.zoneSize > 0 && Proper(s, acts[0]) && LeadsTo(Perform(s, acts[0]), acts[1..], s1)
  }

  lemma {:induction false} RunsTraced<E>(s: Whole<E>, acts: seq<Act<E>>, s1: Whole<E>)
    requires Traced(s) && LeadsTo(s, acts, s1)
    ensures Traced(s1)
    decreases |acts|
  {
    if acts != [] {
      PerformTraced(s, acts[0]);
      RunsTraced(Perform(s, acts[0]), acts[1..], s1);
    }
  }

  /** Over every run of all servers in which logins fit: whoever plays character C in the world does so
      in a session whose key was issued, logged in with, and used by that account to select C after
      the ownership check. */
  lemma PlayedCharacterWasSelected<E>(zoneSize: int, db: map<int, Position>, now: int, chars: map<int, H.Character>,
                                      acts: seq<Act<E>>, s: Whole<E>, a: Addr)
    requires zoneSize > 0 && LeadsTo(Whole(Start(zoneSize, db), H.Start(now, chars)), acts, s) && Online(s.w, a)
    ensures PlayerOf(s.w, a) in s.w.scene.ents
    ensures var character, g := s.w.scene.ents[PlayerOf(s.w, a)].id, s.w.sessions[a].info;
      character != -1 ==>
        && H.Selected(g.key, g.playerId, character) in s.n.history
        && H.LoggedIn(g.key, g.playerId) in s.n.history && H.Issued(g.key) in s.n.history
  {
    RunsTraced(Whole(Start(zoneSize, db), H.Start(now, chars)), acts, s);
    assert PlaysCharacter(s.w, a) && SameInfo(s.w, s.n.game, a) && H.SessionEarned(s.n, s.n.game, a);
    var g := s.w.sessions[a].info;
    assert H.FactEarned(s.n, H.LoggedIn(g.key, g.playerId));
  }
}
