/** What the game server learns of a session through Redis, over every run. */
module Handover {
  import opened Prelude
  import opened Broadcast
  import opened SessionData
  import opened SessionHandoff

  /** The hash of a logged-in session with a key says what the session says. */
  ghost predicate Mirrors(n: Net, a: Addr) {
    LoggedInWithKey(n, a) ==>
      && n.auth[a].key in n.redis
      && Says(n.redis[n.auth[a].key].fields, n.auth[a])
  }

  predicate Says(f: Fields, s: SessionInfo) {
    && f.playerId == Some(s.playerId) && f.username == Some(s.username)
    && f.charId == Some(s.charId) && f.sessionKey == Some(s.key)
    && (s.charId != -1 ==> f.charName == Some(s.charName))
  }

  /** Two sessions do not share a key. */
  ghost predicate KeysApart(n: Net, a: Addr, b: Addr) {
    a in n.auth && b in n.auth && a != b && n.auth[a].key != "" ==> n.auth[a].key != n.auth[b].key
  }

  /** A session without an account has no character. */
  ghost predicate NothingChosen(n: Net, a: Addr) {
    a in n.auth && n.auth[a].playerId == -1 ==> n.auth[a].charId == -1
  }

  ghost predicate Handed(n: Net) {
    && TtlSafe(n)
    && (forall a, b :: KeysApart(n, a, b))
    && (forall a :: NothingChosen(n, a))
    && (forall a :: Mirrors(n, a))
  }

  /** A generated key is no session's yet, and accounts have identifiers of their own. */
  ghost predicate Usual(n: Net, ev: Event) {
    match ev
    case AuthConnect(a, key) => forall b :: b in n.auth ==> n.auth[b].key != key
    case Login(a, _, verdict) => verdict != Some(-1)
    case _ => true
  }

  lemma LoginHanded(n: Net, a: Addr, username: Text, account: int)
    requires Handed(n) && account != -1
    ensures forall b :: Mirrors(LogIn(n, a, username, account), b)
  {
    var n1 := LogIn(n, a, username, account);
    assert Mirrors(n, a) && Held(n, a) && NothingChosen(n, a);
    forall b ensures Mirrors(n1, b) {
      assert Mirrors(n, b) && KeysApart(n, b, a);
    }
  }

  lemma SelectHanded(n: Net, a: Addr, charId: int)
    requires Handed(n) && MaySelect(n, a, charId, true)
    ensures forall b :: Mirrors(SelectChar(n, a, charId), b)
  {
    var n1 := SelectChar(n, a, charId);
    assert Mirrors(n, a) && Held(n, a);
    forall b ensures Mirrors(n1, b) {
      assert Mirrors(n, b) && KeysApart(n, b, a);
    }
  }

  lemma OtherHanded(n: Net, ev: Event)
    requires Handed(n) && !ev.Login? && !ev.Select?
    ensures forall b :: Mirrors(Step(n, ev), b)
  {
    var n1 := Step(n, ev);
    if ev.Tick? { EraseAllSubset(n.auth, ev.keys); }
    forall b ensures Mirrors(n1, b) {
      assert Mirrors(n, b);
    }
  }

  lemma StepKeepsApart(n: Net, ev: Event, a: Addr, b: Addr)
    requires KeysApart(n, a, b) && Usual(n, ev)
    ensures KeysApart(Step(n, ev), a, b)
  {
    if ev.Tick? { EraseAllSubset(n.auth, ev.keys); }
  }

  lemma StepChoosesNothing(n: Net, ev: Event, a: Addr)
    requires NothingChosen(n, a) && Usual(n, ev)
    ensures NothingChosen(Step(n, ev), a)
  {
    if ev.Tick? { EraseAllSubset(n.auth, ev.keys); }
  }

  lemma StepHanded(n: Net, ev: Event)
    requires Handed(n) && Timely(n, ev) && Usual(n, ev)
    ensures Handed(Step(n, ev))
  {
    StepTtl(n, ev);
    forall b, c ensures KeysApart(Step(n, ev), b, c) {
      StepKeepsApart(n, ev, b, c);
    }
    forall b ensures NothingChosen(Step(n, ev), b) {
      StepChoosesNothing(n, ev, b);
    }
    StepMirrors(n, ev);
  }

  lemma StepMirrors(n: Net, ev: Event)
    requires Handed(n) && Usual(n, ev)
    ensures forall b :: Mirrors(Step(n, ev), b)
  {
    if ev.Login? && ev.verdict.Some? {
      LoginHanded(n, ev.from, ev.username, ev.verdict.value);
    } else if ev.Select? && MaySelect(n, ev.from, ev.charId, ev.serverFound) {
      SelectHanded(n, ev.from, ev.charId);
    } else if ev.Login? || ev.Select? {
      forall b ensures Mirrors(Step(n, ev), b) {
        assert Mirrors(n, b);
      }
    } else {
      OtherHanded(n, ev);
    }
  }

  ghost predicate UsualRun(n: Net, evs: seq<Event>)
    decreases |evs|
  {
    evs == [] || (Timely(n, evs[0]) && Usual(n, evs[0]) && UsualRun(Step(n, evs[0]), evs[1..]))
  }

  /** Over every interleaving of both servers the hash of each logged-in session says its account, its
      name and the character it selected last. */
  lemma {:induction false} RunsHanded(n: Net, evs: seq<Event>)
    requires Handed(n) && UsualRun(n, evs)
    ensures Handed(Run(n, evs))
    decreases |evs|
  {
    if evs != [] {
      StepHanded(n, evs[0]);
      RunsHanded(Step(n, evs[0]), evs[1..]);
    }
  }

  /** The handover itself: from whatever endpoint the key of a logged-in session comes, the game server's
      session gets that account, name, character and key, its clock starts, and the hash names the
      endpoint and goes on to tell the rest as before. */
  lemma HandoverIsExact(n: Net, a: Addr, g: Addr)
    requires Handed(n) && LoggedInWithKey(n, a)
    ensures var s, n1 := n.auth[a], Step(n, GameConnect(g, n.auth[a].key));
      && g in n1.game
      && n1.game[g].playerId == s.playerId && n1.game[g].username == s.username && n1.game[g].charId == s.charId
      && n1.game[g].key == s.key && (s.charId != -1 ==> n1.game[g].charName == s.charName)
      && n1.game[g].lastHeartbeat == n.now && n1.game[g].clientAddr == g
      && s.key in n1.redis && n1.redis[s.key].fields.fd == Some(g) && Says(n1.redis[s.key].fields, s)
      && n1.redis[s.key].deadline == n.redis[s.key].deadline && n1.auth == n.auth
  {
    assert Mirrors(n, a) && Held(n, a);
  }

  /** The else of the last field belongs to that field alone: without a character name in the hash the key
      is the one that was sent, and with one but without a key the session keeps the key it had. */
  lemma MisplacedElse(n: Net, g: Addr, key: string)
    requires Present(n.redis, key, n.now)
    ensures var f, n1 := n.redis[key].fields, Step(n, GameConnect(g, key));
      && g in n1.game
      && (f.charName == None ==> n1.game[g].key == key)
      && (f.charName.Some? && f.sessionKey.Some? ==> n1.game[g].key == f.sessionKey.value)
      && (f.charName.Some? && f.sessionKey == None ==> n1.game[g].key == At(n.game, g).key)
  {
  }

  /** A key Redis does not know leaves no session behind. */
  lemma UnknownKeyIsRefused(n: Net, g: Addr, key: string)
    requires !Present(n.redis, key, n.now)
    ensures g !in Step(n, GameConnect(g, key)).game && Step(n, GameConnect(g, key)).redis == n.redis
  {
  }

  /** From the start of both servers, over every interleaving: whoever connects with the key of a session that
      is logged in then enters the game as its account and character, and the key that connects is still good
      for it. */
  lemma EveryRunHandsOver(now: int, chars: map<int, Character>, evs: seq<Event>, a: Addr, g: Addr)
    requires UsualRun(Start(now, chars), evs) && LoggedInWithKey(Run(Start(now, chars), evs), a)
    ensures var n := Run(Start(now, chars), evs);
      var s, n1 := n.auth[a], Step(n, GameConnect(g, n.auth[a].key));
      && g in n1.game && n1.game[g].playerId == s.playerId && n1.game[g].charId == s.charId && n1.game[g].key == s.key
      && n1.game[g].username == s.username && (s.charId != -1 ==> n1.game[g].charName == s.charName)
      && n1.game[g].lastHeartbeat == n1.now && Present(n1.redis, s.key, n1.now)
  {
    StartTtlSafe(now, chars);
    RunsHanded(Start(now, chars), evs);
    HandoverIsExact(Run(Start(now, chars), evs), a, g);
    assert Held(Run(Start(now, chars), evs), a);
  }

  /** The character a select has just put into a session is the one a connect with its key enters with, in
      whatever state both happen. */
  lemma SelectedCharacterEnters(n: Net, a: Addr, charId: int, g: Addr)
    requires MaySelect(n, a, charId, true)
    ensures var key := At(n.auth, a).key;
      var n1 := Step(Step(n, Select(a, charId, true)), GameConnect(g, key));
      && g in n1.game && n1.game[g].playerId == n.chars[charId].account == At(n.auth, a).playerId
      && n1.game[g].charId == charId && n1.game[g].charName == n.chars[charId].name && n1.game[g].key == key
  {
  }
}
