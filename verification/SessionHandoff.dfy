/** The session handoff: auth sessions, game sessions and the Redis hashes between them, over time. */
module SessionHandoff {
  import opened Prelude
  import opened Grid
  import opened Broadcast
  import opened SessionData

  const ANA: Text := [65, 110, 97]
  const BOB: Text := [66, 111, 98]

  // ----- sessions -----

  type Sessions = map<Addr, SessionInfo>

  function At(m: Sessions, a: Addr): SessionInfo {
    if a in m then m[a] else NewInfo()
  }

  /** The second pass of the timeout check over the overdue keys: each is erased by the address
      stored in its session. */
  function EraseAll(m: Sessions, keys: seq<Addr>): Sessions {
    if keys == [] then m
    else
      var m1, key := EraseAll(m, keys[..|keys| - 1]), keys[|keys| - 1];
      if key in m1 then m1 - {m1[key].clientAddr} else m1
  }

  /** `keys` lists the overdue sessions in some order. */
  ghost predicate ListsOverdue(m: Sessions, keys: seq<Addr>, now: int) {
    NoDuplicates(keys) && forall a :: a in keys <==> a in m && Expired(m[a], now)
  }

  // ----- the characters and the history -----

  datatype Character = Character(account: int, name: Text)

  /** What happened on the auth server. */
  datatype Fact =
    | Issued(key: string)
    | LoggedIn(key: string, account: int)
    | Selected(key: string, account: int, charId: int)

  datatype Net = Net(now: int, auth: Sessions, game: Sessions, redis: Redis, chars: map<int, Character>, history: set<Fact>)

  datatype Event =
    | AuthConnect(from: Addr, newKey: string)
    | Login(from: Addr, username: Text, verdict: Option<int>)
    | Select(from: Addr, charId: int, serverFound: bool)
    | AuthBeat(from: Addr)
    | AuthOther(from: Addr)
    | GameConnect(from: Addr, key: string)
    | GameBeat(from: Addr)
    | GameOther(from: Addr)
    | Characters(chars: map<int, Character>)
    | Tick(elapsed: nat, keys: seq<Addr>)
    | GameSweep(keys: seq<Addr>)

  // ----- the handlers -----

  /** The connection handler: a new session with a new key, whatever was there before. */
  function ConnectAuth(n: Net, a: Addr, key: string): Net {
    n.(auth := n.auth[a := NewInfo().(key := key, lastHeartbeat := n.now, clientAddr := a)],
       history := n.history + {Issued(key)})
  }

  function LogIn(n: Net, a: Addr, username: Text, account: int): Net {
    var s := At(n.auth, a);
    var fields := Fields(Some(account), Some(username), Some(s.charId), None, Some(s.key), Some(a));
    n.(auth := n.auth[a := s.(playerId := account, username := username)],
       redis := Expire(HSet(n.redis, s.key, n.now, fields), s.key, n.now, HEARTBEAT_TIMEOUT_SEC + 2),
       history := n.history + {LoggedIn(s.key, account)})
  }

  predicate MaySelect(n: Net, a: Addr, charId: int, serverFound: bool) {
    var s := At(n.auth, a);
    s.playerId != -1 && charId in n.chars && n.chars[charId].account == s.playerId && serverFound
  }

  function SelectChar(n: Net, a: Addr, charId: int): Net
    requires charId in n.chars
  {
    var s := At(n.auth, a).(charId := charId, charName := n.chars[charId].name);
    var fields := Fields(Some(s.playerId), Some(s.username), Some(s.charId), Some(s.charName), Some(s.key), Some(a));
    n.(auth := n.auth[a := s], redis := HSet(n.redis, s.key, n.now, fields),
       history := n.history + {Selected(s.key, s.playerId, charId)})
  }

  /** Heartbeats of either server: refresh the hash and the session, if the session has a key. */
  function Beaten(m: Sessions, a: Addr, now: int): Sessions {
    if a in m && m[a].key != "" then m[a := m[a].(lastHeartbeat := now)] else m
  }

  function BeatRedis(m: Sessions, r: Redis, a: Addr, now: int): Redis {
    if a in m then Refreshed(r, m[a].key, now) else r
  }

  function ConnectGame(n: Net, a: Addr, key: string): Net {
    if !Present(n.redis, key, n.now) then n.(game := n.game - {a})
    else n.(game := n.game[a := Filled(At(n.game, a), n.redis[key].fields, a, key, n.now)],
            redis := Claimed(n.redis, key, n.now, a))
  }

  function Touched(m: Sessions, a: Addr): Sessions {
    if a in m then m else m[a := NewInfo()]
  }

  function Step(n: Net, ev: Event): Net {
    match ev
    case AuthConnect(a, key) => ConnectAuth(n, a, key)
    case Login(a, username, verdict) =>
      if verdict.Some? then LogIn(n, a, username, verdict.value) else n.(auth := Touched(n.auth, a))
    case Select(a, charId, found) =>
      if MaySelect(n, a, charId, found) then SelectChar(n, a, charId) else n.(auth := Touched(n.auth, a))
    case AuthBeat(a) => n.(auth := Beaten(n.auth, a, n.now), redis := BeatRedis(n.auth, n.redis, a, n.now))
    case AuthOther(a) => n.(auth := Touched(n.auth, a))
    case GameConnect(a, key) => ConnectGame(n, a, key)
    case GameBeat(a) => n.(game := Beaten(n.game, a, n.now), redis := BeatRedis(n.game, n.redis, a, n.now))
    case GameOther(a) => n.(game := Touched(n.game, a))
    case Characters(chars) => n.(chars := chars)
    // time passes, and the auth server's timeout check runs before its next packet
    case Tick(d, keys) => n.(now := n.now + d, auth := EraseAll(n.auth, keys))
    case GameSweep(keys) => n.(game := EraseAll(n.game, keys))
  }

  // ----- the timeout check -----

  /** Sessions that carry their own address are erased exactly when they are overdue. */
  lemma {:induction false} EraseAllExact(m: Sessions, keys: seq<Addr>)
    requires NoDuplicates(keys) && NO_ADDR !in m
    requires forall a :: a in m ==> m[a].clientAddr == a || m[a].clientAddr == NO_ADDR
    ensures forall a :: a in EraseAll(m, keys) <==> a in m && !(a in keys && m[a].clientAddr == a)
    ensures forall a :: a in EraseAll(m, keys) ==> EraseAll(m, keys)[a] == m[a]
    decreases |keys|
  {
    if keys != [] {
      var init, key := keys[..|keys| - 1], keys[|keys| - 1];
      assert keys == init + [key];
      EraseAllExact(m, init);
    }
  }

  /** Whole seconds: a session survives the check exactly while less than 13 seconds have passed. */
  lemma ExpiredAfter13s(s: SessionInfo, now: int)
    requires s.lastHeartbeat <= now
    ensures Expired(s, now) <==> now - s.lastHeartbeat >= 13000
  {
  }

  // ----- TTL safety -----

  predicate Complete(f: Fields) {
    f.playerId.Some? && f.username.Some? && f.charId.Some? && f.sessionKey.Some? && f.fd.Some?
  }

  predicate LoggedInWithKey(n: Net, a: Addr) {
    a in n.auth && n.auth[a].key != "" && n.auth[a].playerId != -1
  }

  /** Logged in with a key: the hash is complete and its deadline outlives the session. */
  ghost predicate Backed(n: Net, a: Addr) {
    LoggedInWithKey(n, a) ==>
      && n.auth[a].key in n.redis
      && Complete(n.redis[n.auth[a].key].fields)
      && n.redis[n.auth[a].key].deadline.Some?
      && n.redis[n.auth[a].key].deadline.value >= n.auth[a].lastHeartbeat + 13000
  }

  ghost predicate NotAhead(n: Net, a: Addr) {
    a in n.auth && n.auth[a].key != "" ==> n.auth[a].lastHeartbeat <= n.now
  }

  /** The hashes outlive the sessions, and apart from the empty key every hash has a deadline. */
  ghost predicate Outlives(n: Net) {
    && (forall a :: NotAhead(n, a))
    && (forall a :: Backed(n, a))
    && (forall key :: key in n.redis && key != "" ==> n.redis[key].deadline.Some?)
  }

  /** A heartbeat of a logged-in session with a key, or its select, finds the hash still there. */
  predicate Prompt(n: Net, ev: Event) {
    match ev
    case AuthBeat(a) => LoggedInWithKey(n, a) ==> Present(n.redis, n.auth[a].key, n.now)
    case Select(a, c, found) =>
      MaySelect(n, a, c, found) && At(n.auth, a).key != "" ==> Present(n.redis, At(n.auth, a).key, n.now)
    case _ => true
  }

  /** What the operations on Redis never do to a hash with a deadline: drop it, lose fields of it, or
      take its deadline below 13 seconds from now. */
  ghost predicate KeepsHashes(r: Redis, r1: Redis, now: int) {
    forall key :: key in r && r[key].deadline.Some? ==>
      && key in r1
      && (Complete(r[key].fields) ==> Complete(r1[key].fields))
      && r1[key].deadline.Some?
      && (r1[key].deadline.value >= r[key].deadline.value || r1[key].deadline.value >= now + 13000)
  }

  lemma ExpireKeepsHashes(r: Redis, key: string, now: int, seconds: int)
    requires seconds >= 13
    ensures KeepsHashes(r, Expire(r, key, now, seconds), now)
  {
  }

  lemma HSetKeepsHashes(r: Redis, key: string, now: int, f: Fields)
    requires Present(r, key, now)
    ensures KeepsHashes(r, HSet(r, key, now, f), now)
  {
  }

  /** Complete fields followed by a deadline replace even a hash that is gone. */
  lemma RenewKeepsHashes(r: Redis, key: string, now: int, f: Fields)
    requires Complete(f)
    ensures var r1 := Expire(HSet(r, key, now, f), key, now, HEARTBEAT_TIMEOUT_SEC + 2);
      && KeepsHashes(r, r1, now)
      && Complete(r1[key].fields) && r1[key].deadline == Some(now + 14000)
  {
  }

  lemma LoginOutlives(n: Net, a: Addr, username: Text, account: int)
    requires Outlives(n)
    ensures Outlives(LogIn(n, a, username, account))
  {
    var s, n1 := At(n.auth, a), LogIn(n, a, username, account);
    RenewKeepsHashes(n.redis, s.key, n.now, Fields(Some(account), Some(username), Some(s.charId), None, Some(s.key), Some(a)));
    assert NotAhead(n, a);
    forall b ensures NotAhead(n1, b) && Backed(n1, b) {
      assert NotAhead(n, b) && Backed(n, b);
    }
  }

  /** A select keeps the hashes outliving exactly when its session has no key or its hash is there:
      otherwise it makes a hash that never expires. */
  lemma SelectOutlivesIff(n: Net, a: Addr, charId: int)
    requires Outlives(n) && MaySelect(n, a, charId, true)
    ensures Outlives(SelectChar(n, a, charId)) <==> At(n.auth, a).key == "" || Present(n.redis, At(n.auth, a).key, n.now)
  {
    var s, n1 := At(n.auth, a).(charId := charId, charName := n.chars[charId].name), SelectChar(n, a, charId);
    var fields := Fields(Some(s.playerId), Some(s.username), Some(s.charId), Some(s.charName), Some(s.key), Some(a));
    if s.key == "" || Present(n.redis, s.key, n.now) {
      if Present(n.redis, s.key, n.now) { HSetKeepsHashes(n.redis, s.key, n.now, fields); }
      forall b ensures NotAhead(n1, b) && Backed(n1, b) {
        assert NotAhead(n, b) && Backed(n, b) && Backed(n, a);
      }
    } else {
      assert s.key in n1.redis && n1.redis[s.key].deadline == None;
    }
  }

  /** A heartbeat keeps them outliving exactly when the session is not logged in with a key or its
      hash is there: otherwise it revives the session but not the hash. */
  lemma BeatOutlivesIff(n: Net, a: Addr)
    requires Outlives(n)
    ensures Outlives(Step(n, AuthBeat(a))) <==> (LoggedInWithKey(n, a) ==> Present(n.redis, n.auth[a].key, n.now))
  {
    var n1 := Step(n, AuthBeat(a));
    assert Backed(n, a);
    if LoggedInWithKey(n, a) && !Present(n.redis, n.auth[a].key, n.now) {
      assert !Backed(n1, a);
    } else {
      if a in n.auth { ExpireKeepsHashes(n.redis, n.auth[a].key, n.now, 13); }
      forall b ensures NotAhead(n1, b) && Backed(n1, b) {
        assert NotAhead(n, b) && Backed(n, b);
      }
    }
  }

  lemma {:induction false} EraseAllSubset(m: Sessions, keys: seq<Addr>)
    ensures forall a :: a in EraseAll(m, keys) ==> a in m && EraseAll(m, keys)[a] == m[a]
    decreases |keys|
  {
    if keys != [] { EraseAllSubset(m, keys[..|keys| - 1]); }
  }

  /** Game packets, sweeps at any time over any keys, other auth packets, and time itself. */
  lemma OtherOutlives(n: Net, ev: Event)
    requires Outlives(n) && !ev.Login? && !ev.Select? && !ev.AuthBeat?
    ensures Outlives(Step(n, ev))
  {
    var n1 := Step(n, ev);
    match ev {
      case Tick(_, keys) => EraseAllSubset(n.auth, keys);
      case GameConnect(a, key) =>
        if Present(n.redis, key, n.now) {
          HSetKeepsHashes(n.redis, key, n.now, Fields(None, None, None, None, None, Some(a)));
        }
      case GameBeat(a) => if a in n.game { ExpireKeepsHashes(n.redis, n.game[a].key, n.now, 13); }
      case _ =>
    }
    forall b ensures NotAhead(n1, b) && Backed(n1, b) {
      assert NotAhead(n, b) && Backed(n, b);
    }
  }

  lemma TouchOutlives(n: Net, a: Addr)
    requires Outlives(n)
    ensures Outlives(n.(auth := Touched(n.auth, a)))
  {
    var n1 := n.(auth := Touched(n.auth, a));
    forall b ensures NotAhead(n1, b) && Backed(n1, b) {
      assert NotAhead(n, b) && Backed(n, b);
    }
  }

  /** For all states in which the hashes outlive the sessions, and whatever the sweeps do: a step keeps
      that exactly when it is prompt. */
  lemma StepOutlivesIff(n: Net, ev: Event)
    requires Outlives(n)
    ensures Outlives(Step(n, ev)) <==> Prompt(n, ev)
  {
    match ev
    case Login(a, username, verdict) =>
      if verdict.Some? { LoginOutlives(n, a, username, verdict.value); } else { TouchOutlives(n, a); }
    case Select(a, c, found) =>
      if MaySelect(n, a, c, found) { SelectOutlivesIff(n, a, c); } else { TouchOutlives(n, a); }
    case AuthBeat(a) => BeatOutlivesIff(n, a);
    case _ => OtherOutlives(n, ev);
  }

  /** The hashes outlive the sessions in every state of the run. */
  ghost predicate AlwaysOutlives(n: Net, evs: seq<Event>)
    decreases |evs|
  {
    Outlives(n) && (evs == [] || AlwaysOutlives(Step(n, evs[0]), evs[1..]))
  }

  ghost predicate PromptRun(n: Net, evs: seq<Event>)
    decreases |evs|
  {
    evs == [] || (Prompt(n, evs[0]) && PromptRun(Step(n, evs[0]), evs[1..]))
  }

  /** TTL safety with timeout checks at any time: over a run every logged-in session with a key has
      its complete hash with a deadline at least 13 seconds after its last heartbeat, and every hash
      of a non-empty key a deadline, exactly when each heartbeat and select of such a session finds
      its hash. */
  lemma {:induction false} RunsOutliveIff(n: Net, evs: seq<Event>)
    requires Outlives(n)
    ensures AlwaysOutlives(n, evs) <==> PromptRun(n, evs)
    decreases |evs|
  {
    if evs != [] {
      StepOutlivesIff(n, evs[0]);
      if Prompt(n, evs[0]) {
        RunsOutliveIff(Step(n, evs[0]), evs[1..]);
      }
    }
  }

  /** A heartbeat or select less than 13 seconds after the session's last heartbeat is prompt. */
  lemma InTimeIsPrompt(n: Net, ev: Event)
    requires Outlives(n) && (ev.AuthBeat? || ev.Select?)
    requires LoggedInWithKey(n, ev.from) ==> n.now < n.auth[ev.from].lastHeartbeat + 13000
    ensures Prompt(n, ev)
  {
    assert Backed(n, ev.from);
  }

  // ----- with a check whenever time has passed -----

  /** A session with a key carries its own address and a recent heartbeat. */
  ghost predicate Fresh(n: Net, a: Addr) {
    a in n.auth && n.auth[a].key != "" ==>
      n.auth[a].clientAddr == a && n.auth[a].lastHeartbeat <= n.now < n.auth[a].lastHeartbeat + 13000
  }

  /** A session without a key came from operator[] and is the one the check cannot erase. */
  ghost predicate Keyless(n: Net, a: Addr) {
    a in n.auth && n.auth[a].key == "" ==> n.auth[a].clientAddr == NO_ADDR
  }

  /** Logged in with a key: the hash is there now. */
  ghost predicate Held(n: Net, a: Addr) {
    LoggedInWithKey(n, a) ==> Present(n.redis, n.auth[a].key, n.now)
  }

  ghost predicate TtlSafe(n: Net) {
    && NO_ADDR !in n.auth
    && (forall a :: Fresh(n, a))
    && (forall a :: Keyless(n, a))
    && (forall a :: Held(n, a))
    && Outlives(n)
  }

  /** Packets come from real endpoints, generated keys are not empty, and a timeout check visits the
      overdue sessions. */
  ghost predicate Timely(n: Net, ev: Event) {
    match ev
    case AuthConnect(a, key) => a != NO_ADDR && key != ""
    case Login(a, _, _) => a != NO_ADDR
    case Select(a, _, _) => a != NO_ADDR
    case AuthOther(a) => a != NO_ADDR
    case Tick(d, keys) => ListsOverdue(n.auth, keys, n.now + d)
    case _ => true
  }

  lemma TimelyIsPrompt(n: Net, ev: Event)
    requires TtlSafe(n)
    ensures Prompt(n, ev)
  {
    match ev
    case AuthBeat(a) => assert Held(n, a);
    case Select(a, _, _) => assert Held(n, a);
    case _ =>
  }

  /** A timely step keeps the sessions of the auth server fresh. */
  lemma StepKeepsFresh(n: Net, ev: Event)
    requires TtlSafe(n) && Timely(n, ev)
    ensures NO_ADDR !in Step(n, ev).auth
    ensures forall a :: Fresh(Step(n, ev), a) && Keyless(Step(n, ev), a)
  {
    var n1 := Step(n, ev);
    if ev.Tick? {
      TickKeepsFresh(n, ev.elapsed, ev.keys);
    } else if ev.AuthConnect? || ev.Login? || ev.Select? || ev.AuthBeat? || ev.AuthOther? {
      AuthStepKeepsFresh(n, ev);
    } else {
      assert n1.auth == n.auth && n1.now == n.now;
      forall a ensures Fresh(n1, a) && Keyless(n1, a) {
        assert Fresh(n, a) && Keyless(n, a);
      }
    }
  }

  lemma AuthStepKeepsFresh(n: Net, ev: Event)
    requires TtlSafe(n) && Timely(n, ev)
    requires ev.AuthConnect? || ev.Login? || ev.Select? || ev.AuthBeat? || ev.AuthOther?
    ensures NO_ADDR !in Step(n, ev).auth
    ensures forall a :: Fresh(Step(n, ev), a) && Keyless(Step(n, ev), a)
  {
    var n1 := Step(n, ev);
    forall a ensures Fresh(n1, a) && Keyless(n1, a) {
      assert Fresh(n, a) && Keyless(n, a);
    }
  }

  lemma TickKeepsFresh(n: Net, d: nat, keys: seq<Addr>)
    requires TtlSafe(n) && Timely(n, Tick(d, keys))
    ensures NO_ADDR !in Step(n, Tick(d, keys)).auth
    ensures forall a :: Fresh(Step(n, Tick(d, keys)), a) && Keyless(Step(n, Tick(d, keys)), a)
  {
    var n1 := Step(n, Tick(d, keys));
    forall a | a in n.auth ensures n.auth[a].clientAddr == a || n.auth[a].clientAddr == NO_ADDR {
      assert Fresh(n, a) && Keyless(n, a);
    }
    EraseAllExact(n.auth, keys);
    forall a ensures Fresh(n1, a) && Keyless(n1, a) {
      assert Fresh(n, a) && Keyless(n, a);
      if a in n.auth && n.auth[a].key != "" { ExpiredAfter13s(n.auth[a], n1.now); }
    }
  }

  lemma StepTtl(n: Net, ev: Event)
    requires TtlSafe(n) && Timely(n, ev)
    ensures TtlSafe(Step(n, ev))
  {
    var n1 := Step(n, ev);
    TimelyIsPrompt(n, ev);
    StepOutlivesIff(n, ev);
    StepKeepsFresh(n, ev);
    forall a ensures Held(n1, a) {
      assert Fresh(n1, a) && Backed(n1, a);
    }
  }

  ghost predicate TimelyRun(n: Net, evs: seq<Event>)
    decreases |evs|
  {
    evs == [] || (Timely(n, evs[0]) && TimelyRun(Step(n, evs[0]), evs[1..]))
  }

  function Run(n: Net, evs: seq<Event>): Net
    decreases |evs|
  {
    if evs == [] then n else Run(Step(n, evs[0]), evs[1..])
  }

  function Start(now: int, chars: map<int, Character>): Net {
    Net(now, map[], map[], map[], chars, {})
  }

  /** With a check whenever time has passed every run is prompt: over every interleaving of auth and
      game packets a logged-in session with a key has its complete hash in Redis now, with a deadline
      at least 13 seconds after its last heartbeat, and apart from the empty key no hash is without a
      deadline. */
  lemma {:induction false} RunsTtlSafe(n: Net, evs: seq<Event>)
    requires TtlSafe(n) && TimelyRun(n, evs)
    ensures TtlSafe(Run(n, evs))
    decreases |evs|
  {
    if evs != [] {
      StepTtl(n, evs[0]);
      RunsTtlSafe(Step(n, evs[0]), evs[1..]);
    }
  }

  lemma StartTtlSafe(now: int, chars: map<int, Character>)
    ensures TtlSafe(Start(now, chars))
  {
  }

  /** So a select never makes a hash without a deadline, unless the session has no key. */
  lemma SelectNeverImmortal(n: Net, a: Addr, charId: int)
    requires TtlSafe(n) && MaySelect(n, a, charId, true) && At(n.auth, a).key != ""
    ensures var key := n.auth[a].key;
      && Present(n.redis, key, n.now)
      && SelectChar(n, a, charId).redis[key].deadline == n.redis[key].deadline
      && n.redis[key].deadline.Some?
  {
    assert Held(n, a) && Backed(n, a);
  }

  // ----- the two assumptions are needed -----

  lemma RunCons(n: Net, ev: Event, evs: seq<Event>)
    ensures Run(n, [ev] + evs) == Run(Step(n, ev), evs)
    ensures TimelyRun(n, [ev] + evs) <==> Timely(n, ev) && TimelyRun(Step(n, ev), evs)
  {
    assert ([ev] + evs)[1..] == evs;
  }

  /** Without a key a login is kept by no heartbeat: 14 seconds later its hash is gone, the session
      is not, and a select makes a hash that never expires. */
  lemma KeylessSelectIsImmortal() returns (n: Net, evs: seq<Event>)
    ensures TtlSafe(n) && TimelyRun(n, evs)
    ensures "" in Run(n, evs).redis && Run(n, evs).redis[""].deadline == None
  {
    n := Start(0, map[1 := Character(7, ANA)]);
    var a := Addr(1, 1);
    var login, tick, select := Login(a, ANA, Some(7)), Tick(14000, [a]), Select(a, 1, true);
    var n1 := Step(n, login);
    assert n1.auth == map[a := NewInfo().(playerId := 7, username := ANA)];
    assert ListsOverdue(n1.auth, [a], 14000);
    var n2 := Step(n1, tick);
    assert [a][..0] == [] && EraseAll(n1.auth, [a][..0]) == n1.auth;
    assert n2.auth == n1.auth && !Present(n2.redis, "", n2.now);
    evs := [login] + ([tick] + ([select] + []));
    RunCons(n2, select, []);
    RunCons(n1, tick, [select] + []);
    RunCons(n, login, [tick] + ([select] + []));
  }

  /** A connect, a login and a heartbeat at one moment. */
  lemma BeatenAtOnce(chars: map<int, Character>, a: Addr) returns (n3: Net, evs: seq<Event>)
    requires a != NO_ADDR
    ensures |evs| == 3 && evs == [AuthConnect(a, "k")] + ([Login(a, ANA, Some(7))] + ([AuthBeat(a)] + []))
    ensures forall more :: Run(Start(0, chars), [evs[0]] + ([evs[1]] + ([evs[2]] + more))) == Run(n3, more)
    ensures n3.auth == map[a := NewInfo().(playerId := 7, username := ANA, key := "k", clientAddr := a)]
    ensures n3.now == 0 && n3.chars == chars && "k" in n3.redis && n3.redis["k"].deadline == Some(13000)
  {
    var n := Start(0, chars);
    var connect, login, beat := AuthConnect(a, "k"), Login(a, ANA, Some(7)), AuthBeat(a);
    evs := [connect] + ([login] + ([beat] + []));
    var n1 := Step(n, connect);
    var n2 := Step(n1, login);
    n3 := Step(n2, beat);
    forall more ensures Run(n, [connect] + ([login] + ([beat] + more))) == Run(n3, more) {
      RunCons(n2, beat, more);
      RunCons(n1, login, [beat] + more);
      RunCons(n, connect, [login] + ([beat] + more));
    }
  }

  /** Thirteen seconds without a check, then a heartbeat, then a select. */
  lemma RevivedTooLate(n: Net, a: Addr, charId: int) returns (evs: seq<Event>)
    requires a in n.auth && n.auth[a].key == "k" && n.auth[a].playerId != -1
    requires charId in n.chars && n.chars[charId].account == n.auth[a].playerId
    requires "k" in n.redis && n.redis["k"].deadline == Some(n.now + 13000)
    ensures evs == [Tick(13000, [])] + ([AuthBeat(a)] + ([Select(a, charId, true)] + []))
    ensures "k" in Run(n, evs).redis && Run(n, evs).redis["k"].deadline == None
  {
    var late, beat, select := Tick(13000, []), AuthBeat(a), Select(a, charId, true);
    var n1 := Step(n, late);
    assert !Present(n1.redis, "k", n1.now);
    var n2 := Step(n1, beat);
    assert n2.redis == n1.redis;
    evs := [late] + ([beat] + ([select] + []));
    RunCons(n2, select, []);
    RunCons(n1, beat, [select] + []);
    RunCons(n, late, [beat] + ([select] + []));
  }

  /** A timeout check that comes too late: after 13 seconds the hash is gone, a heartbeat revives the
      session but not the hash, and a select makes a hash that never expires. */
  lemma LateCheckIsImmortal() returns (n: Net, evs: seq<Event>)
    ensures TtlSafe(n) && forall ev :: ev in evs && !ev.Tick? ==> forall m :: Timely(m, ev)
    ensures "k" in Run(n, evs).redis && Run(n, evs).redis["k"].deadline == None
  {
    n := Start(0, map[1 := Character(7, ANA)]);
    var n3, first := BeatenAtOnce(n.chars, Addr(1, 1));
    var more := RevivedTooLate(n3, Addr(1, 1), 1);
    evs := [first[0]] + ([first[1]] + ([first[2]] + more));
  }

  // ----- provenance -----

  /** An accepted login goes to an account, in a session with a key, and does not change the account of
      a session that carries a character, unless that account selected this character with this key. */
  ghost predicate LoginFits(n: Net, a: Addr, account: int) {
    var s := At(n.auth, a);
    && account != -1 && s.key != ""
    && (s.charId == -1 || s.playerId == account || Selected(s.key, account, s.charId) in n.history)
  }

  ghost predicate Fitting(n: Net, ev: Event) {
    ev.Login? && ev.verdict.Some? ==> LoginFits(n, ev.from, ev.verdict.value)
  }

  /** The hash of a key tells its own key, the account that logged in with it, and a character only
      if that account selected it with this key. */
  ghost predicate HashEarned(n: Net, key: string) {
    key in n.redis ==>
      var f := n.redis[key].fields;
      && key != "" && Complete(f) && f.sessionKey == Some(key)
      && LoggedIn(key, f.playerId.value) in n.history
      && (f.charId.value != -1 ==> Selected(key, f.playerId.value, f.charId.value) in n.history)
  }

  /** What a session shows was earned under the key it carries. */
  ghost predicate SessionEarned(n: Net, m: Sessions, a: Addr) {
    a in m ==>
      var s := m[a];
      && (s.playerId != -1 ==> s.key != "" && LoggedIn(s.key, s.playerId) in n.history)
      && (s.charId != -1 ==> s.playerId != -1 && Selected(s.key, s.playerId, s.charId) in n.history)
  }

  ghost predicate KeyIssued(n: Net, a: Addr) {
    a in n.auth && n.auth[a].key != "" ==> Issued(n.auth[a].key) in n.history
  }

  /** The history itself: logins use issued keys, and selects follow logins. */
  ghost predicate FactEarned(n: Net, f: Fact) {
    f in n.history ==>
      match f
      case Issued(_) => true
      case LoggedIn(key, p) => p != -1 && Issued(key) in n.history
      case Selected(key, p, _) => LoggedIn(key, p) in n.history
  }

  ghost predicate Earned(n: Net) {
    && (forall key :: HashEarned(n, key))
    && (forall a :: SessionEarned(n, n.auth, a))
    && (forall a :: SessionEarned(n, n.game, a))
    && (forall a :: KeyIssued(n, a))
    && (forall f :: FactEarned(n, f))
  }

  /** Each step adds facts only when its check passed: a login the account's verdict, a select the
      ownership of the character at that moment. */
  lemma FactsFollowChecks(n: Net, ev: Event, f: Fact)
    requires f in Step(n, ev).history && f !in n.history
    ensures match f
      case Issued(key) => ev.AuthConnect? && ev.newKey == key
      case LoggedIn(key, p) => ev.Login? && ev.verdict == Some(p) && At(n.auth, ev.from).key == key
      case Selected(key, p, c) =>
        && ev.Select? && ev.charId == c && At(n.auth, ev.from).key == key && At(n.auth, ev.from).playerId == p
        && c in n.chars && n.chars[c].account == p
  {
  }

  lemma LoginEarned(n: Net, a: Addr, username: Text, account: int)
    requires Earned(n) && LoginFits(n, a, account)
    ensures Earned(LogIn(n, a, username, account))
  {
    var s, n1 := At(n.auth, a), LogIn(n, a, username, account);
    assert SessionEarned(n, n.auth, a) && KeyIssued(n, a) && HashEarned(n, s.key);
    forall key ensures HashEarned(n1, key) {
      assert HashEarned(n, key);
    }
    forall b ensures SessionEarned(n1, n1.auth, b) && SessionEarned(n1, n1.game, b) && KeyIssued(n1, b) {
      assert SessionEarned(n, n.auth, b) && SessionEarned(n, n.game, b) && KeyIssued(n, b);
    }
    forall f ensures FactEarned(n1, f) {
      assert FactEarned(n, f);
    }
  }

  /** For all earned states: an accepted login keeps provenance exactly when it fits. */
  lemma LoginEarnedIff(n: Net, a: Addr, username: Text, account: int)
    requires Earned(n)
    ensures Earned(LogIn(n, a, username, account)) <==> LoginFits(n, a, account)
  {
    var s, n1 := At(n.auth, a), LogIn(n, a, username, account);
    if LoginFits(n, a, account) {
      LoginEarned(n, a, username, account);
    } else if s.key == "" {
      assert !HashEarned(n1, "");
    } else if account == -1 {
      assert !FactEarned(n1, LoggedIn(s.key, -1));
    } else {
      assert !SessionEarned(n1, n1.auth, a);
    }
  }

  /** The first login with a key always fits. */
  lemma FirstLoginFits(n: Net, a: Addr, account: int)
    requires Earned(n) && account != -1 && At(n.auth, a).key != ""
    requires forall p :: LoggedIn(At(n.auth, a).key, p) !in n.history
    ensures LoginFits(n, a, account)
  {
    assert SessionEarned(n, n.auth, a);
  }

  lemma SelectEarned(n: Net, a: Addr, charId: int)
    requires Earned(n) && MaySelect(n, a, charId, true)
    ensures Earned(SelectChar(n, a, charId))
  {
    var s, n1 := At(n.auth, a), SelectChar(n, a, charId);
    assert SessionEarned(n, n.auth, a) && KeyIssued(n, a) && HashEarned(n, s.key);
    forall key ensures HashEarned(n1, key) {
      assert HashEarned(n, key);
    }
    forall b ensures SessionEarned(n1, n1.auth, b) && SessionEarned(n1, n1.game, b) && KeyIssued(n1, b) {
      assert SessionEarned(n, n.auth, b) && SessionEarned(n, n.game, b) && KeyIssued(n, b);
    }
    forall f ensures FactEarned(n1, f) {
      assert FactEarned(n, f);
    }
  }

  lemma ConnectEarned(n: Net, a: Addr, key: string)
    requires Earned(n)
    ensures Earned(ConnectGame(n, a, key))
  {
    var n1 := ConnectGame(n, a, key);
    assert HashEarned(n, key);
    if key in n.redis { assert FactEarned(n, LoggedIn(key, n.redis[key].fields.playerId.value)); }
    forall k ensures HashEarned(n1, k) {
      assert HashEarned(n, k);
    }
    forall b ensures SessionEarned(n1, n1.auth, b) && SessionEarned(n1, n1.game, b) && KeyIssued(n1, b) {
      assert SessionEarned(n, n.auth, b) && SessionEarned(n, n.game, b) && KeyIssued(n, b);
    }
    forall f ensures FactEarned(n1, f) {
      assert FactEarned(n, f);
    }
  }

  /** For all earned states: a step keeps provenance exactly when its login, if it is one, fits. */
  lemma StepEarnedIff(n: Net, ev: Event)
    requires Earned(n)
    ensures Earned(Step(n, ev)) <==> Fitting(n, ev)
  {
    if ev.Login? && ev.verdict.Some? {
      LoginEarnedIff(n, ev.from, ev.username, ev.verdict.value);
    } else if ev.Select? && MaySelect(n, ev.from, ev.charId, ev.serverFound) {
      SelectEarned(n, ev.from, ev.charId);
    } else if ev.GameConnect? {
      ConnectEarned(n, ev.from, ev.key);
    } else {
      QuietStepEarned(n, ev);
    }
  }

  /** Steps that write nothing into a hash and log nobody in. */
  lemma QuietStepEarned(n: Net, ev: Event)
    requires Earned(n)
    requires !(ev.Login? && ev.verdict.Some?) && !(ev.Select? && MaySelect(n, ev.from, ev.charId, ev.serverFound)) && !ev.GameConnect?
    ensures Earned(Step(n, ev))
  {
    var n1 := Step(n, ev);
    if ev.Tick? { EraseAllSubset(n.auth, ev.keys); }
    if ev.GameSweep? { EraseAllSubset(n.game, ev.keys); }
    forall key ensures HashEarned(n1, key) {
      assert HashEarned(n, key);
    }
    forall b ensures SessionEarned(n1, n1.auth, b) && SessionEarned(n1, n1.game, b) && KeyIssued(n1, b) {
      assert SessionEarned(n, n.auth, b) && SessionEarned(n, n.game, b) && KeyIssued(n, b);
    }
    forall f ensures FactEarned(n1, f) {
      assert FactEarned(n, f);
    }
  }

  ghost predicate FittingRun(n: Net, evs: seq<Event>)
    decreases |evs|
  {
    evs == [] || (Fitting(n, evs[0]) && FittingRun(Step(n, evs[0]), evs[1..]))
  }

  /** Provenance holds in every state of the run. */
  ghost predicate AlwaysEarned(n: Net, evs: seq<Event>)
    decreases |evs|
  {
    Earned(n) && (evs == [] || AlwaysEarned(Step(n, evs[0]), evs[1..]))
  }

  /** Provenance over every interleaving, also with keys issued again and repeated logins: it holds
      throughout a run exactly when every accepted login in it fits. */
  lemma {:induction false} RunsEarnedIff(n: Net, evs: seq<Event>)
    requires Earned(n)
    ensures AlwaysEarned(n, evs) <==> FittingRun(n, evs)
    decreases |evs|
  {
    if evs != [] {
      StepEarnedIff(n, evs[0]);
      if Fitting(n, evs[0]) {
        RunsEarnedIff(Step(n, evs[0]), evs[1..]);
      }
    }
  }

  lemma {:induction false} FittingRunEarned(n: Net, evs: seq<Event>)
    requires Earned(n) && FittingRun(n, evs)
    ensures Earned(Run(n, evs))
    decreases |evs|
  {
    if evs != [] {
      StepEarnedIff(n, evs[0]);
      FittingRunEarned(Step(n, evs[0]), evs[1..]);
    }
  }

  /** A game session that holds key K, account P and character C goes back to an issue of K, an
      accepted login with K as P, and a select of C with K by P that passed the ownership check. */
  lemma GameSessionProvenance(now: int, chars: map<int, Character>, evs: seq<Event>, a: Addr)
    requires FittingRun(Start(now, chars), evs) && a in Run(Start(now, chars), evs).game
    ensures var n := Run(Start(now, chars), evs);
      var g := n.game[a];
      && (g.playerId != -1 ==> Issued(g.key) in n.history && LoggedIn(g.key, g.playerId) in n.history)
      && (g.charId != -1 ==> g.playerId != -1 && Selected(g.key, g.playerId, g.charId) in n.history)
  {
    FittingRunEarned(Start(now, chars), evs);
    var n := Run(Start(now, chars), evs);
    assert SessionEarned(n, n.game, a);
    assert FactEarned(n, LoggedIn(n.game[a].key, n.game[a].playerId));
  }

  // ----- one account per key -----

  ghost predicate OneAccount(n: Net) {
    forall key, p, q :: LoggedIn(key, p) in n.history && LoggedIn(key, q) in n.history ==> p == q
  }

  /** Nobody else has logged in with the key of this login. */
  ghost predicate SameAccount(n: Net, ev: Event) {
    ev.Login? && ev.verdict.Some? ==>
      forall p :: LoggedIn(At(n.auth, ev.from).key, p) in n.history ==> p == ev.verdict.value
  }

  ghost predicate SameAccountRun(n: Net, evs: seq<Event>)
    decreases |evs|
  {
    evs == [] || (SameAccount(n, evs[0]) && SameAccountRun(Step(n, evs[0]), evs[1..]))
  }

  lemma StepOneAccountIff(n: Net, ev: Event)
    requires OneAccount(n)
    ensures OneAccount(Step(n, ev)) <==> SameAccount(n, ev)
  {
    var n1 := Step(n, ev);
    if ev.Login? && ev.verdict.Some? {
      var key := At(n.auth, ev.from).key;
      assert LoggedIn(key, ev.verdict.value) in n1.history;
      if p :| LoggedIn(key, p) in n.history && p != ev.verdict.value {
        assert LoggedIn(key, p) in n1.history;
      }
    }
  }

  /** When in addition each key is used by one account, the account of a game session is the only one
      that ever logged in with its key. */
  lemma {:induction false} SoleAccount(n: Net, evs: seq<Event>, a: Addr, p: int)
    requires Earned(n) && OneAccount(n) && FittingRun(n, evs) && SameAccountRun(n, evs)
    requires a in Run(n, evs).game && Run(n, evs).game[a].playerId != -1
    requires LoggedIn(Run(n, evs).game[a].key, p) in Run(n, evs).history
    ensures p == Run(n, evs).game[a].playerId
    decreases |evs|
  {
    if evs == [] {
      assert SessionEarned(n, n.game, a);
    } else {
      StepEarnedIff(n, evs[0]);
      StepOneAccountIff(n, evs[0]);
      SoleAccount(Step(n, evs[0]), evs[1..], a, p);
    }
  }

  /** A login that does not fit: after a select, another account logs in with the same session, and
      the hash pairs it with the character the first one selected. */
  lemma SecondLoginBorrowsCharacter() returns (n: Net, a: Addr)
    ensures a in n.game && n.game[a].playerId == 8 && n.game[a].charId == 1
    ensures 1 in n.chars && n.chars[1].account == 7
    ensures Selected(n.game[a].key, 8, 1) !in n.history
  {
    var c := Addr(1, 1);
    a := Addr(2, 2);
    var n0 := Start(0, map[1 := Character(7, ANA)]);
    var n1 := Step(n0, AuthConnect(c, "k"));
    var n2 := Step(n1, Login(c, ANA, Some(7)));
    var n3 := Step(n2, Select(c, 1, true));
    var n4 := Step(n3, Login(c, BOB, Some(8)));
    n := Step(n4, GameConnect(a, "k"));
  }
}
